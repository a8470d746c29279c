/** EnemyController (in both EnemyController_Cian.cs and the first part of
    EnemyController.cs, whose movement code is the same): the replan
    throttle, path following with its rotation counter and stuck timer, and
    the line-of-sight test. Vector maths comes in as a Frame value: the
    transform moves by MoveTowards, distances are Vector3.Distance and
    facing angles are Atan2 in degrees; the pathfinder's answer is passed in
    as the path it would return. */
module EnemyNav {
  import opened Common

  /** One frame of the game: Time.deltaTime, Vector3.MoveTowards with the
      frame's step moveSpeed * deltaTime, Vector3.Distance, and the heading
      Atan2(dir.y, dir.x) * Rad2Deg. */
  datatype Frame = Frame(deltaTime: real, moveTowards: (Vec, Vec) -> Vec, distance: (Vec, Vec) -> real, heading: Vec -> real)

  /** The inspector settings of the movement code. */
  datatype Config = Config(timer: int, rotationTimer: int, stuckThreshold: real)

  const Defaults: Config := Config(50, 2, 0.1)

  /** The fields the movement code updates. `currentPath` is None while it
      is still null; `rotation` is the z angle of the transform. */
  datatype Nav = Nav(timerTime: int, rotationTimerCount: int, timeStuck: real, currentPath: Option<seq<Vec>>,
                     currentNodeIndex: int, isMoving: bool, inView: bool, position: Vec, rotation: real)

  /** What every method keeps: the counters the code only increments or
      resets stay non-negative, and the stuck timer never stays above 2. */
  predicate Valid(s: Nav) {
    s.timerTime >= 0 && s.rotationTimerCount >= 0 && s.currentNodeIndex >= 0 && s.timeStuck <= 2.0
  }

  // ---------------------------------------------------------------------
  // The steps, as functions of the old state

  /** GoTo: face the target unless the player is in view, then step
      straight towards it. */
  function GoToNext(c: Config, s: Nav, target: Vec, m: Frame): Nav {
    var direction := Sub(target, s.position);
    var faced := if direction != Zero && !s.inView then s.(rotation := m.heading(direction) - 90.0) else s;
    faced.(position := m.moveTowards(s.position, target))
  }

  /** MoveToHere: count the call; only every timer-th call replans, taking
      the path the pathfinder returns, or going straight for the target when
      that path is empty. */
  function MoveToHereNext(c: Config, s: Nav, target: Vec, planned: seq<Vec>, m: Frame): Nav {
    var t := s.timerTime + 1;
    if t < c.timer then s.(timerTime := t)
    else
      var replanned := s.(timerTime := 0, currentPath := Some(planned));
      if |planned| > 0 then replanned.(currentNodeIndex := 0, isMoving := true)
      else GoToNext(c, replanned, target, m)
  }

  /** A replan happens on this call of MoveToHere. */
  predicate Replans(c: Config, s: Nav) {
    s.timerTime + 1 >= c.timer
  }

  /** The rotation counter: with a nonzero direction it resets once it is
      past rotationTimer and the enemy is beyond the first node, and counts
      up otherwise; the transform turns only on a reset and only while the
      player is not in view. */
  function Rotate(c: Config, s: Nav, node: Vec, m: Frame): Nav {
    var direction := Sub(node, s.position);
    if direction == Zero then s
    else if s.rotationTimerCount > c.rotationTimer && s.currentNodeIndex > 0 then
      s.(rotation := if s.inView then s.rotation else m.heading(direction) - 90.0, rotationTimerCount := 0)
    else s.(rotationTimerCount := s.rotationTimerCount + 1)
  }

  /** The stuck timer accumulates while the enemy is within stuckThreshold
      of the node and resets otherwise. */
  function Stuck(c: Config, s: Nav, node: Vec, m: Frame): Nav {
    if m.distance(s.position, node) < c.stuckThreshold then s.(timeStuck := s.timeStuck + m.deltaTime)
    else s.(timeStuck := 0.0)
  }

  /** Once the stuck timer passes 2 seconds, a throttled MoveToHere towards
      the node, and the timer is cleared. */
  function UnstickNext(c: Config, s: Nav, node: Vec, planned: seq<Vec>, m: Frame): Nav {
    var timed := Stuck(c, s, node, m);
    if timed.timeStuck > 2.0 then MoveToHereNext(c, timed, node, planned, m).(timeStuck := 0.0) else timed
  }

  /** FollowPath: past the end of the path it stops; otherwise it turns,
      steps towards the current node, runs the stuck timer (a throttled
      MoveToHere towards that node once it passes 2 seconds), and advances
      the index when within 0.1 of the node it captured at the start. */
  function FollowPathNext(c: Config, s: Nav, planned: seq<Vec>, m: Frame): Nav
    requires s.currentPath.Some? && s.currentNodeIndex >= 0
  {
    var path := s.currentPath.value;
    if s.currentNodeIndex >= |path| then s.(isMoving := false)
    else
      var node := path[s.currentNodeIndex];
      var turned := Rotate(c, s, node, m);
      var moved := turned.(position := m.moveTowards(turned.position, node));
      var unstuck := UnstickNext(c, moved, node, planned, m);
      if m.distance(unstuck.position, node) < 0.1 then unstuck.(currentNodeIndex := unstuck.currentNodeIndex + 1)
      else unstuck
  }

  /** Update, for movement: `seen` is isPlayerInSight; the enemy then faces
      and heads for the player, and follows its path while moving. The two
      replans a frame can ask for, towards the player and (when stuck)
      towards the current node, each get the path the pathfinder returns
      for them. */
  function UpdateNext(c: Config, s: Nav, seen: bool, playerPosition: Vec, plannedSight: seq<Vec>, plannedStuck: seq<Vec>,
                      m: Frame): Nav
    requires s.currentNodeIndex >= 0
  {
    var looked := if seen then
                    var faced := s.(rotation := m.heading(Sub(playerPosition, s.position)) - 90.0, inView := true);
                    MoveToHereNext(c, faced, playerPosition, plannedSight, m)
                  else s.(inView := false);
    if looked.isMoving && looked.currentPath.Some? then FollowPathNext(c, looked, plannedStuck, m) else looked
  }

  // ---------------------------------------------------------------------
  // What the steps promise

  /** The throttle: below the threshold only the counter moves; at it the
      counter resets and the new path is taken. On a non-empty path the
      enemy starts along it from index 0 without moving yet; on an empty one
      it goes straight for the target instead, facing it unless the player
      is in view, with the path flags untouched. */
  lemma MoveToHereFacts(c: Config, s: Nav, target: Vec, planned: seq<Vec>, m: Frame)
    ensures var r := MoveToHereNext(c, s, target, planned, m);
      && (!Replans(c, s) ==> r == s.(timerTime := s.timerTime + 1))
      && (Replans(c, s) ==> r.timerTime == 0 && r.currentPath == Some(planned))
      && (Replans(c, s) && |planned| > 0 ==>
            r.currentNodeIndex == 0 && r.isMoving && r.position == s.position && r.rotation == s.rotation)
      && (Replans(c, s) && |planned| == 0 ==>
            && r.currentNodeIndex == s.currentNodeIndex && r.isMoving == s.isMoving
            && r.position == m.moveTowards(s.position, target)
            && r.rotation == (if Sub(target, s.position) != Zero && !s.inView then m.heading(Sub(target, s.position)) - 90.0
                              else s.rotation))
      && r.rotationTimerCount == s.rotationTimerCount && r.timeStuck == s.timeStuck && r.inView == s.inView
  {
  }

  /** The throttle counter after one call. */
  function Tick(timer: int, t: int): int {
    if t + 1 < timer then t + 1 else 0
  }

  /** The throttle counter after n calls from a fresh component. */
  function Ticks(timer: int, n: nat): int {
    if n == 0 then 0 else Tick(timer, Ticks(timer, n - 1))
  }

  lemma TickOfMoveToHere(c: Config, s: Nav, target: Vec, planned: seq<Vec>, m: Frame)
    ensures MoveToHereNext(c, s, target, planned, m).timerTime == Tick(c.timer, s.timerTime)
  {
  }

  /** In the first period the counter simply counts the calls. */
  lemma {:induction false} ThrottleFirstPeriod(timer: int, n: nat)
    requires n < timer
    ensures Ticks(timer, n) == n
  {
    if n > 0 {
      ThrottleFirstPeriod(timer, n - 1);
    }
  }

  /** After that it repeats with period timer, so (from a fresh component)
      the n-th call replans exactly when n is a multiple of timer. */
  lemma {:induction false} ThrottlePeriodic(timer: int, n: nat)
    requires timer >= 1
    ensures Ticks(timer, n + timer) == Ticks(timer, n)
  {
    if n == 0 {
      ThrottleFirstPeriod(timer, timer - 1);
    } else {
      ThrottlePeriodic(timer, n - 1);
    }
  }

  /** A call replans exactly when it brings the counter back to 0. */
  lemma ReplanIffReset(c: Config, s: Nav)
    requires c.timer >= 1 && s.timerTime >= 0
    ensures Replans(c, s) <==> Tick(c.timer, s.timerTime) == 0
  {
  }

  /** FollowPath at or past the end of the path only stops. */
  lemma FollowPathAtEnd(c: Config, s: Nav, planned: seq<Vec>, m: Frame)
    requires s.currentPath.Some? && s.currentNodeIndex >= |s.currentPath.value|
    ensures FollowPathNext(c, s, planned, m) == s.(isMoving := false)
  {
  }

  /** Along the path, the index moves on by exactly one when the enemy ends
      within 0.1 of the node it set out for, from where it was or, when the
      stuck timer forced a replan onto a non-empty path, from 0. */
  lemma FollowPathIndex(c: Config, s: Nav, planned: seq<Vec>, m: Frame)
    requires s.currentPath.Some? && 0 <= s.currentNodeIndex < |s.currentPath.value|
    ensures var r := FollowPathNext(c, s, planned, m);
      var node := s.currentPath.value[s.currentNodeIndex];
      || r.currentNodeIndex == s.currentNodeIndex + (if m.distance(r.position, node) < 0.1 then 1 else 0)
      || (r.currentNodeIndex == (if m.distance(r.position, node) < 0.1 then 1 else 0)
          && r.currentPath == Some(planned) && |planned| > 0)
  {
  }

  /** The throttle keeps the state Valid and leaves the rotation and stuck
      state alone. */
  lemma MoveToHereValid(c: Config, s: Nav, target: Vec, planned: seq<Vec>, m: Frame)
    requires Valid(s)
    ensures var r := MoveToHereNext(c, s, target, planned, m);
      Valid(r) && r.rotationTimerCount == s.rotationTimerCount && r.inView == s.inView
      && (s.currentPath.Some? ==> r.currentPath.Some?)
  {
  }

  /** Whatever the timer was, after the stuck check it is at most 2. */
  lemma UnstickValid(c: Config, s: Nav, node: Vec, planned: seq<Vec>, m: Frame)
    requires s.timerTime >= 0 && s.rotationTimerCount >= 0 && s.currentNodeIndex >= 0
    ensures var r := UnstickNext(c, s, node, planned, m);
      Valid(r) && r.rotationTimerCount == s.rotationTimerCount && r.inView == s.inView
  {
    var timed := Stuck(c, s, node, m);
    if timed.timeStuck > 2.0 {
      MoveToHereValid(c, timed.(timeStuck := 0.0), node, planned, m);
      assert MoveToHereNext(c, timed, node, planned, m).(timeStuck := 0.0)
          == MoveToHereNext(c, timed.(timeStuck := 0.0), node, planned, m);
    }
  }

  /** The rotation counter: with a nonzero direction to the current node
      it resets exactly when it is past rotationTimer and the enemy is
      beyond the first node, and counts up by one otherwise; with no
      direction, or past the end of the path, it stays. The stuck timer
      ends at most 2 and the state stays Valid. */
  lemma FollowPathCounters(c: Config, s: Nav, planned: seq<Vec>, m: Frame)
    requires s.currentPath.Some? && Valid(s)
    ensures var r := FollowPathNext(c, s, planned, m);
      && Valid(r) && r.inView == s.inView
      && (s.currentNodeIndex >= |s.currentPath.value| ==> r.rotationTimerCount == s.rotationTimerCount)
    ensures s.currentNodeIndex < |s.currentPath.value| ==>
      var r := FollowPathNext(c, s, planned, m);
      var direction := Sub(s.currentPath.value[s.currentNodeIndex], s.position);
      var due := s.rotationTimerCount > c.rotationTimer && s.currentNodeIndex > 0;
      && (direction != Zero && due ==> r.rotationTimerCount == 0)
      && (direction != Zero && !due ==> r.rotationTimerCount == s.rotationTimerCount + 1)
      && (direction == Zero ==> r.rotationTimerCount == s.rotationTimerCount)
  {
    if s.currentNodeIndex < |s.currentPath.value| {
      var node := s.currentPath.value[s.currentNodeIndex];
      var turned := Rotate(c, s, node, m);
      var moved := turned.(position := m.moveTowards(turned.position, node));
      UnstickValid(c, moved, node, planned, m);
    }
  }

  /** A frame keeps the state Valid and records whether the player was
      seen. */
  lemma UpdateValid(c: Config, s: Nav, seen: bool, playerPosition: Vec, plannedSight: seq<Vec>, plannedStuck: seq<Vec>, m: Frame)
    requires Valid(s)
    ensures var r := UpdateNext(c, s, seen, playerPosition, plannedSight, plannedStuck, m);
      Valid(r) && r.inView == seen
  {
    var faced := s.(rotation := m.heading(Sub(playerPosition, s.position)) - 90.0, inView := true);
    var looked := if seen then MoveToHereNext(c, faced, playerPosition, plannedSight, m) else s.(inView := false);
    if seen {
      MoveToHereValid(c, faced, playerPosition, plannedSight, m);
    }
    assert looked.currentNodeIndex >= 0;
    assert UpdateNext(c, s, seen, playerPosition, plannedSight, plannedStuck, m)
        == if looked.isMoving && looked.currentPath.Some? then FollowPathNext(c, looked, plannedStuck, m) else looked;
    if looked.isMoving && looked.currentPath.Some? {
      FollowPathCounters(c, looked, plannedStuck, m);
    }
  }

  /** The stuck timer: more than 2 seconds near the node triggers
      MoveToHere towards it and clears the timer. */
  lemma StuckTriggersReplan(c: Config, s: Nav, planned: seq<Vec>, m: Frame)
    requires s.currentPath.Some? && 0 <= s.currentNodeIndex < |s.currentPath.value|
    ensures var node := s.currentPath.value[s.currentNodeIndex];
      var moved := Rotate(c, s, node, m).(position := m.moveTowards(s.position, node));
      var r := FollowPathNext(c, s, planned, m);
      && (m.distance(moved.position, node) >= c.stuckThreshold ==> r.timeStuck == 0.0)
      && (Stuck(c, moved, node, m).timeStuck > 2.0 ==> r.timeStuck == 0.0 && r.timerTime == Tick(c.timer, s.timerTime))
      && (Stuck(c, moved, node, m).timeStuck <= 2.0 ==> r.timerTime == s.timerTime && r.currentPath == s.currentPath)
  {
  }

  /** Because the advance test uses the node captured before the stuck
      timer's replan, one FollowPath call can reset the index to 0 and move
      it on to 1. */
  lemma ReplanThenAdvance()
    ensures var m := Frame(0.5, (a, b) => b, (a, b) => 0.0, d => 0.0);
      var c := Config(1, 2, 0.1);
      var s := Nav(0, 0, 1.9, Some([Zero, Zero, Zero, Zero]), 3, true, false, Zero, 0.0);
      var r := FollowPathNext(c, s, [Zero, Zero], m);
      r.currentNodeIndex == 1 && r.currentPath == Some([Zero, Zero]) && r.timeStuck == 0.0
  {
  }

  // ---------------------------------------------------------------------
  // Line of sight

  /** What isPlayerInSight looks at: whether a player is assigned, the
      distance and the angle (Vector3.Angle) to it, and the raycast result:
      None for no collider, Some(p) when its object has a Player component
      exactly if p. */
  datatype Sight = Sight(hasPlayer: bool, distance: real, angle: real, hit: Option<bool>)

  /** isPlayerInSight of EnemyController_Cian.cs: a chain of early
      returns. */
  function InSightGuarded(v: Sight, viewDistance: real, fov: real): bool {
    if !v.hasPlayer then false
    else if v.distance >= viewDistance then false
    else if v.angle >= fov / 2.0 then false
    else if v.hit.None? then false
    else v.hit.value
  }

  /** isPlayerInSight of EnemyController.cs: the same tests nested, with a
      flag that starts false. */
  function InSightNested(v: Sight, viewDistance: real, fov: real): bool {
    var isPlayerInSight := false;
    if !v.hasPlayer then false
    else if v.distance < viewDistance then
      if v.angle < fov / 2.0 then
        if v.hit.Some? && v.hit.value then true else isPlayerInSight
      else isPlayerInSight
    else isPlayerInSight
  }

  /** Both versions see the player exactly when it is assigned, nearer than
      viewDistance, within half the field of view and hit by the ray. */
  lemma InSightAgree(v: Sight, viewDistance: real, fov: real)
    ensures InSightGuarded(v, viewDistance, fov) == InSightNested(v, viewDistance, fov)
    ensures InSightGuarded(v, viewDistance, fov)
            <==> v.hasPlayer && v.distance < viewDistance && v.angle < fov / 2.0 && v.hit == Some(true)
  {
  }

  // ---------------------------------------------------------------------
  // The component

  /** The EnemyController MonoBehaviour, restricted to its movement state. */
  class EnemyController {
    var timer: int
    var rotationTimer: int
    var stuckThreshold: real
    var fov: real
    var viewDistance: real
    var timerTime: int
    var rotationTimerCount: int
    var timeStuck: real
    var currentPath: Option<seq<Vec>>
    var currentNodeIndex: int
    var isMoving: bool
    var isPlayerInView: bool
    var position: Vec
    var rotation: real

    function Settings(): Config
      reads this
    {
      Config(timer, rotationTimer, stuckThreshold)
    }

    function State(): Nav
      reads this
    {
      Nav(timerTime, rotationTimerCount, timeStuck, currentPath, currentNodeIndex, isMoving, isPlayerInView, position, rotation)
    }

    /** The field initialisers and Start. */
    constructor(position: Vec, rotation: real)
      ensures Settings() == Defaults && fov == 30.0 && viewDistance == 1.0
      ensures State() == Nav(0, 0, 0.0, None, 0, false, false, position, rotation)
      ensures Valid(State())
    {
      timer, rotationTimer, stuckThreshold := 50, 2, 0.1;
      fov, viewDistance := 30.0, 1.0;
      timerTime, rotationTimerCount, timeStuck := 0, 0, 0.0;
      currentPath, currentNodeIndex, isMoving, isPlayerInView := None, 0, false, false;
      this.position, this.rotation := position, rotation;
    }

    method GoTo(target: Vec, m: Frame)
      modifies this
      ensures State() == GoToNext(old(Settings()), old(State()), target, m)
      ensures Settings() == old(Settings()) && fov == old(fov) && viewDistance == old(viewDistance)
    {
      var directionToTarget := Sub(target, position);
      if directionToTarget != Zero {
        var angle := m.heading(directionToTarget) - 90.0;
        if !isPlayerInView {
          rotation := angle;
        }
      }
      position := m.moveTowards(position, target);
    }

    /** EnemyController.MoveToHere. */
    method MoveToHere(target: Vec, planned: seq<Vec>, m: Frame)
      modifies this
      ensures State() == MoveToHereNext(old(Settings()), old(State()), target, planned, m)
      ensures Settings() == old(Settings()) && fov == old(fov) && viewDistance == old(viewDistance)
    {
      timerTime := timerTime + 1;
      if timerTime < timer {
        return;
      }
      timerTime := 0;
      currentPath := Some(planned);
      if |planned| > 0 {
        currentNodeIndex := 0;
        isMoving := true;
      } else {
        GoTo(target, m);
      }
    }

    /** EnemyController.FollowPath. */
    method FollowPath(planned: seq<Vec>, m: Frame)
      requires currentPath.Some? && currentNodeIndex >= 0
      modifies this
      ensures State() == FollowPathNext(old(Settings()), old(State()), planned, m)
      ensures Settings() == old(Settings()) && fov == old(fov) && viewDistance == old(viewDistance)
    {
      if currentNodeIndex >= |currentPath.value| {
        isMoving := false;
        return;
      }
      var targetNode := currentPath.value[currentNodeIndex];
      Turn(targetNode, m);
      position := m.moveTowards(position, targetNode);
      Unstick(targetNode, planned, m);
      if m.distance(position, targetNode) < 0.1 {
        currentNodeIndex := currentNodeIndex + 1;
      }
    }

    /** The rotation part of FollowPath. */
    method Turn(targetNode: Vec, m: Frame)
      modifies this
      ensures State() == Rotate(old(Settings()), old(State()), targetNode, m)
      ensures Settings() == old(Settings()) && fov == old(fov) && viewDistance == old(viewDistance)
    {
      var directionToTarget := Sub(targetNode, position);
      if directionToTarget != Zero {
        if rotationTimerCount > rotationTimer && currentNodeIndex > 0 {
          var angle := m.heading(directionToTarget) - 90.0;
          if !isPlayerInView {
            rotation := angle;
          }
          rotationTimerCount := 0;
        } else {
          rotationTimerCount := rotationTimerCount + 1;
        }
      }
    }

    /** The stuck-timer part of FollowPath. */
    method Unstick(targetNode: Vec, planned: seq<Vec>, m: Frame)
      modifies this
      ensures State() == UnstickNext(old(Settings()), old(State()), targetNode, planned, m)
      ensures Settings() == old(Settings()) && fov == old(fov) && viewDistance == old(viewDistance)
    {
      if m.distance(position, targetNode) < stuckThreshold {
        timeStuck := timeStuck + m.deltaTime;
      } else {
        timeStuck := 0.0;
      }
      if timeStuck > 2.0 {
        MoveToHere(targetNode, planned, m);
        timeStuck := 0.0;
      }
    }

    /** EnemyController.Update, for movement: on sight of the player the
        enemy faces it and heads for it; it then follows its path while it
        is moving and has one. */
    method Update(sight: Sight, playerPosition: Vec, plannedSight: seq<Vec>, plannedStuck: seq<Vec>, m: Frame)
      requires currentNodeIndex >= 0
      modifies this
      ensures State() == UpdateNext(old(Settings()), old(State()), InSightGuarded(sight, old(viewDistance), old(fov)),
                                    playerPosition, plannedSight, plannedStuck, m)
      ensures Settings() == old(Settings()) && fov == old(fov) && viewDistance == old(viewDistance)
    {
      if InSightGuarded(sight, viewDistance, fov) {
        rotation := m.heading(Sub(playerPosition, position)) - 90.0;
        isPlayerInView := true;
        MoveToHere(playerPosition, plannedSight, m);
      } else {
        isPlayerInView := false;
      }
      if isMoving && currentPath.Some? {
        FollowPath(plannedStuck, m);
      }
    }
  }
}

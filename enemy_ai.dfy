/** The behaviour state machine of EnemyAI: five states, per-frame countdown
    timers, and the WaitBeforeSearch and SmoothSearchRoutine coroutines as
    explicit sub-states of one routine slot. Each frame runs Update and then
    resumes the routine, as Unity does with a coroutine that yields null. */
module EnemyAI {
  import opened Common
  import opened EnemyFov

  /** The public inspector settings the state machine reads: the turning
      speed in degrees per second and the four timer lengths in seconds. */
  datatype Settings = Settings(rotationSpeed: real, wanderTime: real, idleTime: real, searchWaitTime: real, searchDuration: real)

  /** The values the component declares. */
  const Defaults: Settings := Settings(100.0, 2.0, 2.0, 2.0, 3.0)

  /** The search timer's decrement per left-right-centre cycle. */
  const SearchCycle: real := 1.5
  /** The WaitForSeconds between the turns of a cycle. */
  const SearchPause: real := 0.5
  const AttackFov: real := 45.0
  const AttackViewDistance: real := 17.0

  /** Rotation and random direction, which come from Unity: the angle
      between two z rotations (Quaternion.Angle), a rotation moved towards
      another by at most speed * dt degrees (Quaternion.RotateTowards with
      that step), the up vector of
      a rotation, the rotation facing a direction (Atan2 in degrees less 90),
      the n-th draw of Random.Range(0, 360), and the unit vector at an angle. */
  datatype Motion = Motion(angle: (real, real) -> real, rotateTowards: (real, real, real, real) -> real,
                           up: real -> Vec, facing: Vec -> real, random: nat -> real, direction: real -> Vec)

  datatype Mode = Wandering | Idle | Attack | Searching | WaitingToSearch

  /** Where SmoothSearchRoutine stands: inside SmoothRotate number `turn`
      (0, 1, 2) towards a target rotation, or in the half-second pause after it. */
  datatype Step = Turning(turn: nat, target: real) | Pausing(turn: nat, left: real)

  /** The coroutine slot: nothing, WaitBeforeSearch at its loop head with
      its timer, or SmoothSearchRoutine with its search timer. */
  datatype Routine = NoRoutine | Waiting(timer: real) | Search(searchTimer: real, step: Step)

  datatype Ai = Ai(mode: Mode, wanderTimer: real, idleTimer: real, rotation: real, currentDirection: Vec,
                   draws: nat, playerVisible: bool, player: Option<Collider>, routine: Routine,
                   settings: Settings)

  /** The enemy together with the state of its field of view. */
  datatype World = World(ai: Ai, fov: Fov)

  /** EnemyFOV.IsPlayerInFOV for a field-of-view state. */
  function Sees(f: Fov, g: Scene): Option<Collider> {
    FirstSpotted(f, g, g.overlap(g.position, f.viewDistance))
  }

  /** The rotation of SmoothRotate number k relative to the current one. */
  function TurnAngle(k: nat): real {
    if k == 0 then -5.0 else if k == 1 then 50.0 else -45.0
  }

  function SetNewDirectionNext(a: Ai, m: Motion): Ai {
    a.(currentDirection := m.direction(m.random(a.draws)), draws := a.draws + 1)
  }

  /** Start: a random direction and a full wander timer. */
  function StartAiNext(a: Ai, m: Motion): Ai {
    SetNewDirectionNext(a, m).(wanderTimer := a.settings.wanderTime)
  }

  /** EnterAttackMode: the attack state, a narrow and long field of view in
      attack mode, facing the player. */
  function EnterAttackModeNext(w: World, c: Collider, g: Scene): World {
    var f1 := SetFovNext(w.fov, AttackFov, g);
    var f2 := SetViewDistanceNext(f1, AttackViewDistance);
    var f3 := SetAttackModeNext(f2, true, g);
    World(w.ai.(mode := Attack), SetDirectionNext(f3, g.normalized(Sub(c.position, g.position)), g))
  }

  /** A coroutine's respot: remember the player and enter attack mode. */
  function RespotNext(w: World, c: Collider, g: Scene, routine: Routine): World {
    EnterAttackModeNext(w.(ai := w.ai.(player := Some(c), routine := routine)), c, g)
  }

  /** ExitSearchMode: wander again with the default field of view and a new direction. */
  function ExitSearchModeNext(w: World, g: Scene, m: Motion): World {
    World(SetNewDirectionNext(w.ai.(mode := Wandering, routine := NoRoutine), m), ResetToDefaultNext(w.fov, g))
  }

  /** WaitBeforeSearch at the head of its loop. */
  function WaitNext(w: World, timer: real, g: Scene, m: Motion, dt: real): World
    decreases 1, 2
  {
    if timer > 0.0 then
      match Sees(w.fov, g)
      case Some(c) => RespotNext(w, c, g, NoRoutine)
      case None => w.(ai := w.ai.(routine := Waiting(timer - dt)))
    else EnterSearchModeNext(w, g, m, dt)
  }

  function EnterSearchModeNext(w: World, g: Scene, m: Motion, dt: real): World
    decreases 1, 1
  {
    SearchHeadNext(w.(ai := w.ai.(mode := Searching)), w.ai.settings.searchDuration, g, m, dt)
  }

  /** SmoothSearchRoutine at the head of its loop. */
  function SearchHeadNext(w: World, searchTimer: real, g: Scene, m: Motion, dt: real): World
    decreases 1, 0
  {
    if searchTimer > 0.0 then StartTurnNext(w, 0, searchTimer, g, m, dt) else ExitSearchModeNext(w, g, m)
  }

  function StartTurnNext(w: World, k: nat, searchTimer: real, g: Scene, m: Motion, dt: real): World
    decreases k, 2
  {
    TurnNext(w, k, w.ai.rotation + TurnAngle(k), searchTimer, g, m, dt)
  }

  /** SmoothRotate at the head of its loop: done within 0.1 degrees; a
      respot enters attack mode and ends this rotation only; otherwise one
      rotation step and a yield. */
  function TurnNext(w: World, k: nat, target: real, searchTimer: real, g: Scene, m: Motion, dt: real): World
    decreases k, 1
  {
    if m.angle(w.ai.rotation, target) > 0.1 then
      match Sees(w.fov, g)
      case Some(c) => AfterTurnNext(RespotNext(w, c, g, w.ai.routine), k, searchTimer, g, m, dt)
      case None =>
        var r := m.rotateTowards(w.ai.rotation, target, w.ai.settings.rotationSpeed, dt);
        World(w.ai.(rotation := r, routine := Search(searchTimer, Turning(k, target))), SetDirectionNext(w.fov, m.up(r), g))
    else AfterTurnNext(w, k, searchTimer, g, m, dt)
  }

  /** After turn k: the pause after the first two turns; after the third,
      a respot ends the search, otherwise one cycle is counted off. */
  function AfterTurnNext(w: World, k: nat, searchTimer: real, g: Scene, m: Motion, dt: real): World
    decreases k, 0
  {
    if k < 2 then w.(ai := w.ai.(routine := Search(searchTimer, Pausing(k, SearchPause))))
    else
      match Sees(w.fov, g)
      case Some(c) => RespotNext(w, c, g, NoRoutine)
      case None => SearchHeadNext(w, searchTimer - SearchCycle, g, m, dt)
  }

  /** The routine resuming after Update. */
  function ResumeNext(w: World, g: Scene, m: Motion, dt: real): World {
    match w.ai.routine
    case NoRoutine => w
    case Waiting(timer) => WaitNext(w, timer, g, m, dt)
    case Search(searchTimer, Turning(k, target)) => TurnNext(w, k, target, searchTimer, g, m, dt)
    case Search(searchTimer, Pausing(k, left)) =>
      if left - dt <= 0.0 then StartTurnNext(w, k + 1, searchTimer, g, m, dt)
      else w.(ai := w.ai.(routine := Search(searchTimer, Pausing(k, left - dt))))
  }

  /** StartCoroutine(WaitBeforeSearch): the waiting state, and the first
      pass of the coroutine's loop at once. It takes the routine slot. */
  function StartWaitNext(w: World, g: Scene, m: Motion, dt: real): World {
    WaitNext(w.(ai := w.ai.(mode := WaitingToSearch)), w.ai.settings.searchWaitTime, g, m, dt)
  }

  /** The perception half of Update. Whenever the player is visible
      afterwards, it is also remembered, which Attack relies on. */
  function PerceiveNext(w: World, g: Scene, m: Motion, dt: real): (r: World)
    ensures r.ai.playerVisible ==> r.ai.player.Some?
    ensures r.ai.playerVisible <==> Sees(w.fov, g).Some?
  {
    match Sees(w.fov, g)
    case Some(c) =>
      var w1 := w.(ai := w.ai.(player := Some(c), playerVisible := true));
      if w.ai.mode != Attack then EnterAttackModeNext(w1, c, g) else w1
    case None =>
      var w1 := w.(ai := w.ai.(playerVisible := false));
      if w.ai.mode == Attack then
        WaitConsistent(w1.(ai := w1.ai.(mode := WaitingToSearch)), w1.ai.settings.searchWaitTime, g, m, dt);
        StartWaitNext(w1, g, m, dt)
      else w1
  }

  /** Wander: turn towards the current direction until within 0.1 degrees;
      only then does the wander timer run, and at zero the enemy idles. */
  function WanderNext(w: World, g: Scene, m: Motion, dt: real): World {
    var target := m.facing(g.normalized(w.ai.currentDirection));
    var a :=
      if m.angle(w.ai.rotation, target) > 0.1 then w.ai.(rotation := m.rotateTowards(w.ai.rotation, target, w.ai.settings.rotationSpeed, dt))
      else if w.ai.wanderTimer - dt <= 0.0 then w.ai.(mode := Idle, idleTimer := w.ai.settings.idleTime, wanderTimer := w.ai.settings.wanderTime)
      else w.ai.(wanderTimer := w.ai.wanderTimer - dt);
    World(a, SetDirectionNext(w.fov, m.up(a.rotation), g))
  }

  /** Idle: the idle timer runs down; at zero a new direction, and wandering. */
  function IdleNext(a: Ai, m: Motion, dt: real): Ai {
    var t := a.idleTimer - dt;
    if t <= 0.0 then SetNewDirectionNext(a.(idleTimer := t), m).(mode := Wandering) else a.(idleTimer := t)
  }

  /** Attack: turn towards the player at half speed, facing the field of
      view at the player once within a degree; without sight of the player,
      start waiting to search. */
  function AttackNext(w: World, g: Scene, m: Motion, dt: real): World
    requires w.ai.playerVisible ==> w.ai.player.Some?
  {
    if w.ai.playerVisible then
      var direction := g.normalized(Sub(w.ai.player.value.position, g.position));
      var target := m.facing(direction);
      var r := m.rotateTowards(w.ai.rotation, target, w.ai.settings.rotationSpeed * 0.5, dt);
      World(w.ai.(rotation := r), if m.angle(r, target) < 1.0 then SetDirectionNext(w.fov, direction, g) else w.fov)
    else StartWaitNext(w, g, m, dt)
  }

  function DispatchNext(w: World, g: Scene, m: Motion, dt: real): World
    requires w.ai.playerVisible ==> w.ai.player.Some?
  {
    match w.ai.mode
    case Wandering => WanderNext(w, g, m, dt)
    case Idle => w.(ai := IdleNext(w.ai, m, dt))
    case Attack => AttackNext(w, g, m, dt)
    case WaitingToSearch => w
    case Searching => w
  }

  /** Update: perceive, act on the state, and face the field of view along
      the enemy's up vector. */
  function UpdateNext(w: World, g: Scene, m: Motion, dt: real): World {
    var p := PerceiveNext(w, g, m, dt);
    var d := DispatchNext(p, g, m, dt);
    d.(fov := SetDirectionNext(d.fov, m.up(d.ai.rotation), g))
  }

  /** Update starts a wait exactly when the player is lost in attack mode. */
  predicate StartsWait(w: World, g: Scene) {
    w.ai.mode == Attack && Sees(w.fov, g).None?
  }

  /** One frame: Update, then the routine, unless Update has just started
      it (a coroutine first resumes on the frame after its start). */
  function FrameNext(w: World, g: Scene, m: Motion, dt: real): World {
    var u := UpdateNext(w, g, m, dt);
    if StartsWait(w, g) then u else ResumeNext(u, g, m, dt)
  }

  /** The states the routine slot can be in for each mode. */
  predicate Consistent(a: Ai) {
    && (a.mode == Wandering || a.mode == Idle ==> a.routine == NoRoutine)
    && (a.mode == WaitingToSearch ==> a.routine.Waiting?)
    && (a.mode == Searching ==> a.routine.Search?)
    && (a.routine.Search? ==> a.routine.step.turn <= 2 && (a.routine.step.Pausing? ==> a.routine.step.turn < 2))
    && (a.playerVisible ==> a.player.Some?)
  }

  /** The enemy starts wandering with a full wander timer, facing a random direction. */
  lemma StartsWandering(a: Ai, m: Motion)
    requires a.mode == Wandering && a.routine == NoRoutine && !a.playerVisible
    ensures StartAiNext(a, m).mode == Wandering && StartAiNext(a, m).wanderTimer == a.settings.wanderTime
    ensures StartAiNext(a, m).currentDirection == m.direction(m.random(a.draws))
    ensures Consistent(StartAiNext(a, m))
  {
  }

  /** Seeing the player outside attack mode enters it with field of view
      45, view distance 17 and attack mode on; the running routine is left
      as it was. In attack mode, seeing the player changes no parameter. */
  lemma SpottedEntersAttack(w: World, g: Scene, m: Motion, dt: real)
    requires Sees(w.fov, g).Some?
    ensures var p := PerceiveNext(w, g, m, dt);
      && p.ai.mode == Attack && p.ai.playerVisible && p.ai.player == Sees(w.fov, g)
      && p.ai.routine == w.ai.routine
      && (w.ai.mode != Attack ==>
            p.fov.fov == AttackFov && p.fov.viewDistance == AttackViewDistance && p.fov.isInAttackMode)
      && (w.ai.mode == Attack ==> p.fov == w.fov)
  {
  }

  /** Losing the player in attack mode switches to waiting in the same
      Update: the coroutine's first check sees the same field of view and so
      does not respot, and its timer has run one frame. */
  lemma LostStartsWait(w: World, g: Scene, m: Motion, dt: real)
    requires w.ai.mode == Attack && Sees(w.fov, g).None? && w.ai.settings.searchWaitTime > 0.0
    ensures var p := PerceiveNext(w, g, m, dt);
      && p.ai.mode == WaitingToSearch && !p.ai.playerVisible
      && p.ai.routine == Waiting(w.ai.settings.searchWaitTime - dt) && p.fov == w.fov
      && DispatchNext(p, g, m, dt) == p
  {
    var w1 := w.(ai := w.ai.(playerVisible := false));
    assert w1.(ai := w1.ai.(mode := WaitingToSearch)).fov == w.fov;
  }

  /** Idle counts down by dt and, at or below zero, wanders in a new
      direction without resetting the idle timer. */
  lemma IdleCountdown(a: Ai, m: Motion, dt: real)
    ensures IdleNext(a, m, dt).idleTimer == a.idleTimer - dt
    ensures IdleNext(a, m, dt).mode == (if a.idleTimer - dt <= 0.0 then Wandering else a.mode)
    ensures a.idleTimer - dt <= 0.0 ==>
      IdleNext(a, m, dt).currentDirection == m.direction(m.random(a.draws)) && IdleNext(a, m, dt).draws == a.draws + 1
    ensures IdleNext(a, m, dt).routine == a.routine && IdleNext(a, m, dt).wanderTimer == a.wanderTimer
  {
  }

  /** The wander timer runs only on frames that start within 0.1 degrees of
      the wander direction; when it runs out the enemy idles with both
      timers full. */
  lemma WanderCountdown(w: World, g: Scene, m: Motion, dt: real)
    requires w.ai.mode == Wandering && dt > 0.0
    ensures var aligned := m.angle(w.ai.rotation, m.facing(g.normalized(w.ai.currentDirection))) <= 0.1;
      var n := WanderNext(w, g, m, dt).ai;
      && (n.wanderTimer != w.ai.wanderTimer <==> aligned && (w.ai.wanderTimer - dt > 0.0 || w.ai.wanderTimer != w.ai.settings.wanderTime))
      && (n.mode == Idle <==> aligned && w.ai.wanderTimer - dt <= 0.0)
      && (n.mode == Idle ==> n.idleTimer == w.ai.settings.idleTime && n.wanderTimer == w.ai.settings.wanderTime)
      && (n.mode != Idle ==> n.mode == Wandering && n.idleTimer == w.ai.idleTimer)
  {
  }

  /** WaitBeforeSearch: a respot enters attack mode and ends the wait;
      otherwise the timer drops by dt while positive, and then the search
      begins. */
  lemma WaitCountdown(w: World, timer: real, g: Scene, m: Motion, dt: real)
    ensures var n := WaitNext(w, timer, g, m, dt);
      && (timer > 0.0 && Sees(w.fov, g).Some? ==> n.ai.mode == Attack && n.ai.routine == NoRoutine && n.ai.player == Sees(w.fov, g))
      && (timer > 0.0 && Sees(w.fov, g).None? ==> n == w.(ai := w.ai.(routine := Waiting(timer - dt))))
      && (timer <= 0.0 ==> n == EnterSearchModeNext(w, g, m, dt))
  {
  }

  /** A respot inside SmoothRotate enters attack mode but ends only that
      rotation: after the first two turns the search goes on to its pause,
      with the search timer unchanged. */
  lemma RespotEndsOnlyTheTurn(w: World, k: nat, target: real, searchTimer: real, g: Scene, m: Motion, dt: real)
    requires k < 2 && m.angle(w.ai.rotation, target) > 0.1 && Sees(w.fov, g).Some?
    ensures var n := TurnNext(w, k, target, searchTimer, g, m, dt);
      && n.ai.mode == Attack && n.ai.player == Sees(w.fov, g)
      && n.ai.routine == Search(searchTimer, Pausing(k, SearchPause))
      && n.fov.fov == AttackFov && n.fov.viewDistance == AttackViewDistance && n.fov.isInAttackMode
  {
  }

  /** The end of a search cycle without sight of the player: the search
      timer drops by 1.5; at or below zero the enemy wanders with the
      default field of view and a new direction. */
  lemma SearchCycleEnd(w: World, searchTimer: real, g: Scene, m: Motion, dt: real)
    requires Sees(w.fov, g).None?
    ensures var n := AfterTurnNext(w, 2, searchTimer, g, m, dt);
      && (searchTimer - SearchCycle <= 0.0 ==>
            n.ai.mode == Wandering && n.ai.routine == NoRoutine && n.fov == ResetToDefaultNext(w.fov, g)
            && n.ai.currentDirection == m.direction(m.random(w.ai.draws)))
      && (searchTimer - SearchCycle > 0.0 ==>
            n == StartTurnNext(w, 0, searchTimer - SearchCycle, g, m, dt) && n.ai.mode == w.ai.mode
            && n.ai.routine.Search? && n.ai.routine.searchTimer == searchTimer - SearchCycle)
  {
    if searchTimer - SearchCycle > 0.0 {
      TurnKeepsSearching(w, 0, w.ai.rotation + TurnAngle(0), searchTimer - SearchCycle, g, m, dt);
    }
  }

  /** A first turn that finds no player keeps the search with its timer. */
  lemma TurnKeepsSearching(w: World, k: nat, target: real, searchTimer: real, g: Scene, m: Motion, dt: real)
    requires k < 2 && Sees(w.fov, g).None?
    ensures var n := TurnNext(w, k, target, searchTimer, g, m, dt);
      && n.ai.mode == w.ai.mode && n.ai.routine.Search? && n.ai.routine.searchTimer == searchTimer && n.ai.routine.step.turn == k
  {
  }

  /** With a search duration in (1.5, 3], the default 3 among them, a
      search the player does not interrupt lasts two cycles: it starts at
      the full duration, the end of the first cycle goes on with 1.5 less,
      and the end of the second returns to wandering. w1 and w2 are the
      states in which the two cycles end. */
  lemma SearchLastsTwoCycles(w: World, w1: World, w2: World, g: Scene, m: Motion, dt: real)
    requires SearchCycle < w.ai.settings.searchDuration <= 2.0 * SearchCycle
    requires Sees(w1.fov, g).None? && Sees(w2.fov, g).None?
    ensures var d := w.ai.settings.searchDuration;
      EnterSearchModeNext(w, g, m, dt) == StartTurnNext(w.(ai := w.ai.(mode := Searching)), 0, d, g, m, dt)
    ensures var n1 := AfterTurnNext(w1, 2, w.ai.settings.searchDuration, g, m, dt);
      && n1.ai.mode == w1.ai.mode && n1.ai.routine.Search?
      && n1.ai.routine.searchTimer == w.ai.settings.searchDuration - SearchCycle
    ensures var n2 := AfterTurnNext(w2, 2, w.ai.settings.searchDuration - SearchCycle, g, m, dt);
      n2.ai.mode == Wandering && n2.ai.routine == NoRoutine
    ensures SearchCycle < Defaults.searchDuration <= 2.0 * SearchCycle
  {
    var d := w.ai.settings.searchDuration;
    SearchCycleEnd(w1, d, g, m, dt);
    SearchCycleEnd(w2, d - SearchCycle, g, m, dt);
  }

  /** Entering attack mode keeps the routine, so it keeps consistency. */
  lemma RespotConsistent(w: World, c: Collider, g: Scene, routine: Routine)
    requires Consistent(w.ai.(routine := routine, mode := Attack))
    ensures Consistent(RespotNext(w, c, g, routine).ai)
  {
  }

  /** Every stage of the search coroutine leaves a consistent state,
      given a consistent one in the mode it runs in, and none of them
      touches playerVisible, which only Update sets. */
  lemma {:induction false} SearchHeadConsistent(w: World, searchTimer: real, g: Scene, m: Motion, dt: real)
    requires w.ai.mode == Searching || w.ai.mode == Attack
    requires w.ai.playerVisible ==> w.ai.player.Some?
    ensures Consistent(SearchHeadNext(w, searchTimer, g, m, dt).ai)
    ensures SearchHeadNext(w, searchTimer, g, m, dt).ai.playerVisible == w.ai.playerVisible
    decreases 1, 0
  {
    if searchTimer > 0.0 {
      TurnConsistent(w, 0, w.ai.rotation + TurnAngle(0), searchTimer, g, m, dt);
    }
  }

  lemma {:induction false} TurnConsistent(w: World, k: nat, target: real, searchTimer: real, g: Scene, m: Motion, dt: real)
    requires k <= 2 && (w.ai.mode == Searching || w.ai.mode == Attack)
    requires w.ai.playerVisible ==> w.ai.player.Some?
    ensures Consistent(TurnNext(w, k, target, searchTimer, g, m, dt).ai)
    ensures TurnNext(w, k, target, searchTimer, g, m, dt).ai.playerVisible == w.ai.playerVisible
    decreases k, 1
  {
    if m.angle(w.ai.rotation, target) > 0.1 {
      match Sees(w.fov, g)
      case Some(c) => AfterTurnConsistent(RespotNext(w, c, g, w.ai.routine), k, searchTimer, g, m, dt);
      case None =>
    } else {
      AfterTurnConsistent(w, k, searchTimer, g, m, dt);
    }
  }

  lemma {:induction false} AfterTurnConsistent(w: World, k: nat, searchTimer: real, g: Scene, m: Motion, dt: real)
    requires k <= 2 && (w.ai.mode == Searching || w.ai.mode == Attack)
    requires w.ai.playerVisible ==> w.ai.player.Some?
    ensures Consistent(AfterTurnNext(w, k, searchTimer, g, m, dt).ai)
    ensures AfterTurnNext(w, k, searchTimer, g, m, dt).ai.playerVisible == w.ai.playerVisible
    decreases k, 0
  {
    if k == 2 && Sees(w.fov, g).None? {
      SearchHeadConsistent(w, searchTimer - SearchCycle, g, m, dt);
    }
  }

  lemma WaitConsistent(w: World, timer: real, g: Scene, m: Motion, dt: real)
    requires w.ai.mode == WaitingToSearch || w.ai.mode == Attack
    requires w.ai.playerVisible ==> w.ai.player.Some?
    ensures Consistent(WaitNext(w, timer, g, m, dt).ai)
    ensures WaitNext(w, timer, g, m, dt).ai.playerVisible == w.ai.playerVisible
  {
    if timer <= 0.0 {
      SearchHeadConsistent(w.(ai := w.ai.(mode := Searching)), w.ai.settings.searchDuration, g, m, dt);
    }
  }

  lemma ResumeConsistent(w: World, g: Scene, m: Motion, dt: real)
    requires Consistent(w.ai)
    ensures Consistent(ResumeNext(w, g, m, dt).ai)
  {
    match w.ai.routine
    case NoRoutine =>
    case Waiting(timer) => WaitConsistent(w, timer, g, m, dt);
    case Search(searchTimer, Turning(k, target)) => TurnConsistent(w, k, target, searchTimer, g, m, dt);
    case Search(searchTimer, Pausing(k, left)) =>
      if left - dt <= 0.0 {
        TurnConsistent(w, k + 1, w.ai.rotation + TurnAngle(k + 1), searchTimer, g, m, dt);
      }
  }

  lemma UpdateConsistent(w: World, g: Scene, m: Motion, dt: real)
    requires Consistent(w.ai)
    ensures Consistent(UpdateNext(w, g, m, dt).ai)
  {
    var p := PerceiveNext(w, g, m, dt);
    if Sees(w.fov, g).None? && w.ai.mode == Attack {
      WaitConsistent(w.(ai := w.ai.(playerVisible := false, mode := WaitingToSearch)), w.ai.settings.searchWaitTime, g, m, dt);
    }
    assert Consistent(p.ai);
    if p.ai.mode == Attack && !p.ai.playerVisible {
      WaitConsistent(p.(ai := p.ai.(mode := WaitingToSearch)), p.ai.settings.searchWaitTime, g, m, dt);
    }
    assert Consistent(DispatchNext(p, g, m, dt).ai);
  }

  /** Every frame keeps the routine slot consistent with the mode: a wait
      runs exactly in the waiting state (or in attack mode after a respot
      by Update), a search in the searching or attack state, and nothing
      runs while wandering or idle. */
  lemma FrameKeepsConsistent(w: World, g: Scene, m: Motion, dt: real)
    requires Consistent(w.ai)
    ensures Consistent(FrameNext(w, g, m, dt).ai)
  {
    UpdateConsistent(w, g, m, dt);
    if !StartsWait(w, g) {
      ResumeConsistent(UpdateNext(w, g, m, dt), g, m, dt);
    }
  }

  /** The component: its state fields, and the EnemyFOV it drives. The
      rotation is the z rotation of its transform; `draws` counts the
      Random.Range calls so far. */
  class EnemyAI {
    const enemyFOV: EnemyFOV
    var currentState: Mode
    var wanderTimer: real
    var idleTimer: real
    var rotation: real
    var currentDirection: Vec
    var draws: nat
    var playerVisible: bool
    var player: Option<Collider>
    var routine: Routine
    var rotationSpeed: real
    var wanderTime: real
    var idleTime: real
    var searchWaitTime: real
    var searchDuration: real

    function Snapshot(): World
      reads this, enemyFOV
    {
      World(Ai(currentState, wanderTimer, idleTimer, rotation, currentDirection, draws, playerVisible, player, routine,
               Settings(rotationSpeed, wanderTime, idleTime, searchWaitTime, searchDuration)),
            enemyFOV.State())
    }

    /** The component before Start: wandering, no timers, no routine. */
    constructor (enemyFOV: EnemyFOV, rotation: real)
      ensures this.enemyFOV == enemyFOV
      ensures Snapshot().ai == Ai(Wandering, 0.0, 0.0, rotation, Vec(0.0, 0.0, 0.0), 0, false, None, NoRoutine, Defaults)
    {
      this.enemyFOV := enemyFOV;
      currentState := Wandering;
      wanderTimer := 0.0;
      idleTimer := 0.0;
      this.rotation := rotation;
      currentDirection := Vec(0.0, 0.0, 0.0);
      draws := 0;
      playerVisible := false;
      player := None;
      routine := NoRoutine;
      rotationSpeed, wanderTime, idleTime, searchWaitTime, searchDuration := 100.0, 2.0, 2.0, 2.0, 3.0;
    }

    method Start(m: Motion)
      modifies this
      ensures Snapshot() == old(Snapshot()).(ai := StartAiNext(old(Snapshot()).ai, m))
    {
      SetNewDirection(m);
      wanderTimer := wanderTime;
    }

    method SetNewDirection(m: Motion)
      modifies this
      ensures Snapshot() == old(Snapshot()).(ai := SetNewDirectionNext(old(Snapshot()).ai, m))
    {
      var angle := m.random(draws);
      draws := draws + 1;
      currentDirection := m.direction(angle);
    }

    method EnterAttackMode(c: Collider, g: Scene)
      modifies this, enemyFOV
      ensures Snapshot() == EnterAttackModeNext(old(Snapshot()), c, g)
    {
      currentState := Mode.Attack;
      enemyFOV.SetFOV(AttackFov, g);
      enemyFOV.SetViewDistance(AttackViewDistance, g);
      enemyFOV.SetAttackMode(true, g);
      enemyFOV.SetDirection(g.normalized(Sub(c.position, g.position)), g);
    }

    method ExitSearchMode(g: Scene, m: Motion)
      modifies this, enemyFOV
      ensures Snapshot() == ExitSearchModeNext(old(Snapshot()), g, m)
    {
      currentState := Wandering;
      routine := NoRoutine;
      enemyFOV.ResetToDefault(g);
      SetNewDirection(m);
    }

    /** WaitBeforeSearch at the head of its loop with the given timer. */
    method WaitBeforeSearch(timer: real, g: Scene, m: Motion, dt: real)
      modifies this, enemyFOV
      ensures Snapshot() == WaitNext(old(Snapshot()), timer, g, m, dt)
      decreases 1, 2
    {
      if timer > 0.0 {
        var found, detected := enemyFOV.IsPlayerInFOV(g);
        if found {
          player := detected;
          routine := NoRoutine;
          EnterAttackMode(detected.value, g);
        } else {
          routine := Waiting(timer - dt);
        }
      } else {
        EnterSearchMode(g, m, dt);
      }
    }

    method EnterSearchMode(g: Scene, m: Motion, dt: real)
      modifies this, enemyFOV
      ensures Snapshot() == EnterSearchModeNext(old(Snapshot()), g, m, dt)
      decreases 1, 1
    {
      currentState := Searching;
      SearchHead(searchDuration, g, m, dt);
    }

    /** SmoothSearchRoutine at the head of its loop. */
    method SearchHead(searchTimer: real, g: Scene, m: Motion, dt: real)
      modifies this, enemyFOV
      ensures Snapshot() == SearchHeadNext(old(Snapshot()), searchTimer, g, m, dt)
      decreases 1, 0
    {
      if searchTimer > 0.0 {
        StartTurn(0, searchTimer, g, m, dt);
      } else {
        ExitSearchMode(g, m);
      }
    }

    /** SmoothRotate(TurnAngle(k)) from the current rotation. */
    method StartTurn(k: nat, searchTimer: real, g: Scene, m: Motion, dt: real)
      modifies this, enemyFOV
      ensures Snapshot() == StartTurnNext(old(Snapshot()), k, searchTimer, g, m, dt)
      decreases k, 2
    {
      Turn(k, rotation + TurnAngle(k), searchTimer, g, m, dt);
    }

    /** SmoothRotate at the head of its loop. */
    method Turn(k: nat, target: real, searchTimer: real, g: Scene, m: Motion, dt: real)
      modifies this, enemyFOV
      ensures Snapshot() == TurnNext(old(Snapshot()), k, target, searchTimer, g, m, dt)
      decreases k, 1
    {
      if m.angle(rotation, target) > 0.1 {
        var found, detected := enemyFOV.IsPlayerInFOV(g);
        if found {
          player := detected;
          EnterAttackMode(detected.value, g);
          AfterTurn(k, searchTimer, g, m, dt);
        } else {
          rotation := m.rotateTowards(rotation, target, rotationSpeed, dt);
          routine := Search(searchTimer, Turning(k, target));
          enemyFOV.SetDirection(m.up(rotation), g);
        }
      } else {
        AfterTurn(k, searchTimer, g, m, dt);
      }
    }

    method AfterTurn(k: nat, searchTimer: real, g: Scene, m: Motion, dt: real)
      modifies this, enemyFOV
      ensures Snapshot() == AfterTurnNext(old(Snapshot()), k, searchTimer, g, m, dt)
      decreases k, 0
    {
      if k < 2 {
        routine := Search(searchTimer, Pausing(k, SearchPause));
      } else {
        var found, detected := enemyFOV.IsPlayerInFOV(g);
        if found {
          player := detected;
          routine := NoRoutine;
          EnterAttackMode(detected.value, g);
        } else {
          SearchHead(searchTimer - SearchCycle, g, m, dt);
        }
      }
    }

    /** The routine resuming after Update. */
    method Resume(g: Scene, m: Motion, dt: real)
      modifies this, enemyFOV
      ensures Snapshot() == ResumeNext(old(Snapshot()), g, m, dt)
    {
      match routine
      case NoRoutine =>
      case Waiting(timer) => WaitBeforeSearch(timer, g, m, dt);
      case Search(searchTimer, Turning(k, target)) => Turn(k, target, searchTimer, g, m, dt);
      case Search(searchTimer, Pausing(k, left)) =>
        if left - dt <= 0.0 {
          StartTurn(k + 1, searchTimer, g, m, dt);
        } else {
          routine := Search(searchTimer, Pausing(k, left - dt));
        }
    }

    method StartWait(g: Scene, m: Motion, dt: real)
      modifies this, enemyFOV
      ensures Snapshot() == StartWaitNext(old(Snapshot()), g, m, dt)
    {
      currentState := WaitingToSearch;
      WaitBeforeSearch(searchWaitTime, g, m, dt);
    }

    method Perceive(g: Scene, m: Motion, dt: real)
      modifies this, enemyFOV
      ensures Snapshot() == PerceiveNext(old(Snapshot()), g, m, dt)
    {
      var found, detected := enemyFOV.IsPlayerInFOV(g);
      if found {
        player := detected;
        playerVisible := true;
        if currentState != Mode.Attack {
          EnterAttackMode(detected.value, g);
        }
      } else {
        playerVisible := false;
        if currentState == Mode.Attack {
          StartWait(g, m, dt);
        }
      }
    }

    method Wander(g: Scene, m: Motion, dt: real)
      modifies this, enemyFOV
      ensures Snapshot() == WanderNext(old(Snapshot()), g, m, dt)
    {
      var target := m.facing(g.normalized(currentDirection));
      if m.angle(rotation, target) > 0.1 {
        rotation := m.rotateTowards(rotation, target, rotationSpeed, dt);
      } else {
        wanderTimer := wanderTimer - dt;
        if wanderTimer <= 0.0 {
          currentState := Mode.Idle;
          idleTimer := idleTime;
          wanderTimer := wanderTime;
        }
      }
      enemyFOV.SetDirection(m.up(rotation), g);
    }

    method Idle(m: Motion, dt: real)
      modifies this
      ensures Snapshot() == old(Snapshot()).(ai := IdleNext(old(Snapshot()).ai, m, dt))
    {
      idleTimer := idleTimer - dt;
      if idleTimer <= 0.0 {
        SetNewDirection(m);
        currentState := Wandering;
      }
    }

    method Attack(g: Scene, m: Motion, dt: real)
      requires playerVisible ==> player.Some?
      modifies this, enemyFOV
      ensures Snapshot() == AttackNext(old(Snapshot()), g, m, dt)
    {
      if playerVisible {
        var directionToPlayer := g.normalized(Sub(player.value.position, g.position));
        var target := m.facing(directionToPlayer);
        rotation := m.rotateTowards(rotation, target, rotationSpeed * 0.5, dt);
        if m.angle(rotation, target) < 1.0 {
          enemyFOV.SetDirection(directionToPlayer, g);
        }
      } else {
        StartWait(g, m, dt);
      }
    }

    method Dispatch(g: Scene, m: Motion, dt: real)
      requires playerVisible ==> player.Some?
      modifies this, enemyFOV
      ensures Snapshot() == DispatchNext(old(Snapshot()), g, m, dt)
    {
      match currentState
      case Wandering => Wander(g, m, dt);
      case Idle => Idle(m, dt);
      case Attack => Attack(g, m, dt);
      case WaitingToSearch =>
      case Searching =>
    }

    /** Update; `startedWait` tells the frame whether it started the wait
        coroutine, which then first resumes on the next frame. */
    method Update(g: Scene, m: Motion, dt: real) returns (startedWait: bool)
      modifies this, enemyFOV
      ensures Snapshot() == UpdateNext(old(Snapshot()), g, m, dt)
      ensures startedWait == StartsWait(old(Snapshot()), g)
      ensures enemyFOV.MeshDrawn(g)
    {
      startedWait := currentState == Mode.Attack;
      Perceive(g, m, dt);
      startedWait := startedWait && !playerVisible;
      Dispatch(g, m, dt);
      enemyFOV.SetDirection(m.up(rotation), g);
    }

    /** One frame: Update, then the running routine. */
    method Frame(g: Scene, m: Motion, dt: real)
      modifies this, enemyFOV
      ensures Snapshot() == FrameNext(old(Snapshot()), g, m, dt)
    {
      var startedWait := Update(g, m, dt);
      if !startedWait {
        Resume(g, m, dt);
      }
    }
  }
}

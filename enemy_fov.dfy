/** The field of view of the state-machine enemy (EnemyFOV): its perception
    parameters with their recorded defaults, the starting angle derived from
    the facing direction, the local-space triangle fan it draws, and the
    player check against colliders in range. */
module EnemyFov {
  import opened Common
  import opened FovMesh

  const RayCount: nat := 50
  const DefaultFov: real := 90.0
  const DefaultViewDistance: real := 7.0
  const AttackOffset: real := 45.0

  /** A collider found by the overlap query, with the position of its transform. */
  datatype Collider = Collider(id: nat, position: Vec)

  /** The world one call sees: the component's transform position, the rays
      for the mesh, normalisation, the heading in degrees of a direction
      (Atan2 times Rad2Deg), the colliders on the player layer within a radius
      (OverlapCircleAll), the angle between two directions (Vector2.Angle),
      and whether the obstacle ray from a point along a direction within a
      distance hits a collider tagged Player. */
  datatype Scene = Scene(position: Vec, rays: Rays, normalized: Vec -> Vec, heading: Vec -> real,
                         overlap: (Vec, real) -> seq<Collider>, angleBetween: (Vec, Vec) -> real,
                         hitsPlayer: (Vec, Vec, real) -> bool)

  /** The fields of EnemyFOV that its methods set. */
  datatype Fov = Fov(fov: real, viewDistance: real, defaultFov: real, defaultViewDistance: real,
                     isInAttackMode: bool, startingAngle: real, currentDirection: Vec)

  /** UpdateStartingAngle: the forward angle less half the field of view,
      turned a further 45 degrees in attack mode. */
  function StartingAngle(s: Fov, heading: Vec -> real): real {
    var forward := heading(s.currentDirection);
    if s.isInAttackMode then forward - s.fov / 2.0 - AttackOffset else forward - s.fov / 2.0
  }

  function UpdateStartingAngleNext(s: Fov, g: Scene): Fov {
    s.(startingAngle := StartingAngle(s, g.heading))
  }

  function SetDirectionNext(s: Fov, direction: Vec, g: Scene): Fov {
    UpdateStartingAngleNext(s.(currentDirection := g.normalized(direction)), g)
  }

  function SetFovNext(s: Fov, newFov: real, g: Scene): Fov {
    UpdateStartingAngleNext(s.(fov := newFov), g)
  }

  /** SetViewDistance leaves the starting angle as it is. */
  function SetViewDistanceNext(s: Fov, newDistance: real): Fov {
    s.(viewDistance := newDistance)
  }

  function SetAttackModeNext(s: Fov, isAttack: bool, g: Scene): Fov {
    UpdateStartingAngleNext(s.(isInAttackMode := isAttack), g)
  }

  function ResetToDefaultNext(s: Fov, g: Scene): Fov {
    UpdateStartingAngleNext(s.(fov := s.defaultFov, viewDistance := s.defaultViewDistance, isInAttackMode := false), g)
  }

  /** Start records the inspector values as defaults and faces up. */
  function StartNext(s: Fov, g: Scene): Fov {
    SetDirectionNext(s.(defaultFov := s.fov, defaultViewDistance := s.viewDistance), Vec(0.0, 1.0, 0.0), g)
  }

  /** The mesh vertices for a state: the local origin, then the local end
      of each of the 51 rays from the starting angle plus 90 degrees. */
  function MeshOf(s: Fov, g: Scene): seq<Vec> {
    FanVertices(Zero, RayCount, s.startingAngle + 90.0, s.fov / (RayCount as real), g.rays, g.position, s.viewDistance, true)
  }

  /** The starting angle agrees with the direction, field of view and mode. */
  predicate Aligned(s: Fov, g: Scene) {
    s.startingAngle == StartingAngle(s, g.heading)
  }

  /** The parameter setters EnemyAI calls between two resets. */
  datatype Setter = SetFov(newFov: real) | SetViewDistance(newDistance: real) | SetAttackMode(isAttack: bool)

  function ApplySetter(s: Fov, op: Setter, g: Scene): Fov {
    match op
    case SetFov(f) => SetFovNext(s, f, g)
    case SetViewDistance(d) => SetViewDistanceNext(s, d)
    case SetAttackMode(a) => SetAttackModeNext(s, a, g)
  }

  function ApplySetters(s: Fov, ops: seq<Setter>, g: Scene): Fov
    decreases |ops|
  {
    if ops == [] then s else ApplySetters(ApplySetter(s, ops[0], g), ops[1..], g)
  }

  /** Start records the current field of view and view distance as the
      defaults and leaves both in place. */
  lemma StartRecordsDefaults(s: Fov, g: Scene)
    ensures StartNext(s, g).defaultFov == s.fov && StartNext(s, g).defaultViewDistance == s.viewDistance
    ensures StartNext(s, g).fov == s.fov && StartNext(s, g).viewDistance == s.viewDistance
    ensures StartNext(s, g).isInAttackMode == s.isInAttackMode && Aligned(StartNext(s, g), g)
  {
  }

  /** Each setter changes its own field and the derived starting angle, and
      nothing else. */
  lemma SettersChangeOwnField(s: Fov, f: real, d: real, a: bool, g: Scene)
    ensures SetFovNext(s, f, g).fov == f && SetFovNext(s, f, g).(fov := s.fov, startingAngle := s.startingAngle) == s
    ensures SetViewDistanceNext(s, d).viewDistance == d && SetViewDistanceNext(s, d).(viewDistance := s.viewDistance) == s
    ensures SetAttackModeNext(s, a, g).isInAttackMode == a
    ensures SetAttackModeNext(s, a, g).(isInAttackMode := s.isInAttackMode, startingAngle := s.startingAngle) == s
  {
  }

  /** Attack mode turns the starting angle by a further 45 degrees. */
  lemma AttackModeOffset(s: Fov, g: Scene)
    ensures StartingAngle(s.(isInAttackMode := true), g.heading) == StartingAngle(s.(isInAttackMode := false), g.heading) - 45.0
  {
  }

  /** No setter changes the recorded defaults, and none breaks the
      agreement of the starting angle with the state. */
  lemma {:induction false} SettersKeepDefaults(s: Fov, ops: seq<Setter>, g: Scene)
    requires Aligned(s, g)
    ensures ApplySetters(s, ops, g).defaultFov == s.defaultFov
    ensures ApplySetters(s, ops, g).defaultViewDistance == s.defaultViewDistance
    ensures ApplySetters(s, ops, g).currentDirection == s.currentDirection
    ensures Aligned(ApplySetters(s, ops, g), g)
    decreases |ops|
  {
    if ops != [] {
      SettersKeepDefaults(ApplySetter(s, ops[0], g), ops[1..], g);
    }
  }

  /** ResetToDefault undoes any run of setters: the state after the reset
      is the one a reset right away would give. */
  lemma {:induction false} ResetForgetsSetters(s: Fov, ops: seq<Setter>, g: Scene)
    ensures ResetToDefaultNext(ApplySetters(s, ops, g), g) == ResetToDefaultNext(s, g)
    decreases |ops|
  {
    if ops != [] {
      var t := ApplySetter(s, ops[0], g);
      ResetForgetsSetters(t, ops[1..], g);
      assert ResetToDefaultNext(t, g) == ResetToDefaultNext(s, g);
    }
  }

  /** After a reset the parameters are the recorded defaults and attack mode is off. */
  lemma ResetRestoresDefaults(s: Fov, g: Scene)
    ensures ResetToDefaultNext(s, g).fov == s.defaultFov
    ensures ResetToDefaultNext(s, g).viewDistance == s.defaultViewDistance
    ensures !ResetToDefaultNext(s, g).isInAttackMode && Aligned(ResetToDefaultNext(s, g), g)
    ensures ResetToDefaultNext(s, g).defaultFov == s.defaultFov && ResetToDefaultNext(s, g).defaultViewDistance == s.defaultViewDistance
  {
  }

  /** The mesh: 52 vertices, the local origin first, ray i ending at the
      local point of the ray cast at the starting angle + 90 - i * fov / 50;
      150 triangle slots holding (0, t + 1, t + 2) for triangle t. */
  lemma MeshShape(s: Fov, g: Scene, i: nat, t: nat)
    requires i <= RayCount && t < RayCount
    ensures |MeshOf(s, g)| == RayCount + 2 && MeshOf(s, g)[0] == Zero
    ensures MeshOf(s, g)[i + 1]
         == g.rays.toLocal(RayPoint(g.rays, g.position, s.viewDistance, s.startingAngle + 90.0 - (i as real) * s.fov / 50.0))
    ensures FanTriangles(RayCount)[3 * t..3 * t + 3] == [0, t + 1, t + 2]
    ensures forall j :: 0 <= j < |FanTriangles(RayCount)| ==> 0 <= FanTriangles(RayCount)[j] < |MeshOf(s, g)|
  {
    var step := s.fov / 50.0;
    var angle := s.startingAngle + 90.0 - (i as real) * s.fov / 50.0;
    FanRayAt(Zero, RayCount, s.startingAngle + 90.0, step, g.rays, g.position, s.viewDistance, true, i);
    assert s.startingAngle + 90.0 - (i as real) * step == angle;
    assert MeshOf(s, g) == FanVertices(Zero, RayCount, s.startingAngle + 90.0, step, g.rays, g.position, s.viewDistance, true);
    FanTriangle(RayCount, t);
    FanTrianglesInBounds(RayCount);
  }

  /** A collider is spotted when its direction is within half the field of
      view of the facing direction and the obstacle ray towards it hits the
      player. */
  predicate Spots(s: Fov, g: Scene, c: Collider) {
    var toPlayer := Sub(c.position, g.position);
    g.angleBetween(s.currentDirection, toPlayer) < s.fov / 2.0 && g.hitsPlayer(g.position, toPlayer, s.viewDistance)
  }

  /** The first spotted collider of a list, if any. */
  function FirstSpotted(s: Fov, g: Scene, cs: seq<Collider>): Option<Collider>
    decreases |cs|
  {
    if cs == [] then None
    else if Spots(s, g, cs[0]) then Some(cs[0])
    else FirstSpotted(s, g, cs[1..])
  }

  /** The result is the collider at the first index that is spotted, and
      none exactly when no collider is. */
  lemma {:induction false} FirstSpottedIff(s: Fov, g: Scene, cs: seq<Collider>)
    ensures FirstSpotted(s, g, cs).None? <==> forall k :: 0 <= k < |cs| ==> !Spots(s, g, cs[k])
    ensures FirstSpotted(s, g, cs).Some? ==>
      exists k :: 0 <= k < |cs| && cs[k] == FirstSpotted(s, g, cs).value && Spots(s, g, cs[k])
                  && forall j :: 0 <= j < k ==> !Spots(s, g, cs[j])
    decreases |cs|
  {
    if cs != [] {
      FirstSpottedIff(s, g, cs[1..]);
      if !Spots(s, g, cs[0]) {
        assert forall k :: 1 <= k < |cs| ==> cs[k] == cs[1..][k - 1];
        if FirstSpotted(s, g, cs).Some? {
          var k' :| 0 <= k' < |cs[1..]| && cs[1..][k'] == FirstSpotted(s, g, cs).value && Spots(s, g, cs[1..][k'])
                    && forall j :: 0 <= j < k' ==> !Spots(s, g, cs[1..][j]);
          assert cs[k' + 1] == cs[1..][k'];
          assert forall j :: 0 <= j < k' + 1 ==> !Spots(s, g, cs[j]) by {
            forall j | 0 <= j < k' + 1
              ensures !Spots(s, g, cs[j])
            {
              if j > 0 {
                assert cs[j] == cs[1..][j - 1];
              }
            }
          }
        }
      } else {
        assert cs[0] == FirstSpotted(s, g, cs).value;
      }
    }
  }

  /** One ray of GenerateMesh: store the local end of ray i at index i + 1
      and, from the second ray on, triangle i - 1 at slots 3(i - 1).. */
  method CastLocalRay(vertices: array<Vec>, triangles: array<int>, i: nat, angle: real, ghost first: real, step: real,
                      r: Rays, origin: Vec, viewDistance: real)
      returns (angle': real)
    requires i <= RayCount && FanSoFar(vertices, triangles, i, RayCount, Zero, first, step, r, origin, viewDistance, true)
    requires angle == RayAngle(first, step, i)
    modifies vertices, triangles
    ensures FanSoFar(vertices, triangles, i + 1, RayCount, Zero, first, step, r, origin, viewDistance, true)
    ensures angle' == RayAngle(first, step, i + 1)
  {
    ghost var written := [Zero] + FanRays(i, first, step, r, origin, viewDistance, true);
    var vertex := RayPoint(r, origin, viewDistance, angle);
    PutVertex(vertices, i + 1, r.toLocal(vertex), written);
    assert written + [r.toLocal(vertex)] == [Zero] + FanRays(i + 1, first, step, r, origin, viewDistance, true);
    if i > 0 {
      var vertexIndex := i + 1;
      PutTriangle(triangles, (i - 1) * 3, vertexIndex, RayCount, i - 1);
    }
    angle' := angle - step;
  }

  /** The array loop of GenerateMesh: the local origin at index 0, and
      both arrays indexed by the loop variable. */
  method LocalFan(first: real, step: real, r: Rays, origin: Vec, viewDistance: real)
      returns (vertices: array<Vec>, triangles: array<int>)
    ensures fresh(vertices) && fresh(triangles)
    ensures vertices[..] == FanVertices(Zero, RayCount, first, step, r, origin, viewDistance, true)
    ensures triangles[..] == FanTriangles(RayCount)
  {
    var rayCount := RayCount;
    vertices := new Vec[rayCount + 2](_ => Zero);
    triangles := new int[rayCount * 3](_ => 0);
    vertices[0] := Zero;
    var angle := first;
    for i := 0 to rayCount + 1
      invariant FanSoFar(vertices, triangles, i, RayCount, Zero, first, step, r, origin, viewDistance, true)
      invariant angle == RayAngle(first, step, i)
    {
      angle := CastLocalRay(vertices, triangles, i, angle, first, step, r, origin, viewDistance);
    }
    FanDone(vertices, triangles, RayCount, Zero, first, step, r, origin, viewDistance, true);
  }

  class EnemyFOV {
    var fov: real
    var viewDistance: real
    var defaultFov: real
    var defaultViewDistance: real
    var isInAttackMode: bool
    var startingAngle: real
    var currentDirection: Vec
    /** The vertices and triangles last given to the mesh. */
    var meshVertices: seq<Vec>
    var meshTriangles: seq<int>

    function State(): Fov
      reads this
    {
      Fov(fov, viewDistance, defaultFov, defaultViewDistance, isInAttackMode, startingAngle, currentDirection)
    }

    /** The mesh holds the fan of the current state. */
    predicate MeshDrawn(g: Scene)
      reads this
    {
      meshVertices == MeshOf(State(), g) && meshTriangles == FanTriangles(RayCount)
    }

    /** The component before Start: the inspector values, everything else at
        its default, an empty mesh. */
    constructor ()
      ensures State() == Fov(DefaultFov, DefaultViewDistance, 0.0, 0.0, false, 0.0, Zero)
      ensures meshVertices == [] && meshTriangles == []
    {
      fov := DefaultFov;
      viewDistance := DefaultViewDistance;
      defaultFov := 0.0;
      defaultViewDistance := 0.0;
      isInAttackMode := false;
      startingAngle := 0.0;
      currentDirection := Zero;
      meshVertices := [];
      meshTriangles := [];
    }

    method Start(g: Scene)
      modifies this
      ensures State() == StartNext(old(State()), g) && MeshDrawn(g)
    {
      defaultFov := fov;
      defaultViewDistance := viewDistance;
      SetDirection(Vec(0.0, 1.0, 0.0), g);
    }

    method SetDirection(direction: Vec, g: Scene)
      modifies this
      ensures State() == SetDirectionNext(old(State()), direction, g) && MeshDrawn(g)
    {
      currentDirection := g.normalized(direction);
      UpdateStartingAngle(g);
      GenerateMesh(g);
    }

    method SetFOV(newFov: real, g: Scene)
      modifies this
      ensures State() == SetFovNext(old(State()), newFov, g) && MeshDrawn(g)
    {
      fov := newFov;
      UpdateStartingAngle(g);
      GenerateMesh(g);
    }

    method SetViewDistance(newDistance: real, g: Scene)
      modifies this
      ensures State() == SetViewDistanceNext(old(State()), newDistance) && MeshDrawn(g)
    {
      viewDistance := newDistance;
      GenerateMesh(g);
    }

    method SetAttackMode(isAttack: bool, g: Scene)
      modifies this
      ensures State() == SetAttackModeNext(old(State()), isAttack, g) && MeshDrawn(g)
    {
      isInAttackMode := isAttack;
      UpdateStartingAngle(g);
      GenerateMesh(g);
    }

    method ResetToDefault(g: Scene)
      modifies this
      ensures State() == ResetToDefaultNext(old(State()), g) && MeshDrawn(g)
    {
      fov := defaultFov;
      viewDistance := defaultViewDistance;
      isInAttackMode := false;
      UpdateStartingAngle(g);
      GenerateMesh(g);
    }

    method UpdateStartingAngle(g: Scene)
      modifies this
      ensures State() == UpdateStartingAngleNext(old(State()), g)
      ensures meshVertices == old(meshVertices) && meshTriangles == old(meshTriangles)
    {
      var forwardAngle := g.heading(currentDirection);
      startingAngle := if isInAttackMode then forwardAngle - fov / 2.0 - AttackOffset else forwardAngle - fov / 2.0;
    }

    /** Fills fresh vertex and triangle arrays ray by ray and hands them
        to the mesh. */
    method GenerateMesh(g: Scene)
      modifies this
      ensures State() == old(State()) && MeshDrawn(g)
    {
      var rayCount := RayCount;
      var angle := startingAngle + 90.0;
      var angleStep := fov / (rayCount as real);
      var vertices, triangles := LocalFan(angle, angleStep, g.rays, g.position, viewDistance);
      meshVertices := vertices[..];
      meshTriangles := triangles[..];
    }

    /** Scans the colliders in view distance in order and returns the first
        that is spotted, or false and no player. */
    method IsPlayerInFOV(g: Scene) returns (found: bool, player: Option<Collider>)
      ensures player == FirstSpotted(State(), g, g.overlap(g.position, viewDistance))
      ensures found <==> player.Some?
    {
      player := None;
      var playersInRange := g.overlap(g.position, viewDistance);
      var k := 0;
      while k < |playersInRange|
        invariant 0 <= k <= |playersInRange|
        invariant FirstSpotted(State(), g, playersInRange) == FirstSpotted(State(), g, playersInRange[k..])
      {
        var playerCollider := playersInRange[k];
        var directionToPlayer := Sub(playerCollider.position, g.position);
        var angleToPlayer := g.angleBetween(currentDirection, directionToPlayer);
        if angleToPlayer < fov / 2.0 {
          if g.hitsPlayer(g.position, directionToPlayer, viewDistance) {
            player := Some(playerCollider);
            return true, player;
          }
        }
        assert playersInRange[k..][1..] == playersInRange[k + 1..];
        k := k + 1;
      }
      return false, None;
    }
  }
}

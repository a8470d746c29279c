/** The world-space field of view of FieldOfView_Cian.cs, driven by the
    path-following enemy: 60 rays from the starting angle plus the field of
    view, setters for each parameter, and the angle of a direction wrapped
    into [0, 360). */
module FieldOfViewCian {
  import opened Common
  import opened FovMesh

  const RayCount: nat := 60

  /** The fields the component's methods set. */
  datatype View = View(fov: real, origin: Vec, startingAngle: real, viewDistance: real)

  /** GetAngleFromVectorFloat: the heading of the normalised direction in
      degrees (Atan2 times Rad2Deg, given as a function), with 360 added to
      a negative heading. */
  function GetAngleFromVectorFloat(direction: Vec, heading: Vec -> real): (n: real)
    ensures -180.0 < heading(direction) <= 180.0 ==> 0.0 <= n < 360.0
    ensures n == heading(direction) || n == heading(direction) + 360.0
    ensures 0.0 <= heading(direction) ==> n == heading(direction)
  {
    var n := heading(direction);
    if n < 0.0 then n + 360.0 else n
  }

  /** The wrapped angle is the one angle in [0, 360) that differs from the
      heading by 0 or 360. */
  lemma AngleWrapUnique(direction: Vec, heading: Vec -> real, m: real)
    requires -180.0 < heading(direction) <= 180.0
    requires 0.0 <= m < 360.0 && (m == heading(direction) || m == heading(direction) + 360.0)
    ensures m == GetAngleFromVectorFloat(direction, heading)
  {
    var n := GetAngleFromVectorFloat(direction, heading);
    if heading(direction) < 0.0 {
      assert m != heading(direction);
    } else {
      assert m != heading(direction) + 360.0;
    }
  }

  /** The mesh vertices for a state: the origin, then the end of each of the
      61 rays from the starting angle plus the field of view. */
  function MeshOf(v: View, r: Rays): seq<Vec> {
    FanVertices(v.origin, RayCount, v.startingAngle + v.fov, v.fov / (RayCount as real), r, v.origin, v.viewDistance, false)
  }

  /** The mesh: 62 vertices, the origin first, ray i ending where the ray
      cast at the starting angle + fov - i * fov / 60 stops; 180 triangle
      slots holding (0, t + 1, t + 2) for triangle t, each a vertex index. */
  lemma MeshShape(v: View, r: Rays, i: nat, t: nat)
    requires i <= RayCount && t < RayCount
    ensures |MeshOf(v, r)| == RayCount + 2 && MeshOf(v, r)[0] == v.origin
    ensures MeshOf(v, r)[i + 1] == RayPoint(r, v.origin, v.viewDistance, v.startingAngle + v.fov - (i as real) * v.fov / 60.0)
    ensures FanTriangles(RayCount)[3 * t..3 * t + 3] == [0, t + 1, t + 2]
    ensures forall j :: 0 <= j < |FanTriangles(RayCount)| ==> 0 <= FanTriangles(RayCount)[j] < |MeshOf(v, r)|
  {
    var step := v.fov / 60.0;
    var angle := v.startingAngle + v.fov - (i as real) * v.fov / 60.0;
    FanRayAt(v.origin, RayCount, v.startingAngle + v.fov, step, r, v.origin, v.viewDistance, false, i);
    assert v.startingAngle + v.fov - (i as real) * step == angle;
    assert MeshOf(v, r) == FanVertices(v.origin, RayCount, v.startingAngle + v.fov, step, r, v.origin, v.viewDistance, false);
    FanTriangle(RayCount, t);
    FanTrianglesInBounds(RayCount);
  }

  /** The enemy's UpdateFieldOfView: aim along the facing direction, move to
      the enemy, then copy its field of view and view distance. */
  function UpdateFieldOfViewNext(v: View, aimDirection: Vec, heading: Vec -> real, position: Vec, fov: real, viewDistance: real): View {
    var aimed := v.(startingAngle := GetAngleFromVectorFloat(aimDirection, heading) - v.fov / 2.0);
    aimed.(origin := position).(fov := fov).(viewDistance := viewDistance)
  }

  /** Because the aim is set before the field of view, the fan is centred on
      the aim exactly when the field of view did not change. */
  lemma AimUsesPreviousFov(v: View, aimDirection: Vec, heading: Vec -> real, position: Vec, fov: real, viewDistance: real)
    ensures var u := UpdateFieldOfViewNext(v, aimDirection, heading, position, fov, viewDistance);
      && u.fov == fov && u.origin == position && u.viewDistance == viewDistance
      && (u.startingAngle + u.fov / 2.0 == GetAngleFromVectorFloat(aimDirection, heading) <==> v.fov == fov)
  {
  }

  class FieldOfView {
    var fov: real
    var origin: Vec
    var startingAngle: real
    var viewDistance: real
    /** The vertices and triangles last given to the mesh. */
    var meshVertices: seq<Vec>
    var meshTriangles: seq<int>

    function State(): View
      reads this
    {
      View(fov, origin, startingAngle, viewDistance)
    }

    /** The component's field initialisers and an empty mesh. */
    constructor ()
      ensures State() == View(90.0, Zero, 0.0, 50.0)
      ensures meshVertices == [] && meshTriangles == []
    {
      fov := 90.0;
      origin := Zero;
      startingAngle := 0.0;
      viewDistance := 50.0;
      meshVertices := [];
      meshTriangles := [];
    }

    method LateUpdate(r: Rays)
      modifies this
      ensures State() == old(State())
      ensures meshVertices == MeshOf(State(), r) && meshTriangles == FanTriangles(RayCount)
    {
      var rayCount := RayCount;
      var angle := startingAngle + fov;
      var angleIncrease := fov / (rayCount as real);
      var vertices, triangles := FanByCounters(rayCount, angle, angleIncrease, r, origin, viewDistance);
      meshVertices := vertices[..];
      meshTriangles := triangles[..];
    }

    method SetFov(fov1: real)
      modifies this
      ensures State() == old(State()).(fov := fov1)
      ensures meshVertices == old(meshVertices) && meshTriangles == old(meshTriangles)
    {
      fov := fov1;
    }

    method SetViewDistance(viewDistance1: real)
      modifies this
      ensures State() == old(State()).(viewDistance := viewDistance1)
      ensures meshVertices == old(meshVertices) && meshTriangles == old(meshTriangles)
    {
      viewDistance := viewDistance1;
    }

    method SetOrigin(newOrigin: Vec)
      modifies this
      ensures State() == old(State()).(origin := newOrigin)
      ensures meshVertices == old(meshVertices) && meshTriangles == old(meshTriangles)
    {
      origin := newOrigin;
    }

    method SetAimDirection(aimDirection: Vec, heading: Vec -> real)
      modifies this
      ensures State() == old(State()).(startingAngle := GetAngleFromVectorFloat(aimDirection, heading) - old(fov) / 2.0)
      ensures meshVertices == old(meshVertices) && meshTriangles == old(meshTriangles)
    {
      startingAngle := GetAngleFromVectorFloat(aimDirection, heading) - fov / 2.0;
    }
  }

  /** EnemyController_Cian.UpdateFieldOfView, acting on the enemy's view. */
  method UpdateFieldOfView(view: FieldOfView, aimDirection: Vec, heading: Vec -> real, position: Vec, fov: real, viewDistance: real)
    modifies view
    ensures view.State() == UpdateFieldOfViewNext(old(view.State()), aimDirection, heading, position, fov, viewDistance)
    ensures view.meshVertices == old(view.meshVertices) && view.meshTriangles == old(view.meshTriangles)
  {
    view.SetAimDirection(aimDirection, heading);
    view.SetOrigin(position);
    view.SetFov(fov);
    view.SetViewDistance(viewDistance);
  }
}

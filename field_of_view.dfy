/** The world-space field of view of FieldOfView.cs: an origin and a
    starting angle set from outside, and a 50-ray triangle fan rebuilt
    every frame from two running counters. */
module FieldOfView {
  import opened Common
  import opened FovMesh

  const RayCount: nat := 50

  /** The fields the component's methods set. */
  datatype View = View(fov: real, viewDistance: real, origin: Vec, startingAngle: real)

  /** The mesh vertices for a state: the origin, then the end of each of the
      51 rays from the starting angle plus 90 degrees. */
  function MeshOf(v: View, r: Rays): seq<Vec> {
    FanVertices(v.origin, RayCount, v.startingAngle + 90.0, v.fov / (RayCount as real), r, v.origin, v.viewDistance, false)
  }

  /** SetAimDirection: the aim angle (an external helper, given as a
      function) less half the current field of view. */
  function AimedStartingAngle(v: View, aimDirection: Vec, angleOf: Vec -> real): real {
    angleOf(aimDirection) - v.fov / 2.0
  }

  /** The mesh: 52 vertices, the origin first, ray i ending where the ray
      cast at the starting angle + 90 - i * fov / 50 stops; 150 triangle
      slots holding (0, t + 1, t + 2) for triangle t, each a vertex index. */
  lemma MeshShape(v: View, r: Rays, i: nat, t: nat)
    requires i <= RayCount && t < RayCount
    ensures |MeshOf(v, r)| == RayCount + 2 && MeshOf(v, r)[0] == v.origin
    ensures MeshOf(v, r)[i + 1] == RayPoint(r, v.origin, v.viewDistance, v.startingAngle + 90.0 - (i as real) * v.fov / 50.0)
    ensures FanTriangles(RayCount)[3 * t..3 * t + 3] == [0, t + 1, t + 2]
    ensures forall j :: 0 <= j < |FanTriangles(RayCount)| ==> 0 <= FanTriangles(RayCount)[j] < |MeshOf(v, r)|
  {
    var step := v.fov / 50.0;
    var angle := v.startingAngle + 90.0 - (i as real) * v.fov / 50.0;
    FanRayAt(v.origin, RayCount, v.startingAngle + 90.0, step, r, v.origin, v.viewDistance, false, i);
    assert v.startingAngle + 90.0 - (i as real) * step == angle;
    assert MeshOf(v, r) == FanVertices(v.origin, RayCount, v.startingAngle + 90.0, step, r, v.origin, v.viewDistance, false);
    FanTriangle(RayCount, t);
    FanTrianglesInBounds(RayCount);
  }

  /** After SetAimDirection the first ray is cast at the aim angle + 90 -
      fov / 2 and the last at the aim angle + 90 - 3 fov / 2, so the fan is
      centred on the aim angle exactly when the field of view is 90. */
  lemma AimedFan(v: View, aimDirection: Vec, angleOf: Vec -> real, r: Rays)
    ensures var aimed := v.(startingAngle := AimedStartingAngle(v, aimDirection, angleOf));
      && |MeshOf(aimed, r)| == RayCount + 2
      && MeshOf(aimed, r)[1] == RayPoint(r, v.origin, v.viewDistance, angleOf(aimDirection) + 90.0 - v.fov / 2.0)
      && MeshOf(aimed, r)[RayCount + 1] == RayPoint(r, v.origin, v.viewDistance, angleOf(aimDirection) + 90.0 - 3.0 * v.fov / 2.0)
    ensures var first := angleOf(aimDirection) + 90.0 - v.fov / 2.0;
      var last := angleOf(aimDirection) + 90.0 - 3.0 * v.fov / 2.0;
      (first + last) / 2.0 == angleOf(aimDirection) <==> v.fov == 90.0
  {
    var aimed := v.(startingAngle := AimedStartingAngle(v, aimDirection, angleOf));
    MeshShape(aimed, r, 0, 0);
    MeshShape(aimed, r, RayCount, 0);
    assert aimed.startingAngle + 90.0 - (0 as real) * v.fov / 50.0 == angleOf(aimDirection) + 90.0 - v.fov / 2.0;
    assert aimed.startingAngle + 90.0 - (RayCount as real) * v.fov / 50.0 == angleOf(aimDirection) + 90.0 - 3.0 * v.fov / 2.0;
  }

  class FieldOfView {
    var fov: real
    var viewDistance: real
    var origin: Vec
    var startingAngle: real
    /** The vertices and triangles last given to the mesh. */
    var meshVertices: seq<Vec>
    var meshTriangles: seq<int>

    function State(): View
      reads this
    {
      View(fov, viewDistance, origin, startingAngle)
    }

    /** The component before Start: the inspector values and an empty mesh. */
    constructor ()
      ensures State() == View(90.0, 7.0, Zero, 0.0)
      ensures meshVertices == [] && meshTriangles == []
    {
      fov := 90.0;
      viewDistance := 7.0;
      origin := Zero;
      startingAngle := 0.0;
      meshVertices := [];
      meshTriangles := [];
    }

    /** Start: a fresh empty mesh, and the origin at the transform position. */
    method Start(position: Vec)
      modifies this
      ensures State() == old(State()).(origin := position)
      ensures meshVertices == [] && meshTriangles == []
    {
      meshVertices := [];
      meshTriangles := [];
      origin := position;
    }

    method LateUpdate(r: Rays)
      modifies this
      ensures State() == old(State())
      ensures meshVertices == MeshOf(State(), r) && meshTriangles == FanTriangles(RayCount)
    {
      GenerateMesh(r);
    }

    method GenerateMesh(r: Rays)
      modifies this
      ensures State() == old(State())
      ensures meshVertices == MeshOf(State(), r) && meshTriangles == FanTriangles(RayCount)
    {
      var rayCount := RayCount;
      var angle := startingAngle + 90.0;
      var angleIncrease := fov / (rayCount as real);
      var vertices, triangles := FanByCounters(rayCount, angle, angleIncrease, r, origin, viewDistance);
      meshVertices := vertices[..];
      meshTriangles := triangles[..];
    }

    method SetOrigin(newOrigin: Vec)
      modifies this
      ensures State() == old(State()).(origin := newOrigin)
      ensures meshVertices == old(meshVertices) && meshTriangles == old(meshTriangles)
    {
      origin := newOrigin;
    }

    method SetAimDirection(aimDirection: Vec, angleOf: Vec -> real)
      modifies this
      ensures State() == old(State()).(startingAngle := AimedStartingAngle(old(State()), aimDirection, angleOf))
      ensures meshVertices == old(meshVertices) && meshTriangles == old(meshTriangles)
    {
      startingAngle := angleOf(aimDirection) - fov / 2.0;
    }
  }
}

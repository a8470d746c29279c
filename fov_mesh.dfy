/** The triangle fan that all three field-of-view components build: a
    centre vertex, one vertex per ray, and one triangle between each pair of
    neighbouring rays. Ray casting comes in as a Rays value. */
module FovMesh {
  import opened Common

  /** The world the rays are cast in: the direction of the ray at an angle
      in degrees (GetVectorFromAngle), the first obstacle hit by a ray from a
      point in a direction within a distance (Physics2D.Raycast against the
      obstacle layer), and the world-to-local transform of the component
      (InverseTransformPoint). */
  datatype Rays = Rays(direction: real -> Vec, hit: (Vec, Vec, real) -> Option<Vec>, toLocal: Vec -> Vec)

  /** A ray's end: the obstacle it hits, or full view distance away. */
  function RayPoint(r: Rays, origin: Vec, viewDistance: real, angle: real): Vec {
    var direction := r.direction(angle);
    match r.hit(origin, direction, viewDistance)
    case None => Add(origin, Scale(direction, viewDistance))
    case Some(point) => point
  }

  /** The vertex stored for a ray, in world coordinates or, when `local`,
      in the component's own. */
  function FanPoint(r: Rays, origin: Vec, viewDistance: real, local: bool, angle: real): Vec {
    if local then r.toLocal(RayPoint(r, origin, viewDistance, angle)) else RayPoint(r, origin, viewDistance, angle)
  }

  /** The angle of ray i: the first angle, decreased by one step per ray. */
  function RayAngle(first: real, step: real, i: int): real
    decreases i
  {
    if i <= 0 then first else RayAngle(first, step, i - 1) - step
  }

  lemma {:induction false} RayAngleClosed(first: real, step: real, i: nat)
    ensures RayAngle(first, step, i) == first - (i as real) * step
  {
    if i > 0 {
      RayAngleClosed(first, step, i - 1);
      assert (i as real) * step == ((i - 1) as real) * step + step;
    }
  }

  /** The ends of the first n rays, in ray order. */
  function FanRays(n: nat, first: real, step: real, r: Rays, origin: Vec, viewDistance: real, local: bool): seq<Vec> {
    if n == 0 then [] else FanRays(n - 1, first, step, r, origin, viewDistance, local) + [FanPoint(r, origin, viewDistance, local, RayAngle(first, step, n - 1))]
  }

  /** The vertices of the fan: the centre, then the end of ray i at index
      i + 1 for every ray 0..rayCount. */
  function FanVertices(center: Vec, rayCount: nat, first: real, step: real, r: Rays, origin: Vec, viewDistance: real, local: bool): seq<Vec> {
    [center] + FanRays(rayCount + 1, first, step, r, origin, viewDistance, local)
  }

  lemma {:induction false} FanRaysIndex(n: nat, first: real, step: real, r: Rays, origin: Vec, viewDistance: real, local: bool)
    ensures |FanRays(n, first, step, r, origin, viewDistance, local)| == n
    ensures forall i :: 0 <= i < n ==>
      FanRays(n, first, step, r, origin, viewDistance, local)[i] == FanPoint(r, origin, viewDistance, local, RayAngle(first, step, i))
  {
    if n > 0 {
      FanRaysIndex(n - 1, first, step, r, origin, viewDistance, local);
    }
  }

  /** The fan in closed form: the centre first, then the end of ray i,
      cast at the first angle less i steps, for i = 0..rayCount. */
  lemma FanRayAt(center: Vec, rayCount: nat, first: real, step: real, r: Rays, origin: Vec, viewDistance: real, local: bool, i: nat)
    requires i <= rayCount
    ensures |FanVertices(center, rayCount, first, step, r, origin, viewDistance, local)| == rayCount + 2
    ensures FanVertices(center, rayCount, first, step, r, origin, viewDistance, local)[0] == center
    ensures FanVertices(center, rayCount, first, step, r, origin, viewDistance, local)[i + 1]
         == FanPoint(r, origin, viewDistance, local, first - (i as real) * step)
  {
    FanRaysIndex(rayCount + 1, first, step, r, origin, viewDistance, local);
    RayAngleClosed(first, step, i);
  }

  /** The triangle index list: triangle t occupies slots 3t..3t+2. */
  function FanTriangles(rayCount: nat): seq<int> {
    seq(rayCount * 3, j => if j % 3 == 0 then 0 else j / 3 + j % 3)
  }

  /** Triangle t joins the centre to the ends of rays t and t + 1. */
  lemma FanTriangle(rayCount: nat, t: nat)
    requires t < rayCount
    ensures |FanTriangles(rayCount)| == rayCount * 3
    ensures FanTriangles(rayCount)[3 * t..3 * t + 3] == [0, t + 1, t + 2]
  {
    var tri := FanTriangles(rayCount);
    assert tri[3 * t] == 0;
    assert tri[3 * t + 1] == t + 1;
    assert tri[3 * t + 2] == t + 2;
  }

  /** Every triangle slot names a vertex of the fan. */
  lemma FanTrianglesInBounds(rayCount: nat)
    ensures forall j :: 0 <= j < |FanTriangles(rayCount)| ==> 0 <= FanTriangles(rayCount)[j] < rayCount + 2
  {
    forall j | 0 <= j < |FanTriangles(rayCount)|
      ensures 0 <= FanTriangles(rayCount)[j] < rayCount + 2
    {
      assert j / 3 < rayCount;
    }
  }

  /** The centre first and the end of ray i at index i + 1. */
  predicate IsFan(v: seq<Vec>, center: Vec, rayCount: nat, first: real, step: real, r: Rays, origin: Vec, viewDistance: real, local: bool) {
    && |v| == rayCount + 2 && v[0] == center
    && forall i :: 0 <= i <= rayCount ==> v[i + 1] == FanPoint(r, origin, viewDistance, local, RayAngle(first, step, i))
  }

  /** The fan is the one vertex list of that shape. */
  lemma FanVerticesIff(v: seq<Vec>, center: Vec, rayCount: nat, first: real, step: real, r: Rays, origin: Vec, viewDistance: real, local: bool)
    ensures v == FanVertices(center, rayCount, first, step, r, origin, viewDistance, local)
        <==> IsFan(v, center, rayCount, first, step, r, origin, viewDistance, local)
  {
    var fan := FanVertices(center, rayCount, first, step, r, origin, viewDistance, local);
    var rays := FanRays(rayCount + 1, first, step, r, origin, viewDistance, local);
    FanRaysIndex(rayCount + 1, first, step, r, origin, viewDistance, local);
    var shaped := IsFan(v, center, rayCount, first, step, r, origin, viewDistance, local);
    assert v == fan ==> shaped by {
      if v == fan {
        forall i | 0 <= i <= rayCount
          ensures v[i + 1] == FanPoint(r, origin, viewDistance, local, RayAngle(first, step, i))
        {
          assert v[i + 1] == rays[i];
        }
      }
    }
    assert shaped ==> v == fan by {
      if shaped {
        forall k | 0 <= k < |v|
          ensures v[k] == fan[k]
        {
          if k > 0 {
            assert v[(k - 1) + 1] == rays[k - 1];
          }
        }
      }
    }
  }

  /** A triangle list is the fan's exactly when it holds rayCount triples
      (0, t + 1, t + 2) in order. */
  lemma FanTrianglesIff(tri: seq<int>, rayCount: nat)
    ensures tri == FanTriangles(rayCount)
        <==> && |tri| == rayCount * 3
             && forall t :: 0 <= t < rayCount ==> tri[3 * t] == 0 && tri[3 * t + 1] == t + 1 && tri[3 * t + 2] == t + 2
  {
    var fan := FanTriangles(rayCount);
    if tri == fan {
      forall t | 0 <= t < rayCount
        ensures tri[3 * t] == 0 && tri[3 * t + 1] == t + 1 && tri[3 * t + 2] == t + 2
      {
        FanTriangle(rayCount, t);
        assert tri[3 * t..3 * t + 3] == [0, t + 1, t + 2];
      }
    }
    if && |tri| == rayCount * 3
       && forall t :: 0 <= t < rayCount ==> tri[3 * t] == 0 && tri[3 * t + 1] == t + 1 && tri[3 * t + 2] == t + 2
    {
      forall j | 0 <= j < |tri|
        ensures tri[j] == fan[j]
      {
        var t := j / 3;
        assert j == 3 * t + j % 3;
        assert t < rayCount;
      }
    }
  }

  /** Each triangle extends the fan's triangle list by one triple. */
  lemma FanTrianglesPrefix(rayCount: nat, t: nat)
    requires t < rayCount
    ensures FanTriangles(rayCount)[..3 * t + 3] == FanTriangles(rayCount)[..3 * t] + [0, t + 1, t + 2]
  {
    FanTriangle(rayCount, t);
    var tri := FanTriangles(rayCount);
    assert tri[..3 * t + 3] == tri[..3 * t] + tri[3 * t..3 * t + 3];
  }

  /** The write of vertex k extends the vertex list written so far. */
  method PutVertex(vertices: array<Vec>, k: nat, vertex: Vec, ghost written: seq<Vec>)
    requires k < vertices.Length && vertices[..k] == written
    modifies vertices
    ensures vertices[..k + 1] == written + [vertex]
  {
    vertices[k] := vertex;
    assert vertices[..k + 1] == vertices[..k] + [vertices[k]];
  }

  /** The three writes of triangle t, from the triangle and vertex
      counters, extend the fan's triangle list written so far. */
  method PutTriangle(triangles: array<int>, triangleIndex: int, vertexIndex: int, ghost rayCount: nat, ghost t: nat)
    requires t < rayCount && triangles.Length == rayCount * 3
    requires triangleIndex == 3 * t && vertexIndex == t + 2
    requires triangles[..triangleIndex] == FanTriangles(rayCount)[..triangleIndex]
    modifies triangles
    ensures triangles[..triangleIndex + 3] == FanTriangles(rayCount)[..triangleIndex + 3]
  {
    ghost var before := triangles[..triangleIndex];
    triangles[triangleIndex] := 0;
    triangles[triangleIndex + 1] := vertexIndex - 1;
    triangles[triangleIndex + 2] := vertexIndex;
    assert triangles[..triangleIndex + 3] == before + [0, t + 1, t + 2];
    FanTrianglesPrefix(rayCount, t);
  }

  /** What a fan loop has written before ray i: the centre and the ends of
      rays 0..i-1, and the triangles up to ray i - 1. */
  ghost predicate FanSoFar(vertices: array<Vec>, triangles: array<int>, i: nat, rayCount: nat, center: Vec,
                           first: real, step: real, r: Rays, origin: Vec, viewDistance: real, local: bool)
    reads vertices, triangles
  {
    var triangleIndex := if i == 0 then 0 else 3 * (i - 1);
    && vertices.Length == rayCount + 2 && triangles.Length == rayCount * 3 && i <= rayCount + 1
    && vertices[..i + 1] == [center] + FanRays(i, first, step, r, origin, viewDistance, local)
    && triangles[..triangleIndex] == FanTriangles(rayCount)[..triangleIndex]
  }

  /** A loop that has cast every ray has written the whole fan. */
  lemma FanDone(vertices: array<Vec>, triangles: array<int>, rayCount: nat, center: Vec,
                first: real, step: real, r: Rays, origin: Vec, viewDistance: real, local: bool)
    requires FanSoFar(vertices, triangles, rayCount + 1, rayCount, center, first, step, r, origin, viewDistance, local)
    ensures vertices[..] == FanVertices(center, rayCount, first, step, r, origin, viewDistance, local)
    ensures triangles[..] == FanTriangles(rayCount)
  {
    assert vertices[..] == vertices[..rayCount + 2];
    assert triangles[..] == triangles[..rayCount * 3];
  }

  /** One pass of the fan loop: cast ray i, store its end, add the triangle
      back to the previous ray, and move the counters on. */
  method CastRay(vertices: array<Vec>, triangles: array<int>, i: nat, vertexIndex: int, triangleIndex: int, angle: real,
                 ghost rayCount: nat, ghost first: real, step: real, r: Rays, origin: Vec, viewDistance: real)
      returns (vertexIndex': int, triangleIndex': int, angle': real)
    requires i <= rayCount && FanSoFar(vertices, triangles, i, rayCount, origin, first, step, r, origin, viewDistance, false)
    requires vertexIndex == i + 1 && triangleIndex == (if i == 0 then 0 else 3 * (i - 1)) && angle == RayAngle(first, step, i)
    modifies vertices, triangles
    ensures FanSoFar(vertices, triangles, i + 1, rayCount, origin, first, step, r, origin, viewDistance, false)
    ensures vertexIndex' == i + 2 && triangleIndex' == 3 * i && angle' == RayAngle(first, step, i + 1)
  {
    ghost var written := [origin] + FanRays(i, first, step, r, origin, viewDistance, false);
    PutVertex(vertices, vertexIndex, RayPoint(r, origin, viewDistance, angle), written);
    assert written + [RayPoint(r, origin, viewDistance, angle)] == [origin] + FanRays(i + 1, first, step, r, origin, viewDistance, false);
    triangleIndex' := triangleIndex;
    if i > 0 {
      PutTriangle(triangles, triangleIndex, vertexIndex, rayCount, i - 1);
      triangleIndex' := triangleIndex + 3;
    }
    vertexIndex' := vertexIndex + 1;
    angle' := angle - step;
  }

  /** The fan loop of FieldOfView.GenerateMesh and FieldOfView.LateUpdate:
      a vertex counter from 1 and a triangle counter stepping by 3 from 0,
      the angle decreasing by one step per ray. */
  method FanByCounters(rayCount: nat, first: real, step: real, r: Rays, origin: Vec, viewDistance: real)
      returns (vertices: array<Vec>, triangles: array<int>)
    ensures fresh(vertices) && fresh(triangles)
    ensures vertices[..] == FanVertices(origin, rayCount, first, step, r, origin, viewDistance, false)
    ensures triangles[..] == FanTriangles(rayCount)
  {
    vertices := new Vec[rayCount + 2](_ => Zero);
    triangles := new int[rayCount * 3](_ => 0);
    vertices[0] := origin;
    var vertexIndex := 1;
    var triangleIndex := 0;
    var angle := first;
    for i := 0 to rayCount + 1
      invariant FanSoFar(vertices, triangles, i, rayCount, origin, first, step, r, origin, viewDistance, false)
      invariant vertexIndex == i + 1 && triangleIndex == (if i == 0 then 0 else 3 * (i - 1)) && angle == RayAngle(first, step, i)
    {
      vertexIndex, triangleIndex, angle := CastRay(vertices, triangles, i, vertexIndex, triangleIndex, angle,
                                                   rayCount, first, step, r, origin, viewDistance);
    }
    FanDone(vertices, triangles, rayCount, origin, first, step, r, origin, viewDistance, false);
  }
}

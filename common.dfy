/** Small value types shared by the model: optional values, results with
    the errors the game code raises, and plain vectors. */
module Common {

  datatype Option<+T> = None | Some(value: T)

  /** The exceptional outcomes of the modelled C# code (a dictionary lookup
      of a missing key). */
  datatype Error = KeyNotFound

  datatype Result<+T> = Success(value: T) | Failure(error: Error)

  /** A Unity Vector3 (or Vector2 with z = 0) over the reals; IEEE float
      behaviour is not modelled. */
  datatype Vec = Vec(x: real, y: real, z: real)

  const Zero: Vec := Vec(0.0, 0.0, 0.0)

  function Add(a: Vec, b: Vec): Vec { Vec(a.x + b.x, a.y + b.y, a.z + b.z) }

  function Sub(a: Vec, b: Vec): Vec { Vec(a.x - b.x, a.y - b.y, a.z - b.z) }

  function Scale(a: Vec, k: real): Vec { Vec(a.x * k, a.y * k, a.z * k) }

  function Dot(a: Vec, b: Vec): real { a.x * b.x + a.y * b.y + a.z * b.z }

  function Max(a: int, b: int): int { if a < b then b else a }

  function Min(a: int, b: int): int { if a < b then a else b }
}

/** Three-component vectors of reals, standing for the single-precision
    `Vector3` values of the IMU readings and offsets (rounding is not
    modelled). */
module Vectors {

  datatype Vec3 = Vec3(x: real, y: real, z: real)

  const Zero := Vec3(0.0, 0.0, 0.0)

  /** `Vector2`, used for the trackpad coordinates. */
  datatype Vec2 = Vec2(x: real, y: real)

  /** Component `k` of a vector, as `v[k]` indexes a `Vector3`. */
  function Comp(v: Vec3, k: nat): real
  {
    if k == 0 then v.x else if k == 1 then v.y else v.z
  }

  function Add(a: Vec3, b: Vec3): Vec3
  {
    Vec3(a.x + b.x, a.y + b.y, a.z + b.z)
  }

  function Sub(a: Vec3, b: Vec3): Vec3
  {
    Vec3(a.x - b.x, a.y - b.y, a.z - b.z)
  }

  /** `v / n` for a positive count `n`. */
  function Div(v: Vec3, n: int): Vec3
    requires n > 0
  {
    Vec3(v.x / n as real, v.y / n as real, v.z / n as real)
  }

  /** Sum of a sequence of vectors, the last element added last. */
  function SumOf(s: seq<Vec3>): Vec3
  {
    if s == [] then Zero else Add(SumOf(s[..|s| - 1]), s[|s| - 1])
  }

  /** The mean of a non-empty sequence of vectors. */
  function Mean(s: seq<Vec3>): Vec3
    requires |s| > 0
  {
    Div(SumOf(s), |s|)
  }
}

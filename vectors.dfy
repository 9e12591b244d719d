/** The small vector types the renderer borrows from its linear-algebra library. */
module Vectors {

  datatype Vec2 = Vec2(x: real, y: real)
  datatype Vec3 = Vec3(x: real, y: real, z: real)
  datatype Vec4 = Vec4(x: real, y: real, z: real, w: real)
  datatype Vec2i = Vec2i(x: int, y: int)
  datatype Vec3i = Vec3i(x: int, y: int, z: int)

  function Sub3(a: Vec3, b: Vec3): Vec3
  {
    Vec3(a.x - b.x, a.y - b.y, a.z - b.z)
  }

  function DotI(a: Vec3i, b: Vec3i): int
  {
    a.x * b.x + a.y * b.y + a.z * b.z
  }

  /** The integer cross product; the result is orthogonal to both factors. */
  function Cross(a: Vec3i, b: Vec3i): (r: Vec3i)
    ensures DotI(r, a) == 0 && DotI(r, b) == 0
  {
    Vec3i(a.y * b.z - a.z * b.y, a.z * b.x - a.x * b.z, a.x * b.y - a.y * b.x)
  }

  function Scale4(v: Vec4, k: real): Vec4
  {
    Vec4(v.x * k, v.y * k, v.z * k, v.w * k)
  }

  function Add4(a: Vec4, b: Vec4): Vec4
  {
    Vec4(a.x + b.x, a.y + b.y, a.z + b.z, a.w + b.w)
  }
}

/** Coordinates of the host's mesh data, as exact reals: the models are about
    which vertex, edge or pixel gets which value, not about float rounding. */
module Geometry {

  /** A 3D position or normal (mathutils.Vector of size 3). */
  datatype Vec3 = Vec3(x: real, y: real, z: real)

  /** A texture coordinate (mathutils.Vector of size 2). */
  datatype Uv = Uv(u: real, v: real)

  function Sub(a: Vec3, b: Vec3): (d: Vec3)
    ensures Add(b, d) == a
  {
    Vec3(a.x - b.x, a.y - b.y, a.z - b.z)
  }

  function Add(a: Vec3, b: Vec3): Vec3 {
    Vec3(a.x + b.x, a.y + b.y, a.z + b.z)
  }

  /** Squared Euclidean distance between two texture coordinates. */
  function UvDist2(a: Uv, b: Uv): (d: real)
    ensures d >= 0.0
  {
    (a.u - b.u) * (a.u - b.u) + (a.v - b.v) * (a.v - b.v)
  }
}

/** Three-dimensional vectors over the reals: the model of glm::dvec3 / glm::vec3.
    Rounding and the float/double split of the original are not modelled. */
module Vectors {

  datatype Vec3 = Vec3(x: real, y: real, z: real)

  const Zero: Vec3 := Vec3(0.0, 0.0, 0.0)

  function Add(a: Vec3, b: Vec3): Vec3 {
    Vec3(a.x + b.x, a.y + b.y, a.z + b.z)
  }

  function Sub(a: Vec3, b: Vec3): Vec3 {
    Vec3(a.x - b.x, a.y - b.y, a.z - b.z)
  }

  function Neg(a: Vec3): Vec3 {
    Vec3(-a.x, -a.y, -a.z)
  }

  /** `a * k` for a scalar `k`. */
  function Scale(a: Vec3, k: real): Vec3 {
    Vec3(a.x * k, a.y * k, a.z * k)
  }

  /** `a / k` for a non-zero scalar `k`. */
  function Div(a: Vec3, k: real): Vec3
    requires k != 0.0
  {
    Vec3(a.x / k, a.y / k, a.z / k)
  }

  function Dot(a: Vec3, b: Vec3): real {
    a.x * b.x + a.y * b.y + a.z * b.z
  }

  lemma DotScale(a: Vec3, k: real)
    ensures Dot(Scale(a, k), a) == k * Dot(a, a)
    ensures Dot(Scale(a, k), Scale(a, k)) == (k * k) * Dot(a, a)
  {
  }

  lemma ScaleNeg(a: Vec3, k: real)
    ensures Scale(Neg(a), k) == Neg(Scale(a, k))
  {
  }

  lemma DivNeg(a: Vec3, k: real)
    requires k != 0.0
    ensures Div(Neg(a), k) == Neg(Div(a, k))
  {
  }

  lemma SubAntisymmetric(a: Vec3, b: Vec3)
    ensures Sub(a, b) == Neg(Sub(b, a))
  {
  }

  lemma DotNeg(a: Vec3)
    ensures Dot(Neg(a), Neg(a)) == Dot(a, a)
  {
  }
}

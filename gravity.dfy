/** The pairwise gravitational force of Simulator::calculateGravitationalForce
    (Simulator.cpp:33-54): Newton's inverse-square law with a distance floor.

    glm::length is not modelled: every function that needs it takes it as the
    parameter `norm`, and the lemmas assume only `IsLength(norm)`, i.e. that `norm(v)` is
    the non-negative square root of `Dot(v, v)`. glm::normalize(v) is `v / norm(v)`. */
module Gravity {
  import opened Vectors
  import opened Bodies

  /** The gravitational constant used for the force (Simulator.cpp:44). */
  const G: real := 6.67430e-11

  /** Separations below this many metres are treated as this many (Simulator.cpp:38-41). */
  const MinDistance: real := 1.0e9

  /** `norm` is the Euclidean length: its value squared is the dot product. */
  ghost predicate IsLength(norm: Vec3 -> real) {
    forall v :: 0.0 <= norm(v) && norm(v) * norm(v) == Dot(v, v)
  }

  /** The distance the force law uses: the true distance, floored at MinDistance. */
  function EffectiveDistance(distance: real): (r: real)
    ensures MinDistance <= r
    ensures MinDistance <= distance ==> r == distance
    ensures r == distance || r == MinDistance
  {
    if distance < MinDistance then MinDistance else distance
  }

  /** Force magnitude G * m1 * m2 / d^2, at the floored distance d. */
  function Magnitude(m1: real, m2: real, distance: real): (r: real)
    ensures 0.0 < m1 && 0.0 < m2 ==> 0.0 < r
    ensures 0.0 < m1 && 0.0 < m2 ==> r <= G * (m1 * m2) / (MinDistance * MinDistance)
  {
    var d := EffectiveDistance(distance);
    MassProductPositive(m1, m2);
    MagnitudeBounds(G * (m1 * m2), d);
    G * (m1 * m2) / (d * d)
  }

  /** glm::normalize: the unit vector along `v`. glm yields NaN components for the zero
      vector; that case is given the value Zero here (see `ForceAsWritten`). */
  function Normalize(v: Vec3, norm: Vec3 -> real): (r: Vec3)
    ensures norm(v) == 0.0 ==> r == Zero
    ensures norm(v) != 0.0 ==> Scale(r, norm(v)) == v
  {
    var len := norm(v);
    if len == 0.0 then Zero else DivScale(v, len); Div(v, len)
  }

  lemma DivScale(v: Vec3, len: real)
    requires len != 0.0
    ensures Scale(Div(v, len), len) == v
  {
    assert v.x / len * len == v.x && v.y / len * len == v.y && v.z / len * len == v.z;
  }

  /** The force on body `b1` due to body `b2`: directed from b1 towards b2. */
  function Force(b1: BodyState, b2: BodyState, norm: Vec3 -> real): (r: Vec3)
    ensures var d := Sub(b2.position, b1.position);
            norm(d) != 0.0 ==> r == Scale(d, Magnitude(b1.mass, b2.mass, norm(d)) / norm(d))
    ensures norm(Sub(b2.position, b1.position)) == 0.0 ==> r == Zero
  {
    var direction := Sub(b2.position, b1.position);
    var m := Magnitude(b1.mass, b2.mass, norm(direction));
    NormalizeScaled(direction, norm, m);
    Scale(Normalize(direction, norm), m)
  }

  lemma NormalizeScaled(v: Vec3, norm: Vec3 -> real, m: real)
    ensures norm(v) != 0.0 ==> Scale(Normalize(v, norm), m) == Scale(v, m / norm(v))
    ensures norm(v) == 0.0 ==> Scale(Normalize(v, norm), m) == Zero
  {
    if norm(v) != 0.0 {
      assert Normalize(v, norm) == Div(v, norm(v));
      ScaleDiv(v, norm(v), m);
    }
  }

  datatype Option<T> = None | Some(value: T)

  /** calculateGravitationalForce as written: glm::normalize of the zero vector divides
      by a zero length and yields NaN components, which are modelled as no value. Where
      the direction has a length it agrees with `Force`. */
  function ForceAsWritten(b1: BodyState, b2: BodyState, norm: Vec3 -> real): (r: Option<Vec3>)
    ensures r.Some? <==> norm(Sub(b2.position, b1.position)) != 0.0
    ensures r.Some? ==> r.value == Force(b1, b2, norm)
  {
    var direction := Sub(b2.position, b1.position);
    var len := norm(direction);
    if len == 0.0 then None
    else Some(Scale(Div(direction, len), Magnitude(b1.mass, b2.mass, len)))
  }

  // ---------------------------------------------------------------------------
  // Real-arithmetic helpers

  lemma MulPositive(x: real, y: real)
    requires 0.0 < x && 0.0 < y
    ensures 0.0 < x * y
  {
  }

  lemma SquareLess(a: real, b: real)
    requires 0.0 <= a < b
    ensures a * a < b * b
  {
    MulPositive(b - a, b + a);
    assert (b - a) * (b + a) == b * b - a * a;
  }

  lemma MassProductPositive(m1: real, m2: real)
    ensures 0.0 < m1 && 0.0 < m2 ==> 0.0 < G * (m1 * m2)
  {
    if 0.0 < m1 && 0.0 < m2 {
      MulPositive(m1, m2);
      MulPositive(G, m1 * m2);
    }
  }

  /** For x > 0 and d >= MinDistance: 0 < x / d^2 <= x / MinDistance^2. */
  lemma MagnitudeBounds(x: real, d: real)
    requires MinDistance <= d
    ensures 0.0 < d * d
    ensures 0.0 < x ==> 0.0 < x / (d * d) <= x / (MinDistance * MinDistance)
  {
    MulPositive(d, d);
    if 0.0 < x {
      MagnitudeBoundsPositive(x, d);
    }
  }

  lemma MagnitudeBoundsPositive(x: real, d: real)
    requires 0.0 < x && MinDistance <= d
    ensures 0.0 < x / (d * d) <= x / (MinDistance * MinDistance)
  {
    MulPositive(d, d);
    var f := MinDistance * MinDistance;
    if MinDistance < d {
      SquareLess(MinDistance, d);
    }
    assert f <= d * d;
    assert 1.0 / (d * d) <= 1.0 / f;
    assert x / (d * d) == x * (1.0 / (d * d)) && x / f == x * (1.0 / f);
    MulPositive(x, 1.0 / (d * d) );
    assert x * (1.0 / f) - x * (1.0 / (d * d)) == x * (1.0 / f - 1.0 / (d * d));
    if 1.0 / (d * d) < 1.0 / f {
      MulPositive(x, 1.0 / f - 1.0 / (d * d));
    }
  }

  /** A length is determined by its square. */
  lemma RootUnique(a: real, b: real)
    requires 0.0 <= a && 0.0 <= b && a * a == b * b
    ensures a == b
  {
    if a < b {
      SquareLess(a, b);
    } else if b < a {
      SquareLess(b, a);
    }
  }

  // ---------------------------------------------------------------------------
  // Properties of the force law

  /** Reversing a vector does not change its length. */
  lemma LengthOfNeg(norm: Vec3 -> real, v: Vec3)
    requires IsLength(norm)
    ensures norm(Neg(v)) == norm(v)
  {
    DotNeg(v);
    RootUnique(norm(Neg(v)), norm(v));
  }

  /** The floor can be decided on the squared distance: the true distance is below
      MinDistance exactly when the dot product is below MinDistance squared. */
  lemma ClampedIffSquareBelow(norm: Vec3 -> real, v: Vec3)
    requires IsLength(norm)
    ensures norm(v) < MinDistance <==> Dot(v, v) < MinDistance * MinDistance
  {
    var len := norm(v);
    if len < MinDistance {
      SquareLess(len, MinDistance);
    } else if MinDistance < len {
      SquareLess(MinDistance, len);
    }
  }

  /** Below the floor, the force is computed at the floor distance, whatever the
      true separation. */
  lemma ClampedMagnitude(norm: Vec3 -> real, b1: BodyState, b2: BodyState)
    requires IsLength(norm)
    requires Dot(Sub(b2.position, b1.position), Sub(b2.position, b1.position))
             < MinDistance * MinDistance
    ensures Magnitude(b1.mass, b2.mass, norm(Sub(b2.position, b1.position)))
            == G * (b1.mass * b2.mass) / (MinDistance * MinDistance)
  {
    ClampedIffSquareBelow(norm, Sub(b2.position, b1.position));
  }

  /** The magnitude does not depend on which body is first. */
  lemma MagnitudeSymmetric(m1: real, m2: real, distance: real)
    ensures Magnitude(m1, m2, distance) == Magnitude(m2, m1, distance)
  {
    assert m1 * m2 == m2 * m1;
  }

  /** Newton's third law: the force on b1 due to b2 is the negation of the force on b2
      due to b1. */
  lemma ThirdLaw(norm: Vec3 -> real, b1: BodyState, b2: BodyState)
    requires IsLength(norm)
    ensures Force(b1, b2, norm) == Neg(Force(b2, b1, norm))
  {
    var d := Sub(b2.position, b1.position);
    SubAntisymmetric(b1.position, b2.position);
    LengthOfNeg(norm, d);
    MagnitudeSymmetric(b1.mass, b2.mass, norm(d));
    NormalizeNeg(norm, d);
    ScaleNeg(Normalize(d, norm), Magnitude(b1.mass, b2.mass, norm(d)));
  }

  /** The third law for every pair of bodies at once. */
  ghost predicate Reciprocal(norm: Vec3 -> real) {
    forall b1, b2 :: Force(b1, b2, norm) == Neg(Force(b2, b1, norm))
  }

  lemma ThirdLawForAll(norm: Vec3 -> real)
    requires IsLength(norm)
    ensures Reciprocal(norm)
  {
    forall b1, b2 {
      ThirdLaw(norm, b1, b2);
    }
  }

  /** glm::normalize(-v) == -glm::normalize(v). */
  lemma NormalizeNeg(norm: Vec3 -> real, v: Vec3)
    requires norm(Neg(v)) == norm(v)
    ensures Normalize(Neg(v), norm) == Neg(Normalize(v, norm))
  {
    var len := norm(v);
    if len == 0.0 {
      assert Normalize(Neg(v), norm) == Zero;
    } else {
      DivNeg(v, len);
      assert Normalize(Neg(v), norm) == Div(Neg(v), len);
    }
  }

  lemma LengthOfZero(norm: Vec3 -> real)
    requires IsLength(norm)
    ensures norm(Zero) == 0.0
  {
    RootUnique(norm(Zero), 0.0);
  }

  /** Two bodies at the same place: the magnitude is the positive floor value, which
      the guard on it lets through, yet the as-written force has no value. */
  lemma CoincidentBodiesAsWritten(norm: Vec3 -> real, b1: BodyState, b2: BodyState)
    requires IsLength(norm)
    requires 0.0 < b1.mass && 0.0 < b2.mass && b1.position == b2.position
    ensures 0.0 < Magnitude(b1.mass, b2.mass, norm(Sub(b2.position, b1.position)))
    ensures ForceAsWritten(b1, b2, norm) == None
  {
    CoincidentLength(norm, b1, b2);
    ZeroLengthAsWritten(norm, b1, b2);
  }

  lemma ZeroLengthAsWritten(norm: Vec3 -> real, b1: BodyState, b2: BodyState)
    requires 0.0 < b1.mass && 0.0 < b2.mass
    requires norm(Sub(b2.position, b1.position)) == 0.0
    ensures 0.0 < Magnitude(b1.mass, b2.mass, norm(Sub(b2.position, b1.position)))
    ensures ForceAsWritten(b1, b2, norm) == None
  {
  }

  /** With normalize(0) taken as the zero vector, bodies at the same place exert no
      force on each other. */
  lemma CoincidentBodiesNoForce(norm: Vec3 -> real, b1: BodyState, b2: BodyState)
    requires IsLength(norm)
    requires b1.position == b2.position
    ensures Force(b1, b2, norm) == Zero
  {
    CoincidentLength(norm, b1, b2);
    ZeroLengthNoForce(norm, b1, b2);
  }

  lemma CoincidentLength(norm: Vec3 -> real, b1: BodyState, b2: BodyState)
    requires IsLength(norm) && b1.position == b2.position
    ensures norm(Sub(b2.position, b1.position)) == 0.0
  {
    assert Sub(b2.position, b1.position) == Zero;
    LengthOfZero(norm);
  }

  lemma ZeroLengthNoForce(norm: Vec3 -> real, b1: BodyState, b2: BodyState)
    requires norm(Sub(b2.position, b1.position)) == 0.0
    ensures Force(b1, b2, norm) == Zero
  {
    assert Normalize(Sub(b2.position, b1.position), norm) == Zero;
  }

  /** For distinct positions the force points from b1 towards b2 (attraction), and its
      length is the magnitude. */
  lemma ForceAlongSeparation(norm: Vec3 -> real, b1: BodyState, b2: BodyState)
    requires IsLength(norm)
    requires 0.0 < b1.mass && 0.0 < b2.mass
    requires 0.0 < norm(Sub(b2.position, b1.position))
    ensures var d := Sub(b2.position, b1.position);
            var m := Magnitude(b1.mass, b2.mass, norm(d));
            0.0 < Dot(Force(b1, b2, norm), d) &&
            Dot(Force(b1, b2, norm), Force(b1, b2, norm)) == m * m
    ensures var d := Sub(b2.position, b1.position);
            var k := Magnitude(b1.mass, b2.mass, norm(d)) / norm(d);
            0.0 < k && Force(b1, b2, norm) == Scale(d, k)
  {
    var d := Sub(b2.position, b1.position);
    var len := norm(d);
    var m := Magnitude(b1.mass, b2.mass, len);
    assert Force(b1, b2, norm) == Scale(d, m / len);
    assert Dot(d, d) == len * len;
    ScaledAlong(d, len, m);
  }

  /** `d * (m / len)` for `len` the length of `d`: a positive multiple of `d` whose
      dot product with `d` is positive and whose squared length is `m * m`. */
  lemma ScaledAlong(d: Vec3, len: real, m: real)
    requires 0.0 < len && 0.0 < m && Dot(d, d) == len * len
    ensures 0.0 < m / len
    ensures 0.0 < Dot(Scale(d, m / len), d)
    ensures Dot(Scale(d, m / len), Scale(d, m / len)) == m * m
  {
    var k := m / len;
    DotScale(d, k);
    RatioTimesSquare(m, len);
    MulPositive(len, m);
    RatioPositive(m, len);
  }

  lemma RatioPositive(m: real, len: real)
    requires 0.0 < m && 0.0 < len
    ensures 0.0 < m / len
  {
    assert (m / len) * len == m;
    if m / len <= 0.0 {
      NonPositiveTimesPositive(m / len, len);
    }
  }

  lemma NonPositiveTimesPositive(x: real, y: real)
    requires x <= 0.0 && 0.0 < y
    ensures x * y <= 0.0
  {
    if x < 0.0 {
      MulPositive(-x, y);
      assert -x * y == -(x * y);
    }
  }

  lemma ScaleDiv(a: Vec3, len: real, m: real)
    requires len != 0.0
    ensures Scale(Div(a, len), m) == Scale(a, m / len)
  {
    assert a.x / len * m == a.x * (m / len);
    assert a.y / len * m == a.y * (m / len);
    assert a.z / len * m == a.z * (m / len);
  }

  lemma RatioTimesSquare(m: real, len: real)
    requires len != 0.0
    ensures (m / len) * (len * len) == m * len
    ensures ((m / len) * (m / len)) * (len * len) == m * m
  {
  }
}

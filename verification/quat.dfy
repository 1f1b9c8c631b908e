/** Quaternions stored as four lanes (x, y, z, w) with the real part last:
    the Hamilton product and its hand-expanded conjugate variants, inverse,
    the rotation axes, the Euler-order products, the w/xyz completions and
    the two-bone regime flag. */
module Quat {
  import Scalar
  import opened Vec4

  type Quaternion = Float4

  function Identity(): Quaternion { Float4(0.0, 0.0, 0.0, 1.0) }

  /** The textbook Hamilton product with the real part last:
      w = aw bw - a.b and xyz = aw b + bw a + a x b. */
  function Hamilton(a: Quaternion, b: Quaternion): Quaternion {
    Float4(HamiltonX(a, b), HamiltonY(a, b), HamiltonZ(a, b), HamiltonW(a, b))
  }

  function HamiltonX(a: Quaternion, b: Quaternion): real { a.w * b.x + b.w * a.x + (a.y * b.z - a.z * b.y) }
  function HamiltonY(a: Quaternion, b: Quaternion): real { a.w * b.y + b.w * a.y + (a.z * b.x - a.x * b.z) }
  function HamiltonZ(a: Quaternion, b: Quaternion): real { a.w * b.z + b.w * a.z + (a.x * b.y - a.y * b.x) }
  function HamiltonW(a: Quaternion, b: Quaternion): real { a.w * b.w - (a.x * b.x + a.y * b.y + a.z * b.z) }

  /** `multiply(a, b)`: a chain of swizzles and fused multiply-adds whose last
      step negates the w lane; `MultiplyIsHamilton` says what it computes. */
  function Multiply(a: Quaternion, b: Quaternion): Quaternion {
    var bXZWY := ApplySwizzle(XZWY, b);
    var t1 := Mul(a, bXZWY);
    var t2 := Madd(a, ApplySwizzle(WYXZ, b), ApplySwizzle(YXWZ, t1));
    var t3 := Madd(ApplySwizzle(WZYX, a), bXZWY, t2);
    var t4 := Nmsub(ApplySwizzle(ZXYW, a), ApplySwizzle(YZXW, b), ApplySwizzle(XZWY, t3));
    CopyW(t4, Neg(t4))
  }

  /** The swizzle chain of `multiply` is the Hamilton product. */
  lemma MultiplyIsHamilton(a: Quaternion, b: Quaternion)
    ensures Multiply(a, b) == Hamilton(a, b)
  {
    MultiplyLaneX(a, b);
    MultiplyLaneY(a, b);
    MultiplyLaneZ(a, b);
    MultiplyLaneW(a, b);
  }

  lemma MultiplyLaneX(a: Quaternion, b: Quaternion)
    ensures Multiply(a, b).x == HamiltonX(a, b)
  {
  }

  lemma MultiplyLaneY(a: Quaternion, b: Quaternion)
    ensures Multiply(a, b).y == HamiltonY(a, b)
  {
  }

  lemma MultiplyLaneZ(a: Quaternion, b: Quaternion)
    ensures Multiply(a, b).z == HamiltonZ(a, b)
  {
  }

  lemma MultiplyLaneW(a: Quaternion, b: Quaternion)
    ensures Multiply(a, b).w == HamiltonW(a, b)
  {
  }

  /** `conjugate` negates the vector part and keeps the real part. */
  function Conjugate(q: Quaternion): (r: Quaternion)
    ensures r.x == -q.x && r.y == -q.y && r.z == -q.z && r.w == q.w
  {
    CopyW(Neg(q), q)
  }

  /** A real number as a quaternion. */
  function Real(k: real): Quaternion { Float4(0.0, 0.0, 0.0, k) }

  /** The identity is a two-sided unit; real quaternions commute with every
      quaternion and multiply as scalars. */
  lemma HamiltonUnit(q: Quaternion, k: real)
    ensures Hamilton(Identity(), q) == q && Hamilton(q, Identity()) == q
    ensures Hamilton(q, Real(k)) == MulScalar(q, k) && Hamilton(Real(k), q) == MulScalar(q, k)
    ensures Identity() == Real(1.0)
  {
  }

  /** The conjugate is an involution and reverses products; a quaternion times
      its conjugate, on either side, is its squared norm. */
  lemma ConjugateProduct(a: Quaternion, b: Quaternion)
    ensures Conjugate(Conjugate(a)) == a
    ensures Conjugate(Hamilton(a, b)) == Hamilton(Conjugate(b), Conjugate(a))
    ensures Hamilton(a, Conjugate(a)) == Real(Dot4(a, a))
    ensures Hamilton(Conjugate(a), a) == Real(Dot4(a, a))
  {
  }

  /** The product is associative. */
  lemma HamiltonAssociative(a: Quaternion, b: Quaternion, c: Quaternion)
    ensures Hamilton(Hamilton(a, b), c) == Hamilton(a, Hamilton(b, c))
  {
    AssociativeLaneX(a, b, c);
    AssociativeLaneY(a, b, c);
    AssociativeLaneZ(a, b, c);
    AssociativeLaneW(a, b, c);
  }

  lemma AssociativeLaneX(a: Quaternion, b: Quaternion, c: Quaternion)
    ensures Hamilton(Hamilton(a, b), c).x == Hamilton(a, Hamilton(b, c)).x
  {
    var ab, bc := Hamilton(a, b), Hamilton(b, c);
    AssociativeRingX(a.x, a.y, a.z, a.w, b.x, b.y, b.z, b.w, c.x, c.y, c.z, c.w,
                       ab.x, ab.y, ab.z, ab.w, bc.x, bc.y, bc.z, bc.w);
  }

  /** Lane x of associativity as a polynomial identity over the lanes. */
  lemma AssociativeRingX(
      ax: real, ay: real, az: real, aw: real, bx: real, by_: real, bz: real, bw: real,
      cx: real, cy: real, cz: real, cw: real,
      abx: real, aby: real, abz: real, abw: real, bcx: real, bcy: real, bcz: real, bcw: real)
    requires abx == aw * bx + bw * ax + (ay * bz - az * by_)
    requires aby == aw * by_ + bw * ay + (az * bx - ax * bz)
    requires abz == aw * bz + bw * az + (ax * by_ - ay * bx)
    requires abw == aw * bw - (ax * bx + ay * by_ + az * bz)
    requires bcx == bw * cx + cw * bx + (by_ * cz - bz * cy)
    requires bcy == bw * cy + cw * by_ + (bz * cx - bx * cz)
    requires bcz == bw * cz + cw * bz + (bx * cy - by_ * cx)
    requires bcw == bw * cw - (bx * cx + by_ * cy + bz * cz)
    ensures abw * cx + cw * abx + (aby * cz - abz * cy) == aw * bcx + bcw * ax + (ay * bcz - az * bcy)
  {
  }

  lemma AssociativeLaneY(a: Quaternion, b: Quaternion, c: Quaternion)
    ensures Hamilton(Hamilton(a, b), c).y == Hamilton(a, Hamilton(b, c)).y
  {
    var ab, bc := Hamilton(a, b), Hamilton(b, c);
    AssociativeRingY(a.x, a.y, a.z, a.w, b.x, b.y, b.z, b.w, c.x, c.y, c.z, c.w,
                       ab.x, ab.y, ab.z, ab.w, bc.x, bc.y, bc.z, bc.w);
  }

  /** Lane y of associativity as a polynomial identity over the lanes. */
  lemma AssociativeRingY(
      ax: real, ay: real, az: real, aw: real, bx: real, by_: real, bz: real, bw: real,
      cx: real, cy: real, cz: real, cw: real,
      abx: real, aby: real, abz: real, abw: real, bcx: real, bcy: real, bcz: real, bcw: real)
    requires abx == aw * bx + bw * ax + (ay * bz - az * by_)
    requires aby == aw * by_ + bw * ay + (az * bx - ax * bz)
    requires abz == aw * bz + bw * az + (ax * by_ - ay * bx)
    requires abw == aw * bw - (ax * bx + ay * by_ + az * bz)
    requires bcx == bw * cx + cw * bx + (by_ * cz - bz * cy)
    requires bcy == bw * cy + cw * by_ + (bz * cx - bx * cz)
    requires bcz == bw * cz + cw * bz + (bx * cy - by_ * cx)
    requires bcw == bw * cw - (bx * cx + by_ * cy + bz * cz)
    ensures abw * cy + cw * aby + (abz * cx - abx * cz) == aw * bcy + bcw * ay + (az * bcx - ax * bcz)
  {
  }

  lemma AssociativeLaneZ(a: Quaternion, b: Quaternion, c: Quaternion)
    ensures Hamilton(Hamilton(a, b), c).z == Hamilton(a, Hamilton(b, c)).z
  {
    var ab, bc := Hamilton(a, b), Hamilton(b, c);
    AssociativeRingZ(a.x, a.y, a.z, a.w, b.x, b.y, b.z, b.w, c.x, c.y, c.z, c.w,
                       ab.x, ab.y, ab.z, ab.w, bc.x, bc.y, bc.z, bc.w);
  }

  /** Lane z of associativity as a polynomial identity over the lanes. */
  lemma AssociativeRingZ(
      ax: real, ay: real, az: real, aw: real, bx: real, by_: real, bz: real, bw: real,
      cx: real, cy: real, cz: real, cw: real,
      abx: real, aby: real, abz: real, abw: real, bcx: real, bcy: real, bcz: real, bcw: real)
    requires abx == aw * bx + bw * ax + (ay * bz - az * by_)
    requires aby == aw * by_ + bw * ay + (az * bx - ax * bz)
    requires abz == aw * bz + bw * az + (ax * by_ - ay * bx)
    requires abw == aw * bw - (ax * bx + ay * by_ + az * bz)
    requires bcx == bw * cx + cw * bx + (by_ * cz - bz * cy)
    requires bcy == bw * cy + cw * by_ + (bz * cx - bx * cz)
    requires bcz == bw * cz + cw * bz + (bx * cy - by_ * cx)
    requires bcw == bw * cw - (bx * cx + by_ * cy + bz * cz)
    ensures abw * cz + cw * abz + (abx * cy - aby * cx) == aw * bcz + bcw * az + (ax * bcy - ay * bcx)
  {
  }

  lemma AssociativeLaneW(a: Quaternion, b: Quaternion, c: Quaternion)
    ensures Hamilton(Hamilton(a, b), c).w == Hamilton(a, Hamilton(b, c)).w
  {
    var ab, bc := Hamilton(a, b), Hamilton(b, c);
    AssociativeRingW(a.x, a.y, a.z, a.w, b.x, b.y, b.z, b.w, c.x, c.y, c.z, c.w,
                       ab.x, ab.y, ab.z, ab.w, bc.x, bc.y, bc.z, bc.w);
  }

  /** Lane w of associativity as a polynomial identity over the lanes. */
  lemma AssociativeRingW(
      ax: real, ay: real, az: real, aw: real, bx: real, by_: real, bz: real, bw: real,
      cx: real, cy: real, cz: real, cw: real,
      abx: real, aby: real, abz: real, abw: real, bcx: real, bcy: real, bcz: real, bcw: real)
    requires abx == aw * bx + bw * ax + (ay * bz - az * by_)
    requires aby == aw * by_ + bw * ay + (az * bx - ax * bz)
    requires abz == aw * bz + bw * az + (ax * by_ - ay * bx)
    requires abw == aw * bw - (ax * bx + ay * by_ + az * bz)
    requires bcx == bw * cx + cw * bx + (by_ * cz - bz * cy)
    requires bcy == bw * cy + cw * by_ + (bz * cx - bx * cz)
    requires bcz == bw * cz + cw * bz + (bx * cy - by_ * cx)
    requires bcw == bw * cw - (bx * cx + by_ * cy + bz * cz)
    ensures abw * cw - (abx * cx + aby * cy + abz * cz) == aw * bcw - (ax * bcx + ay * bcy + az * bcz)
  {
  }

  /** Scaling either factor scales the product. */
  lemma HamiltonScale(a: Quaternion, b: Quaternion, k: real)
    ensures Hamilton(a, MulScalar(b, k)) == MulScalar(Hamilton(a, b), k)
    ensures Hamilton(MulScalar(a, k), b) == MulScalar(Hamilton(a, b), k)
  {
    HamiltonUnit(b, k);
    HamiltonUnit(a, k);
    HamiltonUnit(Hamilton(a, b), k);
    HamiltonAssociative(a, b, Real(k));
    HamiltonAssociative(Real(k), a, b);
  }

  /** The product distributes over the lane-wise sum, on either side. */
  lemma HamiltonAdd(a: Quaternion, b: Quaternion, c: Quaternion)
    ensures Hamilton(a, Vec4.Add(b, c)) == Vec4.Add(Hamilton(a, b), Hamilton(a, c))
    ensures Hamilton(Vec4.Add(a, b), c) == Vec4.Add(Hamilton(a, c), Hamilton(b, c))
  {
    HamiltonAddRight(a, b, c);
    HamiltonAddLeft(a, b, c);
  }

  lemma HamiltonAddRight(a: Quaternion, b: Quaternion, c: Quaternion)
    ensures Hamilton(a, Vec4.Add(b, c)) == Vec4.Add(Hamilton(a, b), Hamilton(a, c))
  {
  }

  lemma HamiltonAddLeft(a: Quaternion, b: Quaternion, c: Quaternion)
    ensures Hamilton(Vec4.Add(a, b), c) == Vec4.Add(Hamilton(a, c), Hamilton(b, c))
  {
  }

  /** The norm of a product is the product of the norms. */
  lemma HamiltonNormMultiplicative(a: Quaternion, b: Quaternion)
    ensures Dot4(Hamilton(a, b), Hamilton(a, b)) == Dot4(a, a) * Dot4(b, b)
  {
    var p := Hamilton(a, b);
    NormRing(a.x, a.y, a.z, a.w, b.x, b.y, b.z, b.w, p.x, p.y, p.z, p.w, Dot4(a, a), Dot4(b, b));
  }

  /** Euler's four-square identity. */
  lemma NormRing(ax: real, ay: real, az: real, aw: real, bx: real, by_: real, bz: real, bw: real,
                 px: real, py: real, pz: real, pw: real, na: real, nb: real)
    requires px == aw * bx + bw * ax + (ay * bz - az * by_)
    requires py == aw * by_ + bw * ay + (az * bx - ax * bz)
    requires pz == aw * bz + bw * az + (ax * by_ - ay * bx)
    requires pw == aw * bw - (ax * bx + ay * by_ + az * bz)
    requires na == ax * ax + ay * ay + az * az + aw * aw
    requires nb == bx * bx + by_ * by_ + bz * bz + bw * bw
    ensures px * px + py * py + pz * pz + pw * pw == na * nb
  {
  }

  /** `inverseMultiply(a, b)`: conjugate(a) * b, expanded by hand. */
  function InverseMultiply(a: Quaternion, b: Quaternion): Quaternion {
    var t1 := SetW(Zero(), Dot4(a, b));
    var t2 := Madd(ApplySwizzle(ZXYW, a), ApplySwizzle(YZXW, b), t1);
    var t3 := Madd(ReplicateW(a), b, t2);
    var t4 := Nmsub(a, ReplicateW(b), t3);
    Nmsub(ApplySwizzle(YZXW, a), ApplySwizzle(ZXYW, b), t4)
  }

  /** The expansion of `inverseMultiply` is the product with the conjugate
      of the first operand. */
  lemma InverseMultiplyIsHamilton(a: Quaternion, b: Quaternion)
    ensures InverseMultiply(a, b) == Hamilton(Conjugate(a), b)
  {
    InverseMultiplyLaneX(a, b);
    InverseMultiplyLaneY(a, b);
    InverseMultiplyLaneZ(a, b);
    InverseMultiplyLaneW(a, b);
  }

  lemma InverseMultiplyLaneX(a: Quaternion, b: Quaternion)
    ensures InverseMultiply(a, b).x == HamiltonX(Conjugate(a), b)
  {
  }

  lemma InverseMultiplyLaneY(a: Quaternion, b: Quaternion)
    ensures InverseMultiply(a, b).y == HamiltonY(Conjugate(a), b)
  {
  }

  lemma InverseMultiplyLaneZ(a: Quaternion, b: Quaternion)
    ensures InverseMultiply(a, b).z == HamiltonZ(Conjugate(a), b)
  {
  }

  lemma InverseMultiplyLaneW(a: Quaternion, b: Quaternion)
    ensures InverseMultiply(a, b).w == HamiltonW(Conjugate(a), b)
  {
  }

  /** `multiplyInverse(a, b)`: a * conjugate(b), expanded by hand. */
  function MultiplyInverse(a: Quaternion, b: Quaternion): Quaternion {
    var t1 := SetW(Zero(), Dot4(a, b));
    var t2 := Madd(ApplySwizzle(ZXYW, a), ApplySwizzle(YZXW, b), t1);
    var t3 := Nmsub(ReplicateW(a), b, t2);
    var t4 := Madd(a, ReplicateW(b), t3);
    Nmsub(ApplySwizzle(YZXW, a), ApplySwizzle(ZXYW, b), t4)
  }

  /** The expansion of `multiplyInverse` is the product with the conjugate
      of the second operand. */
  lemma MultiplyInverseIsHamilton(a: Quaternion, b: Quaternion)
    ensures MultiplyInverse(a, b) == Hamilton(a, Conjugate(b))
  {
    MultiplyInverseLaneX(a, b);
    MultiplyInverseLaneY(a, b);
    MultiplyInverseLaneZ(a, b);
    MultiplyInverseLaneW(a, b);
  }

  lemma MultiplyInverseLaneX(a: Quaternion, b: Quaternion)
    ensures MultiplyInverse(a, b).x == HamiltonX(a, Conjugate(b))
  {
  }

  lemma MultiplyInverseLaneY(a: Quaternion, b: Quaternion)
    ensures MultiplyInverse(a, b).y == HamiltonY(a, Conjugate(b))
  {
  }

  lemma MultiplyInverseLaneZ(a: Quaternion, b: Quaternion)
    ensures MultiplyInverse(a, b).z == HamiltonZ(a, Conjugate(b))
  {
  }

  lemma MultiplyInverseLaneW(a: Quaternion, b: Quaternion)
    ensures MultiplyInverse(a, b).w == HamiltonW(a, Conjugate(b))
  {
  }

  /** `sandwich(a, b)` is a * b * conjugate(a). */
  function Sandwich(a: Quaternion, b: Quaternion): (r: Quaternion)
    ensures r == Hamilton(Hamilton(a, b), Conjugate(a))
  {
    MultiplyIsHamilton(a, b);
    MultiplyInverseIsHamilton(Multiply(a, b), a);
    MultiplyInverse(Multiply(a, b), a)
  }

  /** `sandwichInverse(a, b)` is conjugate(a) * b * a. */
  function SandwichInverse(a: Quaternion, b: Quaternion): (r: Quaternion)
    ensures r == Hamilton(Hamilton(Conjugate(a), b), a)
  {
    InverseMultiplyIsHamilton(a, b);
    MultiplyIsHamilton(InverseMultiply(a, b), a);
    Multiply(InverseMultiply(a, b), a)
  }

  /** For a unit quaternion the two sandwiches undo each other. */
  lemma SandwichRoundTrip(q: Quaternion, v: Quaternion)
    requires Dot4(q, q) == 1.0
    ensures SandwichInverse(q, Sandwich(q, v)) == v
    ensures Sandwich(q, SandwichInverse(q, v)) == v
  {
    var c := Conjugate(q);
    ConjugateProduct(q, q);
    HamiltonUnit(v, 1.0);
    calc {
      SandwichInverse(q, Sandwich(q, v));
      Hamilton(Hamilton(c, Hamilton(Hamilton(q, v), c)), q);
      { HamiltonAssociative(c, Hamilton(q, v), c); }
      Hamilton(Hamilton(Hamilton(c, Hamilton(q, v)), c), q);
      { HamiltonAssociative(c, q, v); }
      Hamilton(Hamilton(Hamilton(Hamilton(c, q), v), c), q);
      Hamilton(Hamilton(v, c), q);
      { HamiltonAssociative(v, c, q); }
      Hamilton(v, Hamilton(c, q));
      v;
    }
    calc {
      Sandwich(q, SandwichInverse(q, v));
      Hamilton(Hamilton(q, Hamilton(Hamilton(c, v), q)), c);
      { HamiltonAssociative(q, Hamilton(c, v), q); }
      Hamilton(Hamilton(Hamilton(q, Hamilton(c, v)), q), c);
      { HamiltonAssociative(q, c, v); }
      Hamilton(Hamilton(Hamilton(Hamilton(q, c), v), q), c);
      Hamilton(Hamilton(v, q), c);
      { HamiltonAssociative(v, q, c); }
      Hamilton(v, Hamilton(q, c));
      v;
    }
  }

  /** Below this length `inverse` returns the identity. */
  const InverseEpsilon: real := 0.0000000001

  /** `inverse(q)`: the conjugate divided by the squared length, or the identity
      when the length is below 1e-10 (a squared length below 1e-20). */
  function Inverse(sqrt: real -> real, q: Quaternion): (r: Quaternion)
    requires Scalar.IsSqrt(sqrt)
    ensures Dot4(q, q) < InverseEpsilon * InverseEpsilon ==> r == Identity()
    ensures InverseEpsilon * InverseEpsilon <= Dot4(q, q) ==>
              Hamilton(q, r) == Identity() && Hamilton(r, q) == Identity()
  {
    var scl := Len4(sqrt, q);
    SquaresNonNegative(q);
    Scalar.RootBelow(sqrt, Dot4(q, q), InverseEpsilon);
    if scl < InverseEpsilon then Identity()
    else
      var k := 1.0 / (scl * scl);
      InverseCancels(q, k);
      MulScalar(Conjugate(q), k)
  }

  lemma InverseCancels(q: Quaternion, k: real)
    requires k * Dot4(q, q) == 1.0
    ensures Hamilton(q, MulScalar(Conjugate(q), k)) == Identity()
    ensures Hamilton(MulScalar(Conjugate(q), k), q) == Identity()
  {
    ConjugateProduct(q, q);
    HamiltonScale(q, Conjugate(q), k);
    HamiltonScale(Conjugate(q), q, k);
  }

  /** Below this length `normal` returns the identity. */
  const UnitEpsilon: real := 0.0000000001

  /** `normal(q)`: the quaternion divided by its length and then given w >= 0 by
      `plusW`, or the identity when the length is below 1e-10 (a squared length
      below 1e-20). Scaling the result back by the length gives `plusW(q)`,
      the input up to the sign that represents the same rotation. */
  function Normal(sqrt: real -> real, q: Quaternion): (r: Quaternion)
    requires Scalar.IsSqrt(sqrt)
    ensures Dot4(q, q) < UnitEpsilon * UnitEpsilon ==> r == Identity()
    ensures UnitEpsilon * UnitEpsilon <= Dot4(q, q) ==>
              && Dot4(r, r) == 1.0
              && 0.0 <= r.w
              && MulScalar(r, Len4(sqrt, q)) == PlusW(q)
  {
    var scl := Len4(sqrt, q);
    SquaresNonNegative(q);
    Scalar.RootBelow(sqrt, Dot4(q, q), UnitEpsilon);
    if scl < UnitEpsilon then Identity()
    else
      var k := 1.0 / scl;
      NormalScaling(q, scl, k);
      PlusW(MulScalar(q, k))
  }

  /** Scaling by the reciprocal of the length gives a unit quaternion, which
      `plusW` keeps unit; since the factor is positive, `plusW` commutes with the
      scaling, so scaling back gives `plusW(q)`. */
  lemma NormalScaling(q: Quaternion, scl: real, k: real)
    requires 0.0 < scl && scl * scl == Dot4(q, q) && k == 1.0 / scl
    ensures Dot4(PlusW(MulScalar(q, k)), PlusW(MulScalar(q, k))) == 1.0
    ensures MulScalar(PlusW(MulScalar(q, k)), scl) == PlusW(q)
  {
    assert k * scl == 1.0;
    assert k * k * Dot4(q, q) == (k * scl) * (k * scl);
    UnitScaling(q, Dot4(q, q), scl, k);
    NegatedUnit(MulScalar(q, k));
    SignKept(q, k);
    NegatedScaling(MulScalar(q, k), scl);
  }

  lemma NegatedUnit(p: Quaternion)
    requires Dot4(p, p) == 1.0
    ensures Dot4(PlusW(p), PlusW(p)) == 1.0
  {
    assert Dot4(Neg(p), Neg(p)) == Dot4(p, p);
  }

  lemma SignKept(q: Quaternion, k: real)
    requires 0.0 < k
    ensures MulScalar(q, k).w < 0.0 <==> q.w < 0.0
  {
    if q.w < 0.0 {
      Scalar.PositiveProduct(-q.w, k);
    } else if q.w > 0.0 {
      Scalar.PositiveProduct(q.w, k);
    }
  }

  lemma NegatedScaling(p: Quaternion, s: real)
    ensures MulScalar(Neg(p), s) == Neg(MulScalar(p, s))
  {
  }

  /** `plusW` flips the sign of the whole quaternion when w is negative, so the
      result has w >= 0 and represents the same rotation. */
  function PlusW(q: Quaternion): (r: Quaternion)
    ensures 0.0 <= r.w
    ensures r == q || r == Neg(q)
    ensures 0.0 <= q.w ==> r == q
    ensures q.w < 0.0 ==> r == Neg(q)
  {
    if q.w < 0.0 then Neg(q) else q
  }

  /** The distance `nearPlusMinus` compares: the sum of absolute lane differences. */
  function Distance(a: Float4, b: Float4): real {
    Sum(AbsLanes(Sub(a, b)))
  }

  /** `nearPlusMinus(a, b)` is the sign to give `b` to bring it nearer to `a`:
      1.0 when `b` is strictly nearer than `-b`, otherwise -1.0. */
  function NearPlusMinus(a: Quaternion, b: Quaternion): (r: real)
    ensures r == 1.0 || r == -1.0
    ensures r == 1.0 <==> Distance(a, b) < Distance(a, Neg(b))
    ensures Distance(a, MulScalar(b, r)) <= Distance(a, MulScalar(b, -r))
  {
    assert Sub(a, Neg(b)) == Add(a, b);
    assert MulScalar(b, 1.0) == b && MulScalar(b, -1.0) == Neg(b);
    var p := Sum(AbsLanes(Add(a, b)));
    var m := Sum(AbsLanes(Sub(a, b)));
    if p > m then 1.0 else -1.0
  }

  /** Negating the second operand flips the choice unless the two distances tie. */
  lemma NearPlusMinusSymmetry(a: Quaternion, b: Quaternion)
    ensures Distance(a, b) != Distance(a, Neg(b)) ==> NearPlusMinus(a, Neg(b)) == -NearPlusMinus(a, b)
    ensures Distance(a, b) == Distance(a, Neg(b)) ==> NearPlusMinus(a, b) == -1.0
  {
    assert Neg(Neg(b)) == b;
  }

  // ---------------------------------------------------------------- rotation axes

  /** The x axis rotated by q: the first row of `fromQuaternion(q)`. */
  function AxisX(q: Quaternion): Float4 {
    SetXYZ(1.0 - 2.0 * (q.y * q.y + q.z * q.z), 2.0 * (q.x * q.y + q.z * q.w), 2.0 * (q.z * q.x - q.y * q.w))
  }

  /** The y axis rotated by q: the second row of `fromQuaternion(q)`. */
  function AxisY(q: Quaternion): Float4 {
    SetXYZ(2.0 * (q.x * q.y - q.z * q.w), 1.0 - 2.0 * (q.x * q.x + q.z * q.z), 2.0 * (q.y * q.z + q.x * q.w))
  }

  /** The z axis rotated by q: the third row of `fromQuaternion(q)`. */
  function AxisZ(q: Quaternion): Float4 {
    SetXYZ(2.0 * (q.x * q.z + q.y * q.w), 2.0 * (q.y * q.z - q.x * q.w), 1.0 - 2.0 * (q.x * q.x + q.y * q.y))
  }

  /** Each axis is the image of the corresponding unit vector under the rotation
      q * v * conjugate(q). */
  lemma AxesAreRotatedUnitVectors(q: Quaternion)
    requires Dot4(q, q) == 1.0
    ensures AxisX(q) == Sandwich(q, Vec4.AxisX())
    ensures AxisY(q) == Sandwich(q, Vec4.AxisY())
    ensures AxisZ(q) == Sandwich(q, Vec4.AxisZ())
  {
    RotatedAxisX(q);
    RotatedAxisY(q);
    RotatedAxisZ(q);
  }

  lemma RotatedAxisX(q: Quaternion)
    requires Dot4(q, q) == 1.0
    ensures AxisX(q) == Hamilton(Hamilton(q, Vec4.AxisX()), Conjugate(q))
  {
    var p := Hamilton(q, Vec4.AxisX());
    assert p == Float4(q.w, q.z, -q.y, -q.x);
  }

  lemma RotatedAxisY(q: Quaternion)
    requires Dot4(q, q) == 1.0
    ensures AxisY(q) == Hamilton(Hamilton(q, Vec4.AxisY()), Conjugate(q))
  {
    var p := Hamilton(q, Vec4.AxisY());
    assert p == Float4(-q.z, q.w, q.x, -q.y);
  }

  lemma RotatedAxisZ(q: Quaternion)
    requires Dot4(q, q) == 1.0
    ensures AxisZ(q) == Hamilton(Hamilton(q, Vec4.AxisZ()), Conjugate(q))
  {
    var p := Hamilton(q, Vec4.AxisZ());
    assert p == Float4(q.y, -q.x, q.w, -q.z);
  }

  /** For a unit quaternion the three axes are an orthonormal frame. */
  lemma AxesOrthonormal(q: Quaternion)
    requires Dot4(q, q) == 1.0
    ensures Dot3(AxisX(q), AxisX(q)) == 1.0 && Dot3(AxisY(q), AxisY(q)) == 1.0 && Dot3(AxisZ(q), AxisZ(q)) == 1.0
    ensures Dot3(AxisX(q), AxisY(q)) == 0.0 && Dot3(AxisY(q), AxisZ(q)) == 0.0 && Dot3(AxisZ(q), AxisX(q)) == 0.0
  {
    AxisXUnit(q);
    AxisYUnit(q);
    AxisZUnit(q);
    AxesXYOrthogonal(q);
    AxesYZOrthogonal(q);
    AxesZXOrthogonal(q);
  }

  /** The axes of the identity are the coordinate axes. */
  lemma AxesOfIdentity()
    ensures AxisX(Identity()) == Vec4.AxisX() && AxisY(Identity()) == Vec4.AxisY() && AxisZ(Identity()) == Vec4.AxisZ()
  {
    AxisXOfIdentity();
    AxisYOfIdentity();
    AxisZOfIdentity();
  }

  lemma AxisXOfIdentity()
    ensures AxisX(Identity()) == Vec4.AxisX()
  {
  }

  lemma AxisYOfIdentity()
    ensures AxisY(Identity()) == Vec4.AxisY()
  {
  }

  lemma AxisZOfIdentity()
    ensures AxisZ(Identity()) == Vec4.AxisZ()
  {
  }

  lemma AxisXUnit(q: Quaternion)
    requires Dot4(q, q) == 1.0
    ensures Dot3(AxisX(q), AxisX(q)) == 1.0
  {
    assert q == Float4(q.x, q.y, q.z, q.w);
    AxesXXRing(q.x, q.y, q.z, q.w, 1.0);
  }

  lemma AxisYUnit(q: Quaternion)
    requires Dot4(q, q) == 1.0
    ensures Dot3(AxisY(q), AxisY(q)) == 1.0
  {
    assert q == Float4(q.x, q.y, q.z, q.w);
    AxesYYRing(q.x, q.y, q.z, q.w, 1.0);
  }

  lemma AxisZUnit(q: Quaternion)
    requires Dot4(q, q) == 1.0
    ensures Dot3(AxisZ(q), AxisZ(q)) == 1.0
  {
    assert q == Float4(q.x, q.y, q.z, q.w);
    AxesZZRing(q.x, q.y, q.z, q.w, 1.0);
  }

  lemma AxesXYOrthogonal(q: Quaternion)
    requires Dot4(q, q) == 1.0
    ensures Dot3(AxisX(q), AxisY(q)) == 0.0
  {
    assert q == Float4(q.x, q.y, q.z, q.w);
    AxesXYRing(q.x, q.y, q.z, q.w, 1.0);
  }

  lemma AxesYZOrthogonal(q: Quaternion)
    requires Dot4(q, q) == 1.0
    ensures Dot3(AxisY(q), AxisZ(q)) == 0.0
  {
    assert q == Float4(q.x, q.y, q.z, q.w);
    AxesYZRing(q.x, q.y, q.z, q.w, 1.0);
  }

  lemma AxesZXOrthogonal(q: Quaternion)
    requires Dot4(q, q) == 1.0
    ensures Dot3(AxisZ(q), AxisX(q)) == 0.0
  {
    assert q == Float4(q.x, q.y, q.z, q.w);
    AxesZXRing(q.x, q.y, q.z, q.w, 1.0);
  }

  lemma AxesXXRing(x: real, y: real, z: real, w: real, n: real)
    requires n == x * x + y * y + z * z + w * w
    ensures var q := Float4(x, y, z, w); Dot3(AxisX(q), AxisX(q)) == 1.0 - 4.0 * (y * y + z * z) * (1.0 - n)
  {
    AxesXXPoly(x, y, z, w, n);
  }

  /** The squared length of the x axis of a quaternion of squared norm `n`. */
  lemma AxesXXPoly(x: real, y: real, z: real, w: real, n: real)
    requires n == x * x + y * y + z * z + w * w
    ensures Dot3(Float4(1.0 - 2.0 * (y * y + z * z), 2.0 * (x * y + z * w), 2.0 * (z * x - y * w), 0.0),
                 Float4(1.0 - 2.0 * (y * y + z * z), 2.0 * (x * y + z * w), 2.0 * (z * x - y * w), 0.0))
         == 1.0 - 4.0 * (y * y + z * z) * (1.0 - n)
  {
  }

  lemma AxesYYRing(x: real, y: real, z: real, w: real, n: real)
    requires n == x * x + y * y + z * z + w * w
    ensures var q := Float4(x, y, z, w); Dot3(AxisY(q), AxisY(q)) == 1.0 - 4.0 * (x * x + z * z) * (1.0 - n)
  {
    AxesYYPoly(x, y, z, w, n);
  }

  /** The squared length of the y axis of a quaternion of squared norm `n`. */
  lemma AxesYYPoly(x: real, y: real, z: real, w: real, n: real)
    requires n == x * x + y * y + z * z + w * w
    ensures Dot3(Float4(2.0 * (x * y - z * w), 1.0 - 2.0 * (x * x + z * z), 2.0 * (y * z + x * w), 0.0),
                 Float4(2.0 * (x * y - z * w), 1.0 - 2.0 * (x * x + z * z), 2.0 * (y * z + x * w), 0.0))
         == 1.0 - 4.0 * (x * x + z * z) * (1.0 - n)
  {
  }

  lemma AxesZZRing(x: real, y: real, z: real, w: real, n: real)
    requires n == x * x + y * y + z * z + w * w
    ensures var q := Float4(x, y, z, w); Dot3(AxisZ(q), AxisZ(q)) == 1.0 - 4.0 * (x * x + y * y) * (1.0 - n)
  {
    AxesZZPoly(x, y, z, w, n);
  }

  /** The squared length of the z axis of a quaternion of squared norm `n`. */
  lemma AxesZZPoly(x: real, y: real, z: real, w: real, n: real)
    requires n == x * x + y * y + z * z + w * w
    ensures Dot3(Float4(2.0 * (x * z + y * w), 2.0 * (y * z - x * w), 1.0 - 2.0 * (x * x + y * y), 0.0),
                 Float4(2.0 * (x * z + y * w), 2.0 * (y * z - x * w), 1.0 - 2.0 * (x * x + y * y), 0.0))
         == 1.0 - 4.0 * (x * x + y * y) * (1.0 - n)
  {
  }

  lemma AxesXYRing(x: real, y: real, z: real, w: real, n: real)
    requires n == x * x + y * y + z * z + w * w
    ensures var q := Float4(x, y, z, w); Dot3(AxisX(q), AxisY(q)) == 4.0 * (x * y) * (1.0 - n)
  {
    AxesXYPoly(x, y, z, w, n);
  }

  /** The dot product of the x and y axes of a quaternion of squared norm `n`. */
  lemma AxesXYPoly(x: real, y: real, z: real, w: real, n: real)
    requires n == x * x + y * y + z * z + w * w
    ensures Dot3(Float4(1.0 - 2.0 * (y * y + z * z), 2.0 * (x * y + z * w), 2.0 * (z * x - y * w), 0.0),
                 Float4(2.0 * (x * y - z * w), 1.0 - 2.0 * (x * x + z * z), 2.0 * (y * z + x * w), 0.0))
         == 4.0 * (x * y) * (1.0 - n)
  {
  }

  /** The dot product of the y and z axes of a quaternion of squared norm `n`. */
  lemma AxesYZRing(x: real, y: real, z: real, w: real, n: real)
    requires n == x * x + y * y + z * z + w * w
    ensures var q := Float4(x, y, z, w); Dot3(AxisY(q), AxisZ(q)) == 4.0 * (y * z) * (1.0 - n)
  {
    AxesYZPoly(x, y, z, w, n);
  }

  lemma AxesYZPoly(x: real, y: real, z: real, w: real, n: real)
    requires n == x * x + y * y + z * z + w * w
    ensures Dot3(Float4(2.0 * (x * y - z * w), 1.0 - 2.0 * (x * x + z * z), 2.0 * (y * z + x * w), 0.0),
                 Float4(2.0 * (x * z + y * w), 2.0 * (y * z - x * w), 1.0 - 2.0 * (x * x + y * y), 0.0))
         == 4.0 * (y * z) * (1.0 - n)
  {
  }

  lemma AxesZXRing(x: real, y: real, z: real, w: real, n: real)
    requires n == x * x + y * y + z * z + w * w
    ensures var q := Float4(x, y, z, w); Dot3(AxisZ(q), AxisX(q)) == 4.0 * (z * x) * (1.0 - n)
  {
    AxesZXPoly(x, y, z, w, n);
  }

  /** The dot product of the z and x axes of a quaternion of squared norm `n`. */
  lemma AxesZXPoly(x: real, y: real, z: real, w: real, n: real)
    requires n == x * x + y * y + z * z + w * w
    ensures Dot3(Float4(2.0 * (x * z + y * w), 2.0 * (y * z - x * w), 1.0 - 2.0 * (x * x + y * y), 0.0),
                 Float4(1.0 - 2.0 * (y * y + z * z), 2.0 * (x * y + z * w), 2.0 * (z * x - y * w), 0.0))
         == 4.0 * (z * x) * (1.0 - n)
  {
  }

  // ---------------------------------------------------------------- completions

  /** `adjustW` completes the vector part to a unit quaternion: when the vector
      part is at least unit length it is normalised with w = 0, otherwise w is
      set to the non-negative value that makes the quaternion unit. */
  function AdjustW(sqrt: real -> real, q: Quaternion): (r: Quaternion)
    requires Scalar.IsSqrt(sqrt)
    ensures Dot4(r, r) == 1.0
    ensures 1.0 <= Dot3(q, q) ==> r.w == 0.0
    ensures 1.0 <= Dot3(q, q) ==> MulScalar(r, Len3(sqrt, q)) == SetW0(q)
    ensures Dot3(q, q) < 1.0 ==> r == SetW(q, r.w) && 0.0 <= r.w
  {
    var sclXYZ := Len3(sqrt, q);
    SquaresNonNegative(q);
    Scalar.RootBelow(sqrt, Dot3(q, q), 1.0);
    if sclXYZ >= 1.0 then
      NormalisedByLength(q, sclXYZ);
      SetW0(MulScalar(q, 1.0 / sclXYZ))
    else
      var w := Scalar.SqrtClamp(sqrt, 1.0 - sclXYZ * sclXYZ);
      SetW(q, w)
  }

  /** Dividing the vector part by its positive length gives a unit vector
      that the length scales back. */
  lemma NormalisedByLength(q: Quaternion, len: real)
    requires 0.0 < len && len * len == Dot3(q, q)
    ensures var r := SetW0(MulScalar(q, 1.0 / len));
            Dot4(r, r) == 1.0 && MulScalar(r, len) == SetW0(q)
  {
    var k := 1.0 / len;
    assert k * len == 1.0;
    assert k * k * Dot3(q, q) == (k * len) * (k * len);
    var r := SetW0(MulScalar(q, k));
    assert Dot4(r, r) == k * k * Dot3(q, q);
    assert (q.x * k) * len == q.x * (k * len);
    assert (q.y * k) * len == q.y * (k * len);
    assert (q.z * k) * len == q.z * (k * len);
  }

  /** The tie-break of `adjustXYZ` for a degenerate vector part: the lane of
      largest magnitude, where z wins every tie and y wins a tie with x. */
  function DominantAxis(q: Quaternion): (l: Lane)
    ensures l != W
    ensures l == X <==> Scalar.Abs(q.x) > Scalar.Abs(q.y) && Scalar.Abs(q.x) > Scalar.Abs(q.z)
    ensures l == Y <==> Scalar.Abs(q.y) >= Scalar.Abs(q.x) && Scalar.Abs(q.y) > Scalar.Abs(q.z)
    ensures l == Z <==> Scalar.Abs(q.z) >= Scalar.Abs(q.x) && Scalar.Abs(q.z) >= Scalar.Abs(q.y)
  {
    var absx := Scalar.Abs(q.x);
    var absy := Scalar.Abs(q.y);
    var absz := Scalar.Abs(q.z);
    if absx > absy then
      if absx > absz then X else Z
    else
      if absy > absz then Y else Z
  }

  /** Below this length of the vector part `adjustXYZ` falls back to an axis. */
  const AdjustEpsilon: real := 0.0000000001

  /** The unit vector of the lane `l`. */
  function UnitLane(l: Lane): Float4 {
    match l
    case X => Vec4.AxisX()
    case Y => Vec4.AxisY()
    case Z => Vec4.AxisZ()
    case W => Vec4.AxisW()
  }

  /** `adjustXYZ` keeps w and rescales the vector part to make a unit quaternion.
      When w >= 1 the result is the identity. */
  function AdjustXYZ(sqrt: real -> real, q: Quaternion): (r: Quaternion)
    requires Scalar.IsSqrt(sqrt)
    ensures 1.0 <= q.w ==> r == Identity()
    ensures q.w < 1.0 ==> r.w == q.w
    ensures -1.0 <= q.w < 1.0 ==> Dot4(r, r) == 1.0
  {
    if -1.0 <= q.w < 1.0 then
      TrueLengthsUnit(sqrt, q);
      AdjustVector(q, Len3(sqrt, q), Scalar.SqrtClamp(sqrt, 1.0 - q.w * q.w))
    else
      AdjustVector(q, Len3(sqrt, q), Scalar.SqrtClamp(sqrt, 1.0 - q.w * q.w))
  }

  /** `adjustXYZ` given the length `scl` of the vector part and the target
      length `len` (both are computed before the w test here; they are pure, so
      the order does not matter). When the vector part is shorter than 1e-10
      the whole length goes to the dominant axis, with that lane's sign;
      otherwise the vector part is scaled by len / scl. */
  function AdjustVector(q: Quaternion, scl: real, len: real): (r: Quaternion)
    ensures 1.0 <= q.w ==> r == Identity()
    ensures q.w < 1.0 ==> r.w == q.w
  {
    var w := q.w;
    if w >= 1.0 then Identity()
    else if scl < AdjustEpsilon then
      var x, y, z := q.x, q.y, q.z;
      var absx, absy, absz := Scalar.Abs(x), Scalar.Abs(y), Scalar.Abs(z);
      if absx > absy then
        if absx > absz then
          if x >= 0.0 then SetXYZW(len, 0.0, 0.0, w) else SetXYZW(-len, 0.0, 0.0, w)
        else
          if z >= 0.0 then SetXYZW(0.0, 0.0, len, w) else SetXYZW(0.0, 0.0, -len, w)
      else
        if absy > absz then
          if y >= 0.0 then SetXYZW(0.0, len, 0.0, w) else SetXYZW(0.0, -len, 0.0, w)
        else
          if z >= 0.0 then SetXYZW(0.0, 0.0, len, w) else SetXYZW(0.0, 0.0, -len, w)
    else
      SetW(MulScalar(q, len / scl), w)
  }

  /** A degenerate vector part is replaced by the dominant axis with the sign of
      that lane, scaled to the target length. */
  lemma AdjustVectorDegenerate(q: Quaternion, scl: real, len: real)
    requires q.w < 1.0
    requires scl < AdjustEpsilon
    ensures var l := DominantAxis(q);
            SetW0(AdjustVector(q, scl, len)) == MulScalar(UnitLane(l), if Get(q, l) >= 0.0 then len else -len)
  {
  }

  /** Otherwise the vector part keeps its direction. */
  lemma AdjustVectorScaled(q: Quaternion, scl: real, len: real)
    requires q.w < 1.0
    requires AdjustEpsilon <= scl
    ensures SetW0(AdjustVector(q, scl, len)) == MulScalar(SetW0(q), len / scl)
  {
  }

  /** With the true lengths, the result is a unit quaternion whenever |w| <= 1. */
  lemma AdjustVectorUnit(q: Quaternion, scl: real, len: real)
    requires q.w < 1.0
    requires 0.0 <= scl && scl * scl == Dot3(q, q)
    requires 0.0 <= len && len * len == 1.0 - q.w * q.w
    ensures Dot4(AdjustVector(q, scl, len), AdjustVector(q, scl, len)) == 1.0
  {
    if AdjustEpsilon <= scl {
      AdjustVectorUnitScaled(q, scl, len);
    } else {
      AdjustVectorUnitDegenerate(q, scl, len);
    }
  }

  lemma AdjustVectorUnitScaled(q: Quaternion, scl: real, len: real)
    requires q.w < 1.0
    requires AdjustEpsilon <= scl && scl * scl == Dot3(q, q)
    requires 0.0 <= len && len * len == 1.0 - q.w * q.w
    ensures Dot4(AdjustVector(q, scl, len), AdjustVector(q, scl, len)) == 1.0
  {
    assert AdjustVector(q, scl, len) == SetW(MulScalar(q, len / scl), q.w);
    RescaledUnit(q, scl, len, len / scl);
  }

  lemma AdjustVectorUnitDegenerate(q: Quaternion, scl: real, len: real)
    requires q.w < 1.0
    requires scl < AdjustEpsilon
    requires len * len == 1.0 - q.w * q.w
    ensures Dot4(AdjustVector(q, scl, len), AdjustVector(q, scl, len)) == 1.0
  {
    var r := AdjustVector(q, scl, len);
    assert r.w == q.w;
    assert r == Float4(r.x, 0.0, 0.0, q.w) || r == Float4(0.0, r.y, 0.0, q.w) || r == Float4(0.0, 0.0, r.z, q.w);
    assert r.x * r.x + r.y * r.y + r.z * r.z == len * len;
  }

  /** `AdjustVectorUnit` at the lengths that `adjustXYZ` computes. */
  lemma TrueLengthsUnit(sqrt: real -> real, q: Quaternion)
    requires Scalar.IsSqrt(sqrt) && -1.0 <= q.w < 1.0
    ensures var scl, len := Len3(sqrt, q), Scalar.SqrtClamp(sqrt, 1.0 - q.w * q.w);
            Dot4(AdjustVector(q, scl, len), AdjustVector(q, scl, len)) == 1.0
  {
    var scl, len := Len3(sqrt, q), Scalar.SqrtClamp(sqrt, 1.0 - q.w * q.w);
    assert len * len == 1.0 - q.w * q.w by {
      Scalar.UnitComplement(q.w);
    }
    AdjustVectorUnit(q, scl, len);
  }

  /** A vector part of squared length below 1e-20 (length below 1e-10) falls
      back to the dominant axis. */
  lemma AdjustXYZDegenerate(sqrt: real -> real, q: Quaternion)
    requires Scalar.IsSqrt(sqrt) && q.w < 1.0 && Dot3(q, q) < AdjustEpsilon * AdjustEpsilon
    ensures var l := DominantAxis(q);
            var len := Scalar.SqrtClamp(sqrt, 1.0 - q.w * q.w);
            SetW0(AdjustXYZ(sqrt, q)) == MulScalar(UnitLane(l), if Get(q, l) >= 0.0 then len else -len)
  {
    SquaresNonNegative(q);
    Scalar.RootBelow(sqrt, Dot3(q, q), AdjustEpsilon);
    AdjustVectorDegenerate(q, Len3(sqrt, q), Scalar.SqrtClamp(sqrt, 1.0 - q.w * q.w));
  }

  /** Any other vector part is scaled by a non-negative factor: its direction is kept. */
  lemma AdjustXYZDirection(sqrt: real -> real, q: Quaternion)
    requires Scalar.IsSqrt(sqrt) && q.w < 1.0 && AdjustEpsilon * AdjustEpsilon <= Dot3(q, q)
    ensures exists k: real :: 0.0 <= k && SetW0(AdjustXYZ(sqrt, q)) == MulScalar(SetW0(q), k)
  {
    SquaresNonNegative(q);
    Scalar.RootBelow(sqrt, Dot3(q, q), AdjustEpsilon);
    var scl, len := Len3(sqrt, q), Scalar.SqrtClamp(sqrt, 1.0 - q.w * q.w);
    AdjustVectorScaled(q, scl, len);
    NonNegativeQuotient(len, scl);
  }

  lemma NonNegativeQuotient(a: real, b: real)
    requires 0.0 <= a && 0.0 < b
    ensures 0.0 <= a / b
  {
  }

  lemma RescaledUnit(q: Quaternion, scl: real, len: real, k: real)
    requires 0.0 < scl && scl * scl == Dot3(q, q) && 0.0 <= len && k == len / scl
    requires -1.0 <= q.w < 1.0 ==> len * len == 1.0 - q.w * q.w
    ensures 0.0 <= k
    ensures -1.0 <= q.w < 1.0 ==> Dot4(SetW(MulScalar(q, k), q.w), SetW(MulScalar(q, k), q.w)) == 1.0
  {
    var u := 1.0 / scl;
    assert k == len * u;
    assert u * scl == 1.0;
    var r := SetW(MulScalar(q, k), q.w);
    assert Dot4(r, r) == k * k * Dot3(q, q) + q.w * q.w;
    assert k * k * Dot3(q, q) == (len * len) * ((u * scl) * (u * scl));
  }

  // ---------------------------------------------------------------- construction

  /** `fromAxisSinCos(ax, s, c)`: the half-angle sine times the axis with the
      half-angle cosine as w, conjugated when the sine `s` is negative. */
  function FromAxisSinCos(sqrt: real -> real, ax: Float4, s: real, c: real): (r: Quaternion)
    requires Scalar.IsSqrt(sqrt)
    ensures r.w == Vec4.SinCosHalf(sqrt, c).w
    ensures 0.0 <= r.w
  {
    FromAxisHalf(ax, s, Vec4.SinCosHalf(sqrt, c))
  }

  /** The body of `fromAxisSinCos` once the half-angle pair `hs` (sine in x,
      cosine in w) is known. */
  function FromAxisHalf(ax: Float4, s: real, hs: Float4): Quaternion {
    var qt := Mul(SetW1(ax), hs);
    if s < 0.0 then Conjugate(qt) else qt
  }

  /** The vector part is the axis scaled by the half-angle sine, negated when
      `s < 0`; the real part is the half-angle cosine. */
  lemma FromAxisHalfParts(ax: Float4, s: real, hs: Float4)
    requires hs.x == hs.y == hs.z
    ensures var k := if s < 0.0 then -hs.x else hs.x;
            FromAxisHalf(ax, s, hs) == Float4(ax.x * k, ax.y * k, ax.z * k, hs.w)
  {
  }

  /** The vector part points along the axis. */
  lemma FromAxisSinCosAlongAxis(sqrt: real -> real, ax: Float4, s: real, c: real)
    requires Scalar.IsSqrt(sqrt)
    ensures var h := Vec4.SinCosHalf(sqrt, c).x;
            SetW0(FromAxisSinCos(sqrt, ax, s, c)) == MulScalar(SetW0(ax), if s < 0.0 then -h else h)
  {
    FromAxisHalfParts(ax, s, Vec4.SinCosHalf(sqrt, c));
  }

  /** About a unit axis the result is a unit quaternion. */
  lemma FromAxisSinCosUnit(sqrt: real -> real, ax: Float4, s: real, c: real)
    requires Scalar.IsSqrt(sqrt) && Dot3(ax, ax) == 1.0
    ensures Dot4(FromAxisSinCos(sqrt, ax, s, c), FromAxisSinCos(sqrt, ax, s, c)) == 1.0
  {
    var hs := Vec4.SinCosHalf(sqrt, c);
    FromAxisHalfUnit(ax, s, hs);
  }

  lemma FromAxisHalfUnit(ax: Float4, s: real, hs: Float4)
    requires Dot3(ax, ax) == 1.0 && hs.x == hs.y == hs.z && hs.x * hs.x + hs.w * hs.w == 1.0
    ensures Dot4(FromAxisHalf(ax, s, hs), FromAxisHalf(ax, s, hs)) == 1.0
  {
    var k := if s < 0.0 then -hs.x else hs.x;
    FromAxisHalfParts(ax, s, hs);
    UnitFromParts(ax, k, hs.w);
  }

  /** About a unit axis, w^2 - |xyz|^2 is the clamped cosine `c`: the result
      rotates by the angle whose cosine is `c`. */
  lemma FromAxisSinCosAngle(sqrt: real -> real, ax: Float4, s: real, c: real)
    requires Scalar.IsSqrt(sqrt) && Dot3(ax, ax) == 1.0
    ensures var r := FromAxisSinCos(sqrt, ax, s, c);
            r.w * r.w - Dot3(r, r) == Scalar.Clamp(c, -1.0, 1.0)
  {
    var hs := Vec4.SinCosHalf(sqrt, c);
    FromAxisHalfAngle(ax, s, hs);
  }

  lemma FromAxisHalfAngle(ax: Float4, s: real, hs: Float4)
    requires Dot3(ax, ax) == 1.0 && hs.x == hs.y == hs.z
    ensures var r := FromAxisHalf(ax, s, hs); r.w * r.w - Dot3(r, r) == hs.w * hs.w - hs.x * hs.x
  {
    var k := if s < 0.0 then -hs.x else hs.x;
    FromAxisHalfParts(ax, s, hs);
    AngleFromParts(ax, k, hs.w);
  }

  /** A unit axis scaled by `k`, with real part `w`, has squared norm k^2 + w^2. */
  lemma UnitFromParts(ax: Float4, k: real, w: real)
    requires Dot3(ax, ax) == 1.0 && k * k + w * w == 1.0
    ensures var r := Float4(ax.x * k, ax.y * k, ax.z * k, w); Dot4(r, r) == 1.0
  {
    ScaledAxisLength(ax, k, w);
  }

  /** A unit axis scaled by `k`, with real part `w`, has w^2 - |xyz|^2 = w^2 - k^2. */
  lemma AngleFromParts(ax: Float4, k: real, w: real)
    requires Dot3(ax, ax) == 1.0
    ensures var r := Float4(ax.x * k, ax.y * k, ax.z * k, w); r.w * r.w - Dot3(r, r) == w * w - k * k
  {
    ScaledAxisLength(ax, k, w);
  }

  /** Scaling the vector part scales its squared length by the square. */
  lemma ScaledAxisLength(ax: Float4, h: real, w: real)
    ensures var v := Float4(ax.x * h, ax.y * h, ax.z * h, w);
            Dot3(v, v) == h * h * Dot3(ax, ax)
  {
  }

  /** A rotation about one coordinate axis from its half-angle sine and cosine. */
  function AboutX(sn: real, cs: real): Quaternion { Float4(sn, 0.0, 0.0, cs) }
  function AboutY(sn: real, cs: real): Quaternion { Float4(0.0, sn, 0.0, cs) }
  function AboutZ(sn: real, cs: real): Quaternion { Float4(0.0, 0.0, sn, cs) }

  /** The rotation orders of `fromEuler`; every other code means `xyz`. */
  const OrderYZX: int := 1
  const OrderZXY: int := 2
  const OrderXZY: int := 3
  const OrderYXZ: int := 4
  const OrderZYX: int := 5

  /** `fromEuler(order, angles)` with the half-angle sines `sn` and cosines `cs`
      of the three angles as inputs; each branch is the expanded product of the
      three single-axis rotations in the order that its code names. */
  function FromEuler(order: int, sn: (real, real, real), cs: (real, real, real)): Quaternion
  {
    if order == 1 || order == 2 then
      var x := sn.0 * cs.2;
      var y := -sn.0 * sn.2;
      var z := cs.0 * sn.2;
      var w := cs.0 * cs.2;
      if order == 1 then
        SetXYZW(x * cs.1 - z * sn.1, y * cs.1 + w * sn.1, z * cs.1 + x * sn.1, w * cs.1 - y * sn.1)
      else
        SetXYZW(cs.1 * x + sn.1 * z, sn.1 * w + cs.1 * y, -sn.1 * x + cs.1 * z, cs.1 * w - sn.1 * y)
    else if order == 3 || order == 4 then
      var x := cs.2 * sn.0;
      var y := sn.2 * sn.0;
      var z := sn.2 * cs.0;
      var w := cs.2 * cs.0;
      if order == 3 then
        SetXYZW(cs.1 * x + sn.1 * z, sn.1 * w + cs.1 * y, -sn.1 * x + cs.1 * z, cs.1 * w - sn.1 * y)
      else
        SetXYZW(x * cs.1 - z * sn.1, y * cs.1 + w * sn.1, z * cs.1 + x * sn.1, w * cs.1 - y * sn.1)
    else if order == 5 then
      var x := sn.0 * cs.1;
      var y := cs.0 * sn.1;
      var z := sn.0 * sn.1;
      var w := cs.0 * cs.1;
      SetXYZW(x * cs.2 + y * sn.2, y * cs.2 - x * sn.2, z * cs.2 + w * sn.2, w * cs.2 - z * sn.2)
    else
      var x := cs.1 * sn.0;
      var y := sn.1 * cs.0;
      var z := -sn.1 * sn.0;
      var w := cs.1 * cs.0;
      SetXYZW(cs.2 * x - sn.2 * y, cs.2 * y + sn.2 * x, cs.2 * z + sn.2 * w, cs.2 * w - sn.2 * z)
  }

  /** Order yzx: x first, then z, then y. */
  lemma FromEulerYZX(sn: (real, real, real), cs: (real, real, real))
    ensures var qx, qy, qz := AboutX(sn.0, cs.0), AboutY(sn.1, cs.1), AboutZ(sn.2, cs.2);
            FromEuler(OrderYZX, sn, cs) == Hamilton(Hamilton(qx, qz), qy)
  {
  }

  /** Order zxy: the product qy (qx qz). */
  lemma FromEulerZXY(sn: (real, real, real), cs: (real, real, real))
    ensures var qx, qy, qz := AboutX(sn.0, cs.0), AboutY(sn.1, cs.1), AboutZ(sn.2, cs.2);
            FromEuler(OrderZXY, sn, cs) == Hamilton(qy, Hamilton(qx, qz))
  {
  }

  /** Order xzy: the product qy (qz qx). */
  lemma FromEulerXZY(sn: (real, real, real), cs: (real, real, real))
    ensures var qx, qy, qz := AboutX(sn.0, cs.0), AboutY(sn.1, cs.1), AboutZ(sn.2, cs.2);
            FromEuler(OrderXZY, sn, cs) == Hamilton(qy, Hamilton(qz, qx))
  {
  }

  /** Order yxz: the product (qz qx) qy. */
  lemma FromEulerYXZ(sn: (real, real, real), cs: (real, real, real))
    ensures var qx, qy, qz := AboutX(sn.0, cs.0), AboutY(sn.1, cs.1), AboutZ(sn.2, cs.2);
            FromEuler(OrderYXZ, sn, cs) == Hamilton(Hamilton(qz, qx), qy)
  {
  }

  /** Order zyx: the product (qx qy) qz. */
  lemma FromEulerZYX(sn: (real, real, real), cs: (real, real, real))
    ensures var qx, qy, qz := AboutX(sn.0, cs.0), AboutY(sn.1, cs.1), AboutZ(sn.2, cs.2);
            FromEuler(OrderZYX, sn, cs) == Hamilton(Hamilton(qx, qy), qz)
  {
  }

  /** Order xyz, which is also what every other code gets: the product qz (qy qx). */
  lemma FromEulerXYZ(order: int, sn: (real, real, real), cs: (real, real, real))
    requires !(1 <= order <= 5)
    ensures var qx, qy, qz := AboutX(sn.0, cs.0), AboutY(sn.1, cs.1), AboutZ(sn.2, cs.2);
            FromEuler(order, sn, cs) == Hamilton(qz, Hamilton(qy, qx))
  {
  }

  /** With unit half-angle pairs every order gives a unit quaternion. */
  lemma FromEulerUnit(order: int, sn: (real, real, real), cs: (real, real, real))
    requires sn.0 * sn.0 + cs.0 * cs.0 == 1.0 && sn.1 * sn.1 + cs.1 * cs.1 == 1.0 && sn.2 * sn.2 + cs.2 * cs.2 == 1.0
    ensures Dot4(FromEuler(order, sn, cs), FromEuler(order, sn, cs)) == 1.0
  {
    var qx, qy, qz := AboutX(sn.0, cs.0), AboutY(sn.1, cs.1), AboutZ(sn.2, cs.2);
    assert Dot4(qx, qx) == 1.0 && Dot4(qy, qy) == 1.0 && Dot4(qz, qz) == 1.0;
    if order == OrderYZX {
      FromEulerYZX(sn, cs);
      UnitProduct(qx, qz);
      UnitProduct(Hamilton(qx, qz), qy);
    } else if order == OrderZXY {
      FromEulerZXY(sn, cs);
      UnitProduct(qx, qz);
      UnitProduct(qy, Hamilton(qx, qz));
    } else if order == OrderXZY {
      FromEulerXZY(sn, cs);
      UnitProduct(qz, qx);
      UnitProduct(qy, Hamilton(qz, qx));
    } else if order == OrderYXZ {
      FromEulerYXZ(sn, cs);
      UnitProduct(qz, qx);
      UnitProduct(Hamilton(qz, qx), qy);
    } else if order == OrderZYX {
      FromEulerZYX(sn, cs);
      UnitProduct(qx, qy);
      UnitProduct(Hamilton(qx, qy), qz);
    } else {
      FromEulerXYZ(order, sn, cs);
      UnitProduct(qy, qx);
      UnitProduct(qz, Hamilton(qy, qx));
    }
  }

  /** Zero angles give the identity in every order. */
  lemma FromEulerZero(order: int)
    ensures FromEuler(order, (0.0, 0.0, 0.0), (1.0, 1.0, 1.0)) == Identity()
  {
  }

  /** The product of two unit quaternions is a unit quaternion. */
  lemma UnitProduct(a: Quaternion, b: Quaternion)
    requires Dot4(a, a) == 1.0 && Dot4(b, b) == 1.0
    ensures Dot4(Hamilton(a, b), Hamilton(a, b)) == 1.0
  {
    HamiltonNormMultiplicative(a, b);
  }

  // ---------------------------------------------------------------- two-bone IK

  /** The result of `from2BoneIK`: the upper and lower rotations and the regime
      flag (1: out of reach, -1: too close, 0: solved). */
  datatype BoneIK = BoneIK(upper: Quaternion, lower: Quaternion, flag: int)

  /** `from2BoneIK(ax, upper, lower, dist)`: the regime is decided from the
      triangle inequality on the two bone lengths and the target distance; in
      the solved regime the bone angles come from the law of cosines. */
  function From2BoneIK(sqrt: real -> real, ax: Float4, upper: real, lower: real, dist: real): (r: BoneIK)
    requires Scalar.IsSqrt(sqrt)
    ensures r.flag == 1 <==> dist >= upper + lower
    ensures r.flag == -1 <==> dist < upper + lower && dist <= Scalar.Abs(upper - lower)
    ensures r.flag == 0 <==> Scalar.Abs(upper - lower) < dist < upper + lower
    ensures r.flag == 1 ==> r.upper == Identity() && r.lower == Identity()
    ensures r.flag == -1 ==> r.lower == SetW0(Neg(ax)) && r.upper == (if upper > lower then Identity() else SetW0(ax))
  {
    if dist >= upper + lower then
      BoneIK(Vec4.AxisW(), Vec4.AxisW(), 1)
    else if dist <= Scalar.Abs(upper - lower) then
      var qtUp := if upper > lower then Vec4.AxisW() else SetW0(ax);
      BoneIK(qtUp, SetW0(Neg(ax)), -1)
    else
      assert 2.0 * dist * upper != 0.0 && 2.0 * upper * lower != 0.0 by {
        SolvedRegimePositive(upper, lower, dist);
      }
      BoneIK(FromAxisSinCos(sqrt, ax, 0.1, UpperCosine(upper, lower, dist)),
             FromAxisSinCos(sqrt, Neg(ax), 0.1, LowerCosine(upper, lower, dist)), 0)
  }

  /** The law-of-cosines ratio for the upper bone's angle. */
  function UpperCosine(upper: real, lower: real, dist: real): real
    requires 2.0 * dist * upper != 0.0
  {
    (dist * dist + upper * upper - lower * lower) / (2.0 * dist * upper)
  }

  /** The law-of-cosines ratio for the lower bone's angle. */
  function LowerCosine(upper: real, lower: real, dist: real): real
    requires 2.0 * upper * lower != 0.0
  {
    (dist * dist - upper * upper - lower * lower) / (2.0 * upper * lower)
  }

  /** In the solved regime, about a unit axis, both rotations are unit quaternions. */
  lemma From2BoneIKSolvedUnit(sqrt: real -> real, ax: Float4, upper: real, lower: real, dist: real)
    requires Scalar.IsSqrt(sqrt) && Dot3(ax, ax) == 1.0
    requires Scalar.Abs(upper - lower) < dist < upper + lower
    ensures var r := From2BoneIK(sqrt, ax, upper, lower, dist);
            Dot4(r.upper, r.upper) == 1.0 && Dot4(r.lower, r.lower) == 1.0
  {
    SolvedRotations(sqrt, ax, upper, lower, dist);
    var uc, lc := UpperCosine(upper, lower, dist), LowerCosine(upper, lower, dist);
    assert Dot4(FromAxisSinCos(sqrt, ax, 0.1, uc), FromAxisSinCos(sqrt, ax, 0.1, uc)) == 1.0 by {
      FromAxisSinCosUnit(sqrt, ax, 0.1, uc);
    }
    assert Dot4(FromAxisSinCos(sqrt, Neg(ax), 0.1, lc), FromAxisSinCos(sqrt, Neg(ax), 0.1, lc)) == 1.0 by {
      assert Dot3(Neg(ax), Neg(ax)) == Dot3(ax, ax);
      FromAxisSinCosUnit(sqrt, Neg(ax), 0.1, lc);
    }
  }

  /** The solved branch applies `fromAxisSinCos` about the axis and about its
      opposite, with the law-of-cosines ratios at the upper and lower joints as
      the cosines. Strictly inside the triangle inequality both ratios lie in
      (-1, 1) (`CosinesInRange`), so the clamp in `sinCosHalf` does nothing
      and, about a unit axis, each rotation turns by exactly the angle whose
      cosine is its ratio. */
  lemma SolvedBranch(sqrt: real -> real, ax: Float4, upper: real, lower: real, dist: real)
    requires Scalar.IsSqrt(sqrt) && Scalar.Abs(upper - lower) < dist < upper + lower
    ensures 2.0 * dist * upper != 0.0 && 2.0 * upper * lower != 0.0
    ensures var r := From2BoneIK(sqrt, ax, upper, lower, dist);
            && r.upper == FromAxisSinCos(sqrt, ax, 0.1, UpperCosine(upper, lower, dist))
            && r.lower == FromAxisSinCos(sqrt, Neg(ax), 0.1, LowerCosine(upper, lower, dist))
    ensures Dot3(ax, ax) == 1.0 ==>
              && TurnCosine(From2BoneIK(sqrt, ax, upper, lower, dist).upper) == UpperCosine(upper, lower, dist)
              && TurnCosine(From2BoneIK(sqrt, ax, upper, lower, dist).lower) == LowerCosine(upper, lower, dist)
  {
    SolvedRotations(sqrt, ax, upper, lower, dist);
    if Dot3(ax, ax) == 1.0 {
      SolvedAngles(sqrt, ax, upper, lower, dist, From2BoneIK(sqrt, ax, upper, lower, dist));
    }
  }

  /** About a unit axis, the two rotations of the solved branch turn by the
      angles whose cosines are the law-of-cosines ratios. */
  lemma SolvedAngles(sqrt: real -> real, ax: Float4, upper: real, lower: real, dist: real, r: BoneIK)
    requires Scalar.IsSqrt(sqrt) && Scalar.Abs(upper - lower) < dist < upper + lower
    requires Dot3(ax, ax) == 1.0 && r == From2BoneIK(sqrt, ax, upper, lower, dist)
    ensures 2.0 * dist * upper != 0.0 && 2.0 * upper * lower != 0.0
    ensures TurnCosine(r.upper) == UpperCosine(upper, lower, dist)
    ensures TurnCosine(r.lower) == LowerCosine(upper, lower, dist)
  {
    CosinesInRange(upper, lower, dist);
    SolvedRotations(sqrt, ax, upper, lower, dist);
    RotationAngle(sqrt, ax, UpperCosine(upper, lower, dist), r.upper);
    NegatedAxisUnit(ax);
    RotationAngle(sqrt, Neg(ax), LowerCosine(upper, lower, dist), r.lower);
  }

  /** The opposite of a unit axis is a unit axis. */
  lemma NegatedAxisUnit(ax: Float4)
    requires Dot3(ax, ax) == 1.0
    ensures Dot3(Neg(ax), Neg(ax)) == 1.0
  {
  }

  /** The cosine of the angle a unit quaternion turns a vector by: with
      w = cos(t/2) and |xyz| = sin(t/2), w^2 - |xyz|^2 is cos t. */
  function TurnCosine(q: Quaternion): real {
    q.w * q.w - Dot3(q, q)
  }

  /** About a unit axis, a cosine strictly inside (-1, 1) is the exact cosine
      of the rotation `fromAxisSinCos` builds. */
  lemma RotationAngle(sqrt: real -> real, ax: Float4, c: real, r: Quaternion)
    requires Scalar.IsSqrt(sqrt) && Dot3(ax, ax) == 1.0 && -1.0 < c < 1.0
    requires r == FromAxisSinCos(sqrt, ax, 0.1, c)
    ensures TurnCosine(r) == c
  {
    FromAxisSinCosAngle(sqrt, ax, 0.1, c);
  }

  /** The two `fromAxisSinCos` calls of the solved branch. */
  lemma SolvedRotations(sqrt: real -> real, ax: Float4, upper: real, lower: real, dist: real)
    requires Scalar.IsSqrt(sqrt) && Scalar.Abs(upper - lower) < dist < upper + lower
    ensures 2.0 * dist * upper != 0.0 && 2.0 * upper * lower != 0.0
    ensures var r := From2BoneIK(sqrt, ax, upper, lower, dist);
            && r.upper == FromAxisSinCos(sqrt, ax, 0.1, UpperCosine(upper, lower, dist))
            && r.lower == FromAxisSinCos(sqrt, Neg(ax), 0.1, LowerCosine(upper, lower, dist))
  {
    SolvedRegimePositive(upper, lower, dist);
  }

  /** Strictly inside the triangle inequality both law-of-cosines ratios lie
      strictly between -1 and 1. */
  lemma CosinesInRange(upper: real, lower: real, dist: real)
    requires Scalar.Abs(upper - lower) < dist < upper + lower
    ensures 2.0 * dist * upper != 0.0 && 2.0 * upper * lower != 0.0
    ensures -1.0 < UpperCosine(upper, lower, dist) < 1.0
    ensures -1.0 < LowerCosine(upper, lower, dist) < 1.0
  {
    SolvedRegimePositive(upper, lower, dist);
    UpperCosineInRange(upper, lower, dist);
    LowerCosineInRange(upper, lower, dist);
  }

  /** The upper ratio: |dist - upper| < lower < dist + upper. */
  lemma UpperCosineInRange(upper: real, lower: real, dist: real)
    requires 0.0 < upper && 0.0 < lower && 0.0 < dist
    requires Scalar.Abs(upper - lower) < dist < upper + lower
    ensures 2.0 * dist * upper != 0.0
    ensures -1.0 < UpperCosine(upper, lower, dist) < 1.0
  {
    Scalar.PositiveProduct(2.0 * dist, upper);
    SquareBelow(dist - upper, lower);
    SquareBelow(lower, dist + upper);
    RatioInUnit(dist * dist + upper * upper - lower * lower, 2.0 * dist * upper);
  }

  /** The lower ratio: |upper - lower| < dist < upper + lower. */
  lemma LowerCosineInRange(upper: real, lower: real, dist: real)
    requires 0.0 < upper && 0.0 < lower && 0.0 < dist
    requires Scalar.Abs(upper - lower) < dist < upper + lower
    ensures 2.0 * upper * lower != 0.0
    ensures -1.0 < LowerCosine(upper, lower, dist) < 1.0
  {
    Scalar.PositiveProduct(2.0 * upper, lower);
    SquareBelow(upper - lower, dist);
    SquareBelow(dist, upper + lower);
    RatioInUnit(dist * dist - upper * upper - lower * lower, 2.0 * upper * lower);
  }

  /** A square is below the square of a larger magnitude. */
  lemma SquareBelow(a: real, b: real)
    requires -b < a < b
    ensures a * a < b * b
  {
    assert b * b - a * a == (b - a) * (b + a);
    Scalar.PositiveProductIs(b - a, b + a, b * b - a * a);
  }

  /** A numerator strictly inside (-den, den) gives a ratio strictly inside (-1, 1). */
  lemma RatioInUnit(num: real, den: real)
    requires 0.0 < den && -den < num < den
    ensures -1.0 < num / den < 1.0
  {
  }

  /** In the solved regime both bones and the distance are positive, so the
      law-of-cosines divisions are defined. */
  lemma SolvedRegimePositive(upper: real, lower: real, dist: real)
    requires Scalar.Abs(upper - lower) < dist < upper + lower
    ensures 0.0 < upper && 0.0 < lower && 0.0 < dist
    ensures 2.0 * dist * upper != 0.0 && 2.0 * upper * lower != 0.0
  {
    Scalar.PositiveProduct(2.0 * dist, upper);
    Scalar.PositiveProduct(2.0 * upper, lower);
  }
}

/** Scalar helpers of the transform library: clamping, the fail-soft square roots,
    the half-angle sine/cosine pair and the 2D axis alignment.

    The host language's square root is not definable over Dafny's reals, so every
    operation that needs one receives it as a parameter `sqrt`; the contracts hold
    for any `sqrt` satisfying `IsSqrt`, i.e. for the true square root. */
module Scalar {

  /** `sqrt` returns the non-negative square root of every non-negative real
      (the root of zero, implied by the rest, is spelled out for the solver). */
  ghost predicate IsSqrt(sqrt: real -> real) {
    && sqrt(0.0) == 0.0
    && forall x: real :: 0.0 <= x ==> 0.0 <= sqrt(x) && sqrt(x) * sqrt(x) == x
  }

  /** The square root of a non-negative number. */
  function Root(sqrt: real -> real, x: real): (r: real)
    requires IsSqrt(sqrt) && 0.0 <= x
    ensures 0.0 <= r && r * r == x
  {
    sqrt(x)
  }

  /** A non-negative root is unique. */
  lemma RootUnique(a: real, b: real)
    requires 0.0 <= a && 0.0 <= b && a * a == b * b
    ensures a == b
  {
    if a + b == 0.0 {
      assert a == 0.0 && b == 0.0;
    } else {
      assert (a - b) * (a + b) == 0.0;
      assert a - b == ((a - b) * (a + b)) / (a + b);
    }
  }

  /** The root of a square is the absolute value. */
  lemma RootOfSquare(sqrt: real -> real, a: real)
    requires IsSqrt(sqrt)
    ensures sqrt(a * a) == Abs(a)
  {
    assert 0.0 <= a * a;
    RootUnique(sqrt(a * a), Abs(a));
  }

  /** Squaring is strictly monotone on the non-negative reals. */
  lemma SquareLess(r: real, t: real)
    requires 0.0 <= r < t
    ensures r * r < t * t
  {
    assert (t - r) * (t + r) == t * t - r * r;
    PositiveProduct(t - r, t + r);
  }

  /** The square of a number in [-1, 1] is at most one. */
  lemma UnitComplement(w: real)
    requires -1.0 <= w <= 1.0
    ensures 0.0 <= 1.0 - w * w
  {
    assert (1.0 - w) * (1.0 + w) == 1.0 - w * w;
    if -1.0 < w < 1.0 {
      PositiveProduct(1.0 - w, 1.0 + w);
    } else if w == 1.0 {
      assert 1.0 - w == 0.0;
    } else {
      assert 1.0 + w == 0.0;
    }
  }

  lemma PositiveProduct(a: real, b: real)
    requires 0.0 < a && 0.0 < b
    ensures 0.0 < a * b
  {
  }

  lemma NonzeroProduct(a: real, b: real)
    requires a != 0.0 && b != 0.0
    ensures a * b != 0.0
  {
  }

  /** `PositiveProduct` stated on a name `t` for the product. */
  lemma PositiveProductIs(a: real, b: real, t: real)
    requires 0.0 < a && 0.0 < b && t == a * b
    ensures 0.0 < t
  {
  }

  /** The square `t` of a nonzero number is positive. */
  lemma SquarePositive(a: real, t: real)
    requires a != 0.0 && t == a * a
    ensures 0.0 < t
  {
    if 0.0 < a {
      PositiveProductIs(a, a, t);
    } else {
      PositiveProductIs(-a, -a, t);
    }
  }

  /** The clamped root of a square of a positive number is that number. */
  lemma SqrtClampOfSquare(sqrt: real -> real, v: real, a: real)
    requires IsSqrt(sqrt) && 0.0 < a && v == a * a
    ensures SqrtClamp(sqrt, v) == a
  {
    PositiveProduct(a, a);
    RootUnique(SqrtClamp(sqrt, v), a);
  }

  /** Roots are monotone: a strict threshold on a root is one on its square. */
  lemma RootBelow(sqrt: real -> real, x: real, t: real)
    requires IsSqrt(sqrt) && 0.0 <= x && 0.0 < t
    ensures sqrt(x) < t <==> x < t * t
  {
    var r := sqrt(x);
    assert 0.0 <= r && r * r == x;
    if r < t {
      SquareLess(r, t);
    } else if t < r {
      SquareLess(t, r);
    }
  }

  /** Non-strict form of `RootBelow`. */
  lemma RootBelowOrEqual(sqrt: real -> real, x: real, t: real)
    requires IsSqrt(sqrt) && 0.0 <= x && 0.0 < t
    ensures sqrt(x) <= t <==> x <= t * t
  {
    var r := sqrt(x);
    assert 0.0 <= r && r * r == x;
    if r < t {
      SquareLess(r, t);
    } else if t < r {
      SquareLess(t, r);
    }
  }

  function Abs(a: real): real {
    if a < 0.0 then -a else a
  }

  /** The host `max(a, b)`: the first argument unless the second is strictly larger. */
  function Max(a: real, b: real): real {
    if b > a then b else a
  }

  /** The host `min(a, b)`: the first argument unless the second is strictly smaller. */
  function Min(a: real, b: real): real {
    if b < a then b else a
  }

  /** `clamp(v, lo, hi)` is `min(max(v, lo), hi)`. */
  function Clamp(v: real, lo: real, hi: real): (r: real)
    ensures lo <= hi ==> lo <= r <= hi
    ensures lo <= v <= hi ==> r == v
    ensures v < lo <= hi ==> r == lo
    ensures hi < v ==> r == hi
    ensures hi < lo ==> r == hi
  {
    Min(Max(v, lo), hi)
  }

  /** Square root that reads a negative argument as zero instead of failing. */
  function SqrtClamp(sqrt: real -> real, v: real): (r: real)
    requires IsSqrt(sqrt)
    ensures 0.0 <= r
    ensures v <= 0.0 ==> r == 0.0
    ensures 0.0 < v ==> r * r == v && 0.0 < r
    ensures 0.0 <= v ==> r * r == v
  {
    var r := sqrt(Max(v, 0.0));
    assert r * r == Max(v, 0.0);
    r
  }

  /** Reciprocal square root; the host raises a division error when `v <= 0`
      (the clamped root is then zero), so that is the caller's obligation. */
  function RsqrtClamp(sqrt: real -> real, v: real): (r: real)
    requires IsSqrt(sqrt) && 0.0 < v
    ensures 0.0 < r && r * r * v == 1.0
  {
    var s := SqrtClamp(sqrt, v);
    assert s * s == v;
    var r := 1.0 / s;
    assert r * s == 1.0;
    assert r * r * v == (r * s) * (r * s);
    r
  }

  /** From the cosine of an angle, the sine and cosine of its half:
      the cosine is clamped to [-1, 1] first. */
  function SinCosHalf(sqrt: real -> real, c: real): (r: (real, real))
    requires IsSqrt(sqrt)
    ensures 0.0 <= r.0 && 0.0 <= r.1
    ensures r.0 * r.0 + r.1 * r.1 == 1.0
    ensures r.1 * r.1 - r.0 * r.0 == Clamp(c, -1.0, 1.0)
  {
    var cs := Clamp(c, -1.0, 1.0);
    var hSn := SqrtClamp(sqrt, 0.5 - 0.5 * cs);
    var hCs := SqrtClamp(sqrt, 0.5 * cs + 0.5);
    (hSn, hCs)
  }

  /** The cosine threshold inside `AlignAxis`: below it the direction is undefined. */
  const AlignEpsilon: real := 0.0000000001

  /** `alignAxis([u, v])` gives `(sin, cos, len)` of the rotation taking the planar
      vector (u, v) onto the positive first axis; `len` is its length. A vector
      shorter than 1e-10 gets the zero rotation (0, 1). */
  function AlignAxis(sqrt: real -> real, u: real, v: real): (r: (real, real, real))
    requires IsSqrt(sqrt)
    ensures 0.0 <= r.2 && r.2 * r.2 == u * u + v * v
    ensures r.2 <= AlignEpsilon <==> u * u + v * v <= AlignEpsilon * AlignEpsilon
    ensures r.2 <= AlignEpsilon ==> r.0 == 0.0 && r.1 == 1.0
    ensures AlignEpsilon < r.2 ==>
              && r.0 * r.0 + r.1 * r.1 == 1.0
              && r.1 * u + r.0 * v == r.2
              && r.1 * v - r.0 * u == 0.0
              && r.0 * r.2 == v && r.1 * r.2 == u
  {
    var uvLen := SqrtClamp(sqrt, u * u + v * v);
    RootBelowOrEqual(sqrt, u * u + v * v, AlignEpsilon);
    if uvLen > AlignEpsilon then
      var scl := 1.0 / uvLen;
      UnitDirection(u, v, uvLen);
      (v * scl, u * scl, uvLen)
    else
      (0.0, 1.0, uvLen)
  }

  /** Multiplying and dividing by the same nonzero number cancel. */
  lemma DivCancels(a: real, b: real)
    requires b != 0.0
    ensures a * b / b == a && a / b * b == a
  {
  }

  /** Dividing a planar vector by its (positive) length gives a unit direction
      that rotates the vector onto the first axis. */
  lemma UnitDirection(u: real, v: real, len: real)
    requires 0.0 < len && len * len == u * u + v * v
    ensures var sn, cs := v * (1.0 / len), u * (1.0 / len);
            && sn * sn + cs * cs == 1.0
            && cs * u + sn * v == len
            && cs * v - sn * u == 0.0
            && sn * len == v && cs * len == u
  {
    var scl := 1.0 / len;
    assert len * scl == 1.0;
    assert (v * scl) * len == v * (len * scl);
    assert (u * scl) * len == u * (len * scl);
    calc {
      (u * scl) * u + (v * scl) * v;
      (u * u + v * v) * scl;
      (len * len) * scl;
      len * (len * scl);
      len;
    }
    calc {
      (v * scl) * (v * scl) + (u * scl) * (u * scl);
      (u * u + v * v) * (scl * scl);
      (len * scl) * (len * scl);
      1.0;
    }
  }
}

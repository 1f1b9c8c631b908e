/** Four-lane vectors (x, y, z, w) and their lane algebra: lane-wise arithmetic,
    fused multiply-add variants, horizontal operations, dot and cross products,
    normalisation with a fallback, swizzles, shuffles and the axis alignments.

    A host list of three numbers (a shear or a scale) is read with a zero w lane,
    which is what the host's `getW` returns for a short list. */
module Vec4 {
  import Scalar

  datatype Float4 = Float4(x: real, y: real, z: real, w: real)

  /** A lane mask, as produced by the comparisons. */
  datatype Bool4 = Bool4(x: bool, y: bool, z: bool, w: bool)

  datatype Lane = X | Y | Z | W

  function Get(v: Float4, l: Lane): real {
    match l
    case X => v.x
    case Y => v.y
    case Z => v.z
    case W => v.w
  }

  function Test(m: Bool4, l: Lane): bool {
    match l
    case X => m.x
    case Y => m.y
    case Z => m.z
    case W => m.w
  }

  /** How many lanes of `v` hold `e`; two vectors with equal counts for every
      value are permutations of each other. */
  function Occurrences(v: Float4, e: real): nat {
    (if v.x == e then 1 else 0) + (if v.y == e then 1 else 0)
    + (if v.z == e then 1 else 0) + (if v.w == e then 1 else 0)
  }

  // ---------------------------------------------------------------- constants

  function Zero(): Float4 { Float4(0.0, 0.0, 0.0, 0.0) }
  function One(): Float4 { Float4(1.0, 1.0, 1.0, 1.0) }
  function AxisX(): Float4 { Float4(1.0, 0.0, 0.0, 0.0) }
  function AxisXW(): Float4 { Float4(1.0, 0.0, 0.0, 1.0) }
  function AxisY(): Float4 { Float4(0.0, 1.0, 0.0, 0.0) }
  function AxisYW(): Float4 { Float4(0.0, 1.0, 0.0, 1.0) }
  function AxisZ(): Float4 { Float4(0.0, 0.0, 1.0, 0.0) }
  function AxisZW(): Float4 { Float4(0.0, 0.0, 1.0, 1.0) }
  function AxisW(): Float4 { Float4(0.0, 0.0, 0.0, 1.0) }
  function AxisXYZ(): Float4 { Float4(1.0, 1.0, 1.0, 0.0) }

  function Splat(a: real): Float4 { Float4(a, a, a, a) }
  function ReplicateX(v: Float4): Float4 { Splat(v.x) }
  function ReplicateY(v: Float4): Float4 { Splat(v.y) }
  function ReplicateZ(v: Float4): Float4 { Splat(v.z) }
  function ReplicateW(v: Float4): Float4 { Splat(v.w) }

  // ---------------------------------------------------------------- lane access

  function SetX(v: Float4, a: real): Float4 { v.(x := a) }
  function SetY(v: Float4, a: real): Float4 { v.(y := a) }
  function SetZ(v: Float4, a: real): Float4 { v.(z := a) }
  function SetW(v: Float4, a: real): Float4 { v.(w := a) }
  function SetW0(v: Float4): Float4 { SetW(v, 0.0) }
  function SetW1(v: Float4): Float4 { SetW(v, 1.0) }
  function SetXYZW(x: real, y: real, z: real, w: real): Float4 { Float4(x, y, z, w) }
  function SetXYZ(x: real, y: real, z: real): Float4 { Float4(x, y, z, 0.0) }

  /** `copyW(a, b)`: the x, y, z lanes of `a` with the w lane of `b`. */
  function CopyW(a: Float4, b: Float4): Float4 { Float4(a.x, a.y, a.z, b.w) }

  /** The four setters and `copyW` each replace exactly one lane. */
  lemma SettersReplaceOneLane(v: Float4, b: Float4, a: real, l: Lane)
    ensures Get(SetX(v, a), l) == if l == X then a else Get(v, l)
    ensures Get(SetY(v, a), l) == if l == Y then a else Get(v, l)
    ensures Get(SetZ(v, a), l) == if l == Z then a else Get(v, l)
    ensures Get(SetW(v, a), l) == if l == W then a else Get(v, l)
    ensures Get(CopyW(v, b), l) == if l == W then Get(b, W) else Get(v, l)
  {
  }

  // ---------------------------------------------------------------- lane-wise arithmetic

  function AddScalar(v: Float4, a: real): Float4 { Float4(v.x + a, v.y + a, v.z + a, v.w + a) }
  function SubScalar(v: Float4, a: real): Float4 { Float4(v.x - a, v.y - a, v.z - a, v.w - a) }
  function MulScalar(v: Float4, a: real): Float4 { Float4(v.x * a, v.y * a, v.z * a, v.w * a) }
  /** `neg` multiplies every lane by -1. */
  function Neg(v: Float4): Float4 { Float4(-v.x, -v.y, -v.z, -v.w) }

  function Add(a: Float4, b: Float4): Float4 { Float4(a.x + b.x, a.y + b.y, a.z + b.z, a.w + b.w) }
  function Sub(a: Float4, b: Float4): Float4 { Float4(a.x - b.x, a.y - b.y, a.z - b.z, a.w - b.w) }
  function Mul(a: Float4, b: Float4): Float4 { Float4(a.x * b.x, a.y * b.y, a.z * b.z, a.w * b.w) }

  /** Lane-wise division; the host raises on a zero divisor lane. */
  function Div(a: Float4, b: Float4): Float4
    requires b.x != 0.0 && b.y != 0.0 && b.z != 0.0 && b.w != 0.0
  {
    Float4(a.x / b.x, a.y / b.y, a.z / b.z, a.w / b.w)
  }

  /** Division of the x, y, z lanes; the w lane of `a` is kept. */
  function Div3(a: Float4, b: Float4): (r: Float4)
    requires b.x != 0.0 && b.y != 0.0 && b.z != 0.0
    ensures Mul(SetW0(r), b) == SetW0(a) && r.w == a.w
  {
    CopyW(Float4(a.x / b.x, a.y / b.y, a.z / b.z, a.w), a)
  }

  /** The lane operations: `sub` undoes `add` and `subScalar` undoes
      `addScalar`; the scalar forms are the vector forms with a splatted
      operand; `neg` is `mulScalar` by -1, an involution whose sum with the
      input is zero. */
  lemma LaneArithmetic(a: Float4, b: Float4, k: real)
    ensures Sub(Add(a, b), b) == a && Add(Sub(a, b), b) == a
    ensures Add(a, b) == Add(b, a) && Mul(a, b) == Mul(b, a)
    ensures SubScalar(AddScalar(a, k), k) == a
    ensures AddScalar(a, k) == Add(a, Splat(k)) && SubScalar(a, k) == Sub(a, Splat(k))
    ensures MulScalar(a, k) == Mul(a, Splat(k))
    ensures Neg(a) == MulScalar(a, -1.0) && Neg(Neg(a)) == a && Add(a, Neg(a)) == Zero()
  {
  }

  /** `div` and `mul` undo each other on nonzero divisor lanes. */
  lemma DivUndoesMul(a: Float4, b: Float4)
    requires b.x != 0.0 && b.y != 0.0 && b.z != 0.0 && b.w != 0.0
    ensures Div(Mul(a, b), b) == a && Mul(Div(a, b), b) == a
  {
    Scalar.DivCancels(a.x, b.x);
    Scalar.DivCancels(a.y, b.y);
    Scalar.DivCancels(a.z, b.z);
    Scalar.DivCancels(a.w, b.w);
  }

  function IsLT(a: Float4, b: Float4): Bool4 { Bool4(a.x < b.x, a.y < b.y, a.z < b.z, a.w < b.w) }
  function IsGT(a: Float4, b: Float4): Bool4 { Bool4(a.x > b.x, a.y > b.y, a.z > b.z, a.w > b.w) }
  function IsLTEq(a: Float4, b: Float4): Bool4 { Bool4(a.x <= b.x, a.y <= b.y, a.z <= b.z, a.w <= b.w) }
  function IsGTEq(a: Float4, b: Float4): Bool4 { Bool4(a.x >= b.x, a.y >= b.y, a.z >= b.z, a.w >= b.w) }

  /** The comparison masks are complementary and mirror each other. */
  lemma ComparisonMasks(a: Float4, b: Float4, l: Lane)
    ensures Test(IsLT(a, b), l) <==> !Test(IsGTEq(a, b), l)
    ensures Test(IsGT(a, b), l) <==> !Test(IsLTEq(a, b), l)
    ensures IsLT(a, b) == IsGT(b, a) && IsLTEq(a, b) == IsGTEq(b, a)
    ensures Test(IsLT(a, b), l) <==> Get(a, l) < Get(b, l)
  {
  }

  function Madd(a: Float4, b: Float4, c: Float4): Float4 {
    Float4(a.x * b.x + c.x, a.y * b.y + c.y, a.z * b.z + c.z, a.w * b.w + c.w)
  }
  function Nmsub(a: Float4, b: Float4, c: Float4): Float4 {
    Float4(c.x - a.x * b.x, c.y - a.y * b.y, c.z - a.z * b.z, c.w - a.w * b.w)
  }
  function Msub(a: Float4, b: Float4, c: Float4): Float4 {
    Float4(a.x * b.x - c.x, a.y * b.y - c.y, a.z * b.z - c.z, a.w * b.w - c.w)
  }
  function Nmadd(a: Float4, b: Float4, c: Float4): Float4 {
    Float4(-a.x * b.x - c.x, -a.y * b.y - c.y, -a.z * b.z - c.z, -a.w * b.w - c.w)
  }

  /** The fused operations are the unfused products and sums they abbreviate. */
  lemma FusedOps(a: Float4, b: Float4, c: Float4)
    ensures Madd(a, b, c) == Add(Mul(a, b), c)
    ensures Nmsub(a, b, c) == Sub(c, Mul(a, b))
    ensures Msub(a, b, c) == Sub(Mul(a, b), c)
    ensures Nmadd(a, b, c) == Sub(Neg(Mul(a, b)), c)
    ensures Nmsub(a, b, c) == Neg(Msub(a, b, c)) && Nmadd(a, b, c) == Neg(Madd(a, b, c))
  {
  }

  function Hadd(a: Float4, b: Float4): Float4 { Float4(a.x + a.y, b.x + b.y, a.z + a.w, b.z + b.w) }
  function Hsub(a: Float4, b: Float4): Float4 { Float4(a.x - a.y, b.x - b.y, a.z - a.w, b.z - b.w) }
  function Addsub(a: Float4, b: Float4): Float4 { Float4(a.x - b.x, a.y + b.y, a.z - b.z, a.w + b.w) }
  function Maddsub(a: Float4, b: Float4, c: Float4): Float4 { Addsub(Mul(a, b), c) }
  function Msubadd(a: Float4, b: Float4, c: Float4): Float4 { Addsub(Mul(a, b), Neg(c)) }

  /** Alternating signs: even lanes subtract, odd lanes add. */
  function Alternate(): Float4 { Float4(-1.0, 1.0, -1.0, 1.0) }

  /** `hadd` and `hsub` combine the adjacent pairs (x, y) and (z, w) of both
      operands, interleaved as [a pair, b pair, a pair, b pair], and keep the
      total; `addsub` and its fused forms add the second operand with
      alternating signs. */
  lemma HorizontalOps(a: Float4, b: Float4, c: Float4)
    ensures Hadd(a, b) == Add(ApplyShuffle(XAZC, a, b), ApplyShuffle(YBWD, a, b))
    ensures Hsub(a, b) == Sub(ApplyShuffle(XAZC, a, b), ApplyShuffle(YBWD, a, b))
    ensures Sum(Hadd(a, b)) == Sum(a) + Sum(b)
    ensures Sum(Hsub(a, b)) == Sum(Mul(a, Neg(Alternate()))) + Sum(Mul(b, Neg(Alternate())))
    ensures Addsub(a, b) == Add(a, Mul(b, Alternate()))
    ensures Maddsub(a, b, c) == Madd(a, b, Mul(c, Alternate()))
    ensures Msubadd(a, b, c) == Madd(a, b, Mul(c, Neg(Alternate())))
  {
  }

  function AbsLanes(v: Float4): Float4 {
    Float4(Scalar.Abs(v.x), Scalar.Abs(v.y), Scalar.Abs(v.z), Scalar.Abs(v.w))
  }

  function Sum(v: Float4): real { v.x + v.y + v.z + v.w }
  function Sum3(v: Float4): real { v.x + v.y + v.z }

  /** The sum of the four lane products. */
  function Dot4(a: Float4, b: Float4): (r: real)
    ensures r == a.x * b.x + a.y * b.y + a.z * b.z + a.w * b.w
  {
    Sum(Mul(a, b))
  }

  /** The sum of the lane products with the w product dropped. */
  function Dot3(a: Float4, b: Float4): (r: real)
    ensures r == a.x * b.x + a.y * b.y + a.z * b.z
    ensures r == Dot4(a, b) - a.w * b.w
  {
    Sum(SetW0(Mul(a, b)))
  }

  /** `dot4` is symmetric and linear in each operand. */
  lemma DotBilinear(a: Float4, b: Float4, c: Float4, k: real)
    ensures Dot4(a, b) == Dot4(b, a) && Dot3(a, b) == Dot3(b, a)
    ensures Dot4(Add(a, b), c) == Dot4(a, c) + Dot4(b, c)
    ensures Dot4(MulScalar(a, k), b) == k * Dot4(a, b)
    ensures Dot4(a, AxisW()) == a.w && Dot3(a, AxisW()) == 0.0
  {
    assert (a.x * k) * b.x + (a.y * k) * b.y + (a.z * k) * b.z + (a.w * k) * b.w
        == k * (a.x * b.x + a.y * b.y + a.z * b.z + a.w * b.w);
  }

  lemma SquaresNonNegative(v: Float4)
    ensures 0.0 <= Dot3(v, v) <= Dot4(v, v)
    ensures 0.0 <= v.x * v.x + v.y * v.y && 0.0 <= v.y * v.y + v.z * v.z && 0.0 <= v.x * v.x + v.z * v.z
  {
  }

  function Len4(sqrt: real -> real, v: Float4): (r: real)
    requires Scalar.IsSqrt(sqrt)
    ensures 0.0 <= r && r * r == Dot4(v, v)
  {
    var d := Dot4(v, v);
    assert 0.0 <= d by { SquaresNonNegative(v); }
    Scalar.Root(sqrt, d)
  }

  function Len3(sqrt: real -> real, v: Float4): (r: real)
    requires Scalar.IsSqrt(sqrt)
    ensures 0.0 <= r && r * r == Dot3(v, v)
  {
    var d := Dot3(v, v);
    assert 0.0 <= d by { SquaresNonNegative(v); }
    Scalar.Root(sqrt, d)
  }

  function SqrLenXY(v: Float4): real { v.x * v.x + v.y * v.y }
  function SqrLenYZ(v: Float4): real { v.y * v.y + v.z * v.z }
  function SqrLenXZ(v: Float4): real { v.x * v.x + v.z * v.z }

  function LenXY(sqrt: real -> real, v: Float4): (r: real)
    requires Scalar.IsSqrt(sqrt)
    ensures 0.0 <= r && r * r == SqrLenXY(v)
  {
    var d := SqrLenXY(v);
    assert 0.0 <= d by { SquaresNonNegative(v); }
    Scalar.Root(sqrt, d)
  }

  function LenYZ(sqrt: real -> real, v: Float4): (r: real)
    requires Scalar.IsSqrt(sqrt)
    ensures 0.0 <= r && r * r == SqrLenYZ(v)
  {
    var d := SqrLenYZ(v);
    assert 0.0 <= d by { SquaresNonNegative(v); }
    Scalar.Root(sqrt, d)
  }

  function LenXZ(sqrt: real -> real, v: Float4): (r: real)
    requires Scalar.IsSqrt(sqrt)
    ensures 0.0 <= r && r * r == SqrLenXZ(v)
  {
    var d := SqrLenXZ(v);
    assert 0.0 <= d by { SquaresNonNegative(v); }
    Scalar.Root(sqrt, d)
  }

  // ---------------------------------------------------------------- cross product

  /** The textbook cross product of the x, y, z lanes, with a zero w lane. */
  function CrossFormula(a: Float4, b: Float4): Float4 {
    Float4(a.y * b.z - a.z * b.y, a.z * b.x - a.x * b.z, a.x * b.y - a.y * b.x, 0.0)
  }

  /** `cross3` built from two rotations of the lanes and a fused multiply-subtract. */
  function Cross3(a: Float4, b: Float4): (r: Float4)
    ensures r == CrossFormula(a, b)
    ensures Dot3(r, a) == 0.0 && Dot3(r, b) == 0.0
  {
    var tmpA := Mul(a, ApplySwizzle(YZXW, b));
    var tmpB := Nmsub(b, ApplySwizzle(YZXW, a), tmpA);
    ApplySwizzle(YZXW, tmpB)
  }

  // ---------------------------------------------------------------- normalisation

  /** Below this squared length `normal3` and `normal4` return their fallback. */
  const NormalEpsilon: real := 0.00000000000001

  /** The fallbacks used when the caller passes none: the x axis (for `normal3` a
      three-element list, read here with a zero w lane). */
  function DefaultNormal4Fallback(): Float4 { AxisX() }
  function DefaultNormal3Fallback(): Float4 { SetXYZ(1.0, 0.0, 0.0) }

  /** `normal4`: the vector scaled to unit length, or `err` when its squared
      length is below 1e-14. Rescaling the result by the input's length gives
      the input back. */
  function Normal4(sqrt: real -> real, v: Float4, err: Float4): (r: Float4)
    requires Scalar.IsSqrt(sqrt)
    ensures Dot4(v, v) < NormalEpsilon ==> r == err
    ensures NormalEpsilon <= Dot4(v, v) ==>
              Dot4(r, r) == 1.0 && MulScalar(r, Len4(sqrt, v)) == v
  {
    var dt := Dot4(v, v);
    if dt < NormalEpsilon then err
    else
      var scl := Scalar.RsqrtClamp(sqrt, dt);
      UnitScaling(v, dt, sqrt(dt), scl);
      MulScalar(v, scl)
  }

  /** `normal3`: the x, y, z lanes scaled to unit length with the w lane kept,
      or `err` when the squared length of x, y, z is below 1e-14. */
  function Normal3(sqrt: real -> real, v: Float4, err: Float4): (r: Float4)
    requires Scalar.IsSqrt(sqrt)
    ensures Dot3(v, v) < NormalEpsilon ==> r == err
    ensures NormalEpsilon <= Dot3(v, v) ==>
              && r.w == v.w
              && Dot3(r, r) == 1.0
              && SetW0(MulScalar(r, Len3(sqrt, v))) == SetW0(v)
  {
    var dt := Dot3(v, v);
    if dt < NormalEpsilon then err
    else
      var scl := Scalar.RsqrtClamp(sqrt, dt);
      UnitScaling(SetW0(v), dt, sqrt(dt), scl);
      CopyW(MulScalar(v, scl), v)
  }

  /** Scaling by the reciprocal of the length gives a unit vector that the
      length scales back. */
  lemma UnitScaling(v: Float4, dt: real, s: real, k: real)
    requires dt == Dot4(v, v) && 0.0 < s && s * s == dt && 0.0 < k && k * k * dt == 1.0
    ensures Dot4(MulScalar(v, k), MulScalar(v, k)) == 1.0
    ensures MulScalar(MulScalar(v, k), s) == v
    ensures Dot3(MulScalar(v, k), MulScalar(v, k)) == k * k * Dot3(v, v)
  {
    ScaledDots(v, k);
    ReciprocalRoot(dt, s, k);
    ScaleBack(v, k, s);
  }

  /** Scaling a vector scales its dot products by the square. */
  lemma ScaledDots(v: Float4, k: real)
    ensures Dot4(MulScalar(v, k), MulScalar(v, k)) == k * k * Dot4(v, v)
    ensures Dot3(MulScalar(v, k), MulScalar(v, k)) == k * k * Dot3(v, v)
  {
    var u := MulScalar(v, k);
    assert Dot3(u, u) == k * k * Dot3(v, v);
    assert Dot4(u, u) == Dot3(u, u) + (k * k) * (v.w * v.w);
  }

  /** The positive roots of `dt` and `1 / dt` are reciprocal. */
  lemma ReciprocalRoot(dt: real, s: real, k: real)
    requires 0.0 < s && s * s == dt && 0.0 < k && k * k * dt == 1.0
    ensures k * s == 1.0
  {
    Scalar.PositiveProduct(k, s);
    assert (k * s) * (k * s) == (k * k) * (s * s);
    Scalar.RootUnique(k * s, 1.0);
  }

  /** Scaling by `k` and then by its reciprocal is the identity. */
  lemma ScaleBack(v: Float4, k: real, s: real)
    requires k * s == 1.0
    ensures MulScalar(MulScalar(v, k), s) == v
  {
    var w := MulScalar(MulScalar(v, k), s);
    assert w.x == v.x by { assert (v.x * k) * s == v.x * (k * s); }
    assert w.y == v.y by { assert (v.y * k) * s == v.y * (k * s); }
    assert w.z == v.z by { assert (v.z * k) * s == v.z * (k * s); }
    assert w.w == v.w by { assert (v.w * k) * s == v.w * (k * s); }
  }

  // ---------------------------------------------------------------- interpolation

  /** `interp(a, b, r)` blends lane-wise as (1 - r) * a + r * b. */
  function Interp(a: Float4, b: Float4, t: Float4): (r: Float4)
    ensures r == Add(Mul(Sub(One(), t), a), Mul(t, b))
  {
    var tmp := Madd(t, b, a);
    var r := Nmsub(t, a, tmp);
    var blend := Add(Mul(Sub(One(), t), a), Mul(t, b));
    assert r.x == blend.x by { assert (1.0 - t.x) * a.x == a.x - t.x * a.x; }
    assert r.y == blend.y by { assert (1.0 - t.y) * a.y == a.y - t.y * a.y; }
    assert r.z == blend.z by { assert (1.0 - t.z) * a.z == a.z - t.z * a.z; }
    assert r.w == blend.w by { assert (1.0 - t.w) * a.w == a.w - t.w * a.w; }
    r
  }

  /** A zero blend factor gives the first operand. */
  lemma InterpAtZero(a: Float4, b: Float4)
    ensures Interp(a, b, Splat(0.0)) == a
  {
  }

  /** A unit blend factor gives the second operand. */
  lemma InterpAtOne(a: Float4, b: Float4)
    ensures Interp(a, b, Splat(1.0)) == b
  {
  }

  /** `sinCosHalf` of the vector module: the half-angle sine in x, y, z and the
      half-angle cosine in w. */
  function SinCosHalf(sqrt: real -> real, c: real): (r: Float4)
    requires Scalar.IsSqrt(sqrt)
    ensures r.x == r.y == r.z && 0.0 <= r.x && 0.0 <= r.w
    ensures r.x * r.x + r.w * r.w == 1.0
    ensures r.w * r.w - r.x * r.x == Scalar.Clamp(c, -1.0, 1.0)
  {
    var sc := Scalar.SinCosHalf(sqrt, c);
    Float4(sc.0, sc.0, sc.0, sc.1)
  }

  // ---------------------------------------------------------------- selection

  /** Lane-wise choice: the lane of `onTrue` where the mask is set, else of `onFalse`. */
  function SelectXYZW(onFalse: Float4, onTrue: Float4, mask: Bool4): (r: Float4)
    ensures forall l: Lane :: Get(r, l) == if Test(mask, l) then Get(onTrue, l) else Get(onFalse, l)
  {
    Float4(if mask.x then onTrue.x else onFalse.x,
          if mask.y then onTrue.y else onFalse.y,
          if mask.z then onTrue.z else onFalse.z,
          if mask.w then onTrue.w else onFalse.w)
  }

  function Select(onFalse: Float4, onTrue: Float4, choose: bool): (r: Float4)
    ensures r == SelectXYZW(onFalse, onTrue, Bool4(choose, choose, choose, choose))
  {
    if choose then onTrue else onFalse
  }

  // ---------------------------------------------------------------- swizzles

  /** The eighteen fixed lane permutations; the name lists the source lane of
      each result lane. */
  datatype Swizzle =
    | XYWZ | XZYW | XZWY | YXWZ | YZXW | YZWX | YWXZ | YWZX | ZXYW
    | ZXWY | ZWXY | ZWYX | WXYZ | WXZY | WYXZ | WYZX | WZXY | WZYX

  function Pattern(s: Swizzle): (Lane, Lane, Lane, Lane) {
    match s
    case XYWZ => (X, Y, W, Z)
    case XZYW => (X, Z, Y, W)
    case XZWY => (X, Z, W, Y)
    case YXWZ => (Y, X, W, Z)
    case YZXW => (Y, Z, X, W)
    case YZWX => (Y, Z, W, X)
    case YWXZ => (Y, W, X, Z)
    case YWZX => (Y, W, Z, X)
    case ZXYW => (Z, X, Y, W)
    case ZXWY => (Z, X, W, Y)
    case ZWXY => (Z, W, X, Y)
    case ZWYX => (Z, W, Y, X)
    case WXYZ => (W, X, Y, Z)
    case WXZY => (W, X, Z, Y)
    case WYXZ => (W, Y, X, Z)
    case WYZX => (W, Y, Z, X)
    case WZXY => (W, Z, X, Y)
    case WZYX => (W, Z, Y, X)
  }

  /** The swizzle itself: result lane `i` is the lane of `v` named at `i`. */
  function ApplySwizzle(s: Swizzle, v: Float4): Float4 {
    match s
    case XYWZ => Float4(v.x, v.y, v.w, v.z)
    case XZYW => Float4(v.x, v.z, v.y, v.w)
    case XZWY => Float4(v.x, v.z, v.w, v.y)
    case YXWZ => Float4(v.y, v.x, v.w, v.z)
    case YZXW => Float4(v.y, v.z, v.x, v.w)
    case YZWX => Float4(v.y, v.z, v.w, v.x)
    case YWXZ => Float4(v.y, v.w, v.x, v.z)
    case YWZX => Float4(v.y, v.w, v.z, v.x)
    case ZXYW => Float4(v.z, v.x, v.y, v.w)
    case ZXWY => Float4(v.z, v.x, v.w, v.y)
    case ZWXY => Float4(v.z, v.w, v.x, v.y)
    case ZWYX => Float4(v.z, v.w, v.y, v.x)
    case WXYZ => Float4(v.w, v.x, v.y, v.z)
    case WXZY => Float4(v.w, v.x, v.z, v.y)
    case WYXZ => Float4(v.w, v.y, v.x, v.z)
    case WYZX => Float4(v.w, v.y, v.z, v.x)
    case WZXY => Float4(v.w, v.z, v.x, v.y)
    case WZYX => Float4(v.w, v.z, v.y, v.x)
  }

  /** Each swizzle reads its lanes as its pattern table says. */
  lemma SwizzleFollowsPattern(s: Swizzle, v: Float4)
    ensures var (a, b, c, d) := Pattern(s);
            ApplySwizzle(s, v) == Float4(Get(v, a), Get(v, b), Get(v, c), Get(v, d))
  {
  }

  /** The lane tables name four distinct lanes. */
  lemma PatternIsBijection(s: Swizzle)
    ensures var (a, b, c, d) := Pattern(s);
            a != b && a != c && a != d && b != c && b != d && c != d
  {
  }

  /** Every swizzle is a permutation of the lanes: each value occurs in the
      result as often as in the input. */
  lemma SwizzleIsPermutation(s: Swizzle, v: Float4, e: real)
    ensures Occurrences(ApplySwizzle(s, v), e) == Occurrences(v, e)
  {
  }

  /** Rotating the x, y, z lanes one way and then the other restores the vector. */
  lemma SwizzleRotationsInverse(v: Float4)
    ensures ApplySwizzle(ZXYW, ApplySwizzle(YZXW, v)) == v
    ensures ApplySwizzle(YZXW, ApplySwizzle(ZXYW, v)) == v
  {
  }

  // ---------------------------------------------------------------- shuffles

  /** A result lane of a shuffle: a lane of the first or of the second operand. */
  datatype Pick = First(lane: Lane) | Second(lane: Lane)

  /** The nine fixed shuffles; x, y, z, w name lanes of the first operand and
      a, b, c, d lanes of the second. */
  datatype Shuffle = AYZW | XBZW | ABZW | XYCW | AYCW | XBCW | ABCW | XAZC | YBWD

  function ShufflePattern(s: Shuffle): (Pick, Pick, Pick, Pick) {
    match s
    case AYZW => (Second(X), First(Y), First(Z), First(W))
    case XBZW => (First(X), Second(Y), First(Z), First(W))
    case ABZW => (Second(X), Second(Y), First(Z), First(W))
    case XYCW => (First(X), First(Y), Second(Z), First(W))
    case AYCW => (Second(X), First(Y), Second(Z), First(W))
    case XBCW => (First(X), Second(Y), Second(Z), First(W))
    case ABCW => (Second(X), Second(Y), Second(Z), First(W))
    case XAZC => (First(X), Second(X), First(Z), Second(Z))
    case YBWD => (First(Y), Second(Y), First(W), Second(W))
  }

  function PickFrom(p: Pick, a: Float4, b: Float4): real {
    match p
    case First(l) => Get(a, l)
    case Second(l) => Get(b, l)
  }

  function ApplyShuffle(s: Shuffle, a: Float4, b: Float4): Float4 {
    var (p, q, r, t) := ShufflePattern(s);
    Float4(PickFrom(p, a, b), PickFrom(q, a, b), PickFrom(r, a, b), PickFrom(t, a, b))
  }

  /** The lanes of the second operand that a position-keeping shuffle takes. */
  function MergeMask(s: Shuffle): Bool4
    requires s != XAZC && s != YBWD
  {
    match s
    case AYZW => Bool4(true, false, false, false)
    case XBZW => Bool4(false, true, false, false)
    case ABZW => Bool4(true, true, false, false)
    case XYCW => Bool4(false, false, true, false)
    case AYCW => Bool4(true, false, true, false)
    case XBCW => Bool4(false, true, true, false)
    case ABCW => Bool4(true, true, true, false)
  }

  /** Seven shuffles keep every lane in place and merge the two operands by a
      fixed mask, never taking the w lane of the second; the other two interleave
      the even and the odd lanes, and together they hold every lane once. */
  lemma ShufflesMergeOrInterleave(s: Shuffle, a: Float4, b: Float4)
    ensures s != XAZC && s != YBWD ==>
              ApplyShuffle(s, a, b) == SelectXYZW(a, b, MergeMask(s)) && !MergeMask(s).w
    ensures forall e :: Occurrences(ApplyShuffle(XAZC, a, b), e) + Occurrences(ApplyShuffle(YBWD, a, b), e)
                        == Occurrences(a, e) + Occurrences(b, e)
  {
  }

  // ---------------------------------------------------------------- axis alignment

  /** The residual of an axis alignment: the sine and cosine of the rotation and
      the rotated vector. */
  datatype Aligned = Aligned(sin: real, cos: real, v: Float4)

  /** Rotate about z to bring the vector into the x-z half-plane (y := 0). */
  function AlignAxisXRotateZ(sqrt: real -> real, v: Float4): (r: Aligned)
    requires Scalar.IsSqrt(sqrt)
    ensures r.v.y == 0.0 && r.v.z == v.z && r.v.w == 0.0
    ensures 0.0 <= r.v.x && r.v.x * r.v.x == v.x * v.x + v.y * v.y
    ensures Dot3(r.v, r.v) == Dot3(v, v)
    ensures r.v.x <= Scalar.AlignEpsilon ==> r.sin == 0.0 && r.cos == 1.0
    ensures Scalar.AlignEpsilon < r.v.x ==>
              && r.sin * r.sin + r.cos * r.cos == 1.0
              && r.sin * r.v.x == v.y && r.cos * r.v.x == v.x
              && r.cos * v.x + r.sin * v.y == r.v.x
  {
    var sc := Scalar.AlignAxis(sqrt, v.x, v.y);
    Aligned(sc.0, sc.1, SetXYZ(sc.2, 0.0, v.z))
  }

  /** Rotate about y to bring the vector into the x-y half-plane (z := 0). */
  function AlignAxisXRotateY(sqrt: real -> real, v: Float4): (r: Aligned)
    requires Scalar.IsSqrt(sqrt)
    ensures r.v.z == 0.0 && r.v.y == v.y && r.v.w == 0.0
    ensures 0.0 <= r.v.x && r.v.x * r.v.x == v.x * v.x + v.z * v.z
    ensures Dot3(r.v, r.v) == Dot3(v, v)
    ensures r.v.x <= Scalar.AlignEpsilon ==> r.sin == 0.0 && r.cos == 1.0
    ensures Scalar.AlignEpsilon < r.v.x ==>
              && r.sin * r.sin + r.cos * r.cos == 1.0
              && r.sin * r.v.x == -v.z && r.cos * r.v.x == v.x
              && r.cos * v.x + r.sin * (-v.z) == r.v.x
  {
    var sc := Scalar.AlignAxis(sqrt, v.x, -v.z);
    Aligned(sc.0, sc.1, SetXYZ(sc.2, v.y, 0.0))
  }

  /** Rotate about z to bring the vector into the y-z half-plane (x := 0). */
  function AlignAxisYRotateZ(sqrt: real -> real, v: Float4): (r: Aligned)
    requires Scalar.IsSqrt(sqrt)
    ensures r.v.x == 0.0 && r.v.z == v.z && r.v.w == 0.0
    ensures 0.0 <= r.v.y && r.v.y * r.v.y == v.y * v.y + v.x * v.x
    ensures Dot3(r.v, r.v) == Dot3(v, v)
    ensures r.v.y <= Scalar.AlignEpsilon ==> r.sin == 0.0 && r.cos == 1.0
    ensures Scalar.AlignEpsilon < r.v.y ==>
              && r.sin * r.sin + r.cos * r.cos == 1.0
              && r.sin * r.v.y == -v.x && r.cos * r.v.y == v.y
              && r.cos * v.y + r.sin * (-v.x) == r.v.y
  {
    var sc := Scalar.AlignAxis(sqrt, v.y, -v.x);
    Aligned(sc.0, sc.1, SetXYZ(0.0, sc.2, v.z))
  }

  /** Rotate about x to bring the vector into the x-y half-plane (z := 0). */
  function AlignAxisYRotateX(sqrt: real -> real, v: Float4): (r: Aligned)
    requires Scalar.IsSqrt(sqrt)
    ensures r.v.z == 0.0 && r.v.x == v.x && r.v.w == 0.0
    ensures 0.0 <= r.v.y && r.v.y * r.v.y == v.y * v.y + v.z * v.z
    ensures Dot3(r.v, r.v) == Dot3(v, v)
    ensures r.v.y <= Scalar.AlignEpsilon ==> r.sin == 0.0 && r.cos == 1.0
    ensures Scalar.AlignEpsilon < r.v.y ==>
              && r.sin * r.sin + r.cos * r.cos == 1.0
              && r.sin * r.v.y == v.z && r.cos * r.v.y == v.y
              && r.cos * v.y + r.sin * v.z == r.v.y
  {
    var sc := Scalar.AlignAxis(sqrt, v.y, v.z);
    Aligned(sc.0, sc.1, SetXYZ(v.x, sc.2, 0.0))
  }

  /** Rotate about y to bring the vector into the y-z half-plane (x := 0). */
  function AlignAxisZRotateY(sqrt: real -> real, v: Float4): (r: Aligned)
    requires Scalar.IsSqrt(sqrt)
    ensures r.v.x == 0.0 && r.v.y == v.y && r.v.w == 0.0
    ensures 0.0 <= r.v.z && r.v.z * r.v.z == v.z * v.z + v.x * v.x
    ensures Dot3(r.v, r.v) == Dot3(v, v)
    ensures r.v.z <= Scalar.AlignEpsilon ==> r.sin == 0.0 && r.cos == 1.0
    ensures Scalar.AlignEpsilon < r.v.z ==>
              && r.sin * r.sin + r.cos * r.cos == 1.0
              && r.sin * r.v.z == v.x && r.cos * r.v.z == v.z
              && r.cos * v.z + r.sin * v.x == r.v.z
  {
    var sc := Scalar.AlignAxis(sqrt, v.z, v.x);
    Aligned(sc.0, sc.1, SetXYZ(0.0, v.y, sc.2))
  }

  /** Rotate about x to bring the vector into the x-z half-plane (y := 0). */
  function AlignAxisZRotateX(sqrt: real -> real, v: Float4): (r: Aligned)
    requires Scalar.IsSqrt(sqrt)
    ensures r.v.y == 0.0 && r.v.x == v.x && r.v.w == 0.0
    ensures 0.0 <= r.v.z && r.v.z * r.v.z == v.z * v.z + v.y * v.y
    ensures Dot3(r.v, r.v) == Dot3(v, v)
    ensures r.v.z <= Scalar.AlignEpsilon ==> r.sin == 0.0 && r.cos == 1.0
    ensures Scalar.AlignEpsilon < r.v.z ==>
              && r.sin * r.sin + r.cos * r.cos == 1.0
              && r.sin * r.v.z == -v.y && r.cos * r.v.z == v.z
              && r.cos * v.z + r.sin * (-v.y) == r.v.z
  {
    var sc := Scalar.AlignAxis(sqrt, v.z, -v.y);
    Aligned(sc.0, sc.1, SetXYZ(v.x, 0.0, sc.2))
  }
}

/** 4x4 matrices. The host stores a matrix as sixteen numbers in row-major order;
    here it is four rows, and entry k of the flat list is lane k % 4 of row k / 4.
    Matrices act on row vectors: `Multiply(parent, child)` is the product
    child * parent, so a vector transformed by the product is transformed by the
    child first and then by the parent. */
module Mat {
  import Scalar
  import opened Vec4
  import Quat
  import opened Optional

  datatype Matrix = Matrix(r0: Float4, r1: Float4, r2: Float4, r3: Float4)

  /** A row or column index. */
  type Index = i: int | 0 <= i < 4

  function LaneAt(i: Index): Lane {
    if i == 0 then X else if i == 1 then Y else if i == 2 then Z else W
  }

  /** Lane `i` of `v` replaced by `a`. */
  function Put(v: Float4, i: Index, a: real): Float4 {
    if i == 0 then v.(x := a) else if i == 1 then v.(y := a) else if i == 2 then v.(z := a) else v.(w := a)
  }

  // ---------------------------------------------------------------- access

  /** `getRow(m, i)`: the four entries 4i .. 4i+3. */
  function Row(m: Matrix, i: Index): Float4 {
    if i == 0 then m.r0 else if i == 1 then m.r1 else if i == 2 then m.r2 else m.r3
  }

  function Entry(m: Matrix, i: Index, j: Index): real {
    Get(Row(m, i), LaneAt(j))
  }

  /** Entry k of the host's flat row-major list. */
  function Flat(m: Matrix, k: int): real
    requires 0 <= k < 16
  {
    Entry(m, k / 4, k % 4)
  }

  /** `setRow(m, row, i)` replaces row i and keeps the other rows. */
  function SetRow(m: Matrix, row: Float4, i: Index): (r: Matrix)
    ensures Row(r, i) == row
    ensures forall k: Index :: k != i ==> Row(r, k) == Row(m, k)
  {
    if i == 0 then m.(r0 := row)
    else if i == 1 then m.(r1 := row)
    else if i == 2 then m.(r2 := row)
    else m.(r3 := row)
  }

  /** `getColumn(m, j)`: entry j of every row. */
  function Column(m: Matrix, j: Index): (c: Float4)
    ensures forall i: Index :: Get(c, LaneAt(i)) == Entry(m, i, j)
  {
    if j == 0 then Float4(m.r0.x, m.r1.x, m.r2.x, m.r3.x)
    else if j == 1 then Float4(m.r0.y, m.r1.y, m.r2.y, m.r3.y)
    else if j == 2 then Float4(m.r0.z, m.r1.z, m.r2.z, m.r3.z)
    else Float4(m.r0.w, m.r1.w, m.r2.w, m.r3.w)
  }

  /** `setColumn(m, col, j)` replaces column j and keeps every other entry. */
  function SetColumn(m: Matrix, col: Float4, j: Index): (r: Matrix)
    ensures Column(r, j) == col
    ensures forall i: Index, k: Index :: k != j ==> Entry(r, i, k) == Entry(m, i, k)
  {
    Matrix(Put(m.r0, j, col.x), Put(m.r1, j, col.y), Put(m.r2, j, col.z), Put(m.r3, j, col.w))
  }

  /** Setting a row to the one already there changes nothing. */
  lemma SetRowOfGetRow(m: Matrix, i: Index)
    ensures SetRow(m, Row(m, i), i) == m
  {
  }

  // ---------------------------------------------------------------- constants

  function Identity(): Matrix {
    Matrix(AxisX(), AxisY(), AxisZ(), AxisW())
  }

  function ZeroMatrix(): Matrix {
    Matrix(Zero(), Zero(), Zero(), Zero())
  }

  /** The identity has ones exactly on the diagonal. */
  lemma IdentityEntries(i: Index, j: Index)
    ensures Entry(Identity(), i, j) == if i == j then 1.0 else 0.0
  {
  }

  // ---------------------------------------------------------------- product

  /** A row vector times a matrix: the rows weighted by the lanes of the vector. */
  function RowTimes(v: Float4, m: Matrix): Float4 {
    Float4(Weigh(v, m.r0.x, m.r1.x, m.r2.x, m.r3.x), Weigh(v, m.r0.y, m.r1.y, m.r2.y, m.r3.y),
           Weigh(v, m.r0.z, m.r1.z, m.r2.z, m.r3.z), Weigh(v, m.r0.w, m.r1.w, m.r2.w, m.r3.w))
  }

  /** One lane of `RowTimes`: the lanes of v weighted by one column's entries. */
  function Weigh(v: Float4, c0: real, c1: real, c2: real, c3: real): real {
    v.x * c0 + v.y * c1 + v.z * c2 + v.w * c3
  }

  /** Lane j of a row vector times a matrix is the `dot4` of the vector with
      `getColumn(m, j)`, which is how the host computes each entry. */
  lemma RowTimesIsDotOfColumn(v: Float4, m: Matrix, j: Index)
    ensures Get(RowTimes(v, m), LaneAt(j)) == Dot4(v, Column(m, j))
  {
    if j == 0 {
    } else if j == 1 {
    } else if j == 2 {
    } else {
    }
  }

  /** `multiply(parent, child)`: entry (i, j) is the `dot4` of row i of the
      child with column j of the parent, i.e. the product child * parent. */
  function Multiply(parent: Matrix, child: Matrix): Matrix {
    Matrix(RowTimes(child.r0, parent), RowTimes(child.r1, parent),
           RowTimes(child.r2, parent), RowTimes(child.r3, parent))
  }

  /** Entry (i, j) of the product is row i of the child dotted with column j of
      the parent. */
  lemma MultiplyEntry(parent: Matrix, child: Matrix, i: Index, j: Index)
    ensures Entry(Multiply(parent, child), i, j) == Dot4(Row(child, i), Column(parent, j))
  {
    assert Row(Multiply(parent, child), i) == RowTimes(Row(child, i), parent);
    RowTimesIsDotOfColumn(Row(child, i), parent, j);
  }

  /** The identity is a unit on both sides of the product. */
  lemma MultiplyIdentity(m: Matrix)
    ensures Multiply(Identity(), m) == m
    ensures Multiply(m, Identity()) == m
  {
  }

  /** The rows of m, weighted by the lanes of v and summed. */
  function Combination(v: Float4, m: Matrix): Float4 {
    Vec4.Add(Vec4.Add(Vec4.Add(MulScalar(m.r0, v.x), MulScalar(m.r1, v.y)), MulScalar(m.r2, v.z)),
             MulScalar(m.r3, v.w))
  }

  /** A row vector times a matrix is the combination of its rows. */
  lemma RowTimesCombines(v: Float4, m: Matrix)
    ensures RowTimes(v, m) == Combination(v, m)
  {
  }

  /** `RowTimes` is additive in the vector ... */
  lemma RowTimesAdd(u: Float4, w: Float4, m: Matrix)
    ensures RowTimes(Vec4.Add(u, w), m) == Vec4.Add(RowTimes(u, m), RowTimes(w, m))
  {
    WeighAdd(u, w, m.r0.x, m.r1.x, m.r2.x, m.r3.x);
    WeighAdd(u, w, m.r0.y, m.r1.y, m.r2.y, m.r3.y);
    WeighAdd(u, w, m.r0.z, m.r1.z, m.r2.z, m.r3.z);
    WeighAdd(u, w, m.r0.w, m.r1.w, m.r2.w, m.r3.w);
  }

  /** ... and homogeneous. */
  lemma RowTimesScale(u: Float4, k: real, m: Matrix)
    ensures RowTimes(MulScalar(u, k), m) == MulScalar(RowTimes(u, m), k)
  {
    WeighScale(u, k, m.r0.x, m.r1.x, m.r2.x, m.r3.x);
    WeighScale(u, k, m.r0.y, m.r1.y, m.r2.y, m.r3.y);
    WeighScale(u, k, m.r0.z, m.r1.z, m.r2.z, m.r3.z);
    WeighScale(u, k, m.r0.w, m.r1.w, m.r2.w, m.r3.w);
  }

  lemma WeighAdd(u: Float4, w: Float4, c0: real, c1: real, c2: real, c3: real)
    ensures Weigh(Vec4.Add(u, w), c0, c1, c2, c3) == Weigh(u, c0, c1, c2, c3) + Weigh(w, c0, c1, c2, c3)
  {
  }

  lemma WeighScale(u: Float4, k: real, c0: real, c1: real, c2: real, c3: real)
    ensures Weigh(MulScalar(u, k), c0, c1, c2, c3) == Weigh(u, c0, c1, c2, c3) * k
  {
  }

  /** Transforming by a product is transforming by the child and then by the
      parent: v * (child * parent) == (v * child) * parent, by linearity. */
  lemma RowTimesMultiply(v: Float4, parent: Matrix, child: Matrix)
    ensures RowTimes(v, Multiply(parent, child)) == RowTimes(RowTimes(v, child), parent)
  {
    var a, b := child, parent;
    var p0, p1, p2, p3 := MulScalar(a.r0, v.x), MulScalar(a.r1, v.y), MulScalar(a.r2, v.z), MulScalar(a.r3, v.w);
    RowTimesCombines(v, a);
    RowTimesCombines(v, Multiply(b, a));
    RowTimesAdd(Vec4.Add(Vec4.Add(p0, p1), p2), p3, b);
    RowTimesAdd(Vec4.Add(p0, p1), p2, b);
    RowTimesAdd(p0, p1, b);
    RowTimesScale(a.r0, v.x, b);
    RowTimesScale(a.r1, v.y, b);
    RowTimesScale(a.r2, v.z, b);
    RowTimesScale(a.r3, v.w, b);
  }

  /** The product is associative. */
  lemma MultiplyAssociative(a: Matrix, b: Matrix, c: Matrix)
    ensures Multiply(Multiply(a, b), c) == Multiply(a, Multiply(b, c))
  {
    RowTimesMultiply(c.r0, a, b);
    RowTimesMultiply(c.r1, a, b);
    RowTimesMultiply(c.r2, a, b);
    RowTimesMultiply(c.r3, a, b);
  }

  // ---------------------------------------------------------------- add, sub, transpose

  function Add(a: Matrix, b: Matrix): (r: Matrix)
    ensures forall i: Index, j: Index :: Entry(r, i, j) == Entry(a, i, j) + Entry(b, i, j)
  {
    Matrix(Vec4.Add(a.r0, b.r0), Vec4.Add(a.r1, b.r1), Vec4.Add(a.r2, b.r2), Vec4.Add(a.r3, b.r3))
  }

  function Sub(a: Matrix, b: Matrix): (r: Matrix)
    ensures forall i: Index, j: Index :: Entry(r, i, j) == Entry(a, i, j) - Entry(b, i, j)
  {
    Matrix(Vec4.Sub(a.r0, b.r0), Vec4.Sub(a.r1, b.r1), Vec4.Sub(a.r2, b.r2), Vec4.Sub(a.r3, b.r3))
  }

  /** Subtracting what was added gives the matrix back. */
  lemma SubUndoesAdd(a: Matrix, b: Matrix)
    ensures Sub(Add(a, b), b) == a
  {
  }

  /** `sum`: the sum of the sixteen entries. */
  function SumEntries(m: Matrix): real {
    Sum(m.r0) + Sum(m.r1) + Sum(m.r2) + Sum(m.r3)
  }

  /** `sum` is additive over `add` and `sub`; the identity sums to four. */
  lemma SumEntriesLinear(a: Matrix, b: Matrix)
    ensures SumEntries(Add(a, b)) == SumEntries(a) + SumEntries(b)
    ensures SumEntries(Sub(a, b)) == SumEntries(a) - SumEntries(b)
    ensures SumEntries(Identity()) == 4.0
  {
  }

  /** `abs`: every entry replaced by its magnitude. */
  function AbsEntries(m: Matrix): (r: Matrix)
    ensures forall i: Index, j: Index ::
              && 0.0 <= Entry(r, i, j)
              && (Entry(r, i, j) == Entry(m, i, j) || Entry(r, i, j) == -Entry(m, i, j))
  {
    Matrix(AbsLanes(m.r0), AbsLanes(m.r1), AbsLanes(m.r2), AbsLanes(m.r3))
  }

  /** `abs` is idempotent and ignores signs. */
  lemma AbsEntriesIdempotent(m: Matrix)
    ensures AbsEntries(AbsEntries(m)) == AbsEntries(m)
    ensures AbsEntries(Sub(ZeroMatrix(), m)) == AbsEntries(m)
  {
  }

  /** `transpose`: entry 4j+i of the result is entry 4i+j of the input. */
  function Transpose(m: Matrix): (r: Matrix)
    ensures forall i: Index, j: Index :: Entry(r, i, j) == Entry(m, j, i)
  {
    Matrix(Column(m, 0), Column(m, 1), Column(m, 2), Column(m, 3))
  }

  /** Transposing twice gives the matrix back. */
  lemma TransposeInvolution(m: Matrix)
    ensures Transpose(Transpose(m)) == m
  {
  }

  // ---------------------------------------------------------------- builders

  /** `fromScale(s)`: s.x, s.y, s.z on the diagonal and 1 in the corner. */
  function FromScale(s: Float4): Matrix {
    Matrix(Float4(s.x, 0.0, 0.0, 0.0), Float4(0.0, s.y, 0.0, 0.0), Float4(0.0, 0.0, s.z, 0.0), AxisW())
  }

  /** `fromShear(h)`: the unit lower-triangular matrix with h.x at entry 4,
      h.y at entry 8 and h.z at entry 9. */
  function FromShear(h: Float4): Matrix {
    Matrix(AxisX(), Float4(h.x, 1.0, 0.0, 0.0), Float4(h.y, h.z, 1.0, 0.0), AxisW())
  }

  /** `fromShearScale(h, s)`: the closed form of the shear applied after the
      scale, entry by entry. */
  function FromShearScale(h: Float4, s: Float4): Matrix {
    Matrix(Float4(s.x, 0.0, 0.0, 0.0),
           Float4(h.x * s.y, s.y, 0.0, 0.0),
           Float4(h.y * s.z, h.z * s.z, s.z, 0.0),
           AxisW())
  }

  /** `fromTranslate(t)`: the identity with t.x, t.y, t.z in the last row. */
  function FromTranslate(t: Float4): Matrix {
    Matrix(AxisX(), AxisY(), AxisZ(), Float4(t.x, t.y, t.z, 1.0))
  }

  /** `fromQuaternion(q)`: the rows are the rotated axes of q. */
  function FromQuaternion(q: Quat.Quaternion): Matrix {
    Matrix(Quat.AxisX(q), Quat.AxisY(q), Quat.AxisZ(q), AxisW())
  }

  /** `inverseFromQuaternion(q)`: the rotated axes of q written as columns. */
  function InverseFromQuaternion(q: Quat.Quaternion): Matrix {
    var ax, ay, az := Quat.AxisX(q), Quat.AxisY(q), Quat.AxisZ(q);
    Matrix(Float4(ax.x, ay.x, az.x, 0.0),
           Float4(ax.y, ay.y, az.y, 0.0),
           Float4(ax.z, ay.z, az.z, 0.0),
           AxisW())
  }

  /** `inverseFromTranslate(t)` is `fromTranslate(-t)`. */
  function InverseFromTranslate(t: Float4): Matrix {
    FromTranslate(Neg(t))
  }

  /** The reciprocal scale `div3(axisXYZ(), s)`; the host raises on a zero lane. */
  function InverseScale(s: Float4): (r: Float4)
    requires s.x != 0.0 && s.y != 0.0 && s.z != 0.0
    ensures r.x * s.x == 1.0 && r.y * s.y == 1.0 && r.z * s.z == 1.0 && r.w == 0.0
  {
    Div3(AxisXYZ(), s)
  }

  /** `inverseFromScale(s)` as the host writes it: entry 10 receives s.z itself
      instead of its reciprocal. */
  function InverseFromScaleAsWritten(s: Float4): Matrix
    requires s.x != 0.0 && s.y != 0.0 && s.z != 0.0
  {
    var inv := InverseScale(s);
    Matrix(Float4(inv.x, 0.0, 0.0, 0.0), Float4(0.0, inv.y, 0.0, 0.0), Float4(0.0, 0.0, s.z, 0.0), AxisW())
  }

  /** `inverseFromScale(s)` with the reciprocal at entry 10 as well. */
  function InverseFromScale(s: Float4): Matrix
    requires s.x != 0.0 && s.y != 0.0 && s.z != 0.0
  {
    var inv := InverseScale(s);
    Matrix(Float4(inv.x, 0.0, 0.0, 0.0), Float4(0.0, inv.y, 0.0, 0.0), Float4(0.0, 0.0, inv.z, 0.0), AxisW())
  }

  /** The shear of the inverse of a unit lower-triangular matrix:
      (-h.x, h.x h.z - h.y, -h.z). */
  function InverseShear(h: Float4): (r: Float4)
    ensures r.x + h.x == 0.0 && r.z + h.z == 0.0 && r.y + h.x * r.z + h.y == 0.0
  {
    var n := Neg(h);
    SetY(n, n.x * n.z + n.y)
  }

  /** `inverseFromShear(h)`: `fromShear` of the inverse shear. */
  function InverseFromShear(h: Float4): Matrix {
    var i := InverseShear(h);
    Matrix(AxisX(), Float4(i.x, 1.0, 0.0, 0.0), Float4(i.y, i.z, 1.0, 0.0), AxisW())
  }

  /** `inverseFromShearScale(h, s)`: the closed form of the reciprocal scale
      applied after the inverse shear; the host raises on a zero scale lane. */
  function InverseFromShearScale(h: Float4, s: Float4): Matrix
    requires s.x != 0.0 && s.y != 0.0 && s.z != 0.0
  {
    var inv, i := InverseScale(s), InverseShear(h);
    Matrix(Float4(inv.x, 0.0, 0.0, 0.0),
           Float4(i.x * inv.x, inv.y, 0.0, 0.0),
           Float4(i.y * inv.x, i.z * inv.y, inv.z, 0.0),
           AxisW())
  }

  // ---------------------------------------------------------------- builder laws

  /** The closed form is the shear applied after the scale. */
  lemma ShearScaleFactors(h: Float4, s: Float4)
    ensures FromShearScale(h, s) == Multiply(FromShear(h), FromScale(s))
  {
  }

  /** A row vector moved by `fromShearScale(h, s)` is scaled first and sheared
      after. */
  lemma ShearScaleActsInOrder(v: Float4, h: Float4, s: Float4)
    ensures RowTimes(v, FromShearScale(h, s)) == RowTimes(RowTimes(v, FromScale(s)), FromShear(h))
  {
    ShearScaleFactors(h, s);
    RowTimesMultiply(v, FromShear(h), FromScale(s));
  }

  /** `fromShear` and `inverseFromShear` are inverse for every shear. */
  lemma ShearInverse(h: Float4)
    ensures Multiply(FromShear(h), InverseFromShear(h)) == Identity()
    ensures Multiply(InverseFromShear(h), FromShear(h)) == Identity()
  {
  }

  /** `fromTranslate` and `inverseFromTranslate` are inverse for every offset. */
  lemma TranslateInverse(t: Float4)
    ensures Multiply(FromTranslate(t), InverseFromTranslate(t)) == Identity()
    ensures Multiply(InverseFromTranslate(t), FromTranslate(t)) == Identity()
  {
  }

  /** `fromScale` and the corrected `inverseFromScale` are inverse for every
      scale without a zero lane. */
  lemma ScaleInverse(s: Float4)
    requires s.x != 0.0 && s.y != 0.0 && s.z != 0.0
    ensures Multiply(FromScale(s), InverseFromScale(s)) == Identity()
    ensures Multiply(InverseFromScale(s), FromScale(s)) == Identity()
  {
  }

  /** As written, the product with `fromScale(s)` has s.z * s.z at entry 10, ... */
  lemma ScaleInverseAsWrittenEntry(s: Float4)
    requires s.x != 0.0 && s.y != 0.0 && s.z != 0.0
    ensures Flat(Multiply(FromScale(s), InverseFromScaleAsWritten(s)), 10) == s.z * s.z
  {
    var m := Multiply(FromScale(s), InverseFromScaleAsWritten(s));
    assert Flat(m, 10) == m.r2.z;
  }

  /** ... so for s = (1, 1, 2) it is 4 and the product is not the identity. */
  lemma ScaleInverseAsWrittenFails()
    ensures var s := Float4(1.0, 1.0, 2.0, 0.0);
            Flat(Multiply(FromScale(s), InverseFromScaleAsWritten(s)), 10) == 4.0
  {
    ScaleInverseAsWrittenEntry(Float4(1.0, 1.0, 2.0, 0.0));
  }

  /** The as-written product is the identity exactly when s.z * s.z == 1. */
  lemma ScaleInverseAsWritten(s: Float4)
    requires s.x != 0.0 && s.y != 0.0 && s.z != 0.0
    ensures Multiply(FromScale(s), InverseFromScaleAsWritten(s)) == Identity() <==> s.z * s.z == 1.0
    ensures Multiply(InverseFromScaleAsWritten(s), FromScale(s)) == Identity() <==> s.z * s.z == 1.0
  {
  }

  /** `fromShearScale` and `inverseFromShearScale` are inverse for every shear
      and every scale without a zero lane. */
  lemma ShearScaleInverse(h: Float4, s: Float4)
    requires s.x != 0.0 && s.y != 0.0 && s.z != 0.0
    ensures Multiply(FromShearScale(h, s), InverseFromShearScale(h, s)) == Identity()
    ensures Multiply(InverseFromShearScale(h, s), FromShearScale(h, s)) == Identity()
  {
    ShearScaleInverseRight(h, s);
    ShearScaleInverseLeft(h, s);
  }

  lemma ShearScaleInverseRight(h: Float4, s: Float4)
    requires s.x != 0.0 && s.y != 0.0 && s.z != 0.0
    ensures Multiply(FromShearScale(h, s), InverseFromShearScale(h, s)) == Identity()
  {
    var a, b := FromShearScale(h, s), InverseFromShearScale(h, s);
    var inv, i := InverseScale(s), InverseShear(h);
    assert RowTimes(b.r1, a) == AxisY() by {
      assert (i.x * inv.x) * s.x + inv.y * (h.x * s.y) == (i.x + h.x) * (inv.x * s.x) + h.x * 0.0;
    }
    assert RowTimes(b.r2, a) == AxisZ() by {
      assert (i.y * inv.x) * s.x + (i.z * inv.y) * (h.x * s.y) + inv.z * (h.y * s.z)
          == i.y + i.z * h.x + h.y;
      assert (i.z * inv.y) * s.y + inv.z * (h.z * s.z) == i.z + h.z;
    }
  }

  lemma ShearScaleInverseLeft(h: Float4, s: Float4)
    requires s.x != 0.0 && s.y != 0.0 && s.z != 0.0
    ensures Multiply(InverseFromShearScale(h, s), FromShearScale(h, s)) == Identity()
  {
    var a, b := FromShearScale(h, s), InverseFromShearScale(h, s);
    var inv, i := InverseScale(s), InverseShear(h);
    assert RowTimes(a.r1, b) == AxisY() by {
      assert (h.x * s.y) * inv.x + s.y * (i.x * inv.x) == (h.x + i.x) * (s.y * inv.x);
    }
    assert RowTimes(a.r2, b) == AxisZ() by {
      assert (h.y * s.z) * inv.x + (h.z * s.z) * (i.x * inv.x) + s.z * (i.y * inv.x)
          == (h.y + h.z * i.x + i.y) * (s.z * inv.x);
      assert (h.z * s.z) * inv.y + s.z * (i.z * inv.y) == (h.z + i.z) * (s.z * inv.y);
    }
  }

  /** `inverseFromQuaternion(q)` is the transpose of `fromQuaternion(q)` for every q. */
  lemma InverseFromQuaternionTransposes(q: Quat.Quaternion)
    ensures InverseFromQuaternion(q) == Transpose(FromQuaternion(q))
  {
  }

  /** The rotation matrix of the conjugate is the transpose: its rows are the
      columns of `fromQuaternion(q)`. */
  lemma InverseFromQuaternionConjugates(q: Quat.Quaternion)
    ensures InverseFromQuaternion(q) == FromQuaternion(Quat.Conjugate(q))
    ensures FromQuaternion(q) == InverseFromQuaternion(Quat.Conjugate(q))
  {
    var c := Quat.Conjugate(q);
    ConjugateAxisX(q.x, q.y, q.z, q.w);
    ConjugateAxisY(q.x, q.y, q.z, q.w);
    ConjugateAxisZ(q.x, q.y, q.z, q.w);
    assert q == Float4(q.x, q.y, q.z, q.w);
    assert c == Float4(-q.x, -q.y, -q.z, q.w);
  }

  /** The axes of the conjugate are the columns of `fromQuaternion`. */
  lemma ConjugateAxisX(x: real, y: real, z: real, w: real)
    ensures var q := Float4(x, y, z, w);
            Quat.AxisX(Float4(-x, -y, -z, w)) == Float4(Quat.AxisX(q).x, Quat.AxisY(q).x, Quat.AxisZ(q).x, 0.0)
  {
  }

  lemma ConjugateAxisY(x: real, y: real, z: real, w: real)
    ensures var q := Float4(x, y, z, w);
            Quat.AxisY(Float4(-x, -y, -z, w)) == Float4(Quat.AxisX(q).y, Quat.AxisY(q).y, Quat.AxisZ(q).y, 0.0)
  {
  }

  lemma ConjugateAxisZ(x: real, y: real, z: real, w: real)
    ensures var q := Float4(x, y, z, w);
            Quat.AxisZ(Float4(-x, -y, -z, w)) == Float4(Quat.AxisX(q).z, Quat.AxisY(q).z, Quat.AxisZ(q).z, 0.0)
  {
  }

  /** A row vector times `inverseFromQuaternion(q)`: its dot products with the axes of q. */
  lemma RowTimesInverseFromQuaternion(v: Float4, q: Quat.Quaternion)
    ensures RowTimes(v, InverseFromQuaternion(q))
         == Float4(Dot3(v, Quat.AxisX(q)), Dot3(v, Quat.AxisY(q)), Dot3(v, Quat.AxisZ(q)), v.w)
  {
  }

  /** For a unit q, rotating and then rotating back is the identity, because
      the axes of q are orthonormal. */
  lemma QuaternionInverseAfter(q: Quat.Quaternion)
    requires Dot4(q, q) == 1.0
    ensures Multiply(InverseFromQuaternion(q), FromQuaternion(q)) == Identity()
  {
    var ax, ay, az := Quat.AxisX(q), Quat.AxisY(q), Quat.AxisZ(q);
    Quat.AxesOrthonormal(q);
    RowTimesInverseFromQuaternion(ax, q);
    RowTimesInverseFromQuaternion(ay, q);
    RowTimesInverseFromQuaternion(az, q);
    RowTimesInverseFromQuaternion(AxisW(), q);
    DotSymmetric(az, ax);
    DotSymmetric(ay, ax);
    DotSymmetric(az, ay);
  }

  lemma DotSymmetric(a: Float4, b: Float4)
    ensures Dot3(a, b) == Dot3(b, a)
  {
  }

  /** `fromQuaternion(q)` and `inverseFromQuaternion(q)` multiply to the
      identity in both orders when q is a unit quaternion; the second order is
      the first one for the conjugate. */
  lemma QuaternionInverse(q: Quat.Quaternion)
    requires Dot4(q, q) == 1.0
    ensures Multiply(InverseFromQuaternion(q), FromQuaternion(q)) == Identity()
    ensures Multiply(FromQuaternion(q), InverseFromQuaternion(q)) == Identity()
  {
    QuaternionInverseAfter(q);
    var c := Quat.Conjugate(q);
    assert Dot4(c, c) == Dot4(q, q);
    QuaternionInverseAfter(c);
    InverseFromQuaternionConjugates(q);
  }

  // ---------------------------------------------------------------- decomposition

  /** `toTranslate(m)`: the last row with its w lane cleared. */
  function ToTranslate(m: Matrix): (r: Float4)
    ensures r.w == 0.0
  {
    SetW0(m.r3)
  }

  /** The offset survives a round trip through `fromTranslate`, minus its w lane. */
  lemma ToTranslateOfFromTranslate(t: Float4)
    ensures ToTranslate(FromTranslate(t)) == SetW0(t)
  {
  }

  /** The pairwise `dot3` products of the first three rows, which is all that
      `toShearScale` reads of them besides the sign of their triple product. */
  datatype Gram = Gram(xx: real, yy: real, zz: real, xy: real, xz: real, yz: real)

  function GramOf(m: Matrix): Gram {
    Gram(Dot3(m.r0, m.r0), Dot3(m.r1, m.r1), Dot3(m.r2, m.r2),
         Dot3(m.r0, m.r1), Dot3(m.r0, m.r2), Dot3(m.r1, m.r2))
  }

  /** The rows are left-handed: their triple product is negative. */
  predicate Flipped(m: Matrix) {
    Dot3(CrossFormula(m.r0, m.r1), m.r2) < 0.0
  }

  /** `toShearScale(m)`: the shear and scale of the rows, read as
      scale * shear * rotation. `None` where the host divides by zero: a zero
      first row, or a zero scale lane. */
  function ToShearScale(sqrt: real -> real, m: Matrix): (r: Option<(Float4, Float4)>)
    requires Scalar.IsSqrt(sqrt)
    ensures Dot3(m.r0, m.r0) == 0.0 ==> r.None?
    ensures r.Some? ==> Shaped(r.value) && (r.value.1.x < 0.0 <==> Flipped(m))
  {
    ShearScaleOfGram(sqrt, GramOf(m), Flipped(m))
  }

  /** The arithmetic of `toShearScale` on the row products; `flip` negates the
      x scale. Every division is guarded by its own divisor. */
  function ShearScaleOfGram(sqrt: real -> real, g: Gram, flip: bool): (r: Option<(Float4, Float4)>)
    requires Scalar.IsSqrt(sqrt)
    ensures g.xx == 0.0 ==> r.None?
    ensures r.Some? ==> Shaped(r.value) && r.value.1.x * r.value.1.x == g.xx && (r.value.1.x < 0.0 <==> flip)
  {
    if g.xx == 0.0 then None
    else ShearScaleFromXY(sqrt, g, SignedRoot(sqrt, g.xx, flip), ScaleY(sqrt, g))
  }

  /** A shear with zero w lane and a scale whose x lane is nonzero and whose
      y, z lanes are positive, and whose w lane is zero. */
  predicate Shaped(p: (Float4, Float4)) {
    && p.0.w == 0.0 && p.1.w == 0.0
    && p.1.x != 0.0 && 0.0 < p.1.y && 0.0 < p.1.z
  }

  /** The steps of `toShearScale` after the x and y scales; `None` where the
      host divides by a zero scale. */
  function ShearScaleFromXY(sqrt: real -> real, g: Gram, sclX: real, sclY: real): (r: Option<(Float4, Float4)>)
    requires Scalar.IsSqrt(sqrt) && 0.0 <= sclY
    ensures sclX == 0.0 || sclY == 0.0 ==> r.None?
    ensures r.Some? ==> Shaped(r.value) && r.value.1.x == sclX
  {
    if sclX == 0.0 || sclY == 0.0 then None
    else
      var shrYZ := ShearYZ(g, sclX, sclY);
      ShearScaleFromZ(g, sclX, sclY, shrYZ, ScaleZ(sqrt, g, shrYZ))
  }

  /** The last step of `toShearScale`, once every scale lane is known. */
  function ShearScaleFromZ(g: Gram, sclX: real, sclY: real, shrYZ: real, sclZ: real): (r: Option<(Float4, Float4)>)
    requires sclX != 0.0 && 0.0 < sclY && 0.0 <= sclZ
    ensures sclZ == 0.0 <==> r.None?
    ensures r.Some? ==> Shaped(r.value) && r.value.1 == SetXYZ(sclX, sclY, sclZ)
  {
    if sclZ == 0.0 then None
    else Some((SetXYZ(Over(g.xy, sclX, sclY), Over(g.xz, sclX, sclZ), shrYZ / sclZ), SetXYZ(sclX, sclY, sclZ)))
  }

  /** n / (a * b); the host divides by the product of two scale lanes. */
  function Over(n: real, a: real, b: real): real
    requires a != 0.0 && b != 0.0
  {
    Scalar.NonzeroProduct(a, b);
    n / (a * b)
  }

  /** The y scale: the root of what is left of the second row's square once
      its part along the first row is removed (zero for a zero first row,
      where `toShearScale` has already failed). */
  function ScaleY(sqrt: real -> real, g: Gram): (r: real)
    requires Scalar.IsSqrt(sqrt)
    ensures 0.0 <= r
  {
    Scalar.SqrtClamp(sqrt, ResidualY(g))
  }

  function ResidualY(g: Gram): real {
    if g.xx == 0.0 then 0.0 else g.yy - g.xy * g.xy / g.xx
  }

  /** The yz shear times the z scale, from the x and y scales. */
  function ShearYZ(g: Gram, sclX: real, sclY: real): real
    requires sclX != 0.0 && sclY != 0.0
  {
    Over(sclX * g.yz - Over(g.xy, sclX, sclY) * sclY * g.xz, sclX, sclY)
  }

  /** The z scale: the root of what is left of the third row's square (zero
      for a zero first row, as in `ScaleY`). */
  function ScaleZ(sqrt: real -> real, g: Gram, shrYZ: real): (r: real)
    requires Scalar.IsSqrt(sqrt)
    ensures 0.0 <= r
  {
    Scalar.SqrtClamp(sqrt, ResidualZ(g, shrYZ))
  }

  function ResidualZ(g: Gram, shrYZ: real): real {
    if g.xx == 0.0 then 0.0 else g.zz - g.xz * g.xz / g.xx - shrYZ * shrYZ
  }

  /** The row products of `fromShearScale(h, s)`. */
  function ShearScaleGram(h: Float4, s: Float4): Gram {
    Gram(s.x * s.x, (h.x * s.y) * (h.x * s.y) + s.y * s.y,
         (h.y * s.z) * (h.y * s.z) + (h.z * s.z) * (h.z * s.z) + s.z * s.z,
         s.x * (h.x * s.y), s.x * (h.y * s.z), (h.x * s.y) * (h.y * s.z) + s.y * (h.z * s.z))
  }

  lemma GramOfShearScale(h: Float4, s: Float4)
    ensures GramOf(FromShearScale(h, s)) == ShearScaleGram(h, s)
  {
  }

  /** `Flipped` is the host's test, `dot3(cross3(row 0, row 1), row 2) < 0`. */
  lemma FlippedIsCrossTest(m: Matrix)
    ensures Flipped(m) <==> Dot3(Cross3(m.r0, m.r1), m.r2) < 0.0
  {
  }

  /** Rows in lower-triangular form, with positive second and third diagonal
      entries, are left-handed exactly when the first diagonal entry is negative. */
  lemma LowerTriangularFlipped(m: Matrix)
    requires m.r0.y == 0.0 && m.r0.z == 0.0 && m.r1.z == 0.0 && 0.0 < m.r1.y && 0.0 < m.r2.z
    ensures Flipped(m) <==> m.r0.x < 0.0
  {
    CrossOfLowerRows(m.r0, m.r1, m.r2);
    TripleSign(Dot3(CrossFormula(m.r0, m.r1), m.r2), m.r0.x, m.r1.y, m.r2.z);
  }

  lemma CrossOfLowerRows(a: Float4, b: Float4, c: Float4)
    requires a.y == 0.0 && a.z == 0.0 && b.z == 0.0
    ensures Dot3(CrossFormula(a, b), c) == (a.x * b.y) * c.z
  {
  }

  lemma TripleSign(t: real, a: real, b: real, c: real)
    requires 0.0 < b && 0.0 < c && t == (a * b) * c
    ensures t < 0.0 <==> a < 0.0
  {
    Scalar.PositiveProduct(b, c);
    assert (a * b) * c == a * (b * c);
    if a < 0.0 {
      Scalar.PositiveProduct(-a, b * c);
    } else if 0.0 < a {
      Scalar.PositiveProduct(a, b * c);
    }
  }

  /** x / y is z when x is z * y. */
  lemma DivExact(x: real, y: real, z: real)
    requires y != 0.0 && x == z * y
    ensures x / y == z
  {
  }

  /** The x scale: the root of the first row's square, negated when `flip`. */
  function SignedRoot(sqrt: real -> real, xx: real, flip: bool): (r: real)
    requires Scalar.IsSqrt(sqrt)
    ensures xx <= 0.0 ==> r == 0.0
    ensures 0.0 <= xx ==> r * r == xx
    ensures 0.0 < xx ==> r != 0.0 && (r < 0.0 <==> flip)
  {
    var root := Scalar.SqrtClamp(sqrt, xx);
    if flip then -root else root
  }

  /** The signed root of a * a is a when the sign is read from a. */
  lemma SignedRootOfSquare(sqrt: real -> real, a: real, t: real)
    requires Scalar.IsSqrt(sqrt) && t == a * a
    ensures SignedRoot(sqrt, t, a < 0.0) == a
  {
    var root := Scalar.SqrtClamp(sqrt, t);
    assert Scalar.Abs(a) * Scalar.Abs(a) == t;
    Scalar.RootUnique(root, Scalar.Abs(a));
  }

  /** The y scale of the row products of `fromShearScale(h, s)` is s.y. */
  lemma ScaleYOfGram(sqrt: real -> real, h: Float4, s: Float4)
    requires Scalar.IsSqrt(sqrt) && s.x != 0.0 && 0.0 < s.y
    ensures ScaleY(sqrt, ShearScaleGram(h, s)) == s.y
  {
    ResidualYOfGram(h, s);
    Scalar.SqrtClampOfSquare(sqrt, ResidualY(ShearScaleGram(h, s)), s.y);
  }

  lemma ResidualYOfGram(h: Float4, s: Float4)
    requires s.x != 0.0
    ensures ResidualY(ShearScaleGram(h, s)) == s.y * s.y
  {
    var g := ShearScaleGram(h, s);
    Scalar.SquarePositive(s.x, g.xx);
    ReducedY(g.xx, g.yy, g.xy, s.x, h.x, s.y);
  }

  lemma ReducedY(xx: real, yy: real, xy: real, sx: real, hx: real, sy: real)
    requires xx != 0.0
    requires xx == sx * sx
    requires yy == (hx * sy) * (hx * sy) + sy * sy
    requires xy == sx * (hx * sy)
    ensures yy - xy * xy / xx == sy * sy
  {
    assert xy * xy == ((hx * sy) * (hx * sy)) * xx;
    DivExact(xy * xy, xx, (hx * sy) * (hx * sy));
  }

  /** Dividing sx * (hx * sy) by the two scales leaves the shear hx. */
  lemma OverScales(n: real, sx: real, sy: real, hx: real)
    requires sx != 0.0 && sy != 0.0 && n == sx * (hx * sy)
    ensures Over(n, sx, sy) == hx
  {
    Scalar.NonzeroProduct(sx, sy);
    DivExact(n, sx * sy, hx);
  }

  /** The yz shear step of the row products of `fromShearScale(h, s)`. */
  lemma ShearYZOfGram(h: Float4, s: Float4)
    requires s.x != 0.0 && s.y != 0.0
    ensures ShearYZ(ShearScaleGram(h, s), s.x, s.y) == h.z * s.z
  {
    var g := ShearScaleGram(h, s);
    OverScales(g.xy, s.x, s.y, h.x);
    ShearYZScaled(g.yz, g.xz, s.x, s.y, s.z, h.x, h.y, h.z);
  }

  lemma ShearYZScaled(yz: real, xz: real, sx: real, sy: real, sz: real, hx: real, hy: real, hz: real)
    requires sx != 0.0 && sy != 0.0
    requires yz == (hx * sy) * (hy * sz) + sy * (hz * sz) && xz == sx * (hy * sz)
    ensures Over(sx * yz - hx * sy * xz, sx, sy) == hz * sz
  {
    assert sx * yz - hx * sy * xz == sx * ((hz * sz) * sy);
    OverScales(sx * yz - hx * sy * xz, sx, sy, hz * sz);
  }

  /** The z scale of the row products of `fromShearScale(h, s)` is s.z. */
  lemma ScaleZOfGram(sqrt: real -> real, h: Float4, s: Float4)
    requires Scalar.IsSqrt(sqrt) && s.x != 0.0 && 0.0 < s.z
    ensures ScaleZ(sqrt, ShearScaleGram(h, s), h.z * s.z) == s.z
  {
    ResidualZOfGram(h, s);
    Scalar.SqrtClampOfSquare(sqrt, ResidualZ(ShearScaleGram(h, s), h.z * s.z), s.z);
  }

  lemma ResidualZOfGram(h: Float4, s: Float4)
    requires s.x != 0.0
    ensures ResidualZ(ShearScaleGram(h, s), h.z * s.z) == s.z * s.z
  {
    var g := ShearScaleGram(h, s);
    Scalar.SquarePositive(s.x, g.xx);
    ReducedZ(g.xx, g.zz, g.xz, s.x, h.y, h.z, s.z);
  }

  lemma ReducedZ(xx: real, zz: real, xz: real, sx: real, hy: real, hz: real, sz: real)
    requires xx != 0.0 && xx == sx * sx && xz == sx * (hy * sz)
    requires zz == (hy * sz) * (hy * sz) + (hz * sz) * (hz * sz) + sz * sz
    ensures zz - xz * xz / xx - (hz * sz) * (hz * sz) == sz * sz
  {
    assert xz * xz == ((hy * sz) * (hy * sz)) * xx;
    DivExact(xz * xz, xx, (hy * sz) * (hy * sz));
  }

  /** The arithmetic of `toShearScale` recovers the shear and a scale with
      positive y and z lanes from the row products of `fromShearScale`. */
  lemma ShearScaleOfGramRoundTrip(sqrt: real -> real, h: Float4, s: Float4)
    requires Scalar.IsSqrt(sqrt)
    requires s.x != 0.0 && 0.0 < s.y && 0.0 < s.z
    ensures ShearScaleOfGram(sqrt, ShearScaleGram(h, s), s.x < 0.0) == Some((SetW0(h), SetW0(s)))
  {
    var g := ShearScaleGram(h, s);
    Scalar.SquarePositive(s.x, g.xx);
    SignedRootOfSquare(sqrt, s.x, g.xx);
    ScaleYOfGram(sqrt, h, s);
    ShearYZOfGram(h, s);
    ScaleZOfGram(sqrt, h, s);
    LastStepOfGram(h, s);
    assert ShearScaleOfGram(sqrt, g, s.x < 0.0) == ShearScaleFromXY(sqrt, g, s.x, s.y);
    assert ShearScaleFromXY(sqrt, g, s.x, s.y) == ShearScaleFromZ(g, s.x, s.y, h.z * s.z, s.z);
  }

  /** With the true scales, the last step of `toShearScale` returns the shear. */
  lemma LastStepOfGram(h: Float4, s: Float4)
    requires s.x != 0.0 && 0.0 < s.y && 0.0 < s.z
    ensures ShearScaleFromZ(ShearScaleGram(h, s), s.x, s.y, h.z * s.z, s.z) == Some((SetW0(h), SetW0(s)))
  {
    var g := ShearScaleGram(h, s);
    OverScales(g.xy, s.x, s.y, h.x);
    OverScales(g.xz, s.x, s.z, h.y);
    DivExact(h.z * s.z, s.z, h.z);
  }

  /** `toShearScale` inverts `fromShearScale` when the y and z scales are
      positive; the sign of the x scale is recovered from the handedness. */
  lemma ToShearScaleOfShearScale(sqrt: real -> real, h: Float4, s: Float4)
    requires Scalar.IsSqrt(sqrt)
    requires s.x != 0.0 && 0.0 < s.y && 0.0 < s.z
    ensures ToShearScale(sqrt, FromShearScale(h, s)) == Some((SetW0(h), SetW0(s)))
  {
    GramOfShearScale(h, s);
    LowerTriangularFlipped(FromShearScale(h, s));
    ShearScaleOfGramRoundTrip(sqrt, h, s);
  }

  // ---------------------------------------------------------------- compose and inverse

  /** The last column is (0, 0, 0, 1): the matrix maps points to points. */
  predicate Affine(m: Matrix) {
    m.r0.w == 0.0 && m.r1.w == 0.0 && m.r2.w == 0.0 && m.r3.w == 1.0
  }

  /** Affine matrices are closed under the product; the last row of the
      product is the child's last row moved by the parent. */
  lemma MultiplyAffine(parent: Matrix, child: Matrix)
    requires Affine(parent) && Affine(child)
    ensures Affine(Multiply(parent, child))
  {
  }

  /** The shear `compose` uses when only a scale is given: none. */
  function ShearOr(h: Option<Float4>): Float4 {
    if h.Some? then h.value else Zero()
  }

  /** The scale `compose` uses when only a shear is given: unit. */
  function ScaleOr(s: Option<Float4>): Float4 {
    if s.Some? then s.value else One()
  }

  /** `compose(translate, quaternion, shear, scale)`: start from the identity
      (or the translation, when given), then take the rotation and then the
      shear-scale as children, each only when given. A vector moved by the
      result is sheared and scaled first, then rotated, then translated. */
  function Compose(t: Option<Float4>, q: Option<Quat.Quaternion>, h: Option<Float4>, s: Option<Float4>): (r: Matrix)
    ensures t.None? && q.None? && h.None? && s.None? ==> r == Identity()
    ensures Affine(r)
  {
    var trn := if t.Some? then FromTranslate(t.value) else Identity();
    var rot := if q.Some? then Multiply(trn, FromQuaternion(q.value)) else trn;
    if h.Some? || s.Some? then Multiply(rot, FromShearScale(ShearOr(h), ScaleOr(s))) else rot
  }

  /** Each factor of `compose`, the identity when its argument is missing. */
  function TranslatePart(t: Option<Float4>): Matrix {
    if t.Some? then FromTranslate(t.value) else Identity()
  }

  function RotationPart(q: Option<Quat.Quaternion>): Matrix {
    if q.Some? then FromQuaternion(q.value) else Identity()
  }

  function ShearScalePart(h: Option<Float4>, s: Option<Float4>): Matrix {
    FromShearScale(ShearOr(h), ScaleOr(s))
  }

  /** No shear and a unit scale build the identity. */
  lemma DefaultShearScale()
    ensures FromShearScale(Zero(), One()) == Identity()
  {
  }

  /** `compose` is always the same product of three factors: skipping a missing
      part is multiplying by the identity. */
  lemma ComposeIsProduct(t: Option<Float4>, q: Option<Quat.Quaternion>, h: Option<Float4>, s: Option<Float4>)
    ensures Compose(t, q, h, s) == Multiply(Multiply(TranslatePart(t), RotationPart(q)), ShearScalePart(h, s))
  {
    var a := Multiply(TranslatePart(t), RotationPart(q));
    MultiplyIdentity(TranslatePart(t));
    if h.None? && s.None? {
      DefaultShearScale();
      MultiplyIdentity(a);
    }
  }

  /** A vector moved by a composed matrix is sheared and scaled, then rotated,
      then translated. */
  lemma ComposeActsInOrder(v: Float4, t: Option<Float4>, q: Option<Quat.Quaternion>, h: Option<Float4>, s: Option<Float4>)
    ensures RowTimes(v, Compose(t, q, h, s))
         == RowTimes(RowTimes(RowTimes(v, ShearScalePart(h, s)), RotationPart(q)), TranslatePart(t))
  {
    ComposeIsProduct(t, q, h, s);
    RowTimesMultiply(v, Multiply(TranslatePart(t), RotationPart(q)), ShearScalePart(h, s));
    RowTimesMultiply(RowTimes(v, ShearScalePart(h, s)), TranslatePart(t), RotationPart(q));
  }

  /** The translation row of a composed matrix is the translate argument. */
  lemma ComposeTranslate(t: Float4, q: Option<Quat.Quaternion>, h: Option<Float4>, s: Option<Float4>)
    ensures ToTranslate(Compose(Some(t), q, h, s)) == SetW0(t)
  {
    ComposeActsInOrder(AxisW(), Some(t), q, h, s);
    RowTimesAxisW(Compose(Some(t), q, h, s));
    RowTimesAxisW(ShearScalePart(h, s));
    RowTimesAxisW(RotationPart(q));
    RowTimesAxisW(TranslatePart(Some(t)));
  }

  /** The last axis picks the last row. */
  lemma RowTimesAxisW(m: Matrix)
    ensures RowTimes(AxisW(), m) == m.r3
  {
  }

  /** `inverseTransform(m)`: split off the shear-scale with `toShearScale`,
      read the translation from what is left, and invert the three parts in
      the opposite order; the rotation is inverted by transposing it. `None`
      where `toShearScale` fails. */
  function InverseTransform(sqrt: real -> real, m: Matrix): (r: Option<Matrix>)
    requires Scalar.IsSqrt(sqrt)
    ensures r.None? <==> ToShearScale(sqrt, m).None?
  {
    match ToShearScale(sqrt, m)
    case None => None
    case Some((shr, scl)) => Some(InverseAfterShearScale(m, InverseFromShearScale(shr, scl)))
  }

  /** The rest of `inverseTransform` once the inverse shear-scale is known:
      `multiply(m, it)` leaves rotation and translation, which are inverted and
      multiplied in the opposite order. */
  function InverseAfterShearScale(m: Matrix, invShrScl: Matrix): Matrix
  {
    var rotTrn := Multiply(m, invShrScl);
    var trn := ToTranslate(rotTrn);
    var rot := SetRow(rotTrn, AxisW(), 3);
    Multiply(Multiply(invShrScl, Transpose(rot)), FromTranslate(Neg(trn)))
  }

  /** Where `multiply(m, inv)`, inv the inverse shear-scale, is a pure
      translation, the rest of `inverseTransform` applies the inverse
      translation first and the inverse shear-scale after it. */
  lemma InverseAfterTranslation(m: Matrix, inv: Matrix, t: Float4)
    requires Multiply(m, inv) == FromTranslate(t)
    ensures InverseAfterShearScale(m, inv) == Multiply(inv, InverseFromTranslate(t))
  {
    assert SetRow(FromTranslate(t), AxisW(), 3) == Identity();
    assert Transpose(Identity()) == Identity();
    MultiplyIdentity(inv);
    assert FromTranslate(Neg(ToTranslate(FromTranslate(t)))) == InverseFromTranslate(t);
  }

  /** Multiplying by a matrix and then by its right inverse changes nothing. */
  lemma CancelRight(x: Matrix, a: Matrix, b: Matrix)
    requires Multiply(a, b) == Identity()
    ensures Multiply(Multiply(x, a), b) == x
  {
    MultiplyAssociative(x, a, b);
    MultiplyIdentity(x);
  }

  lemma CancelLeft(x: Matrix, a: Matrix, b: Matrix)
    requires Multiply(a, b) == Identity()
    ensures Multiply(a, Multiply(b, x)) == x
  {
    MultiplyAssociative(a, b, x);
    MultiplyIdentity(x);
  }

  /** The inverse of a product is the product of the inverses in the opposite order. */
  lemma ProductInverse(a: Matrix, ia: Matrix, b: Matrix, ib: Matrix)
    requires Multiply(a, ia) == Identity() && Multiply(ia, a) == Identity()
    requires Multiply(b, ib) == Identity() && Multiply(ib, b) == Identity()
    ensures Multiply(Multiply(a, b), Multiply(ib, ia)) == Identity()
    ensures Multiply(Multiply(ib, ia), Multiply(a, b)) == Identity()
  {
    MultiplyAssociative(Multiply(a, b), ib, ia);
    CancelRight(a, b, ib);
    MultiplyAssociative(ib, ia, Multiply(a, b));
    CancelLeft(b, ia, a);
  }

  /** `toShearScale` reads only the first three rows. */
  lemma ToShearScaleReadsRows(sqrt: real -> real, a: Matrix, b: Matrix)
    requires Scalar.IsSqrt(sqrt) && a.r0 == b.r0 && a.r1 == b.r1 && a.r2 == b.r2
    ensures ToShearScale(sqrt, a) == ToShearScale(sqrt, b)
  {
  }

  /** Translating after a shear-scale only replaces the last row. */
  lemma TranslatedShearScale(t: Float4, h: Float4, s: Float4)
    ensures Multiply(FromTranslate(t), FromShearScale(h, s)) == FromShearScale(h, s).(r3 := SetW1(t))
  {
  }

  /** `compose(t, None, h, s)` is the shear-scale followed by the translation;
      the w lanes of the shear and the scale are never read. */
  lemma ComposeUnrotated(t: Float4, h: Float4, s: Float4)
    ensures Compose(Some(t), None, Some(h), Some(s)) == Multiply(FromTranslate(t), FromShearScale(SetW0(h), SetW0(s)))
  {
    assert FromShearScale(h, s) == FromShearScale(SetW0(h), SetW0(s));
  }

  /** A matrix without rotation, `compose(t, None, h, s)`, hands `toShearScale`
      back its shear and scale. */
  lemma UnrotatedShearScale(sqrt: real -> real, t: Float4, h: Float4, s: Float4)
    requires Scalar.IsSqrt(sqrt) && s.x != 0.0 && 0.0 < s.y && 0.0 < s.z
    ensures ToShearScale(sqrt, Compose(Some(t), None, Some(h), Some(s))) == Some((SetW0(h), SetW0(s)))
  {
    TranslatedShearScale(t, h, s);
    ToShearScaleReadsRows(sqrt, Compose(Some(t), None, Some(h), Some(s)), FromShearScale(h, s));
    ToShearScaleOfShearScale(sqrt, h, s);
  }

  /** On a matrix without rotation, `inverseTransform` applies the
      inverse translation first and the inverse shear-scale after it. */
  lemma UnrotatedInverseTransform(sqrt: real -> real, t: Float4, h: Float4, s: Float4)
    requires Scalar.IsSqrt(sqrt) && s.x != 0.0 && 0.0 < s.y && 0.0 < s.z
    ensures InverseTransform(sqrt, Compose(Some(t), None, Some(h), Some(s)))
         == Some(Multiply(InverseFromShearScale(SetW0(h), SetW0(s)), InverseFromTranslate(t)))
  {
    var h0, s0 := SetW0(h), SetW0(s);
    var m := Compose(Some(t), None, Some(h), Some(s));
    var inv := InverseFromShearScale(h0, s0);
    UnrotatedShearScale(sqrt, t, h, s);
    ComposeUnrotated(t, h, s);
    ShearScaleInverse(h0, s0);
    CancelRight(FromTranslate(t), FromShearScale(h0, s0), inv);
    InverseAfterTranslation(m, inv, t);
  }

  /** `inverseTransform` inverts every matrix built by `compose` from a
      translation, a shear and a scale whose y and z lanes are positive and
      whose x lane is nonzero: the result is a two-sided inverse. */
  lemma InverseTransformUnrotated(sqrt: real -> real, t: Float4, h: Float4, s: Float4)
    requires Scalar.IsSqrt(sqrt) && s.x != 0.0 && 0.0 < s.y && 0.0 < s.z
    ensures var m := Compose(Some(t), None, Some(h), Some(s));
            var r := InverseTransform(sqrt, m);
            r.Some? && Multiply(m, r.value) == Identity() && Multiply(r.value, m) == Identity()
  {
    var h0, s0 := SetW0(h), SetW0(s);
    UnrotatedInverseTransform(sqrt, t, h, s);
    ComposeUnrotated(t, h, s);
    ShearScaleInverse(h0, s0);
    TranslateInverse(t);
    ProductInverse(FromTranslate(t), InverseFromTranslate(t), FromShearScale(h0, s0), InverseFromShearScale(h0, s0));
  }
}

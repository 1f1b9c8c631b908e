/** Moving vectors and positions between local and world space, by a matrix
    (row vectors times the rows of the matrix) or by a quaternion (the sandwich
    q * v * conjugate(q)). */
module Transform {
  import Scalar
  import opened Vec4
  import Quat
  import Mat
  import opened Optional

  // ---------------------------------------------------------------- by matrix

  /** `toWorldVectorByMatrix(v, m)`: the first three rows weighted by the x, y
      and z lanes of v; the w lane of v and the translation row are not read. */
  function ToWorldVectorByMatrix(v: Float4, m: Mat.Matrix): (r: Float4)
    ensures r == Mat.RowTimes(SetW0(v), m)
    ensures Mat.Affine(m) ==> r.w == 0.0
  {
    var vX := MulScalar(m.r0, v.x);
    var vY := MulScalar(m.r1, v.y);
    var vZ := MulScalar(m.r2, v.z);
    Mat.RowTimesCombines(SetW0(v), m);
    Add(Add(vX, vY), vZ)
  }

  /** A vector ignores its own w lane and the translation row. */
  lemma WorldVectorIgnoresTranslation(v: Float4, m: Mat.Matrix, t: Float4)
    ensures ToWorldVectorByMatrix(v, m) == ToWorldVectorByMatrix(SetW0(v), m.(r3 := t))
  {
  }

  /** The identity keeps the x, y and z lanes and clears w. */
  lemma WorldVectorByIdentity(v: Float4)
    ensures ToWorldVectorByMatrix(v, Mat.Identity()) == SetW0(v)
  {
  }

  /** `toWorldPositionByMatrix(v, m)`: the vector part moved by the
      translation row, which is v with w set to one, times m; for an affine
      matrix the result has w one. */
  function ToWorldPositionByMatrix(v: Float4, m: Mat.Matrix): (r: Float4)
    ensures r == Mat.RowTimes(SetW1(v), m)
    ensures Mat.Affine(m) ==> r.w == 1.0
  {
    Add(m.r3, ToWorldVectorByMatrix(v, m))
  }

  /** A translation matrix adds the translation to the position. */
  lemma WorldPositionByTranslate(v: Float4, t: Float4)
    ensures ToWorldPositionByMatrix(v, Mat.FromTranslate(t)) == Float4(v.x + t.x, v.y + t.y, v.z + t.z, 1.0)
  {
  }

  /** `toLocalVectorByMatrix(v, m)`: the world-vector map of `inverseTransform(m)`;
      `None` where the inverse fails. */
  function ToLocalVectorByMatrix(sqrt: real -> real, v: Float4, m: Mat.Matrix): (r: Option<Float4>)
    requires Scalar.IsSqrt(sqrt)
    ensures r.None? <==> Mat.ToShearScale(sqrt, m).None?
    ensures r.Some? ==> r.value == Mat.RowTimes(SetW0(v), Mat.InverseTransform(sqrt, m).value)
  {
    match Mat.InverseTransform(sqrt, m)
    case None => None
    case Some(inv) => Some(ToWorldVectorByMatrix(v, inv))
  }

  /** `toLocalPositionByMatrix(v, m)`: the world-position map of `inverseTransform(m)`. */
  function ToLocalPositionByMatrix(sqrt: real -> real, v: Float4, m: Mat.Matrix): (r: Option<Float4>)
    requires Scalar.IsSqrt(sqrt)
    ensures r.None? <==> Mat.ToShearScale(sqrt, m).None?
    ensures r.Some? ==> r.value == Mat.RowTimes(SetW1(v), Mat.InverseTransform(sqrt, m).value)
  {
    match Mat.InverseTransform(sqrt, m)
    case None => None
    case Some(inv) => Some(ToWorldPositionByMatrix(v, inv))
  }

  /** A row vector times the identity is itself. */
  lemma RowTimesIdentity(v: Float4)
    ensures Mat.RowTimes(v, Mat.Identity()) == v
  {
  }

  /** The matrix that `inverseTransform` returns for a matrix without rotation
      keeps the last column (0, 0, 0, 1). */
  lemma UnrotatedInverseAffine(sqrt: real -> real, t: Float4, h: Float4, s: Float4)
    requires Scalar.IsSqrt(sqrt) && s.x != 0.0 && 0.0 < s.y && 0.0 < s.z
    ensures var r := Mat.InverseTransform(sqrt, Mat.Compose(Some(t), None, Some(h), Some(s)));
            r.Some? && Mat.Affine(r.value)
  {
    var h0, s0 := SetW0(h), SetW0(s);
    Mat.UnrotatedInverseTransform(sqrt, t, h, s);
    Mat.MultiplyAffine(Mat.InverseFromShearScale(h0, s0), Mat.InverseFromTranslate(t));
  }

  /** Through an affine matrix and then its affine left inverse, a position
      comes back (with w one) ... */
  lemma PositionThereAndBack(v: Float4, m: Mat.Matrix, inv: Mat.Matrix)
    requires Mat.Affine(m) && Mat.Affine(inv) && Mat.Multiply(inv, m) == Mat.Identity()
    ensures ToWorldPositionByMatrix(ToWorldPositionByMatrix(v, m), inv) == SetW1(v)
  {
    var p := ToWorldPositionByMatrix(v, m);
    assert SetW1(p) == p;
    Mat.RowTimesMultiply(SetW1(v), inv, m);
    RowTimesIdentity(SetW1(v));
  }

  /** ... and so does a vector (with w zero). */
  lemma VectorThereAndBack(v: Float4, m: Mat.Matrix, inv: Mat.Matrix)
    requires Mat.Affine(m) && Mat.Affine(inv) && Mat.Multiply(inv, m) == Mat.Identity()
    ensures ToWorldVectorByMatrix(ToWorldVectorByMatrix(v, m), inv) == SetW0(v)
  {
    var w := ToWorldVectorByMatrix(v, m);
    assert SetW0(w) == w;
    Mat.RowTimesMultiply(SetW0(v), inv, m);
    RowTimesIdentity(SetW0(v));
  }

  /** For a matrix built by `compose` from a translation, a shear and a scale
      with nonzero x and positive y, z lanes, a position taken to world space
      and back is the original position (with w one). */
  lemma PositionRoundTrip(sqrt: real -> real, v: Float4, t: Float4, h: Float4, s: Float4)
    requires Scalar.IsSqrt(sqrt) && s.x != 0.0 && 0.0 < s.y && 0.0 < s.z
    ensures var m := Mat.Compose(Some(t), None, Some(h), Some(s));
            ToLocalPositionByMatrix(sqrt, ToWorldPositionByMatrix(v, m), m) == Some(SetW1(v))
  {
    var m := Mat.Compose(Some(t), None, Some(h), Some(s));
    Mat.InverseTransformUnrotated(sqrt, t, h, s);
    UnrotatedInverseAffine(sqrt, t, h, s);
    PositionThereAndBack(v, m, Mat.InverseTransform(sqrt, m).value);
  }

  /** The same for a vector, whose w lane is cleared. */
  lemma VectorRoundTrip(sqrt: real -> real, v: Float4, t: Float4, h: Float4, s: Float4)
    requires Scalar.IsSqrt(sqrt) && s.x != 0.0 && 0.0 < s.y && 0.0 < s.z
    ensures var m := Mat.Compose(Some(t), None, Some(h), Some(s));
            ToLocalVectorByMatrix(sqrt, ToWorldVectorByMatrix(v, m), m) == Some(SetW0(v))
  {
    var m := Mat.Compose(Some(t), None, Some(h), Some(s));
    Mat.InverseTransformUnrotated(sqrt, t, h, s);
    UnrotatedInverseAffine(sqrt, t, h, s);
    VectorThereAndBack(v, m, Mat.InverseTransform(sqrt, m).value);
  }

  // ---------------------------------------------------------------- by quaternion

  /** `toWorldVectorByQuaternion(v, q)`: the sandwich q * (v with w cleared) * conjugate(q). */
  function ToWorldVectorByQuaternion(v: Float4, q: Quat.Quaternion): (r: Float4)
    ensures r == Quat.Hamilton(Quat.Hamilton(q, SetW0(v)), Quat.Conjugate(q))
    ensures r.w == 0.0
  {
    SandwichOfVector(q, SetW0(v));
    Quat.Sandwich(q, SetW0(v))
  }

  /** `toLocalVectorByQuaternion(v, q)`: the inverse sandwich conjugate(q) * (v with w cleared) * q. */
  function ToLocalVectorByQuaternion(v: Float4, q: Quat.Quaternion): (r: Float4)
    ensures r == Quat.Hamilton(Quat.Hamilton(Quat.Conjugate(q), SetW0(v)), q)
    ensures r.w == 0.0
  {
    SandwichOfVector(Quat.Conjugate(q), SetW0(v));
    Quat.ConjugateProduct(q, q);
    Quat.SandwichInverse(q, SetW0(v))
  }

  /** Sandwiching a vector (w = 0) gives a vector: the real part of
      q * v * conjugate(q) is the squared norm of q times the real part of v,
      here zero. */
  lemma SandwichOfVector(q: Quat.Quaternion, v: Float4)
    requires v.w == 0.0
    ensures Quat.Hamilton(Quat.Hamilton(q, v), Quat.Conjugate(q)).w == 0.0
  {
  }

  /** The identity quaternion leaves a vector in place. */
  lemma WorldVectorByIdentityQuaternion(v: Float4)
    ensures ToWorldVectorByQuaternion(v, Quat.Identity()) == SetW0(v)
  {
    Quat.HamiltonUnit(SetW0(v), 1.0);
    assert Quat.Conjugate(Quat.Identity()) == Quat.Identity();
  }

  /** For a unit quaternion, world and local undo each other. */
  lemma QuaternionRoundTrip(v: Float4, q: Quat.Quaternion)
    requires Dot4(q, q) == 1.0
    ensures ToLocalVectorByQuaternion(ToWorldVectorByQuaternion(v, q), q) == SetW0(v)
    ensures ToWorldVectorByQuaternion(ToLocalVectorByQuaternion(v, q), q) == SetW0(v)
  {
    var w := ToWorldVectorByQuaternion(v, q);
    var l := ToLocalVectorByQuaternion(v, q);
    assert SetW0(w) == w && SetW0(l) == l;
    Quat.SandwichRoundTrip(q, SetW0(v));
  }

  /** The sandwich is linear in the sandwiched quaternion. */
  lemma SandwichAdd(q: Quat.Quaternion, a: Float4, b: Float4)
    ensures Quat.Sandwich(q, Add(a, b)) == Add(Quat.Sandwich(q, a), Quat.Sandwich(q, b))
  {
    var c := Quat.Conjugate(q);
    Quat.HamiltonAddRight(q, a, b);
    Quat.HamiltonAddLeft(Quat.Hamilton(q, a), Quat.Hamilton(q, b), c);
  }

  lemma SandwichScale(q: Quat.Quaternion, a: Float4, k: real)
    ensures Quat.Sandwich(q, MulScalar(a, k)) == MulScalar(Quat.Sandwich(q, a), k)
  {
    var c := Quat.Conjugate(q);
    Quat.HamiltonScale(q, a, k);
    Quat.HamiltonScale(Quat.Hamilton(q, a), c, k);
  }

  /** For a unit quaternion, the sandwich and `fromQuaternion` move a vector
      to the same place: the rows of the matrix are the rotated axes. */
  lemma QuaternionAgreesWithMatrix(v: Float4, q: Quat.Quaternion)
    requires Dot4(q, q) == 1.0
    ensures ToWorldVectorByQuaternion(v, q) == ToWorldVectorByMatrix(v, Mat.FromQuaternion(q))
  {
    var ex, ey, ez := MulScalar(AxisX(), v.x), MulScalar(AxisY(), v.y), MulScalar(AxisZ(), v.z);
    assert SetW0(v) == Add(Add(ex, ey), ez);
    SandwichAdd(q, Add(ex, ey), ez);
    SandwichAdd(q, ex, ey);
    SandwichScale(q, AxisX(), v.x);
    SandwichScale(q, AxisY(), v.y);
    SandwichScale(q, AxisZ(), v.z);
    Quat.AxesAreRotatedUnitVectors(q);
  }
}

# tktnm affine-transform core, modelled in Dafny

This project models the core of the tktnm transform library. The library works on
4-lane float vectors, quaternions stored as (x, y, z, w) with the real part last,
and 4x4 row-major matrices that act on row vectors. It also has a small sorted-list
container. The modules follow the library's files:

- `Scalar` (`pffloat1`): `clamp`, the clamped square roots, `sinCosHalf`, `alignAxis`.
- `Vec4` (`pffloat4`): lane arithmetic, the fused forms, comparisons, dot and cross
  products, lengths, normalisation, `interp`, selects, the swizzle and shuffle
  tables, and the six `alignAxis*` residuals.
- `Quat` (`pfquaternion`):
  - the Hamilton product behind `multiply`, `inverseMultiply` and `multiplyInverse`;
  - the sandwiches, `conjugate`, `inverse`, `normal` and `plusW`;
  - `nearPlusMinus`, the rotated axes, `adjustW` and `adjustXYZ`;
  - `fromAxisSinCos`, the six orders of `fromEuler` and the regimes of `from2BoneIK`.
- `Mat` (`pfmatrix`): row and column access, `multiply` and its operand order, `add`,
  `sub`, `sum`, `abs`, `transpose`, the `from*` and `inverseFrom*` builders, `compose`,
  `toShearScale`, `toTranslate` and `inverseTransform`.
- `Transform` (`pfvector`): vectors and positions moved by a matrix or by a
  quaternion sandwich.
- `Lists` (`pfutil`): `isUnique`, `appendUnique`, `insertUnique`, `insertBefore` and
  `pfSortedList`.
- `Optional`: the `Option` type. `None` is the host's `None`, or an exception the
  host would raise on a zero divisor it computes itself.

Numbers are Dafny `real`s, so the algebra is exact. The host's square root cannot be
defined over the reals. Every operation that needs it takes a parameter `sqrt`, and
its contract holds for every `sqrt` that satisfies `Scalar.IsSqrt`: it returns the
non-negative root of every non-negative number. Thresholds stay on lengths, as the
host writes them. Contracts restate them on squared lengths where that is the
natural form. A division by an input the caller controls is a `requires`. A division
by a value the operation computes becomes an `Option`.

`pfmatrix.multiply(parent, child)` returns the product child x parent in the usual
notation: a row vector is transformed by the child first. `Mat.Multiply` keeps the
host's argument order, and `Mat.RowTimesMultiply` states the order of application.

Host lists are sequences, and a mutating call returns the new sequence. Object
identity (`is`) is equality of the modelled element handles. The sorted list takes
its key function `key` and the host's `<` on keys, `lt`, as parameters. `lt` is
required to be a strict total order.

## Model

| member | source | states |
|---|---|---|
| Scalar.Clamp | python/tktnm/pffloat1.py:12-16 | the result lies in [lo, hi] when lo <= hi; it is v when v is inside, lo below and hi above; hi wins when hi < lo |
| Scalar.SqrtClamp | python/tktnm/pffloat1.py:19-23 | a non-negative number whose square is v for v >= 0; zero for every v <= 0 |
| Scalar.RsqrtClamp | python/tktnm/pffloat1.py:24-28 | for v > 0, a positive r with r * r * v == 1 (the host raises for v <= 0) |
| Scalar.SinCosHalf | python/tktnm/pffloat1.py:95-102 | a non-negative (sin, cos) pair on the unit circle whose cos^2 - sin^2 is the cosine clamped to [-1, 1] (the double-angle identity) |
| Scalar.AlignAxis | python/tktnm/pffloat1.py:111-121 | len is the length of (u, v); at or below 1e-10 the rotation is (0, 1); above it (sin, cos) is a unit pair that rotates (u, v) onto (len, 0) |
| Scalar.RootBelow | python/tktnm/pffloat1.py:117 | a strict threshold on a root is the same threshold squared on its argument |
| Scalar.UnitDirection | python/tktnm/pffloat1.py:117-120 | dividing (v, u) by the length gives a unit pair that rotates (u, v) onto the first axis |
| Vec4.SettersReplaceOneLane | python/tktnm/pffloat4.py:111-201 | `setX`..`setW` replace exactly their own lane and keep the other three; `copyW(a, b)` takes only w from b |
| Vec4.LaneArithmetic | python/tktnm/pffloat4.py:214-260 | `sub` undoes `add` and `subScalar` undoes `addScalar`; `add` and `mul` commute; the scalar forms are the vector forms with a splatted operand; `neg` is `mulScalar` by -1, an involution that adds to zero |
| Vec4.DivUndoesMul | python/tktnm/pffloat4.py:256-266 | `div` and `mul` undo each other on nonzero divisor lanes (the host raises on a zero lane) |
| Vec4.Div3 | python/tktnm/pffloat4.py:268-273 | the x, y, z lanes times the divisor give back the dividend; w keeps the lane of the dividend |
| Vec4.ComparisonMasks | python/tktnm/pffloat4.py:275-297 | each lane of `isLT` is the lane comparison; `isLT` and `isGTEq` are complementary, as are `isGT` and `isLTEq`; swapping the operands mirrors them |
| Vec4.FusedOps | python/tktnm/pffloat4.py:306-328 | `madd`, `nmsub`, `msub` and `nmadd` are a*b+c, c-a*b, a*b-c and -a*b-c lane-wise; the negated forms are negations |
| Vec4.HorizontalOps | python/tktnm/pffloat4.py:330-358 | `hadd(a, b)` is [a.x+a.y, b.x+b.y, a.z+a.w, b.z+b.w] and `hsub` the same with `-`: `shuffleXAZC(a, b)` plus, or minus, `shuffleYBWD(a, b)`; `hadd` keeps the total of both operands; `addsub`, `maddsub` and `msubadd` add the second operand with alternating signs |
| Vec4.Dot4 | python/tktnm/pffloat4.py:389-394 | the host's `sum(mul(a, b))` is the textbook sum of the four lane products |
| Vec4.DotBilinear | python/tktnm/pffloat4.py:389-401 | `dot4` and `dot3` are symmetric, `dot4` is linear in its first operand, and against the w axis they read w and 0 |
| Vec4.Dot3 | python/tktnm/pffloat4.py:396-401 | `dot3` is `dot4` without the w product |
| Vec4.SquaresNonNegative | python/tktnm/pffloat4.py:389-401 | the squared lengths are non-negative, and dropping w never raises the sum |
| Vec4.Len4 | python/tktnm/pffloat4.py:403-407 | a non-negative number whose square is `dot4(v, v)` |
| Vec4.Len3 | python/tktnm/pffloat4.py:409-413 | a non-negative number whose square is `dot3(v, v)` |
| Vec4.LenXY | python/tktnm/pffloat4.py:415-426 | a non-negative number whose square is x^2 + y^2 |
| Vec4.LenYZ | python/tktnm/pffloat4.py:428-439 | a non-negative number whose square is y^2 + z^2 |
| Vec4.LenXZ | python/tktnm/pffloat4.py:441-452 | a non-negative number whose square is x^2 + z^2 |
| Vec4.Cross3 | python/tktnm/pffloat4.py:454-460 | the swizzle-and-msub chain equals the textbook cross product (ay bz - az by, az bx - ax bz, ax by - ay bx, 0), which is orthogonal to both operands |
| Vec4.Normal4 | python/tktnm/pffloat4.py:462-469 | the fallback when the squared length is below 1e-14; otherwise a unit vector which, scaled by the input's length, is the input |
| Vec4.Normal3 | python/tktnm/pffloat4.py:471-478 | the same on the x, y, z lanes, keeping the input's w lane and its direction |
| Vec4.UnitScaling | python/tktnm/pffloat4.py:466-468 | scaling by the reciprocal root of the squared length gives a unit vector, and scaling by the length restores the input |
| Vec4.Interp | python/tktnm/pffloat4.py:480-485 | the blend is (1 - r) * a + r * b lane-wise |
| Vec4.InterpAtZero | python/tktnm/pffloat4.py:480-485 | a zero blend factor returns the first operand |
| Vec4.InterpAtOne | python/tktnm/pffloat4.py:480-485 | a unit blend factor returns the second operand |
| Vec4.SinCosHalf | python/tktnm/pffloat4.py:487-492 | the half-angle sine in x, y and z and the cosine in w: a non-negative unit pair whose double angle has the clamped cosine |
| Vec4.SelectXYZW | python/tktnm/pffloat4.py:494-501 | each lane comes from the second operand exactly where the mask is set, else from the first |
| Vec4.Select | python/tktnm/pffloat4.py:503-508 | a single flag selects the whole vector, as a mask with every lane equal to it |
| Vec4.SwizzleFollowsPattern | python/tktnm/pffloat4.py:510-600 | every swizzle reads its lanes in the order its name spells |
| Vec4.PatternIsBijection | python/tktnm/pffloat4.py:510-600 | every swizzle names four distinct lanes |
| Vec4.SwizzleIsPermutation | python/tktnm/pffloat4.py:510-600 | every swizzle keeps how often each value occurs among the lanes |
| Vec4.SwizzleRotationsInverse | python/tktnm/pffloat4.py:530-534 | `swizzleZXYW` and `swizzleYZXW` undo each other (lines 550-554 hold the other one) |
| Vec4.ShufflesMergeOrInterleave | python/tktnm/pffloat4.py:601-647 | seven shuffles keep each lane in place and take it from one of the operands; `shuffleXAZC` and `shuffleYBWD` together use every lane of both operands once |
| Vec4.AlignAxisXRotateZ | python/tktnm/pffloat4.py:648-655 | y becomes 0, z and the length are kept, and the new x is the non-negative xy length L; (sin, cos) is (0, 1) when L <= 1e-10, otherwise the unit pair with sin * L == y and cos * L == x, the rotation that carries the planar pair (x, y) onto (L, 0) |
| Vec4.AlignAxisXRotateY | python/tktnm/pffloat4.py:656-663 | z becomes 0, y and the length are kept, and the new x is the non-negative xz length L; (sin, cos) is (0, 1) when L <= 1e-10, otherwise the unit pair with sin * L == -z and cos * L == x, the rotation that carries the planar pair (x, -z) onto (L, 0) |
| Vec4.AlignAxisYRotateZ | python/tktnm/pffloat4.py:664-671 | x becomes 0, z and the length are kept, and the new y is the non-negative xy length L; (sin, cos) is (0, 1) when L <= 1e-10, otherwise the unit pair with sin * L == -x and cos * L == y, the rotation that carries the planar pair (y, -x) onto (L, 0) |
| Vec4.AlignAxisYRotateX | python/tktnm/pffloat4.py:672-679 | z becomes 0, x and the length are kept, and the new y is the non-negative yz length L; (sin, cos) is (0, 1) when L <= 1e-10, otherwise the unit pair with sin * L == z and cos * L == y, the rotation that carries the planar pair (y, z) onto (L, 0) |
| Vec4.AlignAxisZRotateY | python/tktnm/pffloat4.py:680-687 | x becomes 0, y and the length are kept, and the new z is the non-negative xz length L; (sin, cos) is (0, 1) when L <= 1e-10, otherwise the unit pair with sin * L == x and cos * L == z, the rotation that carries the planar pair (z, x) onto (L, 0) |
| Vec4.AlignAxisZRotateX | python/tktnm/pffloat4.py:688-694 | y becomes 0, x and the length are kept, and the new z is the non-negative yz length L; (sin, cos) is (0, 1) when L <= 1e-10, otherwise the unit pair with sin * L == -y and cos * L == z, the rotation that carries the planar pair (z, -y) onto (L, 0) |
| Quat.MultiplyIsHamilton | python/tktnm/pfquaternion.py:35-77 | `Quat.Multiply`, the swizzle chain of `multiply`, computes the Hamilton product, real part last |
| Quat.Conjugate | python/tktnm/pfquaternion.py:272-276 | the vector part is negated and the real part kept |
| Quat.HamiltonUnit | python/tktnm/pfquaternion.py:29-33 | `identity()` is a unit on both sides; a real quaternion scales |
| Quat.ConjugateProduct | python/tktnm/pfquaternion.py:272-276 | the conjugate is an involution and reverses products; q times its conjugate is its squared norm |
| Quat.HamiltonAssociative | python/tktnm/pfquaternion.py:35-77 | the product is associative |
| Quat.HamiltonScale | python/tktnm/pfquaternion.py:35-77 | scaling either factor scales the product |
| Quat.HamiltonAdd | python/tktnm/pfquaternion.py:35-77 | the product distributes over lane-wise sums on both sides |
| Quat.HamiltonNormMultiplicative | python/tktnm/pfquaternion.py:35-77 | the norm of a product is the product of the norms |
| Quat.InverseMultiplyIsHamilton | python/tktnm/pfquaternion.py:95-133 | `Quat.InverseMultiply`, the hand expansion of `inverseMultiply(a, b)`, is conjugate(a) * b |
| Quat.MultiplyInverseIsHamilton | python/tktnm/pfquaternion.py:135-174 | `Quat.MultiplyInverse`, the hand expansion of `multiplyInverse(a, b)`, is a * conjugate(b) |
| Quat.Sandwich | python/tktnm/pfquaternion.py:17-21 | `sandwich(a, b)` is a * b * conjugate(a) |
| Quat.SandwichInverse | python/tktnm/pfquaternion.py:23-27 | `sandwichInverse(a, b)` is conjugate(a) * b * a |
| Quat.SandwichRoundTrip | python/tktnm/pfquaternion.py:17-27 | for a unit quaternion the two sandwiches undo each other in both orders |
| Quat.Inverse | python/tktnm/pfquaternion.py:263-270 | the identity below length 1e-10; otherwise the conjugate over the squared norm, which multiplies with q to the identity on both sides |
| Quat.InverseCancels | python/tktnm/pfquaternion.py:263-270 | the conjugate scaled by the reciprocal squared norm is a two-sided inverse |
| Quat.Normal | python/tktnm/pfquaternion.py:215-221 | the identity below length 1e-10; otherwise a unit quaternion with w >= 0 which, scaled by the input's length, is `plusW(q)` |
| Quat.PlusW | python/tktnm/pfquaternion.py:278-283 | the result has w >= 0 and is the input or its negation, negated exactly when w < 0 |
| Quat.NearPlusMinus | python/tktnm/pfquaternion.py:533-540 | the sign (+1 or -1) that brings b nearer to a in `Quat.Distance`, the sum of absolute lane differences; +1 exactly when b itself is strictly nearer |
| Quat.NearPlusMinusSymmetry | python/tktnm/pfquaternion.py:533-540 | negating b flips the sign unless the two distances tie, and a tie gives -1 |
| Quat.AxesAreRotatedUnitVectors | python/tktnm/pfquaternion.py:176-213 | for a unit q, `Quat.AxisX`, `Quat.AxisY` and `Quat.AxisZ` (the host's `axisX/Y/Z`) are the sandwiches of the coordinate axes |
| Quat.AxesOrthonormal | python/tktnm/pfquaternion.py:176-213 | for a unit q, the three axes are an orthonormal frame |
| Quat.AxesOfIdentity | python/tktnm/pfquaternion.py:176-213 | the axes of the identity are the coordinate axes |
| Quat.AdjustW | python/tktnm/pfquaternion.py:223-230 | always a unit quaternion; when the vector part is at least unit length, w is 0 and the result scaled by the vector part's length is the vector part (its direction is kept); otherwise the vector part is kept and w is the non-negative value that completes it |
| Quat.DominantAxis | python/tktnm/pfquaternion.py:244-260 | the tie-break of `adjustXYZ`: x exactly when its magnitude is strictly largest, y exactly when it is at least x's and strictly above z's, z otherwise |
| Quat.AdjustXYZ | python/tktnm/pfquaternion.py:232-261 | w >= 1 gives the identity; otherwise w is kept, and for w in [-1, 1) the result is a unit quaternion |
| Quat.AdjustXYZDegenerate | python/tktnm/pfquaternion.py:240-260 | a vector part shorter than 1e-10 is replaced by the dominant axis, with the sign of that lane |
| Quat.AdjustXYZDirection | python/tktnm/pfquaternion.py:261 | any other vector part is scaled by a non-negative factor, so its direction is kept |
| Quat.FromAxisSinCos | python/tktnm/pfquaternion.py:446-453 | the real part is the half-angle cosine that `sinCosHalf` gives for c, hence non-negative |
| Quat.FromAxisSinCosAlongAxis | python/tktnm/pfquaternion.py:446-453 | the vector part is the axis scaled by the half-angle sine, negated when the sine argument is negative |
| Quat.FromAxisSinCosUnit | python/tktnm/pfquaternion.py:446-453 | about a unit axis the result is a unit quaternion |
| Quat.FromAxisSinCosAngle | python/tktnm/pfquaternion.py:446-453 | about a unit axis, w^2 - \|xyz\|^2 is the clamped cosine, so the rotation angle is the one the cosine names |
| Quat.FromEulerYZX | python/tktnm/pfquaternion.py:285-361 | `Quat.FromEuler` with order code 1 multiplies the single-axis rotations in the order yzx |
| Quat.FromEulerZXY | python/tktnm/pfquaternion.py:285-361 | order code 2 gives qy (qx qz) |
| Quat.FromEulerXZY | python/tktnm/pfquaternion.py:285-361 | order code 3 gives qy (qz qx) |
| Quat.FromEulerYXZ | python/tktnm/pfquaternion.py:285-361 | order code 4 gives (qz qx) qy |
| Quat.FromEulerZYX | python/tktnm/pfquaternion.py:285-361 | order code 5 gives (qx qy) qz |
| Quat.FromEulerXYZ | python/tktnm/pfquaternion.py:285-361 | every other order code gives qz (qy qx) |
| Quat.FromEulerUnit | python/tktnm/pfquaternion.py:285-361 | unit half-angle pairs give a unit quaternion in every order |
| Quat.FromEulerZero | python/tktnm/pfquaternion.py:285-361 | zero angles give the identity in every order |
| Quat.UnitProduct | python/tktnm/pfquaternion.py:35-77 | the product of two unit quaternions is a unit quaternion |
| Quat.From2BoneIK | python/tktnm/pfquaternion.py:586-605 | flag 1 exactly when dist >= upper + lower, with identity rotations; flag -1 exactly when dist is below the sum but at most the difference of the bones, with the upper rotation the identity (or the axis when upper <= lower) and the lower one the negated axis; flag 0 otherwise |
| Quat.From2BoneIKSolvedUnit | python/tktnm/pfquaternion.py:586-605 | in the solved regime, about a unit axis, both rotations are unit quaternions |
| Quat.SolvedBranch | python/tktnm/pfquaternion.py:596-604 | the solved regime never divides by zero, uses `fromAxisSinCos` about the axis and about its negation, and, about a unit axis, each rotation turns by exactly the angle whose cosine is the law-of-cosines ratio (w^2 - \|xyz\|^2 equals the ratio, unclamped) |
| Quat.CosinesInRange | python/tktnm/pfquaternion.py:596-604 | strictly inside the triangle inequality both law-of-cosines ratios lie strictly between -1 and 1, so the clamp of `sinCosHalf` leaves them unchanged |
| Mat.SetRow | python/tktnm/pfmatrix.py:23-31 | row i becomes the given row and every other row is kept |
| Mat.Column | python/tktnm/pfmatrix.py:33-39 | lane i of `getColumn(m, j)` is entry (i, j) |
| Mat.SetColumn | python/tktnm/pfmatrix.py:41-48 | column j becomes the given column and every entry outside it is kept |
| Mat.SetRowOfGetRow | python/tktnm/pfmatrix.py:18-31 | `Mat.Row` (`getRow`) read and written back with `setRow` changes nothing |
| Mat.IdentityEntries | python/tktnm/pfmatrix.py:50-54 | the identity has ones exactly on the diagonal |
| Mat.RowTimesIsDotOfColumn | python/tktnm/pfmatrix.py:62-72 | lane j of a row vector times a matrix is its `dot4` with column j |
| Mat.MultiplyEntry | python/tktnm/pfmatrix.py:62-72 | entry (i, j) of `Mat.Multiply(parent, child)` is `dot4` of row i of the child with column j of the parent |
| Mat.MultiplyIdentity | python/tktnm/pfmatrix.py:50-72 | the identity is a unit on both sides |
| Mat.RowTimesMultiply | python/tktnm/pfmatrix.py:62-72 | a row vector times `multiply(parent, child)` is moved by the child first and then by the parent |
| Mat.MultiplyAssociative | python/tktnm/pfmatrix.py:62-72 | the product is associative |
| Mat.Add | python/tktnm/pfmatrix.py:74-81 | entry-wise sum |
| Mat.Sub | python/tktnm/pfmatrix.py:83-90 | entry-wise difference |
| Mat.SubUndoesAdd | python/tktnm/pfmatrix.py:74-90 | subtracting what was added gives the matrix back |
| Mat.SumEntriesLinear | python/tktnm/pfmatrix.py:92-98 | `Mat.SumEntries` (`sum`) is additive over `add` and `sub`, and the identity sums to 4 |
| Mat.AbsEntries | python/tktnm/pfmatrix.py:100-106 | every entry is non-negative and is the input entry or its negation |
| Mat.AbsEntriesIdempotent | python/tktnm/pfmatrix.py:100-106 | `abs` is idempotent and ignores the sign of the matrix |
| Mat.Transpose | python/tktnm/pfmatrix.py:108-116 | entry (i, j) of the result is entry (j, i) |
| Mat.TransposeInvolution | python/tktnm/pfmatrix.py:108-116 | transposing twice gives the matrix back |
| Mat.InverseScale | python/tktnm/pfmatrix.py:271 | each of the x, y, z lanes times the scale lane is 1 |
| Mat.InverseShear | python/tktnm/pfmatrix.py:279-292 | the shear of the inverse cancels the shear lane by lane, including the yz cross term |
| Mat.ShearScaleFactors | python/tktnm/pfmatrix.py:181-203 | the closed form `Mat.FromShearScale` of `fromShearScale(h, s)` is `Mat.FromShear(h)` applied after `Mat.FromScale(s)`: the host's `multiply(fromShear(h), fromScale(s))`, which scales a row vector first |
| Mat.ShearScaleActsInOrder | python/tktnm/pfmatrix.py:181-203 | a row vector moved by `fromShearScale(h, s)` is scaled by s first and sheared by h after |
| Mat.ShearInverse | python/tktnm/pfmatrix.py:170-179 | `Mat.FromShear` and `Mat.InverseFromShear` are inverse on both sides for every shear |
| Mat.TranslateInverse | python/tktnm/pfmatrix.py:227-264 | `Mat.FromTranslate` and `Mat.InverseFromTranslate` are inverse on both sides for every offset |
| Mat.ScaleInverse | python/tktnm/pfmatrix.py:159-168 | `Mat.FromScale` and the corrected `Mat.InverseFromScale` are inverse on both sides for nonzero scales |
| Mat.ScaleInverseAsWrittenEntry | python/tktnm/pfmatrix.py:275 | as written, entry 10 of the product is s.z * s.z |
| Mat.ScaleInverseAsWrittenFails | python/tktnm/pfmatrix.py:266-277 | for s = (1, 1, 2) the as-written inverse is not an inverse |
| Mat.ScaleInverseAsWritten | python/tktnm/pfmatrix.py:266-277 | the product with `Mat.InverseFromScaleAsWritten`, the host's definition, is the identity exactly when s.z * s.z == 1, in either order |
| Mat.ShearScaleInverse | python/tktnm/pfmatrix.py:294-321 | `Mat.FromShearScale` and `Mat.InverseFromShearScale` are inverse on both sides for nonzero scales |
| Mat.InverseFromQuaternionTransposes | python/tktnm/pfmatrix.py:238-258 | `inverseFromQuaternion(q)` is the transpose of `fromQuaternion(q)` |
| Mat.InverseFromQuaternionConjugates | python/tktnm/pfmatrix.py:205-258 | `inverseFromQuaternion(q)` is `fromQuaternion` of the conjugate, and the reverse |
| Mat.QuaternionInverse | python/tktnm/pfmatrix.py:205-258 | for a unit q, `Mat.FromQuaternion` and `Mat.InverseFromQuaternion` are inverse on both sides |
| Mat.ToTranslate | python/tktnm/pfmatrix.py:421-426 | the offset has w == 0 |
| Mat.ToTranslateOfFromTranslate | python/tktnm/pfmatrix.py:227-236 | `toTranslate(fromTranslate(t))` is t with w cleared |
| Mat.ToShearScale | python/tktnm/pfmatrix.py:323-419 | `None` (the host raises) when the first row is zero; a result has zero w lanes, a nonzero x scale, positive y and z scales, and a negative x scale exactly when the rows are left-handed |
| Mat.ShearScaleOfGram | python/tktnm/pfmatrix.py:347-419 | the arithmetic on the row products: the x scale squares to the first row's square, with the sign the handedness test gives |
| Mat.ShearScaleFromZ | python/tktnm/pfmatrix.py:395-419 | `None` exactly when the z scale is zero; otherwise the scale is (x, y, z) |
| Mat.FlippedIsCrossTest | python/tktnm/pfmatrix.py:350-352 | the handedness test is `dot3(cross3(row 0, row 1), row 2) < 0` |
| Mat.LowerTriangularFlipped | python/tktnm/pfmatrix.py:350-352 | for lower-triangular rows with positive second and third diagonals, the test reads the sign of the first |
| Mat.SignedRoot | python/tktnm/pfmatrix.py:349-352 | the root of the first row's square, nonzero when the square is positive, negative exactly when flipped |
| Mat.ToShearScaleOfShearScale | python/tktnm/pfmatrix.py:181-203 | `toShearScale(fromShearScale(h, s))` returns h and s, with w cleared, when s.x != 0 and s.y, s.z > 0 |
| Mat.ShearScaleOfGramRoundTrip | python/tktnm/pfmatrix.py:347-419 | the row-product arithmetic recovers the shear and the scale from the products of a shear-scale matrix |
| Mat.MultiplyAffine | python/tktnm/pfmatrix.py:62-72 | `Mat.Affine` (last column (0, 0, 0, 1)) is closed under `multiply` |
| Mat.Compose | python/tktnm/pfmatrix.py:118-133 | no arguments give the identity, and the result always has last column (0, 0, 0, 1) |
| Mat.DefaultShearScale | python/tktnm/pfmatrix.py:128-132 | the default shear (0) and scale (1) build the identity |
| Mat.ComposeIsProduct | python/tktnm/pfmatrix.py:118-133 | `compose` is the host's `multiply(multiply(T, R), SS)` (shear-scale first, then rotation, then translation on row vectors), with the identity for a missing argument |
| Mat.ComposeActsInOrder | python/tktnm/pfmatrix.py:118-133 | a composed matrix shears and scales, then rotates, then translates |
| Mat.ComposeTranslate | python/tktnm/pfmatrix.py:118-133 | the translation row of a composed matrix is the translate argument |
| Mat.InverseTransform | python/tktnm/pfmatrix.py:145-157 | `None` exactly when `toShearScale` fails |
| Mat.ProductInverse | python/tktnm/pfmatrix.py:145-157 | the inverse of a product is the product of the inverses in the opposite order |
| Mat.UnrotatedShearScale | python/tktnm/pfmatrix.py:118-157 | on `compose(t, None, h, s)`, `toShearScale` recovers h and s |
| Mat.InverseAfterTranslation | python/tktnm/pfmatrix.py:150-157 | once the shear-scale is split off and what is left is a pure translation, the rotation read from it is the identity and the result applies the negated translation first and the inverse shear-scale after it: `multiply(inv, inverseFromTranslate(t))` |
| Mat.UnrotatedInverseTransform | python/tktnm/pfmatrix.py:145-157 | on `compose(t, None, h, s)`, `inverseTransform` applies the inverse translation first and the inverse shear-scale after it: `multiply(inverseFromShearScale(h, s), inverseFromTranslate(t))` |
| Mat.InverseTransformUnrotated | python/tktnm/pfmatrix.py:145-157 | on `compose(t, None, h, s)`, `inverseTransform` succeeds and is a two-sided inverse |
| Transform.ToWorldVectorByMatrix | python/tktnm/pfvector.py:18-30 | the row vector (x, y, z, 0) times the matrix; for an affine matrix w stays 0 |
| Transform.WorldVectorIgnoresTranslation | python/tktnm/pfvector.py:18-30 | the w lane of the input and the translation row do not matter |
| Transform.WorldVectorByIdentity | python/tktnm/pfvector.py:18-30 | the identity keeps x, y, z and clears w |
| Transform.ToWorldPositionByMatrix | python/tktnm/pfvector.py:32-39 | for every matrix, the row vector (x, y, z, 1) times the matrix; for an affine matrix w == 1 |
| Transform.WorldPositionByTranslate | python/tktnm/pfvector.py:32-39 | a translation matrix adds the offset to the position |
| Transform.ToLocalVectorByMatrix | python/tktnm/pfvector.py:41-46 | `None` exactly when the inverse fails; otherwise the vector times `inverseTransform(m)` |
| Transform.ToLocalPositionByMatrix | python/tktnm/pfvector.py:48-53 | `None` exactly when the inverse fails; otherwise the position (x, y, z, 1) times `inverseTransform(m)` |
| Transform.PositionRoundTrip | python/tktnm/pfvector.py:32-53 | for `m = compose(t, None, h, s)`, a position taken to world space and back is itself with w == 1 |
| Transform.VectorRoundTrip | python/tktnm/pfvector.py:18-46 | the same for a vector, with w == 0 |
| Transform.ToWorldVectorByQuaternion | python/tktnm/pfvector.py:55-59 | q * (x, y, z, 0) * conjugate(q), whose w is 0 |
| Transform.ToLocalVectorByQuaternion | python/tktnm/pfvector.py:61-65 | conjugate(q) * (x, y, z, 0) * q, whose w is 0 |
| Transform.WorldVectorByIdentityQuaternion | python/tktnm/pfvector.py:55-59 | the identity quaternion leaves a vector in place |
| Transform.QuaternionRoundTrip | python/tktnm/pfvector.py:55-65 | for a unit q, world and local undo each other in both orders |
| Transform.QuaternionAgreesWithMatrix | python/tktnm/pfvector.py:18-59 | for a unit q, the sandwich moves a vector to the same place as `fromQuaternion(q)` |
| Lists.IsUnique | python/tktnm/pfutil.py:14-18 | true exactly when no element is the object |
| Lists.AppendUnique | python/tktnm/pfutil.py:20-25 | when the object is absent it is appended and the flag is true; otherwise the list is unchanged and the flag is false |
| Lists.AppendUniqueIdempotent | python/tktnm/pfutil.py:20-25 | afterwards the object is present, so a second call changes nothing |
| Lists.AppendUniqueDistinct | python/tktnm/pfutil.py:20-25 | a list without repeats stays without repeats |
| Lists.InsertUnique | python/tktnm/pfutil.py:28-33 | when the object is absent it sits at the host's position for the index (negative counts from the end, clamped), the flag is true, and removing it gives the old list in order; otherwise the list is unchanged and the flag is false |
| Lists.InsertPosition | python/tktnm/pfutil.py:30 | the host's `list.insert` index rule: negative counts from the end, and the result is clamped into [0, n] |
| Lists.InsertUniqueDistinct | python/tktnm/pfutil.py:28-33 | a list without repeats stays without repeats, and removing the inserted element gives the old list |
| Lists.InsertBefore | python/tktnm/pfutil.py:36-42 | the length grows by one with the object added; it lands immediately before the first element that is the target, else at the end; removing it gives the old list |
| Lists.GetIndexByKey | python/tktnm/pfutil.py:79-98 | on a strictly increasing list, an index holding the key, or -1 exactly when no element has it |
| Lists.GetIndex | python/tktnm/pfutil.py:73-77 | the first index holding the key of the given value (the `KeyIndex` reference), or -1 exactly when there is none |
| Lists.GetValueByKey | python/tktnm/pfutil.py:100-106 | the element with the key, or `None` exactly when there is none |
| Lists.AddValue | python/tktnm/pfutil.py:108-135 | `None` and no change exactly when the key is present; otherwise the value sits at the returned index, the keys still increase, and removing it gives the old list |
| Lists.DelValueByKey | python/tktnm/pfutil.py:143-149 | `None` and no change exactly when the key is absent; otherwise the element at the first index with the key is returned and exactly it is removed |
| Lists.DelValue | python/tktnm/pfutil.py:137-141 | `delValueByKey` with the key of the given value: `None` and no change exactly when the key is absent; otherwise the element at that key's index is returned and the list left is `Lists.Deleted` |
| Lists.Added | python/tktnm/pfutil.py:108-135 | the list `addValue` leaves behind keeps the keys strictly increasing |
| Lists.Deleted | python/tktnm/pfutil.py:143-149 | the list `delValueByKey` leaves behind keeps the keys increasing, no longer holds the key, and lost at most one element |
| Lists.DeleteAfterAdd | python/tktnm/pfutil.py:108-149 | adding a value with a new key and deleting that key gives the list back |
| Lists.AddAfterDelete | python/tktnm/pfutil.py:108-149 | deleting a present key and adding the deleted element back gives the list back |
| Lists.FindAfterAdd | python/tktnm/pfutil.py:79-135 | after `addValue`, `getIndexByKey` finds the key at the index where the value was inserted |
| Lists.KeyIndex | python/tktnm/pfutil.py:79-98 | the reference search: the first index holding the key, or -1 exactly when no element has it |
| Lists.KeyIndexByDefault | python/tktnm/pfutil.py:58-69 | under `Lists.DefaultKey` (the identity key the sorted list defaults to), the search finds the first occurrence of the element, or -1 exactly when it is absent |
| Lists.InsertionPoint | python/tktnm/pfutil.py:115-135 | the number of leading keys below the key; the next key, if any, is not below it |
| Lists.RemoveInserted | python/tktnm/pfutil.py:126-148 | `pop` at the index just inserted at gives back the list |
| Lists.InsertRemoved | python/tktnm/pfutil.py:126-148 | inserting back the element just popped gives back the list |

## Left out

- Square root: the host's `math.sqrt` is the parameter `sqrt`, constrained by `Scalar.IsSqrt`.
- Trigonometry and everything whose result depends on it. This covers the degree and
  radian helpers of `pffloat1` and `fromAxisDeg`, `rotateX/Y/Z`, `toAxisDeg`,
  `toEuler`, `log`, `exp` and `slerp`. It also covers the atan2-returning
  `alignAxis*` of `pfvector` and the `alignAxis*` quaternion builders. Dafny's reals
  have no trigonometric functions. `fromEuler` and `fromAxisSinCos` take the
  half-angle sines and cosines as inputs.
- IEEE behaviour: rounding, NaN, infinities and bit-exactness (`isNanInf`) are not
  modelled. Numbers are exact reals, and thresholds are real constants.
- `randomRange`: it is nondeterministic.
- `fromVector`, `interpLinear`, `toQuaternion` and `decompose`: their correctness
  rests on normalisation chains and on the rotation part of a matrix. `decompose`
  also needs `toQuaternion`.
- `inverseTransform` on a matrix with a rotation: the model states its result only
  for matrices built by `compose` without a quaternion. The rotation case needs the
  fact that row products are invariant under rotation, and that fact is not proved here.
- Python aliasing: the shared mutable default `err` lists of `normal3`/`normal4`, the
  `List` property exposing the sorted list's storage, and in-place mutation of
  argument lists are not modelled. Every operation returns a new value.
- Short vectors: shear and scale inputs are full 4-lane values. A 3-element list in
  the host reads w as 0.0, and the model uses the w lane, which the builders ignore
  or clear.
- Index errors: row, column and lane indices are typed to their valid range. The
  host's behaviour for an out-of-range index is not modelled.
- `pfSortedList` construction: the constructor's default key function is
  `Lists.DefaultKey`. The model passes the key function to each operation instead
  of storing it.
- Mat.ToShearScale: its contract states the shape and the handedness sign of every
  result and the round trip for shear-scale matrices; it does not give a closed
  form for an arbitrary matrix.
- Mat.InverseTransform: its contract states only when the result is `None`; what the
  result is comes from the lemmas about matrices built without rotation.

## Findings

| source | as written | input that shows it | evidently intended | confidence | as-written member | corrected member |
|---|---|---|---|---|---|---|
| python/tktnm/pfmatrix.py:275 | `inverseFromScale` stores the scale's own z lane at entry 10 instead of its reciprocal | s = (1, 1, 2): entry 10 of `fromScale(s)` times the result is 4, not 1 | entry 10 is `invScl[2]`, like entries 0 and 5 | high; not executed | Mat.ScaleInverseAsWrittenFails | Mat.ScaleInverse |

`Mat.InverseFromScaleAsWritten` is the host's definition, and
`Mat.ScaleInverseAsWritten` shows that it inverts `fromScale(s)` only when
s.z * s.z == 1. `Mat.InverseFromScale` is the corrected definition. The
`inverseFromShearScale` closed form that `inverseTransform` uses is not affected.

/** Exact-real stand-ins for the `glam` types the solver uses (`Vec3`, `UVec3`, `Quat`,
    `Mat3`) and for the `f32` results that may leave the finite range.
    Rounding is not modelled: every operation is exact over `real`. */
module Glam {

  /** A Rust `u32`. */
  type U32 = x: int | 0 <= x < 0x1_0000_0000

  /** An `f32` result. `NonFinite` stands for every one of +inf, -inf and NaN:
      arithmetic that meets one of them yields one of them again. */
  datatype Float = Finite(value: real) | NonFinite

  /** A matrix operation whose result may contain non-finite entries. */
  datatype Option<T> = None | Some(value: T)

  /** `x.recip()`: finite exactly when `x` is non-zero. */
  function Recip(x: real): (r: Float)
    ensures r.Finite? <==> x != 0.0
  {
    if x == 0.0 then NonFinite else Finite(1.0 / x)
  }

  /** `a + b` on `f32`: a non-finite operand gives a non-finite sum. */
  function FloatAdd(a: Float, b: Float): (r: Float)
    ensures r.Finite? <==> a.Finite? && b.Finite?
    ensures r.Finite? ==> r.value == a.value + b.value
  {
    if a.Finite? && b.Finite? then Finite(a.value + b.value) else NonFinite
  }

  lemma FloatAddZero(a: Float)
    ensures FloatAdd(a, Finite(0.0)) == a
  {
  }

  // ---------------------------------------------------------------- Vec3

  datatype Vec3 = Vec3(x: real, y: real, z: real)

  const VecZero: Vec3 := Vec3(0.0, 0.0, 0.0)
  const VecOne: Vec3 := Vec3(1.0, 1.0, 1.0)

  function Neg(a: Vec3): Vec3 { Vec3(-a.x, -a.y, -a.z) }

  function Plus(a: Vec3, b: Vec3): Vec3 { Vec3(a.x + b.x, a.y + b.y, a.z + b.z) }

  function Scale(k: real, a: Vec3): Vec3 { Vec3(k * a.x, k * a.y, k * a.z) }

  function Dot(a: Vec3, b: Vec3): real { a.x * b.x + a.y * b.y + a.z * b.z }

  function Cross(a: Vec3, b: Vec3): Vec3 {
    Vec3(a.y * b.z - a.z * b.y, a.z * b.x - a.x * b.z, a.x * b.y - a.y * b.x)
  }

  /** A vector crossed with any multiple of itself gives the zero vector. */
  lemma CrossParallel(r: Vec3, k: real)
    ensures Cross(r, Scale(k, r)) == VecZero
  {
    assert r.y * (k * r.z) == r.z * (k * r.y);
    assert r.z * (k * r.x) == r.x * (k * r.z);
    assert r.x * (k * r.y) == r.y * (k * r.x);
  }

  /** `UVec3`: three `u32` components. */
  datatype UVec3 = UVec3(x: U32, y: U32, z: U32)

  const UVecZero: UVec3 := UVec3(0, 0, 0)
  const UVecOne: UVec3 := UVec3(1, 1, 1)

  // ---------------------------------------------------------------- Quat

  /** A quaternion in `glam`'s field order x, y, z, w. */
  datatype Quat = Quat(x: real, y: real, z: real, w: real)

  const QuatIdentity: Quat := Quat(0.0, 0.0, 0.0, 1.0)

  // ---------------------------------------------------------------- Mat3

  /** A 3×3 matrix given by its rows. */
  datatype Mat3 = Mat3(r0: Vec3, r1: Vec3, r2: Vec3)

  const MatZero: Mat3 := Mat3(VecZero, VecZero, VecZero)
  const MatIdentity: Mat3 := Mat3(Vec3(1.0, 0.0, 0.0), Vec3(0.0, 1.0, 0.0), Vec3(0.0, 0.0, 1.0))

  function FromDiagonal(d: Vec3): Mat3 {
    Mat3(Vec3(d.x, 0.0, 0.0), Vec3(0.0, d.y, 0.0), Vec3(0.0, 0.0, d.z))
  }

  function Transpose(m: Mat3): Mat3 {
    Mat3(Vec3(m.r0.x, m.r1.x, m.r2.x), Vec3(m.r0.y, m.r1.y, m.r2.y), Vec3(m.r0.z, m.r1.z, m.r2.z))
  }

  /** `m * v`. */
  function MulVec(m: Mat3, v: Vec3): Vec3 {
    Vec3(Dot(m.r0, v), Dot(m.r1, v), Dot(m.r2, v))
  }

  /** Row `v` times matrix `b`. */
  function RowMul(v: Vec3, b: Mat3): Vec3 {
    Vec3(v.x * b.r0.x + v.y * b.r1.x + v.z * b.r2.x,
         v.x * b.r0.y + v.y * b.r1.y + v.z * b.r2.y,
         v.x * b.r0.z + v.y * b.r1.z + v.z * b.r2.z)
  }

  /** `a * b`. */
  function Mul(a: Mat3, b: Mat3): Mat3 {
    Mat3(RowMul(a.r0, b), RowMul(a.r1, b), RowMul(a.r2, b))
  }

  function ScaleMat(k: real, m: Mat3): Mat3 {
    Mat3(Scale(k, m.r0), Scale(k, m.r1), Scale(k, m.r2))
  }

  /** `Mat3::from_quat`: the rotation matrix of a unit quaternion, as `glam` builds it. */
  function FromQuat(q: Quat): Mat3 {
    var x2, y2, z2 := q.x + q.x, q.y + q.y, q.z + q.z;
    var xx, xy, xz := q.x * x2, q.x * y2, q.x * z2;
    var yy, yz, zz := q.y * y2, q.y * z2, q.z * z2;
    var wx, wy, wz := q.w * x2, q.w * y2, q.w * z2;
    // glam lists the columns; these are the rows of the same matrix
    Mat3(Vec3(1.0 - (yy + zz), xy - wz, xz + wy),
         Vec3(xy + wz, 1.0 - (xx + zz), yz - wx),
         Vec3(xz - wy, yz + wx, 1.0 - (xx + yy)))
  }

  lemma FromQuatIdentity()
    ensures FromQuat(QuatIdentity) == MatIdentity
  {
  }

  function Determinant(m: Mat3): real {
    m.r0.x * (m.r1.y * m.r2.z - m.r1.z * m.r2.y)
    - m.r0.y * (m.r1.x * m.r2.z - m.r1.z * m.r2.x)
    + m.r0.z * (m.r1.x * m.r2.y - m.r1.y * m.r2.x)
  }

  /** The transposed cofactor matrix: its columns are the cross products of pairs of rows. */
  function Adjugate(m: Mat3): Mat3 {
    Transpose(Mat3(Cross(m.r1, m.r2), Cross(m.r2, m.r0), Cross(m.r0, m.r1)))
  }

  /** The determinant is the triple product of the rows, starting from any row. */
  lemma TripleProducts(m: Mat3)
    ensures Dot(m.r0, Cross(m.r1, m.r2)) == Determinant(m)
    ensures Dot(m.r1, Cross(m.r2, m.r0)) == Determinant(m)
    ensures Dot(m.r2, Cross(m.r0, m.r1)) == Determinant(m)
  {
    TripleProduct1(m);
    TripleProduct2(m);
  }

  lemma TripleProduct1(m: Mat3)
    ensures Dot(m.r1, Cross(m.r2, m.r0)) == Determinant(m)
  {
    var a, b, c := m.r0.x, m.r0.y, m.r0.z;
    var d, e, f := m.r1.x, m.r1.y, m.r1.z;
    var g, h, i := m.r2.x, m.r2.y, m.r2.z;
    calc {
      Dot(m.r1, Cross(m.r2, m.r0));
      d * (h * c - i * b) + e * (i * a - g * c) + f * (g * b - h * a);
      a * (e * i - f * h) - b * (d * i - f * g) + c * (d * h - e * g);
    }
  }

  lemma TripleProduct2(m: Mat3)
    ensures Dot(m.r2, Cross(m.r0, m.r1)) == Determinant(m)
  {
    var a, b, c := m.r0.x, m.r0.y, m.r0.z;
    var d, e, f := m.r1.x, m.r1.y, m.r1.z;
    var g, h, i := m.r2.x, m.r2.y, m.r2.z;
    calc {
      Dot(m.r2, Cross(m.r0, m.r1));
      g * (b * f - c * e) + h * (c * d - a * f) + i * (a * e - b * d);
      a * (e * i - f * h) - b * (d * i - f * g) + c * (d * h - e * g);
    }
  }

  /** A triple product with a repeated vector vanishes. */
  lemma TripleRepeated(q: Vec3, r: Vec3)
    ensures Dot(q, Cross(q, r)) == 0.0 && Dot(r, Cross(q, r)) == 0.0
  {
  }

  lemma RowMulTranspose(v: Vec3, c0: Vec3, c1: Vec3, c2: Vec3)
    ensures RowMul(v, Transpose(Mat3(c0, c1, c2))) == Vec3(Dot(v, c0), Dot(v, c1), Dot(v, c2))
  {
  }

  /** `m * adj(m) == det(m) · I`: each row of `m` dotted with the cross product of two rows
      is the determinant when the three rows are `m`'s, and zero when a row repeats. */
  lemma MulAdjugate(m: Mat3)
    ensures Mul(m, Adjugate(m)) == ScaleMat(Determinant(m), MatIdentity)
  {
    var r0, r1, r2 := m.r0, m.r1, m.r2;
    var c0, c1, c2 := Cross(r1, r2), Cross(r2, r0), Cross(r0, r1);
    TripleProducts(m);
    TripleRepeated(r1, r2);
    TripleRepeated(r2, r0);
    TripleRepeated(r0, r1);
    RowMulTranspose(r0, c0, c1, c2);
    RowMulTranspose(r1, c0, c1, c2);
    RowMulTranspose(r2, c0, c1, c2);
  }

  /** `Mat3::inverse`. For a singular matrix glam multiplies the adjugate by `1/0`,
      so every entry is non-finite: that case is `None`. Otherwise the result is a right
      inverse. */
  function Inverse(m: Mat3): (r: Option<Mat3>)
    ensures r.Some? <==> Determinant(m) != 0.0
    ensures r.Some? ==> Mul(m, r.value) == MatIdentity
  {
    var d := Determinant(m);
    if d == 0.0 then None
    else
      AdjugateInverse(m);
      Some(ScaleMat(1.0 / d, Adjugate(m)))
  }

  /** The adjugate divided by the determinant is a right inverse. */
  lemma AdjugateInverse(m: Mat3)
    requires Determinant(m) != 0.0
    ensures Mul(m, ScaleMat(1.0 / Determinant(m), Adjugate(m))) == MatIdentity
  {
    var d := Determinant(m);
    MulScaleRight(m, 1.0 / d, Adjugate(m));
    MulAdjugate(m);
    ReciprocalScale(d);
  }

  lemma ReciprocalScale(d: real)
    requires d != 0.0
    ensures ScaleMat(1.0 / d, ScaleMat(d, MatIdentity)) == MatIdentity
  {
    assert (1.0 / d) * (d * 1.0) == 1.0;
    assert (1.0 / d) * (d * 0.0) == 0.0;
  }

  /** `a (k b) == k (a b)`. */
  lemma MulScaleRight(a: Mat3, k: real, b: Mat3)
    ensures Mul(a, ScaleMat(k, b)) == ScaleMat(k, Mul(a, b))
  {
    RowMulScale(a.r0, k, b);
    RowMulScale(a.r1, k, b);
    RowMulScale(a.r2, k, b);
  }

  lemma RowMulScale(v: Vec3, k: real, b: Mat3)
    ensures RowMul(v, ScaleMat(k, b)) == Scale(k, RowMul(v, b))
  {
    ScaleOfRowMul(v, k, b);
    RowMulOfScale(v, k, b);
    ScaledSum(k, v.x, v.y, v.z, b.r0.x, b.r1.x, b.r2.x);
    ScaledSum(k, v.x, v.y, v.z, b.r0.y, b.r1.y, b.r2.y);
    ScaledSum(k, v.x, v.y, v.z, b.r0.z, b.r1.z, b.r2.z);
  }

  lemma ScaledSum(k: real, a: real, b: real, c: real, p: real, q: real, r: real)
    ensures a * (k * p) + b * (k * q) + c * (k * r) == k * (a * p + b * q + c * r)
  {
  }

  lemma ScaleOfRowMul(v: Vec3, k: real, b: Mat3)
    ensures Scale(k, RowMul(v, b)) == Vec3(k * (v.x * b.r0.x + v.y * b.r1.x + v.z * b.r2.x),
                                           k * (v.x * b.r0.y + v.y * b.r1.y + v.z * b.r2.y),
                                           k * (v.x * b.r0.z + v.y * b.r1.z + v.z * b.r2.z))
  {
  }

  lemma RowMulOfScale(v: Vec3, k: real, b: Mat3)
    ensures RowMul(v, ScaleMat(k, b)) == Vec3(v.x * (k * b.r0.x) + v.y * (k * b.r1.x) + v.z * (k * b.r2.x),
                                              v.x * (k * b.r0.y) + v.y * (k * b.r1.y) + v.z * (k * b.r2.y),
                                              v.x * (k * b.r0.z) + v.y * (k * b.r1.z) + v.z * (k * b.r2.z))
  {
  }

  /** `(a b) v == a (b v)`. */
  lemma MulVecMul(a: Mat3, b: Mat3, v: Vec3)
    ensures MulVec(Mul(a, b), v) == MulVec(a, MulVec(b, v))
  {
    var bv := MulVec(b, v);
    assert Dot(RowMul(a.r0, b), v) == Dot(a.r0, bv);
    assert Dot(RowMul(a.r1, b), v) == Dot(a.r1, bv);
    assert Dot(RowMul(a.r2, b), v) == Dot(a.r2, bv);
  }

  /** `v · (m w) == (mᵀ v) · w`. */
  lemma DotMulVecTranspose(m: Mat3, v: Vec3, w: Vec3)
    ensures Dot(v, MulVec(m, w)) == Dot(MulVec(Transpose(m), v), w)
  {
  }

  /** The quadratic form of `r m rᵀ` at `v` is the quadratic form of `m` at `rᵀ v`. */
  lemma ConjugatedQuadraticForm(r: Mat3, m: Mat3, v: Vec3)
    ensures Dot(v, MulVec(Mul(Mul(r, m), Transpose(r)), v))
         == Dot(MulVec(Transpose(r), v), MulVec(m, MulVec(Transpose(r), v)))
  {
    var u := MulVec(Transpose(r), v);
    MulVecMul(Mul(r, m), Transpose(r), v);
    MulVecMul(r, m, u);
    DotMulVecTranspose(r, v, MulVec(m, u));
  }

  /** No vector has a negative quadratic form under `m`. */
  ghost predicate PositiveSemidefinite(m: Mat3) {
    forall v :: Dot(v, MulVec(m, v)) >= 0.0
  }

  /** A diagonal matrix with no negative entry is positive semidefinite. */
  lemma DiagonalPositiveSemidefinite(d: Vec3)
    requires d.x >= 0.0 && d.y >= 0.0 && d.z >= 0.0
    ensures PositiveSemidefinite(FromDiagonal(d))
  {
    forall v: Vec3 ensures Dot(v, MulVec(FromDiagonal(d), v)) >= 0.0 {
      assert MulVec(FromDiagonal(d), v) == Vec3(d.x * v.x, d.y * v.y, d.z * v.z);
      NonNegativeTerm(d.x, v.x);
      NonNegativeTerm(d.y, v.y);
      NonNegativeTerm(d.z, v.z);
    }
  }

  lemma NonNegativeTerm(k: real, a: real)
    requires k >= 0.0
    ensures a * (k * a) >= 0.0
  {
    assert a * (k * a) == k * (a * a);
  }

  /** The zero vector has a zero quadratic form under any matrix. */
  lemma QuadraticFormOfZero(m: Mat3)
    ensures Dot(VecZero, MulVec(m, VecZero)) == 0.0
  {
  }

  lemma MulIdentityLeft(m: Mat3)
    ensures Mul(MatIdentity, m) == m
  {
  }

  lemma MulIdentityRight(m: Mat3)
    ensures Mul(m, MatIdentity) == m
  {
  }

  lemma MulZeroLeft(m: Mat3)
    ensures Mul(MatZero, m) == MatZero
  {
  }

  lemma MulZeroRight(m: Mat3)
    ensures Mul(m, MatZero) == MatZero
  {
  }
}

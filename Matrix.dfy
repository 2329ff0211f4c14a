/** 4x4 matrix algebra over the reals, in the row-vector convention that
    Maya's MMatrix and MPoint use: a point p is transformed as p * M, and
    the product A * B applies A first and B second.

    Matrix inversion is not defined here: the host library's inverse is a
    foreign operation, so the model takes it as a parameter
    `inverse: Mat4 -> Mat4` and states what it must satisfy (InverseOp). */
module Matrix {

  /** A homogeneous 4-vector: a point (x, y, z, w), or one row of a matrix. */
  datatype Vec4 = Vec4(x: real, y: real, z: real, w: real)

  /** A 4x4 matrix given by its four rows. */
  datatype Mat4 = Mat4(r0: Vec4, r1: Vec4, r2: Vec4, r3: Vec4)

  const ZeroVec: Vec4 := Vec4(0.0, 0.0, 0.0, 0.0)

  /** The all-zero matrix, MMatrix([0.0] * 16). */
  const Zero: Mat4 := Mat4(ZeroVec, ZeroVec, ZeroVec, ZeroVec)

  const Identity: Mat4 :=
    Mat4(Vec4(1.0, 0.0, 0.0, 0.0),
         Vec4(0.0, 1.0, 0.0, 0.0),
         Vec4(0.0, 0.0, 1.0, 0.0),
         Vec4(0.0, 0.0, 0.0, 1.0))

  function VAdd(u: Vec4, v: Vec4): Vec4 {
    Vec4(u.x + v.x, u.y + v.y, u.z + v.z, u.w + v.w)
  }

  function VScale(c: real, v: Vec4): Vec4 {
    Vec4(c * v.x, c * v.y, c * v.z, c * v.w)
  }

  /** Entry-wise sum, MMatrix's `+`. */
  function Add(a: Mat4, b: Mat4): Mat4 {
    Mat4(VAdd(a.r0, b.r0), VAdd(a.r1, b.r1), VAdd(a.r2, b.r2), VAdd(a.r3, b.r3))
  }

  /** Scalar times matrix, `weight * matrix`. */
  function Scale(c: real, a: Mat4): Mat4 {
    Mat4(VScale(c, a.r0), VScale(c, a.r1), VScale(c, a.r2), VScale(c, a.r3))
  }

  /** Row vector times matrix, `point * matrix`: the rows of m combined
      with the coordinates of v as coefficients. */
  function Transform(v: Vec4, m: Mat4): Vec4 {
    VAdd(VAdd(VScale(v.x, m.r0), VScale(v.y, m.r1)),
         VAdd(VScale(v.z, m.r2), VScale(v.w, m.r3)))
  }

  /** Matrix product a * b: each row of a transformed by b. */
  function Mul(a: Mat4, b: Mat4): Mat4 {
    Mat4(Transform(a.r0, b), Transform(a.r1, b), Transform(a.r2, b), Transform(a.r3, b))
  }

  /** A translation by t in the row-vector convention (translation in the last row). */
  function Translation(tx: real, ty: real, tz: real): Mat4 {
    Mat4(Vec4(1.0, 0.0, 0.0, 0.0),
         Vec4(0.0, 1.0, 0.0, 0.0),
         Vec4(0.0, 0.0, 1.0, 0.0),
         Vec4(tx, ty, tz, 1.0))
  }

  /** n is a two-sided inverse of m. */
  ghost predicate IsInverse(m: Mat4, n: Mat4) {
    Mul(m, n) == Identity && Mul(n, m) == Identity
  }

  ghost predicate Invertible(m: Mat4) {
    exists n :: IsInverse(m, n)
  }

  /** What the host library's inverse promises: for every non-singular
      matrix it returns that matrix's inverse (nothing is said about
      singular matrices). */
  ghost predicate InverseOp(inverse: Mat4 -> Mat4) {
    forall m :: Invertible(m) ==> IsInverse(m, inverse(m))
  }

  // ----- vector and matrix algebra -----

  lemma VScaleAdd(c: real, u: Vec4, v: Vec4)
    ensures VScale(c, VAdd(u, v)) == VAdd(VScale(c, u), VScale(c, v))
  {
  }

  lemma VScaleScale(c: real, d: real, v: Vec4)
    ensures VScale(c, VScale(d, v)) == VScale(c * d, v)
  {
  }

  lemma VAddScales(c: real, d: real, v: Vec4)
    ensures VAdd(VScale(c, v), VScale(d, v)) == VScale(c + d, v)
  {
  }

  lemma TransformAdd(u: Vec4, v: Vec4, m: Mat4)
    ensures Transform(VAdd(u, v), m) == VAdd(Transform(u, m), Transform(v, m))
  {
    VAddScales(u.x, v.x, m.r0);
    VAddScales(u.y, v.y, m.r1);
    VAddScales(u.z, v.z, m.r2);
    VAddScales(u.w, v.w, m.r3);
  }

  lemma TransformScale(c: real, v: Vec4, m: Mat4)
    ensures Transform(VScale(c, v), m) == VScale(c, Transform(v, m))
  {
    var a, b := VScale(v.x, m.r0), VScale(v.y, m.r1);
    var d, e := VScale(v.z, m.r2), VScale(v.w, m.r3);
    var cv := VScale(c, v);
    assert cv.x == c * v.x && cv.y == c * v.y && cv.z == c * v.z && cv.w == c * v.w;
    VScaleScaleTo(c, v.x, cv.x, m.r0);
    VScaleScaleTo(c, v.y, cv.y, m.r1);
    VScaleScaleTo(c, v.z, cv.z, m.r2);
    VScaleScaleTo(c, v.w, cv.w, m.r3);
    VScaleAdd(c, a, b);
    VScaleAdd(c, d, e);
    VScaleAdd(c, VAdd(a, b), VAdd(d, e));
  }

  /** VScaleScale with the product named. */
  lemma VScaleScaleTo(c: real, d: real, cd: real, v: Vec4)
    requires cd == c * d
    ensures VScale(c, VScale(d, v)) == VScale(cd, v)
  {
    VScaleScale(c, d, v);
  }

  /** Transforming by a product is transforming twice. */
  lemma TransformMul(v: Vec4, a: Mat4, b: Mat4)
    ensures Transform(Transform(v, a), b) == Transform(v, Mul(a, b))
  {
    var s0, s1 := VScale(v.x, a.r0), VScale(v.y, a.r1);
    var s2, s3 := VScale(v.z, a.r2), VScale(v.w, a.r3);
    TransformAdd(VAdd(s0, s1), VAdd(s2, s3), b);
    TransformAdd(s0, s1, b);
    TransformAdd(s2, s3, b);
    TransformScale(v.x, a.r0, b);
    TransformScale(v.y, a.r1, b);
    TransformScale(v.z, a.r2, b);
    TransformScale(v.w, a.r3, b);
  }

  lemma VScaleUnit(v: Vec4)
    ensures VScale(1.0, v) == v && VScale(0.0, v) == ZeroVec
    ensures VAdd(ZeroVec, v) == v && VAdd(v, ZeroVec) == v
  {
  }

  lemma TransformIdentity(v: Vec4)
    ensures Transform(v, Identity) == v
  {
  }

  lemma TransformUnitRows(a: Mat4)
    ensures Transform(Vec4(1.0, 0.0, 0.0, 0.0), a) == a.r0
    ensures Transform(Vec4(0.0, 1.0, 0.0, 0.0), a) == a.r1
    ensures Transform(Vec4(0.0, 0.0, 1.0, 0.0), a) == a.r2
    ensures Transform(Vec4(0.0, 0.0, 0.0, 1.0), a) == a.r3
  {
    VScaleUnit(a.r0);
    VScaleUnit(a.r1);
    VScaleUnit(a.r2);
    VScaleUnit(a.r3);
  }

  lemma MulAssoc(a: Mat4, b: Mat4, c: Mat4)
    ensures Mul(Mul(a, b), c) == Mul(a, Mul(b, c))
  {
    TransformMul(a.r0, b, c);
    TransformMul(a.r1, b, c);
    TransformMul(a.r2, b, c);
    TransformMul(a.r3, b, c);
  }

  lemma MulIdentity(a: Mat4)
    ensures Mul(a, Identity) == a && Mul(Identity, a) == a
  {
    MulIdentityRight(a);
    MulIdentityLeft(a);
  }

  lemma MulIdentityRight(a: Mat4)
    ensures Mul(a, Identity) == a
  {
    TransformIdentity(a.r0);
    TransformIdentity(a.r1);
    TransformIdentity(a.r2);
    TransformIdentity(a.r3);
  }

  lemma MulIdentityLeft(a: Mat4)
    ensures Mul(Identity, a) == a
  {
    TransformUnitRows(a);
  }

  /** Transform is linear in the matrix: it distributes over Add and Scale. */
  lemma TransformAddMatrix(v: Vec4, a: Mat4, b: Mat4)
    ensures Transform(v, Add(a, b)) == VAdd(Transform(v, a), Transform(v, b))
  {
    VScaleAdd(v.x, a.r0, b.r0);
    VScaleAdd(v.y, a.r1, b.r1);
    VScaleAdd(v.z, a.r2, b.r2);
    VScaleAdd(v.w, a.r3, b.r3);
  }

  lemma VScaleCommute(c: real, d: real, v: Vec4)
    ensures VScale(c, VScale(d, v)) == VScale(d, VScale(c, v))
  {
    VScaleScale(c, d, v);
    VScaleScale(d, c, v);
    assert c * d == d * c;
  }

  lemma TransformScaleMatrix(v: Vec4, c: real, a: Mat4)
    ensures Transform(v, Scale(c, a)) == VScale(c, Transform(v, a))
  {
    VScaleCommute(v.x, c, a.r0);
    VScaleCommute(v.y, c, a.r1);
    VScaleCommute(v.z, c, a.r2);
    VScaleCommute(v.w, c, a.r3);
    var s0, s1 := VScale(v.x, a.r0), VScale(v.y, a.r1);
    var s2, s3 := VScale(v.z, a.r2), VScale(v.w, a.r3);
    VScaleAdd(c, VAdd(s0, s1), VAdd(s2, s3));
    VScaleAdd(c, s0, s1);
    VScaleAdd(c, s2, s3);
  }

  lemma ScaleAdd(c: real, a: Mat4, b: Mat4)
    ensures Scale(c, Add(a, b)) == Add(Scale(c, a), Scale(c, b))
  {
    VScaleAdd(c, a.r0, b.r0);
    VScaleAdd(c, a.r1, b.r1);
    VScaleAdd(c, a.r2, b.r2);
    VScaleAdd(c, a.r3, b.r3);
  }

  lemma ScaleScale(c: real, d: real, a: Mat4)
    ensures Scale(c, Scale(d, a)) == Scale(c * d, a)
  {
    VScaleScale(c, d, a.r0);
    VScaleScale(c, d, a.r1);
    VScaleScale(c, d, a.r2);
    VScaleScale(c, d, a.r3);
  }

  lemma AddScales(c: real, d: real, a: Mat4)
    ensures Add(Scale(c, a), Scale(d, a)) == Scale(c + d, a)
  {
    VAddScales(c, d, a.r0);
    VAddScales(c, d, a.r1);
    VAddScales(c, d, a.r2);
    VAddScales(c, d, a.r3);
  }

  lemma ScaleUnit(c: real, a: Mat4)
    ensures Scale(c, Zero) == Zero && Scale(1.0, a) == a && Scale(0.0, a) == Zero
    ensures Add(Zero, a) == a && Add(a, Zero) == a
  {
    VScaleUnit(a.r0);
    VScaleUnit(a.r1);
    VScaleUnit(a.r2);
    VScaleUnit(a.r3);
  }

  /** Scaling a factor of a product scales the product. */
  lemma MulScale(c: real, a: Mat4, b: Mat4)
    ensures Mul(Scale(c, a), b) == Scale(c, Mul(a, b))
    ensures Mul(a, Scale(c, b)) == Scale(c, Mul(a, b))
  {
    TransformScale(c, a.r0, b);
    TransformScale(c, a.r1, b);
    TransformScale(c, a.r2, b);
    TransformScale(c, a.r3, b);
    TransformScaleMatrix(a.r0, c, b);
    TransformScaleMatrix(a.r1, c, b);
    TransformScaleMatrix(a.r2, c, b);
    TransformScaleMatrix(a.r3, c, b);
  }

  // ----- inverses -----

  /** A matrix has at most one inverse. */
  lemma {:induction false} InverseUnique(m: Mat4, n1: Mat4, n2: Mat4)
    requires IsInverse(m, n1) && IsInverse(m, n2)
    ensures n1 == n2
  {
    calc {
      n1;
      { MulIdentity(n1); }
      Mul(n1, Identity);
      Mul(n1, Mul(m, n2));
      { MulAssoc(n1, m, n2); }
      Mul(Mul(n1, m), n2);
      Mul(Identity, n2);
      { MulIdentity(n2); }
      n2;
    }
  }

  /** Anything times the zero matrix on the left is the zero matrix. */
  lemma MulZero(n: Mat4)
    ensures Mul(Zero, n) == Zero
  {
    VScaleUnit(n.r0);
    VScaleUnit(n.r1);
    VScaleUnit(n.r2);
    VScaleUnit(n.r3);
  }

  /** The zero matrix has no inverse. */
  lemma ZeroSingular()
    ensures !Invertible(Zero)
  {
    forall n ensures !IsInverse(Zero, n) {
      MulZero(n);
      assert Zero.r0.x != Identity.r0.x;
    }
  }

  /** The host inverse of any matrix with a known inverse n is n. */
  lemma InverseOfKnown(inverse: Mat4 -> Mat4, m: Mat4, n: Mat4)
    requires InverseOp(inverse) && IsInverse(m, n)
    ensures inverse(m) == n
  {
    assert Invertible(m);
    InverseUnique(m, inverse(m), n);
  }

  /** Transforming by m and then by its inverse (or the other way round)
      gives the point back. */
  lemma TransformInverse(v: Vec4, m: Mat4, n: Mat4)
    requires IsInverse(m, n)
    ensures Transform(Transform(v, m), n) == v
    ensures Transform(Transform(v, n), m) == v
  {
    TransformMul(v, m, n);
    TransformMul(v, n, m);
    TransformIdentity(v);
  }

  /** What a translation does to a homogeneous point. */
  lemma TransformTranslation(p: Vec4, tx: real, ty: real, tz: real)
    ensures Transform(p, Translation(tx, ty, tz))
         == Vec4(p.x + p.w * tx, p.y + p.w * ty, p.z + p.w * tz, p.w)
  {
  }

  /** (c * m) is invertible whenever m is and c != 0, with inverse (1/c) * n. */
  lemma ScaledInverse(c: real, m: Mat4, n: Mat4)
    requires c != 0.0 && IsInverse(m, n)
    ensures IsInverse(Scale(c, m), Scale(1.0 / c, n))
  {
    var k := 1.0 / c;
    assert c * k == 1.0 && k * c == 1.0;
    MulScale(c, m, Scale(k, n));
    MulScale(k, m, n);
    ScaleScale(c, k, Mul(m, n));
    MulScale(k, n, Scale(c, m));
    MulScale(c, n, m);
    ScaleScale(k, c, Mul(n, m));
    ScaleUnit(1.0, Identity);
  }

  /** c * I is invertible for c != 0, with inverse (1/c) * I. */
  lemma ScaledIdentityInverse(c: real)
    requires c != 0.0
    ensures IsInverse(Scale(c, Identity), Scale(1.0 / c, Identity))
  {
    MulIdentity(Identity);
    ScaledInverse(c, Identity, Identity);
  }

  /** Moving by (tx, ty, tz) is undone by moving by (sx, sy, sz) = -(tx, ty, tz). */
  lemma TranslationInverse(tx: real, ty: real, tz: real, sx: real, sy: real, sz: real)
    requires tx + sx == 0.0 && ty + sy == 0.0 && tz + sz == 0.0
    ensures IsInverse(Translation(tx, ty, tz), Translation(sx, sy, sz))
  {
    assert sx + tx == 0.0 && sy + ty == 0.0 && sz + tz == 0.0;
    TranslationCancel(tx, ty, tz, sx, sy, sz);
    TranslationCancel(sx, sy, sz, tx, ty, tz);
  }

  /** The host inverse of a translation is the opposite translation. */
  lemma InverseOfTranslation(inverse: Mat4 -> Mat4, tx: real, ty: real, tz: real, sx: real, sy: real, sz: real)
    requires InverseOp(inverse)
    requires tx + sx == 0.0 && ty + sy == 0.0 && tz + sz == 0.0
    ensures inverse(Translation(tx, ty, tz)) == Translation(sx, sy, sz)
  {
    TranslationInverse(tx, ty, tz, sx, sy, sz);
    InverseOfKnown(inverse, Translation(tx, ty, tz), Translation(sx, sy, sz));
  }

  lemma TranslationCancel(tx: real, ty: real, tz: real, sx: real, sy: real, sz: real)
    requires tx + sx == 0.0 && ty + sy == 0.0 && tz + sz == 0.0
    ensures Mul(Translation(tx, ty, tz), Translation(sx, sy, sz)) == Identity
  {
    TransformUnitRows(Translation(sx, sy, sz));
    TranslationLastRow(tx, ty, tz, sx, sy, sz);
  }

  lemma TranslationLastRow(tx: real, ty: real, tz: real, sx: real, sy: real, sz: real)
    requires tx + sx == 0.0 && ty + sy == 0.0 && tz + sz == 0.0
    ensures Transform(Vec4(tx, ty, tz, 1.0), Translation(sx, sy, sz)) == Vec4(0.0, 0.0, 0.0, 1.0)
  {
  }
}

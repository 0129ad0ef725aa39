/** The part of glm's linear algebra that transform.h uses: 3- and 4-component
    vectors, 4x4 matrices stored column by column (as glm stores them), the
    identity, the product, and glm::translate. Components are reals: float
    rounding is not modelled. */
module Glm {

  datatype Vec3 = Vec3(x: real, y: real, z: real)

  datatype Vec4 = Vec4(x: real, y: real, z: real, w: real)

  /** A 4x4 matrix as its four columns; c3 holds the translation part. */
  datatype Mat4 = Mat4(c0: Vec4, c1: Vec4, c2: Vec4, c3: Vec4)

  const Zero3: Vec3 := Vec3(0.0, 0.0, 0.0)
  const Zero4: Vec4 := Vec4(0.0, 0.0, 0.0, 0.0)

  // The columns of the identity; E3 is also the homogeneous origin.
  const E0: Vec4 := Vec4(1.0, 0.0, 0.0, 0.0)
  const E1: Vec4 := Vec4(0.0, 1.0, 0.0, 0.0)
  const E2: Vec4 := Vec4(0.0, 0.0, 1.0, 0.0)
  const E3: Vec4 := Vec4(0.0, 0.0, 0.0, 1.0)

  /** glm::mat4(1.0f) */
  const Identity: Mat4 := Mat4(E0, E1, E2, E3)

  function Neg(v: Vec3): Vec3 {
    Vec3(-v.x, -v.y, -v.z)
  }

  function Add3(a: Vec3, b: Vec3): Vec3 {
    Vec3(a.x + b.x, a.y + b.y, a.z + b.z)
  }

  /** The homogeneous point of v (w = 1). */
  function Point(v: Vec3): Vec4 {
    Vec4(v.x, v.y, v.z, 1.0)
  }

  function Add4(a: Vec4, b: Vec4): Vec4 {
    Vec4(a.x + b.x, a.y + b.y, a.z + b.z, a.w + b.w)
  }

  function Scale4(a: Vec4, k: real): Vec4 {
    Vec4(a.x * k, a.y * k, a.z * k, a.w * k)
  }

  /** The matrix applied to a column vector: the combination of the matrix's
      columns weighted by the vector's components. */
  function Apply(m: Mat4, v: Vec4): Vec4 {
    Add4(Add4(Add4(Scale4(m.c0, v.x), Scale4(m.c1, v.y)), Scale4(m.c2, v.z)), Scale4(m.c3, v.w))
  }

  /** The matrix product a * b: column j of the result is a applied to column j of b. */
  function Mul(a: Mat4, b: Mat4): Mat4 {
    Mat4(Apply(a, b.c0), Apply(a, b.c1), Apply(a, b.c2), Apply(a, b.c3))
  }

  /** The translation matrix of v: the identity with (v, 1) as its last column. */
  function Translation(v: Vec3): Mat4 {
    Mat4(E0, E1, E2, Point(v))
  }

  /** glm::translate(m, v) as glm computes it: only the last column changes,
      to m[0] * v[0] + m[1] * v[1] + m[2] * v[2] + m[3]. glm documents it as
      m multiplied on the right by the translation matrix of v (lemma
      TranslateIsProduct). */
  function Translate(m: Mat4, v: Vec3): Mat4 {
    Mat4(m.c0, m.c1, m.c2,
         Add4(Add4(Add4(Scale4(m.c0, v.x), Scale4(m.c1, v.y)), Scale4(m.c2, v.z)), m.c3))
  }

  /** glm's documented meaning of translate: the product m * Translation(v). */
  lemma TranslateIsProduct(m: Mat4, v: Vec3)
    ensures Translate(m, v) == Mul(m, Translation(v))
  {
    ApplyColumns(m);
    ScaleOne(m.c3);
  }

  /** The translation matrix carries the origin to the point v. */
  lemma TranslationMovesOrigin(v: Vec3)
    ensures Apply(Translation(v), E3) == Point(v)
  {
    ApplyColumns(Translation(v));
  }

  // Small arithmetic steps. Each keeps one real product in view at a time, so
  // that the solver never has to reason about products of unknowns.

  lemma ScaleZero(a: Vec4)
    ensures Scale4(a, 0.0) == Zero4
  {
  }

  lemma ScaleOne(a: Vec4)
    ensures Scale4(a, 1.0) == a
  {
  }

  lemma ScaleAdd(a: Vec4, s: real, t: real)
    ensures Scale4(a, s + t) == Add4(Scale4(a, s), Scale4(a, t))
  {
  }

  lemma ScaleColumns(k: real)
    ensures Scale4(E0, k) == Vec4(k, 0.0, 0.0, 0.0)
    ensures Scale4(E1, k) == Vec4(0.0, k, 0.0, 0.0)
    ensures Scale4(E2, k) == Vec4(0.0, 0.0, k, 0.0)
    ensures Scale4(E3, k) == Vec4(0.0, 0.0, 0.0, k)
  {
  }

  /** A matrix applied to the i-th unit vector gives its i-th column. */
  lemma ApplyColumns(m: Mat4)
    ensures Apply(m, E0) == m.c0 && Apply(m, E1) == m.c1
    ensures Apply(m, E2) == m.c2 && Apply(m, E3) == m.c3
  {
    ScaleZero(m.c0); ScaleZero(m.c1); ScaleZero(m.c2); ScaleZero(m.c3);
    ScaleOne(m.c0); ScaleOne(m.c1); ScaleOne(m.c2); ScaleOne(m.c3);
  }

  lemma ApplyIdentity(v: Vec4)
    ensures Apply(Identity, v) == v
  {
    ScaleColumns(v.x); ScaleColumns(v.y); ScaleColumns(v.z); ScaleColumns(v.w);
  }

  lemma MulIdentityRight(m: Mat4)
    ensures Mul(m, Identity) == m
  {
    ApplyColumns(m);
  }

  lemma MulIdentityLeft(m: Mat4)
    ensures Mul(Identity, m) == m
  {
    ApplyIdentity(m.c0); ApplyIdentity(m.c1); ApplyIdentity(m.c2); ApplyIdentity(m.c3);
  }

  /** Two translations applied one after the other are one translation by the sum. */
  lemma TranslateTwice(m: Mat4, a: Vec3, b: Vec3)
    ensures Translate(Translate(m, a), b) == Translate(m, Add3(a, b))
  {
    ScaleAdd(m.c0, a.x, b.x);
    ScaleAdd(m.c1, a.y, b.y);
    ScaleAdd(m.c2, a.z, b.z);
  }

  lemma TranslateByZero(m: Mat4)
    ensures Translate(m, Zero3) == m
  {
    ScaleZero(m.c0); ScaleZero(m.c1); ScaleZero(m.c2);
  }

  /** Translating by -v undoes translating by v, in either order. */
  lemma TranslateCancels(m: Mat4, v: Vec3)
    ensures Translate(Translate(m, Neg(v)), v) == m
    ensures Translate(Translate(m, v), Neg(v)) == m
  {
    TranslateTwice(m, Neg(v), v);
    TranslateTwice(m, v, Neg(v));
    assert Add3(Neg(v), v) == Zero3 && Add3(v, Neg(v)) == Zero3;
    TranslateByZero(m);
  }

  /** Translation(-v) * Translation(v) is the identity, and so is the product
      in the other order. */
  lemma TranslationInverse(v: Vec3)
    ensures Mul(Translation(Neg(v)), Translation(v)) == Identity
    ensures Mul(Translation(v), Translation(Neg(v))) == Identity
  {
    TranslateCancels(Identity, v);
    TranslateIsProduct(Identity, v);
    TranslateIsProduct(Identity, Neg(v));
    TranslateIsProduct(Translation(Neg(v)), v);
    TranslateIsProduct(Translation(v), Neg(v));
    MulIdentityLeft(Translation(v));
    MulIdentityLeft(Translation(Neg(v)));
  }
}

/** The Transform class of the camera example: four matrices (translation T,
    rotation R, shear Sh, scale S) and a pivot point, composed into one model
    matrix. The three getters read the fields and change nothing, so they are
    functions of the object's state. */
module Transforms {
  import opened Glm

  class Transform {
    var T: Mat4
    var R: Mat4
    var Sh: Mat4
    var S: Mat4
    var pivot: Vec3

    /** Every matrix starts as the identity and the pivot at the origin. */
    constructor ()
      ensures T == Identity && R == Identity && Sh == Identity && S == Identity
      ensures pivot == Zero3
    {
      T := Identity;
      R := Identity;
      Sh := Identity;
      S := Identity;
      pivot := Zero3;
    }

    /** Stores the five arguments as they are. */
    constructor FromParts(t: Mat4, r: Mat4, sh: Mat4, s: Mat4, p: Vec3)
      ensures T == t && R == r && Sh == sh && S == s && pivot == p
    {
      T := t;
      R := r;
      Sh := sh;
      S := s;
      pivot := p;
    }

    /** The model matrix, written as the header writes it:
        translate(T, -pivot) * translate(I, pivot) * R * translate(I, -pivot) * Sh * S.
        The first two factors cancel down to T, so what is left is
        T * R * Translation(-pivot) * Sh * S: the pivot is moved to the local
        origin, rotated there, and the result placed by T. */
    function GetMatrix(): (m: Mat4)
      reads this
      ensures m == Mul(Mul(Mul(Mul(T, R), Translation(Neg(pivot))), Sh), S)
    {
      PivotFactorsCancel(T, pivot);
      Mul(Mul(Mul(Mul(Mul(Translate(T, Neg(pivot)), Translate(Identity, pivot)), R),
                  Translate(Identity, Neg(pivot))), Sh), S)
    }

    /** T as stored, without the pivot correction that GetTranslation applies. */
    function GetRawTranslation(): (m: Mat4)
      reads this
      ensures m == T
      ensures Translate(m, Neg(pivot)) == GetTranslation()
    {
      T
    }

    /** T with the pivot offset taken off: T * Translation(-pivot). */
    function GetTranslation(): (m: Mat4)
      reads this
      ensures m == Mul(T, Translation(Neg(pivot)))
    {
      TranslateIsProduct(T, Neg(pivot));
      Translate(T, Neg(pivot))
    }
  }

  /** translate(T, -p) * translate(I, p) is T again, and translate(I, v) is the
      translation matrix of v. */
  lemma PivotFactorsCancel(t: Mat4, p: Vec3)
    ensures Mul(Translate(t, Neg(p)), Translate(Identity, p)) == t
    ensures Translate(Identity, Neg(p)) == Translation(Neg(p))
  {
    TranslationOfIdentity(p);
    TranslationOfIdentity(Neg(p));
    TranslateIsProduct(Translate(t, Neg(p)), p);
    TranslateCancels(t, p);
  }

  lemma TranslationOfIdentity(v: Vec3)
    ensures Translate(Identity, v) == Translation(v)
  {
    TranslateIsProduct(Identity, v);
    MulIdentityLeft(Translation(v));
  }

  /** GetMatrix is GetTranslation() * Translation(pivot) * R * Translation(-pivot) * Sh * S,
      the pivot-about rotation placed by the pivot-corrected translation. */
  lemma GetMatrixFromTranslation(tr: Transform)
    ensures tr.GetMatrix() ==
      Mul(Mul(Mul(Mul(Mul(tr.GetTranslation(), Translation(tr.pivot)), tr.R),
                  Translation(Neg(tr.pivot))), tr.Sh), tr.S)
  {
    PivotFactorsCancel(tr.T, tr.pivot);
    TranslationOfIdentity(tr.pivot);
    TranslateIsProduct(tr.T, Neg(tr.pivot));
  }

  /** The raw translation is T itself; the pivot-corrected one is T translated
      by -pivot, and translating it back by the pivot gives the raw one. */
  lemma RawAndPivotedTranslation(tr: Transform)
    ensures tr.GetRawTranslation() == tr.T
    ensures tr.GetTranslation() == Translate(tr.GetRawTranslation(), Neg(tr.pivot))
    ensures Mul(tr.GetTranslation(), Translation(tr.pivot)) == tr.GetRawTranslation()
  {
    TranslateIsProduct(tr.T, Neg(tr.pivot));
    TranslateIsProduct(Translate(tr.T, Neg(tr.pivot)), tr.pivot);
    TranslateCancels(tr.T, tr.pivot);
  }

  /** With the pivot at the origin, the model matrix is T * R * Sh * S and the
      two translation getters agree. */
  lemma ZeroPivot(tr: Transform)
    requires tr.pivot == Zero3
    ensures tr.GetMatrix() == Mul(Mul(Mul(tr.T, tr.R), tr.Sh), tr.S)
    ensures tr.GetTranslation() == tr.GetRawTranslation()
  {
    assert Translation(Neg(tr.pivot)) == Identity;
    MulIdentityRight(Mul(tr.T, tr.R));
    MulIdentityRight(tr.T);
  }

  /** A default-constructed Transform yields the identity model matrix. */
  lemma DefaultIsIdentity(tr: Transform)
    requires tr.T == Identity && tr.R == Identity && tr.Sh == Identity && tr.S == Identity
    requires tr.pivot == Zero3
    ensures tr.GetMatrix() == Identity
    ensures tr.GetTranslation() == Identity
  {
    ZeroPivot(tr);
    MulIdentityRight(Identity);
  }

  /** Where the pivot goes: with no shear, no scale and a rotation that keeps
      the origin, GetMatrix carries the pivot point to where T carries the
      origin (T's last column), whatever the rotation. */
  lemma PivotLandsAtTranslation(tr: Transform)
    requires tr.Sh == Identity && tr.S == Identity && tr.R.c3 == E3
    ensures Apply(tr.GetMatrix(), Point(tr.pivot)) == tr.T.c3
  {
    var x := Mul(tr.T, tr.R);
    var p := tr.pivot;
    MulIdentityRight(Mul(x, Translation(Neg(p))));
    TranslateIsProduct(x, Neg(p));
    ApplyTranslateBack(x, p);
    ApplyColumns(tr.T);
  }

  lemma ApplyTranslateBack(x: Mat4, p: Vec3)
    ensures Apply(Translate(x, Neg(p)), Point(p)) == x.c3
  {
    ScaleOne(Translate(x, Neg(p)).c3);
    ScaleCancel(x.c0, p.x);
    ScaleCancel(x.c1, p.y);
    ScaleCancel(x.c2, p.z);
  }

  lemma ScaleCancel(a: Vec4, k: real)
    ensures Add4(Scale4(a, k), Scale4(a, -k)) == Zero4
  {
  }
}

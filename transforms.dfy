/**
  4x4 homogeneous rigid transforms: `form_T`, the matrix product that chains
  them, and the inverse that `np.linalg.inv` computes for them, written in
  the closed form for rigid motions.
*/
module Transforms {
  import opened Matrices

  /** The shapes of a detected pose: a 3x3 rotation and a 3-vector translation. */
  predicate IsPose(r: Matrix, p: Vector)
  {
    IsMatrix(r, 3, 3) && |p| == 3
  }

  /** `form_T(R, p)`: the homogeneous matrix [[R, p], [0, 0, 0, 1]]. */
  function FormT(r: Matrix, p: Vector): (t: Matrix)
    requires IsPose(r, p)
    ensures IsMatrix(t, 4, 4) && t[3] == [0.0, 0.0, 0.0, 1.0]
  {
    [r[0] + [p[0]], r[1] + [p[1]], r[2] + [p[2]], [0.0, 0.0, 0.0, 1.0]]
  }

  /** The top-left 3x3 block. */
  function Rotation(t: Matrix): (r: Matrix)
    requires IsMatrix(t, 4, 4)
    ensures IsMatrix(r, 3, 3)
  {
    [t[0][..3], t[1][..3], t[2][..3]]
  }

  /** The first three entries of the last column. */
  function Translation(t: Matrix): (p: Vector)
    requires IsMatrix(t, 4, 4)
    ensures |p| == 3
  {
    [t[0][3], t[1][3], t[2][3]]
  }

  /** A 4x4 matrix whose bottom row is [0, 0, 0, 1]. */
  predicate IsHomogeneous(t: Matrix)
  {
    IsMatrix(t, 4, 4) && t[3] == [0.0, 0.0, 0.0, 1.0]
  }

  /** Rᵀ R = R Rᵀ = I. */
  predicate IsOrthonormal(r: Matrix)
  {
    IsMatrix(r, 3, 3) && Mul(Transpose(r), r) == Identity(3) && Mul(r, Transpose(r)) == Identity(3)
  }

  /** A homogeneous transform whose rotation block is orthonormal. */
  predicate IsRigid(t: Matrix)
  {
    IsHomogeneous(t) && IsOrthonormal(Rotation(t))
  }

  /**
    `np.linalg.inv` applied to a rigid transform, in closed form:
    [[R, p], [0, 1]] becomes [[Rᵀ, -Rᵀ p], [0, 1]].
  */
  function RigidInverse(t: Matrix): (ti: Matrix)
    requires IsMatrix(t, 4, 4)
    ensures IsHomogeneous(ti)
  {
    var rt := Transpose(Rotation(t));
    FormT(rt, Neg(MatVec(rt, Translation(t))))
  }

  /** `form_T` is undone by reading its blocks back, and its result is homogeneous. */
  lemma FormTBlocks(r: Matrix, p: Vector)
    requires IsPose(r, p)
    ensures IsHomogeneous(FormT(r, p))
    ensures Rotation(FormT(r, p)) == r
    ensures Translation(FormT(r, p)) == p
  {
    var t := FormT(r, p);
    assert t[0][..3] == r[0] && t[1][..3] == r[1] && t[2][..3] == r[2];
  }

  /** Every homogeneous matrix is `form_T` of its blocks. */
  lemma HomogeneousIsFormT(t: Matrix)
    requires IsHomogeneous(t)
    ensures FormT(Rotation(t), Translation(t)) == t
  {
    var f := FormT(Rotation(t), Translation(t));
    forall i | 0 <= i < 3
      ensures f[i] == t[i]
    {
      assert t[i] == t[i][..3] + [t[i][3]];
    }
  }

  /** Column j of `form_T(R, p)`: column j of R then 0, or p then 1 for the last column. */
  lemma FormTColumn(r: Matrix, p: Vector, j: nat)
    requires IsPose(r, p) && j < 4
    ensures Column(FormT(r, p), j) == if j < 3 then Column(r, j) + [0.0] else p + [1.0]
  {
  }

  /** Chaining two `form_T` transforms: rotations multiply, translations combine as R q + p. */
  lemma FormTMul(r: Matrix, p: Vector, s: Matrix, q: Vector)
    requires IsPose(r, p) && IsPose(s, q)
    ensures Mul(FormT(r, p), FormT(s, q)) == FormT(Mul(r, s), Add(MatVec(r, q), p))
  {
    var t1, t2 := FormT(r, p), FormT(s, q);
    var lhs, rhs := Mul(t1, t2), FormT(Mul(r, s), Add(MatVec(r, q), p));
    forall i, j | 0 <= i < 4 && 0 <= j < 4
      ensures lhs[i][j] == rhs[i][j]
    {
      MulEntry(t1, t2, i, j);
      FormTColumn(s, q, j);
      var col := if j < 3 then Column(s, j) else q;
      var last := if j < 3 then 0.0 else 1.0;
      assert Column(t2, j) == col + [last];
      if i < 3 {
        assert t1[i] == r[i] + [p[i]];
        DotAppend(r[i], col, p[i], last);
        if j < 3 {
          MulEntry(r, s, i, j);
        }
      } else {
        assert t1[i] == Zeros(3) + [1.0];
        DotAppend(Zeros(3), col, 1.0, last);
        DotZerosLeft(Zeros(3), col);
      }
    }
    MatrixEquality(lhs, rhs, 4);
  }

  /** `form_T(I, 0)` is the 4x4 identity. */
  lemma IdentityIsFormT()
    ensures FormT(Identity(3), Zeros(3)) == Identity(4)
  {
    MatrixEquality(FormT(Identity(3), Zeros(3)), Identity(4), 4);
  }

  lemma IdentityIsOrthonormal()
    ensures IsOrthonormal(Identity(3))
  {
    TransposeIdentity(3);
    MulIdentityLeft(Identity(3));
  }

  /** The debug-mode robot transform is rigid. */
  lemma IdentityIsRigid()
    ensures IsRigid(Identity(4))
  {
    IdentityIsFormT();
    FormTBlocks(Identity(3), Zeros(3));
    IdentityIsOrthonormal();
  }

  /** The closed form is a right inverse of every rigid transform. */
  lemma RigidInverseRight(t: Matrix)
    requires IsRigid(t)
    ensures Mul(t, RigidInverse(t)) == Identity(4)
  {
    var r, p := Rotation(t), Translation(t);
    var rt := Transpose(r);
    var p' := Neg(MatVec(rt, p));
    HomogeneousIsFormT(t);
    FormTMul(r, p, rt, p');
    MatVecNeg(r, MatVec(rt, p));
    MatVecMul(r, rt, p);
    MatVecIdentity(p);
    assert Add(MatVec(r, p'), p) == Zeros(3);
    IdentityIsFormT();
  }

  /** The closed form is a left inverse of every rigid transform. */
  lemma RigidInverseLeft(t: Matrix)
    requires IsRigid(t)
    ensures Mul(RigidInverse(t), t) == Identity(4)
  {
    var r, p := Rotation(t), Translation(t);
    var rt := Transpose(r);
    var p' := Neg(MatVec(rt, p));
    HomogeneousIsFormT(t);
    FormTMul(rt, p', r, p);
    assert Add(MatVec(rt, p), p') == Zeros(3);
    IdentityIsFormT();
  }

  /** Inverting the identity gives the identity. */
  lemma RigidInverseOfIdentity()
    ensures RigidInverse(Identity(4)) == Identity(4)
  {
    IdentityIsFormT();
    FormTBlocks(Identity(3), Zeros(3));
    TransposeIdentity(3);
    MatVecZeros(Identity(3), 3);
    assert Neg(Zeros(3)) == Zeros(3);
  }

  /**
    Any right inverse of a rigid transform is the closed form, so the
    closed form is exactly what an exact `np.linalg.inv` returns.
  */
  lemma RigidInverseIsTheInverse(t: Matrix, x: Matrix)
    requires IsRigid(t) && IsMatrix(x, 4, 4)
    requires Mul(t, x) == Identity(4)
    ensures x == RigidInverse(t)
  {
    var ti := RigidInverse(t);
    calc {
      x;
      { MulIdentityLeft(x); }
      Mul(Identity(4), x);
      { RigidInverseLeft(t); }
      Mul(Mul(ti, t), x);
      { MulAssociative(ti, t, x); }
      Mul(ti, Mul(t, x));
      { MulIdentityRight(ti); }
      ti;
    }
  }

  /** Chaining keeps the bottom row [0, 0, 0, 1]. */
  lemma MulHomogeneous(a: Matrix, b: Matrix)
    requires IsHomogeneous(a) && IsHomogeneous(b)
    ensures IsHomogeneous(Mul(a, b))
  {
    var m := Mul(a, b);
    forall j | 0 <= j < 4
      ensures m[3][j] == b[3][j]
    {
      MulEntry(a, b, 3, j);
      DotUnitLeft(a[3], Column(b, j), 3);
    }
    assert m[3] == b[3];
  }

  /** The product of two orthonormal matrices is orthonormal. */
  lemma OrthonormalMul(r: Matrix, s: Matrix)
    requires IsOrthonormal(r) && IsOrthonormal(s)
    ensures IsOrthonormal(Mul(r, s))
  {
    var rt, st := Transpose(r), Transpose(s);
    var m := Mul(r, s);
    TransposeMul(r, s);
    calc {
      Mul(Mul(st, rt), m);
      { MulAssociative(st, rt, m); }
      Mul(st, Mul(rt, Mul(r, s)));
      { MulAssociative(rt, r, s); }
      Mul(st, Mul(Mul(rt, r), s));
      { MulIdentityLeft(s); }
      Mul(st, s);
      Identity(3);
    }
    calc {
      Mul(m, Mul(st, rt));
      { MulAssociative(r, s, Mul(st, rt)); }
      Mul(r, Mul(s, Mul(st, rt)));
      { MulAssociative(s, st, rt); }
      Mul(r, Mul(Mul(s, st), rt));
      { MulIdentityLeft(rt); }
      Mul(r, rt);
      Identity(3);
    }
  }

  /** Chaining two rigid transforms gives a rigid transform. */
  lemma MulRigid(a: Matrix, b: Matrix)
    requires IsRigid(a) && IsRigid(b)
    ensures IsRigid(Mul(a, b))
  {
    var ra, pa, rb, pb := Rotation(a), Translation(a), Rotation(b), Translation(b);
    HomogeneousIsFormT(a);
    HomogeneousIsFormT(b);
    FormTMul(ra, pa, rb, pb);
    FormTBlocks(Mul(ra, rb), Add(MatVec(ra, pb), pa));
    OrthonormalMul(ra, rb);
  }

  /** The inverse of a rigid transform is rigid. */
  lemma RigidInverseRigid(t: Matrix)
    requires IsRigid(t)
    ensures IsRigid(RigidInverse(t))
  {
    var r := Rotation(t);
    var rt := Transpose(r);
    FormTBlocks(rt, Neg(MatVec(rt, Translation(t))));
    TransposeTranspose(r);
  }
}

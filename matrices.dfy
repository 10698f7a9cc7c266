/**
  Square matrices and vectors over the reals: the part of numpy's linear
  algebra that the calibration uses (`.dot`, `np.identity`), as an exact
  idealisation of double-precision arithmetic.
*/
module Matrices {

  type Vector = seq<real>

  /** A matrix is its sequence of rows. */
  type Matrix = seq<seq<real>>

  /** `m` has `r` rows of `c` entries each. */
  predicate IsMatrix(m: Matrix, r: nat, c: nat)
  {
    |m| == r && forall i :: 0 <= i < r ==> |m[i]| == c
  }

  /** The sum of the products of corresponding entries. */
  function Dot(u: Vector, v: Vector): real
    requires |u| == |v|
    decreases |u|
  {
    if |u| == 0 then 0.0
    else Dot(u[..|u| - 1], v[..|v| - 1]) + u[|u| - 1] * v[|v| - 1]
  }

  function Add(u: Vector, v: Vector): (r: Vector)
    requires |u| == |v|
    ensures |r| == |u|
  {
    seq(|u|, i requires 0 <= i < |u| => u[i] + v[i])
  }

  function Scale(x: real, u: Vector): (r: Vector)
    ensures |r| == |u|
  {
    seq(|u|, i requires 0 <= i < |u| => x * u[i])
  }

  function Neg(u: Vector): (r: Vector)
    ensures |r| == |u|
  {
    seq(|u|, i requires 0 <= i < |u| => -u[i])
  }

  function Zeros(n: nat): (r: Vector)
    ensures |r| == n
  {
    seq(n, i requires 0 <= i < n => 0.0)
  }

  /** Column `j` of `m`. */
  function Column(m: Matrix, j: nat): (r: Vector)
    requires forall i :: 0 <= i < |m| ==> j < |m[i]|
    ensures |r| == |m|
  {
    seq(|m|, i requires 0 <= i < |m| => m[i][j])
  }

  /** Matrix times column vector. */
  function MatVec(m: Matrix, v: Vector): (r: Vector)
    requires IsMatrix(m, |m|, |v|)
    ensures |r| == |m|
  {
    seq(|m|, i requires 0 <= i < |m| => Dot(m[i], v))
  }

  /** Row vector times an |u| by c matrix. */
  function VecMat(u: Vector, m: Matrix, c: nat): (r: Vector)
    requires IsMatrix(m, |u|, c)
    ensures |r| == c
  {
    seq(c, j requires 0 <= j < c => Dot(u, Column(m, j)))
  }

  /** The matrix product (numpy's `a.dot(b)`): row i of the product is row i of `a` times `b`. */
  function Mul(a: Matrix, b: Matrix): (r: Matrix)
    requires IsMatrix(a, |a|, |a|) && IsMatrix(b, |a|, |a|)
    ensures IsMatrix(r, |a|, |a|)
  {
    seq(|a|, i requires 0 <= i < |a| => VecMat(a[i], b, |a|))
  }

  /** `np.identity(n)`. */
  function Identity(n: nat): (r: Matrix)
    ensures IsMatrix(r, n, n)
  {
    seq(n, i requires 0 <= i < n => seq(n, j requires 0 <= j < n => if i == j then 1.0 else 0.0))
  }

  function Transpose(a: Matrix): (r: Matrix)
    requires IsMatrix(a, |a|, |a|)
    ensures IsMatrix(r, |a|, |a|)
    ensures forall i, j :: 0 <= i < |a| && 0 <= j < |a| ==> r[i][j] == a[j][i]
  {
    seq(|a|, i requires 0 <= i < |a| => Column(a, i))
  }

  /** Two n by n matrices with the same entries are equal. */
  lemma MatrixEquality(a: Matrix, b: Matrix, n: nat)
    requires IsMatrix(a, n, n) && IsMatrix(b, n, n)
    requires forall i, j :: 0 <= i < n && 0 <= j < n ==> a[i][j] == b[i][j]
    ensures a == b
  {
    forall i | 0 <= i < n
      ensures a[i] == b[i]
    {
      assert forall j :: 0 <= j < n ==> a[i][j] == b[i][j];
    }
  }

  /** Entry (i, j) of a product is row i of the left factor against column j of the right one. */
  lemma MulEntry(a: Matrix, b: Matrix, i: nat, j: nat)
    requires IsMatrix(a, |a|, |a|) && IsMatrix(b, |a|, |a|)
    requires i < |a| && j < |a|
    ensures Mul(a, b)[i][j] == Dot(a[i], Column(b, j))
  {
  }

  lemma DotAppend(u: Vector, v: Vector, x: real, y: real)
    requires |u| == |v|
    ensures Dot(u + [x], v + [y]) == Dot(u, v) + x * y
  {
    assert (u + [x])[..|u|] == u;
    assert (v + [y])[..|v|] == v;
  }

  lemma {:induction false} DotZerosLeft(u: Vector, v: Vector)
    requires |u| == |v|
    requires forall i :: 0 <= i < |u| ==> u[i] == 0.0
    ensures Dot(u, v) == 0.0
  {
    if |u| > 0 {
      DotZerosLeft(u[..|u| - 1], v[..|v| - 1]);
    }
  }

  lemma {:induction false} DotSymmetric(u: Vector, v: Vector)
    requires |u| == |v|
    ensures Dot(u, v) == Dot(v, u)
  {
    if |u| > 0 {
      DotSymmetric(u[..|u| - 1], v[..|v| - 1]);
    }
  }

  /** Against a unit vector with its 1 at index k, the dot product picks entry k. */
  lemma {:induction false} DotUnitLeft(u: Vector, v: Vector, k: nat)
    requires |u| == |v| && k < |u|
    requires forall i :: 0 <= i < |u| ==> u[i] == if i == k then 1.0 else 0.0
    ensures Dot(u, v) == v[k]
  {
    var n := |u|;
    if k == n - 1 {
      DotZerosLeft(u[..n - 1], v[..n - 1]);
    } else {
      DotUnitLeft(u[..n - 1], v[..n - 1], k);
    }
  }

  lemma DotUnitRight(u: Vector, v: Vector, k: nat)
    requires |u| == |v| && k < |v|
    requires forall i :: 0 <= i < |v| ==> v[i] == if i == k then 1.0 else 0.0
    ensures Dot(u, v) == u[k]
  {
    DotSymmetric(u, v);
    DotUnitLeft(v, u, k);
  }

  lemma {:induction false} DotAddLeft(u: Vector, v: Vector, w: Vector)
    requires |u| == |v| == |w|
    ensures Dot(Add(u, v), w) == Dot(u, w) + Dot(v, w)
  {
    var n := |u|;
    if n > 0 {
      assert Add(u, v)[..n - 1] == Add(u[..n - 1], v[..n - 1]);
      DotAddLeft(u[..n - 1], v[..n - 1], w[..n - 1]);
    }
  }

  lemma {:induction false} DotScaleLeft(x: real, u: Vector, w: Vector)
    requires |u| == |w|
    ensures Dot(Scale(x, u), w) == x * Dot(u, w)
  {
    var n := |u|;
    if n > 0 {
      forall k | 0 <= k < n - 1
        ensures Scale(x, u)[k] == Scale(x, u[..n - 1])[k]
      {
        assert u[..n - 1][k] == u[k];
      }
      assert Scale(x, u)[..n - 1] == Scale(x, u[..n - 1]);
      DotScaleLeft(x, u[..n - 1], w[..n - 1]);
    }
  }

  lemma {:induction false} DotNegRight(u: Vector, v: Vector)
    requires |u| == |v|
    ensures Dot(u, Neg(v)) == -Dot(u, v)
  {
    var n := |u|;
    if n > 0 {
      assert Neg(v)[..n - 1] == Neg(v[..n - 1]);
      DotNegRight(u[..n - 1], v[..n - 1]);
    }
  }

  /** (u m) w == u (m w): the step that makes the matrix product associative. */
  lemma {:induction false} DotVecMat(u: Vector, m: Matrix, c: nat, w: Vector)
    requires IsMatrix(m, |u|, c) && |w| == c
    ensures Dot(VecMat(u, m, c), w) == Dot(u, MatVec(m, w))
  {
    var n := |u|;
    if n == 0 {
      DotZerosLeft(VecMat(u, m, c), w);
    } else {
      var u', m', x, row := u[..n - 1], m[..n - 1], u[n - 1], m[n - 1];
      forall j | 0 <= j < c
        ensures VecMat(u, m, c)[j] == Add(VecMat(u', m', c), Scale(x, row))[j]
      {
        assert Column(m, j)[..n - 1] == Column(m', j);
      }
      assert VecMat(u, m, c) == Add(VecMat(u', m', c), Scale(x, row));
      DotAddLeft(VecMat(u', m', c), Scale(x, row), w);
      DotScaleLeft(x, row, w);
      DotVecMat(u', m', c, w);
      assert MatVec(m, w)[..n - 1] == MatVec(m', w);
    }
  }

  lemma ColumnOfMul(a: Matrix, b: Matrix, j: nat)
    requires IsMatrix(a, |a|, |a|) && IsMatrix(b, |a|, |a|) && j < |a|
    ensures Column(Mul(a, b), j) == MatVec(a, Column(b, j))
  {
  }

  /** The matrix product is associative. */
  lemma MulAssociative(a: Matrix, b: Matrix, c: Matrix)
    requires IsMatrix(a, |a|, |a|) && IsMatrix(b, |a|, |a|) && IsMatrix(c, |a|, |a|)
    ensures Mul(Mul(a, b), c) == Mul(a, Mul(b, c))
  {
    var n := |a|;
    forall i, j | 0 <= i < n && 0 <= j < n
      ensures Mul(Mul(a, b), c)[i][j] == Mul(a, Mul(b, c))[i][j]
    {
      calc {
        Mul(Mul(a, b), c)[i][j];
        Dot(VecMat(a[i], b, n), Column(c, j));
        { DotVecMat(a[i], b, n, Column(c, j)); }
        Dot(a[i], MatVec(b, Column(c, j)));
        { ColumnOfMul(b, c, j); }
        Dot(a[i], Column(Mul(b, c), j));
        Mul(a, Mul(b, c))[i][j];
      }
    }
    MatrixEquality(Mul(Mul(a, b), c), Mul(a, Mul(b, c)), n);
  }

  /** Matrix-vector products compose like the matrix product. */
  lemma MatVecMul(a: Matrix, b: Matrix, v: Vector)
    requires IsMatrix(a, |a|, |a|) && IsMatrix(b, |a|, |a|) && |v| == |a|
    ensures MatVec(Mul(a, b), v) == MatVec(a, MatVec(b, v))
  {
    forall i | 0 <= i < |a|
      ensures MatVec(Mul(a, b), v)[i] == MatVec(a, MatVec(b, v))[i]
    {
      DotVecMat(a[i], b, |a|, v);
    }
  }

  lemma MulIdentityLeft(a: Matrix)
    requires IsMatrix(a, |a|, |a|)
    ensures Mul(Identity(|a|), a) == a
  {
    var n := |a|;
    forall i, j | 0 <= i < n && 0 <= j < n
      ensures Mul(Identity(n), a)[i][j] == a[i][j]
    {
      DotUnitLeft(Identity(n)[i], Column(a, j), i);
    }
    MatrixEquality(Mul(Identity(n), a), a, n);
  }

  lemma MulIdentityRight(a: Matrix)
    requires IsMatrix(a, |a|, |a|)
    ensures Mul(a, Identity(|a|)) == a
  {
    var n := |a|;
    forall i, j | 0 <= i < n && 0 <= j < n
      ensures Mul(a, Identity(n))[i][j] == a[i][j]
    {
      DotUnitRight(a[i], Column(Identity(n), j), j);
    }
    MatrixEquality(Mul(a, Identity(n)), a, n);
  }

  lemma MatVecIdentity(v: Vector)
    ensures MatVec(Identity(|v|), v) == v
  {
    forall i | 0 <= i < |v|
      ensures MatVec(Identity(|v|), v)[i] == v[i]
    {
      DotUnitLeft(Identity(|v|)[i], v, i);
    }
  }

  lemma MatVecNeg(a: Matrix, v: Vector)
    requires IsMatrix(a, |a|, |v|)
    ensures MatVec(a, Neg(v)) == Neg(MatVec(a, v))
  {
    forall i | 0 <= i < |a|
      ensures MatVec(a, Neg(v))[i] == Neg(MatVec(a, v))[i]
    {
      DotNegRight(a[i], v);
    }
  }

  lemma MatVecZeros(a: Matrix, n: nat)
    requires IsMatrix(a, |a|, n)
    ensures MatVec(a, Zeros(n)) == Zeros(|a|)
  {
    forall i | 0 <= i < |a|
      ensures MatVec(a, Zeros(n))[i] == 0.0
    {
      DotSymmetric(a[i], Zeros(n));
      DotZerosLeft(Zeros(n), a[i]);
    }
  }

  lemma TransposeIdentity(n: nat)
    ensures Transpose(Identity(n)) == Identity(n)
  {
    MatrixEquality(Transpose(Identity(n)), Identity(n), n);
  }

  lemma TransposeTranspose(a: Matrix)
    requires IsMatrix(a, |a|, |a|)
    ensures Transpose(Transpose(a)) == a
  {
    MatrixEquality(Transpose(Transpose(a)), a, |a|);
  }

  /** (r s)ᵀ == sᵀ rᵀ. */
  lemma TransposeMul(r: Matrix, s: Matrix)
    requires IsMatrix(r, |r|, |r|) && IsMatrix(s, |r|, |r|)
    ensures Transpose(Mul(r, s)) == Mul(Transpose(s), Transpose(r))
  {
    var n := |r|;
    forall i, j | 0 <= i < n && 0 <= j < n
      ensures Transpose(Mul(r, s))[i][j] == Mul(Transpose(s), Transpose(r))[i][j]
    {
      MulEntry(r, s, j, i);
      MulEntry(Transpose(s), Transpose(r), i, j);
      assert Transpose(s)[i] == Column(s, i);
      assert Column(Transpose(r), j) == r[j];
      DotSymmetric(r[j], Column(s, i));
    }
    MatrixEquality(Transpose(Mul(r, s)), Mul(Transpose(s), Transpose(r)), n);
  }
}

/**
 The damped normal equations of the Levenberg-Marquardt step
 (touchscreen_drv/levmar-2.5/lm_core.c): J^T J + mu * I and J^T e as values, and why the
 solver never fails on them in exact arithmetic.
 */
module NormalEquations {
  import opened LinearAlgebra
  import LuSolve

  function Sub(x: Vec, y: Vec): (z: Vec)
    requires |x| == |y|
    ensures |z| == |x|
  {
    seq(|x|, i requires 0 <= i < |x| => x[i] - y[i])
  }

  function Add(x: Vec, y: Vec): (z: Vec)
    requires |x| == |y|
    ensures |z| == |x|
  {
    seq(|x|, i requires 0 <= i < |x| => x[i] + y[i])
  }

  /** The squared Euclidean norm. */
  function Norm2(v: Vec): (r: real) { Dot(v, v, |v|) }

  ghost function Column(j: Mat, i: nat): (c: Vec)
    requires forall l :: 0 <= l < |j| ==> i < |j[l]|
    ensures |c| == |j|
  {
    seq(|j|, l requires 0 <= l < |j| => j[l][i])
  }

  /** J^T J */
  ghost function Gram(j: Mat, m: nat): (g: Mat)
    requires IsMat(j, |j|, m)
    ensures IsMat(g, m, m)
  {
    seq(m, i requires 0 <= i < m => RowTimes(Column(j, i), j, |j|, m))
  }

  /** The sum of j[l][i] * j[l][k] over l < n. */
  ghost function Partial(j: Mat, i: nat, k: nat, n: nat): (s: real)
    requires n <= |j| && forall l :: 0 <= l < |j| ==> i < |j[l]| && k < |j[l]|
  {
    DotCol(Column(j, i), j, k, n)
  }

  lemma {:induction false} PartialStep(j: Mat, i: nat, k: nat, l: nat)
    requires l < |j| && forall r :: 0 <= r < |j| ==> i < |j[r]| && k < |j[r]|
    ensures Partial(j, i, k, l + 1) == Partial(j, i, k, l) + j[l][k] * j[l][i]
  {
  }

  /** J^T J + mu * I */
  ghost function Damped(j: Mat, m: nat, mu: real): (g: Mat)
    requires IsMat(j, |j|, m)
    ensures IsMat(g, m, m)
  {
    seq(m, i requires 0 <= i < m => seq(m, k requires 0 <= k < m => Gram(j, m)[i][k] + if i == k then mu else 0.0))
  }

  /** J^T e */
  ghost function Gradient(j: Mat, m: nat, e: Vec): (g: Vec)
    requires IsMat(j, |e|, m)
    ensures |g| == m
  {
    RowTimes(e, j, |e|, m)
  }

  lemma {:induction false} ColumnDot(e: Vec, j: Mat, i: nat, n: nat)
    requires |e| == |j| && n <= |j| && forall l :: 0 <= l < |j| ==> i < |j[l]|
    ensures DotCol(e, j, i, n) == Dot(Column(j, i), e, n)
  {
    if n > 0 { ColumnDot(e, j, i, n - 1); }
  }

  lemma {:induction false} GramSymmetric(j: Mat, m: nat, i: nat, k: nat)
    requires IsMat(j, |j|, m) && i < m && k < m
    ensures Gram(j, m)[i][k] == Gram(j, m)[k][i]
  {
    ColumnDot(Column(j, i), j, k, |j|);
    ColumnDot(Column(j, k), j, i, |j|);
    DotSym(Column(j, i), Column(j, k), |j|);
  }

  lemma {:induction false} GramDiagonal(j: Mat, m: nat, i: nat)
    requires IsMat(j, |j|, m) && i < m
    ensures Gram(j, m)[i][i] == Norm2(Column(j, i)) >= 0.0
  {
    ColumnDot(Column(j, i), j, i, |j|);
    DotSquareNonNeg(Column(j, i), |j|);
  }

  /** (J^T J v)_i is column i of J times J v. */
  lemma {:induction false} GramTimes(j: Mat, m: nat, v: Vec, i: nat)
    requires IsMat(j, |j|, m) && |v| == m && i < m
    ensures Dot(Gram(j, m)[i], v, m) == Gradient(j, m, MatVec(j, v))[i]
  {
    Exchange(Column(j, i), j, v, |j|);
    ColumnDot(MatVec(j, v), j, i, |j|);
  }

  lemma {:induction false} DampedTimes(j: Mat, m: nat, mu: real, v: Vec, i: nat)
    requires IsMat(j, |j|, m) && |v| == m && i < m
    ensures Dot(Damped(j, m, mu)[i], v, m) == Gradient(j, m, MatVec(j, v))[i] + mu * v[i]
  {
    var unit := seq(m, k => if i == k then 1.0 else 0.0);
    DotLinear(Gram(j, m)[i], mu, unit, Damped(j, m, mu)[i], v, m);
    DotUnit(v, i, m);
    GramTimes(j, m, v, i);
  }

  /** v^T (J^T J + mu * I) v == |J v|^2 + mu * |v|^2 */
  lemma {:induction false} Quadratic(j: Mat, m: nat, mu: real, v: Vec)
    requires IsMat(j, |j|, m) && |v| == m
    ensures Dot(MatVec(Damped(j, m, mu), v), v, m) == Norm2(MatVec(j, v)) + Prod(mu, Norm2(v))
  {
    var w := MatVec(Damped(j, m, mu), v);
    forall i | 0 <= i < m ensures w[i] == Gradient(j, m, MatVec(j, v))[i] + mu * v[i] {
      DampedTimes(j, m, mu, v, i);
    }
    DotLinear(Gradient(j, m, MatVec(j, v)), mu, v, w, v, m);
    Exchange(MatVec(j, v), j, v, |j|);
  }

  lemma {:induction false} PositiveSum(mu: real, a: real, b: real)
    requires mu > 0.0 && a >= 0.0 && b >= 0.0 && a + Prod(mu, b) <= 0.0
    ensures b <= 0.0
  {
    if b > 0.0 { ProdPositive(mu, b); }
  }

  /** With positive damping only the zero vector is sent to zero. */
  lemma {:induction false} DampedRegular(j: Mat, m: nat, mu: real)
    requires IsMat(j, |j|, m) && mu > 0.0
    ensures Regular(Damped(j, m, mu), m)
  {
    forall v: Vec | NullOf(Damped(j, m, mu), m, v) ensures v == Zeros(m) {
      Quadratic(j, m, mu, v);
      DotZero(MatVec(Damped(j, m, mu), v), v, m);
      DotSquareNonNeg(MatVec(j, v), |j|);
      DotSquareNonNeg(v, m);
      PositiveSum(mu, Norm2(MatVec(j, v)), Norm2(v));
      DotSquareZero(v, m);
    }
  }

  /** With positive damping no row is zero, so that the solver does not fail. */
  lemma {:induction false} DampedRows(j: Mat, m: nat, mu: real)
    requires IsMat(j, |j|, m) && mu > 0.0
    ensures forall i :: 0 <= i < m ==> LuSolve.NonzeroRow(Damped(j, m, mu)[i])
  {
    forall i | 0 <= i < m ensures LuSolve.NonzeroRow(Damped(j, m, mu)[i]) {
      GramDiagonal(j, m, i);
      assert Damped(j, m, mu)[i][i] != 0.0;
    }
  }

  function Weighted(d: Vec, mu: real, g: Vec): (s: Vec)
    requires |d| == |g|
    ensures |s| == |d|
  {
    seq(|d|, i requires 0 <= i < |d| => mu * d[i] + g[i])
  }

  /** The gain the linear model predicts for the increment d. */
  ghost function Gain(d: Vec, mu: real, g: Vec): (r: real)
    requires |d| == |g|
  {
    Dot(d, Weighted(d, mu, g), |d|)
  }

  lemma {:induction false} GainSplit(d: Vec, mu: real, g: Vec)
    requires |d| == |g|
    ensures Gain(d, mu, g) == Dot(g, d, |d|) + Prod(mu, Norm2(d))
  {
    DotLinear(g, mu, d, Weighted(d, mu, g), d, |d|);
    DotSym(d, Weighted(d, mu, g), |d|);
  }

  /** For an exact increment the predicted gain is |J d|^2 + 2 mu |d|^2: it is positive for
      every increment but zero, so that the test for it never turns one down. */
  lemma {:induction false} GainPositive(j: Mat, m: nat, mu: real, d: Vec, g: Vec)
    requires IsMat(j, |j|, m) && |d| == m && mu > 0.0 && Solves(Damped(j, m, mu), d, g)
    ensures Gain(d, mu, g) == Norm2(MatVec(j, d)) + 2.0 * Prod(mu, Norm2(d))
    ensures Norm2(d) > 0.0 ==> Gain(d, mu, g) > 0.0
  {
    GainSplit(d, mu, g);
    Quadratic(j, m, mu, d);
    DotSquareNonNeg(MatVec(j, d), |j|);
    if Norm2(d) > 0.0 { ProdPositive(mu, Norm2(d)); }
  }

  /** A gradient that does not vanish has a column that does not, and so a positive diagonal
      entry. */
  lemma {:induction false} GradientDiagonal(j: Mat, m: nat, e: Vec, i: nat)
    requires IsMat(j, |e|, m) && i < m && Gradient(j, m, e)[i] != 0.0
    ensures Gram(j, m)[i][i] > 0.0
  {
    GramDiagonal(j, m, i);
    if Norm2(Column(j, i)) <= 0.0 {
      DotSquareZero(Column(j, i), |j|);
      ColumnDot(e, j, i, |j|);
      DotZero(Column(j, i), e, |j|);
    }
  }
}

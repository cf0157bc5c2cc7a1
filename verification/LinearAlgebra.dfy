/**
 Finite sums of products over the reals, and the few laws about them that the
 numerical modules share. Vectors and matrices are sequences; the methods of the
 other modules relate their arrays to these values.
 */
module LinearAlgebra {
  type Vec = seq<real>
  type Mat = seq<seq<real>>

  ghost predicate IsMat(a: Mat, rows: nat, cols: nat) {
    |a| == rows && forall i :: 0 <= i < rows ==> |a[i]| == cols
  }

  function Abs(t: real): (r: real) { if t >= 0.0 then t else -t }

  /** The sum of u[k] * v[k] over k < n. */
  function Dot(u: Vec, v: Vec, n: nat): real
    requires n <= |u| && n <= |v|
  {
    if n == 0 then 0.0 else Dot(u, v, n - 1) + u[n - 1] * v[n - 1]
  }

  /** The sum of l[k] * a[k][c] over k < n: a row vector times a column of a. */
  function DotCol(l: Vec, a: Mat, c: nat, n: nat): real
    requires n <= |l| && n <= |a|
    requires forall k :: 0 <= k < n ==> c < |a[k]|
  {
    if n == 0 then 0.0 else DotCol(l, a, c, n - 1) + l[n - 1] * a[n - 1][c]
  }

  /** The matrix-vector product a * x. */
  ghost function MatVec(a: Mat, x: Vec): (y: Vec)
    requires forall i :: 0 <= i < |a| ==> |a[i]| == |x|
  {
    seq(|a|, i requires 0 <= i < |a| => Dot(a[i], x, |x|))
  }

  /** The matrix product a * b. */
  ghost function MatMul(a: Mat, b: Mat, inner: nat, cols: nat): (c: Mat)
    requires IsMat(a, |a|, inner) && IsMat(b, inner, cols)
  {
    seq(|a|, i requires 0 <= i < |a| => RowTimes(a[i], b, inner, cols))
  }

  /** The row vector l[..n] * a[..n], with the given number of columns. */
  ghost function RowTimes(l: Vec, a: Mat, n: nat, cols: nat): (r: Vec)
    requires n <= |l| && n <= |a|
    requires forall k :: 0 <= k < |a| ==> |a[k]| == cols
  {
    seq(cols, c requires 0 <= c < cols => DotCol(l, a, c, n))
  }

  ghost function Identity(m: nat): (e: Mat) {
    seq(m, i => seq(m, j => if i == j then 1.0 else 0.0))
  }

  lemma {:induction false} DotEq(u: Vec, v: Vec, u': Vec, v': Vec, n: nat)
    requires n <= |u| && n <= |v| && n <= |u'| && n <= |v'|
    requires forall k :: 0 <= k < n ==> u[k] == u'[k] && v[k] == v'[k]
    ensures Dot(u, v, n) == Dot(u', v', n)
  {
    if n > 0 { DotEq(u, v, u', v', n - 1); }
  }

  /** Positions whose coefficient is zero may change freely. */
  lemma {:induction false} DotEqOrZero(u: Vec, v: Vec, v': Vec, n: nat)
    requires n <= |u| && n <= |v| && n <= |v'|
    requires forall k :: 0 <= k < n ==> u[k] == 0.0 || v[k] == v'[k]
    ensures Dot(u, v, n) == Dot(u, v', n)
  {
    if n > 0 { DotEqOrZero(u, v, v', n - 1); }
  }

  /** Vectors that agree from lo on gain the same amount from lo to n. */
  lemma {:induction false} DotTailEq(u: Vec, v: Vec, u': Vec, v': Vec, lo: nat, n: nat)
    requires lo <= n && n <= |u| && n <= |v| && n <= |u'| && n <= |v'|
    requires forall k :: lo <= k < n ==> u[k] == u'[k] && v[k] == v'[k]
    ensures Dot(u, v, n) - Dot(u, v, lo) == Dot(u', v', n) - Dot(u', v', lo)
    decreases n
  {
    if n > lo { DotTailEq(u, v, u', v', lo, n - 1); }
  }

  lemma {:induction false} DotSym(u: Vec, v: Vec, n: nat)
    requires n <= |u| && n <= |v|
    ensures Dot(u, v, n) == Dot(v, u, n)
  {
    if n > 0 { DotSym(u, v, n - 1); }
  }

  /** Terms in which one factor vanishes contribute nothing. */
  lemma {:induction false} DotZeroTail(u: Vec, v: Vec, n: nat, m: nat)
    requires n <= m <= |u| && m <= |v|
    requires forall k :: n <= k < m ==> u[k] == 0.0 || v[k] == 0.0
    ensures Dot(u, v, m) == Dot(u, v, n)
    decreases m
  {
    if m > n { DotZeroTail(u, v, n, m - 1); }
  }

  /** Dot is linear in its first argument. */
  lemma {:induction false} DotLinear(u: Vec, t: real, w: Vec, r: Vec, x: Vec, n: nat)
    requires n <= |u| && n <= |w| && n <= |r| && n <= |x|
    requires forall k :: 0 <= k < n ==> r[k] == u[k] + t * w[k]
    ensures Dot(r, x, n) == Dot(u, x, n) + t * Dot(w, x, n)
  {
    if n > 0 {
      DotLinear(u, t, w, r, x, n - 1);
      assert r[n - 1] * x[n - 1] == u[n - 1] * x[n - 1] + t * (w[n - 1] * x[n - 1]);
    }
  }

  lemma {:induction false} DotScale(t: real, w: Vec, r: Vec, x: Vec, n: nat)
    requires n <= |w| && n <= |r| && n <= |x|
    requires forall k :: 0 <= k < n ==> r[k] == t * w[k]
    ensures Dot(r, x, n) == t * Dot(w, x, n)
  {
    if n > 0 {
      DotScale(t, w, r, x, n - 1);
      assert r[n - 1] * x[n - 1] == t * (w[n - 1] * x[n - 1]);
    }
  }

  lemma {:induction false} DotSquareNonNeg(u: Vec, n: nat)
    requires n <= |u|
    ensures Dot(u, u, n) >= 0.0
  {
    if n > 0 { DotSquareNonNeg(u, n - 1); }
  }

  /** Products kept behind a name: a square under its own symbol is easier to reason about. */
  function Prod(s: real, t: real): real { s * t }

  lemma {:induction false} ProdPositive(s: real, t: real)
    requires s > 0.0 && t > 0.0
    ensures Prod(s, t) > 0.0
  {
  }

  lemma {:induction false} SquarePositive(t: real)
    ensures Prod(t, t) == t * t
    ensures t == 0.0 || Prod(t, t) > 0.0
  {
    if t > 0.0 {
      ProdPositive(t, t);
    } else if t < 0.0 {
      ProdPositive(-t, -t);
      assert Prod(-t, -t) == Prod(t, t);
    }
  }

  /** A sum of squares vanishes only when every term does. */
  lemma {:induction false} DotSquareZero(u: Vec, n: nat)
    requires n <= |u| && Dot(u, u, n) <= 0.0
    ensures forall k :: 0 <= k < n ==> u[k] == 0.0
  {
    if n > 0 {
      DotSquareNonNeg(u, n - 1);
      SquarePositive(u[n - 1]);
      assert Dot(u, u, n) == Dot(u, u, n - 1) + Prod(u[n - 1], u[n - 1]);
      DotSquareZero(u, n - 1);
    }
  }

  lemma {:induction false} DotColEq(l: Vec, a: Mat, l': Vec, a': Mat, c: nat, n: nat)
    requires n <= |l| && n <= |l'| && n <= |a| && n <= |a'|
    requires forall k :: 0 <= k < n ==> c < |a[k]| && c < |a'[k]|
    requires forall k :: 0 <= k < n ==> l[k] == l'[k] && a[k][c] == a'[k][c]
    ensures DotCol(l, a, c, n) == DotCol(l', a', c, n)
  {
    if n > 0 { DotColEq(l, a, l', a', c, n - 1); }
  }

  lemma {:induction false} DotColZeroTail(l: Vec, a: Mat, c: nat, n: nat, m: nat)
    requires n <= m <= |l| && m <= |a|
    requires forall k :: 0 <= k < m ==> c < |a[k]|
    requires forall k :: n <= k < m ==> l[k] == 0.0 || a[k][c] == 0.0
    ensures DotCol(l, a, c, m) == DotCol(l, a, c, n)
    decreases m
  {
    if m > n { DotColZeroTail(l, a, c, n, m - 1); }
  }

  lemma {:induction false} DotZero(u: Vec, v: Vec, n: nat)
    requires n <= |u| && n <= |v|
    requires forall k :: 0 <= k < n ==> u[k] == 0.0 || v[k] == 0.0
    ensures Dot(u, v, n) == 0.0
  {
    DotZeroTail(u, v, 0, n);
  }

  /** Exchange of the two summations in l * a * x. */
  lemma {:induction false} Exchange(l: Vec, a: Mat, x: Vec, n: nat)
    requires n <= |l| && n <= |a|
    requires forall k :: 0 <= k < |a| ==> |a[k]| == |x|
    ensures Dot(RowTimes(l, a, n, |x|), x, |x|) == Dot(l, MatVec(a, x), n)
  {
    if n == 0 {
      DotZero(RowTimes(l, a, 0, |x|), x, |x|);
    } else {
      var k := n - 1;
      Exchange(l, a, x, k);
      RowTimesNext(l, a, k, n, |x|);
      DotLinear(RowTimes(l, a, k, |x|), l[k], a[k], RowTimes(l, a, n, |x|), x, |x|);
      assert MatVec(a, x)[k] == Dot(a[k], x, |x|);
    }
  }

  lemma {:induction false} RowTimesNext(l: Vec, a: Mat, k: nat, n: nat, cols: nat)
    requires n == k + 1 && n <= |l| && n <= |a| && forall i :: 0 <= i < |a| ==> |a[i]| == cols
    ensures forall c :: 0 <= c < cols ==>
              RowTimes(l, a, n, cols)[c] == RowTimes(l, a, k, cols)[c] + l[k] * a[k][c]
  {
  }

  /** (a * b) * x == a * (b * x). */
  lemma {:induction false} MatMulVec(a: Mat, b: Mat, x: Vec, inner: nat)
    requires IsMat(a, |a|, inner) && IsMat(b, inner, |x|)
    ensures MatVec(MatMul(a, b, inner, |x|), x) == MatVec(a, MatVec(b, x))
  {
    forall i | 0 <= i < |a|
      ensures MatVec(MatMul(a, b, inner, |x|), x)[i] == MatVec(a, MatVec(b, x))[i]
    {
      Exchange(a[i], b, x, inner);
    }
  }

  lemma {:induction false} DotUnit(x: Vec, i: nat, n: nat)
    requires n <= |x|
    ensures var e := seq(|x|, j => if i == j then 1.0 else 0.0);
            Dot(e, x, n) == if i < n then x[i] else 0.0
  {
    if n > 0 { DotUnit(x, i, n - 1); }
  }

  lemma {:induction false} IdentityVec(x: Vec)
    ensures MatVec(Identity(|x|), x) == x
  {
    var m := |x|;
    forall i | 0 <= i < m ensures Dot(Identity(m)[i], x, m) == x[i] {
      var e := seq(m, j => if i == j then 1.0 else 0.0);
      assert Identity(m)[i] == e;
      DotUnit(x, i, m);
    }
  }

  /** a has a two-sided inverse. */
  ghost predicate IsInverse(a: Mat, b: Mat, m: nat) {
    && IsMat(a, m, m) && IsMat(b, m, m)
    && MatMul(a, b, m, m) == Identity(m) && MatMul(b, a, m, m) == Identity(m)
  }

  ghost predicate Invertible(a: Mat, m: nat) {
    exists b :: IsInverse(a, b, m)
  }

  ghost predicate Solves(a: Mat, x: Vec, b: Vec) {
    (forall i :: 0 <= i < |a| ==> |a[i]| == |x|) && MatVec(a, x) == b
  }

  /** An invertible matrix sends two different vectors to two different vectors. */
  lemma {:induction false} SolutionUnique(a: Mat, m: nat, x: Vec, y: Vec, b: Vec)
    requires Invertible(a, m) && |x| == m && |y| == m
    requires Solves(a, x, b) && Solves(a, y, b)
    ensures x == y
  {
    var inv :| IsInverse(a, inv, m);
    MatMulVec(inv, a, x, m);
    MatMulVec(inv, a, y, m);
    IdentityVec(x);
    IdentityVec(y);
  }

  lemma {:induction false} ZeroRowProduct(a: Mat, b: Mat, m: nat, i: nat, c: nat)
    requires IsMat(a, m, m) && IsMat(b, m, m) && i < m && c < m
    ensures (forall j :: 0 <= j < m ==> a[i][j] == 0.0) ==> MatMul(a, b, m, m)[i][c] == 0.0
  {
    if forall j :: 0 <= j < m ==> a[i][j] == 0.0 {
      DotColZeroTail(a[i], b, c, 0, m);
    }
  }

  /** An invertible matrix has no row of zeros. */
  lemma {:induction false} InvertibleNoZeroRow(a: Mat, m: nat, i: nat)
    requires Invertible(a, m) && i < m
    ensures exists j :: 0 <= j < m && a[i][j] != 0.0
  {
    var inv :| IsInverse(a, inv, m);
    ZeroRowProduct(a, inv, m, i, i);
    assert Identity(m)[i][i] == 1.0;
  }

  ghost function Zeros(m: nat): (z: Vec)
    ensures |z| == m
  {
    seq(m, _ => 0.0)
  }

  ghost predicate NullOf(a: Mat, m: nat, v: Vec)
    requires IsMat(a, m, m)
  {
    |v| == m && forall i :: 0 <= i < m ==> Dot(a[i], v, m) == 0.0
  }

  /** Only the zero vector is sent to zero. */
  ghost predicate Regular(a: Mat, m: nat) {
    IsMat(a, m, m) && forall v: Vec :: NullOf(a, m, v) ==> v == Zeros(m)
  }

  lemma {:induction false} InvertibleRegular(a: Mat, m: nat)
    requires Invertible(a, m)
    ensures Regular(a, m)
  {
    var z := Zeros(m);
    forall i | 0 <= i < m ensures Dot(a[i], z, m) == 0.0 { DotZero(a[i], z, m); }
    forall v: Vec | NullOf(a, m, v) ensures v == z {
      assert MatVec(a, v) == z && MatVec(a, z) == z;
      SolutionUnique(a, m, v, z, z);
    }
  }
}

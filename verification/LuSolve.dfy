/**
 The linear solver AX_EQ_B_LU (touchscreen_drv/levmar-2.5/Axb_core.c) in exact
 arithmetic: Crout's decomposition with implicitly scaled row pivoting, computed in
 place, followed by a forward substitution that applies the row exchanges as it goes
 and skips leading zeros, and a back substitution.
 */
module LuSolve {
  import opened Shared
  import opened LinearAlgebra

  /** The value that replaces an exactly zero pivot. */
  const LM_REAL_EPSILON: real := 1.0 / 4503599627370496.0

  // ----- values -----

  function Swap<T>(s: seq<T>, i: nat, j: nat): (r: seq<T>)
    requires i < |s| && j < |s|
    ensures |r| == |s|
  {
    s[i := s[j]][j := s[i]]
  }

  /** The exchanges (0, idx[0]), ..., (n-1, idx[n-1]) applied in this order. */
  function Exchanged<T>(s: seq<T>, idx: seq<nat>, n: nat): (r: seq<T>)
    requires n <= |idx| && |idx| <= |s|
    requires forall k :: 0 <= k < n ==> idx[k] < |s|
    ensures |r| == |s|
  {
    if n == 0 then s else Swap(Exchanged(s, idx, n - 1), n - 1, idx[n - 1])
  }

  ghost predicate ExchangeList(idx: seq<nat>, n: nat, m: nat) {
    |idx| == m && n <= m && forall k :: 0 <= k < n ==> k <= idx[k] < m
  }

  /** The unit lower triangular factor stored below the diagonal of s. */
  ghost function Lower(s: Mat, m: nat): (l: Mat)
    requires IsMat(s, m, m)
    ensures IsMat(l, m, m)
  {
    seq(m, i requires 0 <= i < m => seq(m, k requires 0 <= k < m =>
      if k < i then s[i][k] else if k == i then 1.0 else 0.0))
  }

  /** The upper triangular factor stored on and above the diagonal of s; `bump` is what
      was put on the diagonal in place of zero pivots. */
  ghost function Upper(s: Mat, bump: Vec, m: nat): (u: Mat)
    requires IsMat(s, m, m) && |bump| == m
    ensures IsMat(u, m, m)
  {
    seq(m, i requires 0 <= i < m => seq(m, k requires 0 <= k < m =>
      if k < i then 0.0 else if k == i then s[i][i] - bump[i] else s[i][k]))
  }

  /** The diagonal term of a Crout equation. */
  ghost function Term(s: Mat, bump: Vec, i: nat, c: nat, m: nat): (t: real)
    requires IsMat(s, m, m) && |bump| == m && i < m && c < m
  {
    if i < c then s[i][c] else if i == c then s[i][i] - bump[i] else s[i][c] * (s[c][c] - bump[c])
  }

  /** Position (i, c) of the permuted input p, expressed by the entries of s: the Crout
      equations. */
  ghost predicate Entry(s: Mat, p: Mat, bump: Vec, i: nat, c: nat, m: nat)
    requires IsMat(s, m, m) && IsMat(p, m, m) && |bump| == m && i < m && c < m
  {
    p[i][c] == DotCol(s[i], s, c, Min(i, c)) + Term(s, bump, i, c, m)
  }

  /** Position (i, c) before the column was scaled by its pivot. */
  ghost predicate Unscaled(s: Mat, p: Mat, i: nat, c: nat, m: nat)
    requires IsMat(s, m, m) && IsMat(p, m, m) && i < m && c < m
  {
    p[i][c] == DotCol(s[i], s, c, Min(i, c)) + s[i][c]
  }

  /** A diagonal entry is a nonzero pivot, or an epsilon above a column of zeros. */
  ghost predicate Pivot(s: Mat, bump: Vec, c: nat, m: nat)
    requires IsMat(s, m, m) && |bump| == m && c < m
  {
    && s[c][c] != 0.0
    && (bump[c] == 0.0 || (bump[c] == s[c][c] && forall i :: c < i < m ==> s[i][c] == 0.0))
  }

  /** Columns below j are factored, the others still hold the permuted input. */
  ghost predicate Factored(s: Mat, p: Mat, bump: Vec, j: nat, m: nat) {
    && IsMat(s, m, m) && IsMat(p, m, m) && |bump| == m && j <= m
    && (forall i, c :: 0 <= i < m && 0 <= c < j ==> Entry(s, p, bump, i, c, m))
    && (forall c :: 0 <= c < j ==> Pivot(s, bump, c, m))
  }

  ghost predicate SameFrom(s: Mat, p: Mat, j: nat, m: nat)
    requires IsMat(s, m, m) && IsMat(p, m, m)
  {
    forall i, c :: 0 <= i < m && j <= c < m ==> s[i][c] == p[i][c]
  }

  /** s and s' agree outside column j. */
  ghost predicate SameBut(s: Mat, s': Mat, j: nat, m: nat)
    requires IsMat(s, m, m) && IsMat(s', m, m)
  {
    forall i, c :: 0 <= i < m && 0 <= c < m && c != j ==> s[i][c] == s'[i][c]
  }

  // ----- lemmas about one column -----

  /** A change inside column j leaves the factored columns before it factored. */
  lemma {:induction false} FactoredFrame(s: Mat, s': Mat, p: Mat, bump: Vec, j: nat, m: nat)
    requires Factored(s, p, bump, j, m) && j < m
    requires IsMat(s', m, m) && SameBut(s, s', j, m)
    ensures Factored(s', p, bump, j, m)
  {
    forall i, c | 0 <= i < m && 0 <= c < j ensures Entry(s', p, bump, i, c, m) {
      assert Entry(s, p, bump, i, c, m);
      DotColEq(s[i], s, s'[i], s', c, Min(i, c));
    }
    forall c | 0 <= c < j ensures Pivot(s', bump, c, m) {
      assert Pivot(s, bump, c, m);
    }
  }

  /** Exchanging two rows at or below j in both s and p keeps the factored columns. */
  lemma {:induction false} EntrySwap(s: Mat, p: Mat, bump: Vec, j: nat, q: nat, m: nat, i: nat, c: nat)
    requires Factored(s, p, bump, j, m) && j <= q < m && i < m && c < j
    ensures IsMat(Swap(s, j, q), m, m) && IsMat(Swap(p, j, q), m, m)
            && Entry(Swap(s, j, q), Swap(p, j, q), bump, i, c, m)
  {
    var o := if i == j then q else if i == q then j else i;
    assert Entry(s, p, bump, o, c, m);
    EntryMoved(s, p, Swap(s, j, q), Swap(p, j, q), bump, i, o, c, m);
  }

  /** Row o moved to row i keeps its equation when the rows above the diagonal stay. */
  lemma {:induction false} EntryMoved(s: Mat, p: Mat, s': Mat, p': Mat, bump: Vec, i: nat, o: nat, c: nat, m: nat)
    requires IsMat(s, m, m) && IsMat(p, m, m) && IsMat(s', m, m) && IsMat(p', m, m) && |bump| == m
    requires i < m && o < m && c < m && (i == o || (c < i && c < o))
    requires s'[i] == s[o] && p'[i] == p[o] && forall k :: 0 <= k <= c ==> s'[k] == s[k]
    requires Entry(s, p, bump, o, c, m)
    ensures Entry(s', p', bump, i, c, m)
  {
    DotColEq(s[o], s, s'[i], s', c, Min(i, c));
    assert Min(i, c) == Min(o, c) && Term(s', bump, i, c, m) == Term(s, bump, o, c, m);
  }

  lemma {:induction false} FactoredSwap(s: Mat, p: Mat, bump: Vec, j: nat, q: nat, m: nat)
    requires Factored(s, p, bump, j, m) && j <= q < m
    ensures Factored(Swap(s, j, q), Swap(p, j, q), bump, j, m)
  {
    var s', p' := Swap(s, j, q), Swap(p, j, q);
    forall i, c | 0 <= i < m && 0 <= c < j ensures Entry(s', p', bump, i, c, m) {
      EntrySwap(s, p, bump, j, q, m, i, c);
    }
    forall c | 0 <= c < j ensures Pivot(s', bump, c, m) {
      assert Pivot(s, bump, c, m);
    }
  }

  lemma {:induction false} UnscaledSwap(s: Mat, p: Mat, j: nat, q: nat, m: nat)
    requires IsMat(s, m, m) && IsMat(p, m, m) && j <= q < m
    requires forall i :: 0 <= i < m ==> Unscaled(s, p, i, j, m)
    ensures forall i :: 0 <= i < m ==> Unscaled(Swap(s, j, q), Swap(p, j, q), i, j, m)
  {
    var s', p' := Swap(s, j, q), Swap(p, j, q);
    forall i | 0 <= i < m ensures Unscaled(s', p', i, j, m) {
      var o := if i == j then q else if i == q then j else i;
      assert Unscaled(s, p, o, j, m);
      DotColEq(s[o], s, s'[i], s', j, Min(i, j));
    }
  }

  lemma {:induction false} DivideMultiply(v: real, t: real)
    requires t != 0.0
    ensures Prod(v, 1.0 / t) * t == v
  {
    assert (1.0 / t) * t == 1.0;
    assert v * (1.0 / t) * t == v * ((1.0 / t) * t);
  }

  /** Dividing the entries below the pivot by it completes column j. */
  lemma {:induction false} ScaleColumn(s: Mat, s': Mat, p: Mat, bump: Vec, tmp: real, j: nat, m: nat)
    requires Factored(s, p, bump, j, m) && j < m
    requires forall i :: 0 <= i < m ==> Unscaled(s, p, i, j, m)
    requires s[j][j] == 0.0 ==> forall i :: j <= i < m ==> s[i][j] == 0.0
    requires IsMat(s', m, m) && SameBut(s, s', j, m)
    requires forall i :: 0 <= i < j ==> s'[i][j] == s[i][j]
    requires s'[j][j] == if s[j][j] == 0.0 then LM_REAL_EPSILON else s[j][j]
    requires tmp == 1.0 / s'[j][j]
    requires forall i :: j < i < m ==> s'[i][j] == Prod(s[i][j], tmp)
    ensures Factored(s', p, bump[j := if s[j][j] == 0.0 then LM_REAL_EPSILON else 0.0], j + 1, m)
  {
    var bump' := bump[j := if s[j][j] == 0.0 then LM_REAL_EPSILON else 0.0];
    FactoredFrame(s, s', p, bump, j, m);
    forall i, c | 0 <= i < m && 0 <= c < j + 1 ensures Entry(s', p, bump', i, c, m) {
      if c < j {
        assert Entry(s', p, bump, i, c, m);
      } else {
        ScaledEntry(s, s', p, bump', tmp, i, j, m);
      }
    }
    forall c | 0 <= c < j + 1 ensures Pivot(s', bump', c, m) {
      if c < j { assert Pivot(s', bump, c, m); }
    }
  }

  lemma {:induction false} ScaledEntry(s: Mat, s': Mat, p: Mat, bump: Vec, tmp: real, i: nat, j: nat, m: nat)
    requires IsMat(s, m, m) && IsMat(s', m, m) && IsMat(p, m, m) && |bump| == m && i < m && j < m
    requires Unscaled(s, p, i, j, m) && SameBut(s, s', j, m)
    requires bump[j] == if s[j][j] == 0.0 then LM_REAL_EPSILON else 0.0
    requires s[j][j] == 0.0 ==> i < j || s[i][j] == 0.0
    requires forall k :: 0 <= k < j ==> s'[k][j] == s[k][j]
    requires s'[j][j] == if s[j][j] == 0.0 then LM_REAL_EPSILON else s[j][j]
    requires tmp == 1.0 / s'[j][j]
    requires i > j ==> s'[i][j] == Prod(s[i][j], tmp)
    ensures Entry(s', p, bump, i, j, m)
  {
    DotColEq(s[i], s, s'[i], s', j, Min(i, j));
    if i > j && s[j][j] != 0.0 { DivideMultiply(s[i][j], s[j][j]); }
  }

  // ----- the factorisation as a matrix product -----

  /** The Crout equations say that p is the product of the two factors. */
  lemma {:induction false} FactorsMultiply(s: Mat, p: Mat, bump: Vec, m: nat)
    requires Factored(s, p, bump, m, m)
    ensures MatMul(Lower(s, m), Upper(s, bump, m), m, m) == p
  {
    var l, u := Lower(s, m), Upper(s, bump, m);
    forall i | 0 <= i < m ensures MatMul(l, u, m, m)[i] == p[i] {
      forall c | 0 <= c < m ensures RowTimes(l[i], u, m, m)[c] == p[i][c] {
        assert Entry(s, p, bump, i, c, m);
        FactorsEntry(s, p, bump, i, c, m);
      }
    }
  }

  lemma {:induction false} FactorsShape(s: Mat, bump: Vec, i: nat, c: nat, m: nat)
    requires IsMat(s, m, m) && |bump| == m && i < m && c < m
    ensures forall k :: Min(i, c) < k < m ==> Lower(s, m)[i][k] == 0.0 || Upper(s, bump, m)[k][c] == 0.0
    ensures forall k :: 0 <= k < Min(i, c) ==> Lower(s, m)[i][k] == s[i][k] && Upper(s, bump, m)[k][c] == s[k][c]
  {
  }

  /** The product of a row and a column that agree with a stored row and column up to n and
      have nothing beyond it. */
  lemma {:induction false} ProductEntry(l: Vec, u: Mat, r: Vec, s: Mat, c: nat, n: nat, m: nat)
    requires n < m == |l| == |u| == |r| == |s| && forall k :: 0 <= k < m ==> c < |u[k]| && c < |s[k]|
    requires forall k :: n < k < m ==> l[k] == 0.0 || u[k][c] == 0.0
    requires forall k :: 0 <= k < n ==> l[k] == r[k] && u[k][c] == s[k][c]
    ensures DotCol(l, u, c, m) == DotCol(r, s, c, n) + l[n] * u[n][c]
  {
    DotColZeroTail(l, u, c, n + 1, m);
    DotColEq(l, u, r, s, c, n);
  }

  /** One entry of the product: the terms beyond the diagonal of either factor vanish. */
  lemma {:induction false} FactorsEntry(s: Mat, p: Mat, bump: Vec, i: nat, c: nat, m: nat)
    requires IsMat(s, m, m) && IsMat(p, m, m) && |bump| == m && i < m && c < m && Entry(s, p, bump, i, c, m)
    ensures DotCol(Lower(s, m)[i], Upper(s, bump, m), c, m) == p[i][c]
  {
    FactorsShape(s, bump, i, c, m);
    FactorsTerm(s, bump, i, c, m);
    ProductEntry(Lower(s, m)[i], Upper(s, bump, m), s[i], s, c, Min(i, c), m);
  }

  lemma {:induction false} FactorsTerm(s: Mat, bump: Vec, i: nat, c: nat, m: nat)
    requires IsMat(s, m, m) && |bump| == m && i < m && c < m
    ensures var n := Min(i, c); Lower(s, m)[i][n] * Upper(s, bump, m)[n][c] == Term(s, bump, i, c, m)
  {
    if i <= c {
      assert Lower(s, m)[i][i] == 1.0;
    } else {
      assert Lower(s, m)[i][c] == s[i][c] && Upper(s, bump, m)[c][c] == s[c][c] - bump[c];
    }
  }

  /** The stored upper factor exceeds the true one by the substituted pivots. */
  lemma {:induction false} StoredUpper(s: Mat, bump: Vec, x: Vec, k: nat, m: nat)
    requires IsMat(s, m, m) && |bump| == m && |x| == m && k < m
    ensures Dot(Upper(s, Zeros(m), m)[k], x, m) == Dot(Upper(s, bump, m)[k], x, m) + bump[k] * x[k]
  {
    var e := seq(m, j => if k == j then 1.0 else 0.0);
    DotLinear(Upper(s, bump, m)[k], bump[k], e, Upper(s, Zeros(m), m)[k], x, m);
    DotSym(e, x, m);
    assert e == seq(|x|, j => if k == j then 1.0 else 0.0);
    DotUnit(x, k, m);
  }

  lemma {:induction false} TrueFactors(s: Mat, p: Mat, bump: Vec, x: Vec, i: nat, m: nat)
    requires Factored(s, p, bump, m, m) && |x| == m && i < m
    ensures Dot(p[i], x, m) == Dot(Lower(s, m)[i], MatVec(Upper(s, bump, m), x), m)
  {
    var l, u := Lower(s, m), Upper(s, bump, m);
    FactorsMultiply(s, p, bump, m);
    MatMulVec(l, u, x, m);
    assert MatVec(p, x)[i] == MatVec(l, MatVec(u, x))[i];
  }

  /** The product with the stored factors: p plus the substitutes on the diagonal. */
  lemma {:induction false} StoredFactorsMultiply(s: Mat, p: Mat, bump: Vec, x: Vec, y: Vec, i: nat, m: nat)
    requires Factored(s, p, bump, m, m) && |x| == m && |y| == m && i < m
    requires forall k :: 0 <= k < m ==> y[k] == Dot(Upper(s, Zeros(m), m)[k], x, m)
    ensures Dot(Lower(s, m)[i], y, m) == Dot(p[i], x, m) + bump[i] * x[i]
  {
    TrueFactors(s, p, bump, x, i, m);
    BumpsMeetDiagonal(s, p, bump, x, i, m);
    StoredSum(s, bump, x, y, Lower(s, m)[i], m);
  }

  lemma {:induction false} StoredSum(s: Mat, bump: Vec, x: Vec, y: Vec, l: Vec, m: nat)
    requires IsMat(s, m, m) && |bump| == m && |x| == m && |y| == m && |l| == m
    requires forall k :: 0 <= k < m ==> y[k] == Dot(Upper(s, Zeros(m), m)[k], x, m)
    ensures Dot(l, y, m) == Dot(l, MatVec(Upper(s, bump, m), x), m) + Dot(l, Bumps(bump, x), m)
  {
    var u0, w := Upper(s, bump, m), Bumps(bump, x);
    var y0 := MatVec(u0, x);
    forall k | 0 <= k < m ensures y[k] == y0[k] + w[k] {
      StoredUpper(s, bump, x, k, m);
      assert y0[k] == Dot(u0[k], x, m);
      BumpsAt(bump, x, k);
    }
    StoredFactorsSum(l, y0, w, y, m);
  }

  lemma {:induction false} BumpsAt(bump: Vec, x: Vec, k: nat)
    requires |bump| == |x| && k < |x|
    ensures Bumps(bump, x)[k] == bump[k] * x[k]
  {
  }

  ghost function Bumps(bump: Vec, x: Vec): (w: Vec)
    requires |bump| == |x|
  {
    seq(|x|, k requires 0 <= k < |x| => bump[k] * x[k])
  }

  lemma {:induction false} StoredFactorsSum(l: Vec, y0: Vec, w: Vec, y: Vec, m: nat)
    requires |l| == m && |y0| == m && |w| == m && |y| == m
    requires forall k :: 0 <= k < m ==> y[k] == y0[k] + w[k]
    ensures Dot(l, y, m) == Dot(l, y0, m) + Dot(l, w, m)
  {
    DotLinear(y0, 1.0, w, y, l, m);
    DotSym(y, l, m); DotSym(y0, l, m); DotSym(w, l, m);
  }

  /** Below a substituted pivot the lower factor is zero. */
  lemma {:induction false} BumpsMeetDiagonal(s: Mat, p: Mat, bump: Vec, x: Vec, i: nat, m: nat)
    requires Factored(s, p, bump, m, m) && |x| == m && i < m
    ensures Dot(Lower(s, m)[i], Bumps(bump, x), m) == bump[i] * x[i]
  {
    var l, w := Lower(s, m)[i], Bumps(bump, x);
    DotZeroTail(l, w, i + 1, m);
    forall k | 0 <= k < i ensures l[k] == 0.0 || w[k] == 0.0 {
      assert Pivot(s, bump, k, m);
    }
    DotZero(l, w, i);
  }

  // ----- row exchanges -----

  /** Only the exchanges made so far matter. */
  lemma {:induction false} ExchangedIdxEq<T>(s: seq<T>, idx: seq<nat>, idx': seq<nat>, n: nat)
    requires n <= |idx| == |idx'| <= |s|
    requires forall k :: 0 <= k < n ==> idx[k] == idx'[k] < |s|
    ensures Exchanged(s, idx, n) == Exchanged(s, idx', n)
  {
    if n > 0 { ExchangedIdxEq(s, idx, idx', n - 1); }
  }

  lemma {:induction false} ExchangedIsMat(a: Mat, idx: seq<nat>, n: nat, m: nat)
    requires IsMat(a, m, m) && ExchangeList(idx, n, m)
    ensures IsMat(Exchanged(a, idx, n), m, m)
  {
    if n > 0 { ExchangedIsMat(a, idx, n - 1, m); }
  }

  /** x satisfies every row of a * x = b. */
  ghost predicate Equations(a: Mat, b: Vec, x: Vec, m: nat)
    requires IsMat(a, m, m) && |b| == m && |x| == m
  {
    forall i :: 0 <= i < m ==> Dot(a[i], x, m) == b[i]
  }

  /** Equations stay equations when rows and right hand sides are exchanged together. */
  lemma {:induction false} ExchangedEquations(a: Mat, b: Vec, x: Vec, idx: seq<nat>, n: nat, m: nat)
    requires IsMat(a, m, m) && |b| == m && |x| == m && ExchangeList(idx, n, m)
    ensures IsMat(Exchanged(a, idx, n), m, m)
    ensures Equations(a, b, x, m) <==> Equations(Exchanged(a, idx, n), Exchanged(b, idx, n), x, m)
  {
    ExchangedIsMat(a, idx, n, m);
    if n > 0 {
      ExchangedEquations(a, b, x, idx, n - 1, m);
      SwapEquations(Exchanged(a, idx, n - 1), Exchanged(b, idx, n - 1), x, n - 1, idx[n - 1], m);
    }
  }

  lemma {:induction false} SwapEquations(a: Mat, b: Vec, x: Vec, i: nat, j: nat, m: nat)
    requires IsMat(a, m, m) && |b| == m && |x| == m && i < m && j < m
    ensures Equations(a, b, x, m) <==> Equations(Swap(a, i, j), Swap(b, i, j), x, m)
  {
    var a', b' := Swap(a, i, j), Swap(b, i, j);
    if Equations(a', b', x, m) {
      forall k | 0 <= k < m ensures Dot(a[k], x, m) == b[k] {
        var o := if k == i then j else if k == j then i else k;
        assert Dot(a'[o], x, m) == b'[o];
      }
    }
  }

  // ----- a zero pivot means a singular matrix -----

  /** Back substitution that aims at zero: with all diagonal entries before c nonzero, an
      upper triangular u with a zero at (c, c) annihilates a vector that is 1 at c. */
  lemma {:induction false} NullVector(u: Mat, m: nat, c: nat, lo: nat) returns (v: Vec)
    requires IsMat(u, m, m) && lo <= c < m && u[c][c] == 0.0
    requires forall i, k :: 0 <= k < i < m ==> u[i][k] == 0.0
    requires forall i :: 0 <= i < c ==> u[i][i] != 0.0
    ensures |v| == m && v[c] == 1.0
    ensures forall i :: 0 <= i < lo ==> v[i] == 0.0
    ensures forall i :: c < i < m ==> v[i] == 0.0
    ensures forall i :: lo <= i < m ==> Dot(u[i], v, m) == 0.0
    decreases c - lo
  {
    if lo == c {
      v := seq(m, i => if i == c then 1.0 else 0.0);
      forall i | lo <= i < m ensures Dot(u[i], v, m) == 0.0 {
        DotZero(u[i], v, m);
      }
    } else {
      var w := NullVector(u, m, c, lo + 1);
      v := w[lo := -Dot(u[lo], w, m) / u[lo][lo]];
      forall i | lo <= i < m ensures Dot(u[i], v, m) == 0.0 {
        if i > lo {
          DotEqOrZero(u[i], w, v, m);
        } else {
          NullVectorStep(u[lo], w, v, lo, m);
        }
      }
    }
  }

  lemma {:induction false} NullVectorStep(u: Vec, w: Vec, v: Vec, lo: nat, m: nat)
    requires |u| == m && |w| == m && lo < m && u[lo] != 0.0
    requires forall k :: 0 <= k < lo ==> u[k] == 0.0
    requires w[lo] == 0.0 && v == w[lo := -Dot(u, w, m) / u[lo]]
    ensures Dot(u, v, m) == 0.0
  {
    DotZero(u, w, lo);
    DotZero(u, v, lo);
    DotTailEq(u, w, u, v, lo + 1, m);
    var d, t := Dot(u, w, m), u[lo];
    assert t * (-d / t) == -d;
  }

  /** If some pivot had to be replaced, the input sends some other vector to zero too. */
  lemma {:induction false} ZeroPivotSingular(a: Mat, s: Mat, bump: Vec, idx: seq<nat>, m: nat, c: nat)
    requires IsMat(a, m, m) && ExchangeList(idx, m, m)
    requires Factored(s, Exchanged(a, idx, m), bump, m, m)
    requires c < m && bump[c] != 0.0 && forall k :: 0 <= k < c ==> bump[k] == 0.0
    ensures !Regular(a, m)
  {
    var p, u := Exchanged(a, idx, m), Upper(s, bump, m);
    assert Pivot(s, bump, c, m);
    forall k | 0 <= k < c ensures u[k][k] != 0.0 { assert Pivot(s, bump, k, m); }
    var v := NullVector(u, m, c, 0);
    forall i | 0 <= i < m ensures Dot(p[i], v, m) == Zeros(m)[i] {
      TrueFactors(s, p, bump, v, i, m);
      DotZero(Lower(s, m)[i], MatVec(u, v), m);
    }
    ExchangedZeros(idx, m, m);
    ExchangedEquations(a, Zeros(m), v, idx, m, m);
    assert NullOf(a, m, v) && v[c] != Zeros(m)[c];
  }

  lemma {:induction false} ExchangedZeros(idx: seq<nat>, n: nat, m: nat)
    requires ExchangeList(idx, n, m)
    ensures Exchanged(Zeros(m), idx, n) == Zeros(m)
  {
    if n > 0 { ExchangedZeros(idx, n - 1, m); }
  }

  // ----- the solver -----

  ghost predicate Holds(a: array2<real>, s: Mat)
    reads a
  {
    && IsMat(s, a.Length0, a.Length1)
    && forall i, j :: 0 <= i < a.Length0 && 0 <= j < a.Length1 ==> a[i, j] == s[i][j]
  }

  ghost function Set(s: Mat, i: nat, j: nat, v: real): (r: Mat)
    requires i < |s| && j < |s[i]|
  {
    s[i := s[i][j := v]]
  }

  ghost predicate NonzeroRow(row: Vec) {
    exists j :: 0 <= j < |row| && row[j] != 0.0
  }

  /** w is the reciprocal of the largest magnitude in the row. */
  ghost predicate RowScale(w: real, row: Vec) {
    && w > 0.0
    && (exists j :: 0 <= j < |row| && Prod(w, Abs(row[j])) == 1.0)
    && (forall j :: 0 <= j < |row| ==> Prod(w, Abs(row[j])) <= 1.0)
  }

  lemma {:induction false} ReciprocalScale(max: real, row: Vec, at: nat)
    requires max > 0.0 && at < |row| && Abs(row[at]) == max
    requires forall j :: 0 <= j < |row| ==> Abs(row[j]) <= max
    ensures RowScale(1.0 / max, row)
  {
    var w := 1.0 / max;
    assert Prod(w, max) == 1.0;
    forall j | 0 <= j < |row| ensures Prod(w, Abs(row[j])) <= 1.0 {
      ProdMonotone(w, Abs(row[j]), max);
    }
  }

  lemma {:induction false} ProdMonotone(w: real, s: real, t: real)
    requires w >= 0.0 && s <= t
    ensures Prod(w, s) <= Prod(w, t)
  {
  }

  /** The reciprocal of the largest magnitude in each row, or failure at a zero row. */
  method ScaleRows(a: array2<real>, work: array<real>, m: nat, ghost s: Mat) returns (ok: bool)
    requires a.Length0 == m && a.Length1 == m && work.Length == m && Holds(a, s)
    modifies work
    ensures ok <==> forall i :: 0 <= i < m ==> NonzeroRow(s[i])
    ensures ok ==> forall i :: 0 <= i < m ==> RowScale(work[i], s[i])
  {
    for i := 0 to m
      invariant forall r :: 0 <= r < i ==> RowScale(work[r], s[r]) && NonzeroRow(s[r])
    {
      var max := 0.0;
      ghost var at := 0;
      for j := 0 to m
        invariant max >= 0.0
        invariant forall c :: 0 <= c < j ==> Abs(s[i][c]) <= max
        invariant max > 0.0 ==> at < j && Abs(s[i][at]) == max
      {
        var tmp := Abs(a[i, j]);
        if tmp > max {
          max := tmp;
          at := j;
        }
      }
      if max == 0.0 { return false; }
      ReciprocalScale(max, s[i], at);
      work[i] := 1.0 / max;
    }
    return true;
  }

  /** The entries of column j above the diagonal. */
  method EliminateUpper(a: array2<real>, j: nat, m: nat, ghost s0: Mat, ghost p: Mat) returns (ghost s: Mat)
    requires a.Length0 == m && a.Length1 == m && j < m && Holds(a, s0)
    requires IsMat(p, m, m) && forall i :: 0 <= i < m ==> s0[i][j] == p[i][j]
    modifies a
    ensures Holds(a, s) && SameBut(s0, s, j, m)
    ensures forall i :: 0 <= i < j ==> Unscaled(s, p, i, j, m)
    ensures forall i :: j <= i < m ==> s[i][j] == p[i][j]
  {
    s := s0;
    for i := 0 to j
      invariant Holds(a, s) && SameBut(s0, s, j, m)
      invariant forall r :: 0 <= r < i ==> Unscaled(s, p, r, j, m)
      invariant forall r :: i <= r < m ==> s[r][j] == p[r][j]
    {
      var sum := a[i, j];
      for k := 0 to i
        invariant sum == p[i][j] - DotCol(s[i], s, j, k)
      {
        sum := sum - a[i, k] * a[k, j];
      }
      a[i, j] := sum;
      ghost var was := s;
      s := Set(s, i, j, sum);
      forall r | 0 <= r < i + 1 ensures Unscaled(s, p, r, j, m) {
        if r < i { assert Unscaled(was, p, r, j, m); }
        DotColEq(was[r], was, s[r], s, j, r);
      }
    }
  }

  /** The entries of column j from the diagonal down, and the row of the largest scaled one. */
  method EliminateLower(a: array2<real>, work: array<real>, j: nat, m: nat, ghost s0: Mat, ghost p: Mat,
                        ghost scale: Vec)
    returns (maxi: nat, ghost s: Mat)
    requires a.Length0 == m && a.Length1 == m && work.Length == m && j < m && Holds(a, s0)
    requires IsMat(p, m, m)
    requires forall i :: 0 <= i < j ==> Unscaled(s0, p, i, j, m)
    requires forall i :: j <= i < m ==> s0[i][j] == p[i][j]
    requires |scale| == m && forall i :: j <= i < m ==> work[i] == scale[i] && scale[i] > 0.0
    modifies a
    ensures Holds(a, s) && SameBut(s0, s, j, m)
    ensures forall i :: 0 <= i < m ==> Unscaled(s, p, i, j, m)
    ensures j <= maxi < m
    ensures forall i :: j <= i < m ==> Prod(scale[i], Abs(s[i][j])) <= Prod(scale[maxi], Abs(s[maxi][j]))
  {
    s := s0;
    maxi := j;
    var max := 0.0;
    for i := j to m
      invariant Holds(a, s) && SameBut(s0, s, j, m)
      invariant forall r :: 0 <= r < i ==> Unscaled(s, p, r, j, m)
      invariant forall r :: i <= r < m ==> s[r][j] == p[r][j]
      invariant j <= maxi < m
      invariant i == j ==> max == 0.0
      invariant i > j ==> maxi < i && max == Prod(scale[maxi], Abs(s[maxi][j]))
      invariant forall r :: j <= r < i ==> Prod(scale[r], Abs(s[r][j])) <= max
    {
      var sum := a[i, j];
      for k := 0 to j
        invariant sum == p[i][j] - DotCol(s[i], s, j, k)
      {
        sum := sum - a[i, k] * a[k, j];
      }
      a[i, j] := sum;
      ghost var was := s;
      s := Set(s, i, j, sum);
      forall r | 0 <= r < i + 1 ensures Unscaled(s, p, r, j, m) {
        if r < i { assert Unscaled(was, p, r, j, m); }
        DotColEq(was[r], was, s[r], s, j, Min(r, j));
      }
      var tmp := Prod(work[i], Abs(sum));
      ProdNonNegative(work[i], Abs(sum));
      if tmp >= max {
        max := tmp;
        maxi := i;
      }
    }
  }

  lemma {:induction false} ProdNonNegative(s: real, t: real)
    requires s >= 0.0 && t >= 0.0
    ensures Prod(s, t) >= 0.0
  {
  }

  lemma {:induction false} ProdZero(s: real, t: real)
    requires s > 0.0 && t >= 0.0 && Prod(s, t) <= 0.0
    ensures t == 0.0
  {
    if t > 0.0 { ProdPositive(s, t); }
  }

  method SwapRows(a: array2<real>, i: nat, j: nat, m: nat, ghost s: Mat)
    requires a.Length0 == m && a.Length1 == m && i < m && j < m && Holds(a, s)
    modifies a
    ensures Holds(a, Swap(s, i, j))
  {
    for k := 0 to m
      invariant forall r, c :: 0 <= r < m && 0 <= c < m ==>
        a[r, c] == if c < k then Swap(s, i, j)[r][c] else s[r][c]
    {
      var tmp := a[i, k];
      a[i, k] := a[j, k];
      a[j, k] := tmp;
    }
  }

  /** Division of column j by its pivot, an exactly zero pivot becoming epsilon first. */
  method ScaleByPivot(a: array2<real>, j: nat, m: nat, ghost s: Mat) returns (ghost s': Mat, ghost tmp: real)
    requires a.Length0 == m && a.Length1 == m && j < m && Holds(a, s)
    modifies a
    ensures Holds(a, s') && SameBut(s, s', j, m)
    ensures forall i :: 0 <= i < j ==> s'[i][j] == s[i][j]
    ensures s'[j][j] == if s[j][j] == 0.0 then LM_REAL_EPSILON else s[j][j]
    ensures tmp == 1.0 / s'[j][j]
    ensures forall i :: j < i < m ==> s'[i][j] == Prod(s[i][j], tmp)
  {
    s' := s;
    if a[j, j] == 0.0 {
      a[j, j] := LM_REAL_EPSILON;
      s' := Set(s', j, j, LM_REAL_EPSILON);
    }
    tmp := 1.0 / a[j, j];
    if j != m - 1 {
      var t := 1.0 / a[j, j];
      for i := j + 1 to m
        invariant Holds(a, s') && SameBut(s, s', j, m)
        invariant forall r :: 0 <= r < j ==> s'[r][j] == s[r][j]
        invariant s'[j][j] == if s[j][j] == 0.0 then LM_REAL_EPSILON else s[j][j]
        invariant forall r :: j < r < i ==> s'[r][j] == Prod(s[r][j], tmp)
        invariant forall r :: i <= r < m ==> s'[r][j] == s[r][j]
      {
        a[i, j] := Prod(a[i, j], t);
        s' := Set(s', i, j, Prod(s[i][j], t));
      }
    }
  }

  /** The pivot of each finished column had the largest magnitude relative to its row, so
      no multiplier below it exceeds the ratio of the row scales. */
  ghost predicate Balanced(s: Mat, scale: Vec, j: nat, m: nat)
    requires IsMat(s, m, m) && |scale| == m && j <= m
  {
    forall i, c :: 0 <= c < j && c < i < m ==> Prod(scale[i], Abs(s[i][c])) <= scale[c]
  }

  lemma {:induction false} BalancedColumn(s: Mat, s': Mat, scale: Vec, tmp: real, j: nat, m: nat)
    requires IsMat(s, m, m) && IsMat(s', m, m) && |scale| == m && j < m
    requires Balanced(s, scale, j, m) && SameBut(s, s', j, m)
    requires forall i :: j <= i < m ==> Prod(scale[i], Abs(s[i][j])) <= Prod(scale[j], Abs(s[j][j]))
    requires forall i :: 0 <= i < m ==> scale[i] > 0.0
    requires s[j][j] == 0.0 ==> forall i :: j <= i < m ==> s[i][j] == 0.0
    requires s[j][j] != 0.0 ==> s'[j][j] == s[j][j]
    requires s'[j][j] != 0.0 && tmp == 1.0 / s'[j][j]
    requires forall i :: j < i < m ==> s'[i][j] == Prod(s[i][j], tmp)
    ensures Balanced(s', scale, j + 1, m)
  {
    forall i, c | 0 <= c < j + 1 && c < i < m ensures Prod(scale[i], Abs(s'[i][c])) <= scale[c] {
      if c == j {
        if s[j][j] == 0.0 {
          assert s'[i][j] == 0.0;
          assert Prod(scale[i], 0.0) == 0.0;
        } else {
          QuotientBound(scale[i], scale[j], s[i][j], s[j][j]);
        }
      }
    }
  }

  lemma {:induction false} QuotientBound(wi: real, wj: real, v: real, t: real)
    requires t != 0.0 && Prod(wi, Abs(v)) <= Prod(wj, Abs(t))
    ensures Prod(wi, Abs(Prod(v, 1.0 / t))) <= wj
  {
    var u := 1.0 / Abs(t);
    AbsQuotient(v, t);
    assert Prod(wi, Abs(v) * u) == Prod(u, Prod(wi, Abs(v)));
    ProdMonotone(u, Prod(wi, Abs(v)), Prod(wj, Abs(t)));
    var d := Abs(t);
    assert u * d == 1.0;
    assert Prod(u, Prod(wj, d)) == wj * (u * d);
  }

  lemma {:induction false} AbsQuotient(v: real, t: real)
    requires t != 0.0
    ensures 1.0 / Abs(t) > 0.0
    ensures Abs(v * (1.0 / t)) == Abs(v) * (1.0 / Abs(t))
  {
    var q := 1.0 / t;
    assert 1.0 / Abs(t) == Abs(q);
    if v >= 0.0 && q >= 0.0 { assert v * q >= 0.0; }
    else if v < 0.0 && q < 0.0 { assert v * q == (-v) * (-q) >= 0.0; }
    else if v >= 0.0 { assert v * q == -(v * (-q)) && v * (-q) >= 0.0; }
    else { assert v * q == -((-v) * q) && (-v) * q >= 0.0; }
  }

  /** What the decomposition guarantees about the in-place array s: it holds unit lower and
      upper factors of the input with its rows exchanged as idx says. */
  ghost predicate Decomposed(a: Mat, s: Mat, idx: seq<nat>, bump: Vec, scale: Vec, j: nat, m: nat) {
    && IsMat(a, m, m) && ExchangeList(idx, j, m) && |scale| == m && j <= m
    && IsMat(Exchanged(a, idx, j), m, m)
    && Factored(s, Exchanged(a, idx, j), bump, j, m)
    && Balanced(s, scale, j, m)
    && (forall i :: 0 <= i < m ==> RowScale(scale[i], Exchanged(a, idx, j)[i]))
    && (forall c :: j <= c < m ==> bump[c] == 0.0)
  }

  /** What one pass over column j leaves behind: s is the array before it, s2 after the
      elimination, s3 after the row exchange and s4 after the division by the pivot. */
  ghost predicate ColumnPass(s: Mat, s2: Mat, s3: Mat, s4: Mat, p: Mat, scale: Vec, tmp: real, maxi: nat, j: nat,
                             m: nat) {
    && IsMat(s, m, m) && IsMat(s2, m, m) && IsMat(s4, m, m) && IsMat(p, m, m) && |scale| == m
    && j <= maxi < m
    && SameBut(s, s2, j, m)
    && (forall i :: 0 <= i < m ==> Unscaled(s2, p, i, j, m))
    && (forall i :: j <= i < m ==> Prod(scale[i], Abs(s2[i][j])) <= Prod(scale[maxi], Abs(s2[maxi][j])))
    && s3 == Swap(s2, j, maxi)
    && SameBut(s3, s4, j, m)
    && (forall i :: 0 <= i < j ==> s4[i][j] == s3[i][j])
    && s4[j][j] == (if s3[j][j] == 0.0 then LM_REAL_EPSILON else s3[j][j])
    && tmp == 1.0 / s4[j][j]
    && (forall i :: j < i < m ==> s4[i][j] == Prod(s3[i][j], tmp))
  }

  /** The pivot row has the largest scaled entry, also after the exchange; a zero pivot
      therefore sits on top of a column of zeros. */
  lemma {:induction false} PivotDominates(s: Mat, s2: Mat, s3: Mat, s4: Mat, p: Mat, scale: Vec, tmp: real,
                                          maxi: nat, j: nat, m: nat)
    requires ColumnPass(s, s2, s3, s4, p, scale, tmp, maxi, j, m)
    requires forall i :: 0 <= i < m ==> scale[i] > 0.0
    ensures var scale' := Swap(scale, j, maxi);
            forall i :: j <= i < m ==> Prod(scale'[i], Abs(s3[i][j])) <= Prod(scale'[j], Abs(s3[j][j]))
    ensures s3[j][j] == 0.0 ==> forall i :: j <= i < m ==> s3[i][j] == 0.0
  {
    var scale' := Swap(scale, j, maxi);
    if s3[j][j] == 0.0 {
      assert Prod(scale'[j], Abs(s3[j][j])) == 0.0;
      forall i | j <= i < m ensures s3[i][j] == 0.0 {
        ProdZero(scale'[i], Abs(s3[i][j]));
      }
    }
  }

  lemma {:induction false} FactoredPass(s: Mat, s2: Mat, s3: Mat, s4: Mat, p: Mat, bump: Vec, scale: Vec, tmp: real,
                                        maxi: nat, j: nat, m: nat)
    requires Factored(s, p, bump, j, m)
    requires ColumnPass(s, s2, s3, s4, p, scale, tmp, maxi, j, m)
    requires forall i :: 0 <= i < m ==> scale[i] > 0.0
    ensures Factored(s4, Swap(p, j, maxi), bump[j := if s3[j][j] == 0.0 then LM_REAL_EPSILON else 0.0], j + 1, m)
  {
    PivotDominates(s, s2, s3, s4, p, scale, tmp, maxi, j, m);
    FactoredFrame(s, s2, p, bump, j, m);
    FactoredSwap(s2, p, bump, j, maxi, m);
    UnscaledSwap(s2, p, j, maxi, m);
    ScaleColumn(s3, s4, Swap(p, j, maxi), bump, tmp, j, m);
  }

  lemma {:induction false} BalancedPass(s: Mat, s2: Mat, s3: Mat, s4: Mat, p: Mat, scale: Vec, tmp: real, maxi: nat,
                                        j: nat, m: nat)
    requires ColumnPass(s, s2, s3, s4, p, scale, tmp, maxi, j, m)
    requires Balanced(s, scale, j, m)
    requires forall i :: 0 <= i < m ==> scale[i] > 0.0
    ensures Balanced(s4, Swap(scale, j, maxi), j + 1, m)
  {
    PivotDominates(s, s2, s3, s4, p, scale, tmp, maxi, j, m);
    var scale' := Swap(scale, j, maxi);
    forall i, c | 0 <= c < j && c < i < m ensures Prod(scale'[i], Abs(s3[i][c])) <= scale'[c] {
      var o := if i == j then maxi else if i == maxi then j else i;
      assert Prod(scale[o], Abs(s[o][c])) <= scale[c];
    }
    BalancedColumn(s3, s4, scale', tmp, j, m);
  }

  lemma {:induction false} ColumnDone(a0: Mat, s: Mat, s2: Mat, s3: Mat, s4: Mat, idx: seq<nat>, idx': seq<nat>,
                                      bump: Vec, scale: Vec, tmp: real, maxi: nat, j: nat, m: nat)
    requires j < m && Decomposed(a0, s, idx, bump, scale, j, m)
    requires SameFrom(s, Exchanged(a0, idx, j), j, m)
    requires ColumnPass(s, s2, s3, s4, Exchanged(a0, idx, j), scale, tmp, maxi, j, m)
    requires idx' == idx[j := maxi]
    ensures Decomposed(a0, s4, idx', bump[j := if s3[j][j] == 0.0 then LM_REAL_EPSILON else 0.0],
                       Swap(scale, j, maxi), j + 1, m)
    ensures Exchanged(a0, idx', j + 1) == Swap(Exchanged(a0, idx, j), j, maxi)
    ensures SameFrom(s4, Exchanged(a0, idx', j + 1), j + 1, m)
  {
    var p := Exchanged(a0, idx, j);
    ExchangedIdxEq(a0, idx, idx', j);
    var p' := Exchanged(a0, idx', j + 1);
    assert p' == Swap(p, j, maxi);
    forall i | 0 <= i < m ensures RowScale(Swap(scale, j, maxi)[i], p'[i]) {
      var o := if i == j then maxi else if i == maxi then j else i;
      assert RowScale(scale[o], p[o]);
    }
    forall i | 0 <= i < m ensures scale[i] > 0.0 { assert RowScale(scale[i], p[i]); }
    FactoredPass(s, s2, s3, s4, p, bump, scale, tmp, maxi, j, m);
    BalancedPass(s, s2, s3, s4, p, scale, tmp, maxi, j, m);
  }

  /** One pass of the decomposition, over column j. */
  method Column(a: array2<real>, work: array<real>, idx: array<nat>, j: nat, m: nat, ghost s: Mat, ghost p: Mat,
                ghost scale: Vec)
    returns (maxi: nat, ghost s2: Mat, ghost s3: Mat, ghost s4: Mat, ghost tmp: real)
    requires a.Length0 == m && a.Length1 == m && work.Length == m && idx.Length == m && j < m
    requires Holds(a, s) && IsMat(p, m, m) && SameFrom(s, p, j, m)
    requires |scale| == m && forall i :: j <= i < m ==> work[i] == scale[i] && scale[i] > 0.0
    modifies a, work, idx
    ensures Holds(a, s4) && ColumnPass(s, s2, s3, s4, p, scale, tmp, maxi, j, m)
    ensures idx[..] == old(idx[..])[j := maxi]
    ensures forall i :: j < i < m ==> work[i] == Swap(scale, j, maxi)[i]
  {
    ghost var s1 := EliminateUpper(a, j, m, s, p);
    maxi, s2 := EliminateLower(a, work, j, m, s1, p, scale);
    s3 := Swap(s2, j, maxi);
    if j != maxi {
      SwapRows(a, maxi, j, m, s2);
      assert Swap(s2, maxi, j) == s3;
      work[maxi] := work[j];
    }
    idx[j] := maxi;
    s4, tmp := ScaleByPivot(a, j, m, s3);
  }

  lemma {:induction false} ColumnReady(a0: Mat, s: Mat, idx: seq<nat>, bump: Vec, scale: Vec, j: nat, m: nat)
    requires j < m && Decomposed(a0, s, idx, bump, scale, j, m)
    ensures forall i :: 0 <= i < m ==> scale[i] > 0.0
  {
    forall i | 0 <= i < m ensures scale[i] > 0.0 { assert RowScale(scale[i], Exchanged(a0, idx, j)[i]); }
  }

  /** The state of the decomposition before column j. */
  ghost predicate Running(a0: Mat, s: Mat, idx: seq<nat>, bump: Vec, scale: Vec, work: Vec, j: nat, m: nat) {
    && Decomposed(a0, s, idx, bump, scale, j, m) && |work| == m
    && SameFrom(s, Exchanged(a0, idx, j), j, m)
    && (forall i :: j <= i < m ==> work[i] == scale[i])
  }

  method DecomposeColumn(a: array2<real>, work: array<real>, idx: array<nat>, j: nat, m: nat, ghost a0: Mat,
                         ghost s: Mat, ghost bump: Vec, ghost scale: Vec)
    returns (ghost s': Mat, ghost bump': Vec, ghost scale': Vec)
    requires a.Length0 == m && a.Length1 == m && work.Length == m && idx.Length == m && j < m
    requires Holds(a, s) && Running(a0, s, idx[..], bump, scale, work[..], j, m)
    modifies a, work, idx
    ensures Holds(a, s') && Running(a0, s', idx[..], bump', scale', work[..], j + 1, m)
  {
    ghost var idx0 := idx[..];
    ColumnReady(a0, s, idx0, bump, scale, j, m);
    var maxi, s2, s3, s4, tmp := Column(a, work, idx, j, m, s, Exchanged(a0, idx0, j), scale);
    s', scale', bump' := s4, Swap(scale, j, maxi), bump[j := if s3[j][j] == 0.0 then LM_REAL_EPSILON else 0.0];
    ColumnDone(a0, s, s2, s3, s4, idx0, idx[..], bump, scale, tmp, maxi, j, m);
  }

  method Decompose(a: array2<real>, work: array<real>, idx: array<nat>, m: nat, ghost a0: Mat)
    returns (ghost s: Mat, ghost bump: Vec, ghost scale: Vec)
    requires a.Length0 == m && a.Length1 == m && work.Length == m && idx.Length == m
    requires Holds(a, a0)
    requires forall i :: 0 <= i < m ==> RowScale(work[i], a0[i])
    modifies a, work, idx
    ensures Holds(a, s) && Decomposed(a0, s, idx[..], bump, scale, m, m)
  {
    s, bump, scale := a0, Zeros(m), work[..];
    for j := 0 to m
      invariant Holds(a, s) && Running(a0, s, idx[..], bump, scale, work[..], j, m)
    {
      s, bump, scale := DecomposeColumn(a, work, idx, j, m, a0, s, bump, scale);
    }
  }

  /** Forward substitution: entry i of y and of the right hand side. */
  ghost predicate Forward(s: Mat, y: Vec, b: Vec, i: nat, m: nat)
    requires IsMat(s, m, m) && |y| == m && |b| == m && i < m
  {
    y[i] + Dot(s[i], y, i) == b[i]
  }

  ghost predicate ForwardTo(s: Mat, y: Vec, b: Vec, n: nat, m: nat)
    requires IsMat(s, m, m) && |y| == m && |b| == m && n <= m
  {
    forall i :: 0 <= i < n ==> Forward(s, y, b, i, m)
  }

  /** Row r depends only on the entries of y and b up to r. */
  lemma {:induction false} ForwardFrame(s: Mat, y: Vec, y': Vec, b: Vec, b': Vec, r: nat, m: nat)
    requires IsMat(s, m, m) && r < m && |y| == |y'| == |b| == |b'| == m
    requires Forward(s, y, b, r, m) && b[r] == b'[r]
    requires forall k :: 0 <= k <= r ==> y[k] == y'[k]
    ensures Forward(s, y', b', r, m)
  {
    DotEq(s[r], y, s[r], y', r);
  }

  lemma {:induction false} ForwardStep(s: Mat, was: Vec, mid: Vec, x: Vec, pb: Vec, pb': Vec, i: nat, m: nat)
    requires IsMat(s, m, m) && i < m && |was| == |mid| == |x| == |pb| == |pb'| == m
    requires ForwardTo(s, was, pb, i, m)
    requires forall r :: 0 <= r < i ==> was[r] == mid[r] == x[r] && pb[r] == pb'[r]
    requires x[i] + Dot(s[i], mid, i) == pb'[i]
    ensures ForwardTo(s, x, pb', i + 1, m)
  {
    forall r | 0 <= r < i ensures Forward(s, x, pb', r, m) {
      ForwardFrame(s, was, x, pb, pb', r, m);
    }
    ForwardLast(s, mid, x, pb', i, m);
  }

  lemma {:induction false} ForwardLast(s: Mat, mid: Vec, x: Vec, b: Vec, i: nat, m: nat)
    requires IsMat(s, m, m) && i < m && |mid| == |x| == |b| == m
    requires forall r :: 0 <= r < i ==> mid[r] == x[r]
    requires x[i] + Dot(s[i], mid, i) == b[i]
    ensures Forward(s, x, b, i, m)
  {
    DotEq(s[i], mid, s[i], x, i);
  }

  /** Row i of the forward substitution: k is zero, or one more than the first row whose
      entry was nonzero. */
  method ForwardRow(a: array2<real>, x: array<real>, i: nat, k: nat, sum0: real, m: nat, ghost s: Mat)
    returns (sum: real, k': nat)
    requires a.Length0 == m && a.Length1 == m && x.Length == m && k <= i < m && Holds(a, s)
    requires forall r :: 0 <= r < (if k == 0 then i else k - 1) ==> x[r] == 0.0
    ensures sum == sum0 - Dot(s[i], x[..], i)
    ensures k' == if k == 0 && sum != 0.0 then i + 1 else k
  {
    sum, k' := sum0, k;
    if k != 0 {
      DotZero(s[i], x[..], k - 1);
      var j := k - 1;
      while j < i
        invariant k - 1 <= j <= i
        invariant sum == sum0 - Dot(s[i], x[..], j)
      {
        sum := sum - a[i, j] * x[j];
        j := j + 1;
      }
    } else {
      DotZero(s[i], x[..], i);
      if sum != 0.0 { k' := i + 1; }
    }
  }

  /** Exchanges entry i and solves row i. */
  method ForwardOne(a: array2<real>, x: array<real>, i: nat, j: nat, k: nat, m: nat, ghost s: Mat, ghost pb: Vec,
                    ghost pb': Vec)
    returns (k': nat)
    requires a.Length0 == m && a.Length1 == m && x.Length == m && k <= i < m && i <= j < m && Holds(a, s)
    requires |pb| == |pb'| == m && pb' == Swap(pb, i, j) && ForwardTo(s, x[..], pb, i, m)
    requires forall r :: 0 <= r < (if k == 0 then i else k - 1) ==> x[r] == 0.0
    requires forall r :: i <= r < m ==> x[r] == pb[r]
    modifies x
    ensures k' <= i + 1 && ForwardTo(s, x[..], pb', i + 1, m)
    ensures forall r :: 0 <= r < (if k' == 0 then i + 1 else k' - 1) ==> x[r] == 0.0
    ensures forall r :: i + 1 <= r < m ==> x[r] == pb'[r]
  {
    ghost var was := x[..];
    var sum := x[j];
    x[j] := x[i];
    ghost var mid := x[..];
    sum, k' := ForwardRow(a, x, i, k, sum, m, s);
    x[i] := sum;
    ForwardStep(s, was, mid, x[..], pb, pb', i, m);
  }

  /** Forward substitution; the row exchanges are applied to x as the loop reaches them,
      and rows above the first nonzero entry are skipped. */
  method ForwardSubstitute(a: array2<real>, idx: array<nat>, x: array<real>, m: nat, ghost s: Mat)
    requires a.Length0 == m && a.Length1 == m && idx.Length == m && x.Length == m
    requires Holds(a, s) && ExchangeList(idx[..], m, m)
    modifies x
    ensures ForwardTo(s, x[..], Exchanged(old(x[..]), idx[..], m), m, m)
  {
    ghost var b := x[..];
    var k: nat := 0;
    for i := 0 to m
      invariant k <= i
      invariant forall r :: 0 <= r < (if k == 0 then i else k - 1) ==> x[r] == 0.0
      invariant ForwardTo(s, x[..], Exchanged(b, idx[..], i), i, m)
      invariant forall r :: i <= r < m ==> x[r] == Exchanged(b, idx[..], i)[r]
    {
      ghost var pb, pb' := Exchanged(b, idx[..], i), Exchanged(b, idx[..], i + 1);
      k := ForwardOne(a, x, i, idx[i], k, m, s, pb, pb');
    }
  }

  ghost predicate BackSolved(s: Mat, x: Vec, y: Vec, n: nat, m: nat)
    requires IsMat(s, m, m) && |x| == m && |y| == m
  {
    forall i :: n <= i < m ==> Dot(Upper(s, Zeros(m), m)[i], x, m) == y[i]
  }

  /** What row i leaves for unknown i. */
  method BackRow(a: array2<real>, x: array<real>, i: nat, m: nat, ghost s: Mat) returns (sum: real)
    requires a.Length0 == m && a.Length1 == m && x.Length == m && Holds(a, s) && i < m
    ensures var u := Upper(s, Zeros(m), m)[i]; sum == x[i] - (Dot(u, x[..], m) - Dot(u, x[..], i + 1))
  {
    ghost var u := Upper(s, Zeros(m), m)[i];
    sum := x[i];
    for j := i + 1 to m
      invariant sum == x[i] - (Dot(u, x[..], j) - Dot(u, x[..], i + 1))
    {
      sum := sum - a[i, j] * x[j];
    }
  }

  /** Back substitution with the stored upper factor. */
  method BackSubstitute(a: array2<real>, x: array<real>, m: nat, ghost s: Mat)
    requires a.Length0 == m && a.Length1 == m && x.Length == m && Holds(a, s)
    requires forall i :: 0 <= i < m ==> s[i][i] != 0.0
    modifies x
    ensures BackSolved(s, x[..], old(x[..]), 0, m)
  {
    ghost var y, u := x[..], Upper(s, Zeros(m), m);
    var i := m;
    while i > 0
      invariant 0 <= i <= m
      invariant forall r :: 0 <= r < i ==> x[r] == y[r]
      invariant BackSolved(s, x[..], y, i, m)
    {
      i := i - 1;
      ghost var was := x[..];
      var sum := BackRow(a, x, i, m, s);
      x[i] := sum / a[i, i];
      BackStep(u[i], was, x[..], y[i], i, m);
      BackFrame(s, was, x[..], y, i, m);
    }
  }

  lemma {:induction false} QuotientProduct(t: real, d: real)
    requires t != 0.0
    ensures t * (d / t) == d
  {
  }

  lemma {:induction false} BackFrame(s: Mat, was: Vec, x: Vec, y: Vec, i: nat, m: nat)
    requires IsMat(s, m, m) && |was| == |x| == |y| == m && i < m
    requires BackSolved(s, was, y, i + 1, m)
    requires forall k :: 0 <= k < m && k != i ==> was[k] == x[k]
    requires Dot(Upper(s, Zeros(m), m)[i], x, m) == y[i]
    ensures BackSolved(s, x, y, i, m)
  {
    var u := Upper(s, Zeros(m), m);
    forall r | i < r < m ensures Dot(u[r], x, m) == y[r] {
      DotEqOrZero(u[r], was, x, m);
    }
  }

  lemma {:induction false} LastTerm(u: Vec, x: Vec, i: nat, d: real)
    requires i < |u| && i < |x| && u[i] != 0.0 && x[i] == d / u[i]
    ensures Dot(u, x, i + 1) == Dot(u, x, i) + d
  {
    QuotientProduct(u[i], d);
  }

  lemma {:induction false} BackStep(u: Vec, was: Vec, x: Vec, y: real, i: nat, m: nat)
    requires |u| == m && |was| == m && |x| == m && i < m && u[i] != 0.0
    requires forall k :: 0 <= k < i ==> u[k] == 0.0
    requires x == was[i := (y - (Dot(u, was, m) - Dot(u, was, i + 1))) / u[i]]
    ensures Dot(u, x, m) == y
  {
    DotTailEq(u, was, u, x, i + 1, m);
    DotZero(u, x, i);
    LastTerm(u, x, i, y - (Dot(u, was, m) - Dot(u, was, i + 1)));
  }

  /** The residual of the computed x: exact wherever no pivot was replaced. */
  ghost predicate Residual(a: Mat, b: Vec, x: Vec, idx: seq<nat>, bump: Vec, m: nat) {
    && IsMat(a, m, m) && |b| == m && |x| == m && |bump| == m && ExchangeList(idx, m, m)
    && IsMat(Exchanged(a, idx, m), m, m)
    && forall i :: 0 <= i < m ==> Dot(Exchanged(a, idx, m)[i], x, m) + Bumps(bump, x)[i] == Exchanged(b, idx, m)[i]
  }

  lemma {:induction false} ForwardIsLower(s: Mat, y: Vec, b: Vec, i: nat, m: nat)
    requires IsMat(s, m, m) && |y| == m && |b| == m && i < m && Forward(s, y, b, i, m)
    ensures Dot(Lower(s, m)[i], y, m) == b[i]
  {
    var l := Lower(s, m)[i];
    DotZeroTail(l, y, i + 1, m);
    DotEq(l, y, s[i], y, i);
    assert l[i] * y[i] == y[i];
  }

  lemma {:induction false} SubstitutedResidual(a: Mat, s: Mat, idx: seq<nat>, bump: Vec, scale: Vec, b: Vec, y: Vec,
                                               x: Vec, m: nat)
    requires Decomposed(a, s, idx, bump, scale, m, m) && |b| == m && |y| == m && |x| == m
    requires ForwardTo(s, y, Exchanged(b, idx, m), m, m)
    requires BackSolved(s, x, y, 0, m)
    ensures Residual(a, b, x, idx, bump, m)
  {
    var p, pb := Exchanged(a, idx, m), Exchanged(b, idx, m);
    forall i | 0 <= i < m ensures Dot(p[i], x, m) + Bumps(bump, x)[i] == pb[i] {
      assert Forward(s, y, pb, i, m);
      ForwardIsLower(s, y, pb, i, m);
      StoredFactorsMultiply(s, p, bump, x, y, i, m);
      BumpsAt(bump, x, i);
    }
  }

  /** The computed x solves the system exactly when every unknown whose pivot was zero
      came out as zero. */
  lemma {:induction false} SolvedIff(a: Mat, b: Vec, x: Vec, idx: seq<nat>, bump: Vec, m: nat)
    requires Residual(a, b, x, idx, bump, m)
    ensures Solves(a, x, b) <==> forall i :: 0 <= i < m && bump[i] != 0.0 ==> x[i] == 0.0
  {
    var p, pb, w := Exchanged(a, idx, m), Exchanged(b, idx, m), Bumps(bump, x);
    assert Equations(p, pb, x, m) <==> forall i :: 0 <= i < m ==> w[i] == 0.0;
    ExchangedEquations(a, b, x, idx, m, m);
    EquationsSolve(a, b, x, m);
    forall i | 0 <= i < m ensures w[i] == 0.0 <==> (bump[i] != 0.0 ==> x[i] == 0.0) {
      BumpsAt(bump, x, i);
      ProductZero(bump[i], x[i]);
    }
  }

  lemma {:induction false} ProductZero(s: real, t: real)
    ensures s * t == 0.0 <==> s == 0.0 || t == 0.0
  {
    if s != 0.0 { assert (1.0 / s) * (s * t) == t; }
  }

  lemma {:induction false} EquationsSolve(a: Mat, b: Vec, x: Vec, m: nat)
    requires IsMat(a, m, m) && |b| == m && |x| == m
    ensures Equations(a, b, x, m) <==> Solves(a, x, b)
  {
    assert forall i :: 0 <= i < m ==> MatVec(a, x)[i] == Dot(a[i], x, m);
  }

  /** Zero or more leading bumps: the first replaced pivot, if any. */
  lemma {:induction false} FirstReplaced(bump: Vec, n: nat) returns (c: nat)
    requires n <= |bump|
    ensures c <= n && (forall k :: 0 <= k < c ==> bump[k] == 0.0)
    ensures c < n ==> bump[c] != 0.0
  {
    if n == 0 { c := 0; }
    else {
      c := FirstReplaced(bump, n - 1);
      if c == n - 1 && bump[n - 1] == 0.0 { c := n; }
    }
  }

  // ----- when the solver is right -----

  /** s holds the factors of the input with its rows exchanged as idx says. */
  ghost predicate HasFactors(a: Mat, s: Mat, idx: seq<nat>, bump: Vec, m: nat) {
    && IsMat(a, m, m) && ExchangeList(idx, m, m)
    && Factored(s, Exchanged(a, idx, m), bump, m, m)
  }

  /** An upper triangular matrix without zeros on its diagonal sends different vectors to
      different vectors. */
  lemma {:induction false} UpperInjective(s: Mat, x: Vec, z: Vec, lo: nat, m: nat)
    requires IsMat(s, m, m) && |x| == |z| == m && lo <= m
    requires forall i :: 0 <= i < m ==> s[i][i] != 0.0
    requires forall i :: 0 <= i < m ==> Dot(Upper(s, Zeros(m), m)[i], x, m) == Dot(Upper(s, Zeros(m), m)[i], z, m)
    ensures forall k :: lo <= k < m ==> x[k] == z[k]
    decreases m - lo
  {
    if lo < m {
      var next := lo + 1;
      UpperInjective(s, x, z, next, m);
      UpperEntry(Upper(s, Zeros(m), m)[lo], x, z, lo, next, m);
    }
  }

  /** A row that starts at place lo, and vectors that agree after it, agree there. */
  lemma {:induction false} UpperEntry(u: Vec, x: Vec, z: Vec, lo: nat, next: nat, m: nat)
    requires |u| == |x| == |z| == m && next == lo + 1 <= m && u[lo] != 0.0
    requires forall k :: 0 <= k < lo ==> u[k] == 0.0
    requires forall k :: next <= k < m ==> x[k] == z[k]
    requires Dot(u, x, m) == Dot(u, z, m)
    ensures x[lo] == z[lo]
  {
    DotZero(u, x, lo);
    DotZero(u, z, lo);
    DotTailEq(u, x, u, z, next, m);
    DotLast(u, x, lo, next);
    DotLast(u, z, lo, next);
    ProductCancel(u[lo], x[lo], z[lo]);
  }

  lemma {:induction false} DotLast(u: Vec, x: Vec, k: nat, next: nat)
    requires next == k + 1 && next <= |u| && next <= |x|
    ensures Dot(u, x, next) == Dot(u, x, k) + Prod(u[k], x[k])
  {
  }

  lemma {:induction false} ProductCancel(t: real, x: real, z: real)
    requires t != 0.0 && Prod(t, x) == Prod(t, z)
    ensures x == z
  {
    assert t * (x - z) == Prod(t, x) - Prod(t, z);
    ProductZero(t, x - z);
  }

  /** So does a unit lower triangular matrix. */
  lemma {:induction false} LowerInjective(s: Mat, y: Vec, z: Vec, hi: nat, m: nat)
    requires IsMat(s, m, m) && |y| == |z| == m && hi <= m
    requires forall i :: 0 <= i < m ==> Dot(Lower(s, m)[i], y, m) == Dot(Lower(s, m)[i], z, m)
    ensures forall k :: 0 <= k < hi ==> y[k] == z[k]
  {
    if hi > 0 {
      LowerInjective(s, y, z, hi - 1, m);
      var l := Lower(s, m)[hi - 1];
      DotZeroTail(l, y, hi, m);
      DotZeroTail(l, z, hi, m);
      DotEq(l, y, l, z, hi - 1);
    }
  }

  /** The right hand side of the stored lower system. */
  lemma {:induction false} ResidualLower(a: Mat, s: Mat, idx: seq<nat>, bump: Vec, b: Vec, x: Vec, m: nat)
    returns (y: Vec)
    requires HasFactors(a, s, idx, bump, m) && Residual(a, b, x, idx, bump, m)
    ensures |y| == m && forall k :: 0 <= k < m ==> y[k] == Dot(Upper(s, Zeros(m), m)[k], x, m)
    ensures forall i :: 0 <= i < m ==> Dot(Lower(s, m)[i], y, m) == Exchanged(b, idx, m)[i]
  {
    y := MatVec(Upper(s, Zeros(m), m), x);
    forall i | 0 <= i < m ensures Dot(Lower(s, m)[i], y, m) == Exchanged(b, idx, m)[i] {
      StoredFactorsMultiply(s, Exchanged(a, idx, m), bump, x, y, i, m);
      BumpsAt(bump, x, i);
    }
  }

  /** The factors determine the result: no two vectors have the same residual. */
  lemma {:induction false} ResidualUnique(a: Mat, s: Mat, idx: seq<nat>, bump: Vec, b: Vec, x: Vec, z: Vec, m: nat)
    requires HasFactors(a, s, idx, bump, m)
    requires Residual(a, b, x, idx, bump, m) && Residual(a, b, z, idx, bump, m)
    ensures x == z
  {
    var y := ResidualLower(a, s, idx, bump, b, x, m);
    var w := ResidualLower(a, s, idx, bump, b, z, m);
    LowerInjective(s, y, w, m, m);
    PivotsNonzero(s, Exchanged(a, idx, m), bump, m);
    UpperInjective(s, x, z, 0, m);
  }

  /** z solves the equations without using the unknowns whose pivots were replaced. */
  ghost predicate SolvesWithout(a: Mat, b: Vec, z: Vec, bump: Vec, m: nat) {
    |z| == m == |bump| && Solves(a, z, b) && forall i :: 0 <= i < m && bump[i] != 0.0 ==> z[i] == 0.0
  }

  /** A right hand side is met exactly when it can be met without the unknowns whose pivots
      were replaced: a question about A and B alone. */
  lemma {:induction false} SolvedIffWithout(a: Mat, s: Mat, idx: seq<nat>, bump: Vec, b: Vec, x: Vec, m: nat)
    requires HasFactors(a, s, idx, bump, m) && Residual(a, b, x, idx, bump, m)
    ensures Solves(a, x, b) <==> exists z: Vec :: SolvesWithout(a, b, z, bump, m)
  {
    SolvedIff(a, b, x, idx, bump, m);
    if Solves(a, x, b) { assert SolvesWithout(a, b, x, bump, m); }
    forall z: Vec | SolvesWithout(a, b, z, bump, m) ensures z == x {
      SolutionResidual(a, idx, bump, b, z, m);
      ResidualUnique(a, s, idx, bump, b, x, z, m);
    }
  }

  lemma {:induction false} SolutionResidual(a: Mat, idx: seq<nat>, bump: Vec, b: Vec, z: Vec, m: nat)
    requires IsMat(a, m, m) && |b| == m && ExchangeList(idx, m, m) && SolvesWithout(a, b, z, bump, m)
    ensures Residual(a, b, z, idx, bump, m)
  {
    EquationsSolve(a, b, z, m);
    ExchangedEquations(a, b, z, idx, m, m);
    forall i | 0 <= i < m ensures Bumps(bump, z)[i] == 0.0 {
      BumpsAt(bump, z, i);
      ProductZero(bump[i], z[i]);
    }
  }

  /** The exchanges undone, last one first. */
  ghost function Restored(s: Vec, idx: seq<nat>, n: nat): (r: Vec)
    requires n <= |idx| && |idx| <= |s|
    requires forall k :: 0 <= k < n ==> idx[k] < |s|
    ensures |r| == |s| && Exchanged(r, idx, n) == s
    decreases n
  {
    if n == 0 then s
    else
      assert Swap(Swap(s, n - 1, idx[n - 1]), n - 1, idx[n - 1]) == s;
      Restored(Swap(s, n - 1, idx[n - 1]), idx, n - 1)
  }

  /** For every vector there is a right hand side that leads to it. */
  lemma {:induction false} ResidualOnto(a: Mat, s: Mat, idx: seq<nat>, bump: Vec, x: Vec, m: nat) returns (b: Vec)
    requires HasFactors(a, s, idx, bump, m) && |x| == m
    ensures Residual(a, b, x, idx, bump, m)
  {
    var p := Exchanged(a, idx, m);
    var pb := seq(m, i requires 0 <= i < m => Dot(p[i], x, m) + Bumps(bump, x)[i]);
    b := Restored(pb, idx, m);
  }

  /** Once a pivot has been replaced, some right hand side gets a wrong result. */
  lemma {:induction false} ReplacedFails(a: Mat, s: Mat, idx: seq<nat>, bump: Vec, m: nat, c: nat)
    returns (b: Vec, e: Vec)
    requires HasFactors(a, s, idx, bump, m) && c < m && bump[c] != 0.0
    ensures |b| == m && Residual(a, b, e, idx, bump, m)
    ensures forall x: Vec :: Residual(a, b, x, idx, bump, m) ==> !Solves(a, x, b)
  {
    e := Zeros(m)[c := 1.0];
    b := ResidualOnto(a, s, idx, bump, e, m);
    forall x: Vec | Residual(a, b, x, idx, bump, m) ensures !Solves(a, x, b) {
      ResidualUnique(a, s, idx, bump, b, x, e, m);
      SolvedIff(a, b, x, idx, bump, m);
    }
  }

  ghost predicate NoneReplaced(bump: Vec) { forall i :: 0 <= i < |bump| ==> bump[i] == 0.0 }

  /** A pivot is replaced exactly when the matrix is singular. */
  lemma {:induction false} RegularIff(a: Mat, s: Mat, idx: seq<nat>, bump: Vec, m: nat)
    requires HasFactors(a, s, idx, bump, m)
    ensures Regular(a, m) <==> NoneReplaced(bump)
  {
    var c := FirstReplaced(bump, m);
    if c < m {
      ZeroPivotSingular(a, s, bump, idx, m, c);
    } else {
      var z := Zeros(m);
      forall v: Vec | NullOf(a, m, v) ensures v == z {
        NullSolves(a, m, v, bump);
        forall i | 0 <= i < m ensures Dot(a[i], z, m) == 0.0 { DotZero(a[i], z, m); }
        NullSolves(a, m, z, bump);
        SolutionResidual(a, idx, bump, z, v, m);
        SolutionResidual(a, idx, bump, z, z, m);
        ResidualUnique(a, s, idx, bump, z, v, z, m);
      }
    }
  }

  lemma {:induction false} NullSolves(a: Mat, m: nat, v: Vec, bump: Vec)
    requires IsMat(a, m, m) && NullOf(a, m, v) && |bump| == m && NoneReplaced(bump)
    ensures SolvesWithout(a, Zeros(m), v, bump, m)
  {
    EquationsSolve(a, Zeros(m), v, m);
  }

  /** The result solves the equations for this right hand side. */
  ghost predicate RightFor(a: Mat, b: Vec, idx: seq<nat>, bump: Vec, m: nat) {
    forall x: Vec :: Residual(a, b, x, idx, bump, m) ==> Solves(a, x, b)
  }

  /** The solver is right for every right hand side if and only if the matrix is regular. */
  lemma {:induction false} AlwaysRightIff(a: Mat, s: Mat, idx: seq<nat>, bump: Vec, m: nat)
    requires HasFactors(a, s, idx, bump, m)
    ensures Regular(a, m) <==> forall b: Vec :: |b| == m ==> RightFor(a, b, idx, bump, m)
  {
    RegularIff(a, s, idx, bump, m);
    if NoneReplaced(bump) {
      forall b: Vec, x: Vec | Residual(a, b, x, idx, bump, m) ensures Solves(a, x, b) {
        SolvedIff(a, b, x, idx, bump, m);
      }
    } else {
      var c := FirstReplaced(bump, m);
      var b, x := ReplacedFails(a, s, idx, bump, m, c);
      assert !RightFor(a, b, idx, bump, m);
    }
  }

  /** On a regular input no pivot is replaced, so the computed x is the solution. */
  lemma {:induction false} RegularSolved(a: Mat, b: Vec, x: Vec, s: Mat, idx: seq<nat>, bump: Vec, scale: Vec, m: nat)
    requires Decomposed(a, s, idx, bump, scale, m, m) && Residual(a, b, x, idx, bump, m)
    requires Regular(a, m)
    ensures Solves(a, x, b)
  {
    var c := FirstReplaced(bump, m);
    if c < m { ZeroPivotSingular(a, s, bump, idx, m, c); }
    SolvedIff(a, b, x, idx, bump, m);
  }

  method CopyInputs(A: array2<real>, B: array<real>, a: array2<real>, x: array<real>, m: nat, ghost a0: Mat)
    requires A.Length0 == A.Length1 == a.Length0 == a.Length1 == B.Length == x.Length == m
    requires Holds(A, a0) && x != B && A != a
    modifies a, x
    ensures Holds(a, a0) && x[..] == B[..]
  {
    for i := 0 to m
      modifies x
      invariant forall r :: 0 <= r < i ==> x[r] == B[r]
    {
      x[i] := B[i];
    }
    for i := 0 to m
      modifies a
      invariant forall r, c :: 0 <= r < i && 0 <= c < m ==> a[r, c] == a0[r][c]
    {
      for j := 0 to m
        invariant forall r, c :: 0 <= r < i && 0 <= c < m ==> a[r, c] == a0[r][c]
        invariant forall c :: 0 <= c < j ==> a[i, c] == a0[i][c]
      {
        a[i, j] := A[i, j];
      }
    }
  }

  /** The guarantees about the x that both substitutions leave. */
  lemma {:induction false} Substituted(a: Mat, s: Mat, idx: seq<nat>, bump: Vec, scale: Vec, b: Vec, y: Vec, x: Vec,
                                       m: nat)
    requires Decomposed(a, s, idx, bump, scale, m, m) && |b| == m && |y| == m && |x| == m
    requires ForwardTo(s, y, Exchanged(b, idx, m), m, m)
    requires BackSolved(s, x, y, 0, m)
    ensures Residual(a, b, x, idx, bump, m)
    ensures Solves(a, x, b) <==> forall i :: 0 <= i < m && bump[i] != 0.0 ==> x[i] == 0.0
    ensures Solves(a, x, b) <==> exists z: Vec :: SolvesWithout(a, b, z, bump, m)
    ensures Regular(a, m) <==> NoneReplaced(bump)
    ensures Regular(a, m) ==> Solves(a, x, b)
  {
    SubstitutedResidual(a, s, idx, bump, scale, b, y, x, m);
    SolvedIff(a, b, x, idx, bump, m);
    SolvedIffWithout(a, s, idx, bump, b, x, m);
    RegularIff(a, s, idx, bump, m);
    if Regular(a, m) { RegularSolved(a, b, x, s, idx, bump, scale, m); }
  }

  lemma {:induction false} ZeroRowSingular(a: Mat, m: nat)
    ensures Invertible(a, m) ==> Regular(a, m) && forall i :: 0 <= i < m ==> NonzeroRow(a[i])
  {
    if Invertible(a, m) {
      InvertibleRegular(a, m);
      forall i | 0 <= i < m ensures NonzeroRow(a[i]) { InvertibleNoZeroRow(a, m, i); }
    }
  }

  lemma {:induction false} PivotsNonzero(s: Mat, p: Mat, bump: Vec, m: nat)
    requires Factored(s, p, bump, m, m)
    ensures forall i :: 0 <= i < m ==> s[i][i] != 0.0
  {
    forall i | 0 <= i < m ensures s[i][i] != 0.0 { assert Pivot(s, bump, i, m); }
  }

  /** Solves A * x = B without touching A or B; fails exactly on a row of zeros. */
  method AxEqB(A: array2<real>, B: array<real>, x: array<real>, m: nat, ghost a0: Mat)
    returns (ok: bool, ghost s: Mat, ghost idx: seq<nat>, ghost bump: Vec, ghost scale: Vec)
    requires A.Length0 == m && A.Length1 == m && B.Length == m && x.Length == m && x != B
    requires Holds(A, a0)
    modifies x
    ensures ok <==> forall i :: 0 <= i < m ==> NonzeroRow(a0[i])
    ensures ok ==> Decomposed(a0, s, idx, bump, scale, m, m)
    ensures ok ==> Residual(a0, B[..], x[..], idx, bump, m)
    ensures ok ==> (Solves(a0, x[..], B[..]) <==> forall i :: 0 <= i < m && bump[i] != 0.0 ==> x[i] == 0.0)
    ensures ok ==> (Solves(a0, x[..], B[..]) <==> exists z: Vec :: SolvesWithout(a0, B[..], z, bump, m))
    ensures ok ==> (Regular(a0, m) <==> NoneReplaced(bump))
    ensures ok && Regular(a0, m) ==> Solves(a0, x[..], B[..])
    ensures Invertible(a0, m) ==> ok && Regular(a0, m)
  {
    s, idx, bump, scale := a0, [], [], [];
    var a := new real[m, m];
    var work := new real[m];
    var perm := new nat[m];
    CopyInputs(A, B, a, x, m, a0);
    ZeroRowSingular(a0, m);
    ok := ScaleRows(a, work, m, a0);
    if !ok { return; }
    s, bump, scale := Decompose(a, work, perm, m, a0);
    idx := perm[..];
    PivotsNonzero(s, Exchanged(a0, idx, m), bump, m);
    ForwardSubstitute(a, perm, x, m, s);
    ghost var y := x[..];
    BackSubstitute(a, x, m, s);
    Substituted(a0, s, idx, bump, scale, B[..], y, x[..], m);
  }

  /** x + y = 1 and x + y = 2. */
  const CONTRADICTION: Mat := [[1.0, 1.0], [1.0, 1.0]]
  const ONE_AND_TWO: Vec := [1.0, 2.0]

  lemma {:induction false} NoSolution(x: Vec)
    ensures !Solves(CONTRADICTION, x, ONE_AND_TWO)
  {
    if |x| == 2 {
      EquationsSolve(CONTRADICTION, ONE_AND_TWO, x, 2);
      assert Dot(CONTRADICTION[0], x, 2) == Dot(CONTRADICTION[1], x, 2);
    } else {
      assert |CONTRADICTION[0]| != |x|;
    }
  }

  /** A singular system without a zero row on which the solver reports success, and is wrong. */
  method WrongSuccess() returns (ok: bool, x: array<real>)
    ensures ok && !Solves(CONTRADICTION, x[..], ONE_AND_TWO)
  {
    var a := new real[2, 2]((i, j) => 1.0);
    var b := new real[2](i requires 0 <= i < 2 => if i == 0 then 1.0 else 2.0);
    x := new real[2];
    assert b[..] == ONE_AND_TWO && Holds(a, CONTRADICTION);
    assert forall i :: 0 <= i < 2 ==> CONTRADICTION[i][0] != 0.0;
    ghost var s, idx, bump, scale;
    ok, s, idx, bump, scale := AxEqB(a, b, x, 2, CONTRADICTION);
    NoSolution(x[..]);
  }
}

/**
 The reduction of linear inequalities to equations with surplus variables
 (touchscreen_drv/levmar-2.5/lmbleic_core.c, LEVMAR_BLEIC_DER): the extended problem that
 the loops build has exactly the feasible points of the original one.
 */
module Bleic {
  import opened LinearAlgebra
  import opened NormalEquations
  import opened Box
  import LuSolve

  /** Equations A q = b, inequalities C q >= d, bounds on q; realMax stands for a missing
      bound. */
  datatype Constraints = Constraints(a: Mat, b: Vec, c: Mat, d: Vec, lb: Bound, ub: Bound, realMax: real)

  ghost predicate GoodConstraints(k: Constraints, m: nat) {
    && IsMat(k.a, |k.b|, m) && IsMat(k.c, |k.d|, m) && IsBound(k.lb, m) && IsBound(k.ub, m) && k.realMax >= 0.0
  }

  /** The bounds, with the extreme reals in place of missing ones. */
  function LowerAt(k: Constraints, i: nat): (r: real)
    requires k.lb.Some? ==> i < |k.lb.at|
  {
    if k.lb.Some? then k.lb.at[i] else -k.realMax
  }

  function UpperAt(k: Constraints, i: nat): (r: real)
    requires k.ub.Some? ==> i < |k.ub.at|
  {
    if k.ub.Some? then k.ub.at[i] else k.realMax
  }

  ghost predicate WithinBounds(k: Constraints, q: Vec, m: nat)
    requires GoodConstraints(k, m)
  {
    |q| == m && forall i :: 0 <= i < m ==> LowerAt(k, i) <= q[i] <= UpperAt(k, i)
  }

  /** How far each inequality is from being tight. */
  ghost function Surplus(k: Constraints, q: Vec, m: nat): (y: Vec)
    requires GoodConstraints(k, m) && |q| == m
    ensures |y| == |k.d|
  {
    Sub(MatVec(k.c, q), k.d)
  }

  // ----- the extended problem -----

  ghost function MinusUnit(n: nat, i: nat): (u: Vec)
    ensures |u| == n
  {
    seq(n, j => if j == i then -1.0 else 0.0)
  }

  /** Equations get zeros for the surplus variables, inequalities a minus one for their
      own. */
  ghost function ExtendedRow(k: Constraints, m: nat, i: nat): (r: Vec)
    requires GoodConstraints(k, m) && i < |k.b| + |k.d|
    ensures |r| == m + |k.d|
  {
    if i < |k.b| then k.a[i] + Zeros(|k.d|) else k.c[i - |k.b|] + MinusUnit(|k.d|, i - |k.b|)
  }

  ghost function ExtendedMatrix(k: Constraints, m: nat): (a: Mat)
    requires GoodConstraints(k, m)
    ensures IsMat(a, |k.b| + |k.d|, m + |k.d|)
  {
    seq(|k.b| + |k.d|, i requires 0 <= i < |k.b| + |k.d| => ExtendedRow(k, m, i))
  }

  ghost function ExtendedLower(k: Constraints, m: nat): (v: Vec)
    requires GoodConstraints(k, m)
  {
    seq(m, i requires 0 <= i < m => LowerAt(k, i)) + Zeros(|k.d|)
  }

  ghost function ExtendedUpper(k: Constraints, m: nat): (v: Vec)
    requires GoodConstraints(k, m)
  {
    seq(m, i requires 0 <= i < m => UpperAt(k, i)) + seq(|k.d|, _ => k.realMax)
  }

  /** A point that satisfies all extended constraints. */
  ghost predicate ExtendedFeasible(k: Constraints, m: nat, z: Vec)
    requires GoodConstraints(k, m)
  {
    && |z| == m + |k.d| && MatVec(ExtendedMatrix(k, m), z) == k.b + k.d
    && InBox(z, Some(ExtendedLower(k, m)), Some(ExtendedUpper(k, m)))
  }

  // ----- the loops -----

  /** The five arrays of the extended problem. */
  ghost predicate Built(k: Constraints, m: nat, p: Vec, pext: array<real>, lbext: array<real>, ubext: array<real>,
                        aext: array2<real>, bext: array<real>)
    reads pext, lbext, ubext, aext, bext
    requires GoodConstraints(k, m) && |p| == m
  {
    && pext[..] == p + Surplus(k, p, m)
    && lbext[..] == ExtendedLower(k, m) && ubext[..] == ExtendedUpper(k, m)
    && LuSolve.Holds(aext, ExtendedMatrix(k, m)) && bext[..] == k.b + k.d
  }

  /** The surplus variables and their bounds. */
  method BuildSurplus(k: Constraints, m: nat, p: array<real>, pext: array<real>, lbext: array<real>, ubext: array<real>)
    requires GoodConstraints(k, m) && p.Length == m && pext.Length == lbext.Length == ubext.Length == m + |k.d|
    requires p != pext && p != lbext && p != ubext && pext != lbext && pext != ubext && lbext != ubext
    modifies pext, lbext, ubext
    ensures pext[m..] == Surplus(k, p[..], m) && lbext[m..] == Zeros(|k.d|) && ubext[m..] == seq(|k.d|, _ => k.realMax)
  {
    ghost var y := Surplus(k, p[..], m);
    for i := 0 to |k.d|
      invariant forall l :: m <= l < m + i ==> pext[l] == y[l - m] && lbext[l] == 0.0 && ubext[l] == k.realMax
    {
      var tmp := 0.0;
      for j := 0 to m
        invariant tmp == Dot(k.c[i], p[..], j)
      {
        tmp := tmp + k.c[i][j] * p[j];
      }
      var at := i + m;
      pext[at] := tmp - k.d[i];
      lbext[at] := 0.0;
      ubext[at] := k.realMax;
    }
    assert pext[m..] == y;
  }

  /** The original variables and their bounds. */
  method BuildOriginal(k: Constraints, m: nat, p: array<real>, pext: array<real>, lbext: array<real>,
                       ubext: array<real>)
    requires GoodConstraints(k, m) && p.Length == m && pext.Length == lbext.Length == ubext.Length == m + |k.d|
    requires p != pext && p != lbext && p != ubext && pext != lbext && pext != ubext && lbext != ubext
    modifies pext, lbext, ubext
    ensures pext[..m] == p[..] && pext[m..] == old(pext[m..])
    ensures lbext[..m] == seq(m, i requires 0 <= i < m => LowerAt(k, i)) && lbext[m..] == old(lbext[m..])
    ensures ubext[..m] == seq(m, i requires 0 <= i < m => UpperAt(k, i)) && ubext[m..] == old(ubext[m..])
  {
    for i := 0 to m
      invariant forall l :: 0 <= l < i ==> pext[l] == p[l] && lbext[l] == LowerAt(k, l) && ubext[l] == UpperAt(k, l)
      invariant pext[m..] == old(pext[m..]) && lbext[m..] == old(lbext[m..]) && ubext[m..] == old(ubext[m..])
    {
      pext[i] := p[i];
      lbext[i] := if k.lb.Some? then k.lb.at[i] else -k.realMax;
      ubext[i] := if k.ub.Some? then k.ub.at[i] else k.realMax;
    }
  }

  ghost predicate RowsHold(a: array2<real>, s: Mat, n: nat)
    reads a
    requires n <= |s| <= a.Length0 && IsMat(s, |s|, a.Length1)
  {
    forall i, j :: 0 <= i < n && 0 <= j < a.Length1 ==> a[i, j] == s[i][j]
  }

  /** Row i becomes the given row, with zeros for the surplus variables. */
  method FillRow(a: array2<real>, i: nat, row: Vec, m: nat)
    requires i < a.Length0 && |row| == m <= a.Length1
    modifies a
    ensures forall r, c :: 0 <= r < a.Length0 && 0 <= c < a.Length1 ==>
        a[r, c] == if r == i then (if c < m then row[c] else 0.0) else old(a[r, c])
  {
    for j := 0 to m
      invariant forall r, c :: 0 <= r < a.Length0 && 0 <= c < a.Length1 ==>
                  a[r, c] == if r == i && c < j then row[c] else old(a[r, c])
    {
      a[i, j] := row[j];
    }
    for j := m to a.Length1
      invariant forall r, c :: 0 <= r < a.Length0 && 0 <= c < a.Length1 ==>
          a[r, c] == if r == i && c < j then (if c < m then row[c] else 0.0) else old(a[r, c])
    {
      a[i, j] := 0.0;
    }
  }

  method BuildEquations(k: Constraints, m: nat, aext: array2<real>, bext: array<real>)
    requires GoodConstraints(k, m) && aext.Length0 == bext.Length == |k.b| + |k.d| && aext.Length1 == m + |k.d|
    modifies aext, bext
    ensures RowsHold(aext, ExtendedMatrix(k, m), |k.b|) && forall i :: 0 <= i < |k.b| ==> bext[i] == k.b[i]
  {
    ghost var s := ExtendedMatrix(k, m);
    for i := 0 to |k.b|
      invariant RowsHold(aext, s, i) && forall l :: 0 <= l < i ==> bext[l] == k.b[l]
    {
      FillRow(aext, i, k.a[i], m);
      assert s[i] == k.a[i] + Zeros(|k.d|);
      bext[i] := k.b[i];
    }
  }

  method BuildInequality(k: Constraints, m: nat, aext: array2<real>, i: nat)
    requires GoodConstraints(k, m) && aext.Length0 == |k.b| + |k.d| && aext.Length1 == m + |k.d| && i < |k.d|
    requires RowsHold(aext, ExtendedMatrix(k, m), |k.b| + i)
    modifies aext
    ensures RowsHold(aext, ExtendedMatrix(k, m), |k.b| + i + 1)
  {
    var ii := |k.b| + i;
    FillRow(aext, ii, k.c[i], m);
    aext[ii, m + i] := -1.0;
    assert ExtendedMatrix(k, m)[ii] == k.c[i] + MinusUnit(|k.d|, i);
  }

  method BuildInequalities(k: Constraints, m: nat, aext: array2<real>, bext: array<real>)
    requires GoodConstraints(k, m) && aext.Length0 == bext.Length == |k.b| + |k.d| && aext.Length1 == m + |k.d|
    requires RowsHold(aext, ExtendedMatrix(k, m), |k.b|) && forall i :: 0 <= i < |k.b| ==> bext[i] == k.b[i]
    modifies aext, bext
    ensures RowsHold(aext, ExtendedMatrix(k, m), |k.b| + |k.d|) && bext[..] == k.b + k.d
  {
    for i := 0 to |k.d|
      invariant RowsHold(aext, ExtendedMatrix(k, m), |k.b| + i)
                && forall l :: 0 <= l < |k.b| + i ==> bext[l] == (k.b + k.d)[l]
    {
      BuildInequality(k, m, aext, i);
      bext[|k.b| + i] := k.d[i];
    }
    assert bext[..] == k.b + k.d;
  }

  /** All of it. */
  method Build(k: Constraints, m: nat, p: array<real>)
    returns (pext: array<real>, lbext: array<real>, ubext: array<real>, aext: array2<real>, bext: array<real>)
    requires GoodConstraints(k, m) && p.Length == m
    ensures Built(k, m, p[..], pext, lbext, ubext, aext, bext)
  {
    var mm, k12 := m + |k.d|, |k.b| + |k.d|;
    pext, lbext, ubext, aext, bext := new real[mm], new real[mm], new real[mm], new real[k12, mm], new real[k12];
    BuildSurplus(k, m, p, pext, lbext, ubext);
    BuildOriginal(k, m, p, pext, lbext, ubext);
    BuildEquations(k, m, aext, bext);
    BuildInequalities(k, m, aext, bext);
    assert pext[..] == pext[..m] + pext[m..] && lbext[..] == lbext[..m] + lbext[m..]
           && ubext[..] == ubext[..m] + ubext[m..];
  }

  // ----- the feasible points -----

  lemma {:induction false} DotConcat(u: Vec, v: Vec, x: Vec, y: Vec, n: nat)
    requires |u| == |x| && |v| == |y| && n <= |v|
    ensures Dot(u + v, x + y, |u| + n) == Dot(u, x, |u|) + Dot(v, y, n)
  {
    if n > 0 {
      DotConcat(u, v, x, y, n - 1);
    } else {
      DotEq(u + v, x + y, u, x, |u|);
    }
  }

  lemma {:induction false} MinusUnitDot(y: Vec, i: nat)
    requires i < |y|
    ensures Dot(MinusUnit(|y|, i), y, |y|) == -y[i]
  {
    var e := seq(|y|, j => if i == j then 1.0 else 0.0);
    DotScale(-1.0, e, MinusUnit(|y|, i), y, |y|);
    DotUnit(y, i, |y|);
  }

  lemma {:induction false} EquationRow(k: Constraints, m: nat, q: Vec, y: Vec, i: nat)
    requires GoodConstraints(k, m) && |q| == m && |y| == |k.d| && i < |k.b|
    ensures MatVec(ExtendedMatrix(k, m), q + y)[i] == Dot(k.a[i], q, m)
  {
    assert ExtendedMatrix(k, m)[i] == k.a[i] + Zeros(|k.d|);
    DotConcat(k.a[i], Zeros(|k.d|), q, y, |y|);
    DotZero(Zeros(|k.d|), y, |y|);
  }

  lemma {:induction false} InequalityRow(k: Constraints, m: nat, q: Vec, y: Vec, i: nat)
    requires GoodConstraints(k, m) && |q| == m && |y| == |k.d| && i < |k.d|
    ensures MatVec(ExtendedMatrix(k, m), q + y)[|k.b| + i] == Dot(k.c[i], q, m) - y[i]
  {
    assert ExtendedMatrix(k, m)[|k.b| + i] == k.c[i] + MinusUnit(|k.d|, i);
    DotConcat(k.c[i], MinusUnit(|k.d|, i), q, y, |y|);
    MinusUnitDot(y, i);
  }

  /** The extended equations say A q = b and y = C q - d. */
  lemma {:induction false} EquationsIff(k: Constraints, m: nat, q: Vec, y: Vec)
    requires GoodConstraints(k, m) && |q| == m && |y| == |k.d|
    ensures MatVec(ExtendedMatrix(k, m), q + y) == k.b + k.d <==> MatVec(k.a, q) == k.b && y == Surplus(k, q, m)
  {
    ExtendedRows(k, m, q, y);
    EquationsMean(MatVec(ExtendedMatrix(k, m), q + y), k.b, k.d, MatVec(k.a, q), MatVec(k.c, q), y);
  }

  lemma {:induction false} ExtendedRows(k: Constraints, m: nat, q: Vec, y: Vec)
    requires GoodConstraints(k, m) && |q| == m && |y| == |k.d|
    ensures var v := MatVec(ExtendedMatrix(k, m), q + y);
            && |v| == |k.b| + |k.d| && (forall i :: 0 <= i < |k.b| ==> v[i] == MatVec(k.a, q)[i])
            && forall i :: 0 <= i < |k.d| ==> v[|k.b| + i] == MatVec(k.c, q)[i] - y[i]
  {
    var v := MatVec(ExtendedMatrix(k, m), q + y);
    forall i | 0 <= i < |k.b| ensures v[i] == MatVec(k.a, q)[i] { EquationRow(k, m, q, y, i); }
    forall i | 0 <= i < |k.d| ensures v[|k.b| + i] == MatVec(k.c, q)[i] - y[i] { InequalityRow(k, m, q, y, i); }
  }

  lemma {:induction false} EquationsMean(v: Vec, b: Vec, d: Vec, aq: Vec, cq: Vec, y: Vec)
    requires |v| == |b| + |d| && |aq| == |b| && |cq| == |d| == |y|
    requires forall i :: 0 <= i < |b| ==> v[i] == aq[i]
    requires forall i :: 0 <= i < |d| ==> v[|b| + i] == cq[i] - y[i]
    ensures v == b + d <==> aq == b && y == Sub(cq, d)
  {
    if v == b + d {
      forall i | 0 <= i < |b| ensures aq[i] == b[i] { assert v[i] == (b + d)[i]; }
      forall i | 0 <= i < |d| ensures y[i] == Sub(cq, d)[i] { assert v[|b| + i] == (b + d)[|b| + i]; }
    }
    if aq == b && y == Sub(cq, d) {
      forall i | 0 <= i < |v| ensures v[i] == (b + d)[i] {
        if i >= |b| { assert v[|b| + (i - |b|)] == cq[i - |b|] - y[i - |b|]; }
      }
    }
  }

  /** A joined vector lies in a joined box exactly when both parts lie in theirs. */
  lemma {:induction false} JoinedBox(lo1: Vec, lo2: Vec, hi1: Vec, hi2: Vec, q: Vec, y: Vec)
    requires |lo1| == |hi1| == |q| && |lo2| == |hi2| == |y|
    ensures (forall i :: 0 <= i < |q| + |y| ==> (lo1 + lo2)[i] <= (q + y)[i] <= (hi1 + hi2)[i])
       <==> (forall i :: 0 <= i < |q| ==> lo1[i] <= q[i] <= hi1[i])
            && (forall i :: 0 <= i < |y| ==> lo2[i] <= y[i] <= hi2[i])
  {
    var m := |q|;
    if forall i :: 0 <= i < m + |y| ==> (lo1 + lo2)[i] <= (q + y)[i] <= (hi1 + hi2)[i] {
      forall i | 0 <= i < m ensures lo1[i] <= q[i] <= hi1[i] { assert (lo1 + lo2)[i] <= (q + y)[i] <= (hi1 + hi2)[i]; }
      forall i | 0 <= i < |y|
        ensures lo2[i] <= y[i] <= hi2[i]
      {
        assert (lo1 + lo2)[m + i] <= (q + y)[m + i] <= (hi1 + hi2)[m + i];
      }
    }
  }

  lemma {:induction false} BoundsIff(k: Constraints, m: nat, q: Vec, y: Vec)
    requires GoodConstraints(k, m) && |q| == m && |y| == |k.d|
    ensures InBox(q + y, Some(ExtendedLower(k, m)), Some(ExtendedUpper(k, m)))
            <==> WithinBounds(k, q, m) && forall i :: 0 <= i < |y| ==> 0.0 <= y[i] <= k.realMax
  {
    var lo, hi := seq(m, i requires 0 <= i < m => LowerAt(k, i)), seq(m, i requires 0 <= i < m => UpperAt(k, i));
    JoinedBox(lo, Zeros(|k.d|), hi, seq(|k.d|, _ => k.realMax), q, y);
  }

  /** A point of the original problem: the equations, the inequalities and the bounds hold,
      and no inequality is slack by more than the largest real. */
  ghost predicate Feasible(k: Constraints, m: nat, q: Vec)
    requires GoodConstraints(k, m)
  {
    && |q| == m && MatVec(k.a, q) == k.b && WithinBounds(k, q, m)
    && forall i :: 0 <= i < |k.d| ==> k.d[i] <= MatVec(k.c, q)[i] <= k.d[i] + k.realMax
  }

  /** The transformation preserves meaning: (q, y) is feasible for the extended problem
      exactly when q is for the original one and y is its surplus. */
  lemma {:induction false} ExtendedIff(k: Constraints, m: nat, q: Vec, y: Vec)
    requires GoodConstraints(k, m) && |q| == m && |y| == |k.d|
    ensures ExtendedFeasible(k, m, q + y) <==> Feasible(k, m, q) && y == Surplus(k, q, m)
  {
    EquationsIff(k, m, q, y);
    BoundsIff(k, m, q, y);
    if y == Surplus(k, q, m) {
      forall i | 0 <= i < |y| ensures y[i] == MatVec(k.c, q)[i] - k.d[i] { }
      SlackIff(MatVec(k.c, q), k.d, y, k.realMax);
    }
  }

  lemma {:induction false} SlackIff(v: Vec, d: Vec, y: Vec, top: real)
    requires |v| == |d| == |y| && forall i :: 0 <= i < |y| ==> y[i] == v[i] - d[i]
    ensures (forall i :: 0 <= i < |y| ==> 0.0 <= y[i] <= top)
            <==> (forall i :: 0 <= i < |d| ==> d[i] <= v[i] <= d[i] + top)
  {
  }

  /** Dropping the surplus variables gives exactly the original feasible points. */
  lemma {:induction false} ProjectionIff(k: Constraints, m: nat, q: Vec)
    requires GoodConstraints(k, m) && |q| == m
    ensures Feasible(k, m, q) <==> exists y: Vec :: |y| == |k.d| && ExtendedFeasible(k, m, q + y)
  {
    if Feasible(k, m, q) {
      var y := Surplus(k, q, m);
      ExtendedIff(k, m, q, y);
      assert |y| == |k.d| && ExtendedFeasible(k, m, q + y);
    }
    if exists y: Vec :: |y| == |k.d| && ExtendedFeasible(k, m, q + y) {
      var y: Vec :| |y| == |k.d| && ExtendedFeasible(k, m, q + y);
      ExtendedIff(k, m, q, y);
    }
  }

  /** The initial point satisfies the equations of the surplus variables whatever p is, and
      is feasible exactly when p is. */
  lemma {:induction false} InitialPoint(k: Constraints, m: nat, p: Vec)
    requires GoodConstraints(k, m) && |p| == m
    ensures var z := p + Surplus(k, p, m);
      && (forall i :: 0 <= i < |k.d| ==> MatVec(ExtendedMatrix(k, m), z)[|k.b| + i] == k.d[i])
      && (ExtendedFeasible(k, m, z) <==> Feasible(k, m, p))
  {
    var y := Surplus(k, p, m);
    forall i | 0 <= i < |k.d| ensures MatVec(ExtendedMatrix(k, m), p + y)[|k.b| + i] == k.d[i] {
      InequalityRow(k, m, p, y, i);
      assert y[i] == MatVec(k.c, p)[i] - k.d[i];
    }
    ExtendedIff(k, m, p, y);
  }

  // ----- the wrapped Jacobian -----

  /** The Jacobian of the wrapped function: zeros for the surplus variables. */
  ghost function ExtendedJacobian(jac: Mat, m: nat, k2: nat): (r: Mat)
    requires IsMat(jac, |jac|, m)
    ensures IsMat(r, |jac|, m + k2)
  {
    seq(|jac|, i requires 0 <= i < |jac| => WithZeros(jac[i], k2))
  }

  ghost function WithZeros(row: Vec, k2: nat): (r: Vec)
    ensures |r| == |row| + k2
  {
    row + Zeros(k2)
  }

  method ExtendJacobian(jac: Mat, m: nat, k2: nat, jacext: array2<real>)
    requires IsMat(jac, jacext.Length0, m) && jacext.Length1 == m + k2
    modifies jacext
    ensures LuSolve.Holds(jacext, ExtendedJacobian(jac, m, k2))
  {
    ghost var s := ExtendedJacobian(jac, m, k2);
    for i := 0 to jacext.Length0
      invariant RowsHold(jacext, s, i)
    {
      FillRow(jacext, i, jac[i], m);
      assert s[i] == jac[i] + Zeros(k2);
    }
  }

  /** Surplus variables do not change the linear model. */
  lemma {:induction false} ExtendedDirections(jac: Mat, m: nat, v: Vec, y: Vec)
    requires IsMat(jac, |jac|, m) && |v| == m
    ensures MatVec(ExtendedJacobian(jac, m, |y|), v + y) == MatVec(jac, v)
  {
    forall i | 0 <= i < |jac| ensures MatVec(ExtendedJacobian(jac, m, |y|), v + y)[i] == MatVec(jac, v)[i] {
      DotConcat(jac[i], Zeros(|y|), v, y, |y|);
      DotZero(Zeros(|y|), y, |y|);
    }
  }
}

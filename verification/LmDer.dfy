/**
 The Levenberg-Marquardt iteration with an analytic Jacobian
 (touchscreen_drv/levmar-2.5/lm_core.c, LEVMAR_DER), in exact arithmetic and with the LU
 solver that the build uses.
 */
module LmDer {
  import opened LinearAlgebra
  import opened NormalEquations
  import BlockedProduct
  import LuSolve

  const LM_ERROR := -1
  const ONE_THIRD := 1.0 / 3.0

  /** The minimisation options; `lowest` is the lowest real of the machine, `epsilon` its
      resolution. */
  datatype Options = Options(tau: real, eps1: real, eps2: real, eps3: real, lowest: real, epsilon: real)

  ghost predicate GoodOptions(o: Options) {
    o.tau > 0.0 && o.eps1 >= 0.0 && o.lowest < 0.0 && o.epsilon > 0.0
  }

  /** The problem: a function with its Jacobian, m parameters, n measurements x, and which
      sums of squares count as finite. */
  datatype Problem = Problem(func: Vec -> Vec, jacf: Vec -> Mat, finite: real -> bool, x: Vec, m: nat, n: nat)

  ghost predicate GoodProblem(pb: Problem) {
    && |pb.x| == pb.n
    && (forall v: Vec :: |v| == pb.m ==> |pb.func(v)| == pb.n)
    && (forall v: Vec :: |v| == pb.m ==> IsMat(pb.jacf(v), pb.n, pb.m))
  }

  /** The residual at v, and its squared norm. */
  ghost function Residual(pb: Problem, v: Vec): (e: Vec)
    requires GoodProblem(pb) && |v| == pb.m
    ensures |e| == pb.n
  {
    Sub(pb.x, pb.func(v))
  }

  ghost function Cost(pb: Problem, v: Vec): (c: real)
    requires GoodProblem(pb) && |v| == pb.m
  {
    Norm2(Residual(pb, v))
  }

  /** Doubling a 32-bit integer, with wrap-around. */
  function Double32(nu: int): (r: int) {
    if nu * 2 >= 0x8000_0000 then nu * 2 - 0x1_0000_0000 else nu * 2
  }

  function Pow2(k: nat): (r: int)
    ensures r >= 1
  {
    if k == 0 then 1 else 2 * Pow2(k - 1)
  }

  lemma {:induction false} Pow2At30()
    ensures Pow2(30) == 0x4000_0000
  {
    assert Pow2(10) == 1024;
    assert Pow2(15) == 32 * Pow2(10);
    assert Pow2(20) == 32 * Pow2(15);
    assert Pow2(25) == 32 * Pow2(20);
    assert Pow2(30) == 32 * Pow2(25);
  }

  lemma {:induction false} Pow2Monotone(j: nat, k: nat)
    requires j <= k
    ensures Pow2(j) <= Pow2(k)
  {
    if j < k { Pow2Monotone(j, k - 1); }
  }

  /** The factor nu, doubled after each rejection, wraps at the thirtieth. */
  lemma {:induction false} WrapsAt30(solves: nat)
    requires solves < 30
    ensures Double32(Pow2(solves + 1)) <= Pow2(solves + 1) <==> solves == 29
    ensures solves < 29 ==> Double32(Pow2(solves + 1)) == Pow2(solves + 2)
  {
    Pow2At30();
    Pow2Monotone(solves + 1, 30);
    if solves < 29 { Pow2Monotone(solves + 2, 30); }
  }

  // ----- loops over the work arrays -----

  /** e becomes x - y, where e may be y itself; the squared norm is returned. */
  method L2Nrmxmy(e: array<real>, x: Vec, y: array<real>) returns (r: real)
    requires e.Length == |x| == y.Length
    modifies e
    ensures e[..] == Sub(x, old(y[..])) && r == Norm2(e[..])
  {
    ghost var was := y[..];
    r := 0.0;
    for i := 0 to e.Length
      invariant forall k :: 0 <= k < i ==> e[k] == x[k] - was[k]
      invariant forall k :: i <= k < y.Length ==> y[k] == was[k]
      invariant r == Dot(Sub(x, was), Sub(x, was), i)
    {
      var t := x[i] - y[i];
      e[i] := t;
      r := r + t * t;
    }
    assert e[..] == Sub(x, was);
  }

  method Copy(a: array<real>, v: Vec)
    requires a.Length == |v|
    modifies a
    ensures a[..] == v
  {
    forall i | 0 <= i < a.Length { a[i] := v[i]; }
  }

  method CopyArray(a: array<real>, b: array<real>)
    requires a.Length == b.Length && a != b
    modifies a
    ensures a[..] == b[..]
  {
    for i := 0 to a.Length
      invariant forall k :: 0 <= k < i ==> a[k] == b[k]
    {
      a[i] := b[i];
    }
  }

  /** Adds row l to row i of the lower triangle. */
  method AddRow(a: array2<real>, jac: Mat, m: nat, l: nat, i: nat)
    requires IsMat(jac, |jac|, m) && l < |jac| && i < m && a.Length0 == a.Length1 == m
    modifies a
    ensures forall r, c :: 0 <= r < m && 0 <= c < m ==>
        a[r, c] == old(a[r, c]) + if r == i && c <= i then jac[l][c] * jac[l][i] else 0.0
  {
    var alpha := jac[l][i];
    var k := i + 1;
    while k > 0
      invariant 0 <= k <= i + 1
      invariant forall r, c :: 0 <= r < m && 0 <= c < m ==>
          a[r, c] == old(a[r, c]) + if r == i && k <= c <= i then jac[l][c] * jac[l][i] else 0.0
    {
      k := k - 1;
      a[i, k] := a[i, k] + jac[l][k] * alpha;
    }
  }

  /** The rows from i on have received row l of the Jacobian. */
  ghost predicate RowsDone(a: array2<real>, j: Mat, m: nat, l: nat, i: nat)
    reads a
    requires IsMat(j, |j|, m) && l < |j|
  {
    && a.Length0 == m && a.Length1 == m
    && forall r, c :: 0 <= c <= r < m ==>
         a[r, c] == Partial(j, r, c, |j|) - Partial(j, r, c, if r >= i then l else l + 1)
  }

  method AddNextRow(a: array2<real>, jac: Mat, m: nat, l: nat, i: nat)
    requires IsMat(jac, |jac|, m) && l < |jac| && i < m && RowsDone(a, jac, m, l, i + 1)
    modifies a
    ensures RowsDone(a, jac, m, l, i)
  {
    forall c | 0 <= c <= i ensures Partial(jac, i, c, l + 1) == Partial(jac, i, c, l) + jac[l][c] * jac[l][i] {
      PartialStep(jac, i, c, l);
    }
    AddRow(a, jac, m, l, i);
  }

  ghost predicate GradientFrom(g: seq<real>, j: Mat, e: Vec, m: nat, l: nat, i: nat)
    requires IsMat(j, |e|, m) && l < |e|
  {
    |g| == m && forall k :: 0 <= k < m ==> g[k] == DotCol(e, j, k, |e|) - DotCol(e, j, k, if k >= i then l else l + 1)
  }

  /** Adds row l to the lower triangle and to the gradient. */
  method AddOuter(a: array2<real>, g: array<real>, jac: Mat, e: array<real>, m: nat, l: nat)
    requires e.Length == |jac| && IsMat(jac, |jac|, m) && l < |jac| && g.Length == m && g != e
    requires RowsDone(a, jac, m, l, m) && GradientFrom(g[..], jac, e[..], m, l, m)
    modifies a, g
    ensures RowsDone(a, jac, m, l, 0) && GradientFrom(g[..], jac, e[..], m, l, 0)
  {
    var i := m;
    while i > 0
      invariant 0 <= i <= m && RowsDone(a, jac, m, l, i) && GradientFrom(g[..], jac, e[..], m, l, i)
    {
      i := i - 1;
      AddNextRow(a, jac, m, l, i);
      g[i] := g[i] + jac[l][i] * e[l];
    }
  }

  /** The lower triangle and the gradient hold the sums over the rows from l on. */
  ghost predicate SumsFrom(a: array2<real>, g: array<real>, j: Mat, e: Vec, m: nat, l: nat)
    reads a, g
    requires IsMat(j, |e|, m) && l <= |e|
  {
    && a.Length0 == m && a.Length1 == m && g.Length == m
    && (forall r, c :: 0 <= c <= r < m ==> a[r, c] == Partial(j, r, c, |j|) - Partial(j, r, c, l))
    && forall k :: 0 <= k < m ==> g[k] == DotCol(e, j, k, |e|) - DotCol(e, j, k, l)
  }

  /** J^T J and J^T e, in blocks for a large problem. */
  method NormalMatrix(a: array2<real>, g: array<real>, jac: Mat, e: array<real>, m: nat)
    requires e.Length == |jac| && IsMat(jac, |jac|, m) && g.Length == m && g != e && a.Length0 == a.Length1 == m
    modifies a, g
    ensures LuSolve.Holds(a, Gram(jac, m)) && g[..] == Gradient(jac, m, e[..])
  {
    if |jac| * m < BlockedProduct.BLOCK * BlockedProduct.BLOCK {
      SmallNormalMatrix(a, g, jac, e, m);
    } else {
      BlockedProduct.TransMatMatMult(a, jac, m);
      BlockedProduct.TransMatVec(g, jac, e, m);
    }
  }

  /** J^T J by its lower triangle, mirrored, and J^T e; all loops run downwards. */
  method SmallNormalMatrix(a: array2<real>, g: array<real>, jac: Mat, e: array<real>, m: nat)
    requires e.Length == |jac| && IsMat(jac, |jac|, m) && g.Length == m && g != e && a.Length0 == a.Length1 == m
    modifies a, g
    ensures LuSolve.Holds(a, Gram(jac, m)) && g[..] == Gradient(jac, m, e[..])
  {
    Clear(a, g, m);
    var l := |jac|;
    while l > 0
      invariant 0 <= l <= |jac| && SumsFrom(a, g, jac, e[..], m, l)
    {
      l := l - 1;
      AddOuter(a, g, jac, e, m, l);
    }
    Mirror(a, m, jac);
    assert forall k :: 0 <= k < m ==> g[k] == Gradient(jac, m, e[..])[k];
  }

  method Clear(a: array2<real>, g: array<real>, m: nat)
    requires g.Length == m && a.Length0 == a.Length1 == m
    modifies a, g
    ensures forall r, c :: 0 <= r < m && 0 <= c < m ==> a[r, c] == 0.0
    ensures forall k :: 0 <= k < m ==> g[k] == 0.0
  {
    forall r, c | 0 <= r < m && 0 <= c < m { a[r, c] := 0.0; }
    forall k | 0 <= k < m { g[k] := 0.0; }
  }

  /** Copies the lower triangle to the upper one. */
  method Mirror(a: array2<real>, m: nat, ghost jac: Mat)
    requires a.Length0 == a.Length1 == m && IsMat(jac, |jac|, m)
    requires forall r, c :: 0 <= c <= r < m ==> a[r, c] == Gram(jac, m)[r][c]
    modifies a
    ensures LuSolve.Holds(a, Gram(jac, m))
  {
    forall r, c | 0 <= r < c < m ensures Gram(jac, m)[r][c] == Gram(jac, m)[c][r] { GramSymmetric(jac, m, r, c); }
    var i := m;
    while i > 0
      invariant 0 <= i <= m
      invariant forall r, c :: 0 <= r < m && 0 <= c < m && (c <= r || r >= i) ==> a[r, c] == Gram(jac, m)[r][c]
    {
      i := i - 1;
      for j := i + 1 to m
        invariant forall r, c :: 0 <= r < m && 0 <= c < m && (c <= r || r > i || (r == i && c < j)) ==>
                    a[r, c] == Gram(jac, m)[r][c]
      {
        a[i, j] := a[j, i];
      }
    }
  }

  ghost function Diagonal(a: Mat, m: nat): (d: Vec)
    requires IsMat(a, m, m)
    ensures |d| == m
  {
    seq(m, i requires 0 <= i < m => a[i][i])
  }

  /** The largest absolute value among the first n entries. */
  function MaxAbs(v: Vec, n: nat): (r: real)
    requires n <= |v|
    ensures r >= 0.0
  {
    if n == 0 then 0.0 else if MaxAbs(v, n - 1) < Abs(v[n - 1]) then Abs(v[n - 1]) else MaxAbs(v, n - 1)
  }

  lemma {:induction false} MaxAbsZero(v: Vec, n: nat)
    requires n <= |v| && MaxAbs(v, n) > 0.0
    ensures exists i :: 0 <= i < n && v[i] != 0.0
  {
    if v[n - 1] == 0.0 { MaxAbsZero(v, n - 1); }
  }

  method Norms(g: array<real>, a: array2<real>, diag: array<real>, p: array<real>, m: nat, ghost a0: Mat)
    returns (inf: real, pL2: real)
    requires g.Length == diag.Length == p.Length == m && diag != g && diag != p && a.Length0 == a.Length1 == m
             && LuSolve.Holds(a, a0) && IsMat(a0, m, m)
    modifies diag
    ensures inf == MaxAbs(g[..], m) && pL2 == Norm2(p[..]) && diag[..] == Diagonal(a0, m)
  {
    inf, pL2 := 0.0, 0.0;
    for i := 0 to m
      invariant inf == MaxAbs(g[..], i) && pL2 == Dot(p[..], p[..], i)
      invariant forall k :: 0 <= k < i ==> diag[k] == a0[k][k]
    {
      var t := Abs(g[i]);
      if inf < t { inf := t; }
      diag[i] := a[i, i];
      pL2 := pL2 + p[i] * p[i];
    }
    assert diag[..] == Diagonal(a0, m);
  }

  /** The largest of these values, and of the least number there is. */
  ghost predicate IsMax(d: Vec, lowest: real, t: real) {
    t >= lowest && (forall k :: 0 <= k < |d| ==> d[k] <= t) && (t == lowest || t in d)
  }

  method MaxDiagonal(diag: array<real>, lowest: real, m: nat) returns (t: real)
    requires diag.Length == m
    ensures forall k :: 0 <= k < m ==> diag[k] <= t
    ensures IsMax(diag[..], lowest, t)
  {
    t := lowest;
    for i := 0 to m
      invariant t >= lowest && (forall k :: 0 <= k < i ==> diag[k] <= t) && (t == lowest || t in diag[..])
    {
      if diag[i] > t { t := diag[i]; }
    }
  }

  /** The first damping is positive, because the gradient does not vanish. */
  lemma {:induction false} FirstDamping(jac: Mat, m: nat, e: Vec, t: real, o: Options)
    requires IsMat(jac, |e|, m) && GoodOptions(o) && MaxAbs(Gradient(jac, m, e), m) > o.eps1
    requires forall k :: 0 <= k < m ==> Diagonal(Gram(jac, m), m)[k] <= t
    ensures o.tau * t > 0.0
  {
    MaxAbsZero(Gradient(jac, m, e), m);
    var i :| 0 <= i < m && Gradient(jac, m, e)[i] != 0.0;
    GradientDiagonal(jac, m, e, i);
    assert Diagonal(Gram(jac, m), m)[i] > 0.0;
    ProdPositive(o.tau, t);
    assert o.tau * t == Prod(o.tau, t);
  }

  // ----- one attempt -----

  /** The increment is small relative to the parameters. */
  predicate SmallStep(dpL2: real, pL2: real, eps2: real) { dpL2 <= eps2 * eps2 * pL2 }

  /** The increment is so large that the matrix must have been almost singular. */
  predicate AlmostSingular(dpL2: real, pL2: real, o: Options)
    requires o.epsilon > 0.0
  {
    SquarePositive(o.epsilon);
    dpL2 >= (pL2 + o.eps2) / (o.epsilon * o.epsilon)
  }

  lemma {:induction false} AlmostSingularIff(dpL2: real, pL2: real, o: Options)
    requires o.epsilon > 0.0
    ensures AlmostSingular(dpL2, pL2, o) <==> o.epsilon * o.epsilon * dpL2 >= pL2 + o.eps2
  {
    SquarePositive(o.epsilon);
    QuotientIff(dpL2, pL2 + o.eps2, o.epsilon * o.epsilon);
  }

  lemma {:induction false} QuotientIff(x: real, a: real, d: real)
    requires d > 0.0
    ensures x >= a / d <==> d * x >= a
  {
    var q := a / d;
    assert q * d == a;
    assert d * (x - q) == d * x - a;
    if x >= q { NonNegativeProduct(d, x - q); } else { ProdPositive(d, q - x); assert Prod(d, q - x) == a - d * x; }
  }

  /** The increment is short relative to the parameters v, or so long that the matrix must
      have been almost singular. */
  ghost predicate TooShort(o: Options, v: Vec, d: Vec) { Norm2(d) <= o.eps2 * o.eps2 * Norm2(v) }

  ghost predicate TooLong(o: Options, v: Vec, d: Vec) { o.epsilon * o.epsilon * Norm2(d) >= Norm2(v) + o.eps2 }

  lemma {:induction false} StepTests(o: Options, v: Vec, d: Vec, dpL2: real, pL2: real)
    requires o.epsilon > 0.0 && dpL2 == Norm2(d) && pL2 == Norm2(v)
    ensures SmallStep(dpL2, pL2, o.eps2) <==> TooShort(o, v, d)
    ensures AlmostSingular(dpL2, pL2, o) <==> TooLong(o, v, d)
  {
    AlmostSingularIff(dpL2, pL2, o);
  }

  /** The increment d from v gives the reason for the stop; the tests come in this order. */
  ghost predicate TrialStops(pb: Problem, o: Options, v: Vec, d: Vec, stop: int)
    requires GoodProblem(pb) && |v| == |d| == pb.m
  {
    || (stop == 2 && TooShort(o, v, d))
    || (stop == 4 && !TooShort(o, v, d) && TooLong(o, v, d))
    || (stop == 7 && !TooShort(o, v, d) && !TooLong(o, v, d) && !pb.finite(Cost(pb, Add(v, d))))
  }

  /** None of the tests stops the iteration. */
  ghost predicate TrialGoesOn(pb: Problem, o: Options, v: Vec, d: Vec)
    requires GoodProblem(pb) && |v| == |d| == pb.m
  {
    !TooShort(o, v, d) && !TooLong(o, v, d) && pb.finite(Cost(pb, Add(v, d)))
  }

  datatype Outcome = Accepted(mu: real, cost: real) | Rejected(mu: real, nu: int) | Stopped(stop: int)

  class Work {
    const m: nat
    const n: nat
    const p: array<real>
    const e: array<real>
    const hx: array<real>
    const g: array<real>        // jacTe
    const dp: array<real>
    const pdp: array<real>
    const diag: array<real>
    const a: array2<real>       // jacTjac

    ghost predicate Shape() {
      && p.Length == g.Length == dp.Length == pdp.Length == diag.Length == m && e.Length == hx.Length == n
      && a.Length0 == a.Length1 == m
      && p != e && p != hx && p != g && p != dp && p != pdp && p != diag
      && e != hx && e != g && e != dp && e != pdp && e != diag
      && hx != g && hx != dp && hx != pdp && hx != diag
      && g != dp && g != pdp && g != diag && dp != pdp && dp != diag && pdp != diag
    }

    constructor (m: nat, n: nat, p: array<real>)
      requires p.Length == m
      ensures Shape() && this.m == m && this.n == n && this.p == p
      ensures fresh(e) && fresh(hx) && fresh(g) && fresh(dp) && fresh(pdp) && fresh(diag) && fresh(a)
    {
      this.m, this.n, this.p := m, n, p;
      e, hx := new real[n](_ => 0.0), new real[n](_ => 0.0);
      g, dp, pdp, diag := new real[m](_ => 0.0), new real[m](_ => 0.0), new real[m](_ => 0.0), new real[m](_ => 0.0);
      a := new real[m, m]((_, _) => 0.0);
    }

    /** The normal equations at the current parameters are in place. */
    ghost predicate Normal(jac: Mat)
      reads a, g, e, diag
      requires Shape() && IsMat(jac, n, m)
    {
      && LuSolve.Holds(a, Gram(jac, m)) && g[..] == Gradient(jac, m, e[..])
      && diag[..] == Diagonal(Gram(jac, m), m)
    }

    method Augment(mu: real, ghost jac: Mat)
      requires Shape() && IsMat(jac, n, m) && LuSolve.Holds(a, Gram(jac, m))
      modifies a
      ensures LuSolve.Holds(a, Damped(jac, m, mu))
    {
      for i := 0 to m
        invariant forall r, c :: 0 <= r < m && 0 <= c < m ==>
                    a[r, c] == Gram(jac, m)[r][c] + if r == c && r < i then mu else 0.0
      {
        a[i, i] := a[i, i] + mu;
      }
    }

    method Restore(ghost mu: real, ghost jac: Mat)
      requires Shape() && IsMat(jac, n, m) && LuSolve.Holds(a, Damped(jac, m, mu))
               && diag[..] == Diagonal(Gram(jac, m), m)
      modifies a
      ensures LuSolve.Holds(a, Gram(jac, m))
    {
      for i := 0 to m
        invariant forall r, c :: 0 <= r < m && 0 <= c < m ==>
                    a[r, c] == Gram(jac, m)[r][c] + if r == c && r >= i then mu else 0.0
      {
        assert diag[..][i] == Gram(jac, m)[i][i];
        a[i, i] := diag[i];
      }
    }

    /** Solves the augmented equations; with positive damping this cannot fail. */
    method Solve(mu: real, ghost jac: Mat) returns (issolved: bool)
      requires Shape() && IsMat(jac, n, m) && LuSolve.Holds(a, Gram(jac, m))
      modifies a, dp
      ensures LuSolve.Holds(a, Damped(jac, m, mu))
      ensures mu > 0.0 ==> issolved && Solves(Damped(jac, m, mu), dp[..], g[..])
    {
      Augment(mu, jac);
      if mu > 0.0 {
        DampedRegular(jac, m, mu);
        DampedRows(jac, m, mu);
      }
      ghost var s, idx, bump, scale;
      issolved, s, idx, bump, scale := LuSolve.AxEqB(a, g, dp, m, Damped(jac, m, mu));
    }

    method Increment() returns (dpL2: real)
      requires Shape()
      modifies pdp
      ensures pdp[..] == Add(p[..], dp[..]) && dpL2 == Norm2(dp[..])
    {
      dpL2 := 0.0;
      for i := 0 to m
        invariant forall k :: 0 <= k < i ==> pdp[k] == p[k] + dp[k]
        invariant dpL2 == Dot(dp[..], dp[..], i)
      {
        var t := dp[i];
        pdp[i] := p[i] + t;
        dpL2 := dpL2 + t * t;
      }
      assert pdp[..] == Add(p[..], dp[..]);
    }

    /** The residual and the cost at p + Dp. */
    method Evaluate(pb: Problem) returns (cost: real)
      requires Shape() && GoodProblem(pb) && pb.m == m && pb.n == n
      modifies hx
      ensures hx[..] == Residual(pb, pdp[..]) && cost == Cost(pb, pdp[..])
    {
      Copy(hx, pb.func(pdp[..]));
      cost := L2Nrmxmy(hx, pb.x, hx);
    }

    method PredictedGain(mu: real) returns (dL: real)
      requires Shape()
      ensures dL == Gain(dp[..], mu, g[..])
    {
      dL := 0.0;
      for i := 0 to m
        invariant dL == Dot(dp[..], Weighted(dp[..], mu, g[..]), i)
      {
        dL := dL + dp[i] * (mu * dp[i] + g[i]);
      }
    }

    method Accept()
      requires Shape()
      modifies p, e
      ensures p[..] == pdp[..] && e[..] == hx[..]
    {
      CopyArray(p, pdp);
      CopyArray(e, hx);
    }

    /** The residual and the cost belong to the current parameters. */
    ghost predicate Current(pb: Problem, cost: real)
      reads p, e
      requires Shape() && GoodProblem(pb) && pb.m == m && pb.n == n
    {
      e[..] == Residual(pb, p[..]) && cost == Cost(pb, p[..])
    }

    /** With positive damping the increment is the exact solution of the augmented normal
        equations. */
    ghost predicate ExactStep(jac: Mat, mu: real)
      reads dp, g
      requires Shape() && IsMat(jac, n, m)
    {
      Solves(Damped(jac, m, mu), dp[..], g[..])
    }

    /** The tests on a solved increment. */
    method Judge(pb: Problem, o: Options, mu: real, nu: int, cost: real, pL2: real, ghost jac: Mat)
      returns (out: Outcome)
      requires Shape() && GoodProblem(pb) && pb.m == m && pb.n == n && IsMat(jac, n, m)
      requires Current(pb, cost) && pL2 == Norm2(p[..]) && (mu > 0.0 ==> ExactStep(jac, mu)) && o.epsilon > 0.0
      modifies p, e, hx, pdp
      ensures out.Accepted?
              ==> Current(pb, out.cost) && p[..] == Add(old(p[..]), dp[..]) && out.cost < cost
                  && (mu > 0.0 ==> out.mu > 0.0)
      ensures out.Accepted?
              ==> Gain(dp[..], mu, g[..]) > 0.0 && out.mu == NextMu(mu, cost - out.cost, Gain(dp[..], mu, g[..]))
      ensures !out.Accepted? ==> Current(pb, cost) && p[..] == old(p[..])
      ensures out.Rejected? && mu > 0.0 ==> pdp[..] == Add(p[..], dp[..]) && Cost(pb, pdp[..]) >= cost
      ensures out.Stopped? ==> out.stop in {2, 4, 7} && TrialStops(pb, o, p[..], dp[..], out.stop)
      ensures !out.Stopped? ==> TrialGoesOn(pb, o, old(p[..]), dp[..])
    {
      var dpL2 := Increment();
      var stop := TestStep(dpL2, pL2, o, p[..]);
      StepTests(o, p[..], dp[..], dpL2, pL2);
      if stop != 0 { return Stopped(stop); }
      var trial := Evaluate(pb);
      if !pb.finite(trial) { return Stopped(7); }
      var dL := PredictedGain(mu);
      if mu > 0.0 { GainPositive(jac, m, mu, dp[..], g[..]); }
      var dF := cost - trial;
      if dL > 0.0 && dF > 0.0 {
        var mu' := NextDamping(mu, dF, dL);
        Accept();
        return Accepted(mu', trial);
      }
      out := Rejected(mu, nu);
    }

    /** One attempt to lower the error; the matrix handed to the solver is J^T J + mu * I. */
    method Attempt(pb: Problem, o: Options, mu: real, nu: int, cost: real, pL2: real, ghost jac: Mat)
      returns (out: Outcome)
      requires Shape() && GoodProblem(pb) && pb.m == m && pb.n == n && IsMat(jac, n, m) && o.epsilon > 0.0
      requires Current(pb, cost) && pL2 == Norm2(p[..]) && Normal(jac)
      modifies p, e, hx, dp, pdp, a
      ensures mu > 0.0 ==> ExactStep(jac, mu)
      ensures out.Accepted?
              ==> Current(pb, out.cost) && p[..] == Add(old(p[..]), dp[..]) && out.cost < cost
                  && (mu > 0.0 ==> out.mu > 0.0)
      ensures out.Accepted?
              ==> Gain(dp[..], mu, g[..]) > 0.0 && out.mu == NextMu(mu, cost - out.cost, Gain(dp[..], mu, g[..]))
      ensures !out.Accepted? ==> Current(pb, cost) && p[..] == old(p[..])
      ensures out.Rejected? ==> Normal(jac) && out.mu == mu * nu as real && out.nu == Double32(nu) > nu
      ensures out.Rejected? && mu > 0.0 ==> pdp[..] == Add(p[..], dp[..]) && Cost(pb, pdp[..]) >= cost
      ensures out.Stopped? ==> out.stop in {2, 4, 5, 7} && (out.stop == 5 ==> Double32(nu) <= nu)
      ensures out.Stopped? && out.stop != 5 ==> TrialStops(pb, o, p[..], dp[..], out.stop)
      ensures out.Accepted? ==> TrialGoesOn(pb, o, old(p[..]), dp[..])
      ensures mu > 0.0 && (out.Rejected? || (out.Stopped? && out.stop == 5))
              ==> TrialGoesOn(pb, o, p[..], dp[..]) && Cost(pb, Add(p[..], dp[..])) >= cost
    {
      var issolved := Solve(mu, jac);
      if issolved {
        out := Judge(pb, o, mu, nu, cost, pL2, jac);
        if !out.Rejected? { return; }
      }
      var nu2 := Double32(nu);
      if nu2 <= nu { return Stopped(5); }
      Restore(mu, jac);
      out := Rejected(mu * nu as real, nu2);
    }

    method Start(pb: Problem) returns (cost: real)
      requires Shape() && GoodProblem(pb) && pb.m == m && pb.n == n
      modifies e, hx
      ensures Current(pb, cost)
    {
      Copy(hx, pb.func(p[..]));
      cost := L2Nrmxmy(e, pb.x, hx);
    }

    /** The normal equations, the gradient's norm and that of the parameters. */
    method Prepare(pb: Problem, ghost cost: real) returns (inf: real, pL2: real)
      requires Shape() && GoodProblem(pb) && pb.m == m && pb.n == n && Current(pb, cost)
      modifies g, diag, a
      ensures Normal(pb.jacf(p[..])) && pL2 == Norm2(p[..]) && inf == MaxAbs(g[..], m)
    {
      var jac := pb.jacf(p[..]);
      NormalMatrix(a, g, jac, e, m);
      inf, pL2 := Norms(g, a, diag, p, m, Gram(jac, m));
    }

    method FirstMu(o: Options, ghost jac: Mat) returns (mu: real)
      requires Shape() && IsMat(jac, n, m) && Normal(jac) && MaxAbs(g[..], m) > o.eps1
      ensures GoodOptions(o) ==> mu > 0.0
      ensures exists t :: IsMax(Diagonal(Gram(jac, m), m), o.lowest, t) && mu == Prod(o.tau, t)
    {
      var t := MaxDiagonal(diag, o.lowest, m);
      mu := o.tau * t;
      if GoodOptions(o) { FirstDamping(jac, m, e[..], t, o); }
    }
  }

  /** Whether to stop at an increment of this size; an increment that passes is not zero. */
  method TestStep(dpL2: real, pL2: real, o: Options, ghost p: Vec) returns (stop: int)
    requires pL2 == Norm2(p) && o.epsilon > 0.0
    ensures stop in {0, 2, 4} && (stop == 2 <==> SmallStep(dpL2, pL2, o.eps2))
    ensures stop == 4 <==> stop != 2 && AlmostSingular(dpL2, pL2, o)
    ensures stop != 2 ==> dpL2 > 0.0
  {
    if SmallStep(dpL2, pL2, o.eps2) { return 2; }
    StepNonzero(dpL2, o.eps2, p);
    if AlmostSingular(dpL2, pL2, o) { return 4; }
    stop := 0;
  }

  /** The damping after an accepted step with actual gain dF and predicted gain dL. */
  function NextMu(mu: real, dF: real, dL: real): (mu': real)
    requires dL > 0.0
  {
    mu * DampingFactor(Surplus(dF, dL))
  }

  /** Twice the gain ratio, less one. */
  function Surplus(dF: real, dL: real): (t: real)
    requires dL > 0.0
  {
    2.0 * dF / dL - 1.0
  }

  function DampingFactor(t: real): (f: real)
    ensures f >= ONE_THIRD
  {
    if 1.0 - t * t * t >= ONE_THIRD then 1.0 - t * t * t else ONE_THIRD
  }

  /** An accepted step divides the damping by three at most, and less than doubles it. */
  lemma {:induction false} DampingRange(mu: real, dF: real, dL: real)
    requires mu > 0.0 && dF > 0.0 && dL > 0.0
    ensures ONE_THIRD * mu <= NextMu(mu, dF, dL) < 2.0 * mu
  {
    SurplusAbove(dF, dL);
    FactorRange(Surplus(dF, dL));
    FactorScales(mu, DampingFactor(Surplus(dF, dL)));
  }

  lemma {:induction false} SurplusAbove(a: real, b: real)
    requires a > 0.0 && b > 0.0
    ensures Surplus(a, b) > -1.0
  {
    var q := 2.0 * a / b;
    assert q * b == 2.0 * a;
    assert -q * b == -(q * b);
    if q <= 0.0 { NonNegativeProduct(-q, b); }
  }

  lemma {:induction false} FactorRange(t: real)
    requires t > -1.0
    ensures ONE_THIRD <= DampingFactor(t) < 2.0
  {
    CubeAbove(t);
  }

  lemma {:induction false} CubeAbove(t: real)
    requires t > -1.0
    ensures t * t * t > -1.0
  {
    if t >= 0.0 {
      NonNegativeProduct(t, t);
      NonNegativeProduct(t * t, t);
    } else {
      var s := -t;
      ProdPositive(s, 1.0 - s);
      assert Prod(s, 1.0 - s) == s - s * s;
      NonNegativeProduct(s, s);
      NonNegativeProduct(s * s, 1.0 - s);
      assert s * s * (1.0 - s) == s * s - s * s * s;
      assert t * t * t == -(s * s * s);
    }
  }

  lemma {:induction false} FactorScales(mu: real, f: real)
    requires mu > 0.0 && ONE_THIRD <= f < 2.0
    ensures ONE_THIRD * mu <= mu * f < 2.0 * mu
  {
    NonNegativeProduct(mu, f - ONE_THIRD);
    ProdPositive(mu, 2.0 - f);
    assert mu * (f - ONE_THIRD) == mu * f - ONE_THIRD * mu;
    assert Prod(mu, 2.0 - f) == 2.0 * mu - mu * f;
  }

  method NextDamping(mu: real, dF: real, dL: real) returns (mu': real)
    requires dL > 0.0
    ensures mu' == NextMu(mu, dF, dL) && (mu > 0.0 ==> mu' > 0.0)
  {
    var t := 2.0 * dF / dL - 1.0;
    ghost var f := DampingFactor(t);
    t := 1.0 - t * t * t;
    var factor := if t >= ONE_THIRD then t else ONE_THIRD;
    assert factor == f;
    mu' := mu * factor;
    if mu > 0.0 { ProdPositive(mu, factor); assert mu' == Prod(mu, factor); }
  }

  lemma {:induction false} StepNonzero(dpL2: real, eps2: real, p: Vec)
    requires dpL2 > eps2 * eps2 * Norm2(p)
    ensures dpL2 > 0.0
  {
    DotSquareNonNeg(p, |p|);
    SquarePositive(eps2);
    NonNegativeProduct(eps2 * eps2, Norm2(p));
  }

  lemma {:induction false} NonNegativeProduct(s: real, t: real)
    requires s >= 0.0 && t >= 0.0
    ensures s * t >= 0.0
  {
    if s > 0.0 && t > 0.0 { ProdPositive(s, t); }
  }
}

/**
 The whole minimisation of LEVMAR_DER (touchscreen_drv/levmar-2.5/lm_core.c): which runs there
 are, why there is only one for each start, and the loops that make it.
 */
module LmRun {
  import opened LinearAlgebra
  import opened NormalEquations
  import opened LmDer

  // ----- the damping within an iteration -----

  /** The damping after j increments that did not lower the error: it is multiplied by 2, 4, 8
      and so on. */
  function Grown(mu: real, j: nat): (r: real) { Prod(mu, Pow2(j * (j + 1) / 2) as real) }

  lemma {:induction false} Pow2Sum(a: nat, b: nat)
    ensures Pow2(a + b) == Pow2(a) * Pow2(b)
  {
    if b > 0 {
      var c := b - 1;
      Pow2Sum(a, c);
      assert Pow2(a + b) == 2 * Pow2(a + c) && Pow2(b) == 2 * Pow2(c);
    }
  }

  lemma {:induction false} Triangle(j: nat, k: nat)
    requires k == j + 1
    ensures k * (k + 1) / 2 == j * (j + 1) / 2 + k
  {
    assert k * (k + 1) == j * (j + 1) + 2 * k;
  }

  lemma {:induction false} GrownZero(mu: real)
    ensures Grown(mu, 0) == mu
  {
    assert Pow2(0) == 1;
  }

  lemma {:induction false} GrownNext(mu: real, j: nat, k: nat)
    requires k == j + 1
    ensures Grown(mu, k) == Grown(mu, j) * Pow2(k) as real
  {
    Triangle(j, k);
    GrownAt(mu, j * (j + 1) / 2, k, k * (k + 1) / 2);
  }

  lemma {:induction false} GrownAt(mu: real, t: nat, k: nat, s: nat)
    requires s == t + k
    ensures Prod(mu, Pow2(s) as real) == Prod(mu, Pow2(t) as real) * Pow2(k) as real
  {
    Pow2Sum(t, k);
    RealProduct(mu, Pow2(t), Pow2(k));
  }

  /** The code's own growth. */
  lemma {:induction false} GrownFurther(mu0: real, j: nat, k: nat, mu: real, nu: int, mu': real)
    requires k == j + 1 && mu == Grown(mu0, j) && nu == Pow2(k) && mu' == mu * nu as real
    ensures mu' == Grown(mu0, k)
  {
    GrownNext(mu0, j, k);
  }

  lemma {:induction false} RealProduct(mu: real, a: int, b: int)
    ensures Prod(mu, (a * b) as real) == Prod(mu, a as real) * b as real
  {
    assert (a * b) as real == a as real * b as real;
  }

  lemma {:induction false} GrownPositive(mu: real, j: nat)
    requires mu > 0.0
    ensures Grown(mu, j) > 0.0
  {
    ProdPositive(mu, Pow2(j * (j + 1) / 2) as real);
  }

  // ----- one iteration -----

  /** d solves the normal equations at v with this damping. */
  ghost predicate Increment(pb: Problem, v: Vec, mu: real, d: Vec)
    requires GoodProblem(pb) && |v| == pb.m
  {
    |d| == pb.m && Solves(Damped(pb.jacf(v), pb.m, mu), d, Gradient(pb.jacf(v), pb.m, Residual(pb, v)))
  }

  /** With this damping the increment is tried in vain. */
  ghost predicate Vain(pb: Problem, o: Options, v: Vec, mu: real)
    requires GoodProblem(pb) && |v| == pb.m
  {
    mu > 0.0 ==> exists d: Vec :: Increment(pb, v, mu, d) && InVain(pb, o, v, d)
  }

  ghost predicate InVain(pb: Problem, o: Options, v: Vec, d: Vec)
    requires GoodProblem(pb) && |v| == |d| == pb.m
  {
    TrialGoesOn(pb, o, v, d) && Cost(pb, Add(v, d)) >= Cost(pb, v)
  }

  /** The first j increments of an iteration that begins with damping mu. */
  ghost predicate VainBefore(pb: Problem, o: Options, v: Vec, mu: real, j: nat)
    requires GoodProblem(pb) && |v| == pb.m
  {
    forall i: nat :: i < j ==> Vain(pb, o, v, Grown(mu, i))
  }

  /** No component of the gradient exceeds the threshold. */
  ghost predicate Flat(pb: Problem, o: Options, v: Vec)
    requires GoodProblem(pb) && |v| == pb.m
  {
    var g := Gradient(pb.jacf(v), pb.m, Residual(pb, v));
    o.eps1 >= 0.0 && forall i :: 0 <= i < pb.m ==> -o.eps1 <= g[i] <= o.eps1
  }

  /** An iteration at v looks for a step. */
  ghost predicate Searches(pb: Problem, o: Options, v: Vec)
    requires GoodProblem(pb) && |v| == pb.m
  {
    Cost(pb, v) > o.eps3 && !Flat(pb, o, v)
  }

  /** The damping mu' after a step d with damping mu: multiplied by 1 - (2 r - 1)^3 for the
      ratio r of the real gain to that of the linear model, and by a third at least. */
  ghost predicate Follows(pb: Problem, v: Vec, mu: real, d: Vec, mu': real)
    requires GoodProblem(pb) && |v| == |d| == pb.m
  {
    exists r: real, f: real :: RatioOf(pb, v, mu, d, r) && FactorOf(2.0 * r - 1.0, f) && mu' == Prod(mu, f)
  }

  ghost predicate RatioOf(pb: Problem, v: Vec, mu: real, d: Vec, r: real)
    requires GoodProblem(pb) && |v| == |d| == pb.m
  {
    Prod(r, Norm2(MatVec(pb.jacf(v), d)) + 2.0 * Prod(mu, Norm2(d))) == Cost(pb, v) - Cost(pb, Add(v, d))
  }

  predicate FactorOf(t: real, f: real) {
    3.0 * f >= 1.0 && f >= 1.0 - t * t * t && (3.0 * f == 1.0 || f == 1.0 - t * t * t)
  }

  /** The increment d is taken. */
  ghost predicate Taken(pb: Problem, o: Options, v: Vec, mu: real, d: Vec, v': Vec, mu': real)
    requires GoodProblem(pb) && |v| == pb.m
  {
    && Increment(pb, v, mu, d) && TrialGoesOn(pb, o, v, d) && v' == Add(v, d) && Cost(pb, v') < Cost(pb, v)
    && Follows(pb, v, mu, d, mu')
  }

  /** The iteration at v with damping mu steps to v' after j increments in vain, and leaves
      the damping mu'. */
  ghost predicate StepTo(pb: Problem, o: Options, v: Vec, mu: real, j: nat, v': Vec, mu': real)
    requires GoodProblem(pb) && |v| == pb.m
  {
    && |v'| == pb.m && Searches(pb, o, v) && j < 30 && VainBefore(pb, o, v, mu, j)
    && Cost(pb, v') < Cost(pb, v)
    && (Grown(mu, j) > 0.0 ==> exists d: Vec :: Taken(pb, o, v, Grown(mu, j), d, v', mu'))
  }

  /** The increment number j gives the reason to stop. */
  ghost predicate TrialEnds(pb: Problem, o: Options, v: Vec, mu: real, j: nat, reason: int)
    requires GoodProblem(pb) && |v| == pb.m
  {
    && j < 30 && VainBefore(pb, o, v, mu, j)
    && (Grown(mu, j) > 0.0
        ==> exists d: Vec :: Increment(pb, v, Grown(mu, j), d) && TrialStops(pb, o, v, d, reason))
  }

  /** The iteration at v with damping mu ends the run for the reason, after j increments in
      vain. */
  ghost predicate EndsAt(pb: Problem, o: Options, v: Vec, mu: real, j: nat, reason: int)
    requires GoodProblem(pb) && |v| == pb.m
  {
    || (reason == 6 && Cost(pb, v) <= o.eps3 && j == 0)
    || (reason == 1 && Cost(pb, v) > o.eps3 && Flat(pb, o, v) && j == 0)
    || (reason in {2, 4, 7} && Searches(pb, o, v) && TrialEnds(pb, o, v, mu, j, reason))
    || (reason == 5 && Searches(pb, o, v) && j == 30 && VainBefore(pb, o, v, mu, j))
  }

  // ----- runs -----

  /** The points of a run; the damping that the iteration at each of them begins with; how
      many increments were in vain before each step; why the run ended, zero for the limit of
      iterations, and how many increments were in vain then. */
  datatype Run = Run(points: seq<Vec>, mus: seq<real>, vain: seq<nat>, reason: int, last: nat)

  /** The damping of the first iteration: tau times the largest diagonal entry. */
  ghost predicate BeginsWith(pb: Problem, o: Options, v: Vec, mu: real)
    requires GoodProblem(pb) && |v| == pb.m
  {
    exists t :: IsMax(Diagonal(Gram(pb.jacf(v), pb.m), pb.m), o.lowest, t) && mu == Prod(o.tau, t)
  }

  ghost predicate StepAt(pb: Problem, o: Options, r: Run, i: nat)
    requires GoodProblem(pb) && |r.points| == |r.mus| == |r.vain| + 1 && i < |r.vain|
  {
    |r.points[i]| == pb.m && StepTo(pb, o, r.points[i], r.mus[i], r.vain[i], r.points[i + 1], r.mus[i + 1])
  }

  /** The steps of a run. */
  ghost predicate Steps(pb: Problem, o: Options, r: Run)
    requires GoodProblem(pb)
  {
    && |r.points| == |r.mus| == |r.vain| + 1 && |r.points[0]| == pb.m
    && BeginsWith(pb, o, r.points[0], r.mus[0])
    && forall i: nat :: i < |r.vain| ==> StepAt(pb, o, r, i)
  }

  /** The point and the damping that a run ends with. */
  function EndOf(r: Run): (v: (Vec, real))
    requires |r.points| == |r.mus| > 0
  {
    (r.points[|r.points| - 1], r.mus[|r.mus| - 1])
  }

  /** How many iterations were counted: those that converge are not. */
  function Rounds(r: Run): (k: int) {
    |r.points| - 1 + if r.reason in {2, 4, 5} || (r.reason == 7 && r.last < 30) then 1 else 0
  }

  /** The run from p0 with at most itmax iterations. A start whose error is not finite ends it
      at once; `last` is 30 then. */
  ghost predicate IsRun(pb: Problem, o: Options, itmax: int, p0: Vec, r: Run)
    requires GoodProblem(pb) && |p0| == pb.m
  {
    && Steps(pb, o, r) && r.points[0] == p0
    && if !pb.finite(Cost(pb, p0)) then |r.points| == 1 && r.reason == 7 && r.last == 30
       else if r.reason == 0 then Rounds(r) == (if itmax >= 0 then itmax else 0) && r.last == 0
       else |EndOf(r).0| == pb.m && |r.points| - 1 < itmax && EndsAt(pb, o, EndOf(r).0, EndOf(r).1, r.last, r.reason)
  }

  /** How many systems were solved. */
  function Solved(vain: seq<nat>): (n: nat) {
    if vain == [] then 0 else Solved(vain[..|vain| - 1]) + vain[|vain| - 1] + 1
  }

  function SolvedBy(r: Run): (n: nat) {
    Solved(r.vain) + SolvesAt(r.reason, r.last)
  }

  /** ... in an iteration that ends a run. */
  function SolvesAt(reason: int, last: nat): (n: nat) {
    if reason in {2, 4} || (reason == 7 && last < 30) then last + 1 else if reason == 5 then last else 0
  }

  // ----- there is one run for each start -----

  /** Positive damping leaves one increment. */
  lemma {:induction false} OneIncrement(pb: Problem, v: Vec, mu: real, c: Vec, d: Vec)
    requires GoodProblem(pb) && |v| == pb.m && mu > 0.0 && Increment(pb, v, mu, c) && Increment(pb, v, mu, d)
    ensures c == d
  {
    DampedRegular(pb.jacf(v), pb.m, mu);
    SolvedOnce(Damped(pb.jacf(v), pb.m, mu), pb.m, c, d, Gradient(pb.jacf(v), pb.m, Residual(pb, v)));
  }

  lemma {:induction false} SolvedOnce(a: Mat, m: nat, x: Vec, y: Vec, b: Vec)
    requires Regular(a, m) && |x| == |y| == m && Solves(a, x, b) && Solves(a, y, b)
    ensures x == y
  {
    var z := Sub(x, y);
    forall i | 0 <= i < m ensures Dot(a[i], z, m) == 0.0 {
      assert MatVec(a, x)[i] == MatVec(a, y)[i];
      DotLinear(x, -1.0, y, z, a[i], m);
      DotSym(a[i], x, m);
      DotSym(a[i], y, m);
      DotSym(a[i], z, m);
    }
    assert NullOf(a, m, z);
    forall i | 0 <= i < m ensures x[i] == y[i] { assert z[i] == Zeros(m)[i]; }
  }

  /** The ratio and the factor are unique, and so is the next damping. */
  lemma {:induction false} FollowsOnce(pb: Problem, v: Vec, mu: real, d: Vec, a: real, b: real)
    requires GoodProblem(pb) && |v| == |d| == pb.m && mu > 0.0 && Norm2(d) > 0.0
    requires Follows(pb, v, mu, d, a) && Follows(pb, v, mu, d, b)
    ensures a == b
  {
    var gain := Norm2(MatVec(pb.jacf(v), d)) + 2.0 * Prod(mu, Norm2(d));
    DotSquareNonNeg(MatVec(pb.jacf(v), d), pb.n);
    ProdPositive(mu, Norm2(d));
    var r: real, f: real :| RatioOf(pb, v, mu, d, r) && FactorOf(2.0 * r - 1.0, f) && a == Prod(mu, f);
    var s: real, g: real :| RatioOf(pb, v, mu, d, s) && FactorOf(2.0 * s - 1.0, g) && b == Prod(mu, g);
    SameFactor(r, s, gain);
  }

  lemma {:induction false} SameFactor(r: real, s: real, gain: real)
    requires gain > 0.0 && Prod(r, gain) == Prod(s, gain)
    ensures r == s
  {
    assert Prod(r - s, gain) == Prod(r, gain) - Prod(s, gain) && Prod(s - r, gain) == Prod(s, gain) - Prod(r, gain);
    if r < s { ProdPositive(s - r, gain); }
    if r > s { ProdPositive(r - s, gain); }
  }

  /** An increment that goes on is not zero. */
  lemma {:induction false} GoesOnNonzero(pb: Problem, o: Options, v: Vec, d: Vec)
    requires GoodProblem(pb) && |v| == |d| == pb.m && TrialGoesOn(pb, o, v, d)
    ensures Norm2(d) > 0.0
  {
    StepNonzero(Norm2(d), o.eps2, v);
  }

  /** An increment tried in vain neither leads on nor stops the run. */
  lemma {:induction false} VainOnly(pb: Problem, o: Options, v: Vec, mu: real, d: Vec)
    requires GoodProblem(pb) && |v| == pb.m && mu > 0.0 && Vain(pb, o, v, mu) && Increment(pb, v, mu, d)
    ensures InVain(pb, o, v, d)
  {
    var c: Vec :| Increment(pb, v, mu, c) && InVain(pb, o, v, c);
    OneIncrement(pb, v, mu, c, d);
  }

  /** The increment at which an iteration leaves off is the first that is not in vain. */
  lemma {:induction false} NotLater(pb: Problem, o: Options, v: Vec, mu: real, i: nat, j: nat, d: Vec)
    requires GoodProblem(pb) && |v| == pb.m && mu > 0.0 && VainBefore(pb, o, v, mu, j)
    requires Increment(pb, v, Grown(mu, i), d) && !InVain(pb, o, v, d)
    ensures j <= i
  {
    GrownPositive(mu, i);
    if i < j {
      assert Vain(pb, o, v, Grown(mu, i));
      VainOnly(pb, o, v, Grown(mu, i), d);
    }
  }

  lemma {:induction false} StepOnce(pb: Problem, o: Options, v: Vec, mu: real, i: nat, a: Vec, x: real, j: nat, b: Vec,
                                    y: real)
    requires GoodProblem(pb) && |v| == pb.m && mu > 0.0
    requires StepTo(pb, o, v, mu, i, a, x) && StepTo(pb, o, v, mu, j, b, y)
    ensures i == j && a == b && x == y
  {
    GrownPositive(mu, i);
    GrownPositive(mu, j);
    var c: Vec :| Taken(pb, o, v, Grown(mu, i), c, a, x);
    var d: Vec :| Taken(pb, o, v, Grown(mu, j), d, b, y);
    NotLater(pb, o, v, mu, i, j, c);
    NotLater(pb, o, v, mu, j, i, d);
    OneIncrement(pb, v, Grown(mu, i), c, d);
    GoesOnNonzero(pb, o, v, d);
    FollowsOnce(pb, v, Grown(mu, i), d, x, y);
  }

  /** The first increment that ends the run. */
  lemma {:induction false} Ending(pb: Problem, o: Options, v: Vec, mu: real, j: nat, reason: int) returns (d: Vec)
    requires GoodProblem(pb) && |v| == pb.m && mu > 0.0 && TrialEnds(pb, o, v, mu, j, reason)
    ensures Increment(pb, v, Grown(mu, j), d) && TrialStops(pb, o, v, d, reason) && !InVain(pb, o, v, d)
  {
    GrownPositive(mu, j);
    d :| Increment(pb, v, Grown(mu, j), d) && TrialStops(pb, o, v, d, reason);
  }

  /** An iteration steps on or ends the run, but not both. */
  lemma {:induction false} StepOrEnd(pb: Problem, o: Options, v: Vec, mu: real, i: nat, a: Vec, x: real, j: nat,
                                     reason: int)
    requires GoodProblem(pb) && |v| == pb.m && mu > 0.0 && StepTo(pb, o, v, mu, i, a, x)
    ensures !EndsAt(pb, o, v, mu, j, reason)
  {
    GrownPositive(mu, i);
    var c: Vec :| Taken(pb, o, v, Grown(mu, i), c, a, x);
    if VainBefore(pb, o, v, mu, j) { NotLater(pb, o, v, mu, i, j, c); }
    if TrialEnds(pb, o, v, mu, j, reason) {
      var d := Ending(pb, o, v, mu, j, reason);
      NotLater(pb, o, v, mu, j, i, d);
      OneIncrement(pb, v, Grown(mu, i), c, d);
    }
  }

  lemma {:induction false} EndOnce(pb: Problem, o: Options, v: Vec, mu: real, i: nat, a: int, j: nat, b: int)
    requires GoodProblem(pb) && |v| == pb.m && (Searches(pb, o, v) ==> mu > 0.0)
    requires EndsAt(pb, o, v, mu, i, a) && EndsAt(pb, o, v, mu, j, b)
    ensures i == j && a == b
  {
    if Searches(pb, o, v) {
      if a in {2, 4, 7} { EndsFirst(pb, o, v, mu, i, a, j); }
      if b in {2, 4, 7} { EndsFirst(pb, o, v, mu, j, b, i); }
      if a in {2, 4, 7} && b in {2, 4, 7} && i == j {
        var c := Ending(pb, o, v, mu, i, a);
        var d := Ending(pb, o, v, mu, j, b);
        GrownPositive(mu, i);
        OneIncrement(pb, v, Grown(mu, i), c, d);
      }
    }
  }

  lemma {:induction false} EndsFirst(pb: Problem, o: Options, v: Vec, mu: real, i: nat, a: int, j: nat)
    requires GoodProblem(pb) && |v| == pb.m && mu > 0.0 && TrialEnds(pb, o, v, mu, i, a) && VainBefore(pb, o, v, mu, j)
    ensures j <= i < 30
  {
    var c := Ending(pb, o, v, mu, i, a);
    NotLater(pb, o, v, mu, i, j, c);
  }

  lemma {:induction false} BeginsOnce(pb: Problem, o: Options, v: Vec, a: real, b: real)
    requires GoodProblem(pb) && |v| == pb.m && BeginsWith(pb, o, v, a) && BeginsWith(pb, o, v, b)
    ensures a == b
  {
    var d := Diagonal(Gram(pb.jacf(v), pb.m), pb.m);
    var s :| IsMax(d, o.lowest, s) && a == Prod(o.tau, s);
    var t :| IsMax(d, o.lowest, t) && b == Prod(o.tau, t);
    MaxOnce(d, o.lowest, s, t);
  }

  lemma {:induction false} MaxOnce(d: Vec, lowest: real, s: real, t: real)
    requires IsMax(d, lowest, s) && IsMax(d, lowest, t)
    ensures s == t
  {
  }

  /** A gradient that is not flat makes the first damping positive. */
  lemma {:induction false} BeginsPositive(pb: Problem, o: Options, v: Vec, mu: real)
    requires GoodProblem(pb) && |v| == pb.m && GoodOptions(o) && BeginsWith(pb, o, v, mu) && !Flat(pb, o, v)
    ensures mu > 0.0
  {
    var jac, e := pb.jacf(v), Residual(pb, v);
    var t :| IsMax(Diagonal(Gram(jac, pb.m), pb.m), o.lowest, t) && mu == Prod(o.tau, t);
    FlatIff(Gradient(jac, pb.m, e), pb.m, o.eps1);
    FirstDamping(jac, pb.m, e, t, o);
  }

  lemma {:induction false} FlatIff(g: Vec, n: nat, eps: real)
    requires n <= |g|
    ensures MaxAbs(g, n) <= eps <==> eps >= 0.0 && forall i :: 0 <= i < n ==> -eps <= g[i] <= eps
  {
    if n > 0 { FlatIff(g, n - 1, eps); }
  }

  lemma {:induction false} FollowsPositive(pb: Problem, v: Vec, mu: real, d: Vec, mu': real)
    requires GoodProblem(pb) && |v| == |d| == pb.m && mu > 0.0 && Follows(pb, v, mu, d, mu')
    ensures mu' > 0.0
  {
    var r: real, f: real :| RatioOf(pb, v, mu, d, r) && FactorOf(2.0 * r - 1.0, f) && mu' == Prod(mu, f);
    ProdPositive(mu, f);
  }

  /** With good options the damping is positive wherever a run looks for a step. */
  lemma {:induction false} MuPositive(pb: Problem, o: Options, r: Run, i: nat)
    requires GoodProblem(pb) && GoodOptions(o) && Steps(pb, o, r) && i < |r.mus|
    requires i == 0 ==> !Flat(pb, o, r.points[0])
    ensures r.mus[i] > 0.0
  {
    if i == 0 {
      BeginsPositive(pb, o, r.points[0], r.mus[0]);
    } else {
      var j := i - 1;
      assert StepAt(pb, o, r, j);
      MuPositive(pb, o, r, j);
      GrownPositive(r.mus[j], r.vain[j]);
      var d: Vec :| Taken(pb, o, r.points[j], Grown(r.mus[j], r.vain[j]), d, r.points[i], r.mus[i]);
      FollowsPositive(pb, r.points[j], Grown(r.mus[j], r.vain[j]), d, r.mus[i]);
    }
  }

  /** Two runs from the same point agree as far as both go. */
  ghost predicate Agree(a: Run, b: Run, i: nat)
    requires |a.points| == |a.mus| == |a.vain| + 1 && |b.points| == |b.mus| == |b.vain| + 1
  {
    i <= |a.vain| && i <= |b.vain| && a.points[..i + 1] == b.points[..i + 1] && a.mus[..i + 1] == b.mus[..i + 1]
    && a.vain[..i] == b.vain[..i]
  }

  lemma {:induction false} AgreeMore(a: Run, b: Run, i: nat, k: nat)
    requires |a.points| == |a.mus| == |a.vain| + 1 && |b.points| == |b.mus| == |b.vain| + 1
    requires k == i + 1 <= |a.vain| && k <= |b.vain| && Agree(a, b, i)
    requires a.points[k] == b.points[k] && a.mus[k] == b.mus[k] && a.vain[i] == b.vain[i]
    ensures Agree(a, b, k)
  {
    assert a.points[..k + 1] == a.points[..k] + [a.points[k]] && b.points[..k + 1] == b.points[..k] + [b.points[k]];
    assert a.mus[..k + 1] == a.mus[..k] + [a.mus[k]] && b.mus[..k + 1] == b.mus[..k] + [b.mus[k]];
    assert a.vain[..k] == a.vain[..i] + [a.vain[i]] && b.vain[..k] == b.vain[..i] + [b.vain[i]];
  }

  lemma {:induction false} RunsAgree(pb: Problem, o: Options, a: Run, b: Run, k: nat)
    requires GoodProblem(pb) && GoodOptions(o) && Steps(pb, o, a) && Steps(pb, o, b) && a.points[0] == b.points[0]
    requires k <= |a.vain| && k <= |b.vain|
    ensures Agree(a, b, k)
  {
    if k == 0 {
      BeginsOnce(pb, o, a.points[0], a.mus[0], b.mus[0]);
      assert a.points[..1] == [a.points[0]] && b.points[..1] == [b.points[0]];
      assert a.mus[..1] == [a.mus[0]] && b.mus[..1] == [b.mus[0]];
    } else {
      var i := k - 1;
      RunsAgree(pb, o, a, b, i);
      AgreeAt(a, b, i);
      assert StepAt(pb, o, a, i) && StepAt(pb, o, b, i);
      MuPositive(pb, o, a, i);
      StepOnce(pb, o, a.points[i], a.mus[i], a.vain[i], a.points[k], a.mus[k], b.vain[i], b.points[k], b.mus[k]);
      AgreeMore(a, b, i, k);
    }
  }

  lemma {:induction false} AgreeAt(a: Run, b: Run, i: nat)
    requires |a.points| == |a.mus| == |a.vain| + 1 && |b.points| == |b.mus| == |b.vain| + 1 && Agree(a, b, i)
    ensures a.points[i] == b.points[i] && a.mus[i] == b.mus[i]
  {
    assert a.points[..i + 1][i] == b.points[..i + 1][i] && a.mus[..i + 1][i] == b.mus[..i + 1][i];
  }

  /** A run does not end where another one goes on. */
  lemma {:induction false} NotShorter(pb: Problem, o: Options, itmax: int, p0: Vec, a: Run, b: Run)
    requires GoodProblem(pb) && |p0| == pb.m && GoodOptions(o)
    requires IsRun(pb, o, itmax, p0, a) && IsRun(pb, o, itmax, p0, b)
    ensures |a.vain| >= |b.vain|
  {
    var n := |a.vain|;
    if n < |b.vain| {
      RunsAgree(pb, o, a, b, n);
      AgreeAt(a, b, n);
      assert StepAt(pb, o, b, n);
      MuPositive(pb, o, b, n);
      StepOrEnd(pb, o, b.points[n], b.mus[n], b.vain[n], b.points[n + 1], b.mus[n + 1], a.last, a.reason);
    }
  }

  /** With good options a start has one run: what is said of runs leaves nothing open. */
  lemma {:induction false} OneRun(pb: Problem, o: Options, itmax: int, p0: Vec, a: Run, b: Run)
    requires GoodProblem(pb) && |p0| == pb.m && GoodOptions(o)
    requires IsRun(pb, o, itmax, p0, a) && IsRun(pb, o, itmax, p0, b)
    ensures a == b
  {
    NotShorter(pb, o, itmax, p0, a, b);
    NotShorter(pb, o, itmax, p0, b, a);
    var n := |a.vain|;
    RunsAgree(pb, o, a, b, n);
    AgreeAt(a, b, n);
    assert a.points == a.points[..n + 1] && b.points == b.points[..n + 1];
    assert a.mus == a.mus[..n + 1] && b.mus == b.mus[..n + 1] && a.vain == a.vain[..n] && b.vain == b.vain[..n];
    if pb.finite(Cost(pb, p0)) && a.reason != 0 && b.reason != 0 {
      if Searches(pb, o, a.points[n]) { MuPositive(pb, o, a, n); }
      EndOnce(pb, o, a.points[n], a.mus[n], a.last, a.reason, b.last, b.reason);
    }
  }

  // ----- what every run keeps -----

  /** Every step lowers the cost. */
  ghost predicate Descending(pb: Problem, trace: seq<Vec>)
    requires GoodProblem(pb)
  {
    && (forall i :: 0 <= i < |trace| ==> |trace[i]| == pb.m)
    && forall i, j :: 0 <= i < j < |trace| ==> Lower(pb, trace[i], trace[j])
  }

  ghost predicate Lower(pb: Problem, u: Vec, v: Vec)
    requires GoodProblem(pb) && |u| == pb.m && |v| == pb.m
  {
    Cost(pb, v) < Cost(pb, u)
  }

  lemma {:induction false} StepsDescend(pb: Problem, o: Options, r: Run)
    requires GoodProblem(pb) && Steps(pb, o, r)
    ensures Descending(pb, r.points)
  {
    forall i | 0 <= i < |r.points| ensures |r.points[i]| == pb.m {
      if i > 0 { var j := i - 1; assert StepAt(pb, o, r, j); }
    }
    forall i, j | 0 <= i < j < |r.points| ensures Lower(pb, r.points[i], r.points[j]) { LowerLater(pb, o, r, i, j); }
  }

  lemma {:induction false} LowerLater(pb: Problem, o: Options, r: Run, i: nat, j: nat)
    requires GoodProblem(pb) && Steps(pb, o, r) && i < j < |r.points|
    requires forall k :: 0 <= k < |r.points| ==> |r.points[k]| == pb.m
    ensures Lower(pb, r.points[i], r.points[j])
  {
    var k := j - 1;
    assert StepAt(pb, o, r, k);
    if i < k { LowerLater(pb, o, r, i, k); }
  }

  /** An iteration needs thirty solves at most. */
  lemma {:induction false} SolvedBound(vain: seq<nat>)
    requires forall i :: 0 <= i < |vain| ==> vain[i] < 30
    ensures Solved(vain) <= 30 * |vain|
  {
    if vain != [] { SolvedBound(vain[..|vain| - 1]); }
  }

  lemma {:induction false} RunBound(pb: Problem, o: Options, itmax: int, p0: Vec, r: Run)
    requires GoodProblem(pb) && |p0| == pb.m && IsRun(pb, o, itmax, p0, r)
    ensures SolvedBy(r) <= 30 * Rounds(r) && 0 <= Rounds(r) && (itmax >= 0 ==> Rounds(r) <= itmax)
    ensures r.reason in {0, 1, 2, 4, 5, 6, 7} && (r.reason == 0 ==> Rounds(r) >= itmax)
  {
    forall i | 0 <= i < |r.vain| ensures r.vain[i] < 30 { assert StepAt(pb, o, r, i); }
    SolvedBound(r.vain);
  }

  // ----- the loops -----

  lemma {:induction false} MaxExists(d: Vec, lowest: real, n: nat) returns (t: real)
    requires n <= |d|
    ensures IsMax(d[..n], lowest, t)
  {
    t := lowest;
    if n > 0 {
      t := MaxExists(d, lowest, n - 1);
      assert d[..n] == d[..n - 1] + [d[n - 1]];
      if d[n - 1] > t { t := d[n - 1]; }
    }
  }

  lemma {:induction false} Beginning(pb: Problem, o: Options, v: Vec) returns (mu: real)
    requires GoodProblem(pb) && |v| == pb.m
    ensures BeginsWith(pb, o, v, mu)
  {
    var d := Diagonal(Gram(pb.jacf(v), pb.m), pb.m);
    var t := MaxExists(d, o.lowest, pb.m);
    assert d[..pb.m] == d;
    mu := Prod(o.tau, t);
    assert IsMax(d, o.lowest, t);
  }

  /** The damping that the code computes from the gain ratio is the one that follows. */
  lemma {:induction false} FollowsIs(pb: Problem, v: Vec, mu: real, d: Vec, gain: real, mu': real)
    requires GoodProblem(pb) && |v| == |d| == pb.m && mu > 0.0 && Increment(pb, v, mu, d)
    requires gain == Gain(d, mu, Gradient(pb.jacf(v), pb.m, Residual(pb, v))) > 0.0
    requires mu' == NextMu(mu, Cost(pb, v) - Cost(pb, Add(v, d)), gain)
    ensures Follows(pb, v, mu, d, mu')
  {
    var dF := Cost(pb, v) - Cost(pb, Add(v, d));
    GainPositive(pb.jacf(v), pb.m, mu, d, Gradient(pb.jacf(v), pb.m, Residual(pb, v)));
    var r, f := NextIs(mu, dF, gain, mu');
    assert RatioOf(pb, v, mu, d, r);
  }

  lemma {:induction false} NextIs(mu: real, dF: real, gain: real, mu': real) returns (r: real, f: real)
    requires gain > 0.0 && mu' == NextMu(mu, dF, gain)
    ensures Prod(r, gain) == dF && FactorOf(2.0 * r - 1.0, f) && mu' == Prod(mu, f)
  {
    r, f := dF / gain, DampingFactor(Surplus(dF, gain));
    TwiceRatio(dF, gain);
    FactorIs(Surplus(dF, gain));
  }

  lemma {:induction false} TwiceRatio(a: real, b: real)
    requires b > 0.0
    ensures Surplus(a, b) == 2.0 * (a / b) - 1.0
  {
    var q, s := a / b, 2.0 * a / b;
    assert q * b == a && s * b == 2.0 * a;
    SameFactor(2.0 * q, s, b);
  }

  lemma {:induction false} FactorIs(t: real)
    ensures FactorOf(t, DampingFactor(t))
  {
  }

  /** What an iteration works on. */
  ghost predicate At(w: Work, pb: Problem, cost: real, pL2: real)
    reads w.p, w.e, w.a, w.g, w.diag
    requires w.Shape() && GoodProblem(pb) && pb.m == w.m && pb.n == w.n
  {
    w.Current(pb, cost) && pL2 == Norm2(w.p[..]) && w.Normal(pb.jacf(w.p[..]))
  }

  lemma {:induction false} VainMore(pb: Problem, o: Options, v: Vec, mu: real, i: nat, j: nat, d: Vec)
    requires GoodProblem(pb) && |v| == |d| == pb.m && j == i + 1 && VainBefore(pb, o, v, mu, i)
    requires Grown(mu, i) > 0.0 ==> Increment(pb, v, Grown(mu, i), d) && InVain(pb, o, v, d)
    ensures VainBefore(pb, o, v, mu, j)
  {
    assert Vain(pb, o, v, Grown(mu, i));
  }

  /** The inner loop: increments with growing damping until one lowers the error or gives a
      reason to stop; thirty at most. */
  method Damp(w: Work, pb: Problem, o: Options, mu0: real, cost: real, pL2: real)
    returns (out: Outcome, solves: nat)
    requires w.Shape() && GoodProblem(pb) && pb.m == w.m && pb.n == w.n && o.epsilon > 0.0
    requires At(w, pb, cost, pL2) && Searches(pb, o, w.p[..])
    modifies w.p, w.e, w.hx, w.dp, w.pdp, w.a
    ensures !out.Rejected? && 1 <= solves <= 30
    ensures out.Accepted? ==> w.Current(pb, out.cost)
                              && StepTo(pb, o, old(w.p[..]), mu0, solves - 1, w.p[..], out.mu)
    ensures out.Stopped? ==> w.Current(pb, cost) && w.p[..] == old(w.p[..])
                             && EndsAt(pb, o, w.p[..], mu0, if out.stop == 5 then 30 else solves - 1, out.stop)
    ensures out.Stopped? ==> out.stop in {2, 4, 5, 7} && (out.stop == 5 ==> solves == 30)
  {
    var mu, nu := mu0, 2;
    ghost var v, jac := w.p[..], pb.jacf(w.p[..]);
    solves := 0;
    GrownZero(mu0);
    while true
      invariant solves < 30 && nu == Pow2(solves + 1) && mu == Grown(mu0, solves)
      invariant w.p[..] == v && At(w, pb, cost, pL2) && VainBefore(pb, o, v, mu0, solves)
      decreases 30 - solves
    {
      WrapsAt30(solves);
      out := w.Attempt(pb, o, mu, nu, cost, pL2, jac);
      AttemptMeans(pb, o, v, mu0, solves, w.dp[..], out, w.p[..], cost, w.g[..]);
      solves := solves + 1;
      match out
      case Rejected(mu', nu') =>
        GrownFurther(mu0, solves - 1, solves, mu, nu, mu');
        mu, nu := mu', nu';
      case _ => return;
    }
  }

  /** What an attempt with the increment d from v means for the iteration. */
  lemma {:induction false} AttemptMeans(pb: Problem, o: Options, v: Vec, mu0: real, j: nat, d: Vec, out: Outcome,
                                        v': Vec, cost: real, g: Vec)
    requires GoodProblem(pb) && |v| == |d| == |v'| == |g| == pb.m && o.epsilon > 0.0 && cost == Cost(pb, v) && j < 30
    requires Searches(pb, o, v) && VainBefore(pb, o, v, mu0, j)
    requires g == Gradient(pb.jacf(v), pb.m, Residual(pb, v))
    requires Grown(mu0, j) > 0.0 ==> Solves(Damped(pb.jacf(v), pb.m, Grown(mu0, j)), d, g)
    requires out.Accepted? ==> v' == Add(v, d) && out.cost == Cost(pb, v') < cost && TrialGoesOn(pb, o, v, d)
                               && Gain(d, Grown(mu0, j), g) > 0.0
                               && out.mu == NextMu(Grown(mu0, j), cost - out.cost, Gain(d, Grown(mu0, j), g))
    requires Grown(mu0, j) > 0.0 && (out.Rejected? || (out.Stopped? && out.stop == 5)) ==> InVain(pb, o, v, d)
    requires out.Stopped? ==> out.stop in {2, 4, 5, 7} && (out.stop == 5 ==> j == 29)
    requires out.Stopped? && out.stop != 5 ==> TrialStops(pb, o, v, d, out.stop)
    ensures out.Rejected? ==> VainBefore(pb, o, v, mu0, j + 1)
    ensures out.Accepted? ==> StepTo(pb, o, v, mu0, j, v', out.mu)
    ensures out.Stopped? ==> EndsAt(pb, o, v, mu0, if out.stop == 5 then 30 else j, out.stop)
  {
    var mu := Grown(mu0, j);
    match out
    case Accepted(mu', cost') =>
      if mu > 0.0 {
        FollowsIs(pb, v, mu, d, Gain(d, mu, g), mu');
        assert Taken(pb, o, v, mu, d, v', mu');
      }
    case Rejected(_, _) => VainMore(pb, o, v, mu0, j, j + 1, d);
    case Stopped(stop) =>
      if stop == 5 {
        VainMore(pb, o, v, mu0, j, j + 1, d);
      } else {
        assert mu > 0.0 ==> Increment(pb, v, mu, d) && TrialStops(pb, o, v, d, stop);
      }
  }

  /** One outer iteration, which begins with the damping `start`. */
  method Iterate(w: Work, pb: Problem, o: Options, first: bool, mu0: real, cost0: real, ghost start: real)
    returns (stop: int, mu: real, cost: real, solves: nat, ghost vain: nat)
    requires w.Shape() && GoodProblem(pb) && pb.m == w.m && pb.n == w.n && o.epsilon > 0.0
    requires w.Current(pb, cost0) && if first then BeginsWith(pb, o, w.p[..], start) else mu0 == start
    modifies w.p, w.e, w.hx, w.g, w.dp, w.pdp, w.diag, w.a
    ensures w.Current(pb, cost) && solves <= 30
    ensures stop == 0 ==> StepTo(pb, o, old(w.p[..]), start, vain, w.p[..], mu) && solves == vain + 1
    ensures stop != 0 ==> w.p[..] == old(w.p[..]) && EndsAt(pb, o, w.p[..], start, vain, stop)
                          && solves == SolvesAt(stop, vain)
    ensures stop in {0, 1, 2, 4, 5, 6, 7} && (stop == 7 ==> vain < 30)
  {
    mu, cost, solves, vain := mu0, cost0, 0, 0;
    if cost <= o.eps3 { return 6, mu, cost, solves, vain; }
    var inf, pL2 := w.Prepare(pb, cost);
    FlatIff(w.g[..], w.m, o.eps1);
    if inf <= o.eps1 { return 1, mu, cost, solves, vain; }
    if first {
      mu := w.FirstMu(o, pb.jacf(w.p[..]));
      BeginsOnce(pb, o, w.p[..], mu, start);
    }
    var out;
    out, solves := Damp(w, pb, o, mu, cost, pL2);
    match out
    case Accepted(mu', cost') => mu, cost, stop, vain := mu', cost', 0, solves - 1;
    case Stopped(s) => stop, vain := s, if s == 5 then 30 else solves - 1;
    case Rejected(_, _) => assert false;
  }

  /** The outer loop after k iterations. */
  ghost predicate Reached(pb: Problem, o: Options, itmax: int, p0: Vec, r: Run, stop: int, k: nat, nlss: nat)
    requires GoodProblem(pb) && |p0| == pb.m
  {
    && r.reason == stop && nlss == SolvedBy(r) && Steps(pb, o, r) && k == Rounds(r)
    && if stop != 0 then IsRun(pb, o, itmax, p0, r)
       else pb.finite(Cost(pb, p0)) && r.points[0] == p0 && r.last == 0 && k <= if itmax >= 0 then itmax else 0
  }

  /** The run goes on by a step. */
  function Onwards(r: Run, v: Vec, mu: real, vain: nat): (r': Run) {
    r.(points := r.points + [v], mus := r.mus + [mu], vain := r.vain + [vain])
  }

  lemma {:induction false} ReachedMore(pb: Problem, o: Options, itmax: int, p0: Vec, r: Run, k: nat, nlss: nat, v: Vec,
                                       mu: real, vain: nat)
    requires GoodProblem(pb) && |p0| == pb.m && Reached(pb, o, itmax, p0, r, 0, k, nlss) && k < itmax
    requires |EndOf(r).0| == pb.m && StepTo(pb, o, EndOf(r).0, EndOf(r).1, vain, v, mu)
    ensures Reached(pb, o, itmax, p0, Onwards(r, v, mu, vain), 0, k + 1, nlss + vain + 1)
    ensures EndOf(Onwards(r, v, mu, vain)) == (v, mu)
  {
    var r' := Onwards(r, v, mu, vain);
    forall i: nat | i < |r'.vain| ensures StepAt(pb, o, r', i) {
      if i < |r.vain| { assert StepAt(pb, o, r, i); }
    }
    assert r'.vain[..|r'.vain| - 1] == r.vain;
  }

  lemma {:induction false} ReachedEnd(pb: Problem, o: Options, itmax: int, p0: Vec, r: Run, k: nat, nlss: nat,
                                      stop: int, vain: nat)
    requires GoodProblem(pb) && |p0| == pb.m && Reached(pb, o, itmax, p0, r, 0, k, nlss) && k < itmax
    requires |EndOf(r).0| == pb.m && EndsAt(pb, o, EndOf(r).0, EndOf(r).1, vain, stop)
    requires stop in {1, 2, 4, 5, 6, 7} && (stop == 7 ==> vain < 30)
    ensures Reached(pb, o, itmax, p0, r.(reason := stop, last := vain), stop,
                    if stop in {1, 6} then k else k + 1, nlss + SolvesAt(stop, vain))
  {
    var r' := r.(reason := stop, last := vain);
    forall i: nat | i < |r'.vain| ensures StepAt(pb, o, r', i) { assert StepAt(pb, o, r, i); }
  }

  /** The state between two outer iterations; the damping is open before the first and after
      the last. */
  ghost predicate Between(w: Work, pb: Problem, cost: real, open: bool, mu: real, r: Run)
    reads w.p, w.e
    requires w.Shape() && GoodProblem(pb) && pb.m == w.m && pb.n == w.n
  {
    && w.Current(pb, cost) && |r.points| == |r.mus| > 0 && EndOf(r).0 == w.p[..] && (open || mu == EndOf(r).1)
  }

  lemma {:induction false} BeginsRun(pb: Problem, o: Options, itmax: int, p0: Vec, mu0: real)
    requires GoodProblem(pb) && |p0| == pb.m && BeginsWith(pb, o, p0, mu0)
    ensures pb.finite(Cost(pb, p0)) ==> Reached(pb, o, itmax, p0, Run([p0], [mu0], [], 0, 0), 0, 0, 0)
    ensures !pb.finite(Cost(pb, p0)) ==> Reached(pb, o, itmax, p0, Run([p0], [mu0], [], 7, 30), 7, 0, 0)
  {
  }

  lemma {:induction false} LimitReached(pb: Problem, o: Options, itmax: int, p0: Vec, r: Run, k: nat, nlss: nat)
    requires GoodProblem(pb) && |p0| == pb.m && Reached(pb, o, itmax, p0, r, 0, k, nlss) && k >= itmax
    ensures IsRun(pb, o, itmax, p0, r)
  {
  }

  /** One turn of the outer loop; `more` says that the iteration is counted. */
  method Round(w: Work, pb: Problem, itmax: int, o: Options, k: nat, mu0: real, cost0: real, nlss0: nat,
               ghost p0: Vec, ghost r0: Run)
    returns (stop: int, mu: real, cost: real, nlss: nat, more: bool, ghost r: Run)
    requires w.Shape() && GoodProblem(pb) && pb.m == w.m && pb.n == w.n && o.epsilon > 0.0 && |p0| == pb.m
    requires k < itmax && Reached(pb, o, itmax, p0, r0, 0, k, nlss0) && Between(w, pb, cost0, k == 0, mu0, r0)
    modifies w.p, w.e, w.hx, w.g, w.dp, w.pdp, w.diag, w.a
    ensures var k' := if more then k + 1 else k;
            Reached(pb, o, itmax, p0, r, stop, k', nlss) && Between(w, pb, cost, stop != 0, mu, r)
    ensures !more ==> stop != 0
  {
    ghost var vain, v := 0, EndOf(r0);
    var solves;
    StartsAs(pb, o, itmax, p0, r0, k, nlss0);
    stop, mu, cost, solves, vain := Iterate(w, pb, o, k == 0, mu0, cost0, v.1);
    nlss, more := nlss0 + solves, stop != 1 && stop != 6;
    if stop == 0 {
      ReachedMore(pb, o, itmax, p0, r0, k, nlss0, w.p[..], mu, vain);
      r := Onwards(r0, w.p[..], mu, vain);
    } else {
      ReachedEnd(pb, o, itmax, p0, r0, k, nlss0, stop, vain);
      r := r0.(reason := stop, last := vain);
    }
  }

  /** The first iteration begins with the first damping. */
  lemma {:induction false} StartsAs(pb: Problem, o: Options, itmax: int, p0: Vec, r: Run, k: nat, nlss: nat)
    requires GoodProblem(pb) && |p0| == pb.m && Reached(pb, o, itmax, p0, r, 0, k, nlss)
    ensures k == 0 ==> EndOf(r).0 == p0 && BeginsWith(pb, o, p0, EndOf(r).1)
  {
  }

  /** The outer loop, on allocated work arrays. */
  method Minimise(w: Work, pb: Problem, itmax: int, o: Options)
    returns (res: int, stop: int, k: nat, nlss: nat, ghost r: Run)
    requires w.Shape() && GoodProblem(pb) && pb.m == w.m && pb.n == w.n && o.epsilon > 0.0
    modifies w.p, w.e, w.hx, w.g, w.dp, w.pdp, w.diag, w.a
    ensures IsRun(pb, o, itmax, old(w.p[..]), r) && EndOf(r).0 == w.p[..] && k == Rounds(r) && nlss == SolvedBy(r)
    ensures stop == if k >= itmax then 3 else r.reason
    ensures res == if stop == 4 || stop == 7 then LM_ERROR else k
  {
    ghost var p0 := w.p[..];
    stop, k, nlss := 0, 0, 0;
    var cost := w.Start(pb);
    ghost var mu0 := Beginning(pb, o, p0);
    BeginsRun(pb, o, itmax, p0, mu0);
    r := Run([p0], [mu0], [], 0, 0);
    if !pb.finite(cost) { stop, r := 7, Run([p0], [mu0], [], 7, 30); }
    var mu := 0.0;
    while k < itmax && stop == 0
      invariant Reached(pb, o, itmax, p0, r, stop, k, nlss) && Between(w, pb, cost, k == 0 || stop != 0, mu, r)
      decreases itmax - k, stop == 0
    {
      var more;
      stop, mu, cost, nlss, more, r := Round(w, pb, itmax, o, k, mu, cost, nlss, p0, r);
      if !more { break; }
      k := k + 1;
    }
    if stop == 0 { LimitReached(pb, o, itmax, p0, r, k, nlss); }
    if k >= itmax { stop := 3; }
    res := if stop != 4 && stop != 7 then k else LM_ERROR;
  }

  /** LEVMAR_DER: it makes the run from p, and p becomes its last point. Every step of it
      lowers the cost, and an iteration needs thirty solves at most. */
  method LevmarDer(pb: Problem, p: array<real>, itmax: int, o: Options)
    returns (res: int, stop: int, k: nat, nlss: nat, ghost r: Run)
    requires GoodProblem(pb) && p.Length == pb.m && o.epsilon > 0.0
    modifies p
    ensures pb.n < pb.m ==> res == LM_ERROR && p[..] == old(p[..])
    ensures pb.n >= pb.m ==>
      && IsRun(pb, o, itmax, old(p[..]), r) && p[..] == r.points[|r.points| - 1] && Descending(pb, r.points)
      && k == Rounds(r) && nlss == SolvedBy(r) && nlss <= 30 * k && (itmax >= 0 ==> k <= itmax)
      && stop == (if k >= itmax then 3 else r.reason) && stop in {1, 2, 3, 4, 5, 6, 7}
      && res == if stop == 4 || stop == 7 then LM_ERROR else k
  {
    stop, k, nlss, r := 0, 0, 0, Run([], [], [], 0, 0);
    if pb.n < pb.m { return LM_ERROR, stop, k, nlss, r; }
    var w := new Work(pb.m, pb.n, p);
    res, stop, k, nlss, r := Minimise(w, pb, itmax, o);
    StepsDescend(pb, o, r);
    assert p[..] == r.points[|r.points| - 1];
    RunBound(pb, o, itmax, old(p[..]), r);
  }
}

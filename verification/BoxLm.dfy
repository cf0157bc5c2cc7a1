/**
 The box-constrained Levenberg-Marquardt iteration
 (touchscreen_drv/levmar-2.5/lmbc_core.c, LEVMAR_BC_DER): damped steps, line searches and
 projected-gradient steps, none of which leaves the box.
 */
module BoxLm {
  import opened LinearAlgebra
  import opened NormalEquations
  import opened Box
  import opened LmDer
  import opened LineSearch
  import opened GradientSearch
  import LmRun
  import LuSolve

  const GAMMA := 0.99995
  const RHO := 0.00000001

  ghost predicate GoodBoxOptions(o: Options) { GoodOptions(o) && o.eps3 >= 0.0 }

  // ----- one iteration -----

  /** LEVMAR_BOX_CHECK */
  method BoxCheck(lb: Bound, ub: Bound, m: nat) returns (ok: bool)
    requires IsBound(lb, m) && IsBound(ub, m)
    ensures ok <==> IsBox(lb, ub, m)
  {
    if lb.None? || ub.None? { return true; }
    for i := 0 to m
      invariant forall k :: 0 <= k < i ==> lb.at[k] <= ub.at[k]
    {
      if lb.at[i] > ub.at[i] { return false; }
    }
    ok := true;
  }

  lemma {:induction false} MaxAbsAt(g: Vec, n: nat, i: nat)
    requires i < n <= |g|
    ensures Abs(g[i]) <= MaxAbs(g, n)
  {
    if i < n - 1 { MaxAbsAt(g, n - 1, i); }
  }

  /** The test for convergence, which looks at the signs of the active coordinates and the
      size of the free ones; it also saves the diagonal and sums up |p|^2. */
  method Converged(w: Work, eps1: real, lb: Bound, ub: Bound, ghost a0: Mat) returns (converged: bool, pL2: real)
    requires w.Shape() && IsBox(lb, ub, w.m) && IsMat(a0, w.m, w.m) && LuSolve.Holds(w.a, a0)
    modifies w.diag
    ensures pL2 == Norm2(w.p[..]) && w.diag[..] == LmDer.Diagonal(a0, w.m)
    ensures converged ==> AllStationary(w.p[..], w.g[..], lb, ub, eps1)
    ensures eps1 >= 0.0 && AllStationary(w.p[..], w.g[..], lb, ub, eps1) ==> converged
  {
    var j, numactive := 0, 0;
    var inf := 0.0;
    pL2 := 0.0;
    for i := 0 to w.m
      invariant j <= numactive && inf >= 0.0 && pL2 == Dot(w.p[..], w.p[..], i)
      invariant j == numactive && inf <= eps1 ==> forall k :: 0 <= k < i ==> Stationary(w.p[k], w.g[k], lb, ub, k, eps1)
      invariant eps1 >= 0.0 && (forall k :: 0 <= k < i ==> Stationary(w.p[k], w.g[k], lb, ub, k, eps1))
                ==> j == numactive && inf <= eps1
      invariant forall k :: 0 <= k < i ==> w.diag[k] == a0[k][k]
    {
      ghost var was := j == numactive && inf <= eps1;
      if ub.Some? && w.p[i] == ub.at[i] {
        numactive := numactive + 1;
        if w.g[i] > 0.0 { j := j + 1; }
      } else if lb.Some? && w.p[i] == lb.at[i] {
        numactive := numactive + 1;
        if w.g[i] < 0.0 { j := j + 1; }
      } else if inf < Abs(w.g[i]) {
        inf := Abs(w.g[i]);
      }
      w.diag[i] := w.a[i, i];
      pL2 := pL2 + w.p[i] * w.p[i];
    }
    converged := j == numactive && inf <= eps1;
    assert w.diag[..] == LmDer.Diagonal(a0, w.m);
  }

  /** The damped increment, projected: pDp is feasible and Dp leads to it. */
  method BoxIncrement(w: Work, lb: Bound, ub: Bound) returns (dpL2: real)
    requires w.Shape() && IsBox(lb, ub, w.m)
    modifies w.pdp, w.dp
    ensures w.pdp[..] == Projected(Add(w.p[..], old(w.dp[..])), lb, ub) && InBox(w.pdp[..], lb, ub)
    ensures w.dp[..] == Sub(w.pdp[..], w.p[..]) && dpL2 == Norm2(w.dp[..])
  {
    ghost var v := Add(w.p[..], w.dp[..]);
    for i := 0 to w.m
      invariant forall k :: 0 <= k < i ==> w.pdp[k] == v[k]
      modifies w.pdp
    {
      w.pdp[i] := w.p[i] + w.dp[i];
    }
    assert w.pdp[..] == v;
    BoxProject(w.pdp, lb, ub);
    ProjectedInBox(v, lb, ub);
    StepBetween(w);
    dpL2 := SquaredStep(w);
  }

  method SquaredStep(w: Work) returns (s: real)
    requires w.Shape()
    ensures s == Norm2(w.dp[..])
  {
    s := 0.0;
    for i := 0 to w.m
      invariant s == Dot(w.dp[..], w.dp[..], i)
    {
      s := s + w.dp[i] * w.dp[i];
    }
  }

  ghost function Negated(g: Vec): (r: Vec)
    ensures |r| == |g|
  {
    seq(|g|, i requires 0 <= i < |g| => -g[i])
  }

  /** jacTe becomes the gradient of half the error. */
  method Negate(g: array<real>)
    modifies g
    ensures g[..] == Negated(old(g[..]))
  {
    ghost var r := Negated(g[..]);
    for i := 0 to g.Length
      invariant forall k :: 0 <= k < i ==> g[k] == r[k]
      invariant forall k :: i <= k < g.Length ==> g[k] == old(g[k])
    {
      g[i] := -g[i];
    }
    assert g[..] == r;
  }

  /** The damping after an accepted damped step. */
  method BoxDamping(mu: real, dF: real, dL: real, trial: real) returns (mu': real)
    requires trial >= 0.0
    ensures mu > 0.0 ==> mu' > 0.0 || trial == 0.0
    ensures dL > 0.0 ==> mu' == NextMu(mu, dF, dL)
    ensures dL <= 0.0 ==> mu' == if mu >= trial then trial else mu
  {
    if dL > 0.0 {
      mu' := NextDamping(mu, dF, dL);
    } else {
      mu' := if mu >= trial then trial else mu;
    }
  }

  /** What one iteration leaves to the next besides the parameters. */
  datatype Mood = Mood(mu: real, nu: int, t: real, gprev: bool)

  ghost predicate GoodMood(d: Mood) { 2 <= d.nu < 0x8000_0000 && d.t <= 1.0 }

  /** How a step was found; a projected-gradient search may have run out of step lengths. */
  datatype Kind = Damping | Searched | Projecting(exhausted: bool)

  predicate Exhausted(k: Kind) { k.Projecting? && k.exhausted }

  /** The outcome of an iteration; `leave` says that the outer loop ends without counting
      it. */
  datatype Step = Moved(mood: Mood, cost: real, kind: Kind) | Halted(mood: Mood, stop: int, leave: bool)

  /** Solves with growing damping until a solution exists; with positive damping the first
      attempt succeeds. */
  method SolveDamped(w: Work, mu0: real, nu0: int, ghost jac: Mat) returns (ok: bool, mu: real, nu: int)
    requires w.Shape() && IsMat(jac, w.n, w.m) && w.Normal(jac) && 2 <= nu0 < 0x8000_0000
    modifies w.a, w.dp
    ensures 2 <= nu < 0x8000_0000
    ensures mu0 > 0.0 ==> ok && mu == mu0
    ensures ok && mu > 0.0 ==> Solves(Damped(jac, w.m, mu), w.dp[..], w.g[..])
  {
    mu, nu := mu0, nu0;
    while true
      invariant w.Normal(jac) && 2 <= nu < 0x8000_0000 && (mu0 > 0.0 ==> mu == mu0)
      decreases 0x8000_0000 - nu
    {
      ok := w.Solve(mu, jac);
      if ok { return; }
      ghost var used := mu;
      mu := mu * nu as real;
      var nu2 := Double32(nu);
      if nu2 <= nu { return; }
      nu := nu2;
      w.Restore(used, jac);
    }
  }

  ghost predicate Here(w: Work, pb: Problem, cost: real, lb: Bound, ub: Bound)
    reads w.p, w.e
    requires w.Shape() && GoodProblem(pb) && pb.m == w.m && pb.n == w.n
  {
    w.Current(pb, cost) && InBox(w.p[..], lb, ub)
  }

  /** The trial becomes the current point, unless the change is too small. */
  method TakeTrial(w: Work, pb: Problem, o: Options, mood: Mood, cost0: real, trial: real, pL2: real, kind: Kind,
                   lb: Bound, ub: Bound)
    returns (out: Step)
    requires w.Shape() && GoodProblem(pb) && pb.m == w.m && pb.n == w.n
    requires Here(w, pb, cost0, lb, ub) && Trial(w, pb, trial, lb, ub) && pL2 == Norm2(w.p[..]) && o.epsilon > 0.0
    requires !Exhausted(kind) && Norm2(Sub(w.pdp[..], w.p[..])) > 0.0 ==> trial < cost0
    modifies w.p, w.e, w.dp
    ensures out.Moved? ==> Here(w, pb, out.cost, lb, ub) && out.kind == kind && (!Exhausted(kind) ==> out.cost < cost0)
    ensures out.Moved? ==> w.p[..] == w.pdp[..] && out.cost == trial
    ensures out.Halted? ==> out.stop == 2 && Here(w, pb, cost0, lb, ub) && w.p[..] == old(w.p[..])
    ensures out.mood == mood && (out.Halted? <==> SmallStep(Norm2(w.dp[..]), pL2, o.eps2))
            && w.dp[..] == Sub(w.pdp[..], old(w.p[..]))
  {
    StepBetween(w);
    var dpL2 := SquaredStep(w);
    if SmallStep(dpL2, pL2, o.eps2) { return Halted(mood, 2, false); }
    StepNonzero(dpL2, o.eps2, w.p[..]);
    w.Accept();
    out := Moved(mood, trial, kind);
  }

  /** What the trial in place has to do with a stop. */
  ghost predicate StopReason(pb: Problem, o: Options, stop: int, pL2: real, p: Vec, v: Vec)
    requires GoodProblem(pb) && |p| == |v| == pb.m && o.epsilon > 0.0
  {
    && (stop == 2 ==> SmallStep(Norm2(Sub(v, p)), pL2, o.eps2))
    && (stop == 4 ==> AlmostSingular(Norm2(Sub(v, p)), pL2, o))
    && (stop == 7 ==> !pb.finite(Cost(pb, v)))
  }

  /** The projected step is steep enough for a line search. */
  predicate Downhill(slope: real, lib: Library, dpL2: real) { slope <= -Prod(RHO, lib.pow(dpL2)) }

  /** The projected-gradient search of an iteration, with the trial in place when it begins. */
  ghost function PlanFrom(lib: Library, before: Mood, y: Ray, trial: Vec): (f: Plan)
    requires GoodLibrary(lib)
  {
    Plan(before.gprev, before.t, StartLength(y.g, lib), trial)
  }

  /** A step that ends a projected-gradient search is marked as exhausted exactly when the
      lengths of the search run out, and hands its length to the next search. It leads to the
      final point of the search then, and to the point of its length otherwise; a step without
      such a search leads to the trial in place. */
  ghost predicate KindMatches(pb: Problem, lib: Library, before: Mood, y: Ray, out: Step, trial: Vec, v: Vec)
    requires GoodRay(pb, y) && GoodLibrary(lib) && GoodMood(before) && out.Moved?
  {
    && (out.kind.Projecting? <==> out.mood.gprev)
    && (out.kind.Projecting?
        ==> (out.kind.exhausted <==> RunsOut(pb, y, before.gprev, before.t, StartLength(y.g, lib))))
    && (out.kind.Projecting? ==> (out.kind.exhausted <==> out.mood.t <= TMING))
    && v == (if !out.kind.Projecting? then trial
             else if out.kind.exhausted then FinalPoint(pb, y, PlanFrom(lib, before, y, trial))
             else PointAt(y, out.mood.t))
  }

  /** The longest step that the line search may take. */
  function StepLimit(lib: Library, pL2: real): (r: real)
    ensures r > 0.0
  {
    1000.0 * (if lib.sqrt(pL2) >= 1.0 then lib.sqrt(pL2) else 1.0)
  }

  /** A trial point of the line search from p along d. */
  ghost predicate SearchPoint(lib: Library, p: Vec, d: Vec, pL2: real, steptl: real, v: Vec)
    requires |p| == |d|
  {
    var e := Scaled(d, StepScale(lib, d, StepLimit(lib, pL2)));
    exists r: real :: 0.0 < r <= 1.0 && v == Along(p, e, r) && LongEnough(p, e, r, steptl)
  }

  /** The first trials of an iteration: the projected damped step q, or a trial of the line
      search towards it. */
  ghost predicate FirstTrial(lib: Library, y: Ray, q: Vec, pL2: real, steptl: real, v: Vec)
    requires |y.p| == |y.g| == |q|
  {
    v == q || SearchPoint(lib, y.p, Sub(q, y.p), pL2, steptl, v)
  }

  // ----- how a step is chosen -----

  /** The damping mu' after a damped step that lowers the error by dF to `trial`, where the
      linear model promises the given gain: multiplied by 1 - (2 r - 1)^3 for the ratio r of
      both, and by a third at least; without a promise, the smaller of it and the error. */
  ghost predicate MuAfter(mu: real, dF: real, gain: real, trial: real, mu': real) {
    if gain > 0.0 then
      exists r: real, f: real :: Prod(r, gain) == dF && LmRun.FactorOf(2.0 * r - 1.0, f) && mu' == Prod(mu, f)
    else mu' == if mu >= trial then trial else mu
  }

  /** The line search from y.p along d ends at v. It has found its step exactly when half the
      error there is lower by at least a tenthousandth of what the slope promises. */
  ghost predicate SearchEnds(pb: Problem, lib: Library, y: Ray, d: Vec, pL2: real, steptl: real, v: Vec, found: bool)
    requires |y.p| == |y.g| == |d| == pb.m && GoodProblem(pb)
  {
    var e := Scaled(d, StepScale(lib, d, StepLimit(lib, pL2)));
    exists r: real :: 0.0 < r <= 1.0 && v == Along(y.p, e, r) && LongEnough(y.p, e, r, steptl)
      && (found <==> 0.5 * Cost(pb, v) <= 0.5 * y.cost + Dot(y.g, e, pb.m) * 0.0001 * r)
  }

  /** The way on from a damped step that does not lower the error enough: a line search if the
      projected step d goes downhill, the projected gradient otherwise. */
  ghost predicate OtherwiseBy(pb: Problem, lib: Library, y: Ray, q: Vec, pL2: real, steptl: real, kind: Kind,
                              first: Vec)
    requires |y.p| == |y.g| == |q| == pb.m && GoodProblem(pb)
  {
    var d := Sub(q, y.p);
    && !kind.Damping?
    && if Dot(y.g, d, |y.p|) <= -Prod(0.00000001, lib.pow(Norm2(d)))
       then SearchEnds(pb, lib, y, d, pL2, steptl, first, kind.Searched?)
       else first == q && kind.Projecting?
  }

  /** What an iteration from y.p makes of its projected damped step to q: it is the step, and
      sets the damping, exactly when it brings the error below 0.99995^2 of what it was. The
      other kinds of step leave the damping alone. */
  ghost predicate ChosenBy(pb: Problem, lib: Library, y: Ray, q: Vec, pL2: real, steptl: real, mu: real, kind: Kind,
                           first: Vec, mu': real)
    requires |y.p| == |y.g| == |q| && |q| == pb.m && GoodProblem(pb)
  {
    var d := Sub(q, y.p);
    if Cost(pb, q) <= 0.99995 * 0.99995 * y.cost then
      kind.Damping? && first == q
      && MuAfter(mu, y.cost - Cost(pb, q), Prod(mu, Norm2(d)) - Dot(y.g, d, |y.p|), Cost(pb, q), mu')
    else mu' == mu && OtherwiseBy(pb, lib, y, q, pL2, steptl, kind, first)
  }

  lemma {:induction false} SearchEnded(pb: Problem, lib: Library, y: Ray, d: Vec, pL2: real, steptl: real, e: Vec,
                                       r: real, v: Vec, found: bool)
    requires |y.p| == |y.g| == |d| == pb.m && GoodProblem(pb) && 0.0 < r <= 1.0
    requires e == Scaled(d, StepScale(lib, d, StepLimit(lib, pL2)))
    requires v == Along(y.p, e, r) && LongEnough(y.p, e, r, steptl)
    requires found <==> Enough(0.5 * Cost(pb, v), 0.5 * y.cost, Dot(y.g, e, pb.m), ALPHA, r)
    ensures SearchEnds(pb, lib, y, d, pL2, steptl, v, found)
  {
  }

  lemma {:induction false} SearchTried(pb: Problem, lib: Library, y: Ray, d: Vec, pL2: real, steptl: real, v: Vec,
                                       found: bool)
    requires |y.p| == |y.g| == |d| == pb.m && GoodProblem(pb) && SearchEnds(pb, lib, y, d, pL2, steptl, v, found)
    ensures SearchPoint(lib, y.p, d, pL2, steptl, v)
  {
  }

  /** The kind of a step that is not the damped one leaves the damping alone. */
  lemma {:induction false} OtherwiseChosen(pb: Problem, lib: Library, y: Ray, q: Vec, pL2: real, steptl: real, mu: real,
                                           kind: Kind, first: Vec)
    requires |y.p| == |y.g| == |q| == pb.m && GoodProblem(pb) && Cost(pb, q) > GAMMA * GAMMA * y.cost
    requires OtherwiseBy(pb, lib, y, q, pL2, steptl, kind, first)
    ensures ChosenBy(pb, lib, y, q, pL2, steptl, mu, kind, first, mu)
  {
  }

  lemma {:induction false} NegatedDot(g: Vec, d: Vec, n: nat)
    requires n <= |g| == |d|
    ensures Dot(Negated(g), d, n) == -Dot(g, d, n)
  {
    if n > 0 { NegatedDot(g, d, n - 1); }
  }

  /** The damping after a damped step is the one that the gain asks for. */
  lemma {:induction false} DampingChosen(pb: Problem, lib: Library, p: Vec, g: Vec, cost0: real, lb: Bound, ub: Bound,
                                         q: Vec, pL2: real, steptl: real, mu: real, mu': real)
    requires GoodProblem(pb) && |p| == |g| == |q| == pb.m && Cost(pb, q) <= GAMMA * GAMMA * cost0
    requires var dL := Gain(Sub(q, p), mu, g); var dF, trial := cost0 - Cost(pb, q), Cost(pb, q);
             if dL > 0.0 then mu' == NextMu(mu, dF, dL) else mu' == if mu >= trial then trial else mu
    ensures ChosenBy(pb, lib, Ray(p, Negated(g), cost0, lb, ub), q, pL2, steptl, mu, Damping, q, mu')
  {
    var d := Sub(q, p);
    GainSplit(d, mu, g);
    NegatedDot(g, d, |p|);
    if Gain(d, mu, g) > 0.0 { var r, f := LmRun.NextIs(mu, cost0 - Cost(pb, q), Gain(d, mu, g), mu'); }
  }

  /** The points that an iteration may end at: the projected damped step q, a trial of the
      line search towards it, or one of the projected gradient. */
  ghost predicate Candidate(lib: Library, y: Ray, q: Vec, pL2: real, steptl: real, v: Vec)
    requires |y.p| == |y.g| == |q| && IsBound(y.lb, |y.p|) && IsBound(y.ub, |y.p|)
  {
    FirstTrial(lib, y, q, pL2, steptl, v) || exists t: real :: TMING < t <= 1.0 && v == PointAt(y, t)
  }

  /** The line search and the projected gradient, after a damped step that did not lower
      the error enough. */
  method Fallback(w: Work, pb: Problem, o: Options, lib: Library, mood: Mood, cost0: real, trial0: real, pL2: real,
                  dpL2: real, steptl: real,
                  lb: Bound, ub: Bound) returns (out: Step, ghost first: Vec)
    requires w.Shape() && GoodProblem(pb) && pb.m == w.m && pb.n == w.n && GoodLibrary(lib) && o.epsilon > 0.0
             && GoodMood(mood)
    requires IsBox(lb, ub, w.m) && Here(w, pb, cost0, lb, ub) && Trial(w, pb, trial0, lb, ub) && pL2 == Norm2(w.p[..])
    requires w.dp[..] == Sub(w.pdp[..], w.p[..]) && dpL2 == Norm2(w.dp[..]) > 0.0
    modifies w.p, w.e, w.dp, w.pdp, w.hx, w.g
    ensures GoodMood(out.mood) && out.mood.mu == mood.mu
    ensures out.Moved?
            ==> Here(w, pb, out.cost, lb, ub) && (!Exhausted(out.kind) ==> out.cost < cost0) && !out.kind.Damping?
    ensures out.Moved? ==> OtherwiseBy(pb, lib, Ray(old(w.p[..]), w.g[..], cost0, lb, ub), old(w.pdp[..]), pL2,
                                       steptl, out.kind, first)
    ensures out.Moved? && out.kind.Projecting? && !out.kind.exhausted
            ==> w.p[..] == GradientPoint(old(w.p[..]), w.g[..], out.mood.t, lb, ub)
    ensures w.g[..] == Negated(old(w.g[..]))
    ensures Candidate(lib, Ray(old(w.p[..]), w.g[..], cost0, lb, ub), old(w.pdp[..]), pL2, steptl, w.pdp[..])
    ensures out.Moved? ==> w.p[..] == w.pdp[..]
    ensures out.Halted? ==> StopReason(pb, o, out.stop, pL2, old(w.p[..]), w.pdp[..])
    ensures FirstTrial(lib, Ray(old(w.p[..]), w.g[..], cost0, lb, ub), old(w.pdp[..]), pL2, steptl, first)
    ensures out.Moved? ==> KindMatches(pb, lib, mood, Ray(old(w.p[..]), w.g[..], cost0, lb, ub), out, first, w.pdp[..])
    ensures out.Halted? ==> out.stop in {2, 7} && Here(w, pb, cost0, lb, ub) && w.p[..] == old(w.p[..])
  {
    Negate(w.g);
    var slope := Slope(w);
    var trial := trial0;
    first := w.pdp[..];
    if Downhill(slope, lib, dpL2) {
      var found;
      ghost var y, d := Ray(w.p[..], w.g[..], cost0, lb, ub), w.dp[..];
      found, trial := TryLineSearch(w, pb, lib, cost0, slope, dpL2, pL2, steptl, lb, ub);
      first := w.pdp[..];
      SearchTried(pb, lib, y, d, pL2, steptl, first, found);
      if found {
        out := TakeTrial(w, pb, o, mood.(gprev := false), cost0, trial, pL2, Searched, lb, ub);
        return;
      }
    }
    out := GradientStep(w, pb, o, lib, mood, cost0, trial, pL2, lb, ub);
  }

  /** The projected-gradient search and its step. */
  method GradientStep(w: Work, pb: Problem, o: Options, lib: Library, mood: Mood, cost0: real, trial0: real,
                      pL2: real, lb: Bound, ub: Bound)
    returns (out: Step)
    requires w.Shape() && GoodProblem(pb) && pb.m == w.m && pb.n == w.n && GoodLibrary(lib) && o.epsilon > 0.0
             && GoodMood(mood)
    requires IsBox(lb, ub, w.m) && Here(w, pb, cost0, lb, ub) && Trial(w, pb, trial0, lb, ub) && pL2 == Norm2(w.p[..])
    modifies w.p, w.e, w.dp, w.pdp, w.hx
    ensures GoodMood(out.mood) && out.mood.mu == mood.mu
    ensures out.Moved?
            ==> Here(w, pb, out.cost, lb, ub) && (!Exhausted(out.kind) ==> out.cost < cost0) && out.kind.Projecting?
    ensures out.Moved? && !out.kind.exhausted ==> w.p[..] == GradientPoint(old(w.p[..]), w.g[..], out.mood.t, lb, ub)
    ensures Tried(w.pdp[..], Ray(old(w.p[..]), w.g[..], cost0, lb, ub), old(w.pdp[..]))
    ensures out.Moved? ==> w.p[..] == w.pdp[..]
    ensures out.Halted? ==> StopReason(pb, o, out.stop, pL2, old(w.p[..]), w.pdp[..])
    ensures out.Moved? ==> KindMatches(pb, lib, mood, Ray(old(w.p[..]), w.g[..], cost0, lb, ub), out,
                                       old(w.pdp[..]), w.pdp[..])
    ensures out.Halted? ==> out.stop in {2, 7} && Here(w, pb, cost0, lb, ub) && w.p[..] == old(w.p[..])
  {
    var t, trial, exhausted, finite := ProjectedGradient(w, pb, lib, cost0, trial0, mood.t, mood.gprev, lb, ub);
    if !finite { return Halted(mood.(t := t), 7, true); }
    out := TakeTrial(w, pb, o, mood.(t := t, gprev := true), cost0, trial, pL2, Projecting(exhausted), lb, ub);
  }

  /** The line search along the projected step. */
  method TryLineSearch(w: Work, pb: Problem, lib: Library, cost0: real, ghost slope: real, ghost dpL2: real,
                       pL2: real, steptl: real, lb: Bound, ub: Bound)
    returns (found: bool, trial: real)
    requires w.Shape() && GoodProblem(pb) && pb.m == w.m && pb.n == w.n && GoodLibrary(lib)
    requires cost0 == Cost(pb, w.p[..]) && InBox(w.p[..], lb, ub) && InBox(w.pdp[..], lb, ub)
             && w.dp[..] == Sub(w.pdp[..], w.p[..])
    requires dpL2 > 0.0 && slope == Dot(w.g[..], w.dp[..], w.m) && Downhill(slope, lib, dpL2)
    modifies w.dp, w.pdp, w.hx
    ensures Trial(w, pb, trial, lb, ub) && (found ==> trial < cost0)
    ensures SearchEnds(pb, lib, Ray(w.p[..], w.g[..], cost0, lb, ub), old(w.dp[..]), pL2, steptl, w.pdp[..], found)
  {
    var stepmx := StepLimit(lib, pL2);
    assert Add(w.p[..], w.dp[..]) == w.pdp[..];
    assert slope < 0.0 by { ProdPositive(RHO, lib.pow(dpL2)); }
    found, trial := SearchAlong(w, pb, lib, cost0, stepmx, pL2, steptl, lb, ub);
  }

  /** ... when it goes downhill. */
  method SearchAlong(w: Work, pb: Problem, lib: Library, cost0: real, stepmx: real, ghost pL2: real, steptl: real,
                     lb: Bound, ub: Bound)
    returns (found: bool, trial: real)
    requires w.Shape() && GoodProblem(pb) && pb.m == w.m && pb.n == w.n
    requires cost0 == Cost(pb, w.p[..]) && InBox(w.p[..], lb, ub) && InBox(Add(w.p[..], w.dp[..]), lb, ub)
    requires Dot(w.g[..], w.dp[..], w.m) < 0.0 && stepmx == StepLimit(lib, pL2)
    modifies w.dp, w.pdp, w.hx
    ensures Trial(w, pb, trial, lb, ub) && (found ==> trial < cost0)
    ensures SearchEnds(pb, lib, Ray(w.p[..], w.g[..], cost0, lb, ub), old(w.dp[..]), pL2, steptl, w.pdp[..], found)
  {
    ghost var d := w.dp[..];
    var iretcd;
    ghost var ratio;
    iretcd, trial, ratio := Lnsrch(w, pb, lib, cost0, ALPHA, stepmx, steptl, lb, ub);
    found := iretcd == 0;
    SearchEnded(pb, lib, Ray(w.p[..], w.g[..], cost0, lb, ub), d, pL2, steptl, w.dp[..], ratio, w.pdp[..], found);
  }

  /** The tests on the projected increment. */
  method JudgeBox(w: Work, pb: Problem, o: Options, lib: Library, mood: Mood, cost0: real, pL2: real, steptl: real,
                  lb: Bound, ub: Bound)
    returns (out: Step, ghost first: Vec)
    requires w.Shape() && GoodProblem(pb) && pb.m == w.m && pb.n == w.n && GoodLibrary(lib) && o.epsilon > 0.0
             && GoodMood(mood)
    requires IsBox(lb, ub, w.m) && Here(w, pb, cost0, lb, ub) && pL2 == Norm2(w.p[..])
    modifies w.p, w.e, w.dp, w.pdp, w.hx, w.g
    ensures GoodMood(out.mood)
    ensures out.Moved? ==> Here(w, pb, out.cost, lb, ub)
    ensures out.Moved? && mood.mu > 0.0 ==> out.mood.mu > 0.0 || out.cost == 0.0
    ensures out.Moved? && !Exhausted(out.kind) && cost0 > 0.0 ==> out.cost < cost0
    ensures out.Moved? ==> ChosenBy(pb, lib, Ray(old(w.p[..]), Negated(old(w.g[..])), cost0, lb, ub),
                                    Projected(Add(old(w.p[..]), old(w.dp[..])), lb, ub), pL2, steptl, mood.mu,
                                    out.kind, first, out.mood.mu)
    ensures FirstTrial(lib, Ray(old(w.p[..]), Negated(old(w.g[..])), cost0, lb, ub),
                       Projected(Add(old(w.p[..]), old(w.dp[..])), lb, ub), pL2, steptl, first)
    ensures out.Moved? ==> KindMatches(pb, lib, mood, Ray(old(w.p[..]), Negated(old(w.g[..])), cost0, lb, ub), out,
                                       first, w.pdp[..])
    ensures out.Halted? ==> out.mood.mu == mood.mu
    ensures Candidate(lib, Ray(old(w.p[..]), Negated(old(w.g[..])), cost0, lb, ub),
                      Projected(Add(old(w.p[..]), old(w.dp[..])), lb, ub), pL2, steptl, w.pdp[..])
    ensures out.Moved? ==> w.p[..] == w.pdp[..]
    ensures out.Halted? ==> StopReason(pb, o, out.stop, pL2, old(w.p[..]), w.pdp[..])
    ensures out.Halted? ==> out.stop in {2, 4, 7} && Here(w, pb, cost0, lb, ub) && w.p[..] == old(w.p[..])
  {
    var dpL2 := BoxIncrement(w, lb, ub);
    first := w.pdp[..];
    var stop := TestStep(dpL2, pL2, o, w.p[..]);
    if stop != 0 { return Halted(mood, stop, false), first; }
    var trial := w.Evaluate(pb);
    if !pb.finite(trial) { return Halted(mood, 7, false), first; }
    if trial <= GAMMA * GAMMA * cost0 {
      var dL := w.PredictedGain(mood.mu);
      DotSquareNonNeg(w.hx[..], w.n);
      var mu := BoxDamping(mood.mu, cost0 - trial, dL, trial);
      DampingChosen(pb, lib, w.p[..], w.g[..], cost0, lb, ub, w.pdp[..], pL2, steptl, mood.mu, mu);
      w.Accept();
      return Moved(mood.(mu := mu, nu := 2, gprev := false), trial, Damping), first;
    }
    ghost var p, q := w.p[..], w.pdp[..];
    out, first := Fallback(w, pb, o, lib, mood, cost0, trial, pL2, dpL2, steptl, lb, ub);
    if out.Moved? {
      OtherwiseChosen(pb, lib, Ray(p, w.g[..], cost0, lb, ub), q, pL2, steptl, mood.mu, out.kind, first);
    }
  }

  // ----- the whole minimisation -----

  /** The ray that a projected-gradient search from v follows: against the gradient of half
      the error. */
  ghost function RayFrom(pb: Problem, v: Vec, lb: Bound, ub: Bound): (y: Ray)
    requires GoodProblem(pb) && |v| == pb.m && IsBox(lb, ub, pb.m) && InBox(v, lb, ub)
    ensures GoodRay(pb, y)
  {
    Ray(v, Negated(Gradient(pb.jacf(v), pb.m, LmDer.Residual(pb, v))), Cost(pb, v), lb, ub)
  }

  /** The increment dp solves the equations at p with this damping, if it is positive. */
  ghost predicate StepSolves(pb: Problem, p: Vec, mu: real, dp: Vec)
    requires GoodProblem(pb) && |p| == pb.m
  {
    && |dp| == pb.m
    && (mu > 0.0 ==> Solves(Damped(pb.jacf(p), pb.m, mu), dp, Gradient(pb.jacf(p), pb.m, LmDer.Residual(pb, p))))
  }

  /** The trial in place when the iteration at p, with damping mu, turns to the projected
      gradient or ends without. */
  ghost predicate FirstOf(pb: Problem, lib: Library, p: Vec, mu: real, steptl: real, lb: Bound, ub: Bound, v: Vec)
    requires GoodProblem(pb) && |p| == pb.m && IsBox(lb, ub, pb.m) && InBox(p, lb, ub)
  {
    && |v| == pb.m
    && exists dp: Vec ::
         && StepSolves(pb, p, mu, dp)
         && FirstTrial(lib, RayFrom(pb, p, lb, ub), Projected(Add(p, dp), lb, ub), Norm2(p), steptl, v)
  }

  /** Its step is of this kind and leaves the damping mu'. */
  ghost predicate StepBy(pb: Problem, lib: Library, p: Vec, mu: real, steptl: real, lb: Bound, ub: Bound, kind: Kind,
                         v: Vec, mu': real)
    requires GoodProblem(pb) && |p| == pb.m && IsBox(lb, ub, pb.m) && InBox(p, lb, ub)
  {
    && |v| == pb.m
    && exists dp: Vec ::
         && StepSolves(pb, p, mu, dp)
         && ChosenBy(pb, lib, RayFrom(pb, p, lb, ub), Projected(Add(p, dp), lb, ub), Norm2(p), steptl, mu, kind, v, mu')
  }

  /** Any trial of that iteration. */
  ghost predicate TrialOf(pb: Problem, lib: Library, p: Vec, mu: real, steptl: real, lb: Bound, ub: Bound, v: Vec)
    requires GoodProblem(pb) && |p| == pb.m && IsBox(lb, ub, pb.m) && InBox(p, lb, ub)
  {
    exists dp: Vec :: StepSolves(pb, p, mu, dp)
      && Candidate(lib, RayFrom(pb, p, lb, ub), Projected(Add(p, dp), lb, ub), Norm2(p), steptl, v)
  }

  /** A point the iteration reached; whether a projected-gradient search led to it, with
      which last length, and whether that search had run out of lengths; the damping of the
      step and its first trial, the kind of the step, and the damping that it left. */
  datatype Mark = Mark(at: Vec, gprev: bool, t: real, exhausted: bool, mu: real, first: Vec, kind: Kind, next: real)

  /** All points are feasible, and every step is as it should be. */
  ghost predicate Track(pb: Problem, lib: Library, trace: seq<Mark>, steptl: real, lb: Bound, ub: Bound)
    requires GoodProblem(pb) && GoodLibrary(lib) && IsBox(lb, ub, pb.m)
  {
    && (forall i :: 0 <= i < |trace| ==> Feasible(pb, trace[i], lb, ub))
    && forall i :: 0 < i < |trace| ==> StepOk(pb, lib, trace[i - 1], trace[i], steptl, lb, ub)
  }

  ghost predicate Feasible(pb: Problem, k: Mark, lb: Bound, ub: Bound) {
    |k.at| == pb.m && InBox(k.at, lb, ub) && k.t <= 1.0
  }

  /** The step from a to b is of the kind that its damped step asks for. It ends at its first
      trial, at the point of the length that its projected-gradient search found, or at the
      final point of a search that ran out. It lowers the cost, if there is any, unless the
      search ran out and its final point does not. */
  ghost predicate StepOk(pb: Problem, lib: Library, a: Mark, b: Mark, steptl: real, lb: Bound, ub: Bound)
    requires GoodProblem(pb) && GoodLibrary(lib) && IsBox(lb, ub, pb.m)
  {
    && Feasible(pb, a, lb, ub) && Feasible(pb, b, lb, ub)
    && FirstOf(pb, lib, a.at, b.mu, steptl, lb, ub, b.first)
    && StepBy(pb, lib, a.at, b.mu, steptl, lb, ub, b.kind, b.first, b.next)
    && (b.gprev <==> b.kind.Projecting?) && (b.exhausted <==> Exhausted(b.kind))
    && (b.exhausted <==> b.gprev && LengthsRunOut(pb, lib, a, lb, ub))
    && (b.gprev ==> (b.exhausted <==> b.t <= TMING))
    && b.at == (if !b.gprev then b.first
                else if b.exhausted then FinalOf(pb, lib, a, b.first, lb, ub)
                else PointAt(RayFrom(pb, a.at, lb, ub), b.t))
    && (Cost(pb, b.at) < Cost(pb, a.at)
        <==> Cost(pb, a.at) > 0.0
             && (b.exhausted ==> Cost(pb, FinalOf(pb, lib, a, b.first, lb, ub)) < Cost(pb, a.at)))
  }

  /** The projected-gradient search from this point, if there is one, runs out of lengths. */
  ghost predicate LengthsRunOut(pb: Problem, lib: Library, a: Mark, lb: Bound, ub: Bound)
    requires GoodProblem(pb) && GoodLibrary(lib) && IsBox(lb, ub, pb.m) && Feasible(pb, a, lb, ub)
  {
    var y := RayFrom(pb, a.at, lb, ub);
    RunsOut(pb, y, a.gprev, a.t, StartLength(y.g, lib))
  }

  /** The final point of that search. */
  ghost function FinalOf(pb: Problem, lib: Library, a: Mark, first: Vec, lb: Bound, ub: Bound): (v: Vec)
    requires GoodProblem(pb) && GoodLibrary(lib) && IsBox(lb, ub, pb.m) && Feasible(pb, a, lb, ub)
    requires LengthsRunOut(pb, lib, a, lb, ub) && |first| == pb.m
    ensures |v| == pb.m
  {
    var y := RayFrom(pb, a.at, lb, ub);
    FinalPoint(pb, y, Plan(a.gprev, a.t, StartLength(y.g, lib), first))
  }

  lemma {:induction false} TrackSnoc(pb: Problem, lib: Library, trace: seq<Mark>, k: Mark, steptl: real, lb: Bound,
                                     ub: Bound)
    requires GoodProblem(pb) && GoodLibrary(lib) && IsBox(lb, ub, pb.m)
    requires trace != [] && Track(pb, lib, trace, steptl, lb, ub)
    requires StepOk(pb, lib, trace[|trace| - 1], k, steptl, lb, ub)
    ensures Track(pb, lib, trace + [k], steptl, lb, ub)
  {
    var t, n := trace + [k], |trace|;
    forall i | 0 <= i < |t| ensures Feasible(pb, t[i], lb, ub) {
      if i < n { assert Feasible(pb, trace[i], lb, ub); }
    }
    forall i | 0 < i < |t| ensures StepOk(pb, lib, t[i - 1], t[i], steptl, lb, ub) {
      if i < n { assert StepOk(pb, lib, trace[i - 1], trace[i], steptl, lb, ub); }
    }
  }

  /** A step leads to a trial of the iteration it starts with. */
  lemma {:induction false} StepTried(pb: Problem, lib: Library, a: Mark, b: Mark, steptl: real, lb: Bound, ub: Bound)
    requires GoodProblem(pb) && GoodLibrary(lib) && IsBox(lb, ub, pb.m) && StepOk(pb, lib, a, b, steptl, lb, ub)
    ensures TrialOf(pb, lib, a.at, b.mu, steptl, lb, ub, b.at)
  {
    var y := RayFrom(pb, a.at, lb, ub);
    if b.exhausted { FinalTried(pb, y, Plan(a.gprev, a.t, StartLength(y.g, lib), b.first)); }
    assert Tried(b.at, y, b.first);
    var dp: Vec :| StepSolves(pb, a.at, b.mu, dp)
      && FirstTrial(lib, y, Projected(Add(a.at, dp), lb, ub), Norm2(a.at), steptl, b.first);
    assert Candidate(lib, y, Projected(Add(a.at, dp), lb, ub), Norm2(a.at), steptl, b.at);
  }

  /** A search that has run out of lengths runs out again: the next projected-gradient search
      resumes with a length that is too short already, and so the step leads to its first
      trial, whatever the error is there. */
  lemma {:induction false} RunsOutAgain(pb: Problem, lib: Library, trace: seq<Mark>, i: nat, steptl: real, lb: Bound,
                                        ub: Bound)
    requires GoodProblem(pb) && GoodLibrary(lib) && IsBox(lb, ub, pb.m) && Track(pb, lib, trace, steptl, lb, ub)
    requires 0 < i < |trace| - 1 && trace[i].exhausted && trace[i + 1].gprev
    ensures trace[i + 1].exhausted && trace[i + 1].at == trace[i + 1].first
  {
    var a, b := trace[i], trace[i + 1];
    assert StepOk(pb, lib, trace[i - 1], a, steptl, lb, ub);
    var j := i + 1;
    assert StepOk(pb, lib, trace[j - 1], trace[j], steptl, lb, ub);
    var y := RayFrom(pb, a.at, lb, ub);
    NoneTried(pb, y, Plan(a.gprev, a.t, StartLength(y.g, lib), b.first));
  }

  /** The state between two iterations. */
  ghost predicate Between(w: Work, pb: Problem, lib: Library, mood: Mood, cost: real, trace: seq<Mark>, steptl: real,
                          lb: Bound, ub: Bound)
    reads w.p, w.e
    requires w.Shape() && GoodProblem(pb) && pb.m == w.m && pb.n == w.n && GoodLibrary(lib) && IsBox(lb, ub, pb.m)
  {
    && Here(w, pb, cost, lb, ub) && trace != [] && Track(pb, lib, trace, steptl, lb, ub)
    && var last := trace[|trace| - 1];
       last.at == w.p[..] && last.gprev == mood.gprev && last.t == mood.t && last.next == mood.mu
  }

  /** What a stop promises about the result. */
  ghost predicate StopMeans(pb: Problem, o: Options, stop: int, v: Vec, lb: Bound, ub: Bound)
    requires GoodProblem(pb) && |v| == pb.m && IsBox(lb, ub, pb.m)
  {
    && (stop == 1 ==> AllStationary(v, Gradient(pb.jacf(v), pb.m, LmDer.Residual(pb, v)), lb, ub, o.eps1))
    && (stop == 6 ==> Cost(pb, v) <= o.eps3)
  }

  /** Why the loop was left, zero for no reason of its own; with which damping and which
      trial the last iteration ended. */
  datatype Halt = Halt(reason: int, mu: real, trial: Vec)

  /** What the reason promises about the result p. */
  ghost predicate HaltMeans(pb: Problem, o: Options, lib: Library, h: Halt, p: Vec, steptl: real, lb: Bound, ub: Bound)
    requires GoodProblem(pb) && |p| == pb.m && IsBox(lb, ub, pb.m) && o.epsilon > 0.0
  {
    && StopMeans(pb, o, h.reason, p, lb, ub)
    && (h.reason in {2, 4} ==> GivesReason(pb, o, lib, h, p, steptl, lb, ub))
    && (h.reason == 7 ==> (h.trial == p && !pb.finite(Cost(pb, p))) || GivesReason(pb, o, lib, h, p, steptl, lb, ub))
  }

  /** The trial belongs to the iteration at p and gives the reason. */
  ghost predicate GivesReason(pb: Problem, o: Options, lib: Library, h: Halt, p: Vec, steptl: real, lb: Bound,
                              ub: Bound)
    requires GoodProblem(pb) && |p| == pb.m && IsBox(lb, ub, pb.m) && o.epsilon > 0.0
  {
    && InBox(p, lb, ub) && |h.trial| == pb.m && TrialOf(pb, lib, p, h.mu, steptl, lb, ub, h.trial)
    && StopReason(pb, o, h.reason, Norm2(p), p, h.trial) && (GoodBoxOptions(o) ==> h.mu > 0.0)
  }

  /** The damping of the first iteration: a multiple of the largest diagonal entry, or of half
      the error when there are bounds. */
  ghost predicate FirstMuIs(pb: Problem, o: Options, p: Vec, lb: Bound, ub: Bound, mu: real)
    requires GoodProblem(pb) && |p| == pb.m
  {
    if lb.None? && ub.None? then
      exists t :: IsMax(LmDer.Diagonal(Gram(pb.jacf(p), pb.m), pb.m), o.lowest, t) && mu == Prod(o.tau, t)
    else mu == Prod(0.5 * o.tau, Cost(pb, p))
  }

  /** Good options make a call use this damping, in its first step or in an iteration that
      does not lead to one. */
  ghost predicate FirstDamped(pb: Problem, o: Options, trace: seq<Mark>, h: Halt, lb: Bound, ub: Bound)
    requires GoodProblem(pb) && trace != [] && |trace[0].at| == pb.m
  {
    GoodBoxOptions(o) ==>
      if |trace| > 1 then FirstMuIs(pb, o, trace[0].at, lb, ub, trace[1].mu)
      else if h.reason == 7 then h.trial == trace[0].at || FirstMuIs(pb, o, trace[0].at, lb, ub, h.mu)
      else h.reason in {2, 4} ==> FirstMuIs(pb, o, trace[0].at, lb, ub, h.mu)
  }

  lemma {:induction false} HalfError(tau: real, cost: real, mu: real)
    requires mu == 0.5 * tau * cost
    ensures mu == Prod(0.5 * tau, cost) && (tau > 0.0 && cost > 0.0 ==> mu > 0.0)
  {
    if tau > 0.0 && cost > 0.0 { ProdPositive(0.5 * tau, cost); }
  }

  /** The first damping. */
  method FirstBoxMu(w: Work, o: Options, cost: real, lb: Bound, ub: Bound, ghost jac: Mat) returns (mu: real)
    requires w.Shape() && IsBox(lb, ub, w.m) && IsMat(jac, w.n, w.m) && w.Normal(jac)
    requires GoodBoxOptions(o) ==> cost > 0.0 && !AllStationary(w.p[..], w.g[..], lb, ub, o.eps1)
    ensures GoodBoxOptions(o) ==> mu > 0.0
    ensures if lb.None? && ub.None? then
              exists t :: IsMax(LmDer.Diagonal(Gram(jac, w.m), w.m), o.lowest, t) && mu == Prod(o.tau, t)
            else mu == Prod(0.5 * o.tau, cost)
  {
    if lb.None? && ub.None? {
      var t := MaxDiagonal(w.diag, o.lowest, w.m);
      mu := o.tau * t;
      assert mu == Prod(o.tau, t);
      if GoodBoxOptions(o) {
        var i :| 0 <= i < w.m && !Stationary(w.p[i], w.g[i], lb, ub, i, o.eps1);
        MaxAbsAt(w.g[..], w.m, i);
        FirstDamping(jac, w.m, w.e[..], t, o);
      }
    } else {
      mu := 0.5 * o.tau * cost;
      HalfError(o.tau, cost, mu);
    }
  }

  /** The normal equations and the test for convergence. */
  method PrepareBox(w: Work, pb: Problem, o: Options, lb: Bound, ub: Bound, ghost cost: real)
    returns (converged: bool, pL2: real)
    requires w.Shape() && GoodProblem(pb) && pb.m == w.m && pb.n == w.n && IsBox(lb, ub, w.m) && w.Current(pb, cost)
    modifies w.a, w.g, w.diag
    ensures w.Normal(pb.jacf(w.p[..])) && pL2 == Norm2(w.p[..])
    ensures converged ==> AllStationary(w.p[..], w.g[..], lb, ub, o.eps1)
    ensures o.eps1 >= 0.0 && AllStationary(w.p[..], w.g[..], lb, ub, o.eps1) ==> converged
  {
    var jac := pb.jacf(w.p[..]);
    NormalMatrix(w.a, w.g, jac, w.e, w.m);
    converged, pL2 := Converged(w, o.eps1, lb, ub, Gram(jac, w.m));
  }

  /** One outer iteration. With good options its equations always have a solution. */
  method BoxIterate(w: Work, pb: Problem, o: Options, lib: Library, first: bool, mood0: Mood, cost0: real,
                    steptl: real, lb: Bound, ub: Bound)
    returns (out: Step, ghost mu: real, ghost trial: Vec)
    requires w.Shape() && GoodProblem(pb) && pb.m == w.m && pb.n == w.n && GoodLibrary(lib) && o.epsilon > 0.0
             && GoodMood(mood0)
    requires IsBox(lb, ub, w.m) && Here(w, pb, cost0, lb, ub)
    requires GoodBoxOptions(o) && !first ==> mood0.mu > 0.0 || cost0 == 0.0
    modifies w.p, w.e, w.hx, w.g, w.dp, w.pdp, w.diag, w.a
    ensures GoodMood(out.mood)
    ensures out.Moved? ==> Here(w, pb, out.cost, lb, ub)
    ensures out.Moved? && GoodBoxOptions(o) ==> out.mood.mu > 0.0 || out.cost == 0.0
    ensures out.Moved? && !Exhausted(out.kind) && cost0 > 0.0 ==> out.cost < cost0
    ensures out.Moved? ==> KindMatches(pb, lib, mood0, RayFrom(pb, old(w.p[..]), lb, ub), out, trial, w.p[..])
    ensures out.Moved? ==> FirstOf(pb, lib, old(w.p[..]), mu, steptl, lb, ub, trial)
    ensures out.Moved? ==> StepBy(pb, lib, old(w.p[..]), mu, steptl, lb, ub, out.kind, trial, out.mood.mu)
    ensures out.Halted? ==> Here(w, pb, cost0, lb, ub) && w.p[..] == old(w.p[..])
    ensures out.Halted? ==> out.stop in {1, 2, 4, 5, 6, 7}
                            && HaltMeans(pb, o, lib, Halt(out.stop, mu, trial), w.p[..], steptl, lb, ub)
    ensures out.Halted? && GoodBoxOptions(o) ==> out.stop != 5
    ensures GoodBoxOptions(o) && (out.Halted? ==> out.stop !in {1, 6})
            ==> if first then FirstMuIs(pb, o, old(w.p[..]), lb, ub, mu) else mu == mood0.mu
  {
    mu, trial := mood0.mu, w.p[..];
    if cost0 <= o.eps3 { return Halted(mood0, 6, true), mu, trial; }
    var converged, pL2 := PrepareBox(w, pb, o, lb, ub, cost0);
    if converged { return Halted(mood0, 1, true), mu, trial; }
    out, mu, trial := DampAndJudge(w, pb, o, lib, first, mood0, cost0, pL2, steptl, lb, ub);
  }

  lemma {:induction false} FirstIs(pb: Problem, lib: Library, p: Vec, mu: real, steptl: real, lb: Bound, ub: Bound,
                                   dp: Vec, v: Vec)
    requires GoodProblem(pb) && |p| == pb.m && IsBox(lb, ub, pb.m) && InBox(p, lb, ub) && StepSolves(pb, p, mu, dp)
    requires FirstTrial(lib, RayFrom(pb, p, lb, ub), Projected(Add(p, dp), lb, ub), Norm2(p), steptl, v)
    ensures FirstOf(pb, lib, p, mu, steptl, lb, ub, v)
  {
  }

  lemma {:induction false} StepByIs(pb: Problem, lib: Library, p: Vec, mu: real, steptl: real, lb: Bound, ub: Bound,
                                    dp: Vec, kind: Kind, v: Vec, mu': real)
    requires GoodProblem(pb) && |p| == |v| == pb.m && IsBox(lb, ub, pb.m) && InBox(p, lb, ub)
    requires StepSolves(pb, p, mu, dp)
    requires ChosenBy(pb, lib, RayFrom(pb, p, lb, ub), Projected(Add(p, dp), lb, ub), Norm2(p), steptl, mu, kind, v,
                      mu')
    ensures StepBy(pb, lib, p, mu, steptl, lb, ub, kind, v, mu')
  {
  }

  lemma {:induction false} RejectedIs(pb: Problem, o: Options, lib: Library, h: Halt, p: Vec, steptl: real, lb: Bound,
                                      ub: Bound, dp: Vec)
    requires GoodProblem(pb) && |p| == |h.trial| == pb.m && IsBox(lb, ub, pb.m) && InBox(p, lb, ub)
    requires o.epsilon > 0.0 && StepSolves(pb, p, h.mu, dp) && (GoodBoxOptions(o) ==> h.mu > 0.0)
    requires Candidate(lib, RayFrom(pb, p, lb, ub), Projected(Add(p, dp), lb, ub), Norm2(p), steptl, h.trial)
    requires h.reason in {2, 4, 7} && StopReason(pb, o, h.reason, Norm2(p), p, h.trial)
    ensures HaltMeans(pb, o, lib, h, p, steptl, lb, ub)
  {
  }

  /** The first damping of a call, or the one that the last iteration has left. */
  method StartingMu(w: Work, pb: Problem, o: Options, first: bool, mu0: real, cost: real, lb: Bound, ub: Bound)
    returns (mu: real)
    requires w.Shape() && GoodProblem(pb) && pb.m == w.m && pb.n == w.n && IsBox(lb, ub, w.m)
    requires w.Current(pb, cost) && w.Normal(pb.jacf(w.p[..]))
    requires GoodBoxOptions(o) ==> cost > 0.0 && !AllStationary(w.p[..], w.g[..], lb, ub, o.eps1)
    requires GoodBoxOptions(o) && !first ==> mu0 > 0.0
    ensures GoodBoxOptions(o) ==> mu > 0.0
    ensures if first then FirstMuIs(pb, o, w.p[..], lb, ub, mu) else mu == mu0
  {
    mu := mu0;
    if first { mu := FirstBoxMu(w, o, cost, lb, ub, pb.jacf(w.p[..])); }
  }

  /** The rest of an iteration that has not converged. */
  method DampAndJudge(w: Work, pb: Problem, o: Options, lib: Library, first: bool, mood0: Mood, cost0: real,
                      pL2: real, steptl: real, lb: Bound, ub: Bound)
    returns (out: Step, ghost mu: real, ghost trial: Vec)
    requires w.Shape() && GoodProblem(pb) && pb.m == w.m && pb.n == w.n && GoodLibrary(lib) && o.epsilon > 0.0
             && GoodMood(mood0)
    requires IsBox(lb, ub, w.m) && Here(w, pb, cost0, lb, ub) && w.Normal(pb.jacf(w.p[..])) && pL2 == Norm2(w.p[..])
    requires GoodBoxOptions(o) ==> cost0 > 0.0 && !AllStationary(w.p[..], w.g[..], lb, ub, o.eps1)
    requires GoodBoxOptions(o) && !first ==> mood0.mu > 0.0
    modifies w.p, w.e, w.hx, w.g, w.dp, w.pdp, w.a
    ensures GoodMood(out.mood)
    ensures out.Moved? ==> Here(w, pb, out.cost, lb, ub)
    ensures out.Moved? && GoodBoxOptions(o) ==> out.mood.mu > 0.0 || out.cost == 0.0
    ensures out.Moved? && !Exhausted(out.kind) && cost0 > 0.0 ==> out.cost < cost0
    ensures out.Moved? ==> KindMatches(pb, lib, mood0, RayFrom(pb, old(w.p[..]), lb, ub), out, trial, w.p[..])
    ensures out.Moved? ==> FirstOf(pb, lib, old(w.p[..]), mu, steptl, lb, ub, trial)
    ensures out.Moved? ==> StepBy(pb, lib, old(w.p[..]), mu, steptl, lb, ub, out.kind, trial, out.mood.mu)
    ensures out.Halted? ==> Here(w, pb, cost0, lb, ub) && w.p[..] == old(w.p[..])
    ensures out.Halted? ==> out.stop in {2, 4, 5, 7}
                            && HaltMeans(pb, o, lib, Halt(out.stop, mu, trial), w.p[..], steptl, lb, ub)
    ensures out.Halted? && GoodBoxOptions(o) ==> out.stop != 5
    ensures GoodBoxOptions(o) && (out.Halted? ==> out.stop !in {1, 6})
            ==> if first then FirstMuIs(pb, o, old(w.p[..]), lb, ub, mu) else mu == mood0.mu
  {
    ghost var p := w.p[..];
    trial := p;
    var mu0 := StartingMu(w, pb, o, first, mood0.mu, cost0, lb, ub);
    var ok, mu', nu := SolveDamped(w, mu0, mood0.nu, pb.jacf(w.p[..]));
    var mood := mood0.(mu := mu', nu := nu);
    mu := mu';
    if !ok { return Halted(mood, 5, false), mu, trial; }
    ghost var dp := w.dp[..];
    assert StepSolves(pb, p, mu, dp);
    assert RayFrom(pb, p, lb, ub) == Ray(p, Negated(w.g[..]), cost0, lb, ub);
    out, trial := JudgeBox(w, pb, o, lib, mood, cost0, pL2, steptl, lb, ub);
    if out.Halted? {
      trial := w.pdp[..];
      RejectedIs(pb, o, lib, Halt(out.stop, mu, trial), p, steptl, lb, ub, dp);
    } else {
      FirstIs(pb, lib, p, mu, steptl, lb, ub, dp, trial);
      StepByIs(pb, lib, p, mu, steptl, lb, ub, dp, out.kind, trial, out.mood.mu);
    }
  }

  /** A step of an iteration is as it should be. */
  lemma {:induction false} StepIsOk(pb: Problem, lib: Library, a: Mark, b: Mark, before: Mood, out: Step, steptl: real,
                                    lb: Bound, ub: Bound)
    requires GoodProblem(pb) && GoodLibrary(lib) && IsBox(lb, ub, pb.m)
    requires Feasible(pb, a, lb, ub) && Feasible(pb, b, lb, ub) && GoodMood(before) && out.Moved?
    requires a.gprev == before.gprev && a.t == before.t && |b.first| == pb.m
    requires b.gprev == out.mood.gprev && b.t == out.mood.t && b.exhausted == Exhausted(out.kind)
    requires KindMatches(pb, lib, before, RayFrom(pb, a.at, lb, ub), out, b.first, b.at)
    requires FirstOf(pb, lib, a.at, b.mu, steptl, lb, ub, b.first)
    requires b.kind == out.kind && StepBy(pb, lib, a.at, b.mu, steptl, lb, ub, b.kind, b.first, b.next)
    requires !b.exhausted && Cost(pb, a.at) > 0.0 ==> Cost(pb, b.at) < Cost(pb, a.at)
    ensures StepOk(pb, lib, a, b, steptl, lb, ub)
  {
    DotSquareNonNeg(LmDer.Residual(pb, b.at), pb.n);
    assert Cost(pb, b.at) >= 0.0;
  }

  lemma {:induction false} StepRecorded(pb: Problem, lib: Library, trace: seq<Mark>, b: Mark, before: Mood, out: Step,
                                        steptl: real, lb: Bound, ub: Bound)
    requires GoodProblem(pb) && GoodLibrary(lib) && IsBox(lb, ub, pb.m) && GoodMood(before) && out.Moved?
    requires trace != [] && Track(pb, lib, trace, steptl, lb, ub) && Feasible(pb, b, lb, ub)
    requires var a := trace[|trace| - 1];
             && a.gprev == before.gprev && a.t == before.t && |b.first| == |a.at| == pb.m && InBox(a.at, lb, ub)
             && KindMatches(pb, lib, before, RayFrom(pb, a.at, lb, ub), out, b.first, b.at)
             && FirstOf(pb, lib, a.at, b.mu, steptl, lb, ub, b.first)
             && StepBy(pb, lib, a.at, b.mu, steptl, lb, ub, b.kind, b.first, b.next)
             && (!b.exhausted && Cost(pb, a.at) > 0.0 ==> Cost(pb, b.at) < Cost(pb, a.at))
    requires b.gprev == out.mood.gprev && b.t == out.mood.t && b.kind == out.kind && b.exhausted == Exhausted(out.kind)
    ensures Track(pb, lib, trace + [b], steptl, lb, ub)
  {
    var n := |trace| - 1;
    assert Feasible(pb, trace[n], lb, ub);
    StepIsOk(pb, lib, trace[n], b, before, out, steptl, lb, ub);
    TrackSnoc(pb, lib, trace, b, steptl, lb, ub);
  }

  /** An iteration, recorded. */
  method NextPoint(w: Work, pb: Problem, o: Options, lib: Library, first: bool, mood0: Mood, cost0: real,
                   steptl: real, lb: Bound, ub: Bound,
                   ghost trace0: seq<Mark>)
    returns (stop: int, leave: bool, mood: Mood, cost: real, ghost trace: seq<Mark>, ghost halt: Halt)
    requires w.Shape() && GoodProblem(pb) && pb.m == w.m && pb.n == w.n && GoodLibrary(lib) && o.epsilon > 0.0
             && GoodMood(mood0)
    requires IsBox(lb, ub, w.m) && Between(w, pb, lib, mood0, cost0, trace0, steptl, lb, ub)
    requires GoodBoxOptions(o) && !first ==> mood0.mu > 0.0 || cost0 == 0.0
    modifies w.p, w.e, w.hx, w.g, w.dp, w.pdp, w.diag, w.a
    ensures stop == 0 ==> Between(w, pb, lib, mood, cost, trace, steptl, lb, ub)
                          && trace0 < trace && |trace| == |trace0| + 1
    ensures stop != 0 ==> Here(w, pb, cost, lb, ub) && trace == trace0 && trace[|trace| - 1].at == w.p[..]
    ensures stop in {0, 1, 2, 4, 5, 6, 7} && (GoodBoxOptions(o) ==> stop != 5)
    ensures stop == halt.reason && HaltMeans(pb, o, lib, halt, w.p[..], steptl, lb, ub)
    ensures GoodMood(mood) && (GoodBoxOptions(o) && stop == 0 ==> mood.mu > 0.0 || cost == 0.0)
    ensures leave ==> stop != 0
    ensures GoodBoxOptions(o) && stop !in {1, 6}
            ==> if first then FirstMuIs(pb, o, old(w.p[..]), lb, ub, halt.mu)
                else halt.mu == trace0[|trace0| - 1].next
    ensures stop == 0 ==> trace[|trace| - 1].mu == halt.mu
  {
    ghost var mu, trial;
    var out;
    out, mu, trial := BoxIterate(w, pb, o, lib, first, mood0, cost0, steptl, lb, ub);
    mood := out.mood;
    match out {
      case Moved(_, cost', kind) =>
        ghost var mark := Mark(w.p[..], mood.gprev, mood.t, Exhausted(kind), mu, trial, kind, mood.mu);
        StepRecorded(pb, lib, trace0, mark, mood0, out, steptl, lb, ub);
        stop, leave, cost, trace, halt := 0, false, cost', trace0 + [mark], Halt(0, mu, trial);
      case Halted(_, s, l) =>
        stop, leave, cost, trace, halt := s, l, cost0, trace0, Halt(s, mu, trial);
    }
  }

  /** With good options every step after the first, and an iteration that ends the run without
      one, uses the damping that the step before it has left. */
  ghost predicate DampingHandedOn(o: Options, trace: seq<Mark>, h: Halt) {
    GoodBoxOptions(o) ==>
      && (forall i {:trigger HandedOn(trace, i)} :: 1 < i < |trace| ==> HandedOn(trace, i))
      && (|trace| > 1 && h.reason in {2, 4, 7} ==> h.mu == trace[|trace| - 1].next)
  }

  ghost predicate HandedOn(trace: seq<Mark>, i: nat)
    requires 1 < i < |trace|
  {
    trace[i].mu == trace[i - 1].next
  }

  /** What a run of k iterations from p0 to p has on record. */
  ghost predicate Recorded(pb: Problem, o: Options, lib: Library, trace: seq<Mark>, h: Halt, k: nat, p0: Vec, p: Vec,
                           steptl: real, lb: Bound, ub: Bound)
    requires GoodProblem(pb) && |p| == pb.m && GoodLibrary(lib) && IsBox(lb, ub, pb.m) && o.epsilon > 0.0
  {
    && trace != [] && trace[0].at == p0 && trace[|trace| - 1].at == p && Track(pb, lib, trace, steptl, lb, ub)
    && k <= |trace| <= k + 1 && (h.reason == 0 ==> |trace| == k + 1)
    && FirstDamped(pb, o, trace, h, lb, ub) && DampingHandedOn(o, trace, h)
    && HaltMeans(pb, o, lib, h, p, steptl, lb, ub)
    && h.reason in {0, 1, 2, 4, 5, 6, 7} && (GoodBoxOptions(o) ==> h.reason != 5)
  }

  /** An iteration that moved, and one that did not. */
  lemma {:induction false} RecordedMore(pb: Problem, o: Options, lib: Library, trace: seq<Mark>, h: Halt, k: nat,
                                        p0: Vec, p: Vec, steptl: real, lb: Bound, ub: Bound,
                                        trace': seq<Mark>, h': Halt, k': nat, p': Vec)
    requires GoodProblem(pb) && |p| == |p'| == pb.m && GoodLibrary(lib) && IsBox(lb, ub, pb.m) && o.epsilon > 0.0
    requires Recorded(pb, o, lib, trace, h, k, p0, p, steptl, lb, ub) && h.reason == 0
    requires HaltMeans(pb, o, lib, h', p', steptl, lb, ub)
    requires h'.reason in {0, 1, 2, 4, 5, 6, 7} && (GoodBoxOptions(o) ==> h'.reason != 5)
    requires if h'.reason == 0 then trace < trace' && |trace'| == |trace| + 1 && trace'[|trace'| - 1].mu == h'.mu
                                    && Track(pb, lib, trace', steptl, lb, ub)
             else trace' == trace
    requires trace'[|trace'| - 1].at == p' && (k' == k + 1 || (k' == k && h'.reason != 0))
    requires GoodBoxOptions(o) && h'.reason !in {1, 6}
             ==> if k == 0 then FirstMuIs(pb, o, p, lb, ub, h'.mu) else h'.mu == trace[|trace| - 1].next
    ensures Recorded(pb, o, lib, trace', h', k', p0, p', steptl, lb, ub)
  {
    HandedOnMore(o, trace, h, trace', h');
  }

  lemma {:induction false} HandedOnMore(o: Options, trace: seq<Mark>, h: Halt, trace': seq<Mark>, h': Halt)
    requires DampingHandedOn(o, trace, h) && trace != []
    requires if h'.reason == 0 then trace < trace' && |trace'| == |trace| + 1 && trace'[|trace|].mu == h'.mu
             else trace' == trace
    requires GoodBoxOptions(o) && h'.reason in {0, 2, 4, 7} && |trace| > 1 ==> h'.mu == trace[|trace| - 1].next
    ensures DampingHandedOn(o, trace', h')
  {
    if GoodBoxOptions(o) {
      forall i | 1 < i < |trace'| ensures HandedOn(trace', i) {
        if i < |trace| { assert HandedOn(trace, i); }
      }
    }
  }

  /** The outer loop, from a feasible point. */
  method MinimiseBox(w: Work, pb: Problem, itmax: int, o: Options, lib: Library, steptl: real, lb: Bound, ub: Bound)
    returns (res: int, stop: int, k: nat, ghost trace: seq<Mark>, ghost halt: Halt)
    requires w.Shape() && GoodProblem(pb) && pb.m == w.m && pb.n == w.n && GoodLibrary(lib) && o.epsilon > 0.0
    requires IsBox(lb, ub, w.m) && InBox(w.p[..], lb, ub)
    modifies w.p, w.e, w.hx, w.g, w.dp, w.pdp, w.diag, w.a
    ensures Recorded(pb, o, lib, trace, halt, k, old(w.p[..]), w.p[..], steptl, lb, ub)
    ensures (itmax >= 0 ==> k <= itmax) && (halt.reason == 0 ==> k >= itmax)
    ensures stop == if k >= itmax then 3 else halt.reason
    ensures res == if stop == 4 || stop == 7 then LM_ERROR else k
  {
    trace, halt := [Mark(w.p[..], false, 0.0, false, 0.0, w.p[..], Damping, 0.0)], Halt(0, 0.0, w.p[..]);
    stop, k := 0, 0;
    var cost := w.Start(pb);
    if !pb.finite(cost) { stop, halt := 7, halt.(reason := 7); }
    var mood := Mood(0.0, 2, 0.0, false);
    while k < itmax && stop == 0
      invariant stop == 0 ==> Between(w, pb, lib, mood, cost, trace, steptl, lb, ub)
      invariant Recorded(pb, o, lib, trace, halt, k, old(w.p[..]), w.p[..], steptl, lb, ub) && stop == halt.reason
      invariant GoodMood(mood) && (GoodBoxOptions(o) && k > 0 && stop == 0 ==> mood.mu > 0.0 || cost == 0.0)
      invariant itmax >= 0 ==> k <= itmax
      decreases itmax - k
    {
      var leave;
      ghost var trace0, halt0, p0 := trace, halt, w.p[..];
      stop, leave, mood, cost, trace, halt := NextPoint(w, pb, o, lib, k == 0, mood, cost, steptl, lb, ub, trace);
      RecordedMore(pb, o, lib, trace0, halt0, k, old(w.p[..]), p0, steptl, lb, ub,
                   trace, halt, if leave then k else k + 1, w.p[..]);
      if leave { break; }
      k := k + 1;
    }
    if k >= itmax { stop := 3; }
    res := if stop != 4 && stop != 7 then k else LM_ERROR;
  }

  /** LEVMAR_BC_DER: from the projection of the starting point on, no iterate leaves the
      box, and the result is the last of them. */
  method LevmarBcDer(pb: Problem, p: array<real>, lb: Bound, ub: Bound, itmax: int, o: Options, lib: Library,
                     steptl: real)
    returns (res: int, stop: int, k: nat, ghost trace: seq<Mark>, ghost halt: Halt)
    requires GoodProblem(pb) && p.Length == pb.m && IsBound(lb, pb.m) && IsBound(ub, pb.m)
    requires GoodLibrary(lib) && o.epsilon > 0.0
    modifies p
    ensures pb.n < pb.m || !IsBox(lb, ub, pb.m) ==> res == LM_ERROR && p[..] == old(p[..])
    ensures pb.n >= pb.m && IsBox(lb, ub, pb.m) ==>
      && Recorded(pb, o, lib, trace, halt, k, Projected(old(p[..]), lb, ub), p[..], steptl, lb, ub)
      && InBox(p[..], lb, ub)
      && (itmax >= 0 ==> k <= itmax) && (halt.reason == 0 ==> k >= itmax)
      && stop == (if k >= itmax then 3 else halt.reason)
      && res == if stop == 4 || stop == 7 then LM_ERROR else k
  {
    trace, halt, stop, k := [], Halt(0, 0.0, []), 0, 0;
    if pb.n < pb.m { return LM_ERROR, stop, k, trace, halt; }
    var ok := BoxCheck(lb, ub, pb.m);
    if !ok { return LM_ERROR, stop, k, trace, halt; }
    ProjectedInBox(p[..], lb, ub);
    BoxProject(p, lb, ub);
    var w := new Work(pb.m, pb.n, p);
    res, stop, k, trace, halt := MinimiseBox(w, pb, itmax, o, lib, steptl, lb, ub);
    assert Feasible(pb, trace[|trace| - 1], lb, ub);
  }
}

/**
 The projected-gradient search of the box-constrained iteration
 (touchscreen_drv/levmar-2.5/lmbc_core.c, from the label gradproj on): shorter and shorter
 steps against the gradient, projected to the box, until one lowers the error enough or no
 length is left.
 */
module GradientSearch {
  import opened LinearAlgebra
  import opened NormalEquations
  import opened Box
  import opened LmDer
  import opened LineSearch

  const ALPHA := 0.0001
  const BETA := 0.9
  const TOO_SMALL := 0.99999
  const TMING := 0.000000000000000001
  const TINI := 1.0

  // ----- the length of projected-gradient steps -----

  /** BETA to the power of k. */
  function Decay(k: nat): (d: real)
    ensures 0.0 < d <= 1.0
  {
    if k == 0 then 1.0 else DecayOnce(Decay(k - 1))
  }

  function DecayOnce(d: real): (r: real)
    requires 0.0 < d <= 1.0
    ensures 0.0 < r <= 1.0
  {
    d * BETA
  }

  /** Seven steps more than halve. */
  lemma {:induction false} DecayHalves(k: nat)
    ensures Decay(k + 7) <= 0.5 * Decay(k)
  {
    assert Decay(k + 7) == DecayOnce(Decay(k + 6)) && Decay(k + 6) == DecayOnce(Decay(k + 5));
    assert Decay(k + 5) == DecayOnce(Decay(k + 4)) && Decay(k + 4) == DecayOnce(Decay(k + 3));
    assert Decay(k + 3) == DecayOnce(Decay(k + 2)) && Decay(k + 2) == DecayOnce(Decay(k + 1));
    assert Decay(k + 1) == DecayOnce(Decay(k));
  }

  lemma {:induction false} DecayThousandth(k: nat) returns (n: nat)
    ensures Decay(n) <= 0.001 * Decay(k)
  {
    DecayHalves(k); DecayHalves(k + 7); DecayHalves(k + 14); DecayHalves(k + 21); DecayHalves(k + 28);
    DecayHalves(k + 35); DecayHalves(k + 42); DecayHalves(k + 49); DecayHalves(k + 56); DecayHalves(k + 63);
    n := k + 70;
  }

  /** After enough steps no length is left. */
  lemma {:induction false} DecayEnds() returns (n: nat)
    ensures forall k :: k >= n ==> Decay(k) <= TMING
  {
    var a := DecayThousandth(0);
    var b := DecayThousandth(a);
    var c := DecayThousandth(b);
    var d := DecayThousandth(c);
    var e := DecayThousandth(d);
    n := DecayThousandth(e);
    forall k | k >= n ensures Decay(k) <= TMING { DecayMonotone(n, k); }
  }

  lemma {:induction false} DecayMonotone(j: nat, k: nat)
    requires j <= k
    ensures Decay(k) <= Decay(j)
  {
    if j < k { DecayMonotone(j, k - 1); }
  }

  /** The k-th length of a search that starts with length s. */
  function Length(s: real, k: nat): (t: real) { Prod(s, Decay(k)) }

  lemma {:induction false} LengthNext(s: real, k: nat)
    ensures Length(s, 0) == s && Length(s, k) * BETA == Length(s, k + 1)
    ensures s <= 1.0 ==> Length(s, k) <= Decay(k)
  {
    assert Decay(k + 1) == DecayOnce(Decay(k));
    assert s * Decay(k) * BETA == s * (Decay(k) * BETA);
    if s <= 1.0 { SignProduct(s - 1.0, Decay(k)); assert (s - 1.0) * Decay(k) == s * Decay(k) - Decay(k); }
  }

  /** Once a length is too short, so are all later ones. */
  lemma {:induction false} LengthsEnd(s: real, j: nat, k: nat)
    requires j <= k && Length(s, j) <= TMING
    ensures Length(s, k) <= TMING
  {
    DecayMonotone(j, k);
    if s <= 0.0 {
      SignProduct(s, Decay(k));
    } else {
      SignProduct(s, Decay(k) - Decay(j));
      assert s * (Decay(k) - Decay(j)) == s * Decay(k) - s * Decay(j);
    }
  }

  /** Length k is the last one that is long enough. */
  ghost predicate IsLast(s: real, k: nat) { Length(s, k) > TMING >= Length(s, k + 1) }

  lemma {:induction false} LastUnique(s: real, j: nat, k: nat)
    requires IsLast(s, j) && IsLast(s, k)
    ensures j == k
  {
    if j < k { LengthsEnd(s, j + 1, k); }
    if k < j { LengthsEnd(s, k + 1, j); }
  }

  lemma {:induction false} LastExists(s: real)
    requires TMING < s <= 1.0
    ensures exists k: nat :: IsLast(s, k)
  {
    var n := DecayEnds();
    LengthNext(s, n);
    LastBelow(s, n);
  }

  lemma {:induction false} LastBelow(s: real, n: nat)
    requires s > TMING && Length(s, n) <= TMING
    ensures exists k: nat :: IsLast(s, k)
  {
    LengthNext(s, 0);
    assert n > 0;
    if Length(s, n - 1) > TMING { assert IsLast(s, n - 1); } else { LastBelow(s, n - 1); }
  }

  /** The last length of a search that starts with length s. */
  ghost function LastLength(s: real): (t: real)
    requires TMING < s <= 1.0
    ensures TMING < t <= 1.0 && exists k: nat :: IsLast(s, k) && t == Length(s, k)
  {
    LastExists(s);
    var k: nat :| IsLast(s, k);
    LengthNext(s, k);
    Length(s, k)
  }

  lemma {:induction false} LastLengthIs(s: real, k: nat)
    requires s <= 1.0 && IsLast(s, k)
    ensures s > TMING && LastLength(s) == Length(s, k)
  {
    if s <= TMING { LengthNext(s, 0); LengthsEnd(s, 0, k); }
    var j: nat :| IsLast(s, j) && LastLength(s) == Length(s, j);
    LastUnique(s, j, k);
  }

  // ----- projected gradient -----

  /** A step of length t against the gradient g, projected to the box. */
  ghost function GradientPoint(p: Vec, g: Vec, t: real, lb: Bound, ub: Bound): (q: Vec)
    requires |p| == |g| && IsBound(lb, |p|) && IsBound(ub, |p|)
    ensures |q| == |p|
  {
    Projected(Along(p, g, -t), lb, ub)
  }

  /** The projected step is a direction of descent. */
  lemma {:induction false} GradientDescends(p: Vec, g: Vec, t: real, lb: Bound, ub: Bound)
    requires |p| == |g| && t > 0.0 && IsBox(lb, ub, |p|) && InBox(p, lb, ub)
    ensures var d := Sub(GradientPoint(p, g, t, lb, ub), p);
            Norm2(d) > 0.0 ==> Dot(g, d, |p|) < 0.0
  {
    var v, q := Along(p, g, -t), GradientPoint(p, g, t, lb, ub);
    Variational(v, p, lb, ub);
    TowardsDescends(p, g, q, t);
  }

  lemma {:induction false} TowardsDescends(p: Vec, g: Vec, q: Vec, t: real)
    requires |p| == |g| == |q| && t > 0.0 && Dot(Sub(Along(p, g, -t), q), Sub(p, q), |p|) <= 0.0
    ensures Norm2(Sub(q, p)) > 0.0 ==> Dot(g, Sub(q, p), |p|) < 0.0
  {
    Offsets(p, g, q, t);
    Descends(Sub(Along(p, g, -t), q), Sub(p, q), Sub(q, p), g, t, |p|);
  }

  lemma {:induction false} Offsets(p: Vec, g: Vec, q: Vec, t: real)
    requires |p| == |g| == |q|
    ensures forall k :: 0 <= k < |p| ==> Sub(Along(p, g, -t), q)[k] == Sub(p, q)[k] + -t * g[k]
    ensures forall k :: 0 <= k < |p| ==> Sub(p, q)[k] == -Sub(q, p)[k]
  {
  }

  lemma {:induction false} Descends(off: Vec, back: Vec, d: Vec, g: Vec, t: real, n: nat)
    requires |off| == |back| == |d| == |g| == n && t > 0.0 && Dot(off, back, n) <= 0.0
    requires forall k :: 0 <= k < n ==> off[k] == back[k] + -t * g[k]
    requires forall k :: 0 <= k < n ==> back[k] == -d[k]
    ensures Norm2(d) > 0.0 ==> Dot(g, d, n) < 0.0
  {
    DotLinear(back, -t, g, off, back, n);
    NegatedSquare(back, d, n);
    DotNegate(g, back, d, n);
    DescentSign(Dot(off, back, n), Dot(g, d, n), t, Norm2(d));
  }

  lemma {:induction false} NegatedSquare(u: Vec, v: Vec, n: nat)
    requires n <= |u| && n <= |v| && forall k :: 0 <= k < n ==> u[k] == -v[k]
    ensures Dot(u, u, n) == Dot(v, v, n)
  {
    if n > 0 {
      NegatedSquare(u, v, n - 1);
      assert u[n - 1] * u[n - 1] == v[n - 1] * v[n - 1];
    }
  }

  lemma {:induction false} DescentSign(x: real, gd: real, t: real, d2: real)
    requires t > 0.0 && x == d2 + -t * -gd && x <= 0.0
    ensures d2 > 0.0 ==> gd < 0.0
  {
    if gd >= 0.0 { SignProduct(-t, gd); assert -t * -gd == -(-t * gd); }
  }

  /** The point in pDp is feasible, and hx and the cost belong to it. */
  ghost predicate Trial(w: Work, pb: Problem, cost: real, lb: Bound, ub: Bound)
    reads w.pdp, w.hx
    requires w.Shape() && GoodProblem(pb) && pb.m == w.m && pb.n == w.n
  {
    InBox(w.pdp[..], lb, ub) && w.hx[..] == LmDer.Residual(pb, w.pdp[..]) && cost == Cost(pb, w.pdp[..])
  }

  /** One trial of the projected gradient. */
  method TryGradient(w: Work, pb: Problem, t: real, lb: Bound, ub: Bound) returns (cost: real, slope: real)
    requires w.Shape() && GoodProblem(pb) && pb.m == w.m && pb.n == w.n && t > 0.0
    requires IsBox(lb, ub, w.m) && InBox(w.p[..], lb, ub)
    modifies w.pdp, w.dp, w.hx
    ensures Trial(w, pb, cost, lb, ub) && w.pdp[..] == GradientPoint(w.p[..], w.g[..], t, lb, ub)
    ensures slope == Dot(w.g[..], Sub(w.pdp[..], w.p[..]), w.m)
            && (Norm2(Sub(w.pdp[..], w.p[..])) > 0.0 ==> slope < 0.0)
  {
    ghost var v := Along(w.p[..], w.g[..], -t);
    for i := 0 to w.m
      invariant forall k :: 0 <= k < i ==> w.pdp[k] == v[k]
    {
      w.pdp[i] := w.p[i] - t * w.g[i];
      assert w.pdp[i] == w.p[i] + -t * w.g[i];
    }
    assert w.pdp[..] == v;
    BoxProject(w.pdp, lb, ub);
    ProjectedInBox(v, lb, ub);
    StepBetween(w);
    cost := w.Evaluate(pb);
    slope := Slope(w);
    GradientDescends(w.p[..], w.g[..], t, lb, ub);
  }

  /** Dp becomes pDp - p. */
  method StepBetween(w: Work)
    requires w.Shape()
    modifies w.dp
    ensures w.dp[..] == Sub(w.pdp[..], w.p[..])
  {
    for i := 0 to w.m
      invariant forall k :: 0 <= k < i ==> w.dp[k] == w.pdp[k] - w.p[k]
    {
      w.dp[i] := w.pdp[i] - w.p[i];
    }
    assert w.dp[..] == Sub(w.pdp[..], w.p[..]);
  }

  /** The first step length, guarded against poor scaling. */
  ghost function StartLength(g: Vec, lib: Library): (t: real)
    requires GoodLibrary(lib)
    ensures 0.0 < t <= TINI
  {
    DotSquareNonNeg(g, |g|);
    PositiveQuotient(100.0, 1.0 + lib.sqrt(Norm2(g)));
    var t := 100.0 / (1.0 + lib.sqrt(Norm2(g)));
    if t <= TINI then t else TINI
  }

  method FirstLength(w: Work, lib: Library) returns (t0: real)
    requires w.Shape() && GoodLibrary(lib)
    ensures t0 == StartLength(w.g[..], lib)
  {
    var s := 0.0;
    for i := 0 to w.m
      invariant s == Dot(w.g[..], w.g[..], i)
    {
      s := s + w.g[i] * w.g[i];
    }
    DotSquareNonNeg(w.g[..], w.m);
    var norm := lib.sqrt(s);
    PositiveQuotient(100.0, 1.0 + norm);
    var t := 100.0 / (1.0 + norm);
    t0 := if t <= TINI then t else TINI;
  }

  // ----- when the search runs out of lengths -----

  /** Where a search starts: the point, the gradient of half the error there, the error and
      the box. */
  datatype Ray = Ray(p: Vec, g: Vec, cost: real, lb: Bound, ub: Bound)

  ghost predicate GoodRay(pb: Problem, y: Ray) {
    && GoodProblem(pb) && |y.p| == |y.g| == pb.m
    && IsBox(y.lb, y.ub, pb.m) && InBox(y.p, y.lb, y.ub)
  }

  ghost function PointAt(y: Ray, t: real): (q: Vec)
    requires |y.p| == |y.g| && IsBound(y.lb, |y.p|) && IsBound(y.ub, |y.p|)
    ensures |q| == |y.p|
  {
    GradientPoint(y.p, y.g, t, y.lb, y.ub)
  }

  /** The trial of length t passes the test for a decrease at the given rate. */
  ghost predicate Passes(pb: Problem, y: Ray, t: real, rate: real)
    requires GoodRay(pb, y)
  {
    Cost(pb, PointAt(y, t)) <= y.cost + 2.0 * rate * Dot(y.g, Sub(PointAt(y, t), y.p), pb.m)
  }

  ghost predicate FiniteAt(pb: Problem, y: Ray, t: real)
    requires GoodRay(pb, y)
  {
    pb.finite(Cost(pb, PointAt(y, t)))
  }

  /** A trial of this length makes the search go on with a shorter one. */
  ghost predicate GoesOn(pb: Problem, y: Ray, t: real)
    requires GoodRay(pb, y)
  {
    FiniteAt(pb, y, t) && !Passes(pb, y, t, ALPHA)
  }

  /** No length from number `from` on that is long enough passes. */
  ghost predicate AllGoOn(pb: Problem, y: Ray, s: real, from: nat)
    requires GoodRay(pb, y)
  {
    forall j: nat :: from <= j && Length(s, j) > TMING ==> GoesOn(pb, y, Length(s, j))
  }

  /** The search that resumes the lengths of the previous one finds trial k so good that it
      starts over with the longer lengths. */
  ghost predicate StartsOver(pb: Problem, y: Ray, s: real, k: nat)
    requires GoodRay(pb, y)
  {
    && Length(s, k) > TMING && FiniteAt(pb, y, Length(s, k)) && Passes(pb, y, Length(s, k), TOO_SMALL)
    && forall j: nat :: j < k ==> GoesOn(pb, y, Length(s, j))
  }

  /** The condition for running out: it concerns finitely many lengths, those above TMING. A
      search that resumes starts with length s, one that starts over skips the length t0. */
  ghost predicate RunsOut(pb: Problem, y: Ray, resumes: bool, s: real, t0: real)
    requires GoodRay(pb, y)
  {
    if resumes then AllGoOn(pb, y, s, 0) || (AllGoOn(pb, y, t0, 1) && exists k: nat :: StartsOver(pb, y, s, k))
    else AllGoOn(pb, y, t0, 0)
  }

  /** The projected step never goes uphill. */
  lemma {:induction false} NotUphill(pb: Problem, y: Ray, t: real)
    requires GoodRay(pb, y) && t > 0.0
    ensures Dot(y.g, Sub(PointAt(y, t), y.p), pb.m) <= 0.0
  {
    GradientDescends(y.p, y.g, t, y.lb, y.ub);
    var d := Sub(PointAt(y, t), y.p);
    if Norm2(d) <= 0.0 {
      DotSquareZero(d, pb.m);
      DotZero(y.g, d, pb.m);
    }
  }

  /** A trial that is too good passes. */
  lemma {:induction false} TooGoodPasses(pb: Problem, y: Ray, t: real)
    requires GoodRay(pb, y) && t > 0.0 && Passes(pb, y, t, TOO_SMALL)
    ensures Passes(pb, y, t, ALPHA)
  {
    NotUphill(pb, y, t);
  }

  /** Only one trial makes the search start over. */
  lemma {:induction false} StartsOverOnce(pb: Problem, y: Ray, s: real, j: nat, k: nat)
    requires GoodRay(pb, y) && StartsOver(pb, y, s, j) && (StartsOver(pb, y, s, k) || AllGoOn(pb, y, s, 0))
    ensures !AllGoOn(pb, y, s, 0) && j == k
  {
    TooGoodPasses(pb, y, Length(s, j));
    assert !GoesOn(pb, y, Length(s, j));
    TooGoodPasses(pb, y, Length(s, k));
    assert !GoesOn(pb, y, Length(s, k));
  }

  // ----- where it ends -----

  /** What a search begins with: whether it resumes the lengths of the previous one, and with
      which length s; the length t0 of a fresh search; the trial in place. */
  datatype Plan = Plan(resumes: bool, s: real, t0: real, before: Vec)

  ghost predicate GoodPlan(f: Plan) { f.s <= 1.0 && f.t0 <= 1.0 }

  function First(f: Plan, resumes: bool): (s: real) { if resumes then f.s else f.t0 }

  /** The point of the last length from s on; a search that tries none leaves its first trial. */
  ghost function LastPoint(y: Ray, s: real, before: Vec): (v: Vec)
    requires |y.p| == |y.g| && IsBound(y.lb, |y.p|) && IsBound(y.ub, |y.p|) && s <= 1.0
  {
    if s > TMING then PointAt(y, LastLength(s)) else before
  }

  /** The point in place when a search has run out of lengths. One that has started over and
      finds no length to go on with stays where it was too good. */
  ghost function FinalPoint(pb: Problem, y: Ray, f: Plan): (v: Vec)
    requires GoodRay(pb, y) && GoodPlan(f) && RunsOut(pb, y, f.resumes, f.s, f.t0)
  {
    if !f.resumes then LastPoint(y, f.t0, f.before)
    else if AllGoOn(pb, y, f.s, 0) then LastPoint(y, f.s, f.before)
    else if Length(f.t0, 1) > TMING then LastPoint(y, f.t0, f.before)
    else
      var r: nat :| StartsOver(pb, y, f.s, r);
      PointAt(y, Length(f.s, r))
  }

  /** A search that resumes with a length too short tries none, and ends where it began. */
  lemma {:induction false} NoneTried(pb: Problem, y: Ray, f: Plan)
    requires GoodRay(pb, y) && GoodPlan(f) && f.resumes && f.s <= TMING
    ensures RunsOut(pb, y, f.resumes, f.s, f.t0) && FinalPoint(pb, y, f) == f.before
  {
    LengthNext(f.s, 0);
    forall j: nat ensures Length(f.s, j) <= TMING { LengthsEnd(f.s, 0, j); }
    assert AllGoOn(pb, y, f.s, 0);
  }

  lemma {:induction false} FinalTried(pb: Problem, y: Ray, f: Plan)
    requires GoodRay(pb, y) && GoodPlan(f) && RunsOut(pb, y, f.resumes, f.s, f.t0)
    ensures Tried(FinalPoint(pb, y, f), y, f.before)
  {
    forall r: nat ensures Length(f.s, r) <= 1.0 { LengthNext(f.s, r); }
    if f.t0 <= TMING {
      LengthNext(f.t0, 0);
      LengthsEnd(f.t0, 0, 1);
    }
  }

  /** The first lengths, from number `from` on, were long enough and did not pass. */
  ghost predicate WentOn(pb: Problem, y: Ray, s: real, from: nat, k: nat)
    requires GoodRay(pb, y)
  {
    forall j: nat :: from <= j < k ==> Length(s, j) > TMING && GoesOn(pb, y, Length(s, j))
  }

  ghost predicate HasRestarted(pb: Problem, y: Ray, s: real)
    requires GoodRay(pb, y)
  {
    exists r: nat :: StartsOver(pb, y, s, r)
  }

  /** The trial v made the search start over. */
  ghost predicate TooGood(pb: Problem, y: Ray, s: real, v: Vec)
    requires GoodRay(pb, y)
  {
    exists r: nat :: StartsOver(pb, y, s, r) && v == PointAt(y, Length(s, r))
  }

  /** The search about to try length number k. */
  ghost predicate Searching(pb: Problem, y: Ray, f: Plan, resumes: bool, k: nat)
    requires GoodRay(pb, y)
  {
    if resumes then f.resumes && WentOn(pb, y, f.s, 0, k)
    else if f.resumes then k >= 1 && WentOn(pb, y, f.t0, 1, k) && HasRestarted(pb, y, f.s)
    else WentOn(pb, y, f.t0, 0, k)
  }

  /** The trial v is that of the length before number k. */
  ghost predicate InPlace(pb: Problem, y: Ray, f: Plan, resumes: bool, k: nat, v: Vec)
    requires GoodRay(pb, y)
  {
    if k == 0 then v == f.before
    else if k == 1 && f.resumes && !resumes then
      TooGood(pb, y, f.s, v)
    else v == PointAt(y, Length(First(f, resumes), k - 1))
  }

  lemma {:induction false} RanOut(pb: Problem, y: Ray, f: Plan, resumes: bool, k: nat)
    requires GoodRay(pb, y) && Searching(pb, y, f, resumes, k) && Length(First(f, resumes), k) <= TMING
    ensures RunsOut(pb, y, f.resumes, f.s, f.t0) && (resumes ==> AllGoOn(pb, y, f.s, 0))
  {
    forall j: nat | k <= j ensures Length(First(f, resumes), j) <= TMING { LengthsEnd(First(f, resumes), k, j); }
  }

  /** A search that runs out ends at its final point. */
  lemma {:induction false} EndsFinal(pb: Problem, y: Ray, f: Plan, resumes: bool, k: nat, v: Vec)
    requires GoodRay(pb, y) && GoodPlan(f) && Searching(pb, y, f, resumes, k) && InPlace(pb, y, f, resumes, k, v)
    requires Length(First(f, resumes), k) <= TMING && RunsOut(pb, y, f.resumes, f.s, f.t0)
    requires resumes ==> AllGoOn(pb, y, f.s, 0)
    ensures v == FinalPoint(pb, y, f)
  {
    if f.resumes && !resumes {
      EndsRestarted(pb, y, f, k, v);
    } else if k == 0 {
      LengthNext(First(f, resumes), 0);
    } else {
      LastLengthIs(First(f, resumes), k - 1);
    }
  }

  lemma {:induction false} EndsRestarted(pb: Problem, y: Ray, f: Plan, k: nat, v: Vec)
    requires GoodRay(pb, y) && GoodPlan(f) && f.resumes
    requires Searching(pb, y, f, false, k) && InPlace(pb, y, f, false, k, v) && Length(f.t0, k) <= TMING
    requires RunsOut(pb, y, f.resumes, f.s, f.t0)
    ensures v == FinalPoint(pb, y, f)
  {
    OnceRestarted(pb, y, f.s);
    if k == 1 {
      EndsTooGood(pb, y, f, v);
    } else {
      assert Length(f.t0, 1) > TMING;
      LastLengthIs(f.t0, k - 1);
    }
  }

  lemma {:induction false} OnceRestarted(pb: Problem, y: Ray, s: real)
    requires GoodRay(pb, y) && HasRestarted(pb, y, s)
    ensures !AllGoOn(pb, y, s, 0)
  {
    var r: nat :| StartsOver(pb, y, s, r);
    if AllGoOn(pb, y, s, 0) { StartsOverOnce(pb, y, s, r, r); }
  }

  lemma {:induction false} EndsTooGood(pb: Problem, y: Ray, f: Plan, v: Vec)
    requires GoodRay(pb, y) && GoodPlan(f) && f.resumes && TooGood(pb, y, f.s, v) && Length(f.t0, 1) <= TMING
    requires RunsOut(pb, y, f.resumes, f.s, f.t0) && !AllGoOn(pb, y, f.s, 0)
    ensures v == FinalPoint(pb, y, f)
  {
    var r: nat :| StartsOver(pb, y, f.s, r) && v == PointAt(y, Length(f.s, r));
    var j: nat :| StartsOver(pb, y, f.s, j) && FinalPoint(pb, y, f) == PointAt(y, Length(f.s, j));
    StartsOverOnce(pb, y, f.s, j, r);
  }

  /** The length that ends a search does not belong to one that runs out. */
  lemma {:induction false} NotOut(pb: Problem, y: Ray, f: Plan, resumes: bool, k: nat)
    requires GoodRay(pb, y) && Searching(pb, y, f, resumes, k)
    requires var t := Length(First(f, resumes), k);
             t > TMING && !GoesOn(pb, y, t) && !(resumes && FiniteAt(pb, y, t) && Passes(pb, y, t, TOO_SMALL))
    ensures !RunsOut(pb, y, f.resumes, f.s, f.t0)
  {
    if resumes {
      forall r: nat | StartsOver(pb, y, f.s, r) ensures r == k {
        TooGoodPasses(pb, y, Length(f.s, r));
        assert r < k ==> !GoesOn(pb, y, Length(f.s, r));
      }
    } else if f.resumes {
      var r: nat :| StartsOver(pb, y, f.s, r);
      TooGoodPasses(pb, y, Length(f.s, r));
    }
  }

  /** The search about to try the length t, which is number k, with the trial v in place. */
  ghost predicate At(pb: Problem, y: Ray, f: Plan, resumes: bool, t: real, k: nat, v: Vec)
    requires GoodRay(pb, y)
  {
    && t == Length(First(f, resumes), k) && t <= Decay(k)
    && Searching(pb, y, f, resumes, k) && InPlace(pb, y, f, resumes, k, v)
  }

  lemma {:induction false} Begins(pb: Problem, y: Ray, f: Plan)
    requires GoodRay(pb, y) && GoodPlan(f)
    ensures At(pb, y, f, f.resumes, First(f, f.resumes), 0, f.before)
  {
    LengthNext(First(f, f.resumes), 0);
  }

  lemma {:induction false} Shortened(s: real, t: real, k: nat)
    requires t == Length(s, k) && t <= Decay(k)
    ensures t * BETA == Length(s, k + 1) && t * BETA <= Decay(k + 1)
  {
    LengthNext(s, k);
    assert Decay(k + 1) == DecayOnce(Decay(k));
  }

  lemma {:induction false} WentFurther(pb: Problem, y: Ray, f: Plan, resumes: bool, t: real, k: nat, v: Vec)
    requires GoodRay(pb, y) && At(pb, y, f, resumes, t, k, v) && t > TMING && GoesOn(pb, y, t)
    ensures At(pb, y, f, resumes, t * BETA, k + 1, PointAt(y, t))
  {
    Shortened(First(f, resumes), t, k);
  }

  lemma {:induction false} StartedOver(pb: Problem, y: Ray, f: Plan, t: real, k: nat, v: Vec)
    requires GoodRay(pb, y) && At(pb, y, f, true, t, k, v) && f.t0 <= 1.0
    requires t > TMING && FiniteAt(pb, y, t) && Passes(pb, y, t, TOO_SMALL)
    ensures At(pb, y, f, false, f.t0 * BETA, 1, PointAt(y, t))
  {
    LengthNext(f.t0, 0);
    Shortened(f.t0, f.t0, 0);
    assert StartsOver(pb, y, f.s, k);
    assert TooGood(pb, y, f.s, PointAt(y, t)) && HasRestarted(pb, y, f.s);
  }

  /** The trial in place is the one that the caller left, or belongs to a length tried. */
  ghost predicate Tried(v: Vec, y: Ray, before: Vec)
    requires |y.p| == |y.g| && IsBound(y.lb, |y.p|) && IsBound(y.ub, |y.p|)
  {
    v == before || exists t :: TMING < t <= 1.0 && v == PointAt(y, t)
  }

  lemma {:induction false} AtTried(pb: Problem, y: Ray, f: Plan, resumes: bool, t: real, k: nat, v: Vec)
    requires GoodRay(pb, y) && GoodPlan(f) && At(pb, y, f, resumes, t, k, v)
    ensures t <= 1.0 && Tried(v, y, f.before)
  {
    if k == 1 && f.resumes && !resumes {
      var r: nat :| StartsOver(pb, y, f.s, r) && v == PointAt(y, Length(f.s, r));
      LengthNext(f.s, r);
    } else if k > 0 {
      LengthNext(First(f, resumes), k - 1);
      assert Length(First(f, resumes), k - 1) > TMING;
    }
  }

  // ----- the search -----

  /** What the tests make of a trial. */
  datatype Verdict = NotFinite | StartOver | Good | Shorten

  ghost function VerdictOf(pb: Problem, y: Ray, t: real, resumes: bool): (v: Verdict)
    requires GoodRay(pb, y)
  {
    if !FiniteAt(pb, y, t) then NotFinite
    else if resumes && Passes(pb, y, t, TOO_SMALL) then StartOver
    else if Passes(pb, y, t, ALPHA) then Good
    else Shorten
  }

  /** One length is tried. */
  method TryLength(w: Work, pb: Problem, t: real, gprev: bool, cost0: real, lb: Bound, ub: Bound)
    returns (cost: real, v: Verdict)
    requires w.Shape() && GoodProblem(pb) && pb.m == w.m && pb.n == w.n && t > 0.0
    requires IsBox(lb, ub, w.m) && InBox(w.p[..], lb, ub)
    modifies w.pdp, w.dp, w.hx
    ensures var y := Ray(w.p[..], w.g[..], cost0, lb, ub);
            v == VerdictOf(pb, y, t, gprev) && w.pdp[..] == PointAt(y, t)
    ensures Trial(w, pb, cost, lb, ub) && (v.NotFinite? ==> !pb.finite(cost))
    ensures v.Good? && Norm2(Sub(w.pdp[..], w.p[..])) > 0.0 ==> cost < cost0
    ensures v.Good? ==> cost <= cost0 + 2.0 * ALPHA * Dot(w.g[..], Sub(w.pdp[..], w.p[..]), w.m)
  {
    var slope;
    cost, slope := TryGradient(w, pb, t, lb, ub);
    if !pb.finite(cost) { return cost, NotFinite; }
    if gprev && cost <= cost0 + 2.0 * TOO_SMALL * slope { return cost, StartOver; }
    v := if cost <= cost0 + 2.0 * ALPHA * slope then Good else Shorten;
  }

  ghost function PlanOf(w: Work, lib: Library, tPrev: real, gprev: bool): (f: Plan)
    reads w.g, w.pdp
    requires GoodLibrary(lib)
  {
    Plan(gprev, tPrev, StartLength(w.g[..], lib), w.pdp[..])
  }

  /** The length t is tried, and the search goes on with the next one or ends. */
  method OneLength(w: Work, pb: Problem, t: real, t0: real, gprev: bool, cost0: real, lb: Bound,
                   ub: Bound, ghost y: Ray, ghost f: Plan, ghost k: nat)
    returns (cost: real, v: Verdict, t': real, gprev': bool, ghost k': nat)
    requires w.Shape() && GoodRay(pb, y) && pb.m == w.m && pb.n == w.n && y == Ray(w.p[..], w.g[..], cost0, lb, ub)
    requires GoodPlan(f) && t0 == f.t0 && t > TMING && At(pb, y, f, gprev, t, k, w.pdp[..])
    modifies w.pdp, w.dp, w.hx
    ensures Trial(w, pb, cost, lb, ub) && (v.NotFinite? ==> !pb.finite(cost))
    ensures v.Good? && Norm2(Sub(w.pdp[..], w.p[..])) > 0.0 ==> cost < cost0
    ensures v.Good? ==> cost <= cost0 + 2.0 * ALPHA * Dot(w.g[..], Sub(w.pdp[..], w.p[..]), w.m)
    ensures v.NotFinite? || v.Good?
            ==> t' == t <= 1.0 && w.pdp[..] == PointAt(y, t) && !RunsOut(pb, y, f.resumes, f.s, f.t0)
    ensures v.StartOver? || v.Shorten? ==> At(pb, y, f, gprev', t', k', w.pdp[..])
    ensures v.StartOver? ==> gprev && !gprev'
    ensures v.Shorten? ==> gprev' == gprev && k' == k + 1
  {
    AtTried(pb, y, f, gprev, t, k, w.pdp[..]);
    ghost var v0 := w.pdp[..];
    t', gprev', k' := t, gprev, k;
    cost, v := TryLength(w, pb, t, gprev, cost0, lb, ub);
    match v {
      case NotFinite => NotOut(pb, y, f, gprev, k);
      case Good => NotOut(pb, y, f, gprev, k);
      case StartOver =>
        StartedOver(pb, y, f, t, k, v0);
        t', gprev', k' := t0 * BETA, false, 1;
      case Shorten =>
        WentFurther(pb, y, f, gprev, t, k, v0);
        t', k' := t * BETA, k + 1;
    }
  }

  /** The projected-gradient search. It ends with a trial that passed its test, or at a value
      that is not finite, or exhausted: that exactly when the lengths run out, and then at the
      final point. */
  method ProjectedGradient(w: Work, pb: Problem, lib: Library, cost0: real, trial0: real, tPrev: real, gprev0: bool,
                           lb: Bound, ub: Bound)
    returns (t: real, cost: real, exhausted: bool, finite: bool)
    requires w.Shape() && GoodProblem(pb) && pb.m == w.m && pb.n == w.n && GoodLibrary(lib)
    requires IsBox(lb, ub, w.m) && InBox(w.p[..], lb, ub) && Trial(w, pb, trial0, lb, ub) && tPrev <= 1.0
    modifies w.pdp, w.dp, w.hx
    ensures Trial(w, pb, cost, lb, ub) && t <= 1.0
    ensures !exhausted && finite && Norm2(Sub(w.pdp[..], w.p[..])) > 0.0 ==> cost < cost0
    ensures !exhausted && finite ==> w.pdp[..] == GradientPoint(w.p[..], w.g[..], t, lb, ub)
    ensures !exhausted && finite ==> cost <= cost0 + 2.0 * ALPHA * Dot(w.g[..], Sub(w.pdp[..], w.p[..]), w.m)
    ensures exhausted ==> t <= TMING && finite
    ensures !exhausted ==> t > TMING
    ensures exhausted <==> RunsOut(pb, Ray(w.p[..], w.g[..], cost0, lb, ub), gprev0, tPrev, StartLength(w.g[..], lib))
    ensures exhausted ==> w.pdp[..] == FinalPoint(pb, Ray(w.p[..], w.g[..], cost0, lb, ub),
                                                  old(PlanOf(w, lib, tPrev, gprev0)))
    ensures Tried(w.pdp[..], Ray(w.p[..], w.g[..], cost0, lb, ub), old(w.pdp[..])) && (!finite ==> !pb.finite(cost))
  {
    var t0 := FirstLength(w, lib);
    var gprev := gprev0;
    t := if gprev then tPrev else t0;
    cost := trial0;
    ghost var y, f := Ray(w.p[..], w.g[..], cost0, lb, ub), PlanOf(w, lib, tPrev, gprev0);
    ghost var k: nat := 0;
    ghost var steps := DecayEnds();
    Begins(pb, y, f);
    while t > TMING
      invariant Trial(w, pb, cost, lb, ub) && At(pb, y, f, gprev, t, k, w.pdp[..])
      decreases gprev, steps - k
    {
      var v;
      cost, v, t, gprev, k := OneLength(w, pb, t, t0, gprev, cost0, lb, ub, y, f, k);
      if v.NotFinite? || v.Good? { return t, cost, false, v.Good?; }
    }
    RanOut(pb, y, f, gprev, k);
    EndsFinal(pb, y, f, gprev, k, w.pdp[..]);
    AtTried(pb, y, f, gprev, t, k, w.pdp[..]);
    return t, cost, true, true;
  }
}

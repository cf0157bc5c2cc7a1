/**
 A call of LEVMAR_BC_DER (touchscreen_drv/levmar-2.5/lmbc_core.c) that raises the error: one
 iteration from 0, without bounds, for instance on the residual 1 - p + STEEP * p * p. The
 error falls only for steps shorter than any length that the searches try.
 */
module BoxRise {
  import opened LinearAlgebra
  import opened NormalEquations
  import opened Box
  import opened LmDer
  import opened LineSearch
  import opened GradientSearch
  import opened BoxLm

  /** One parameter and one measurement, 0: the residual is `bowl`, the Jacobian of the
      function that is fitted is `slope`. */
  function ValleyAt(bowl: real -> real, v: Vec): (f: Vec) { if |v| == 1 then [-bowl(v[0])] else [] }

  function ValleySlope(slope: real -> real, v: Vec): (j: Mat) { if |v| == 1 then [[slope(v[0])]] else [] }

  function Valley(bowl: real -> real, slope: real -> real): (pb: Problem) {
    Problem(v => ValleyAt(bowl, v), v => ValleySlope(slope, v), _ => true, [0.0], 1, 1)
  }

  /** The residual is 1 at 0 and falls there, and it is larger beyond every length tried. */
  ghost predicate Steep(bowl: real -> real, slope: real -> real) {
    bowl(0.0) == 1.0 && slope(0.0) == 1.0 && forall t :: t > 0.1 * TMING ==> bowl(t) > 1.0
  }

  lemma {:induction false} ValleyGood(bowl: real -> real, slope: real -> real)
    ensures GoodProblem(Valley(bowl, slope))
  {
  }

  lemma {:induction false} DotOne(u: Vec, v: Vec)
    requires |u| == |v| == 1
    ensures Dot(u, v, 1) == Prod(u[0], v[0])
  {
    assert Dot(u, v, 0) == 0.0;
  }

  lemma {:induction false} NormOne(b: real)
    ensures Norm2([b]) == Prod(b, b)
  {
    DotOne([b], [b]);
  }

  lemma {:induction false} SubOne(a: real, b: real)
    ensures Sub([a], [b]) == [a - b] && Add([a], [b]) == [a + b]
  {
  }

  lemma {:induction false} NegatedOne(a: real)
    ensures Negated([a]) == [-a] && Projected([a], Bound.None, Bound.None) == [a]
  {
  }

  lemma {:induction false} ValleyFunc(bowl: real -> real, slope: real -> real, t: real)
    ensures Valley(bowl, slope).func([t]) == [-bowl(t)] && Valley(bowl, slope).jacf([t]) == [[slope(t)]]
  {
    assert ValleyAt(bowl, [t]) == [-bowl(t)] && ValleySlope(slope, [t]) == [[slope(t)]];
  }

  lemma {:induction false} ResidualOne(pb: Problem, v: Vec, b: real)
    requires GoodProblem(pb) && |v| == pb.m == 1 == pb.n && pb.x == [0.0] && pb.func(v) == [-b]
    ensures LmDer.Residual(pb, v) == [b]
  {
  }

  lemma {:induction false} ValleyResidual(bowl: real -> real, slope: real -> real, t: real)
    ensures GoodProblem(Valley(bowl, slope)) && LmDer.Residual(Valley(bowl, slope), [t]) == [bowl(t)]
  {
    ValleyFunc(bowl, slope, t);
    ValleyGood(bowl, slope);
    ResidualOne(Valley(bowl, slope), [t], bowl(t));
  }

  lemma {:induction false} ValleyCost(bowl: real -> real, slope: real -> real, t: real)
    ensures GoodProblem(Valley(bowl, slope)) && Cost(Valley(bowl, slope), [t]) == Prod(bowl(t), bowl(t))
  {
    ValleyResidual(bowl, slope, t);
    NormOne(bowl(t));
  }

  lemma {:induction false} SquareHigh(b: real)
    requires b > 1.0
    ensures Prod(b, b) > 1.0
  {
    ProdPositive(b - 1.0, b + 1.0);
    assert Prod(b - 1.0, b + 1.0) == Prod(b, b) - 1.0;
  }

  /** Every step longer than TMING raises the error. */
  lemma {:induction false} Rises(bowl: real -> real, slope: real -> real, t: real)
    requires Steep(bowl, slope) && t > 0.1 * TMING
    ensures GoodProblem(Valley(bowl, slope)) && Cost(Valley(bowl, slope), [t]) > 1.0
  {
    ValleyCost(bowl, slope, t);
    SquareHigh(bowl(t));
  }

  /** Where the searches start from 0: the Jacobian is 1, the gradient -1. */
  ghost function Origin(): (y: Ray) { Ray([0.0], [-1.0], 1.0, Bound.None, Bound.None) }

  lemma {:induction false} OriginGradient()
    ensures Gradient([[1.0]], 1, [1.0]) == [1.0] && Negated([1.0]) == [-1.0]
  {
    NegatedOne(1.0);
    assert DotCol([1.0], [[1.0]], 0, 0) == 0.0;
  }

  lemma {:induction false} HalfTheWay(mu: real, d: real)
    requires 0.0 < mu <= 1.0 && Prod(1.0 + mu, d) == 1.0
    ensures 0.5 <= d < 1.0
  {
    assert Prod(1.0 + mu, d) == d + Prod(mu, d);
    if d <= 0.0 {
      SignProduct(mu, d);
    } else {
      ProdPositive(mu, d);
      SignProduct(mu - 1.0, d);
      assert (mu - 1.0) * d == Prod(mu, d) - d;
    }
  }

  /** The damped step leads at least half the way to 1. */
  lemma {:induction false} DampedFar(mu: real, d: Vec)
    requires 0.0 < mu <= 1.0 && |d| == 1 && Solves(Damped([[1.0]], 1, mu), d, [1.0])
    ensures 0.5 <= d[0] < 1.0
  {
    GramOne();
    DotOne(Damped([[1.0]], 1, mu)[0], d);
    assert MatVec(Damped([[1.0]], 1, mu), d)[0] == Prod(1.0 + mu, d[0]);
    HalfTheWay(mu, d[0]);
  }

  lemma {:induction false} GramOne()
    ensures Gram([[1.0]], 1)[0][0] == 1.0 && LmDer.Diagonal(Gram([[1.0]], 1), 1) == [1.0]
  {
    assert Column([[1.0]], 0) == [1.0] && DotCol([1.0], [[1.0]], 0, 0) == 0.0;
  }

  /** Options like the default ones of the library. */
  ghost predicate UsualOptions(o: Options) {
    GoodBoxOptions(o) && o.tau <= 1.0 && o.eps1 < 1.0 && o.eps3 < 1.0 && !AlmostSingular(1.0, 0.0, o)
  }

  /** No square root of a number up to 1 exceeds 1. */
  ghost predicate UsualRoot(lib: Library) { forall v :: 0.0 <= v <= 1.0 ==> lib.sqrt(v) <= 1.0 }

  /** The first damping is that of the options. */
  lemma {:induction false} FirstMuTau(bowl: real -> real, slope: real -> real, o: Options, mu: real)
    requires Steep(bowl, slope) && o.lowest < 0.0 && GoodProblem(Valley(bowl, slope))
    requires FirstMuIs(Valley(bowl, slope), o, [0.0], Bound.None, Bound.None, mu)
    ensures mu == o.tau
  {
    ValleyFunc(bowl, slope, 0.0);
    FirstMuOne(Valley(bowl, slope), o, mu);
  }

  lemma {:induction false} FirstMuOne(pb: Problem, o: Options, mu: real)
    requires GoodProblem(pb) && pb.m == 1 && pb.jacf([0.0]) == [[1.0]] && o.lowest < 0.0
    requires FirstMuIs(pb, o, [0.0], Bound.None, Bound.None, mu)
    ensures mu == o.tau
  {
    GramOne();
    var t :| IsMax(LmDer.Diagonal(Gram([[1.0]], 1), 1), o.lowest, t) && mu == Prod(o.tau, t);
    OneIsMax(o.lowest, t);
  }

  lemma {:induction false} OneIsMax(lowest: real, t: real)
    requires lowest < 0.0 && IsMax([1.0], lowest, t)
    ensures t == 1.0
  {
    assert [1.0][0] <= t;
  }

  /** A trial of the first iteration is a long way off. */
  lemma {:induction false} CandidateRises(lib: Library, steptl: real, d: real, v: Vec) returns (t: real)
    requires UsualRoot(lib) && steptl >= 10.0 * TMING && 0.5 <= d < 1.0
    requires Candidate(lib, Origin(), [d], 0.0, steptl, v)
    ensures v == [t] && 0.1 * TMING < t <= 1.0
  {
    var y := Origin();
    SubOne(d, 0.0);
    if v == [d] {
      t := d;
    } else if t0: real :| TMING < t0 <= 1.0 && v == PointAt(y, t0) {
      t := t0;
    } else {
      t := SearchRises(lib, steptl, d, v);
    }
  }

  lemma {:induction false} SearchRises(lib: Library, steptl: real, d: real, v: Vec) returns (t: real)
    requires UsualRoot(lib) && steptl >= 10.0 * TMING && 0.5 <= d < 1.0
    requires SearchPoint(lib, [0.0], [d], 0.0, steptl, v)
    ensures v == [t] && 0.1 * TMING < t <= 1.0
  {
    NotCut(lib, d);
    ScaledOne(d);
    var r: real :| 0.0 < r <= 1.0 && v == Along([0.0], [d], r) && LongEnough([0.0], [d], r, steptl);
    t := Prod(r, d);
    AlongOne(d, r);
    LongOne(d, r, steptl);
  }

  lemma {:induction false} ScaledOne(d: real)
    ensures Scaled([d], 1.0) == [d]
  {
  }

  lemma {:induction false} AlongOne(d: real, r: real)
    ensures Along([0.0], [d], r) == [Prod(r, d)]
  {
    assert Along([0.0], [d], r)[0] == 0.0 + r * d;
  }

  lemma {:induction false} LongOne(d: real, r: real, steptl: real)
    requires steptl >= 10.0 * TMING && 0.5 <= d < 1.0 && 0.0 < r <= 1.0 && LongEnough([0.0], [d], r, steptl)
    ensures 0.1 * TMING < Prod(r, d) <= 1.0
  {
    ProductBelow(r, d);
    if r != 1.0 { assert LongAt([0.0][0], [d][0], r, steptl); }
  }

  lemma {:induction false} NotCut(lib: Library, d: real)
    requires UsualRoot(lib) && 0.5 <= d < 1.0
    ensures StepScale(lib, [d], StepLimit(lib, 0.0)) == 1.0
  {
    NormOne(d);
    ProductBelow(d, d);
    ProdPositive(d, d);
  }

  lemma {:induction false} ProductBelow(a: real, b: real)
    requires 0.0 < a <= 1.0 && 0.0 < b < 1.0
    ensures 0.0 < Prod(a, b) <= 1.0
  {
    ProdPositive(a, b);
    SignProduct(a - 1.0, b);
    assert (a - 1.0) * b == Prod(a, b) - b;
  }

  lemma {:induction false} LongStep(t: real, o: Options)
    requires 0.1 * TMING < t <= 1.0 && o.epsilon > 0.0 && !AlmostSingular(1.0, 0.0, o)
    ensures var d := Norm2(Sub([t], [0.0]));
            !SmallStep(d, 0.0, o.eps2) && !AlmostSingular(d, 0.0, o)
  {
    NormOne(t);
    SubOne(t, 0.0);
    SquareAtMostOne(t);
    NeitherStop(Prod(t, t), o);
  }

  lemma {:induction false} SquareAtMostOne(t: real)
    requires 0.0 < t <= 1.0
    ensures 0.0 < Prod(t, t) <= 1.0
  {
    ProdPositive(t, t);
    SignProduct(t, t - 1.0);
    assert t * (t - 1.0) == Prod(t, t) - t;
  }

  lemma {:induction false} NeitherStop(d: real, o: Options)
    requires 0.0 < d <= 1.0 && o.epsilon > 0.0 && !AlmostSingular(1.0, 0.0, o)
    ensures !SmallStep(d, 0.0, o.eps2) && !AlmostSingular(d, 0.0, o)
  {
    var e := o.epsilon * o.epsilon;
    SquarePositive(o.epsilon);
    assert o.eps2 * o.eps2 * 0.0 == 0.0;
    AlmostSingularIff(1.0, 0.0, o);
    AlmostSingularIff(d, 0.0, o);
    NonNegativeProduct(e, 1.0 - d);
    assert e * (1.0 - d) == e * 1.0 - e * d;
  }

  lemma {:induction false} CandidateWorse(bowl: real -> real, slope: real -> real, o: Options, lib: Library, d: real,
                                          steptl: real, v: Vec)
    requires Steep(bowl, slope) && UsualOptions(o) && UsualRoot(lib) && steptl >= 10.0 * TMING && 0.5 <= d < 1.0
    requires GoodProblem(Valley(bowl, slope)) && Candidate(lib, Origin(), [d], 0.0, steptl, v)
    ensures |v| == 1 && Worse(Valley(bowl, slope), o, v)
  {
    var t := CandidateRises(lib, steptl, d, v);
    LongStep(t, o);
    Rises(bowl, slope, t);
  }

  /** The error at v is larger than 1, and v is no reason to stop at 0. */
  ghost predicate Worse(pb: Problem, o: Options, v: Vec)
    requires GoodProblem(pb) && pb.m == |v| == 1 && o.epsilon > 0.0
  {
    && Cost(pb, v) > 1.0 && pb.finite(Cost(pb, v))
    && !SmallStep(Norm2(Sub(v, [0.0])), 0.0, o.eps2) && !AlmostSingular(Norm2(Sub(v, [0.0])), 0.0, o)
  }

  /** Every trial of the first iteration is like that. */
  lemma {:induction false} FirstTrialRises(bowl: real -> real, slope: real -> real, o: Options, lib: Library, mu: real,
                                           steptl: real, v: Vec)
    requires Steep(bowl, slope) && UsualOptions(o) && UsualRoot(lib) && steptl >= 10.0 * TMING
    requires GoodProblem(Valley(bowl, slope))
    requires FirstMuIs(Valley(bowl, slope), o, [0.0], Bound.None, Bound.None, mu)
    requires TrialOf(Valley(bowl, slope), lib, [0.0], mu, steptl, Bound.None, Bound.None, v)
    ensures |v| == 1 && Worse(Valley(bowl, slope), o, v)
  {
    FirstMuTau(bowl, slope, o, mu);
    var d := FirstDampedStep(bowl, slope, lib, mu, steptl, v);
    CandidateWorse(bowl, slope, o, lib, d, steptl, v);
  }

  lemma {:induction false} FirstDampedStep(bowl: real -> real, slope: real -> real, lib: Library, mu: real,
                                           steptl: real, v: Vec) returns (d: real)
    requires Steep(bowl, slope) && GoodProblem(Valley(bowl, slope)) && 0.0 < mu <= 1.0
    requires TrialOf(Valley(bowl, slope), lib, [0.0], mu, steptl, Bound.None, Bound.None, v)
    ensures 0.5 <= d < 1.0 && Candidate(lib, Origin(), [d], 0.0, steptl, v)
  {
    OriginRay(bowl, slope);
    NormOne(0.0);
    var dp: Vec :| StepSolves(Valley(bowl, slope), [0.0], mu, dp)
      && Candidate(lib, Origin(), Projected(Add([0.0], dp), Bound.None, Bound.None), 0.0, steptl, v);
    d := OriginStep(bowl, slope, mu, dp);
  }

  lemma {:induction false} OriginStep(bowl: real -> real, slope: real -> real, mu: real, dp: Vec) returns (d: real)
    requires Steep(bowl, slope) && GoodProblem(Valley(bowl, slope)) && 0.0 < mu <= 1.0
    requires StepSolves(Valley(bowl, slope), [0.0], mu, dp)
    ensures 0.5 <= d < 1.0 && Projected(Add([0.0], dp), Bound.None, Bound.None) == [d]
  {
    OriginRay(bowl, slope);
    SolvesAtOrigin(Valley(bowl, slope), mu, dp);
    d := dp[0];
    FarEnough(mu, dp, d);
  }

  lemma {:induction false} SolvesAtOrigin(pb: Problem, mu: real, dp: Vec)
    requires GoodProblem(pb) && pb.m == 1 && mu > 0.0 && StepSolves(pb, [0.0], mu, dp)
    requires LmDer.Residual(pb, [0.0]) == [1.0] && pb.jacf([0.0]) == [[1.0]]
    ensures |dp| == 1 && Solves(Damped([[1.0]], 1, mu), dp, [1.0])
  {
    OriginGradient();
  }

  lemma {:induction false} FarEnough(mu: real, dp: Vec, d: real)
    requires 0.0 < mu <= 1.0 && |dp| == 1 && d == dp[0] && Solves(Damped([[1.0]], 1, mu), dp, [1.0])
    ensures 0.5 <= d < 1.0 && Projected(Add([0.0], dp), Bound.None, Bound.None) == [d]
  {
    DampedFar(mu, dp);
    OneEntry(dp);
    SubOne(0.0, d);
    NegatedOne(d);
  }

  lemma {:induction false} OneEntry(v: Vec)
    requires |v| == 1
    ensures v == [v[0]]
  {
  }

  lemma {:induction false} OriginRay(bowl: real -> real, slope: real -> real)
    requires Steep(bowl, slope)
    ensures GoodProblem(Valley(bowl, slope))
            && RayFrom(Valley(bowl, slope), [0.0], Bound.None, Bound.None) == Origin()
            && LmDer.Residual(Valley(bowl, slope), [0.0]) == [1.0] && Valley(bowl, slope).jacf([0.0]) == [[1.0]]
  {
    ValleyCost(bowl, slope, 0.0);
    ValleyResidual(bowl, slope, 0.0);
    ValleyFunc(bowl, slope, 0.0);
    OriginGradient();
  }

  /** At 0 there is no reason not to begin. */
  lemma {:induction false} Begins(bowl: real -> real, slope: real -> real, o: Options, stop: int)
    requires Steep(bowl, slope) && UsualOptions(o) && GoodProblem(Valley(bowl, slope))
    requires BoxLm.StopMeans(Valley(bowl, slope), o, stop, [0.0], Bound.None, Bound.None)
    ensures stop !in {1, 6}
  {
    ValleyCost(bowl, slope, 0.0);
    OriginRay(bowl, slope);
    OriginGradient();
    assert !Stationary([0.0][0], [1.0][0], Bound.None, Bound.None, 0, o.eps1);
  }

  /** A call with these records, limited to one iteration, has made a step, and a bad one. */
  lemma {:induction false} OneStep(bowl: real -> real, slope: real -> real, o: Options, lib: Library, steptl: real,
                                   trace: seq<Mark>, h: Halt, k: nat, p: Vec)
    requires Steep(bowl, slope) && UsualOptions(o) && GoodLibrary(lib) && UsualRoot(lib) && steptl >= 10.0 * TMING
    requires GoodProblem(Valley(bowl, slope)) && |p| == 1 && k <= 1 && (h.reason == 0 ==> k == 1)
    requires Recorded(Valley(bowl, slope), o, lib, trace, h, k, [0.0], p, steptl, Bound.None, Bound.None)
    ensures |trace| == 2 && trace[1].exhausted && Cost(Valley(bowl, slope), p) > 1.0
  {
    if |trace| == 1 {
      NotStuck(bowl, slope, o, lib, steptl, trace, h, p);
    } else {
      var i := 1;
      assert StepOk(Valley(bowl, slope), lib, trace[i - 1], trace[i], steptl, Bound.None, Bound.None);
      StepTried(Valley(bowl, slope), lib, trace[0], trace[1], steptl, Bound.None, Bound.None);
      FirstTrialRises(bowl, slope, o, lib, trace[1].mu, steptl, p);
      ValleyCost(bowl, slope, 0.0);
    }
  }

  /** A call that has not left 0 has had no reason for that. */
  lemma {:induction false} NotStuck(bowl: real -> real, slope: real -> real, o: Options, lib: Library, steptl: real,
                                    trace: seq<Mark>, h: Halt, p: Vec)
    requires Steep(bowl, slope) && UsualOptions(o) && GoodLibrary(lib) && UsualRoot(lib) && steptl >= 10.0 * TMING
    requires GoodProblem(Valley(bowl, slope)) && |p| == 1
    requires |trace| == 1 && trace[0].at == p == [0.0]
    requires FirstDamped(Valley(bowl, slope), o, trace, h, Bound.None, Bound.None) && h.reason in {0, 1, 2, 4, 6, 7}
    requires HaltMeans(Valley(bowl, slope), o, lib, h, p, steptl, Bound.None, Bound.None)
    ensures h.reason == 0
  {
    Begins(bowl, slope, o, h.reason);
    assert Valley(bowl, slope).finite(Cost(Valley(bowl, slope), p));
    if h.reason in {2, 4, 7} { NoReason(bowl, slope, o, lib, steptl, h); }
  }

  lemma {:induction false} NoReason(bowl: real -> real, slope: real -> real, o: Options, lib: Library, steptl: real,
                                    h: Halt)
    requires Steep(bowl, slope) && UsualOptions(o) && UsualRoot(lib) && steptl >= 10.0 * TMING
    requires GoodProblem(Valley(bowl, slope)) && h.reason in {2, 4, 7}
    requires FirstMuIs(Valley(bowl, slope), o, [0.0], Bound.None, Bound.None, h.mu)
    requires InBox([0.0], Bound.None, Bound.None)
    ensures !GivesReason(Valley(bowl, slope), o, lib, h, [0.0], steptl, Bound.None, Bound.None)
  {
    NormOne(0.0);
    if |h.trial| == 1 && TrialOf(Valley(bowl, slope), lib, [0.0], h.mu, steptl, Bound.None, Bound.None, h.trial) {
      FirstTrialRises(bowl, slope, o, lib, h.mu, steptl, h.trial);
    }
  }

  /** The error falls in no call that is limited to one iteration from 0: its step is taken
      by an exhausted search, and the error rises. The call reports one iteration. The options
      are like the usual ones, the square root behaves on numbers up to 1, and the line search
      goes down to lengths of ten times the least at most. */
  method RaisedError(bowl: real -> real, slope: real -> real, o: Options, lib: Library, steptl: real, p: array<real>)
    returns (res: int, stop: int, ghost exhausted: bool)
    requires Steep(bowl, slope) && UsualOptions(o) && GoodLibrary(lib) && UsualRoot(lib) && steptl >= 10.0 * TMING
    requires p[..] == [0.0]
    modifies p
    ensures GoodProblem(Valley(bowl, slope)) && p.Length == 1
    ensures res == 1 && stop == 3 && exhausted
    ensures Cost(Valley(bowl, slope), p[..]) > Cost(Valley(bowl, slope), [0.0]) == 1.0
  {
    var pb := Valley(bowl, slope);
    ValleyGood(bowl, slope);
    NegatedOne(0.0);
    var k;
    ghost var trace, halt;
    res, stop, k, trace, halt := LevmarBcDer(pb, p, Bound.None, Bound.None, 1, o, lib, steptl);
    ValleyCost(bowl, slope, 0.0);
    OneStep(bowl, slope, o, lib, steptl, trace, halt, k, p[..]);
    exhausted := trace[1].exhausted;
  }

  const STEEP := 100000000000000000000.0

  function Parabola(t: real): (r: real) { 1.0 - t + STEEP * Prod(t, t) }

  function ParabolaSlope(t: real): (r: real) { 1.0 - 2.0 * STEEP * t }

  /** A smooth residual of this kind. */
  lemma {:induction false} ParabolaSteep()
    ensures Steep(Parabola, ParabolaSlope)
  {
    forall t | t > 0.1 * TMING ensures Parabola(t) > 1.0 {
      ProdPositive(t, STEEP * t - 1.0);
      assert Prod(t, STEEP * t - 1.0) == STEEP * Prod(t, t) - t;
    }
  }

  /** ... and the call with the library's default options on it: LM_INIT_MU, LM_STOP_THRESH,
      EPSILON, and the step tolerance of a double. */
  method ParabolaRises(lowest: real, lib: Library, p: array<real>) returns (res: int, stop: int)
    requires lowest < 0.0 && GoodLibrary(lib) && UsualRoot(lib) && p[..] == [0.0]
    modifies p
    ensures GoodProblem(Valley(Parabola, ParabolaSlope)) && p.Length == 1 && res == 1 && stop == 3
    ensures Cost(Valley(Parabola, ParabolaSlope), p[..]) > Cost(Valley(Parabola, ParabolaSlope), [0.0]) == 1.0
  {
    var thresh := 0.00000000000000001;
    var o := Options(0.001, thresh, thresh, thresh, lowest, 0.000000000001);
    assert thresh / (0.000000000001 * 0.000000000001) == 10000000.0;
    ParabolaSteep();
    ghost var exhausted;
    res, stop, exhausted := RaisedError(Parabola, ParabolaSlope, o, lib, 0.0000149, p);
  }
}

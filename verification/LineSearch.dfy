/**
 The backtracking line search (touchscreen_drv/levmar-2.5/lmbc_core.c, LNSRCH): its step
 length stays in (0, 1], so that by convexity no trial point leaves the box, and what it
 accepts has a lower error.
 */
module LineSearch {
  import opened LinearAlgebra
  import opened NormalEquations
  import opened Box
  import opened LmDer

  const LSITMAX := 150

  /** The functions of the C library, and what the cubic fit yields when its leading
      coefficient vanishes. */
  datatype Library = Library(sqrt: real -> real, pow: real -> real, cubicAtZero: real)

  ghost predicate GoodLibrary(lib: Library) {
    && (forall v :: v >= 0.0 ==> lib.sqrt(v) >= 0.0)
    && (forall v :: v > 0.0 ==> lib.pow(v) > 0.0)
  }

  // ----- the step length -----

  lemma {:induction false} QuotientBelow(l: real, s: real, d: real)
    requires l > 0.0 && 0.0 < s < d
    ensures 0.0 < l * s / d < l
  {
    var q := l * s / d;
    assert q * d == l * s;
    ProdPositive(l, s);
    ProdPositive(l, d - s);
    assert l * (d - s) == l * d - l * s;
    assert (l - q) * d == l * d - q * d;
    if q <= 0.0 { SignProduct(q, d); }
    if q >= l { SignProduct(l - q, d); }
  }

  /** The test for a sufficient decrease of half the error. */
  predicate Enough(fpls: real, f: real, slp: real, alpha: real, ratio: real) { fpls <= f + slp * alpha * ratio }

  /** The predicted decrease at step length ratio is at most half the slope. */
  lemma {:induction false} Slack(slp: real, alpha: real, ratio: real, rise: real)
    requires slp < 0.0 && 0.0 < alpha <= 0.5 && 0.0 < ratio <= 1.0 && rise > slp * alpha * ratio
    ensures 2.0 * (rise - slp) > -slp
  {
    SignProduct(alpha, ratio - 1.0);
    assert alpha * (ratio - 1.0) == alpha * ratio - alpha;
    SignProduct(slp, 0.5 - alpha * ratio);
    assert slp * (0.5 - alpha * ratio) == 0.5 * slp - slp * (alpha * ratio);
    assert slp * alpha * ratio == slp * (alpha * ratio);
  }

  /** The first backtrack: the lowest point of the parabola with the given slope at zero,
      below the current step length. */
  method QuadraticFit(ratio: real, slp: real, fpls: real, f: real, alpha: real) returns (t: real)
    requires slp < 0.0 && 0.0 < alpha <= 0.5 && 0.0 < ratio <= 1.0 && !Enough(fpls, f, slp, alpha, ratio)
    ensures 0.0 < t < ratio && 2.0 * (fpls - f - slp) * t + slp * ratio == 0.0
  {
    Slack(slp, alpha, ratio, fpls - f);
    QuotientBelow(ratio, -slp, (fpls - f - slp) * 2.0);
    assert -ratio * slp == ratio * -slp;
    t := -ratio * slp / ((fpls - f - slp) * 2.0);
    assert t * ((fpls - f - slp) * 2.0) == -ratio * slp;
  }

  /** Three times the leading coefficient of a cubic, and the next one: the derivative at t is
      a3 * t * t + 2 * b * t + slp. */
  datatype Fit = Fit(a3: real, b: real)

  function CubicThrough(ratio: real, slp: real, fpls: real, f: real, prevRatio: real, pfpls: real): (c: Fit)
    requires ratio > 0.0 && prevRatio > 0.0 && ratio != prevRatio
  {
    SquarePositive(ratio);
    SquarePositive(prevRatio);
    var t1 := fpls - f - ratio * slp;
    var t2 := pfpls - f - prevRatio * slp;
    var t3 := 1.0 / (ratio - prevRatio);
    Coefficients(ratio, prevRatio, t1, t2, t3)
  }

  /** ... from how far the trials lie off the tangent. */
  function Coefficients(ratio: real, prevRatio: real, t1: real, t2: real, t3: real): (c: Fit)
    requires ratio > 0.0 && prevRatio > 0.0
  {
    SquarePositive(ratio);
    SquarePositive(prevRatio);
    Fit(3.0 * t3 * (t1 / (ratio * ratio) - t2 / (prevRatio * prevRatio)),
        t3 * (t2 * ratio / (prevRatio * prevRatio) - t1 * prevRatio / (ratio * ratio)))
  }

  /** The cubic with value f and slope slp at zero. */
  function CubicAt(c: Fit, f: real, slp: real, x: real): (v: real) {
    f + slp * x + c.b * x * x + c.a3 / 3.0 * x * x * x
  }

  /** The cubic goes through both trials. */
  lemma {:induction false} ThroughTrials(ratio: real, slp: real, fpls: real, f: real, prevRatio: real, pfpls: real)
    requires ratio > 0.0 && prevRatio > 0.0 && ratio != prevRatio
    ensures var c := CubicThrough(ratio, slp, fpls, f, prevRatio, pfpls);
            CubicAt(c, f, slp, ratio) == fpls && CubicAt(c, f, slp, prevRatio) == pfpls
  {
    var t1, t2, t3 := fpls - f - ratio * slp, pfpls - f - prevRatio * slp, 1.0 / (ratio - prevRatio);
    assert t3 * (ratio - prevRatio) == 1.0;
    ThroughOffsets(ratio, prevRatio, t1, t2, t3, f, slp);
  }

  lemma {:induction false} ThroughOffsets(ratio: real, prevRatio: real, t1: real, t2: real, t3: real, f: real,
                                          slp: real)
    requires ratio > 0.0 && prevRatio > 0.0 && t3 * (ratio - prevRatio) == 1.0
    ensures var c := Coefficients(ratio, prevRatio, t1, t2, t3);
            && CubicAt(c, f, slp, ratio) == f + slp * ratio + t1
            && CubicAt(c, f, slp, prevRatio) == f + slp * prevRatio + t2
  {
    SquarePositive(ratio);
    SquarePositive(prevRatio);
    var c := Coefficients(ratio, prevRatio, t1, t2, t3);
    var u1, u2 := t1 / (ratio * ratio), t2 / (prevRatio * prevRatio);
    QuotientTimes(t2, ratio, prevRatio * prevRatio);
    QuotientTimes(t1, prevRatio, ratio * ratio);
    SameProduct(t3, t2 * ratio / (prevRatio * prevRatio) - t1 * prevRatio / (ratio * ratio),
                u2 * ratio - u1 * prevRatio);
    SameProduct(3.0 * t3, t1 / (ratio * ratio) - t2 / (prevRatio * prevRatio), u1 - u2);
    Matches(c, ratio, prevRatio, t3, u1, u2);
    ValueAt(c, f, slp, ratio, u1, t1);
    ValueAt(c, f, slp, prevRatio, u2, t2);
  }

  lemma {:induction false} SameProduct(t: real, a: real, b: real)
    requires a == b
    ensures t * a == t * b
  {
  }

  lemma {:induction false} QuotientTimes(a: real, b: real, d: real)
    requires d != 0.0
    ensures a * b / d == a / d * b
  {
    var q := a / d;
    assert q * d == a;
    assert a * b == q * b * d;
  }

  lemma {:induction false} Matches(c: Fit, r: real, q: real, t3: real, u1: real, u2: real)
    requires t3 * (r - q) == 1.0 && c.b == t3 * (u2 * r - u1 * q) && c.a3 == 3.0 * t3 * (u1 - u2)
    ensures c.b + c.a3 / 3.0 * r == u1 && c.b + c.a3 / 3.0 * q == u2
  {
    var lead := t3 * (u1 - u2);
    assert c.a3 / 3.0 == lead;
    assert c.b + lead * r == u1 * (t3 * (r - q));
    assert c.b + lead * q == u2 * (t3 * (r - q));
  }

  lemma {:induction false} ValueAt(c: Fit, f: real, slp: real, x: real, u: real, t: real)
    requires x > 0.0 && c.b + c.a3 / 3.0 * x == u && u == t / (x * x)
    ensures CubicAt(c, f, slp, x) == f + slp * x + t
  {
    SquarePositive(x);
    assert u * (x * x) == t;
    assert (c.b + c.a3 / 3.0 * x) * (x * x) == c.b * x * x + c.a3 / 3.0 * x * x * x;
  }

  /** A critical point where the cubic does not bend down is its lowest point up to there. */
  lemma {:induction false} LowestUpTo(c: Fit, f: real, slp: real, t: real, x: real)
    requires slp <= 0.0 && Critical(c, slp, t) && c.a3 * t + c.b >= 0.0 && 0.0 <= x <= t
    ensures CubicAt(c, f, slp, x) >= CubicAt(c, f, slp, t)
  {
    var lead, bend := c.a3 / 3.0, c.a3 * t + c.b + c.a3 / 3.0 * (x - t);
    BendsUp(c, slp, t, x);
    Difference(c.b, lead, f, slp, t, x);
    if x < t { ProductAtLeastZero((x - t) * (x - t), bend); }
  }

  lemma {:induction false} BendsUp(c: Fit, slp: real, t: real, x: real)
    requires slp <= 0.0 && Critical(c, slp, t) && c.a3 * t + c.b >= 0.0 && 0.0 <= x <= t
    ensures x < t ==> c.a3 * t + c.b + c.a3 / 3.0 * (x - t) >= 0.0
  {
    if x < t {
      if c.a3 <= 0.0 {
        ProductAtLeastZero(-c.a3 / 3.0, t - x);
        assert -c.a3 / 3.0 * (t - x) == c.a3 / 3.0 * (x - t);
      } else {
        var s := c.a3 * t + 2.0 * c.b;
        assert t * s == -slp;
        NotNegative(t, s);
        ProductAtLeastZero(c.a3 / 3.0, x);
        ProductAtLeastZero(c.a3, t);
        assert c.a3 / 3.0 * (x - t) == c.a3 / 3.0 * x - c.a3 * t / 3.0;
      }
    }
  }

  lemma {:induction false} NotNegative(t: real, s: real)
    requires t > 0.0 && t * s >= 0.0
    ensures s >= 0.0
  {
    if s < 0.0 { ProdPositive(t, -s); }
  }

  lemma {:induction false} ProductAtLeastZero(a: real, b: real)
    requires a >= 0.0 && b >= 0.0
    ensures a * b >= 0.0
  {
  }

  lemma {:induction false} Difference(b: real, lead: real, f: real, slp: real, t: real, x: real)
    requires 3.0 * lead * t * t + 2.0 * b * t + slp == 0.0
    ensures (f + slp * x + b * x * x + lead * x * x * x) - (f + slp * t + b * t * t + lead * t * t * t)
         == (x - t) * (x - t) * (3.0 * lead * t + b + lead * (x - t))
  {
    var d := x - t;
    assert x == t + d;
    assert b * x * x == b * t * t + 2.0 * b * t * d + b * d * d;
    assert lead * x * x * x
        == lead * t * t * t + 3.0 * lead * t * t * d + 3.0 * lead * t * d * d + lead * d * d * d;
    assert (3.0 * lead * t * t + 2.0 * b * t + slp) * d == 0.0;
  }

  /** The square root of the C library is exact at v. */
  predicate ExactRoot(lib: Library, v: real) { lib.sqrt(v) * lib.sqrt(v) == v }

  function Discriminant(c: Fit, slp: real): (d: real) { c.b * c.b - c.a3 * slp }

  /** A proper fit with an exact root is a critical point. */
  predicate Fits(c: Fit, slp: real, lib: Library, t: real) {
    c.a3 != 0.0 && ExactRoot(lib, Discriminant(c, slp)) ==> Critical(c, slp, t)
  }

  predicate Critical(c: Fit, slp: real, t: real) { c.a3 * t * t + 2.0 * c.b * t + slp == 0.0 }

  /** The fit is the lowest point of the cubic up to there. */
  ghost predicate Lowest(c: Fit, f: real, slp: real, lib: Library, t: real) {
    slp < 0.0 && c.a3 != 0.0 && ExactRoot(lib, Discriminant(c, slp)) && lib.sqrt(Discriminant(c, slp)) >= 0.0
    ==> forall x :: 0.0 <= x <= t ==> CubicAt(c, f, slp, x) >= CubicAt(c, f, slp, t)
  }

  lemma {:induction false} FitLowest(c: Fit, f: real, slp: real, lib: Library, t: real, r: real, disc: real)
    requires disc == Discriminant(c, slp) && Fits(c, slp, lib, t) && (c.a3 != 0.0 ==> c.a3 * t + c.b == r)
    requires r == if (disc > c.b * c.b) == (c.a3 < 0.0) then -lib.sqrt(disc) else lib.sqrt(disc)
    ensures Lowest(c, f, slp, lib, t)
  {
    if slp < 0.0 && c.a3 != 0.0 && ExactRoot(lib, disc) && lib.sqrt(disc) >= 0.0 {
      if c.a3 > 0.0 { ProdPositive(c.a3, -slp); } else { ProdPositive(-c.a3, -slp); }
      forall x | 0.0 <= x <= t ensures CubicAt(c, f, slp, x) >= CubicAt(c, f, slp, t) { LowestUpTo(c, f, slp, t, x); }
    }
  }

  lemma {:induction false} RootCritical(c: Fit, slp: real, r: real, t: real)
    requires c.a3 != 0.0 && r * r == c.b * c.b - c.a3 * slp && t == (-c.b + r) / c.a3
    ensures Critical(c, slp, t)
  {
    var a, b := c.a3, c.b;
    assert a * t == r - b;
    var x := a * t * t + 2.0 * b * t + slp;
    assert a * x == (a * t) * (a * t) + 2.0 * b * (a * t) + a * slp;
    assert (r - b) * (r - b) + 2.0 * b * (r - b) == r * r - b * b;
    assert a * x == 0.0;
    if x != 0.0 { NonzeroProduct(a, x); }
  }

  lemma {:induction false} NonzeroProduct(a: real, x: real)
    requires a != 0.0 && x != 0.0
    ensures a * x != 0.0
  {
    assert (a * x) / a == x;
  }

  /** Later backtracks: a critical point of the cubic, cut off at half the step length. */
  method CubicFit(ratio: real, slp: real, fpls: real, f: real, prevRatio: real, pfpls: real, lib: Library)
    returns (t: real)
    requires 0.0 < ratio < prevRatio
    ensures t <= 0.5 * ratio
    ensures t == 0.5 * ratio || Fits(CubicThrough(ratio, slp, fpls, f, prevRatio, pfpls), slp, lib, t)
    ensures t == 0.5 * ratio || Lowest(CubicThrough(ratio, slp, fpls, f, prevRatio, pfpls), f, slp, lib, t)
  {
    var c := CubicThrough(ratio, slp, fpls, f, prevRatio, pfpls);
    var disc := Discriminant(c, slp);
    var r := if (disc > c.b * c.b) == (c.a3 < 0.0) then -lib.sqrt(disc) else lib.sqrt(disc);
    t := CriticalPoint(c, slp, r, lib);
    FitLowest(c, f, slp, lib, t, r, disc);
    if t > ratio * 0.5 { t := ratio * 0.5; }
  }

  method CriticalPoint(c: Fit, slp: real, r: real, lib: Library) returns (t: real)
    requires r == lib.sqrt(Discriminant(c, slp)) || r == -lib.sqrt(Discriminant(c, slp))
    ensures Fits(c, slp, lib, t) && (c.a3 != 0.0 ==> c.a3 * t + c.b == r)
  {
    if c.a3 == 0.0 {
      t := lib.cubicAtZero;
    } else {
      t := (-c.b + r) / c.a3;
      if ExactRoot(lib, Discriminant(c, slp)) { RootCritical(c, slp, r, t); }
    }
  }

  /** What the search remembers of the previous trial. */
  datatype Previous = Previous(first: bool, prevRatio: real, pfpls: real)

  ghost predicate Remembers(v: Previous, ratio: real) { v.first || v.prevRatio > ratio }

  /** The next step length: always shorter, and except after a value that is not finite at
      least a tenth of the last. */
  method Backtrack(ratio: real, v: Previous, slp: real, fpls: real, f: real, alpha: real, finite: bool, lib: Library)
    returns (ratio': real, v': Previous)
    requires slp < 0.0 && 0.0 < alpha <= 0.5 && 0.0 < ratio <= 1.0 && !Enough(fpls, f, slp, alpha, ratio)
             && Remembers(v, ratio)
    ensures 0.1 * ratio <= ratio' < ratio && Remembers(v', ratio')
    ensures finite && !v.first ==> ratio' <= 0.5 * ratio
  {
    if !finite { return ratio * 0.1, v.(first := true); }
    var t;
    if v.first {
      t := QuadraticFit(ratio, slp, fpls, f, alpha);
    } else {
      t := CubicFit(ratio, slp, fpls, f, v.prevRatio, v.pfpls, lib);
    }
    v' := Previous(false, ratio, fpls);
    ratio' := if t < ratio * 0.1 then ratio * 0.1 else t;
  }

  // ----- the search -----

  ghost function Scaled(d: Vec, s: real): (r: Vec)
    ensures |r| == |d|
  {
    seq(|d|, i requires 0 <= i < |d| => s * d[i])
  }

  method ScaleBy(a: array<real>, s: real)
    modifies a
    ensures a[..] == Scaled(old(a[..]), s)
  {
    ghost var r := Scaled(a[..], s);
    for i := 0 to a.Length
      invariant forall k :: 0 <= k < i ==> a[k] == r[k]
      invariant forall k :: i <= k < a.Length ==> a[k] == old(a[k])
    {
      a[i] := a[i] * s;
    }
    assert a[..] == r;
  }

  /** The factor that cuts a step to the maximal length. */
  function StepScale(lib: Library, d: Vec, stepmx: real): (s: real)
    requires stepmx > 0.0
    ensures 0.0 < s <= 1.0
    ensures var sln := lib.sqrt(Norm2(d)); if sln > stepmx then s * sln == stepmx else s == 1.0
  {
    var sln := lib.sqrt(Norm2(d));
    if sln > stepmx then
      QuotientBelow(1.0, stepmx, sln);
      stepmx / sln
    else 1.0
  }

  /** Cuts the step to the maximal length. */
  method LimitStep(w: Work, stepmx: real, lib: Library) returns (ghost scl: real)
    requires w.Shape() && stepmx > 0.0
    modifies w.dp
    ensures scl == StepScale(lib, old(w.dp[..]), stepmx) && w.dp[..] == Scaled(old(w.dp[..]), scl)
  {
    var t := 0.0;
    for i := 0 to w.m
      invariant t == Dot(w.dp[..], w.dp[..], i)
    {
      t := t + w.dp[i] * w.dp[i];
    }
    var sln := lib.sqrt(t);
    scl := 1.0;
    if sln > stepmx {
      QuotientBelow(1.0, stepmx, sln);
      var s := stepmx / sln;
      scl := s;
      ScaleBy(w.dp, s);
    } else {
      assert w.dp[..] == Scaled(w.dp[..], 1.0);
    }
  }

  method Slope(w: Work) returns (slp: real)
    requires w.Shape()
    ensures slp == Dot(w.g[..], w.dp[..], w.m)
  {
    slp := 0.0;
    for i := 0 to w.m
      invariant slp == Dot(w.g[..], w.dp[..], i)
    {
      slp := slp + w.g[i] * w.dp[i];
    }
  }

  function RelativeAt(p: real, d: real): (r: real)
    ensures d != 0.0 ==> r > 0.0
    ensures r >= 0.0
  {
    var scale := if Abs(p) >= 1.0 then Abs(p) else 1.0;
    if d != 0.0 then PositiveQuotient(Abs(d), scale); Abs(d) / scale else Abs(d) / scale
  }

  /** The relative length of the step, its largest relative coordinate; it is positive
      because the step is not zero. */
  method RelativeLength(w: Work) returns (rln: real)
    requires w.Shape() && Dot(w.g[..], w.dp[..], w.m) != 0.0
    ensures rln > 0.0 && (forall i :: 0 <= i < w.m ==> RelativeAt(w.p[i], w.dp[i]) <= rln)
    ensures exists i :: 0 <= i < w.m && RelativeAt(w.p[i], w.dp[i]) == rln
  {
    rln := 0.0;
    ghost var at := 0;
    for i := 0 to w.m
      invariant rln >= 0.0 && forall k :: 0 <= k < i ==> RelativeAt(w.p[k], w.dp[k]) <= rln
      invariant rln > 0.0 ==> 0 <= at < i && RelativeAt(w.p[at], w.dp[at]) == rln
    {
      var t := RelativeAt(w.p[i], w.dp[i]);
      if rln < t { rln, at := t, i; }
    }
    if rln == 0.0 {
      forall k | 0 <= k < w.m ensures w.dp[..][k] == 0.0 { assert RelativeAt(w.p[k], w.dp[k]) <= rln; }
      DotZero(w.g[..], w.dp[..], w.m);
    }
  }

  lemma {:induction false} PositiveQuotient(a: real, b: real)
    requires a > 0.0 && b > 0.0
    ensures a / b > 0.0
  {
    var q := a / b;
    assert q * b == a;
    if q <= 0.0 { SignProduct(q, b); }
  }

  /** The trial point for a step length, its residual and its cost. */
  method Probe(w: Work, pb: Problem, ratio: real) returns (cost: real)
    requires w.Shape() && GoodProblem(pb) && pb.m == w.m && pb.n == w.n
    modifies w.pdp, w.hx
    ensures w.pdp[..] == Along(w.p[..], w.dp[..], ratio)
    ensures w.hx[..] == LmDer.Residual(pb, w.pdp[..]) && cost == Cost(pb, w.pdp[..])
  {
    ghost var y := Along(w.p[..], w.dp[..], ratio);
    for i := 0 to w.m
      invariant forall k :: 0 <= k < i ==> w.pdp[k] == y[k]
    {
      w.pdp[i] := w.p[i] + ratio * w.dp[i];
    }
    assert w.pdp[..] == y;
    cost := w.Evaluate(pb);
  }

  /** A trial that passed its test has a lower cost. */
  lemma {:induction false} TestPassed(cost: real, cost0: real, slp: real, alpha: real, ratio: real)
    requires slp < 0.0 && alpha > 0.0 && ratio > 0.0 && Enough(0.5 * cost, 0.5 * cost0, slp, alpha, ratio)
    ensures cost < cost0
  {
    ProdPositive(alpha, ratio);
    ProdPositive(-slp, alpha * ratio);
    assert slp * alpha * ratio == -Prod(-slp, alpha * ratio);
  }

  lemma {:induction false} ScaledSlope(g: Vec, d: Vec, s: real)
    requires |g| == |d| && s > 0.0 && Dot(g, d, |d|) < 0.0
    ensures Dot(g, Scaled(d, s), |d|) < 0.0
  {
    DotSym(g, Scaled(d, s), |d|);
    DotScale(s, d, Scaled(d, s), g, |d|);
    DotSym(d, g, |d|);
    ProdPositive(s, -Dot(g, d, |d|));
    assert s * Dot(g, d, |d|) == -Prod(s, -Dot(g, d, |d|));
  }

  /** A trial is either the whole step, or at least a tenth of the smallest relative length
      that the caller asks for. */
  ghost predicate LongEnough(p: Vec, d: Vec, ratio: real, steptl: real) {
    ratio == 1.0
    || (|p| == |d| && exists i :: 0 <= i < |p| && LongAt(p[i], d[i], ratio, steptl))
  }

  predicate LongAt(p: real, d: real, ratio: real, steptl: real) { 10.0 * Prod(ratio, RelativeAt(p, d)) >= steptl }

  lemma {:induction false} FloorKept(ratio: real, floor: real, rln: real, steptl: real)
    requires rln > 0.0 && floor == steptl / rln && 10.0 * ratio >= floor
    ensures 10.0 * Prod(ratio, rln) >= steptl
  {
    assert floor * rln == steptl;
    SignProduct(floor - 10.0 * ratio, rln);
    assert (floor - 10.0 * ratio) * rln == floor * rln - 10.0 * (ratio * rln);
  }

  lemma {:induction false} FloorReached(w: Work, ratio: real, rln: real, steptl: real)
    requires w.Shape() && rln > 0.0 && (ratio == 1.0 || 10.0 * ratio >= steptl / rln)
    requires exists i :: 0 <= i < w.m && RelativeAt(w.p[i], w.dp[i]) == rln
    ensures LongEnough(w.p[..], w.dp[..], ratio, steptl)
  {
    if ratio != 1.0 {
      var i :| 0 <= i < w.m && RelativeAt(w.p[i], w.dp[i]) == rln;
      FloorKept(ratio, steptl / rln, rln, steptl);
      assert LongAt(w.p[..][i], w.dp[..][i], ratio, steptl);
    }
  }

  /** LNSRCH, from a point of the box along a direction that stays in the box. Every trial
      point is feasible; success means a lower cost. */
  method Lnsrch(w: Work, pb: Problem, lib: Library, cost0: real, alpha: real, stepmx: real, steptl: real, lb: Bound,
                ub: Bound)
    returns (iretcd: int, cost: real, ghost ratio: real)
    requires w.Shape() && GoodProblem(pb) && pb.m == w.m && pb.n == w.n
    requires 0.0 < alpha <= 0.5 && stepmx > 0.0 && cost0 == Cost(pb, w.p[..])
    requires InBox(w.p[..], lb, ub) && InBox(Add(w.p[..], w.dp[..]), lb, ub)
    requires Dot(w.g[..], w.dp[..], w.m) < 0.0
    modifies w.dp, w.pdp, w.hx
    ensures InBox(w.pdp[..], lb, ub)
    ensures w.hx[..] == LmDer.Residual(pb, w.pdp[..]) && cost == Cost(pb, w.pdp[..])
    ensures iretcd in {0, 1} && (iretcd == 0 ==> cost < cost0)
    ensures 0.0 < ratio <= 1.0 && w.pdp[..] == Along(w.p[..], w.dp[..], ratio)
    ensures LongEnough(w.p[..], w.dp[..], ratio, steptl)
            && w.dp[..] == Scaled(old(w.dp[..]), StepScale(lib, old(w.dp[..]), stepmx))
    ensures iretcd == 0 <==> Enough(0.5 * cost, 0.5 * cost0, Dot(w.g[..], w.dp[..], w.m), alpha, ratio)
  {
    ghost var d := w.dp[..];
    ghost var scl := LimitStep(w, stepmx, lib);
    Convex(w.p[..], d, scl, lb, ub);
    assert Add(w.p[..], w.dp[..]) == Along(w.p[..], d, scl);
    ScaledSlope(w.g[..], d, scl);
    iretcd, cost, ratio := Search(w, pb, lib, cost0, alpha, steptl, lb, ub);
  }

  /** A trial and its test. */
  method ProbeAndTest(w: Work, pb: Problem, ratio: real, cost0: real, f: real, slp: real, alpha: real)
    returns (cost: real, fpls: real, enough: bool)
    requires w.Shape() && GoodProblem(pb) && pb.m == w.m && pb.n == w.n
    requires f == 0.5 * cost0 && slp == Dot(w.g[..], w.dp[..], w.m) < 0.0 && alpha > 0.0 && ratio > 0.0
    modifies w.pdp, w.hx
    ensures w.pdp[..] == Along(w.p[..], w.dp[..], ratio)
    ensures w.hx[..] == LmDer.Residual(pb, w.pdp[..]) && cost == Cost(pb, w.pdp[..])
    ensures fpls == 0.5 * cost && enough == Enough(fpls, f, slp, alpha, ratio) && (enough ==> cost < cost0)
    ensures enough == Enough(0.5 * cost, 0.5 * cost0, Dot(w.g[..], w.dp[..], w.m), alpha, ratio)
  {
    cost := Probe(w, pb, ratio);
    fpls := 0.5 * cost;
    enough := Enough(fpls, f, slp, alpha, ratio);
    if enough { TestPassed(cost, cost0, slp, alpha, ratio); }
  }

  /** The trials, at most LSITMAX + 1 of them. */
  method Search(w: Work, pb: Problem, lib: Library, cost0: real, alpha: real, steptl: real, lb: Bound, ub: Bound)
    returns (iretcd: int, cost: real, ghost ratio: real)
    requires w.Shape() && GoodProblem(pb) && pb.m == w.m && pb.n == w.n
    requires 0.0 < alpha <= 0.5 && cost0 == Cost(pb, w.p[..])
    requires InBox(w.p[..], lb, ub) && InBox(Add(w.p[..], w.dp[..]), lb, ub)
    requires Dot(w.g[..], w.dp[..], w.m) < 0.0
    modifies w.pdp, w.hx
    ensures InBox(w.pdp[..], lb, ub)
    ensures w.hx[..] == LmDer.Residual(pb, w.pdp[..]) && cost == Cost(pb, w.pdp[..])
    ensures iretcd in {0, 1} && (iretcd == 0 ==> cost < cost0)
    ensures 0.0 < ratio <= 1.0 && w.pdp[..] == Along(w.p[..], w.dp[..], ratio)
            && LongEnough(w.p[..], w.dp[..], ratio, steptl)
    ensures (iretcd == 0) == Enough(0.5 * cost, 0.5 * cost0, Dot(w.g[..], w.dp[..], w.m), alpha, ratio)
  {
    var f := 0.5 * cost0;
    var slp := Slope(w);
    var rln := RelativeLength(w);
    var rmnlmb := steptl / rln;
    var length, v := 1.0, Previous(true, 0.0, 0.0);
    var j := LSITMAX;
    while true
      invariant 0 <= j <= LSITMAX && 0.0 < length <= 1.0 && Remembers(v, length)
      invariant length == 1.0 || 10.0 * length >= rmnlmb
      decreases j
    {
      ratio := length;
      FloorReached(w, length, rln, steptl);
      Convex(w.p[..], w.dp[..], length, lb, ub);
      var fpls, enough;
      cost, fpls, enough := ProbeAndTest(w, pb, length, cost0, f, slp, alpha);
      if enough { return 0, cost, ratio; }
      if length < rmnlmb { return 1, cost, ratio; }
      if j == 0 { return 1, cost, ratio; }
      length, v := Backtrack(length, v, slp, fpls, f, alpha, pb.finite(fpls), lib);
      j := j - 1;
    }
  }
}

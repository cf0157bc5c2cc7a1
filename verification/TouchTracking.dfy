/**
 The second half of calc_point (touchscreen_drv/ts_srv.c) as a function of the touches
 that the scan found: matching with the previous frame, tracking ids, filters, debouncing
 and delayed reporting, over whole runs of frames and liftoffs.
 */
module TouchTracking {
  const MAX_TOUCH := 10
  const MAX_DELTA_SQ := 130 * 130
  const MIN_PREV_DELTA_SQ := 40 * 40
  const MAX_DELTA_ANGLE := 0.25
  const FAR := 1000000
  const DEBOUNCE_RADIUS := 10
  const HOVER_DEBOUNCE_RADIUS := 2
  const HOVER_DEBOUNCE_DELAY := 30
  const X_RESOLUTION := 1024
  const Y_RESOLUTION := 768
  const TRACKING_ID_LIMIT := 2147483000

  datatype TouchPoint = TouchPoint(
    pw: int, i: real, j: real, trackingId: int, prevLoc: int, direction: real, distance: int,
    touchMajor: int, x: int, y: int, unfilteredX: int, unfilteredY: int,
    highestVal: int, touchDelay: int, hoverX: int, hoverY: int, hoverDelay: int)

  /** The thresholds that set_ts_mode chooses. */
  datatype Settings = Settings(initial: int, continued: int, delayed: int, delayCount: int)

  const FINGER := Settings(32, 26, 28, 5)
  const STYLUS := Settings(32, 16, 24, 2)

  /** The arctangent of the C library. */
  type Atan2 = (int, int) -> real

  function Abs(v: int): int { if v < 0 then -v else v }
  function AbsReal(v: real): real { if v < 0.0 then -v else v }

  /** Conversion to int: the fraction is dropped. */
  function Trunc(v: real): int { if v >= 0.0 then v.Floor else -(-v).Floor }

  // ----- matching -----

  function SquaredDistance(t: TouchPoint, p: TouchPoint): (d: int)
    ensures d >= 0
  {
    var dx, dy := t.unfilteredX - p.unfilteredX, t.unfilteredY - p.unfilteredY;
    dx * dx + dy * dy
  }

  datatype Match = Match(loc: int, distance: int)

  /** The closest of the first n previous touches that are not suppressed. */
  function Nearest(prev: seq<TouchPoint>, t: TouchPoint, n: nat): (r: Match)
    requires n <= |prev|
    ensures -1 <= r.loc < n
  {
    if n == 0 then Match(-1, FAR)
    else
      var r := Nearest(prev, t, n - 1);
      var p := prev[n - 1];
      if p.highestVal != 0 && SquaredDistance(t, p) < r.distance then Match(n - 1, SquaredDistance(t, p)) else r
  }

  function Matches(prev: seq<TouchPoint>, cur: seq<TouchPoint>): (m: seq<Match>)
    ensures |m| == |cur|
  {
    seq(|cur|, i requires 0 <= i < |cur| => Nearest(prev, cur[i], |prev|))
  }

  /** What Nearest promises: nothing suppressed, nothing nearer, the first among equals, and
      nothing at all when everything is further than FAR. */
  lemma {:induction false} NearestIsNearest(prev: seq<TouchPoint>, t: TouchPoint, n: nat)
    requires n <= |prev|
    ensures var r := Nearest(prev, t, n);
      && (r.loc >= 0 ==> prev[r.loc].highestVal != 0 && r.distance == SquaredDistance(t, prev[r.loc]) < FAR)
      && (r.loc < 0 ==> r.distance == FAR)
      && (forall j :: 0 <= j < n && prev[j].highestVal != 0 ==> r.distance <= SquaredDistance(t, prev[j]))
      && (forall j :: 0 <= j < r.loc && prev[j].highestVal != 0 ==> r.distance < SquaredDistance(t, prev[j]))
  {
    if n > 0 { NearestIsNearest(prev, t, n - 1); }
  }

  /** Touch j has a better claim than touch i: closer, or equally close and later. */
  predicate Beats(m: seq<Match>, j: nat, i: nat)
    requires i < |m| && j < |m|
  {
    m[j].distance < m[i].distance || (m[j].distance == m[i].distance && j > i)
  }

  /** Touch i loses its claim to a rival for the same previous touch. */
  ghost predicate Loses(m: seq<Match>, i: nat)
    requires i < |m|
  {
    exists j :: 0 <= j < |m| && j != i && m[j].loc == m[i].loc && Beats(m, j, i)
  }

  /** The claims that survive. */
  ghost function Winners(m: seq<Match>): (w: seq<int>)
    ensures |w| == |m|
  {
    seq(|m|, i requires 0 <= i < |m| => if m[i].loc > -1 && !Loses(m, i) then m[i].loc else -1)
  }

  /** Among the claimants of a previous touch one beats all others. */
  lemma {:induction false} BestClaimant(m: seq<Match>, p: int, n: nat) returns (b: nat)
    requires n <= |m| && exists i :: 0 <= i < n && m[i].loc == p
    ensures b < n && m[b].loc == p
    ensures forall j :: 0 <= j < n && j != b && m[j].loc == p ==> Beats(m, b, j)
  {
    if exists i :: 0 <= i < n - 1 && m[i].loc == p {
      b := BestClaimant(m, p, n - 1);
      if m[n - 1].loc == p && Beats(m, n - 1, b) { b := n - 1; }
    } else {
      b := n - 1;
    }
  }

  /** Matching is injective and optimal: two touches never keep the same previous touch, and
      every claimed previous touch is kept by exactly its best claimant. */
  lemma {:induction false} WinnersInjective(m: seq<Match>, i: nat, j: nat)
    requires i < j < |m| && Winners(m)[i] >= 0
    ensures Winners(m)[i] != Winners(m)[j]
  {
    if Beats(m, i, j) { } else { assert Beats(m, j, i); }
  }

  lemma {:induction false} WinnersOptimal(m: seq<Match>, i: nat)
    requires i < |m| && m[i].loc >= 0
    ensures exists b :: 0 <= b < |m| && Winners(m)[b] == m[i].loc && IsBest(m, b)
  {
    var b := BestClaimant(m, m[i].loc, |m|);
    assert !Loses(m, b);
    assert Winners(m)[b] == m[i].loc && IsBest(m, b);
  }

  /** Every rival of touch b for the same previous touch is beaten by b. */
  ghost predicate IsBest(m: seq<Match>, b: nat)
    requires b < |m|
  {
    forall j :: 0 <= j < |m| && j != b && m[j].loc == m[b].loc ==> Beats(m, b, j)
  }

  // ----- one touch -----

  /** Each touch of prev that continues an earlier one continues a live touch of prev2. */
  predicate Linked<T>(prev2: seq<T>, prev: seq<TouchPoint>) {
    forall k {:trigger LinkOk(prev[k], |prev2|)} :: 0 <= k < |prev| ==> LinkOk(prev[k], |prev2|)
  }

  predicate LinkOk(t: TouchPoint, n: nat) { -1 <= t.prevLoc < n }

  /** A touch without a predecessor. */
  function NewTouch(s: Settings, t: TouchPoint, counter: int): (r: (TouchPoint, int)) {
    if t.highestVal > s.delayed then
      (t.(trackingId := counter, touchDelay := if t.highestVal <= s.initial then s.delayCount else t.touchDelay),
       counter + 1)
    else
      (t.(highestVal := 0), counter)
  }

  /** The weighted average with the previous position and the one before it. */
  function AvgFilter(t: TouchPoint, p: TouchPoint, prev2: seq<TouchPoint>): (r: TouchPoint)
    requires LinkOk(p, |prev2|)
  {
    var xsum, ysum := 4 * t.unfilteredX + 2 * p.unfilteredX, 4 * t.unfilteredY + 2 * p.unfilteredY;
    if p.prevLoc > -1 then
      var q := prev2[p.prevLoc];
      t.(x := Trunc((xsum + q.unfilteredX) as real / 7.0), y := Trunc((ysum + q.unfilteredY) as real / 7.0))
    else
      t.(x := Trunc(xsum as real / 6.0), y := Trunc(ysum as real / 6.0))
  }

  /** Holds a finger that hardly moves at the place where it came to rest. */
  function HoverDebounce(t: TouchPoint, p: TouchPoint): (r: TouchPoint) {
    if Abs(t.x - p.hoverX) < HOVER_DEBOUNCE_RADIUS && Abs(t.y - p.hoverY) < HOVER_DEBOUNCE_RADIUS then
      var u := if p.hoverDelay == 0 then t.(x := p.hoverX, y := p.hoverY, hoverDelay := p.hoverDelay)
               else t.(hoverDelay := p.hoverDelay - 1);
      if p.hoverDelay == 1 then u else u.(hoverX := p.hoverX, hoverY := p.hoverY)
    else
      t.(hoverDelay := HOVER_DEBOUNCE_DELAY)
  }

  /** A touch that continues previous touch number loc. */
  function ContinuedTouch(atan2: Atan2, t: TouchPoint, p: TouchPoint, prev2: seq<TouchPoint>, m: Match): (r: TouchPoint)
    requires LinkOk(p, |prev2|)
  {
    var u := t.(trackingId := p.trackingId, prevLoc := m.loc, touchDelay := p.touchDelay,
                distance := m.distance, direction := atan2(t.x - p.x, t.y - p.y));
    HoverDebounce(AvgFilter(u, p, prev2), p)
  }

  /** A touch that is too far from its predecessor: a new touch, unless the predecessor was
      already moving fast in the same direction. */
  function JumpedTouch(s: Settings, atan2: Atan2, t: TouchPoint, p: TouchPoint, counter: int): (r: (TouchPoint, int)) {
    if p.distance > MIN_PREV_DELTA_SQ then
      var u := t.(direction := atan2(t.x - p.x, t.y - p.y));
      if AbsReal(u.direction - p.direction) < MAX_DELTA_ANGLE then (u, counter) else NewTouch(s, u, counter)
    else
      NewTouch(s, t, counter)
  }

  function Assigned(s: Settings, atan2: Atan2, prev: seq<TouchPoint>, prev2: seq<TouchPoint>, t: TouchPoint,
                    m: Match, counter: int)
    : (r: (TouchPoint, int))
    requires m.loc < |prev|
    requires Linked(prev2, prev)
  {
    if m.loc > -1 then
      if m.distance > MAX_DELTA_SQ then JumpedTouch(s, atan2, t, prev[m.loc], counter)
      else (ContinuedTouch(atan2, t, prev[m.loc], prev2, m), counter)
    else NewTouch(s, t, counter)
  }

  // ----- one frame -----

  /** The surviving claim of touch i. */
  ghost function Claim(m: seq<Match>, i: nat): (r: Match)
    requires i < |m|
  {
    Match(Winners(m)[i], m[i].distance)
  }

  /** The first n touches of the frame after id assignment, and the id counter. */
  ghost function AssignAll(s: Settings, atan2: Atan2, prev2: seq<TouchPoint>, prev: seq<TouchPoint>,
                           cur: seq<TouchPoint>, counter: int, n: nat)
    : (r: (seq<TouchPoint>, int))
    requires Linked(prev2, prev) && n <= |cur|
    ensures |r.0| == n
  {
    if n == 0 then ([], counter)
    else
      var (done, c) := AssignAll(s, atan2, prev2, prev, cur, counter, n - 1);
      var (t, c') := Assigned(s, atan2, prev, prev2, cur[n - 1], Claim(Matches(prev, cur), n - 1), c);
      (done + [t], c')
  }

  /** The single-touch debounce: a lone finger that stays near where it came down is
      reported there. The third and fourth result are the remembered place. */
  function Debounced(cur: seq<TouchPoint>, isNew: bool, initialX: int, initialY: int): (r: (seq<TouchPoint>, int, int))
    ensures |r.0| == |cur|
  {
    if |cur| == 1 then
      if isNew then (cur, cur[0].x, cur[0].y)
      else if initialX > -20 then
        if Abs(initialX - cur[0].x) <= DEBOUNCE_RADIUS && Abs(initialY - cur[0].y) <= DEBOUNCE_RADIUS
        then ([cur[0].(x := initialX, y := initialY)], initialX, initialY)
        else (cur, -100, initialY)
      else (cur, initialX, initialY)
    else (cur, initialX, initialY)
  }

  datatype Report = Report(trackingId: int, touchMajor: int, x: int, y: int, pressure: int)

  predicate Sent(t: TouchPoint) { t.highestVal != 0 && t.touchDelay == 0 }

  function ReportOf(t: TouchPoint): Report { Report(t.trackingId, t.touchMajor, t.x, t.y, t.pw) }

  function Reports(cur: seq<TouchPoint>): (r: seq<Report>) {
    if cur == [] then []
    else
      var r := Reports(cur[..|cur| - 1]);
      var t := cur[|cur| - 1];
      if Sent(t) then r + [ReportOf(t)] else r
  }

  /** A touch that is not reported yet comes one frame closer to it. */
  function Counted(t: TouchPoint): (r: TouchPoint) {
    if !Sent(t) && t.touchDelay != 0 then t.(touchDelay := t.touchDelay - 1) else t
  }

  function CountedAll(cur: seq<TouchPoint>): (r: seq<TouchPoint>)
    ensures |r| == |cur|
  {
    seq(|cur|, i requires 0 <= i < |cur| => Counted(cur[i]))
  }

  /** What one frame hands to the next: the live touches of the frame and of the frame
      before it, the id counter and the debounce place. */
  datatype Track = Track(older: seq<TouchPoint>, cur: seq<TouchPoint>, counter: int, initialX: int, initialY: int)

  /** The touches of a frame as they are reported, and the id counter before it may start
      over. */
  datatype Outcome = Outcome(track: Track, touches: seq<TouchPoint>, reports: seq<Report>, ids: int)

  /** One call of calc_point on the scanned touches; `lifted` says that the current row of
      the table looks cleared, so that there is nothing to match with. */
  ghost function Frame(s: Settings, atan2: Atan2, t: Track, lifted: bool, scanned: seq<TouchPoint>): (o: Outcome)
    requires Linked(t.older, t.cur)
    ensures |o.track.cur| == |scanned| == |o.touches|
  {
    var prev2, prev := if lifted then [] else t.older, if lifted then [] else t.cur;
    var (given, c) := AssignAll(s, atan2, prev2, prev, scanned, t.counter, |scanned|);
    var (touches, ix, iy) := Debounced(given, lifted, t.initialX, t.initialY);
    Outcome(Track(prev, CountedAll(touches), if c > TRACKING_ID_LIMIT then 0 else c, ix, iy), touches,
            Reports(touches), c)
  }

  // ----- invariants of a run -----

  predicate OnScreen(t: TouchPoint) {
    && 0 <= t.x < X_RESOLUTION && 0 <= t.y < Y_RESOLUTION
    && 0 <= t.unfilteredX < X_RESOLUTION && 0 <= t.unfilteredY < Y_RESOLUTION
    && 0 <= t.hoverX < X_RESOLUTION && 0 <= t.hoverY < Y_RESOLUTION
  }

  ghost predicate AllOnScreen(cur: seq<TouchPoint>) {
    forall i {:trigger OnScreen(cur[i])} :: 0 <= i < |cur| ==> OnScreen(cur[i])
  }

  ghost predicate DebouncePlace(x: int, y: int) {
    (x == -100 || 0 <= x < X_RESOLUTION) && 0 <= y < Y_RESOLUTION
  }

  /** The non-negative ids are pairwise different and already handed out. */
  ghost predicate IdsOk(cur: seq<TouchPoint>, counter: int) {
    && (forall i {:trigger IdUsed(cur[i], counter)} :: 0 <= i < |cur| ==> IdUsed(cur[i], counter))
    && (forall i, j {:trigger IdsDiffer(cur[i], cur[j])} :: 0 <= i < j < |cur| ==> IdsDiffer(cur[i], cur[j]))
  }

  predicate IdUsed(t: TouchPoint, counter: int) { t.trackingId < counter }
  predicate IdsDiffer(t: TouchPoint, u: TouchPoint) { t.trackingId >= 0 ==> t.trackingId != u.trackingId }

  /** A touch as the scan produces it. */
  ghost predicate Scanned(s: Settings, t: TouchPoint) {
    && OnScreen(t) && t.trackingId == -1 && t.prevLoc == -1 && t.touchDelay == 0
    && t.highestVal > s.continued
  }

  ghost predicate AllScanned(s: Settings, cur: seq<TouchPoint>) {
    |cur| <= MAX_TOUCH && forall i :: 0 <= i < |cur| ==> Scanned(s, cur[i])
  }

  ghost predicate Sane(s: Settings) {
    s.continued >= 0 && s.delayCount >= 0
  }

  /** The history of a touch: the strongest reading when its chain of matches began, how
      often it has been withheld since, and the thresholds in force at the beginning. */
  datatype Chain = Chain(start: int, withheld: nat, rules: Settings)

  ghost function ChainBefore(s: Settings, chains: seq<Chain>, t: TouchPoint, scan: TouchPoint): (c: Chain)
    requires LinkOk(t, |chains|)
  {
    if t.prevLoc >= 0 then chains[t.prevLoc] else Chain(scan.highestVal, 0, s)
  }

  ghost function ChainAfter(s: Settings, chains: seq<Chain>, t: TouchPoint, scan: TouchPoint): (c: Chain)
    requires LinkOk(t, |chains|)
  {
    var c := ChainBefore(s, chains, t, scan);
    if !Sent(t) && t.touchDelay != 0 then c.(withheld := c.withheld + 1) else c
  }

  /** A touch with an id is due once its chain began strong, or has been withheld often
      enough; until then its delay counts the frames that remain. */
  ghost predicate DelayOk(t: TouchPoint, c: Chain) {
    && t.trackingId >= -1
    && (t.highestVal == 0 ==> t.trackingId == -1)
    && (t.trackingId == -1 ==> t.touchDelay == 0)
    && (t.trackingId >= 0 ==>
        (c.start > c.rules.initial && c.start > c.rules.delayed && t.touchDelay == 0 && c.withheld == 0)
        || (c.rules.delayed < c.start <= c.rules.initial && t.touchDelay >= 0
            && t.touchDelay + c.withheld == c.rules.delayCount))
  }

  ghost predicate DelaysOk(cur: seq<TouchPoint>, chains: seq<Chain>) {
    |chains| == |cur| && forall i {:trigger DelayOk(cur[i], chains[i])} :: 0 <= i < |cur| ==> DelayOk(cur[i], chains[i])
  }

  /** The state of a run, with the history of the live touches and whether the id counter
      has started over while touches were live. */
  datatype RunState = RunState(track: Track, chains: seq<Chain>, reset: bool)

  ghost predicate Inv(r: RunState) {
    && Linked(r.track.older, r.track.cur)
    && AllOnScreen(r.track.older) && AllOnScreen(r.track.cur)
    && DebouncePlace(r.track.initialX, r.track.initialY)
    && 0 <= r.track.counter <= TRACKING_ID_LIMIT
    && (!r.reset ==> IdsOk(r.track.cur, r.track.counter))
    && DelaysOk(r.track.cur, r.chains)
  }

  /** A frame under the given thresholds, or a liftoff that clears the arrays. The mode may
      change between any two frames. */
  datatype Event = Scan(s: Settings, lifted: bool, scanned: seq<TouchPoint>) | Clear

  ghost predicate GoodEvent(e: Event) {
    e.Scan? ==> Sane(e.s) && AllScanned(e.s, e.scanned)
  }

  ghost predicate GoodEvents(events: seq<Event>) {
    forall k :: 0 <= k < |events| ==> GoodEvent(events[k])
  }

  // ----- one frame keeps the invariants -----

  lemma {:induction false} TruncRange(v: real, hi: int)
    requires 0.0 <= v <= hi as real
    ensures 0 <= Trunc(v) <= hi
  {
  }

  lemma {:induction false} AverageRange(a: int, b: int, c: int, hi: int)
    requires 0 <= a <= hi && 0 <= b <= hi && 0 <= c <= hi
    ensures 0 <= Trunc((4 * a + 2 * b) as real / 6.0) <= hi
    ensures 0 <= Trunc((4 * a + 2 * b + c) as real / 7.0) <= hi
  {
    QuotientRange(4 * a + 2 * b, 6, hi);
    QuotientRange(4 * a + 2 * b + c, 7, hi);
  }

  lemma {:induction false} QuotientRange(n: int, d: int, hi: int)
    requires d > 0 && 0 <= n <= d * hi
    ensures 0 <= Trunc(n as real / d as real) <= hi
  {
    var q := n as real / d as real;
    assert q * d as real == n as real;
    assert n as real <= d as real * hi as real by { assert (d * hi) as real == d as real * hi as real; }
    TruncRange(q, hi);
  }

  lemma {:induction false} ContinuedOnScreen(atan2: Atan2, t: TouchPoint, p: TouchPoint, prev2: seq<TouchPoint>,
                                             m: Match)
    requires LinkOk(p, |prev2|)
    requires OnScreen(t) && OnScreen(p) && AllOnScreen(prev2)
    ensures OnScreen(ContinuedTouch(atan2, t, p, prev2, m))
  {
    if p.prevLoc > -1 { assert OnScreen(prev2[p.prevLoc]); }
    var qx, qy := if p.prevLoc > -1 then prev2[p.prevLoc].unfilteredX else 0,
        if p.prevLoc > -1 then prev2[p.prevLoc].unfilteredY else 0;
    AverageRange(t.unfilteredX, p.unfilteredX, qx, X_RESOLUTION - 1);
    AverageRange(t.unfilteredY, p.unfilteredY, qy, Y_RESOLUTION - 1);
  }

  /** What the assignment does to one scanned touch, in terms of its predecessor if any. */
  ghost predicate AssignedOk(s: Settings, prev: seq<TouchPoint>, chains: seq<Chain>, scan: TouchPoint, m: Match,
                             c: int, u: TouchPoint, c': int)
    requires |chains| == |prev|
  {
    && OnScreen(u) && -1 <= u.prevLoc < |prev|
    && (u.prevLoc >= 0 <==> m.loc >= 0 && m.distance <= MAX_DELTA_SQ)
    && (u.prevLoc >= 0 ==> u.prevLoc == m.loc && u.trackingId == prev[m.loc].trackingId && c' == c)
    && (u.prevLoc < 0 ==> (u.trackingId == c && c' == c + 1) || (u.trackingId == -1 && c' == c))
    && DelayOk(u, ChainBefore(s, chains, u, scan))
  }

  lemma {:induction false} NewKeeps(s: Settings, prev: seq<TouchPoint>, chains: seq<Chain>, t: TouchPoint,
                                    u: TouchPoint, m: Match, c: int)
    requires Sane(s) && Scanned(s, t) && c >= 0 && |chains| == |prev|
    requires m.loc < 0 || m.distance > MAX_DELTA_SQ
    requires u == t.(direction := u.direction)
    ensures var (r, c') := NewTouch(s, u, c); AssignedOk(s, prev, chains, t, m, c, r, c')
    ensures AssignedOk(s, prev, chains, t, m, c, u, c)
  {
  }

  lemma {:induction false} ContinuedKeeps(s: Settings, atan2: Atan2, prev: seq<TouchPoint>, prev2: seq<TouchPoint>,
                                          chains: seq<Chain>,
                                          t: TouchPoint, m: Match, c: int)
    requires Sane(s) && Scanned(s, t) && c >= 0
    requires Linked(prev2, prev) && AllOnScreen(prev) && AllOnScreen(prev2) && DelaysOk(prev, chains)
    requires 0 <= m.loc < |prev| && m.distance <= MAX_DELTA_SQ && prev[m.loc].highestVal != 0
    ensures AssignedOk(s, prev, chains, t, m, c, ContinuedTouch(atan2, t, prev[m.loc], prev2, m), c)
  {
    assert OnScreen(prev[m.loc]);
    ContinuedOnScreen(atan2, t, prev[m.loc], prev2, m);
    assert DelayOk(prev[m.loc], chains[m.loc]);
  }

  lemma {:induction false} AssignedKeeps(s: Settings, atan2: Atan2, prev: seq<TouchPoint>, prev2: seq<TouchPoint>,
                                         chains: seq<Chain>,
                                         t: TouchPoint, m: Match, c: int)
    requires Sane(s) && Scanned(s, t) && c >= 0
    requires Linked(prev2, prev) && AllOnScreen(prev) && AllOnScreen(prev2) && DelaysOk(prev, chains)
    requires -1 <= m.loc < |prev| && (m.loc >= 0 ==> prev[m.loc].highestVal != 0)
    ensures var (u, c') := Assigned(s, atan2, prev, prev2, t, m, c); AssignedOk(s, prev, chains, t, m, c, u, c')
  {
    if m.loc > -1 && m.distance <= MAX_DELTA_SQ {
      ContinuedKeeps(s, atan2, prev, prev2, chains, t, m, c);
    } else {
      NewKeeps(s, prev, chains, t, t, m, c);
      if m.loc > -1 {
        var p := prev[m.loc];
        NewKeeps(s, prev, chains, t, t.(direction := atan2(t.x - p.x, t.y - p.y)), m, c);
      }
    }
  }

  /** The counter before touch i is assigned. */
  ghost function CounterAt(s: Settings, atan2: Atan2, prev2: seq<TouchPoint>, prev: seq<TouchPoint>,
                           cur: seq<TouchPoint>, counter: int, i: nat): int
    requires Linked(prev2, prev) && i <= |cur|
  {
    AssignAll(s, atan2, prev2, prev, cur, counter, i).1
  }

  lemma {:induction false} AssignAllAt(s: Settings, atan2: Atan2, prev2: seq<TouchPoint>, prev: seq<TouchPoint>,
                                       cur: seq<TouchPoint>, counter: int, n: nat, i: nat)
    requires Linked(prev2, prev) && i < n <= |cur|
    ensures Assigned(s, atan2, prev, prev2, cur[i], Claim(Matches(prev, cur), i),
                     CounterAt(s, atan2, prev2, prev, cur, counter, i))
         == (AssignAll(s, atan2, prev2, prev, cur, counter, n).0[i],
             CounterAt(s, atan2, prev2, prev, cur, counter, i + 1))
  {
    if i < n - 1 { AssignAllAt(s, atan2, prev2, prev, cur, counter, n - 1, i); }
  }

  lemma {:induction false} ClaimNotSuppressed(prev: seq<TouchPoint>, cur: seq<TouchPoint>, i: nat)
    requires i < |cur|
    ensures var m := Claim(Matches(prev, cur), i);
            -1 <= m.loc < |prev| && (m.loc >= 0 ==> prev[m.loc].highestVal != 0)
  {
    NearestIsNearest(prev, cur[i], |prev|);
  }

  /** The touches of a frame after assignment, with the counters in between. */
  ghost predicate GivenOk(s: Settings, prev: seq<TouchPoint>, chains: seq<Chain>, cur: seq<TouchPoint>,
                          m: seq<Match>, given: seq<TouchPoint>, counters: seq<int>)
    requires |chains| == |prev|
  {
    && |m| == |cur| == |given| && |counters| == |cur| + 1
    && forall i :: 0 <= i < |cur| ==>
         AssignedOk(s, prev, chains, cur[i], Claim(m, i), counters[i], given[i], counters[i + 1])
  }

  lemma {:induction false} CountersGrow(s: Settings, atan2: Atan2, prev2: seq<TouchPoint>, prev: seq<TouchPoint>,
                                        chains: seq<Chain>, cur: seq<TouchPoint>, counter: int, n: nat)
    requires Sane(s) && n <= |cur| && counter >= 0 && AllScanned(s, cur)
    requires Linked(prev2, prev) && AllOnScreen(prev) && AllOnScreen(prev2) && DelaysOk(prev, chains)
    ensures counter <= CounterAt(s, atan2, prev2, prev, cur, counter, n) <= counter + n
  {
    if n > 0 {
      CountersGrow(s, atan2, prev2, prev, chains, cur, counter, n - 1);
      ClaimNotSuppressed(prev, cur, n - 1);
      AssignedKeeps(s, atan2, prev, prev2, chains, cur[n - 1], Claim(Matches(prev, cur), n - 1),
                    CounterAt(s, atan2, prev2, prev, cur, counter, n - 1));
    }
  }

  lemma {:induction false} AssignAllKeeps(s: Settings, atan2: Atan2, prev2: seq<TouchPoint>, prev: seq<TouchPoint>,
                                          chains: seq<Chain>, cur: seq<TouchPoint>, counter: int)
    returns (counters: seq<int>)
    requires Sane(s) && counter >= 0 && AllScanned(s, cur)
    requires Linked(prev2, prev) && AllOnScreen(prev) && AllOnScreen(prev2) && DelaysOk(prev, chains)
    ensures var (given, c) := AssignAll(s, atan2, prev2, prev, cur, counter, |cur|);
            GivenOk(s, prev, chains, cur, Matches(prev, cur), given, counters) && counters[|cur|] == c
    ensures counters[0] == counter
    ensures forall i :: 0 <= i <= |cur| ==> counter <= counters[i] <= counter + |cur|
  {
    counters := seq(|cur| + 1, i requires 0 <= i <= |cur| => CounterAt(s, atan2, prev2, prev, cur, counter, i));
    forall i | 0 <= i <= |cur| ensures counter <= counters[i] <= counter + i {
      CountersGrow(s, atan2, prev2, prev, chains, cur, counter, i);
    }
    var (given, c) := AssignAll(s, atan2, prev2, prev, cur, counter, |cur|);
    forall i | 0 <= i < |cur|
      ensures AssignedOk(s, prev, chains, cur[i], Claim(Matches(prev, cur), i), counters[i], given[i], counters[i + 1])
    {
      AssignAllAt(s, atan2, prev2, prev, cur, counter, |cur|, i);
      ClaimNotSuppressed(prev, cur, i);
      AssignedKeeps(s, atan2, prev, prev2, chains, cur[i], Claim(Matches(prev, cur), i), counters[i]);
    }
  }

  // ----- tracking ids -----

  lemma {:induction false} CountersMonotone(s: Settings, prev: seq<TouchPoint>, chains: seq<Chain>,
                                            cur: seq<TouchPoint>, m: seq<Match>, given: seq<TouchPoint>,
                                                counters: seq<int>, i: nat, j: nat)
    requires |chains| == |prev| && GivenOk(s, prev, chains, cur, m, given, counters)
    requires i <= j < |counters|
    ensures counters[i] <= counters[j]
  {
    if i < j {
      CountersMonotone(s, prev, chains, cur, m, given, counters, i, j - 1);
      assert AssignedOk(s, prev, chains, cur[j - 1], Claim(m, j - 1), counters[j - 1], given[j - 1],
                        counters[j - 1 + 1]);
    }
  }

  /** Ids stay distinct: continued touches keep different ids because matching is injective,
      new ones take ids that were never used. */
  lemma {:induction false} IdsStayDistinct(s: Settings, prev: seq<TouchPoint>, chains: seq<Chain>,
                                           cur: seq<TouchPoint>, m: seq<Match>, given: seq<TouchPoint>,
                                               counters: seq<int>, i: nat, j: nat)
    requires |chains| == |prev| && GivenOk(s, prev, chains, cur, m, given, counters)
    requires counters[0] >= 0 && IdsOk(prev, counters[0]) && i < j < |cur|
    ensures IdsDiffer(given[i], given[j])
  {
    var a, b := given[i], given[j];
    assert AssignedOk(s, prev, chains, cur[i], Claim(m, i), counters[i], a, counters[i + 1]);
    assert AssignedOk(s, prev, chains, cur[j], Claim(m, j), counters[j], b, counters[j + 1]);
    CountersMonotone(s, prev, chains, cur, m, given, counters, 0, i);
    CountersMonotone(s, prev, chains, cur, m, given, counters, i + 1, j);
    if a.prevLoc >= 0 { assert IdUsed(prev[a.prevLoc], counters[0]); }
    if b.prevLoc >= 0 { assert IdUsed(prev[b.prevLoc], counters[0]); }
    if a.prevLoc >= 0 && b.prevLoc >= 0 {
      WinnersInjective(m, i, j);
      assert if a.prevLoc < b.prevLoc then IdsDiffer(prev[a.prevLoc], prev[b.prevLoc])
             else IdsDiffer(prev[b.prevLoc], prev[a.prevLoc]);
    }
  }

  lemma {:induction false} IdStaysUsed(s: Settings, prev: seq<TouchPoint>, chains: seq<Chain>, cur: seq<TouchPoint>,
                                       m: seq<Match>, given: seq<TouchPoint>, counters: seq<int>, i: nat)
    requires |chains| == |prev| && GivenOk(s, prev, chains, cur, m, given, counters)
    requires counters[0] >= 0 && IdsOk(prev, counters[0]) && i < |cur|
    ensures IdUsed(given[i], counters[|cur|])
  {
    assert AssignedOk(s, prev, chains, cur[i], Claim(m, i), counters[i], given[i], counters[i + 1]);
    CountersMonotone(s, prev, chains, cur, m, given, counters, 0, i);
    CountersMonotone(s, prev, chains, cur, m, given, counters, i + 1, |cur|);
    if given[i].prevLoc >= 0 { assert IdUsed(prev[given[i].prevLoc], counters[0]); }
  }

  lemma {:induction false} IdsStayOk(s: Settings, prev: seq<TouchPoint>, chains: seq<Chain>, cur: seq<TouchPoint>,
                                     m: seq<Match>, given: seq<TouchPoint>, counters: seq<int>)
    requires |chains| == |prev| && GivenOk(s, prev, chains, cur, m, given, counters)
    requires counters[0] >= 0 && IdsOk(prev, counters[0])
    ensures IdsOk(given, counters[|cur|])
  {
    forall i | 0 <= i < |cur| ensures IdUsed(given[i], counters[|cur|]) {
      IdStaysUsed(s, prev, chains, cur, m, given, counters, i);
    }
    forall i, j | 0 <= i < j < |cur| ensures IdsDiffer(given[i], given[j]) {
      IdsStayDistinct(s, prev, chains, cur, m, given, counters, i, j);
    }
  }

  // ----- whole runs -----

  ghost function ChainsAfter(s: Settings, chains: seq<Chain>, touches: seq<TouchPoint>,
                             scanned: seq<TouchPoint>): (r: seq<Chain>)
    requires |touches| == |scanned| && Linked(chains, touches)
    ensures |r| == |touches|
  {
    seq(|touches|, i requires 0 <= i < |touches| => ChainAfter(s, chains, touches[i], scanned[i]))
  }

  /** The live touches that a frame starts from. */
  ghost function PrevOf(r: RunState, lifted: bool): seq<TouchPoint> { if lifted then [] else r.track.cur }
  ghost function ChainsOf(r: RunState, lifted: bool): seq<Chain> { if lifted then [] else r.chains }

  /** Everything a frame promises about the touches it has just processed. */
  ghost predicate GoodFrame(s: Settings, r: RunState, lifted: bool, scanned: seq<TouchPoint>, o: Outcome) {
    && |o.touches| == |scanned| == |o.track.cur| && |ChainsOf(r, lifted)| == |PrevOf(r, lifted)|
    && o.track.older == PrevOf(r, lifted)
    && Linked(o.track.older, o.track.cur) && Linked(o.track.older, o.touches)
    && AllOnScreen(o.touches)
    && r.track.counter <= o.ids <= TRACKING_ID_LIMIT + MAX_TOUCH
    && (!r.reset || lifted ==> IdsOk(o.touches, o.ids))
    && AllDelaysOk(s, ChainsOf(r, lifted), scanned, o.touches)
    && KeepsIds(PrevOf(r, lifted), scanned, o.touches)
  }

  /** A touch whose claim survives within MAX_DELTA continues that previous touch, id
      included; every other touch starts over. */
  ghost predicate KeepsIds(prev: seq<TouchPoint>, scanned: seq<TouchPoint>, touches: seq<TouchPoint>)
    requires |touches| == |scanned|
  {
    var m := Matches(prev, scanned);
    forall i :: 0 <= i < |scanned| ==>
      if Winners(m)[i] >= 0 && m[i].distance <= MAX_DELTA_SQ
      then touches[i].prevLoc == Winners(m)[i] < |prev| && touches[i].trackingId == prev[Winners(m)[i]].trackingId
      else touches[i].prevLoc == -1
  }

  ghost function StepFrame(s: Settings, atan2: Atan2, r: RunState, lifted: bool,
                           scanned: seq<TouchPoint>): (r': RunState)
    requires Linked(r.track.older, r.track.cur)
  {
    var o := Frame(s, atan2, r.track, lifted, scanned);
    var chains := ChainsOf(r, lifted);
    RunState(o.track,
             if Linked(chains, o.touches) then ChainsAfter(s, chains, o.touches, scanned) else [],
             (r.reset && !lifted) || o.ids > TRACKING_ID_LIMIT)
  }

  lemma {:induction false} DebouncedOnScreen(cur: seq<TouchPoint>, isNew: bool, x: int, y: int)
    requires AllOnScreen(cur) && DebouncePlace(x, y)
    ensures var (r, x', y') := Debounced(cur, isNew, x, y);
            AllOnScreen(r) && DebouncePlace(x', y')
  {
    if |cur| == 1 { assert OnScreen(cur[0]); }
    var r := Debounced(cur, isNew, x, y).0;
    forall i | 0 <= i < |r| ensures OnScreen(r[i]) {
      assert OnScreen(cur[i]);
    }
  }

  /** The touches of b are those of a, possibly reported at another place. */
  ghost predicate Moved(a: seq<TouchPoint>, b: seq<TouchPoint>) {
    |a| == |b| && forall i :: 0 <= i < |a| ==> b[i] == a[i].(x := b[i].x, y := b[i].y)
  }

  lemma {:induction false} DebouncedMoves(cur: seq<TouchPoint>, isNew: bool, x: int, y: int)
    ensures Moved(cur, Debounced(cur, isNew, x, y).0)
  {
  }

  lemma {:induction false} MovedIds(a: seq<TouchPoint>, b: seq<TouchPoint>, c: int)
    requires Moved(a, b) && IdsOk(a, c)
    ensures IdsOk(b, c)
  {
    forall i | 0 <= i < |b| ensures IdUsed(b[i], c) { assert IdUsed(a[i], c); }
    forall i, j | 0 <= i < j < |b| ensures IdsDiffer(b[i], b[j]) { assert IdsDiffer(a[i], a[j]); }
  }

  ghost predicate AllDelaysOk(s: Settings, chains: seq<Chain>, scanned: seq<TouchPoint>, touches: seq<TouchPoint>)
    requires |touches| == |scanned| && Linked(chains, touches)
  {
    forall i :: 0 <= i < |touches| ==> DelayOk(touches[i], ChainBefore(s, chains, touches[i], scanned[i]))
  }

  lemma {:induction false} GivenGood(s: Settings, prev: seq<TouchPoint>, chains: seq<Chain>, scanned: seq<TouchPoint>,
                                     given: seq<TouchPoint>, counters: seq<int>, touches: seq<TouchPoint>)
    requires |chains| == |prev| && Moved(given, touches)
    requires GivenOk(s, prev, chains, scanned, Matches(prev, scanned), given, counters)
    ensures AllOnScreen(given)
    ensures Linked(prev, touches) && KeepsIds(prev, scanned, touches)
    ensures AllDelaysOk(s, chains, scanned, touches)
  {
    var m := Matches(prev, scanned);
    forall i | 0 <= i < |scanned|
      ensures OnScreen(given[i]) && -1 <= touches[i].prevLoc < |prev|
      ensures DelayOk(touches[i], ChainBefore(s, chains, touches[i], scanned[i]))
      ensures if Winners(m)[i] >= 0 && m[i].distance <= MAX_DELTA_SQ
              then touches[i].prevLoc == Winners(m)[i] < |prev|
                  && touches[i].trackingId == prev[Winners(m)[i]].trackingId
              else touches[i].prevLoc == -1
    {
      assert AssignedOk(s, prev, chains, scanned[i], Claim(m, i), counters[i], given[i], counters[i + 1]);
    }
  }

  lemma {:induction false} CountedLinked(prev: seq<TouchPoint>, touches: seq<TouchPoint>)
    requires Linked(prev, touches)
    ensures Linked(prev, CountedAll(touches))
  {
    forall i | 0 <= i < |touches| ensures LinkOk(CountedAll(touches)[i], |prev|) { assert LinkOk(touches[i], |prev|); }
  }

  /** The heart of a run: one frame on good touches delivers a good frame. */
  lemma {:induction false} FrameIsGood(s: Settings, atan2: Atan2, r: RunState, lifted: bool, scanned: seq<TouchPoint>)
    requires Sane(s) && Inv(r) && AllScanned(s, scanned)
    ensures GoodFrame(s, r, lifted, scanned, Frame(s, atan2, r.track, lifted, scanned))
    ensures var o := Frame(s, atan2, r.track, lifted, scanned); DebouncePlace(o.track.initialX, o.track.initialY)
  {
    var t := r.track;
    var prev2, prev, chains := if lifted then [] else t.older, PrevOf(r, lifted), ChainsOf(r, lifted);
    var (given, c) := AssignAll(s, atan2, prev2, prev, scanned, t.counter, |scanned|);
    var counters := AssignAllKeeps(s, atan2, prev2, prev, chains, scanned, t.counter);
    var touches := Debounced(given, lifted, t.initialX, t.initialY).0;
    DebouncedMoves(given, lifted, t.initialX, t.initialY);
    GivenGood(s, prev, chains, scanned, given, counters, touches);
    DebouncedOnScreen(given, lifted, t.initialX, t.initialY);
    CountedLinked(prev, touches);
    if !r.reset || lifted {
      IdsStayOk(s, prev, chains, scanned, Matches(prev, scanned), given, counters);
      MovedIds(given, touches, c);
    }
  }

  ghost function StepClear(r: RunState): (r': RunState) {
    RunState(r.track.(older := [], cur := []), [], false)
  }

  lemma {:induction false} ChainsStayOk(s: Settings, chains: seq<Chain>, scanned: seq<TouchPoint>,
                                        touches: seq<TouchPoint>)
    requires |touches| == |scanned| && Linked(chains, touches)
    requires AllDelaysOk(s, chains, scanned, touches)
    ensures DelaysOk(CountedAll(touches), ChainsAfter(s, chains, touches, scanned))
  {
    forall i | 0 <= i < |touches| ensures DelayOk(Counted(touches[i]), ChainAfter(s, chains, touches[i], scanned[i])) {
      assert DelayOk(touches[i], ChainBefore(s, chains, touches[i], scanned[i]));
    }
  }

  lemma {:induction false} CountedOnScreen(touches: seq<TouchPoint>)
    requires AllOnScreen(touches)
    ensures AllOnScreen(CountedAll(touches))
  {
    forall i | 0 <= i < |touches| ensures OnScreen(CountedAll(touches)[i]) { assert OnScreen(touches[i]); }
  }

  lemma {:induction false} CountedIds(touches: seq<TouchPoint>, c: int)
    requires IdsOk(touches, c)
    ensures IdsOk(CountedAll(touches), c)
  {
    var counted := CountedAll(touches);
    forall i | 0 <= i < |touches| ensures IdUsed(counted[i], c) { assert IdUsed(touches[i], c); }
    forall i, j | 0 <= i < j < |touches|
      ensures IdsDiffer(counted[i], counted[j])
    {
      assert IdsDiffer(touches[i], touches[j]);
    }
  }

  lemma {:induction false} StepFrameKeeps(s: Settings, atan2: Atan2, r: RunState, lifted: bool,
                                          scanned: seq<TouchPoint>)
    requires Sane(s) && Inv(r) && AllScanned(s, scanned)
    ensures Inv(StepFrame(s, atan2, r, lifted, scanned))
  {
    var o := Frame(s, atan2, r.track, lifted, scanned);
    FrameIsGood(s, atan2, r, lifted, scanned);
    ChainsStayOk(s, ChainsOf(r, lifted), scanned, o.touches);
    CountedOnScreen(o.touches);
    if !r.reset || lifted { CountedIds(o.touches, o.ids); }
  }

  function Start(): Track { Track([], [], 0, 0, 0) }

  /** The state after the events of a run. */
  ghost function Run(atan2: Atan2, events: seq<Event>): (r: RunState)
    requires GoodEvents(events)
    ensures Inv(r)
  {
    if events == [] then RunState(Start(), [], false)
    else
      var r := Run(atan2, events[..|events| - 1]);
      assert GoodEvent(events[|events| - 1]);
      match events[|events| - 1]
      case Clear => StepClear(r)
      case Scan(s, lifted, scanned) =>
        StepFrameKeeps(s, atan2, r, lifted, scanned);
        StepFrame(s, atan2, r, lifted, scanned)
  }

  /** Frame number k of a run. */
  ghost function FrameAt(atan2: Atan2, events: seq<Event>, k: nat): (o: Outcome)
    requires GoodEvents(events) && k < |events| && events[k].Scan?
    ensures |o.touches| == |events[k].scanned|
  {
    Frame(events[k].s, atan2, Run(atan2, events[..k]).track, events[k].lifted, events[k].scanned)
  }

  lemma {:induction false} RunSnoc(atan2: Atan2, events: seq<Event>, e: Event)
    requires GoodEvents(events) && GoodEvent(e)
    ensures GoodEvents(events + [e])
    ensures var r := Run(atan2, events);
            Run(atan2, events + [e]) == match e
              case Clear => StepClear(r)
              case Scan(s, lifted, scanned) => StepFrame(s, atan2, r, lifted, scanned)
  {
    var all := events + [e];
    assert all[..|all| - 1] == events;
  }

  lemma {:induction false} PrefixSnoc<T>(s: seq<T>, k: nat, next: nat)
    requires k < |s| && next == k + 1
    ensures s[..next] == s[..k] + [s[k]]
  {
  }

  /** The state after one more event. */
  lemma {:induction false} RunOneMore(atan2: Atan2, events: seq<Event>, k: nat, next: nat)
    requires GoodEvents(events) && k < |events| && next == k + 1
    ensures var r := Run(atan2, events[..k]);
            Run(atan2, events[..next])
            == if events[k].Clear? then StepClear(r)
               else StepFrame(events[k].s, atan2, r, events[k].lifted, events[k].scanned)
  {
    PrefixSnoc(events, k, next);
    RunSnoc(atan2, events[..k], events[k]);
  }

  /** Each report belongs to a touch that is due. */
  lemma {:induction false} ReportsAreSent(touches: seq<TouchPoint>, k: nat) returns (i: nat)
    requires k < |Reports(touches)|
    ensures i < |touches| && Sent(touches[i]) && Reports(touches)[k] == ReportOf(touches[i])
  {
    var n := |touches| - 1;
    if k < |Reports(touches[..n])| { i := ReportsAreSent(touches[..n], k); } else { i := n; }
  }

  ghost predicate ReportsOnScreen(reports: seq<Report>) {
    forall k :: 0 <= k < |reports| ==> 0 <= reports[k].x < X_RESOLUTION && 0 <= reports[k].y < Y_RESOLUTION
  }

  /** A touch with an id is reported exactly when its chain began above the initial
      threshold, or began above the delay threshold and has by now been withheld in as many
      frames as the delay demands. */
  ghost predicate Due(s: Settings, chains: seq<Chain>, scanned: seq<TouchPoint>, touches: seq<TouchPoint>)
    requires |touches| == |scanned| && Linked(chains, touches)
  {
    forall i :: 0 <= i < |touches| && touches[i].trackingId >= 0 ==>
      var c := ChainBefore(s, chains, touches[i], scanned[i]);
      c.start > c.rules.delayed && (Sent(touches[i]) <==> c.start > c.rules.initial || c.withheld == c.rules.delayCount)
  }

  lemma {:induction false} GoodFrameReports(s: Settings, r: RunState, lifted: bool, scanned: seq<TouchPoint>,
                                            o: Outcome)
    requires GoodFrame(s, r, lifted, scanned, o) && o.reports == Reports(o.touches)
    ensures ReportsOnScreen(o.reports) && Due(s, ChainsOf(r, lifted), scanned, o.touches)
  {
    forall k | 0 <= k < |o.reports|
      ensures 0 <= o.reports[k].x < X_RESOLUTION && 0 <= o.reports[k].y < Y_RESOLUTION
    {
      var i := ReportsAreSent(o.touches, k);
      assert OnScreen(o.touches[i]);
    }
    forall i | 0 <= i < |scanned| && o.touches[i].trackingId >= 0
      ensures var c := ChainBefore(s, ChainsOf(r, lifted), o.touches[i], scanned[i]);
              c.start > c.rules.delayed
                  && (Sent(o.touches[i]) <==> c.start > c.rules.initial || c.withheld == c.rules.delayCount)
    {
      assert DelayOk(o.touches[i], ChainBefore(s, ChainsOf(r, lifted), o.touches[i], scanned[i]));
    }
  }

  /** After any run of frames, liftoffs and mode changes, the next frame reports positions
      on the screen, links every continued touch to a live touch of the previous frame and
      keeps its id, hands out unused ids, and reports exactly the touches that are due. */
  lemma {:induction false} RunIsSafe(atan2: Atan2, events: seq<Event>, s: Settings, lifted: bool,
                                     scanned: seq<TouchPoint>)
    requires GoodEvents(events)
    requires Sane(s) && AllScanned(s, scanned)
    ensures var r := Run(atan2, events);
            var o := Frame(s, atan2, r.track, lifted, scanned);
            && GoodFrame(s, r, lifted, scanned, o) && ReportsOnScreen(o.reports)
            && Due(s, ChainsOf(r, lifted), scanned, o.touches)
  {
    var r := Run(atan2, events);
    FrameIsGood(s, atan2, r, lifted, scanned);
    GoodFrameReports(s, r, lifted, scanned, Frame(s, atan2, r.track, lifted, scanned));
  }

  /** The one way to a reported touch without an id of its own: a claim that survives from
      further than MAX_DELTA, on a predecessor that was moving fast in the same direction,
      or a predecessor that had no id either. */
  lemma {:induction false} UnnumberedIff(s: Settings, atan2: Atan2, prev: seq<TouchPoint>, prev2: seq<TouchPoint>,
                                         t: TouchPoint, m: Match, c: int)
    requires Sane(s) && Scanned(s, t) && c >= 0 && Linked(prev2, prev) && -1 <= m.loc < |prev|
    requires forall k :: 0 <= k < |prev| ==> prev[k].trackingId >= -1
    ensures var u := Assigned(s, atan2, prev, prev2, t, m, c).0;
      (u.highestVal != 0 && u.trackingId < 0) <==>
      m.loc >= 0 && var p := prev[m.loc];
        if m.distance <= MAX_DELTA_SQ then p.trackingId < 0
        else p.distance > MIN_PREV_DELTA_SQ && AbsReal(atan2(t.x - p.x, t.y - p.y) - p.direction) < MAX_DELTA_ANGLE
  {
  }
}

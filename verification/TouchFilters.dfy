/**
 What the filters of the touchscreen server (touchscreen_drv/ts_srv.c, avg_filter,
 hover_debounce and the report loop) make of a finger over a run: where it is placed, when
 it comes to rest, and what is sent of it.
 */
module TouchFilters {
  import opened TouchFill
  import opened TouchTracking
  import opened TouchTable
  import opened TouchJumps
  import opened TouchLiftoff
  import Scanning = TouchScan

  // ----- one touch that continues another -----

  /** v is sum / n without the fraction. */
  predicate Quotient(v: int, n: int, sum: int) { n * v <= sum < n * v + n }

  /** The weighted average of a touch, its predecessor and, if there is one, the touch before
      that: four, two and one parts. */
  ghost predicate AveragesTo(t: TouchPoint, b: TouchPoint, older: seq<TouchPoint>, x: int, y: int)
    requires LinkOk(b, |older|)
  {
    if b.prevLoc >= 0 then
      var c := older[b.prevLoc];
      && Quotient(x, 7, 4 * t.unfilteredX + 2 * b.unfilteredX + c.unfilteredX)
      && Quotient(y, 7, 4 * t.unfilteredY + 2 * b.unfilteredY + c.unfilteredY)
    else
      && Quotient(x, 6, 4 * t.unfilteredX + 2 * b.unfilteredX)
      && Quotient(y, 6, 4 * t.unfilteredY + 2 * b.unfilteredY)
  }

  lemma {:induction false} QuotientOf(sum: int, n: int)
    requires sum >= 0 && n > 0
    ensures Quotient(Trunc(sum as real / n as real), n, sum)
  {
    var q := sum as real / n as real;
    assert q * n as real == sum as real;
    FloorTimes(q, q.Floor, n);
  }

  lemma {:induction false} FloorTimes(q: real, f: int, n: int)
    requires n > 0 && f as real <= q < f as real + 1.0
    ensures (n * f) as real <= q * n as real < (n * f + n) as real
  {
    var r, g := n as real, f as real;
    Distributes(r, g);
    ProductGrows(r, g, q);
    ProductGrows(r, q, g + 1.0);
    assert (n * f) as real == r * g && (n * f + n) as real == (n * f) as real + r;
  }

  lemma {:induction false} Distributes(r: real, g: real)
    ensures r * (g + 1.0) == r * g + r
  {
  }

  lemma {:induction false} ProductGrows(r: real, a: real, b: real)
    requires r > 0.0 && a <= b
    ensures r * a <= r * b && (a < b ==> r * a < r * b)
  {
  }

  lemma {:induction false} AverageOf(t: TouchPoint, b: TouchPoint, older: seq<TouchPoint>) returns (x: int, y: int)
    requires LinkOk(b, |older|) && OnScreen(t) && OnScreen(b) && AllOnScreen(older)
    ensures AveragesTo(t, b, older, x, y) && AvgFilter(t, b, older) == t.(x := x, y := y)
  {
    x, y := AvgFilter(t, b, older).x, AvgFilter(t, b, older).y;
    var xsum, ysum := 4 * t.unfilteredX + 2 * b.unfilteredX, 4 * t.unfilteredY + 2 * b.unfilteredY;
    if b.prevLoc >= 0 {
      var c := older[b.prevLoc];
      assert OnScreen(c);
      QuotientOf(xsum + c.unfilteredX, 7);
      QuotientOf(ysum + c.unfilteredY, 7);
    } else {
      QuotientOf(xsum, 6);
      QuotientOf(ysum, 6);
    }
  }

  predicate StillAt(x: int, y: int, hx: int, hy: int) { -1 <= x - hx <= 1 && -1 <= y - hy <= 1 }

  /** What becomes of a scanned touch t with the average place (x, y) that continues b. Near
      b's resting place the delay counts down from thirty; once it has run out, the touch is
      placed there. The resting place moves here when the touch moves on, and with the last
      step of the countdown. */
  ghost predicate FilterRule(t: TouchPoint, b: TouchPoint, x: int, y: int, u: TouchPoint) {
    var still := StillAt(x, y, b.hoverX, b.hoverY);
    && u.x == (if still && b.hoverDelay == 0 then b.hoverX else x)
    && u.y == (if still && b.hoverDelay == 0 then b.hoverY else y)
    && u.hoverDelay == (if !still then 30 else if b.hoverDelay == 0 then 0 else b.hoverDelay - 1)
    && u.hoverX == (if still && b.hoverDelay != 1 then b.hoverX else t.hoverX)
    && u.hoverY == (if still && b.hoverDelay != 1 then b.hoverY else t.hoverY)
  }

  /** ... and what it takes over from touch number p, b: id and delay, with the direction and
      the squared distance of the move. Its measures and its own place stay. */
  ghost predicate MotionRule(atan2: Atan2, t: TouchPoint, b: TouchPoint, p: nat, u: TouchPoint) {
    && u.trackingId == b.trackingId && u.touchDelay == b.touchDelay && u.prevLoc == p
    && u.direction == atan2(t.x - b.x, t.y - b.y) && u.distance == Gap(t, b)
    && u.pw == t.pw && u.i == t.i && u.j == t.j && u.touchMajor == t.touchMajor && u.highestVal == t.highestVal
    && u.unfilteredX == t.unfilteredX && u.unfilteredY == t.unfilteredY
  }

  /** Touch i of the frame e, which comes next, continues touch p. */
  ghost predicate Continues(r: RunState, e: Event, i: nat, p: nat) {
    e.Scan? && !e.lifted && Follows(r.track.cur, e.scanned, i, p)
  }

  ghost function GivenOf(atan2: Atan2, r: RunState, e: Event): (given: seq<TouchPoint>)
    requires Linked(r.track.older, r.track.cur) && e.Scan?
    ensures |given| == |e.scanned|
  {
    Given(e.s, atan2, r, e.lifted, e.scanned)
  }

  lemma {:induction false} FilterStep(atan2: Atan2, t: TouchPoint, p: TouchPoint, older: seq<TouchPoint>, m: Match,
                                      x: int, y: int)
    requires LinkOk(p, |older|) && AvgFilter(t, p, older) == t.(x := x, y := y)
    ensures FilterRule(t, p, x, y, ContinuedTouch(atan2, t, p, older, m))
  {
  }

  lemma {:induction false} MotionStep(atan2: Atan2, t: TouchPoint, b: TouchPoint, older: seq<TouchPoint>, p: nat)
    requires LinkOk(b, |older|)
    ensures MotionRule(atan2, t, b, p, ContinuedTouch(atan2, t, b, older, Match(p, Gap(t, b))))
  {
  }

  lemma {:induction false} ContinuedGiven(atan2: Atan2, r: RunState, e: Event, i: nat, p: nat)
    requires Linked(r.track.older, r.track.cur) && Continues(r, e, i, p)
    ensures var t, b := e.scanned[i], r.track.cur[p];
            GivenOf(atan2, r, e)[i] == ContinuedTouch(atan2, t, b, r.track.older, Match(p, Gap(t, b)))
  {
    AssignAllAt(e.s, atan2, r.track.older, r.track.cur, e.scanned, r.track.counter, |e.scanned|, i);
    FollowerWins(r.track.cur, e.scanned, i, p);
    NearestWhenClosest(r.track.cur, e.scanned[i], p);
  }

  /** A touch that continues another is placed by the averages and the hover rule, and takes
      over its id and delay. */
  lemma {:induction false} Filtering(atan2: Atan2, r: RunState, e: Event, i: nat, p: nat) returns (x: int, y: int)
    requires Inv(r) && GoodEvent(e) && Continues(r, e, i, p)
    ensures AveragesTo(e.scanned[i], r.track.cur[p], r.track.older, x, y)
    ensures FilterRule(e.scanned[i], r.track.cur[p], x, y, GivenOf(atan2, r, e)[i])
    ensures MotionRule(atan2, e.scanned[i], r.track.cur[p], p, GivenOf(atan2, r, e)[i])
  {
    ContinuedGiven(atan2, r, e, i, p);
    var t, b := e.scanned[i], r.track.cur[p];
    var m := Match(p, Gap(t, b));
    MotionStep(atan2, t, b, r.track.older, p);
    assert Scanned(e.s, t) && OnScreen(b);
    x, y := AverageOf(t, b, r.track.older);
    FilterStep(atan2, t, b, r.track.older, m, x, y);
  }

  /** A claim that survives within the limit is that of a touch that continues another. */
  lemma {:induction false} WinnerFollows(before: seq<TouchPoint>, scanned: seq<TouchPoint>, i: nat)
    requires i < |scanned|
    ensures var m := Claim(Matches(before, scanned), i);
            m.loc >= 0 && m.distance <= 16900 ==> Follows(before, scanned, i, m.loc)
  {
    var ms := Matches(before, scanned);
    var m := Claim(ms, i);
    if m.loc >= 0 && m.distance <= 16900 {
      ClosestWhenNearest(before, scanned[i]);
      forall j | 0 <= j < |scanned| && j != i && ClosestTo(before, scanned[j], m.loc)
        ensures Gap(scanned[j], before[m.loc]) > Gap(scanned[i], before[m.loc])
                || (Gap(scanned[j], before[m.loc]) == Gap(scanned[i], before[m.loc]) && j < i)
      {
        if Gap(scanned[j], before[m.loc]) <= 16900 {
          NearestWhenClosest(before, scanned[j], m.loc);
          assert !Beats(ms, j, i);
        }
      }
    }
  }

  /** Every other touch is placed where it was scanned. */
  lemma {:induction false} NewInPlace(atan2: Atan2, r: RunState, e: Event, i: nat)
    requires Inv(r) && e.Scan? && i < |e.scanned|
    requires forall p :: !Follows(PrevOf(r, e.lifted), e.scanned, i, p)
    ensures var t, u := e.scanned[i], GivenOf(atan2, r, e)[i];
            && u.x == t.x && u.y == t.y
            && u.hoverX == t.hoverX && u.hoverY == t.hoverY && u.hoverDelay == t.hoverDelay
  {
    var prev, prev2 := PrevOf(r, e.lifted), if e.lifted then [] else r.track.older;
    AssignAllAt(e.s, atan2, prev2, prev, e.scanned, r.track.counter, |e.scanned|, i);
    ClaimNotSuppressed(prev, e.scanned, i);
    WinnerFollows(prev, e.scanned, i);
  }

  /** A scanned touch with these measures is at this place, nowhere filtered yet. */
  ghost predicate Measures(t: TouchPoint, st: Stats)
    requires st.tweight >= 1
  {
    var i, j := st.isum / st.tweight as real, st.jsum / st.tweight as real;
    && t.pw == st.tweight && t.highestVal == st.highest
    && t.touchMajor >= 25 * (st.maxi - st.mini) && t.touchMajor >= 25 * (st.maxj - st.minj)
    && (t.touchMajor == 25 * (st.maxi - st.mini) || t.touchMajor == 25 * (st.maxj - st.minj))
    && WholePart(t.x, 1023.0 - j * 1024.0 / 39.0) && WholePart(t.y, 767.0 - i * 768.0 / 29.0)
    && t.unfilteredX == t.hoverX == t.x && t.unfilteredY == t.hoverY == t.y && t.hoverDelay == 30
  }

  /** n is v without the fraction, or zero if v is negative. */
  predicate WholePart(n: int, v: real) {
    if v < 0.0 then n == 0 else n as real <= v < n as real + 1.0
  }

  /** What the scan puts into the table: weight, largest reading, place and size of the area. */
  lemma {:induction false} ScannedMeasures(w: int -> real, g: Grid, s: Settings, scanned: seq<TouchPoint>, k: nat)
    requires Came(w, g, s, scanned) && GoodWeight(w) && Sane(s) && k < |scanned|
    ensures k < |Scanning.Seeds(g, s.continued, CELLS)|
    ensures exists st :: StatsOf(g, w, Scanning.Seeds(g, s.continued, CELLS)[k], st) && st.tweight >= 1
                         && Measures(scanned[k], st)
  {
    var seeds := Scanning.Seeds(g, s.continued, CELLS);
    var stats, was :| ScanResult(g, w, seeds, stats, was, scanned);
    assert EntryAt(g, w, seeds, stats, was, scanned, k);
    var st := stats[k];
    StatsPositive(g, w, seeds[k], st);
    PlacedMeasures(was[k], st);
  }

  lemma {:induction false} PlacedMeasures(was: TouchPoint, st: Stats)
    requires st.tweight >= 1
    ensures Measures(Placed(was, st), st)
  {
    var i, j := st.isum / st.tweight as real, st.jsum / st.tweight as real;
    PlaceIsWhole(1023.0 - j * 1024.0 / 39.0);
    PlaceIsWhole(767.0 - i * 768.0 / 29.0);
  }

  lemma {:induction false} PlaceIsWhole(v: real)
    ensures WholePart(AtLeastZero(Trunc(v)), v)
  {
  }

  // ----- what is sent -----

  predicate IsDue(t: TouchPoint) { t.highestVal != 0 && t.touchDelay == 0 }

  /** The number of touches that are due among the first n. */
  function DueBefore(touches: seq<TouchPoint>, n: nat): (d: nat)
    requires n <= |touches|
  {
    if n == 0 then 0 else DueBefore(touches, n - 1) + if IsDue(touches[n - 1]) then 1 else 0
  }

  /** One report for each touch that is due, in order, with its id, size, place and weight. */
  lemma {:induction false} ReportsInOrder(touches: seq<TouchPoint>, i: nat)
    requires i < |touches|
    ensures |Reports(touches)| == DueBefore(touches, |touches|)
    ensures var t, d := touches[i], DueBefore(touches, i);
            IsDue(t) ==> d < |Reports(touches)|
                         && Reports(touches)[d] == Report(t.trackingId, t.touchMajor, t.x, t.y, t.pw)
    decreases |touches|
  {
    var n := |touches| - 1;
    var before := touches[..n];
    ReportsCounted(touches);
    ReportsCounted(before);
    DueOfPrefix(touches, n, i);
    DueOfPrefix(touches, n, n);
    if i < n { ReportsInOrder(before, i); }
  }

  lemma {:induction false} ReportsCounted(touches: seq<TouchPoint>)
    ensures |Reports(touches)| == DueBefore(touches, |touches|)
    decreases |touches|
  {
    if touches != [] {
      var n := |touches| - 1;
      ReportsCounted(touches[..n]);
      DueOfPrefix(touches, n, n);
    }
  }

  lemma {:induction false} DueOfPrefix(touches: seq<TouchPoint>, k: nat, n: nat)
    requires n <= k <= |touches|
    ensures DueBefore(touches[..k], n) == DueBefore(touches, n)
  {
    if n > 0 { DueOfPrefix(touches, k, n - 1); }
  }

  // ----- a finger at rest -----

  /** Touch number i after frame k. */
  ghost function TouchAfter(atan2: Atan2, events: seq<Event>, k: nat, i: nat): (t: TouchPoint)
    requires GoodEvents(events) && k < |events| && i < |Run(atan2, events[..k + 1]).track.cur|
  {
    Run(atan2, events[..k + 1]).track.cur[i]
  }

  ghost predicate PathTouch(events: seq<Event>, n: nat, ids: seq<nat>, j: nat) {
    j < |ids| && n + j < |events| && events[n + j].Scan? && ids[j] < |events[n + j].scanned|
  }

  /** Touch ids[j] of frame n + j continues touch ids[j - 1] of the frame before it. */
  ghost predicate PathStep(atan2: Atan2, events: seq<Event>, n: nat, ids: seq<nat>, j: nat)
    requires GoodEvents(events)
  {
    0 < j < |ids| && n + j < |events| && Continues(Run(atan2, events[..n + j]), events[n + j], ids[j], ids[j - 1])
  }

  lemma {:induction false} HoverKept(touches: seq<TouchPoint>, given: seq<TouchPoint>, i: nat)
    requires i < |given| && Moved(given, touches)
    ensures var t := CountedAll(touches)[i];
            t.hoverX == given[i].hoverX && t.hoverY == given[i].hoverY && t.hoverDelay == given[i].hoverDelay
  {
  }

  /** The resting place and its delay after a frame are those of the filtered touch. */
  lemma {:induction false} AfterFrame(atan2: Atan2, events: seq<Event>, k: nat, i: nat)
    requires GoodEvents(events) && k < |events| && events[k].Scan? && i < |events[k].scanned|
    ensures |Run(atan2, events[..k + 1]).track.cur| == |events[k].scanned|
    ensures var t, u := TouchAfter(atan2, events, k, i), GivenOf(atan2, Run(atan2, events[..k]), events[k])[i];
            t.hoverX == u.hoverX && t.hoverY == u.hoverY && t.hoverDelay == u.hoverDelay
  {
    var r, e := Run(atan2, events[..k]), events[k];
    RunOneMore(atan2, events, k, k + 1);
    var given := GivenOf(atan2, r, e);
    DebouncedMoves(given, e.lifted, r.track.initialX, r.track.initialY);
    HoverKept(FrameAt(atan2, events, k).touches, given, i);
  }

  /** The touch rests at a place: its average is within one pixel of it. */
  ghost predicate RestsAt(t: TouchPoint, b: TouchPoint, older: seq<TouchPoint>, hx: int, hy: int)
    requires LinkOk(b, |older|)
  {
    forall x, y :: AveragesTo(t, b, older, x, y) ==> StillAt(x, y, hx, hy)
  }

  ghost predicate RestsAfter(atan2: Atan2, r: RunState, e: Event, i: nat, p: nat, hx: int, hy: int)
    requires Inv(r) && Continues(r, e, i, p)
  {
    assert LinkOk(r.track.cur[p], |r.track.older|);
    RestsAt(e.scanned[i], r.track.cur[p], r.track.older, hx, hy)
  }

  /** The finger goes on in frame n + j and rests there. */
  ghost predicate RestStep(atan2: Atan2, events: seq<Event>, n: nat, ids: seq<nat>, j: nat, hx: int, hy: int)
    requires GoodEvents(events)
  {
    PathStep(atan2, events, n, ids, j)
    && RestsAfter(atan2, Run(atan2, events[..n + j]), events[n + j], ids[j], ids[j - 1], hx, hy)
  }

  /** ... in all frames after n + a up to n + b. */
  ghost predicate RestsIn(atan2: Atan2, events: seq<Event>, n: nat, ids: seq<nat>, a: nat, b: nat, hx: int, hy: int)
    requires GoodEvents(events)
  {
    forall j :: a < j <= b ==> RestStep(atan2, events, n, ids, j, hx, hy)
  }

  /** The finger's touch in frame n + j, with the filters applied. */
  ghost function FilteredAt(atan2: Atan2, events: seq<Event>, n: nat, ids: seq<nat>, j: nat): (t: TouchPoint)
    requires GoodEvents(events) && PathTouch(events, n, ids, j)
  {
    GivenOf(atan2, Run(atan2, events[..n + j]), events[n + j])[ids[j]]
  }

  ghost predicate HoverIs(t: TouchPoint, hx: int, hy: int, delay: int) {
    t.hoverX == hx && t.hoverY == hy && t.hoverDelay == delay
  }

  /** One frame of rest, on values. */
  ghost predicate RestRule(t: TouchPoint, u: TouchPoint, hx: int, hy: int, delay: nat) {
    && (delay == 0 ==> u.x == hx && u.y == hy && HoverIs(u, hx, hy, 0))
    && (delay == 1 ==> HoverIs(u, t.hoverX, t.hoverY, 0))
    && (delay > 1 ==> HoverIs(u, hx, hy, delay - 1))
  }

  lemma {:induction false} FilterAtRest(t: TouchPoint, b: TouchPoint, x: int, y: int, u: TouchPoint, hx: int, hy: int,
                                        delay: nat)
    requires FilterRule(t, b, x, y, u) && HoverIs(b, hx, hy, delay) && StillAt(x, y, hx, hy)
    ensures RestRule(t, u, hx, hy, delay)
  {
  }

  lemma {:induction false} RestOnce(atan2: Atan2, r: RunState, e: Event, i: nat, p: nat, hx: int, hy: int, delay: nat)
    requires Inv(r) && GoodEvent(e) && Continues(r, e, i, p) && RestsAfter(atan2, r, e, i, p, hx, hy)
    requires HoverIs(r.track.cur[p], hx, hy, delay)
    ensures RestRule(e.scanned[i], GivenOf(atan2, r, e)[i], hx, hy, delay)
  {
    var x, y := Filtering(atan2, r, e, i, p);
    FilterAtRest(e.scanned[i], r.track.cur[p], x, y, GivenOf(atan2, r, e)[i], hx, hy, delay);
  }

  /** One frame of a finger's rest. */
  lemma {:induction false} RestFrame(atan2: Atan2, events: seq<Event>, n: nat, ids: seq<nat>, prev: nat, j: nat,
                                     hx: int, hy: int, delay: nat)
    requires GoodEvents(events) && j == prev + 1 && PathTouch(events, n, ids, prev)
    requires RestStep(atan2, events, n, ids, j, hx, hy)
    requires HoverIs(FilteredAt(atan2, events, n, ids, prev), hx, hy, delay)
    ensures PathTouch(events, n, ids, j)
    ensures RestRule(events[n + j].scanned[ids[j]], FilteredAt(atan2, events, n, ids, j), hx, hy, delay)
  {
    var k, last := n + j, n + prev;
    assert last + 1 == k && ids[j - 1] == ids[prev];
    AfterFrame(atan2, events, last, ids[prev]);
    assert GoodEvent(events[k]);
    RestOnce(atan2, Run(atan2, events[..k]), events[k], ids[j], ids[prev], hx, hy, delay);
  }

  ghost predicate HoverAt(atan2: Atan2, events: seq<Event>, n: nat, ids: seq<nat>, j: nat, hx: int, hy: int, delay: nat)
    requires GoodEvents(events)
  {
    PathTouch(events, n, ids, j) && HoverIs(FilteredAt(atan2, events, n, ids, j), hx, hy, delay)
  }

  /** One more frame of rest, before the last step of the countdown. */
  lemma {:induction false} OneLess(atan2: Atan2, events: seq<Event>, n: nat, ids: seq<nat>, prev: nat, j: nat, hx: int,
                                   hy: int, before: nat, left: nat)
    requires GoodEvents(events) && j == prev + 1 && before == left + 1 && left > 0
    requires RestStep(atan2, events, n, ids, j, hx, hy) && HoverAt(atan2, events, n, ids, prev, hx, hy, before)
    ensures HoverAt(atan2, events, n, ids, j, hx, hy, left)
  {
    RestFrame(atan2, events, n, ids, prev, j, hx, hy, before);
  }

  lemma {:induction false} RestsLater(atan2: Atan2, events: seq<Event>, n: nat, ids: seq<nat>, a: nat,
                                      next: nat, j: nat, hx: int, hy: int)
    requires GoodEvents(events) && RestsIn(atan2, events, n, ids, a, j, hx, hy) && a < j && next == a + 1
    ensures RestStep(atan2, events, n, ids, next, hx, hy) && RestsIn(atan2, events, n, ids, next, j, hx, hy)
  {
  }

  /** While it rests, the delay counts down; `left` frames of it remain. */
  lemma {:induction false} CountsDown(atan2: Atan2, events: seq<Event>, n: nat, ids: seq<nat>, hx: int, hy: int,
                                      a: nat, delay: nat, j: nat, left: nat)
    requires GoodEvents(events) && HoverAt(atan2, events, n, ids, a, hx, hy, delay)
    requires a <= j && left + j == delay + a && left > 0
    requires RestsIn(atan2, events, n, ids, a, j, hx, hy)
    ensures HoverAt(atan2, events, n, ids, j, hx, hy, left)
    decreases j - a
  {
    if j > a {
      var next, less := a + 1, delay - 1;
      RestsLater(atan2, events, n, ids, a, next, j, hx, hy);
      OneLess(atan2, events, n, ids, a, next, hx, hy, delay, less);
      CountsDown(atan2, events, n, ids, hx, hy, next, less, j, left);
    }
  }

  /** The touch is placed at its resting place. */
  ghost predicate PutAt(atan2: Atan2, events: seq<Event>, n: nat, ids: seq<nat>, j: nat, x: int, y: int)
    requires GoodEvents(events)
  {
    PathTouch(events, n, ids, j)
    && FilteredAt(atan2, events, n, ids, j).x == x && FilteredAt(atan2, events, n, ids, j).y == y
  }

  lemma {:induction false} StaysOnce(atan2: Atan2, events: seq<Event>, n: nat, ids: seq<nat>, prev: nat, j: nat,
                                     sx: int, sy: int, left: nat)
    requires GoodEvents(events) && j == prev + 1 && left == 0
    requires RestStep(atan2, events, n, ids, j, sx, sy) && HoverAt(atan2, events, n, ids, prev, sx, sy, left)
    ensures HoverAt(atan2, events, n, ids, j, sx, sy, left) && PutAt(atan2, events, n, ids, j, sx, sy)
  {
    RestFrame(atan2, events, n, ids, prev, j, sx, sy, left);
  }

  /** Once nothing of it is left, the resting place stays. */
  lemma {:induction false} StaysPut(atan2: Atan2, events: seq<Event>, n: nat, ids: seq<nat>, sx: int, sy: int, a: nat,
                                    j: nat, left: nat)
    requires GoodEvents(events) && HoverAt(atan2, events, n, ids, a, sx, sy, left) && a <= j && left == 0
    requires RestsIn(atan2, events, n, ids, a, j, sx, sy)
    ensures HoverAt(atan2, events, n, ids, j, sx, sy, left)
    decreases j - a
  {
    if a < j {
      var next := a + 1;
      RestsLater(atan2, events, n, ids, a, next, j, sx, sy);
      StaysOnce(atan2, events, n, ids, a, next, sx, sy, left);
      StaysPut(atan2, events, n, ids, sx, sy, next, j, left);
    }
  }

  lemma {:induction false} RestsLast(atan2: Atan2, events: seq<Event>, n: nat, ids: seq<nat>, a: nat, prev: nat,
                                     j: nat, hx: int, hy: int)
    requires GoodEvents(events) && RestsIn(atan2, events, n, ids, a, j, hx, hy) && a < j == prev + 1
    ensures RestStep(atan2, events, n, ids, j, hx, hy) && RestsIn(atan2, events, n, ids, a, prev, hx, hy)
  {
  }

  /** ... and the touch is put there. */
  lemma {:induction false} PutThere(atan2: Atan2, events: seq<Event>, n: nat, ids: seq<nat>, sx: int, sy: int, a: nat,
                                    j: nat, left: nat)
    requires GoodEvents(events) && HoverAt(atan2, events, n, ids, a, sx, sy, left) && a < j && left == 0
    requires RestsIn(atan2, events, n, ids, a, j, sx, sy)
    ensures PutAt(atan2, events, n, ids, j, sx, sy)
  {
    var prev := j - 1;
    RestsLast(atan2, events, n, ids, a, prev, j, sx, sy);
    StaysPut(atan2, events, n, ids, sx, sy, a, prev, left);
    StaysOnce(atan2, events, n, ids, prev, j, sx, sy, left);
  }

  /** The last step of the countdown. */
  lemma {:induction false} Settles(atan2: Atan2, events: seq<Event>, n: nat, ids: seq<nat>, prev: nat, j: nat, hx: int,
                                   hy: int)
    requires GoodEvents(events) && j == prev + 1
    requires RestStep(atan2, events, n, ids, j, hx, hy) && HoverAt(atan2, events, n, ids, prev, hx, hy, 1)
    ensures PathTouch(events, n, ids, j) && var s := events[n + j].scanned[ids[j]];
            HoverAt(atan2, events, n, ids, j, s.hoverX, s.hoverY, 0)
  {
    RestFrame(atan2, events, n, ids, prev, j, hx, hy, 1);
  }

  /** A finger at rest. In frame n it has moved, or is new, and its resting place is (hx, hy).
      If it rests there for thirty frames, the place where it is scanned in the thirtieth
      becomes its resting place, and from then on every frame in which it still rests puts it
      at exactly this place. */
  lemma {:induction false} FingerAtRest(atan2: Atan2, events: seq<Event>, n: nat, ids: seq<nat>, hx: int, hy: int,
                                        first: nat, last: nat, j: nat)
    requires GoodEvents(events) && first == 0 && last == 30 && j > last
    requires HoverAt(atan2, events, n, ids, first, hx, hy, last)
    requires RestsIn(atan2, events, n, ids, first, last, hx, hy)
    ensures PathTouch(events, n, ids, last)
    ensures var s := events[n + last].scanned[ids[last]];
            RestsIn(atan2, events, n, ids, last, j, s.hoverX, s.hoverY)
            ==> PutAt(atan2, events, n, ids, j, s.hoverX, s.hoverY)
  {
    var prev := last - 1;
    CountsDown(atan2, events, n, ids, hx, hy, first, last, prev, 1);
    Settles(atan2, events, n, ids, prev, last, hx, hy);
    var s := events[n + last].scanned[ids[last]];
    if RestsIn(atan2, events, n, ids, last, j, s.hoverX, s.hoverY) {
      PutThere(atan2, events, n, ids, s.hoverX, s.hoverY, last, j, 0);
    }
  }
}

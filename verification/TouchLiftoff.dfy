/**
 Liftoffs in a run (touchscreen_drv/ts_srv.c, the main loop, clear_arrays and the start of
 calc_point): what one read adds to a run, which frames look lifted, and how long a touch
 keeps its id.
 */
module TouchLiftoff {
  import opened TouchTracking

  // ----- which frames look lifted -----

  /** The current row of the table, and the rows that hold a touch, live or stale. */
  datatype Rows = Rows(row: nat, used: set<nat>)

  /** A frame goes on to the next of the three rows if the current one is used, and uses its
      row if it shows a touch. */
  function RowsNext(r: Rows, scanned: seq<TouchPoint>): (r': Rows) {
    var row := if r.row in r.used then (r.row + 1) % 3 else r.row;
    Rows(row, if scanned == [] then r.used else r.used + {row})
  }

  /** The rows after a run; a liftoff empties them all. */
  function RowsAfter(events: seq<Event>): (r: Rows)
    ensures r.row < 3
  {
    if events == [] then Rows(0, {})
    else
      var r, e := RowsAfter(events[..|events| - 1]), events[|events| - 1];
      if e.Clear? then Rows(r.row, {}) else RowsNext(r, e.scanned)
  }

  /** A frame counts as lifted exactly when the row that the one before it wrote to holds no
      touch. */
  ghost predicate LiftsAt(events: seq<Event>, k: nat)
    requires k < |events|
  {
    events[k].Scan? ==> (events[k].lifted <==> RowsAfter(events[..k]).row !in RowsAfter(events[..k]).used)
  }

  ghost predicate LiftsRight(events: seq<Event>) {
    forall k :: 0 <= k < |events| ==> LiftsAt(events, k)
  }

  lemma {:induction false} LiftsPrefix(events: seq<Event>, k: nat, j: nat)
    requires j < k <= |events|
    ensures LiftsAt(events[..k], j) <==> LiftsAt(events, j)
  {
    assert events[..k][..j] == events[..j];
  }

  lemma {:induction false} LiftsSnoc(events: seq<Event>, e: Event)
    requires LiftsRight(events)
    requires e.Scan? ==> (e.lifted <==> RowsAfter(events).row !in RowsAfter(events).used)
    ensures LiftsRight(events + [e])
    ensures var r := RowsAfter(events);
            RowsAfter(events + [e]) == if e.Clear? then Rows(r.row, {}) else RowsNext(r, e.scanned)
  {
    var all, n := events + [e], |events|;
    assert all[..n] == events;
    forall k | 0 <= k < |all| ensures LiftsAt(all, k) {
      if k < n { LiftsPrefix(all, n, k); }
    }
  }

  lemma {:induction false} RowsOneMore(events: seq<Event>, k: nat, next: nat)
    requires k < |events| && next == k + 1
    ensures var r := RowsAfter(events[..k]);
            RowsAfter(events[..next])
            == if events[k].Clear? then Rows(r.row, {}) else RowsNext(r, events[k].scanned)
  {
    var upTo := events[..next];
    assert upTo[..k] == events[..k] && upTo[k] == events[k];
  }

  /** While touches are live, the current row is used. */
  lemma {:induction false} LiveRowUsed(atan2: Atan2, events: seq<Event>, k: nat)
    requires GoodEvents(events) && k <= |events|
    ensures Run(atan2, events[..k]).track.cur != [] ==> RowsAfter(events[..k]).row in RowsAfter(events[..k]).used
  {
    if k > 0 {
      RowsOneMore(events, k - 1, k);
      RunOneMore(atan2, events, k - 1, k);
    }
  }

  /** A frame counts as lifted only if the frame before it left no touch. */
  lemma {:induction false} LiftedWhenEmpty(atan2: Atan2, events: seq<Event>, k: nat)
    requires GoodEvents(events) && LiftsRight(events) && k < |events| && events[k].Scan? && events[k].lifted
    ensures Run(atan2, events[..k]).track.cur == []
  {
    assert LiftsAt(events, k);
    LiveRowUsed(atan2, events, k);
  }

  ghost predicate NoTouchIn(events: seq<Event>, n: nat, m: nat)
    requires n <= m <= |events|
  {
    forall k :: n <= k < m && events[k].Scan? ==> events[k].scanned == []
  }

  /** From a liftoff on, and from the start, every frame counts as lifted up to the first
      that shows a touch, and including it. */
  lemma {:induction false} LiftedAfterClear(events: seq<Event>, n: nat, m: nat)
    requires LiftsRight(events) && n <= m < |events| && (n == 0 || events[n - 1].Clear?)
    requires NoTouchIn(events, n, m) && events[m].Scan?
    ensures events[m].lifted
  {
    StaysUnused(events, n, m);
    assert LiftsAt(events, m);
  }

  lemma {:induction false} StaysUnused(events: seq<Event>, n: nat, m: nat)
    requires n <= m <= |events| && (n == 0 || events[n - 1].Clear?) && NoTouchIn(events, n, m)
    ensures RowsAfter(events[..m]).used == {}
    decreases m
  {
    if m > n {
      StaysUnused(events, n, m - 1);
      RowsOneMore(events, m - 1, m);
    } else if m > 0 {
      RowsOneMore(events, m - 1, m);
    }
  }

  // ----- what a read adds -----

  ghost predicate TouchIn(events: seq<Event>, n: nat, m: nat)
    requires n <= m <= |events|
  {
    exists k :: n <= k < m && events[k].Scan? && events[k].scanned != []
  }

  /** n frames have been scanned, and nothing else has happened; `found` says whether any of
      them shows a touch. */
  ghost predicate Scans(before: seq<Event>, after: seq<Event>, n: nat, found: bool) {
    && |after| == |before| + n && after[..|before|] == before
    && (forall k :: |before| <= k < |after| ==> after[k].Scan?)
    && (found <==> TouchIn(after, |before|, |after|))
  }

  lemma {:induction false} ScansNone(events: seq<Event>)
    ensures Scans(events, events, 0, false)
  {
  }

  lemma {:induction false} ScansOne(events: seq<Event>, e: Event)
    requires e.Scan?
    ensures Scans(events, events + [e], 1, e.scanned != [])
  {
    var all := events + [e];
    assert all[|events|] == e;
  }

  lemma {:induction false} ScansMore(a: seq<Event>, b: seq<Event>, c: seq<Event>, n: nat, m: nat, f: bool, g: bool)
    requires Scans(a, b, n, f) && Scans(b, c, m, g)
    ensures Scans(a, c, n + m, f || g)
  {
    assert c[..|a|] == a;
    assert forall k :: |a| <= k < |b| ==> c[k] == b[k];
    if f {
      var k :| |a| <= k < |b| && b[k].Scan? && b[k].scanned != [];
      assert c[k].Scan? && c[k].scanned != [];
    }
    if TouchIn(c, |a|, |c|) && !g {
      var k :| |a| <= k < |c| && c[k].Scan? && c[k].scanned != [];
      assert k < |b|;
      assert b[k].Scan? && b[k].scanned != [];
    }
  }

  /** A read that completes n frames adds them, and a liftoff after them exactly when none of
      them shows a touch and the flag was set. Afterwards the flag says whether one did. */
  ghost predicate ReadAdds(before: seq<Event>, after: seq<Event>, n: nat, flag: bool, flag': bool) {
    var scanned := |before| + n;
    && scanned <= |after| && Scans(before, after[..scanned], n, flag')
    && after[scanned..] == if flag && !flag' then [Clear] else []
  }

  lemma {:induction false} ReadEnds(before: seq<Event>, scans: seq<Event>, after: seq<Event>, n: nat, flag: bool,
                                    found: bool)
    requires Scans(before, scans, n, found) && after == if flag && !found then scans + [Clear] else scans
    ensures ReadAdds(before, after, n, flag, found)
  {
    assert after[..|scans|] == scans;
  }

  // ----- how long a touch keeps its id -----

  function SquareSum(dx: int, dy: int): int { dx * dx + dy * dy }

  /** The squared distance of two places, before any filter. */
  function Gap(t: TouchPoint, u: TouchPoint): int {
    SquareSum(t.unfilteredX - u.unfilteredX, t.unfilteredY - u.unfilteredY)
  }

  /** Of the live touches before, number p is the closest to t, the first among equals. */
  ghost predicate ClosestTo(before: seq<TouchPoint>, t: TouchPoint, p: nat) {
    && p < |before| && before[p].highestVal != 0
    && (forall q :: 0 <= q < |before| && before[q].highestVal != 0 ==> Gap(t, before[p]) <= Gap(t, before[q]))
    && (forall q :: 0 <= q < p && before[q].highestVal != 0 ==> Gap(t, before[p]) < Gap(t, before[q]))
  }

  /** Scanned touch i continues touch p of the frame before: p is the closest to it, no
      further than 130 pixels away, and every other touch that p is closest to is further
      away, or as far and earlier. */
  ghost predicate Follows(before: seq<TouchPoint>, scanned: seq<TouchPoint>, i: nat, p: nat) {
    && i < |scanned| && ClosestTo(before, scanned[i], p) && Gap(scanned[i], before[p]) <= 16900
    && (forall j :: 0 <= j < |scanned| && j != i && ClosestTo(before, scanned[j], p) ==>
          Gap(scanned[j], before[p]) > Gap(scanned[i], before[p])
          || (Gap(scanned[j], before[p]) == Gap(scanned[i], before[p]) && j < i))
  }

  lemma {:induction false} NearestWhenClosest(before: seq<TouchPoint>, t: TouchPoint, p: nat)
    requires ClosestTo(before, t, p) && Gap(t, before[p]) <= 16900
    ensures Nearest(before, t, |before|) == Match(p, Gap(t, before[p]))
  {
    NearestIsNearest(before, t, |before|);
    var r := Nearest(before, t, |before|);
    assert SquaredDistance(t, before[p]) == Gap(t, before[p]);
    if r.loc >= 0 {
      assert SquaredDistance(t, before[r.loc]) == Gap(t, before[r.loc]);
    }
  }

  lemma {:induction false} ClosestWhenNearest(before: seq<TouchPoint>, t: TouchPoint)
    requires Nearest(before, t, |before|).loc >= 0
    ensures var r := Nearest(before, t, |before|);
            ClosestTo(before, t, r.loc) && r.distance == Gap(t, before[r.loc])
  {
    NearestIsNearest(before, t, |before|);
    var r := Nearest(before, t, |before|);
    forall q | 0 <= q < |before| && before[q].highestVal != 0
      ensures SquaredDistance(t, before[q]) == Gap(t, before[q])
    {
    }
  }

  /** Such a claim survives. */
  lemma {:induction false} FollowerWins(before: seq<TouchPoint>, scanned: seq<TouchPoint>, i: nat, p: nat)
    requires Follows(before, scanned, i, p)
    ensures Winners(Matches(before, scanned))[i] == p && Matches(before, scanned)[i].distance <= 16900
  {
    var m := Matches(before, scanned);
    NearestWhenClosest(before, scanned[i], p);
    forall j | 0 <= j < |m| && j != i && m[j].loc == m[i].loc ensures !Beats(m, j, i) {
      ClosestWhenNearest(before, scanned[j]);
    }
  }

  /** A touch that continues one of the frame before keeps its id. */
  lemma {:induction false} IdKept(atan2: Atan2, events: seq<Event>, k: nat, i: nat, p: nat)
    requires GoodEvents(events) && LiftsRight(events) && k + 1 < |events| && events[k].Scan? && events[k + 1].Scan?
    requires Follows(FrameAt(atan2, events, k).touches, events[k + 1].scanned, i, p)
    ensures FrameAt(atan2, events, k + 1).touches[i].trackingId == FrameAt(atan2, events, k).touches[p].trackingId
  {
    var n := k + 1;
    var o, e, r := FrameAt(atan2, events, k), events[n], Run(atan2, events[..n]);
    RunOneMore(atan2, events, k, n);
    if e.lifted { LiftedWhenEmpty(atan2, events, n); }
    FollowsCounted(o.touches, e.scanned, i, p);
    FollowerWins(r.track.cur, e.scanned, i, p);
    assert GoodEvent(e);
    FrameIsGood(e.s, atan2, r, e.lifted, e.scanned);
    CountedIdKept(o.touches, p);
  }

  lemma {:induction false} CountedIdKept(touches: seq<TouchPoint>, p: nat)
    requires p < |touches|
    ensures CountedAll(touches)[p].trackingId == touches[p].trackingId
  {
  }

  ghost predicate SamePlaces(a: seq<TouchPoint>, b: seq<TouchPoint>) {
    |a| == |b| && forall q :: 0 <= q < |a| ==>
      a[q].highestVal == b[q].highestVal && a[q].unfilteredX == b[q].unfilteredX && a[q].unfilteredY == b[q].unfilteredY
  }

  lemma {:induction false} ClosestSame(a: seq<TouchPoint>, b: seq<TouchPoint>, t: TouchPoint, p: nat)
    requires SamePlaces(a, b)
    ensures ClosestTo(a, t, p) <==> ClosestTo(b, t, p)
  {
    assert forall q :: 0 <= q < |a| ==> Gap(t, a[q]) == Gap(t, b[q]);
  }

  /** Counting down a delay moves nothing. */
  lemma {:induction false} FollowsCounted(touches: seq<TouchPoint>, scanned: seq<TouchPoint>, i: nat, p: nat)
    requires Follows(touches, scanned, i, p)
    ensures Follows(CountedAll(touches), scanned, i, p)
  {
    var counted := CountedAll(touches);
    assert SamePlaces(touches, counted);
    forall j | 0 <= j < |scanned|
      ensures ClosestTo(counted, scanned[j], p) <==> ClosestTo(touches, scanned[j], p)
    {
      ClosestSame(touches, counted, scanned[j], p);
    }
    assert forall j :: 0 <= j < |scanned| ==> Gap(scanned[j], counted[p]) == Gap(scanned[j], touches[p]);
  }

  /** If touch i of frame `next` continues touch p of frame `last`, both carry the same id. */
  ghost predicate KeepsId(atan2: Atan2, events: seq<Event>, last: nat, next: nat, i: nat, p: nat)
    requires GoodEvents(events) && last < |events| && next < |events| && events[last].Scan? && events[next].Scan?
  {
    Follows(FrameAt(atan2, events, last).touches, events[next].scanned, i, p)
    ==> FrameAt(atan2, events, next).touches[i].trackingId == FrameAt(atan2, events, last).touches[p].trackingId
  }

  /** The last frame of one read and the first frame of the next follow each other in the run
      if the first read shows a touch: nothing is lifted off in between, and a touch that
      continues keeps its id. */
  lemma {:induction false} IdKeptAcrossReads(atan2: Atan2, a: seq<Event>, b: seq<Event>, c: seq<Event>, n: nat, m: nat,
                                             flag: bool, found: bool, last: nat, i: nat, p: nat)
    requires ReadAdds(a, b, n, flag, true) && ReadAdds(b, c, m, true, found) && n > 0 && m > 0
    requires GoodEvents(c) && LiftsRight(c) && last == |a| + n - 1
    ensures |b| == last + 1 < |c| && c[last].Scan? && c[last + 1].Scan?
    ensures KeepsId(atan2, c, last, last + 1, i, p)
  {
    ReadsMeet(a, b, c, n, m, flag, found, last);
    if Follows(FrameAt(atan2, c, last).touches, c[last + 1].scanned, i, p) { IdKept(atan2, c, last, i, p); }
  }

  lemma {:induction false} ReadsMeet(a: seq<Event>, b: seq<Event>, c: seq<Event>, n: nat, m: nat, flag: bool,
                                     found: bool, last: nat)
    requires ReadAdds(a, b, n, flag, true) && ReadAdds(b, c, m, true, found) && n > 0 && m > 0
    requires last == |a| + n - 1
    ensures |b| == last + 1 < |c| && c[last].Scan? && c[last + 1].Scan?
  {
    var scans, more := b[..last + 1], c[..|b| + m];
    assert scans[last].Scan? && b == scans + b[last + 1..];
    assert more[last + 1].Scan? && more[..|b|][last] == b[last];
  }
}

/**
 Touches that are reported without an id of their own (touchscreen_drv/ts_srv.c, the branch
 for a claim that survives from too far away): when it happens in a run.
 */
module TouchJumps {
  import opened TouchTracking

  lemma {:induction false} CounterGrows(s: Settings, atan2: Atan2, prev2: seq<TouchPoint>, prev: seq<TouchPoint>,
                                        cur: seq<TouchPoint>,
                                        counter: int, n: nat)
    requires Linked(prev2, prev) && n <= |cur|
    ensures CounterAt(s, atan2, prev2, prev, cur, counter, n) >= counter
  {
    if n > 0 { CounterGrows(s, atan2, prev2, prev, cur, counter, n - 1); }
  }

  /** A report without an id. */
  predicate Unnumbered(t: TouchPoint) { Sent(t) && t.trackingId < 0 }

  /** The surviving claim m of a touch t leads to no id: its predecessor has none, or is too
      far away and was moving fast in the same direction. */
  ghost predicate ClaimWithoutId(atan2: Atan2, prev: seq<TouchPoint>, t: TouchPoint, m: Match)
    requires m.loc < |prev|
  {
    m.loc >= 0 &&
    var p := prev[m.loc];
    if m.distance <= MAX_DELTA_SQ then p.trackingId < 0
    else p.distance > MIN_PREV_DELTA_SQ && AbsReal(atan2(t.x - p.x, t.y - p.y) - p.direction) < MAX_DELTA_ANGLE
  }

  /** The touches of a frame before the debounce of a lone finger. */
  ghost function Given(s: Settings, atan2: Atan2, r: RunState, lifted: bool,
                       scanned: seq<TouchPoint>): (given: seq<TouchPoint>)
    requires Linked(r.track.older, r.track.cur)
    ensures |given| == |scanned|
  {
    var prev2 := if lifted then [] else r.track.older;
    AssignAll(s, atan2, prev2, PrevOf(r, lifted), scanned, r.track.counter, |scanned|).0
  }

  lemma {:induction false} AssignedWithoutId(s: Settings, atan2: Atan2, prev2: seq<TouchPoint>,
                                             prev: seq<TouchPoint>, cur: seq<TouchPoint>,
                                             counter: int, i: nat)
    requires Linked(prev2, prev) && Sane(s) && i < |cur| && Scanned(s, cur[i]) && counter >= 0
    requires forall k :: 0 <= k < |prev| ==> prev[k].trackingId >= -1
    ensures var m := Claim(Matches(prev, cur), i);
            var u := AssignAll(s, atan2, prev2, prev, cur, counter, |cur|).0[i];
            m.loc < |prev| && (u.highestVal != 0 && u.trackingId < 0 <==> ClaimWithoutId(atan2, prev, cur[i], m))
  {
    ClaimNotSuppressed(prev, cur, i);
    AssignAllAt(s, atan2, prev2, prev, cur, counter, |cur|, i);
    CounterGrows(s, atan2, prev2, prev, cur, counter, i);
    UnnumberedIff(s, atan2, prev, prev2, cur[i], Claim(Matches(prev, cur), i),
                  CounterAt(s, atan2, prev2, prev, cur, counter, i));
  }

  lemma {:induction false} GivenWithoutId(s: Settings, atan2: Atan2, r: RunState, lifted: bool,
                                          scanned: seq<TouchPoint>, i: nat)
    requires Inv(r) && Sane(s) && AllScanned(s, scanned) && i < |scanned|
    ensures var m := Claim(Matches(PrevOf(r, lifted), scanned), i);
            var u := Given(s, atan2, r, lifted, scanned)[i];
            m.loc < |PrevOf(r, lifted)|
            && (u.highestVal != 0 && u.trackingId < 0 <==> ClaimWithoutId(atan2, PrevOf(r, lifted), scanned[i], m))
  {
    var prev := PrevOf(r, lifted);
    forall k | 0 <= k < |prev| ensures prev[k].trackingId >= -1 { assert DelayOk(r.track.cur[k], r.chains[k]); }
    AssignedWithoutId(s, atan2, if lifted then [] else r.track.older, prev, scanned, r.track.counter, i);
  }

  lemma {:induction false} TouchOfGiven(s: Settings, atan2: Atan2, r: RunState, lifted: bool,
                                        scanned: seq<TouchPoint>, i: nat)
    requires Inv(r) && Sane(s) && AllScanned(s, scanned) && i < |scanned|
    ensures var t, u := Frame(s, atan2, r.track, lifted, scanned).touches[i], Given(s, atan2, r, lifted, scanned)[i];
            t.highestVal == u.highestVal && t.trackingId == u.trackingId >= -1
                && (t.trackingId < 0 ==> t.touchDelay == 0)
  {
    FrameIsGood(s, atan2, r, lifted, scanned);
    var o, given := Frame(s, atan2, r.track, lifted, scanned), Given(s, atan2, r, lifted, scanned);
    DebouncedMoves(given, lifted, r.track.initialX, r.track.initialY);
    assert Moved(given, o.touches);
    assert DelayOk(o.touches[i], ChainBefore(s, ChainsOf(r, lifted), o.touches[i], scanned[i]));
  }

  /** After any run, touch i of the next frame is reported without an id exactly when its
      surviving claim leads to none. */
  lemma {:induction false} UnnumberedInRun(atan2: Atan2, events: seq<Event>, s: Settings, lifted: bool,
                                           scanned: seq<TouchPoint>, i: nat)
    requires GoodEvents(events)
    requires Sane(s) && AllScanned(s, scanned) && i < |scanned|
    ensures var r := Run(atan2, events);
            var m := Claim(Matches(PrevOf(r, lifted), scanned), i);
            m.loc < |PrevOf(r, lifted)|
            && (Unnumbered(Frame(s, atan2, r.track, lifted, scanned).touches[i])
                <==> ClaimWithoutId(atan2, PrevOf(r, lifted), scanned[i], m))
  {
    var r := Run(atan2, events);
    GivenWithoutId(s, atan2, r, lifted, scanned, i);
    TouchOfGiven(s, atan2, r, lifted, scanned, i);
  }

  /** As long as the id counter has not started over, two reports of one frame carry the same
      id exactly when neither has one. */
  lemma {:induction false} SameIdInRun(atan2: Atan2, events: seq<Event>, s: Settings, lifted: bool,
                                       scanned: seq<TouchPoint>, i: nat, j: nat)
    requires GoodEvents(events)
    requires Sane(s) && AllScanned(s, scanned) && i < j < |scanned|
    requires !Run(atan2, events).reset || lifted
    ensures var a, b := Frame(s, atan2, Run(atan2, events).track, lifted, scanned).touches[i],
                        Frame(s, atan2, Run(atan2, events).track, lifted, scanned).touches[j];
            a.trackingId == b.trackingId <==> a.trackingId < 0 && b.trackingId < 0
  {
    var r := Run(atan2, events);
    var o := Frame(s, atan2, r.track, lifted, scanned);
    FrameIsGood(s, atan2, r, lifted, scanned);
    assert IdsDiffer(o.touches[i], o.touches[j]);
    assert DelayOk(o.touches[i], ChainBefore(s, ChainsOf(r, lifted), o.touches[i], scanned[i]));
    assert DelayOk(o.touches[j], ChainBefore(s, ChainsOf(r, lifted), o.touches[j], scanned[j]));
  }
}

/**
 The debounce of a lone finger (touchscreen_drv/ts_srv.c, the end of calc_point) over whole
 runs: how long the reports stay at the place where the finger came down.
 */
module TouchDebounce {
  import opened TouchTracking
  import opened TouchJumps
  import opened TouchLiftoff

  /** A frame that shows exactly one touch. */
  predicate Lone(e: Event) { e.Scan? && |e.scanned| == 1 }

  /** Such a frame with nothing before it to match with. */
  predicate Fresh(e: Event) { Lone(e) && e.lifted }

  /** The touch of the lone frame number k, filtered and not debounced yet. */
  ghost function Filtered(atan2: Atan2, events: seq<Event>, k: nat): (t: TouchPoint)
    requires GoodEvents(events) && k < |events| && Lone(events[k])
  {
    Given(events[k].s, atan2, Run(atan2, events[..k]), events[k].lifted, events[k].scanned)[0]
  }

  predicate Near(t: TouchPoint, x: int, y: int) {
    -10 <= t.x - x <= 10 && -10 <= t.y - y <= 10
  }

  ghost predicate NearAt(atan2: Atan2, events: seq<Event>, k: nat, x: int, y: int)
    requires GoodEvents(events) && k < |events|
  {
    Lone(events[k]) ==> Near(Filtered(atan2, events, k), x, y)
  }

  /** In the frames from n to m, no lone touch leaves the square around (x, y). */
  ghost predicate Stays(atan2: Atan2, events: seq<Event>, n: nat, m: nat, x: int, y: int)
    requires GoodEvents(events) && n <= m <= |events|
  {
    forall k :: n <= k < m ==> NearAt(atan2, events, k, x, y)
  }

  ghost predicate NoneFresh(events: seq<Event>, n: nat, m: nat)
    requires n <= m <= |events|
  {
    forall k :: n <= k < m ==> !Fresh(events[k])
  }

  /** The debounce is the last step of a frame. */
  lemma {:induction false} DebouncedLast(s: Settings, atan2: Atan2, r: RunState, lifted: bool,
                                         scanned: seq<TouchPoint>)
    requires Linked(r.track.older, r.track.cur)
    ensures var o, given := Frame(s, atan2, r.track, lifted, scanned), Given(s, atan2, r, lifted, scanned);
            (o.touches, o.track.initialX, o.track.initialY)
            == Debounced(given, lifted, r.track.initialX, r.track.initialY)
  {
  }

  /** What one frame does to the remembered place, and where it leaves a lone touch u. */
  ghost predicate LoneRule(u: TouchPoint, lifted: bool, x: int, y: int, touch: TouchPoint, x': int, y': int) {
    if lifted then touch == u && x' == u.x && y' == u.y
    else if x <= -20 then touch == u && x' == x && y' == y
    else if Near(u, x, y) then touch == u.(x := x, y := y) && x' == x && y' == y
    else touch == u && x' == -100
  }

  lemma {:induction false} DebounceRule(given: seq<TouchPoint>, lifted: bool, x: int, y: int)
    requires |given| == 1
    ensures var (touches, x', y') := Debounced(given, lifted, x, y);
            |touches| == 1 && LoneRule(given[0], lifted, x, y, touches[0], x', y')
  {
  }

  lemma {:induction false} LoneFrame(atan2: Atan2, events: seq<Event>, k: nat)
    requires GoodEvents(events) && k < |events| && Lone(events[k])
    ensures var t, o := Run(atan2, events[..k]).track, FrameAt(atan2, events, k);
            |o.touches| == 1 && LoneRule(Filtered(atan2, events, k), events[k].lifted, t.initialX, t.initialY,
                                         o.touches[0], o.track.initialX, o.track.initialY)
  {
    var e, r := events[k], Run(atan2, events[..k]);
    DebouncedLast(e.s, atan2, r, e.lifted, e.scanned);
    DebounceRule(Given(e.s, atan2, r, e.lifted, e.scanned), e.lifted, r.track.initialX, r.track.initialY);
  }

  /** The remembered place after one more event. */
  lemma {:induction false} PlaceAfter(atan2: Atan2, events: seq<Event>, k: nat)
    requires GoodEvents(events) && k < |events|
    ensures var t, u := Run(atan2, events[..k]).track, Run(atan2, events[..k + 1]).track;
            if Lone(events[k])
            then u.initialX == FrameAt(atan2, events, k).track.initialX
                 && u.initialY == FrameAt(atan2, events, k).track.initialY
            else u.initialX == t.initialX && u.initialY == t.initialY
  {
    RunOneMore(atan2, events, k, k + 1);
    var e, r := events[k], Run(atan2, events[..k]);
    if e.Scan? { DebouncedLast(e.s, atan2, r, e.lifted, e.scanned); }
  }

  /** What is remembered before and after an event that is not a fresh lone touch. */
  lemma {:induction false} PlaceKept(atan2: Atan2, events: seq<Event>, k: nat, next: nat)
    requires GoodEvents(events) && k < |events| && !Fresh(events[k]) && next == k + 1
    ensures var t, u := Run(atan2, events[..k]).track, Run(atan2, events[..next]).track;
            if t.initialX <= -20 || NearAt(atan2, events, k, t.initialX, t.initialY)
            then u.initialX == t.initialX && u.initialY == t.initialY
            else u.initialX == -100
  {
    PlaceAfter(atan2, events, k);
    if Lone(events[k]) { LoneFrame(atan2, events, k); }
  }

  ghost predicate RemembersIf(stays: bool, t: Track, x: int, y: int) {
    if stays then t.initialX == x && t.initialY == y else t.initialX == -100
  }

  /** A remembered place lasts until a lone touch leaves its square, and is never remembered
      again then. */
  lemma {:induction false} Remembered(atan2: Atan2, events: seq<Event>, n: nat, m: nat, x: int, y: int)
    requires GoodEvents(events) && n <= m <= |events| && NoneFresh(events, n, m) && x >= 0
    requires Run(atan2, events[..n]).track.initialX == x && Run(atan2, events[..n]).track.initialY == y
    ensures RemembersIf(Stays(atan2, events, n, m, x, y), Run(atan2, events[..m]).track, x, y)
    decreases m
  {
    if m > n {
      var k := m - 1;
      Remembered(atan2, events, n, k, x, y);
      PlaceKept(atan2, events, k, m);
      StaysOneMore(atan2, events, n, k, m, x, y);
    }
  }

  lemma {:induction false} StaysOneMore(atan2: Atan2, events: seq<Event>, n: nat, k: nat, next: nat, x: int, y: int)
    requires GoodEvents(events) && n <= k < |events| && next == k + 1
    ensures Stays(atan2, events, n, next, x, y)
            <==> Stays(atan2, events, n, k, x, y) && NearAt(atan2, events, k, x, y)
  {
  }

  /** Every report of a frame with one touch carries this touch's place. */
  lemma {:induction false} ReportedThere(atan2: Atan2, events: seq<Event>, k: nat, i: nat)
    requires GoodEvents(events) && k < |events| && Lone(events[k])
    requires i < |FrameAt(atan2, events, k).reports|
    ensures var o := FrameAt(atan2, events, k);
            o.reports[i].x == o.touches[0].x && o.reports[i].y == o.touches[0].y
  {
    LoneFrame(atan2, events, k);
    var j := ReportsAreSent(FrameAt(atan2, events, k).touches, i);
    assert j == 0;
  }

  lemma {:induction false} OneTouch(touches: seq<TouchPoint>)
    requires |touches| == 1
    ensures touches == [touches[0]]
  {
  }

  ghost predicate ReportedAt(o: Outcome, x: int, y: int) {
    forall i :: 0 <= i < |o.reports| ==> o.reports[i].x == x && o.reports[i].y == y
  }

  /** From a remembered place on: a lone frame is reported at exactly this place if no lone
      touch has left its square since, this frame's included, and at exactly its filtered
      place otherwise. */
  lemma {:induction false} HeldWhileNear(atan2: Atan2, events: seq<Event>, n: nat, m: nat, x: int, y: int)
    requires GoodEvents(events) && n <= m < |events| && NoneFresh(events, n, m + 1) && Lone(events[m]) && x >= 0
    requires Run(atan2, events[..n]).track.initialX == x && Run(atan2, events[..n]).track.initialY == y
    ensures var u := Filtered(atan2, events, m);
            if Stays(atan2, events, n, m + 1, x, y)
            then ReportedAt(FrameAt(atan2, events, m), x, y)
                 && FrameAt(atan2, events, m).touches == [u.(x := x, y := y)]
            else ReportedAt(FrameAt(atan2, events, m), u.x, u.y) && FrameAt(atan2, events, m).touches == [u]
  {
    assert NoneFresh(events, n, m);
    Remembered(atan2, events, n, m, x, y);
    StaysOneMore(atan2, events, n, m, m + 1, x, y);
    LoneFrame(atan2, events, m);
    OneTouch(FrameAt(atan2, events, m).touches);
    var o := FrameAt(atan2, events, m);
    forall i | 0 <= i < |o.reports| ensures o.reports[i].x == o.touches[0].x && o.reports[i].y == o.touches[0].y {
      ReportedThere(atan2, events, m, i);
    }
  }

  /** The debounce over a run. A lone finger that comes down after a liftoff in frame n is
      reported where the filter puts it. Until the next such frame, every frame with one
      touch is reported at exactly that place as long as no lone touch has left the square
      around it, and from the first that leaves it on at its own filtered place, whether it
      returns or not. */
  lemma {:induction false} LoneFingerHeld(atan2: Atan2, events: seq<Event>, n: nat, m: nat)
    requires GoodEvents(events) && n < m < |events| && Fresh(events[n])
    requires NoneFresh(events, n + 1, m + 1) && Lone(events[m])
    ensures var down, u := Filtered(atan2, events, n), Filtered(atan2, events, m);
            && ReportedAt(FrameAt(atan2, events, n), down.x, down.y)
            && (Stays(atan2, events, n + 1, m + 1, down.x, down.y)
                ==> ReportedAt(FrameAt(atan2, events, m), down.x, down.y)
                    && FrameAt(atan2, events, m).touches == [u.(x := down.x, y := down.y)])
            && (!Stays(atan2, events, n + 1, m + 1, down.x, down.y)
                ==> ReportedAt(FrameAt(atan2, events, m), u.x, u.y) && FrameAt(atan2, events, m).touches == [u])
  {
    var down := Filtered(atan2, events, n);
    PlaceAfter(atan2, events, n);
    FilteredOnScreen(atan2, events, n);
    LoneFrame(atan2, events, n);
    var o := FrameAt(atan2, events, n);
    forall i | 0 <= i < |o.reports| ensures o.reports[i].x == down.x && o.reports[i].y == down.y {
      ReportedThere(atan2, events, n, i);
    }
    HeldWhileNear(atan2, events, n + 1, m, down.x, down.y);
  }

  /** From frame n to m, every event is a frame that shows a touch. */
  ghost predicate Touching(events: seq<Event>, n: nat, m: nat)
    requires n <= m <= |events|
  {
    forall k :: n <= k < m ==> events[k].Scan? && events[k].scanned != []
  }

  /** While fingers stay on the screen, no frame counts as fresh. */
  lemma {:induction false} NoneFreshWhileTouching(atan2: Atan2, events: seq<Event>, n: nat, m: nat)
    requires GoodEvents(events) && LiftsRight(events) && n < m <= |events| && Touching(events, n, m)
    ensures NoneFresh(events, n + 1, m)
  {
    forall k | n + 1 <= k < m ensures !Fresh(events[k]) {
      var before := k - 1;
      assert events[before].Scan? && events[before].scanned != [];
      RunOneMore(atan2, events, before, k);
      if events[k].lifted { LiftedWhenEmpty(atan2, events, k); }
    }
  }

  /** The same in terms of liftoffs: a lone finger that is the first to come down after a
      liftoff, or after the start, is held at the place of its first frame until a lone touch
      leaves the square around it, and never there again while fingers stay on the screen. */
  lemma {:induction false} HeldAfterLiftoff(atan2: Atan2, events: seq<Event>, c: nat, n: nat, m: nat)
    requires GoodEvents(events) && LiftsRight(events) && c <= n < m < |events|
    requires (c == 0 || events[c - 1].Clear?) && NoTouchIn(events, c, n)
    requires Lone(events[n]) && Touching(events, n, m + 1) && Lone(events[m])
    ensures var down, u := Filtered(atan2, events, n), Filtered(atan2, events, m);
            && ReportedAt(FrameAt(atan2, events, n), down.x, down.y)
            && if Stays(atan2, events, n + 1, m + 1, down.x, down.y)
               then ReportedAt(FrameAt(atan2, events, m), down.x, down.y)
               else ReportedAt(FrameAt(atan2, events, m), u.x, u.y)
  {
    LiftedAfterClear(events, c, n);
    NoneFreshWhileTouching(atan2, events, n, m + 1);
    LoneFingerHeld(atan2, events, n, m);
  }

  lemma {:induction false} FilteredOnScreen(atan2: Atan2, events: seq<Event>, n: nat)
    requires GoodEvents(events) && n < |events| && Fresh(events[n])
    ensures Filtered(atan2, events, n).x >= 0
  {
    var e, r := events[n], Run(atan2, events[..n]);
    assert GoodEvent(e);
    FrameIsGood(e.s, atan2, r, e.lifted, e.scanned);
    LoneFrame(atan2, events, n);
    assert OnScreen(FrameAt(atan2, events, n).touches[0]);
  }

  /** Before the first lone finger after a liftoff, the remembered place is the corner of the
      screen. */
  lemma {:induction false} HeldAtCorner(atan2: Atan2, events: seq<Event>, m: nat)
    requires GoodEvents(events) && m < |events| && NoneFresh(events, 0, m + 1) && Lone(events[m])
    ensures var u := Filtered(atan2, events, m);
            if Stays(atan2, events, 0, m + 1, 0, 0)
            then FrameAt(atan2, events, m).touches == [u.(x := 0, y := 0)]
            else FrameAt(atan2, events, m).touches == [u]
  {
    assert events[..0] == [];
    HeldWhileNear(atan2, events, 0, m, 0, 0);
  }

  /** A frame with no touch or with several is not debounced. */
  lemma {:induction false} OthersNotHeld(atan2: Atan2, events: seq<Event>, k: nat)
    requires GoodEvents(events) && k < |events| && events[k].Scan? && |events[k].scanned| != 1
    ensures FrameAt(atan2, events, k).touches
            == Given(events[k].s, atan2, Run(atan2, events[..k]), events[k].lifted, events[k].scanned)
  {
    DebouncedLast(events[k].s, atan2, Run(atan2, events[..k]), events[k].lifted, events[k].scanned);
  }
}

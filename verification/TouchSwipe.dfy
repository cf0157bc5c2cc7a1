/**
 A run in which touches are reported without an id (touchscreen_drv/ts_srv.c, calc_point):
 two fingers swipe to the right, from the readings of the digitizer to the reports.
 */
module TouchSwipe {
  import opened TouchTracking
  import opened TouchJumps
  import Fill = TouchFill
  import Scanning = TouchScan
  import Table = TouchTable

  const READING := 36
  const UPPER := 5
  const LOWER := 20

  // ----- two single readings -----

  function Lit(i: int, j: int, c: int): (v: int) { if (i == UPPER || i == LOWER) && j == c then READING else 0 }

  /** A matrix with two readings in column c. */
  ghost function Spots(c: int): (g: Fill.Grid)
    ensures Fill.IsGrid(g)
    ensures forall i, j :: 0 <= i < Fill.X_AXIS_POINTS && 0 <= j < Fill.Y_AXIS_POINTS ==> g[i][j] == Lit(i, j, c)
  {
    seq(Fill.X_AXIS_POINTS, i => seq(Fill.Y_AXIS_POINTS, j => Lit(i, j, c)))
  }

  /** The source's power of 1.5: the reading weighs 6 * 6 * 6. */
  ghost predicate Weighs(w: int -> real) { w(READING) == 216.0 }

  lemma {:induction false} TouchIsSpot(c: int, seed: Fill.Cell)
    requires Fill.InGrid(seed) && seed in {(UPPER, c), (LOWER, c)}
    ensures Fill.Touch(Spots(c), seed) == {seed}
  {
    var g := Spots(c);
    forall d | Fill.Adjacent(seed, d) ensures Fill.At(g, d) == 0 {
      assert Fill.At(g, d) == Lit(d.0, d.1, c);
    }
    Fill.ReachSelf(g, seed);
    Fill.ClosedIsTouch(g, seed, {seed});
  }

  /** The scan of the first k cells has found the spots among them. */
  lemma {:induction false} SeedsAre(c: int, thresh: int, k: nat)
    requires 0 <= c < Fill.Y_AXIS_POINTS && 0 <= thresh < READING && k <= Scanning.CELLS
    ensures Scanning.Seeds(Spots(c), thresh, k) == SpotsBefore(c, k)
  {
    if k > 0 {
      var j: nat := k - 1;
      SeedsAre(c, thresh, j);
      SeedNext(c, thresh, j, k);
      MoreSeeds(Spots(c), thresh, j, k);
    }
  }

  lemma {:induction false} MoreSeeds(g: Fill.Grid, thresh: int, j: nat, k: nat)
    requires Fill.IsGrid(g) && k == j + 1 <= Scanning.CELLS
    ensures Scanning.Seeds(g, thresh, k)
         == Scanning.WithSeed(g, thresh, Scanning.Seeds(g, thresh, j), Fill.CellAt(j))
  {
  }

  function SpotsBefore(c: int, k: int): (s: seq<Fill.Cell>) {
    if k <= Fill.Index((UPPER, c)) then [] else if k <= Fill.Index((LOWER, c)) then [(UPPER, c)]
    else [(UPPER, c), (LOWER, c)]
  }

  lemma {:induction false} SeedNext(c: int, thresh: int, k: nat, next: nat)
    requires 0 <= c < Fill.Y_AXIS_POINTS && 0 <= thresh < READING && next == k + 1 <= Scanning.CELLS
    ensures Scanning.WithSeed(Spots(c), thresh, SpotsBefore(c, k), Fill.CellAt(k)) == SpotsBefore(c, next)
  {
    var g, cell, s := Spots(c), Fill.CellAt(k), SpotsBefore(c, k);
    assert Fill.At(g, cell) == Lit(cell.0, cell.1, c);
    assert cell == (UPPER, c) <==> k == Fill.Index((UPPER, c));
    assert cell == (LOWER, c) <==> k == Fill.Index((LOWER, c));
    TouchIsSpot(c, (UPPER, c));
    assert s != [] ==> s[0] == (UPPER, c);
    assert cell == (LOWER, c) ==> !Scanning.Claimed(g, s, cell);
  }

  function SpotStats(cell: Fill.Cell): (st: Table.Stats) {
    Table.Stats(216.0 * cell.0 as real, 216.0 * cell.1 as real, 216, cell.0, cell.0, cell.1, cell.1, READING)
  }

  lemma {:induction false} SumSpot(g: Fill.Grid, w: int -> real, kind: Fill.Measure, cell: Fill.Cell)
    requires Fill.IsGrid(g) && Fill.InGrid(cell)
    ensures Fill.Sum(g, w, kind, {cell}) == Fill.Term(g, w, kind, cell)
  {
    Fill.SumAdd(g, w, kind, {}, cell);
    Fill.TotalEmpty(g, w, kind, Fill.X_AXIS_POINTS * Fill.Y_AXIS_POINTS);
    assert {} + {cell} == {cell};
  }

  lemma {:induction false} StatsAre(w: int -> real, c: int, cell: Fill.Cell)
    requires Weighs(w) && Fill.InGrid(cell) && cell in {(UPPER, c), (LOWER, c)}
    ensures Table.StatsOf(Spots(c), w, cell, SpotStats(cell))
  {
    var g := Spots(c);
    TouchIsSpot(c, cell);
    assert Fill.At(g, cell) == READING && Fill.Core(g, cell, cell) && cell in {cell};
    SumSpot(g, w, Fill.Weight, cell);
    SumSpot(g, w, Fill.RowMoment, cell);
    SumSpot(g, w, Fill.ColumnMoment, cell);
  }

  // ----- two touches -----

  /** The table of a server that has just started. */
  const BLANK := TouchPoint(0, 0.0, 0.0, 0, 0, 0.0, 0, 0, 0, 0, 0, 0, 0, 0, 0, 0, 0)

  /** The touch of a single reading. */
  function Tap(cell: Fill.Cell, x: int, y: int): (t: TouchPoint) {
    TouchPoint(216, cell.0 as real, cell.1 as real, -1, -1, 0.0, 0, 0, x, y, x, y, READING, 0, x, y,
               HOVER_DEBOUNCE_DELAY)
  }

  function PlaceOf(c: int): (x: int) { Table.PlaceX(c as real) }

  /** Two fingers in one column. */
  function Pair(c: int): (scanned: seq<TouchPoint>) {
    [Tap((UPPER, c), PlaceOf(c), 634), Tap((LOWER, c), PlaceOf(c), 237)]
  }

  lemma {:induction false} Places()
    ensures PlaceOf(38) == 25 && PlaceOf(35) == 104 && PlaceOf(29) == 261
    ensures Table.PlaceY(UPPER as real) == 634 && Table.PlaceY(LOWER as real) == 237
  {
    assert 38.0 * 1024.0 / 39.0 == 38912.0 / 39.0 && 35.0 * 1024.0 / 39.0 == 35840.0 / 39.0;
    assert 29.0 * 1024.0 / 39.0 == 29696.0 / 39.0;
    assert 5.0 * 768.0 / 29.0 == 3840.0 / 29.0 && 20.0 * 768.0 / 29.0 == 15360.0 / 29.0;
  }

  lemma {:induction false} PlacedTap(cell: Fill.Cell, x: int, y: int)
    requires x == Table.PlaceX(cell.1 as real) && y == Table.PlaceY(cell.0 as real)
    ensures Table.Placed(BLANK, SpotStats(cell)) == Tap(cell, x, y)
  {
    assert 216.0 * cell.0 as real / 216.0 == cell.0 as real && 216.0 * cell.1 as real / 216.0 == cell.1 as real;
  }

  /** The scan of the two readings finds the two touches. */
  lemma {:induction false} PairCame(w: int -> real, c: int)
    requires Weighs(w) && 0 <= c < Fill.Y_AXIS_POINTS
    ensures Table.Came(w, Spots(c), FINGER, Pair(c))
  {
    var g, seeds := Spots(c), [(UPPER, c), (LOWER, c)];
    SeedsAre(c, FINGER.continued, Scanning.CELLS);
    var stats, was := [SpotStats(seeds[0]), SpotStats(seeds[1])], seq(MAX_TOUCH, _ => BLANK);
    Places();
    forall t | 0 <= t < 2 ensures Table.EntryAt(g, w, seeds, stats, was, Pair(c), t) {
      StatsAre(w, c, seeds[t]);
      PlacedTap(seeds[t], PlaceOf(c), if t == 0 then 634 else 237);
    }
    assert Table.ScanResult(g, w, seeds, stats, was, Pair(c));
  }

  /** Each finger matches its own touch: the other one is further away. */
  lemma {:induction false} PairNearest(prev: seq<TouchPoint>, c: int, px: int, d: int)
    requires |prev| == 2 && prev[0].highestVal != 0 && prev[1].highestVal != 0
    requires prev[0].unfilteredX == prev[1].unfilteredX == px && prev[0].unfilteredY == 634
             && prev[1].unfilteredY == 237
    requires d == (PlaceOf(c) - px) * (PlaceOf(c) - px) <= 40000
    ensures Matches(prev, Pair(c)) == [Match(0, d), Match(1, d)] && Winners(Matches(prev, Pair(c))) == [0, 1]
  {
    NearestOfTwo(prev, Pair(c)[0], d, d + 157609);
    NearestOfTwo(prev, Pair(c)[1], d + 157609, d);
    assert Matches(prev, Pair(c)) == [Match(0, d), Match(1, d)];
  }

  lemma {:induction false} NearestOfTwo(prev: seq<TouchPoint>, t: TouchPoint, a: int, b: int)
    requires |prev| == 2 && prev[0].highestVal != 0 && prev[1].highestVal != 0 && a != b && a < FAR && b < FAR
    requires SquaredDistance(t, prev[0]) == a && SquaredDistance(t, prev[1]) == b
    ensures Nearest(prev, t, 2) == if a < b then Match(0, a) else Match(1, b)
  {
    assert Nearest(prev, t, 0) == Match(-1, FAR);
    assert Nearest(prev, t, 1) == Match(0, a);
  }

  // ----- the run -----

  /** The same fingers with their ids, after the frame that first sees them and after the
      frame in which they have moved by three columns. */
  function Landed(): (cur: seq<TouchPoint>) {
    [Tap((UPPER, 38), 25, 634).(trackingId := 0), Tap((LOWER, 38), 25, 237).(trackingId := 1)]
  }

  function Moving(atan2: Atan2, i: nat): (t: TouchPoint)
    requires i < 2
  {
    var row, y := if i == 0 then UPPER else LOWER, if i == 0 then 634 else 237;
    TouchPoint(216, row as real, 35.0, i, i, atan2(79, 0), 6241, 0, 77, y, 104, y, READING, 0, 104, y,
               HOVER_DEBOUNCE_DELAY)
  }

  function BothMoving(atan2: Atan2): (cur: seq<TouchPoint>) { [Moving(atan2, 0), Moving(atan2, 1)] }

  function Swipe(): (events: seq<Event>) { [Scan(FINGER, true, Pair(38)), Scan(FINGER, false, Pair(35))] }

  lemma {:induction false} PairScanned(c: int)
    requires c in {38, 35, 29}
    ensures AllScanned(FINGER, Pair(c))
  {
    Places();
  }

  lemma {:induction false} AssignTwo(s: Settings, atan2: Atan2, prev2: seq<TouchPoint>, prev: seq<TouchPoint>,
                                     cur: seq<TouchPoint>,
                                     c: int, a: (TouchPoint, int), b: (TouchPoint, int))
    requires Linked(prev2, prev) && |cur| == 2 && |prev| <= 2
    requires forall i :: 0 <= i < 2 ==> Claim(Matches(prev, cur), i).loc < |prev|
    requires a == Assigned(s, atan2, prev, prev2, cur[0], Claim(Matches(prev, cur), 0), c)
    requires b == Assigned(s, atan2, prev, prev2, cur[1], Claim(Matches(prev, cur), 1), a.1)
    ensures AssignAll(s, atan2, prev2, prev, cur, c, 2) == ([a.0, b.0], b.1)
  {
    assert AssignAll(s, atan2, prev2, prev, cur, c, 0) == ([], c);
    assert AssignAll(s, atan2, prev2, prev, cur, c, 1) == ([] + [a.0], a.1);
    assert [] + [a.0] + [b.0] == [a.0, b.0];
  }

  /** The first frame of the swipe: two new touches. */
  lemma {:induction false} SwipeLands(atan2: Atan2)
    ensures Frame(FINGER, atan2, Start(), true, Pair(38)).track == Track([], Landed(), 2, 0, 0)
  {
    Places();
    var m := Matches([], Pair(38));
    assert m == [Match(-1, FAR), Match(-1, FAR)] && Winners(m) == [-1, -1];
    AssignTwo(FINGER, atan2, [], [], Pair(38), 0, (Landed()[0], 1), (Landed()[1], 2));
    assert CountedAll(Landed()) == Landed();
  }

  lemma {:induction false} PairMoves(atan2: Atan2, i: nat)
    requires i < 2
    ensures ContinuedTouch(atan2, Pair(35)[i], Landed()[i], [], Match(i, 6241)) == Moving(atan2, i)
  {
    Places();
    assert Trunc(466.0 / 6.0) == 77 && Trunc(3804.0 / 6.0) == 634 && Trunc(1422.0 / 6.0) == 237;
  }

  /** The second frame: both touches are continued and remembered as fast. */
  lemma {:induction false} SwipeMoves(atan2: Atan2)
    ensures Linked<TouchPoint>([], Landed())
    ensures Frame(FINGER, atan2, Track([], Landed(), 2, 0, 0), false, Pair(35)).track.cur == BothMoving(atan2)
  {
    Places();
    PairNearest(Landed(), 35, 25, 6241);
    PairMoves(atan2, 0);
    PairMoves(atan2, 1);
    var m, both := Matches(Landed(), Pair(35)), BothMoving(atan2);
    assert Claim(m, 0) == Match(0, 6241) && Claim(m, 1) == Match(1, 6241);
    AssignTwo(FINGER, atan2, [], Landed(), Pair(35), 2, (both[0], 2), (both[1], 2));
    assert CountedAll(both) == both;
  }

  lemma {:induction false} RunScan(atan2: Atan2, events: seq<Event>, s: Settings, lifted: bool,
                                   scanned: seq<TouchPoint>)
    requires GoodEvents(events)
    requires Sane(s) && AllScanned(s, scanned)
    ensures var more := events + [Scan(s, lifted, scanned)];
            && (forall k :: 0 <= k < |more| ==> GoodEvent(more[k]))
            && Run(atan2, more).track == Frame(s, atan2, Run(atan2, events).track, lifted, scanned).track
  {
    var more := events + [Scan(s, lifted, scanned)];
    assert more[..|more| - 1] == events;
  }

  lemma {:induction false} SwipeRun(atan2: Atan2)
    ensures forall k :: 0 <= k < 2 ==> GoodEvent(Swipe()[k])
    ensures Run(atan2, Swipe()).track.cur == BothMoving(atan2)
  {
    PairScanned(38);
    PairScanned(35);
    SwipeLands(atan2);
    SwipeMoves(atan2);
    RunScan(atan2, [], FINGER, true, Pair(38));
    var first := [] + [Scan(FINGER, true, Pair(38))];
    RunScan(atan2, first, FINGER, false, Pair(35));
    assert first + [Scan(FINGER, false, Pair(35))] == Swipe();
  }

  /** In the third frame, six columns on, both claims are too far away, in a steady direction. */
  lemma {:induction false} SwipeClaims(atan2: Atan2, i: nat)
    requires i < 2 && AbsReal(atan2(184, 0) - atan2(79, 0)) < MAX_DELTA_ANGLE
    ensures var m := Claim(Matches(BothMoving(atan2), Pair(29)), i);
            m.loc < |BothMoving(atan2)| && ClaimWithoutId(atan2, BothMoving(atan2), Pair(29)[i], m)
  {
    Places();
    PairNearest(BothMoving(atan2), 29, 104, 24649);
    assert Claim(Matches(BothMoving(atan2), Pair(29)), i) == Match(i, 24649);
  }

  /** Two fingers that the scan finds in columns 38, 35 and 29 of three frames: in the third,
      both are reported, and both with the id -1. The direction of movement to the right does
      not depend on its speed. */
  lemma {:induction false} SwipeLosesIds(w: int -> real, atan2: Atan2)
    requires Weighs(w) && AbsReal(atan2(184, 0) - atan2(79, 0)) < MAX_DELTA_ANGLE
    ensures forall c :: c in {38, 35, 29} ==> Table.Came(w, Spots(c), FINGER, Pair(c))
    ensures forall k :: 0 <= k < 2 ==> GoodEvent(Swipe()[k])
    ensures var o := Frame(FINGER, atan2, Run(atan2, Swipe()).track, false, Pair(29));
            |o.touches| == 2 && forall i :: 0 <= i < 2 ==> Sent(o.touches[i]) && o.touches[i].trackingId == -1
  {
    forall c | c in {38, 35, 29} ensures Table.Came(w, Spots(c), FINGER, Pair(c)) { PairCame(w, c); }
    SwipeRun(atan2);
    PairScanned(29);
    forall i | 0 <= i < 2
      ensures var t := Frame(FINGER, atan2, Run(atan2, Swipe()).track, false, Pair(29)).touches[i];
              Sent(t) && t.trackingId == -1
    {
      UnnumberedInRun(atan2, Swipe(), FINGER, false, Pair(29), i);
      TouchOfGiven(FINGER, atan2, Run(atan2, Swipe()), false, Pair(29), i);
      SwipeClaims(atan2, i);
    }
  }
}

/**
 The first half of calc_point (touchscreen_drv/ts_srv.c): the scan of the digitizer matrix
 writes one entry per touch into the current row of the table of touches.
 */
module TouchTable {
  import opened TouchFill
  import opened TouchTracking
  import Scanning = TouchScan

  const PIXELS_PER_POINT := 25
  const CELLS := Scanning.CELLS

  // ----- from a filled area to a touch -----

  datatype Stats = Stats(isum: real, jsum: real, tweight: int, mini: int, maxi: int, minj: int, maxj: int, highest: int)

  /** The stats describe the touch that starts at the seed. */
  ghost predicate StatsOf(g: Grid, w: int -> real, seed: Cell, st: Stats)
    requires IsGrid(g)
  {
    var m := Touch(g, seed);
    && st.tweight as real == Sum(g, w, Weight, m)
    && st.isum == Sum(g, w, RowMoment, m) && st.jsum == Sum(g, w, ColumnMoment, m)
    && IsHighest(g, seed, m, st.highest)
    && IsBox(g, seed, m, st.mini, st.maxi, st.minj, st.maxj)
  }

  /** Weights grow from 1 on; the source raises the reading to the power 1.5. */
  ghost predicate GoodWeight(w: int -> real) {
    forall v :: v >= 1 ==> w(v) >= 1.0
  }

  function AtLeastZero(v: int): int { if v < 0 then 0 else v }

  function PlaceX(j: real): int { AtLeastZero(Trunc((X_RESOLUTION - 1) as real - j * 1024.0 / 39.0)) }
  function PlaceY(i: real): int { AtLeastZero(Trunc((Y_RESOLUTION - 1) as real - i * 768.0 / 29.0)) }

  /** The entry written for a filled area; direction and distance keep their old values. */
  function Placed(was: TouchPoint, st: Stats): (t: TouchPoint)
    requires st.tweight != 0
  {
    var i, j := st.isum / st.tweight as real, st.jsum / st.tweight as real;
    var x, y := PlaceX(j), PlaceY(i);
    TouchPoint(st.tweight, i, j, -1, -1, was.direction, was.distance,
               Max(st.maxi - st.mini, st.maxj - st.minj) * PIXELS_PER_POINT,
               x, y, x, y, st.highest, 0, x, y, HOVER_DEBOUNCE_DELAY)
  }

  lemma {:induction false} TouchReadings(g: Grid, seed: Cell, c: Cell)
    requires IsGrid(g) && InGrid(seed) && c in Touch(g, seed) && At(g, seed) >= 1
    ensures At(g, c) >= 1
  {
    var p :| PathTo(g, seed, p, c);
    if |p| > 1 { assert EdgeAt(g, seed, p, |p| - 2); }
  }

  lemma {:induction false} TermPositive(g: Grid, w: int -> real, kind: Measure, c: Cell)
    requires IsGrid(g) && GoodWeight(w) && InGrid(c) && At(g, c) >= 1
    ensures Term(g, w, kind, c) >= if kind == Weight then 1.0 else 0.0
  {
  }

  /** Sums over readings are not negative, and a touch has weight. */
  lemma {:induction false} TotalPositive(g: Grid, w: int -> real, kind: Measure, m: set<Cell>, seed: Cell, k: nat)
    requires IsGrid(g) && GoodWeight(w) && k <= CELLS
    requires forall c :: c in m && InGrid(c) ==> At(g, c) >= 1
    requires InGrid(seed) && seed in m
    ensures Total(g, w, kind, m, k) >= if kind == Weight && Index(seed) < k then 1.0 else 0.0
  {
    if k > 0 {
      TotalPositive(g, w, kind, m, seed, k - 1);
      if CellAt(k - 1) in m { TermPositive(g, w, kind, CellAt(k - 1)); }
      assert Index(seed) == k - 1 ==> CellAt(k - 1) == seed;
    }
  }

  lemma {:induction false} StatsPositive(g: Grid, w: int -> real, seed: Cell, st: Stats)
    requires IsGrid(g) && GoodWeight(w) && InGrid(seed) && At(g, seed) >= 1 && StatsOf(g, w, seed, st)
    ensures st.tweight >= 1 && st.isum >= 0.0 && st.jsum >= 0.0 && st.highest >= At(g, seed)
  {
    var m := Touch(g, seed);
    ReachSelf(g, seed);
    forall c | c in m ensures At(g, c) >= 1 { TouchReadings(g, seed, c); }
    TotalPositive(g, w, Weight, m, seed, CELLS);
    TotalPositive(g, w, RowMoment, m, seed, CELLS);
    TotalPositive(g, w, ColumnMoment, m, seed, CELLS);
    assert Core(g, seed, seed);
  }

  lemma {:induction false} PlaceOnScreen(v: real)
    requires v >= 0.0
    ensures 0 <= PlaceX(v) < X_RESOLUTION && 0 <= PlaceY(v) < Y_RESOLUTION
  {
    assert v * 1024.0 / 39.0 >= 0.0;
    assert v * 768.0 / 29.0 >= 0.0;
  }

  lemma {:induction false} QuotientNonNegative(a: real, n: int)
    requires a >= 0.0 && n >= 1
    ensures a / n as real >= 0.0
  {
  }

  /** Every scanned touch enters the second half of calc_point in good order. */
  lemma {:induction false} PlacedScanned(s: Settings, g: Grid, w: int -> real, seed: Cell, st: Stats, was: TouchPoint)
    requires IsGrid(g) && GoodWeight(w) && InGrid(seed) && Sane(s) && At(g, seed) > s.continued
    requires StatsOf(g, w, seed, st)
    ensures st.tweight != 0 && Scanned(s, Placed(was, st))
  {
    StatsPositive(g, w, seed, st);
    QuotientNonNegative(st.isum, st.tweight);
    QuotientNonNegative(st.jsum, st.tweight);
    PlaceOnScreen(st.isum / st.tweight as real);
    PlaceOnScreen(st.jsum / st.tweight as real);
  }

  // ----- the scan -----

  ghost predicate Marks(invalid: array2<int>, g: Grid, seeds: seq<Cell>)
    reads invalid
    requires IsGrid(g)
  {
    && invalid.Length0 == X_AXIS_POINTS && invalid.Length1 == Y_AXIS_POINTS
    && forall i, j :: 0 <= i < X_AXIS_POINTS && 0 <= j < Y_AXIS_POINTS ==>
         invalid[i, j] == Scanning.Owner(g, seeds, (i, j))
  }

  ghost function Owners(g: Grid, seeds: seq<Cell>): (o: Grid)
    requires IsGrid(g)
    ensures IsGrid(o)
    ensures forall i, j :: 0 <= i < X_AXIS_POINTS && 0 <= j < Y_AXIS_POINTS ==>
              o[i][j] == Scanning.Owner(g, seeds, (i, j))
  {
    seq(X_AXIS_POINTS, i => seq(Y_AXIS_POINTS, j => Scanning.Owner(g, seeds, (i, j))))
  }

  /** Marking one more touch on top of the earlier ones. */
  lemma {:induction false} PaintedMarks(invalid: array2<int>, g: Grid, seeds: seq<Cell>, seed: Cell)
    requires IsGrid(g) && Painted(invalid, Owners(g, seeds), Touch(g, seed), |seeds| + 1)
    ensures Marks(invalid, g, seeds + [seed])
  {
    forall i, j | 0 <= i < X_AXIS_POINTS && 0 <= j < Y_AXIS_POINTS
      ensures invalid[i, j] == Scanning.Owner(g, seeds + [seed], (i, j))
    {
      Scanning.OwnerSnoc(g, seeds, seed, (i, j));
    }
  }

  /** Fills one touch and reads off its stats. */
  method FillTouch(matrix: array2<int>, invalid: array2<int>, i: int, j: int, w: int -> real, id: int,
                   ghost g: Grid, ghost seeds: seq<Cell>)
    returns (st: Stats)
    requires matrix != invalid && Holds(matrix, g) && Marks(invalid, g, seeds)
    requires InGrid((i, j)) && id == |seeds| + 1
    modifies invalid
    ensures Marks(invalid, g, seeds + [(i, j)])
    ensures StatsOf(g, w, (i, j), st)
  {
    var area := FillArea(matrix, invalid, i, j, id, w, g, Owners(g, seeds));
    PaintedMarks(invalid, g, seeds, (i, j));
    st := Stats(area.isum, area.jsum, area.tweight, area.mini, area.maxi, area.minj, area.maxj, area.highest);
  }

  // ----- the table of touches -----

  type Table = seq<seq<TouchPoint>>

  ghost predicate IsTable(table: Table) {
    |table| == 3 && forall r :: 0 <= r < 3 ==> |table[r]| == MAX_TOUCH
  }

  ghost predicate Same<T>(a: T, b: T) { a == b }

  ghost predicate TableIs(tp: array2<TouchPoint>, table: Table)
    reads tp
  {
    && tp.Length0 == 3 && tp.Length1 == MAX_TOUCH && IsTable(table)
    && forall r, t :: 0 <= r < 3 && 0 <= t < MAX_TOUCH ==> Same(tp[r, t], table[r][t])
  }

  /** The row with its first entries replaced. */
  ghost function Over(row: seq<TouchPoint>, s: seq<TouchPoint>): (r: seq<TouchPoint>)
    requires |s| <= |row|
    ensures |r| == |row|
  {
    s + row[|s|..]
  }

  /** The scanned touches are the placed stats of the scan's seeds, in order. */
  ghost predicate ScanResult(g: Grid, w: int -> real, seeds: seq<Cell>, stats: seq<Stats>, was: seq<TouchPoint>,
                             scanned: seq<TouchPoint>)
    requires IsGrid(g)
  {
    && |scanned| == |stats| == |seeds| <= |was| == MAX_TOUCH
    && forall t {:trigger EntryAt(g, w, seeds, stats, was, scanned, t)} ::
        0 <= t < |seeds| ==> EntryAt(g, w, seeds, stats, was, scanned, t)
  }

  ghost predicate EntryAt(g: Grid, w: int -> real, seeds: seq<Cell>, stats: seq<Stats>, was: seq<TouchPoint>,
                          scanned: seq<TouchPoint>, t: nat)
    requires IsGrid(g) && t < |seeds| && t < |stats| && t < |was| && t < |scanned|
  {
    StatsOf(g, w, seeds[t], stats[t]) && stats[t].tweight != 0 && scanned[t] == Placed(was[t], stats[t])
  }

  /** The touches of a frame are what the scan of its matrix finds. */
  ghost predicate Came(w: int -> real, g: Grid, s: Settings, scanned: seq<TouchPoint>) {
    && IsGrid(g)
    && exists stats, was :: ScanResult(g, w, Scanning.Seeds(g, s.continued, CELLS), stats, was, scanned)
  }

  lemma {:induction false} ScanResultGood(s: Settings, g: Grid, w: int -> real, k: nat, stats: seq<Stats>,
                                          was: seq<TouchPoint>, scanned: seq<TouchPoint>)
    requires IsGrid(g) && GoodWeight(w) && Sane(s) && k <= CELLS
    requires ScanResult(g, w, Scanning.Seeds(g, s.continued, k), stats, was, scanned)
    ensures AllScanned(s, scanned)
  {
    var seeds := Scanning.Seeds(g, s.continued, k);
    forall t | 0 <= t < |seeds| ensures Scanned(s, scanned[t]) {
      assert EntryAt(g, w, seeds, stats, was, scanned, t);
      PlacedScanned(s, g, w, seeds[t], stats[t], was[t]);
    }
  }

  lemma {:induction false} ScanResultSnoc(g: Grid, w: int -> real, seeds: seq<Cell>, stats: seq<Stats>,
                                          was: seq<TouchPoint>, scanned: seq<TouchPoint>,
                                          seed: Cell, st: Stats, t: TouchPoint)
    requires IsGrid(g) && ScanResult(g, w, seeds, stats, was, scanned) && |seeds| < |was|
    requires StatsOf(g, w, seed, st) && st.tweight != 0 && t == Placed(was[|seeds|], st)
    ensures ScanResult(g, w, seeds + [seed], stats + [st], was, scanned + [t])
  {
    forall k | 0 <= k < |seeds| + 1 ensures EntryAt(g, w, seeds + [seed], stats + [st], was, scanned + [t], k) {
      if k < |seeds| { assert EntryAt(g, w, seeds, stats, was, scanned, k); }
    }
  }

  /** The table while the scan writes row `row`. */
  ghost predicate ScanTable(tp: array2<TouchPoint>, table: Table, row: nat, scanned: seq<TouchPoint>)
    reads tp
  {
    IsTable(table) && row < 3 && |scanned| <= MAX_TOUCH && TableIs(tp, table[row := Over(table[row], scanned)])
  }

  ghost predicate ScanState(invalid: array2<int>, tp: array2<TouchPoint>, table: Table, row: nat, g: Grid,
                            w: int -> real,
                            seeds: seq<Cell>, stats: seq<Stats>, scanned: seq<TouchPoint>)
    reads invalid, tp
    requires IsGrid(g)
  {
    Marks(invalid, g, seeds) && ScanTable(tp, table, row, scanned)
        && ScanResult(g, w, seeds, stats, table[row], scanned)
  }

  /** The state of the scan before cell number k. */
  ghost predicate ScanAt(invalid: array2<int>, tp: array2<TouchPoint>, tpc: nat, table: Table, row: nat, g: Grid,
                         w: int -> real, thresh: int, k: nat,
                         seeds: seq<Cell>, stats: seq<Stats>, scanned: seq<TouchPoint>)
    reads invalid, tp
    requires IsGrid(g) && k <= CELLS
  {
    && tpc == |seeds| && seeds == Scanning.Seeds(g, thresh, k)
    && ScanState(invalid, tp, table, row, g, w, seeds, stats, scanned)
  }

  /** Stores into entry i of the row being written. */
  method SetTouch(tp: array2<TouchPoint>, row: nat, i: nat, t: TouchPoint, ghost table: Table,
                  ghost cur: seq<TouchPoint>)
    requires i < |cur| && ScanTable(tp, table, row, cur)
    modifies tp
    ensures ScanTable(tp, table, row, cur[i := t])
  {
    tp[row, i] := t;
  }

  method AddTouch(tp: array2<TouchPoint>, row: nat, tpc: nat, st: Stats, ghost table: Table,
                  ghost scanned: seq<TouchPoint>)
    requires tpc == |scanned| < MAX_TOUCH && st.tweight != 0 && ScanTable(tp, table, row, scanned)
    modifies tp
    ensures ScanTable(tp, table, row, scanned + [Placed(table[row][tpc], st)])
  {
    tp[row, tpc] := Placed(tp[row, tpc], st);
  }

  /** The scan at one cell. */
  method ScanCell(matrix: array2<int>, invalid: array2<int>, tp: array2<TouchPoint>, row: nat, i: int, j: int,
                  tpc: nat, thresh: int, w: int -> real,
                  ghost table: Table, ghost g: Grid, ghost seeds: seq<Cell>, ghost stats: seq<Stats>,
                      ghost scanned: seq<TouchPoint>)
    returns (tpc': nat, ghost stats': seq<Stats>, ghost scanned': seq<TouchPoint>)
    requires matrix != invalid && Holds(matrix, g) && GoodWeight(w) && InGrid((i, j)) && thresh >= 0
    requires tpc == |seeds| && ScanState(invalid, tp, table, row, g, w, seeds, stats, scanned)
    modifies invalid, tp
    ensures tpc' == |Scanning.WithSeed(g, thresh, seeds, (i, j))|
    ensures ScanState(invalid, tp, table, row, g, w, Scanning.WithSeed(g, thresh, seeds, (i, j)), stats', scanned')
  {
    tpc', stats', scanned' := tpc, stats, scanned;
    if tpc < MAX_TOUCH && matrix[i, j] > thresh && invalid[i, j] == 0 {
      var st := FillTouch(matrix, invalid, i, j, w, tpc + 1, g, seeds);
      StatsPositive(g, w, (i, j), st);
      AddTouch(tp, row, tpc, st, table, scanned);
      tpc' := tpc + 1;
      ghost var t := Placed(table[row][tpc], st);
      ScanResultSnoc(g, w, seeds, stats, table[row], scanned, (i, j), st, t);
      stats', scanned' := stats + [st], scanned + [t];
    }
  }

  lemma {:induction false} NextSeeds(g: Grid, thresh: int, i: nat, j: nat, k: nat)
    requires IsGrid(g) && InGrid((i, j)) && k == i * Y_AXIS_POINTS + j
    ensures k + 1 <= CELLS
    ensures Scanning.Seeds(g, thresh, k + 1) == Scanning.WithSeed(g, thresh, Scanning.Seeds(g, thresh, k), (i, j))
  {
    assert CellAt(k) == (i, j);
  }

  method ScanNext(matrix: array2<int>, invalid: array2<int>, tp: array2<TouchPoint>, row: nat, i: int, j: int,
                  tpc: nat, thresh: int, w: int -> real,
                  ghost table: Table, ghost g: Grid, ghost k: nat, ghost next: nat, ghost seeds: seq<Cell>,
                      ghost stats: seq<Stats>, ghost scanned: seq<TouchPoint>)
    returns (tpc': nat, ghost seeds': seq<Cell>, ghost stats': seq<Stats>, ghost scanned': seq<TouchPoint>)
    requires matrix != invalid && Holds(matrix, g) && GoodWeight(w) && InGrid((i, j)) && thresh >= 0
    requires k == i * Y_AXIS_POINTS + j < CELLS && next == k + 1
             && ScanAt(invalid, tp, tpc, table, row, g, w, thresh, k, seeds, stats, scanned)
    modifies invalid, tp
    ensures ScanAt(invalid, tp, tpc', table, row, g, w, thresh, next, seeds', stats', scanned')
  {
    NextSeeds(g, thresh, i, j, k);
    tpc', stats', scanned' := ScanCell(matrix, invalid, tp, row, i, j, tpc, thresh, w, table, g, seeds, stats, scanned);
    seeds' := Scanning.Seeds(g, thresh, next);
  }

  method ScanRow(matrix: array2<int>, invalid: array2<int>, tp: array2<TouchPoint>, row: nat, i: nat, tpc: nat,
                 thresh: int, w: int -> real,
                 ghost table: Table, ghost g: Grid, ghost k0: nat, ghost k1: nat, ghost seeds: seq<Cell>,
                     ghost stats: seq<Stats>, ghost scanned: seq<TouchPoint>)
    returns (tpc': nat, ghost seeds': seq<Cell>, ghost stats': seq<Stats>, ghost scanned': seq<TouchPoint>)
    requires matrix != invalid && Holds(matrix, g) && GoodWeight(w) && thresh >= 0 && i < X_AXIS_POINTS
    requires k0 == i * Y_AXIS_POINTS && k1 == k0 + Y_AXIS_POINTS
    requires ScanAt(invalid, tp, tpc, table, row, g, w, thresh, k0, seeds, stats, scanned)
    modifies invalid, tp
    ensures ScanAt(invalid, tp, tpc', table, row, g, w, thresh, k1, seeds', stats', scanned')
  {
    tpc', seeds', stats', scanned' := tpc, seeds, stats, scanned;
    ghost var k := k0;
    for j := 0 to Y_AXIS_POINTS
      invariant k == k0 + j
      invariant ScanAt(invalid, tp, tpc', table, row, g, w, thresh, k, seeds', stats', scanned')
    {
      ghost var next := k + 1;
      tpc', seeds', stats', scanned' := ScanNext(matrix, invalid, tp, row, i, j, tpc', thresh, w, table, g, k, next,
                                                 seeds', stats', scanned');
      k := next;
    }
  }

  lemma {:induction false} OverNothing(table: Table, row: nat)
    requires IsTable(table) && row < 3
    ensures table[row := Over(table[row], [])] == table
  {
    assert Over(table[row], []) == table[row];
  }

  method ClearMarks(invalid: array2<int>, ghost g: Grid)
    requires IsGrid(g) && invalid.Length0 == X_AXIS_POINTS && invalid.Length1 == Y_AXIS_POINTS
    modifies invalid
    ensures Marks(invalid, g, [])
  {
    for i := 0 to X_AXIS_POINTS
      invariant forall r, c :: 0 <= r < i && 0 <= c < Y_AXIS_POINTS ==> invalid[r, c] == 0
    {
      for j := 0 to Y_AXIS_POINTS
        invariant forall r, c :: 0 <= r < i && 0 <= c < Y_AXIS_POINTS ==> invalid[r, c] == 0
        invariant forall c :: 0 <= c < j ==> invalid[i, c] == 0
      {
        invalid[i, j] := 0;
      }
    }
  }

  method BeginScan(invalid: array2<int>, tp: array2<TouchPoint>, row: nat, ghost thresh: int, ghost w: int -> real,
                   ghost table: Table, ghost g: Grid)
    requires IsGrid(g) && invalid.Length0 == X_AXIS_POINTS && invalid.Length1 == Y_AXIS_POINTS
    requires TableIs(tp, table) && row < 3
    modifies invalid
    ensures ScanAt(invalid, tp, 0, table, row, g, w, thresh, 0, [], [], [])
  {
    ClearMarks(invalid, g);
    OverNothing(table, row);
  }

  /** The whole scan, row by row over the matrix. */
  method ScanTouches(matrix: array2<int>, invalid: array2<int>, tp: array2<TouchPoint>, row: nat, thresh: int,
                     w: int -> real,
                     ghost table: Table, ghost g: Grid)
    returns (tpc: nat, ghost seeds: seq<Cell>, ghost stats: seq<Stats>, ghost scanned: seq<TouchPoint>)
    requires matrix != invalid && Holds(matrix, g) && GoodWeight(w) && thresh >= 0
    requires invalid.Length0 == X_AXIS_POINTS && invalid.Length1 == Y_AXIS_POINTS
    requires TableIs(tp, table) && row < 3
    modifies invalid, tp
    ensures ScanAt(invalid, tp, tpc, table, row, g, w, thresh, CELLS, seeds, stats, scanned)
  {
    tpc, seeds, stats, scanned := 0, [], [], [];
    BeginScan(invalid, tp, row, thresh, w, table, g);
    ghost var k := 0;
    for i := 0 to X_AXIS_POINTS
      invariant k == i * Y_AXIS_POINTS
      invariant ScanAt(invalid, tp, tpc, table, row, g, w, thresh, k, seeds, stats, scanned)
    {
      ghost var next := k + Y_AXIS_POINTS;
      tpc, seeds, stats, scanned := ScanRow(matrix, invalid, tp, row, i, tpc, thresh, w, table, g, k, next, seeds,
                                            stats, scanned);
      k := next;
    }
  }
}

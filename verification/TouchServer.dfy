/**
 The touchscreen server (touchscreen_drv/ts_srv.c): its global state, calc_point on the
 three rotating rows of touches, clear_arrays and mode changes. The methods are tied to the
 functions of TouchScan and TouchTracking, and a row frame's effect to that of TouchFraming.
 */
module TouchServer {
  import opened TouchFill
  import opened TouchTracking
  import opened TouchTable
  import TouchLiftoff
  import Scanning = TouchScan
  import Framing = TouchFraming

  // ----- matching, on the table -----

  /** The row being written holds cur; the rows of the two frames before start with their
      live touches. */
  ghost predicate Rows(tp: array2<TouchPoint>, table: Table, row: nat, prow: nat, p2row: nat,
                       cur: seq<TouchPoint>, prev: seq<TouchPoint>, prev2: seq<TouchPoint>)
    reads tp
  {
    && ScanTable(tp, table, row, cur) && prow < 3 && p2row < 3
    && prev <= table[prow] && prev2 <= table[p2row]
    && (prev != [] ==> prow != row) && (prev2 != [] ==> p2row != row)
  }

  /** For each touch the closest live touch of the previous frame. */
  method FindNearest(tp: array2<TouchPoint>, row: nat, prow: nat, tpc: nat, previoustpc: nat, distance: array<int>,
                     loc: array<int>,
                     ghost table: Table, ghost p2row: nat, ghost cur: seq<TouchPoint>, ghost prev: seq<TouchPoint>,
                         ghost prev2: seq<TouchPoint>)
    requires distance != loc && distance.Length == loc.Length == MAX_TOUCH
    requires Rows(tp, table, row, prow, p2row, cur, prev, prev2) && tpc == |cur| && previoustpc == |prev|
    modifies distance, loc
    ensures forall i :: 0 <= i < tpc ==> Match(loc[i], distance[i]) == Matches(prev, cur)[i]
  {
    for i := 0 to tpc
      invariant forall k :: 0 <= k < i ==> Match(loc[k], distance[k]) == Nearest(prev, cur[k], |prev|)
    {
      distance[i] := FAR;
      loc[i] := -1;
      for j := 0 to previoustpc
        invariant forall k :: 0 <= k < i ==> Match(loc[k], distance[k]) == Nearest(prev, cur[k], |prev|)
        invariant Match(loc[i], distance[i]) == Nearest(prev, cur[i], j)
      {
        if tp[prow, j].highestVal != 0 {
          var deltax := tp[row, i].unfilteredX - tp[prow, j].unfilteredX;
          var deltay := tp[row, i].unfilteredY - tp[prow, j].unfilteredY;
          var d := deltax * deltax + deltay * deltay;
          if d < distance[i] {
            distance[i] := d;
            loc[i] := j;
          }
        }
      }
    }
  }

  /** Every claim in l is kept, or has been dropped because a rival has the better claim. */
  ghost predicate Pruned(m: seq<Match>, l: seq<int>) {
    |l| == |m| && forall k :: 0 <= k < |m| ==> l[k] == m[k].loc || (l[k] == -1 && m[k].loc >= 0 && Loses(m, k))
  }

  /** The claims of the touches before i, and of i against those before j, are settled. */
  ghost predicate Settled(l: seq<int>, i: nat, j: nat) {
    forall a, b :: 0 <= a < b < |l| && (a < i || (a == i && b < j)) && l[a] > -1 ==> l[a] != l[b]
  }

  /** One comparison of the removal pass. */
  function Prune(m: seq<Match>, l: seq<int>, i: nat, j: nat): (r: seq<int>)
    requires i < j < |l| == |m|
  {
    if l[i] > -1 && l[i] == l[j] then
      if m[i].distance < m[j].distance then l[j := -1] else l[i := -1]
    else l
  }

  lemma {:induction false} PruneStep(m: seq<Match>, l: seq<int>, i: nat, j: nat)
    requires i < j < |l| == |m| && Pruned(m, l) && Settled(l, i, j)
    ensures Pruned(m, Prune(m, l, i, j)) && Settled(Prune(m, l, i, j), i, j + 1)
  {
    if l[i] > -1 && l[i] == l[j] {
      assert m[i].loc == m[j].loc;
      if m[i].distance < m[j].distance { assert Beats(m, i, j); } else { assert Beats(m, j, i); }
    }
  }

  lemma {:induction false} PrunedIsWinners(m: seq<Match>, l: seq<int>)
    requires Pruned(m, l) && Settled(l, |l|, 0) && forall k :: 0 <= k < |m| ==> m[k].loc >= -1
    ensures l == Winners(m)
  {
    forall k | 0 <= k < |m| ensures l[k] == Winners(m)[k] {
      if m[k].loc > -1 && Loses(m, k) {
        var b := BestClaimant(m, m[k].loc, |m|);
        BestSurvives(m, l, b, k);
      }
    }
  }

  lemma {:induction false} BestSurvives(m: seq<Match>, l: seq<int>, b: nat, k: nat)
    requires Pruned(m, l) && Settled(l, |l|, 0)
    requires b < |m| && k < |m| && m[b].loc == m[k].loc >= 0 && Loses(m, k)
    requires forall j :: 0 <= j < |m| && j != b && m[j].loc == m[k].loc ==> Beats(m, b, j)
    ensures l[k] == -1
  {
    assert !Loses(m, b);
    assert b != k && l[b] == m[b].loc;
  }

  /** Drops every claim that a rival beats. */
  method RemoveRivals(distance: array<int>, loc: array<int>, tpc: nat, ghost m: seq<Match>)
    requires distance != loc && tpc == |m| <= distance.Length == loc.Length
    requires forall k :: 0 <= k < tpc ==> Match(loc[k], distance[k]) == m[k] && m[k].loc >= -1
    modifies loc
    ensures loc[..tpc] == Winners(m)
  {
    ghost var l := loc[..tpc];
    for i := 0 to tpc
      invariant loc[..tpc] == l && Pruned(m, l) && Settled(l, i, 0)
    {
      for j := i + 1 to tpc
        invariant loc[..tpc] == l && Pruned(m, l) && Settled(l, i, j)
      {
        PruneStep(m, l, i, j);
        l := Prune(m, l, i, j);
        if loc[i] > -1 && loc[i] == loc[j] {
          if distance[i] < distance[j] {
            loc[j] := -1;
          } else {
            loc[i] := -1;
          }
        }
      }
    }
    PrunedIsWinners(m, l);
  }

  // ----- one touch, on the table -----

  method ProcessNewTPoint(tp: array2<TouchPoint>, row: nat, i: nat, s: Settings, counter: int, ghost table: Table,
                          ghost cur: seq<TouchPoint>)
    returns (counter': int)
    requires i < |cur| && ScanTable(tp, table, row, cur)
    modifies tp
    ensures ScanTable(tp, table, row, cur[i := NewTouch(s, cur[i], counter).0])
            && counter' == NewTouch(s, cur[i], counter).1
  {
    counter' := counter;
    if tp[row, i].highestVal > s.delayed {
      SetTouch(tp, row, i, tp[row, i].(trackingId := counter), table, cur);
      ghost var cur1 := cur[i := cur[i].(trackingId := counter)];
      counter' := counter + 1;
      if tp[row, i].highestVal <= s.initial {
        SetTouch(tp, row, i, tp[row, i].(touchDelay := s.delayCount), table, cur1);
      }
    } else {
      SetTouch(tp, row, i, tp[row, i].(highestVal := 0), table, cur);
    }
  }

  /** avg_filter, in place. */
  method AvgFilterAt(tp: array2<TouchPoint>, row: nat, prow: nat, p2row: nat, i: nat,
                     ghost table: Table, ghost cur: seq<TouchPoint>, ghost prev: seq<TouchPoint>,
                         ghost prev2: seq<TouchPoint>)
    requires Rows(tp, table, row, prow, p2row, cur, prev, prev2) && Linked(prev2, prev)
    requires i < |cur| && 0 <= cur[i].prevLoc < |prev|
    modifies tp
    ensures Rows(tp, table, row, prow, p2row, cur[i := AvgFilter(cur[i], prev[cur[i].prevLoc], prev2)], prev, prev2)
  {
    var t := tp[row, i];
    assert LinkOk(prev[t.prevLoc], |prev2|);
    var totalDiv := 6.0;
    var xsum := 4 * t.unfilteredX + 2 * tp[prow, t.prevLoc].unfilteredX;
    var ysum := 4 * t.unfilteredY + 2 * tp[prow, t.prevLoc].unfilteredY;
    if tp[prow, t.prevLoc].prevLoc > -1 {
      xsum := xsum + tp[p2row, tp[prow, t.prevLoc].prevLoc].unfilteredX;
      ysum := ysum + tp[p2row, tp[prow, t.prevLoc].prevLoc].unfilteredY;
      totalDiv := totalDiv + 1.0;
    }
    t := t.(x := Trunc(xsum as real / totalDiv), y := Trunc(ysum as real / totalDiv));
    assert t == AvgFilter(cur[i], prev[cur[i].prevLoc], prev2);
    SetTouch(tp, row, i, t, table, cur);
  }

  /** hover_debounce, in place. */
  method HoverDebounceAt(tp: array2<TouchPoint>, row: nat, prow: nat, i: nat, ghost p2row: nat,
                         ghost table: Table, ghost cur: seq<TouchPoint>, ghost prev: seq<TouchPoint>,
                             ghost prev2: seq<TouchPoint>)
    requires Rows(tp, table, row, prow, p2row, cur, prev, prev2)
    requires i < |cur| && 0 <= cur[i].prevLoc < |prev|
    modifies tp
    ensures Rows(tp, table, row, prow, p2row, cur[i := HoverDebounce(cur[i], prev[cur[i].prevLoc])], prev, prev2)
  {
    var t, p := tp[row, i], tp[prow, tp[row, i].prevLoc];
    t := t.(hoverDelay := p.hoverDelay);
    if Abs(t.x - p.hoverX) < HOVER_DEBOUNCE_RADIUS && Abs(t.y - p.hoverY) < HOVER_DEBOUNCE_RADIUS {
      if t.hoverDelay == 0 {
        t := t.(x := p.hoverX, y := p.hoverY);
      } else {
        t := t.(hoverDelay := t.hoverDelay - 1);
      }
      if p.hoverDelay != 1 {
        t := t.(hoverX := p.hoverX, hoverY := p.hoverY);
      }
    } else {
      t := t.(hoverDelay := HOVER_DEBOUNCE_DELAY);
    }
    SetTouch(tp, row, i, t, table, cur);
  }

  /** Touch i continues the previous touch loc. */
  method ContinueTouch(tp: array2<TouchPoint>, row: nat, prow: nat, p2row: nat, i: nat, loc: int, distance: int,
                       atan2: Atan2,
                       ghost table: Table, ghost cur: seq<TouchPoint>, ghost prev: seq<TouchPoint>,
                           ghost prev2: seq<TouchPoint>)
    requires Rows(tp, table, row, prow, p2row, cur, prev, prev2) && Linked(prev2, prev)
    requires i < |cur| && 0 <= loc < |prev|
    modifies tp
    ensures Rows(tp, table, row, prow, p2row,
                 cur[i := ContinuedTouch(atan2, cur[i], prev[loc], prev2, Match(loc, distance))], prev, prev2)
  {
    var t, p := tp[row, i], tp[prow, loc];
    t := t.(trackingId := p.trackingId, prevLoc := loc, touchDelay := p.touchDelay,
            distance := distance, direction := atan2(t.x - p.x, t.y - p.y));
    SetTouch(tp, row, i, t, table, cur);
    AvgFilterAt(tp, row, prow, p2row, i, table, cur[i := t], prev, prev2);
    ghost var u := AvgFilter(t, prev[loc], prev2);
    assert cur[i := t][i := u] == cur[i := u];
    HoverDebounceAt(tp, row, prow, i, p2row, table, cur[i := u], prev, prev2);
    assert cur[i := u][i := HoverDebounce(u, prev[loc])] == cur[i := HoverDebounce(u, prev[loc])];
  }

  /** Touch i is too far from the previous touch loc. */
  method JumpTouch(tp: array2<TouchPoint>, row: nat, prow: nat, i: nat, loc: int, s: Settings, atan2: Atan2,
                   counter: int, ghost p2row: nat,
                   ghost table: Table, ghost cur: seq<TouchPoint>, ghost prev: seq<TouchPoint>,
                       ghost prev2: seq<TouchPoint>)
    returns (counter': int)
    requires Rows(tp, table, row, prow, p2row, cur, prev, prev2)
    requires i < |cur| && 0 <= loc < |prev|
    modifies tp
    ensures Rows(tp, table, row, prow, p2row, cur[i := JumpedTouch(s, atan2, cur[i], prev[loc], counter).0], prev,
                 prev2)
    ensures counter' == JumpedTouch(s, atan2, cur[i], prev[loc], counter).1
  {
    counter' := counter;
    var needLift := true;
    ghost var t := cur[i];
    if tp[prow, loc].distance > MIN_PREV_DELTA_SQ {
      var direction := atan2(tp[row, i].x - tp[prow, loc].x, tp[row, i].y - tp[prow, loc].y);
      SetTouch(tp, row, i, tp[row, i].(direction := direction), table, cur);
      t := t.(direction := direction);
      if AbsReal(direction - tp[prow, loc].direction) < MAX_DELTA_ANGLE { needLift := false; }
    }
    assert cur[i := cur[i]] == cur;
    if needLift {
      counter' := ProcessNewTPoint(tp, row, i, s, counter, table, cur[i := t]);
      assert cur[i := t][i := NewTouch(s, t, counter).0] == cur[i := NewTouch(s, t, counter).0];
    }
  }

  /** The branches of the id assignment for touch i. */
  method AssignTouch(tp: array2<TouchPoint>, row: nat, prow: nat, p2row: nat, i: nat, loc: int, distance: int,
                     s: Settings, atan2: Atan2, counter: int,
                     ghost table: Table, ghost cur: seq<TouchPoint>, ghost prev: seq<TouchPoint>,
                         ghost prev2: seq<TouchPoint>)
    returns (counter': int)
    requires Rows(tp, table, row, prow, p2row, cur, prev, prev2) && Linked(prev2, prev)
    requires i < |cur| && loc < |prev|
    modifies tp
    ensures Rows(tp, table, row, prow, p2row,
                 cur[i := Assigned(s, atan2, prev, prev2, cur[i], Match(loc, distance), counter).0], prev, prev2)
    ensures counter' == Assigned(s, atan2, prev, prev2, cur[i], Match(loc, distance), counter).1
  {
    counter' := counter;
    if loc > -1 {
      if distance > MAX_DELTA_SQ {
        counter' := JumpTouch(tp, row, prow, i, loc, s, atan2, counter, p2row, table, cur, prev, prev2);
      } else {
        ContinueTouch(tp, row, prow, p2row, i, loc, distance, atan2, table, cur, prev, prev2);
      }
    } else {
      counter' := ProcessNewTPoint(tp, row, i, s, counter, table, cur);
    }
  }

  /** The touches after the first n were assigned. */
  ghost function Partly(s: Settings, atan2: Atan2, prev2: seq<TouchPoint>, prev: seq<TouchPoint>,
                        cur: seq<TouchPoint>, counter: int, n: nat): (r: seq<TouchPoint>)
    requires Linked(prev2, prev) && n <= |cur|
    ensures |r| == |cur|
  {
    AssignAll(s, atan2, prev2, prev, cur, counter, n).0 + cur[n..]
  }

  lemma {:induction false} PartlyStep(s: Settings, atan2: Atan2, prev2: seq<TouchPoint>, prev: seq<TouchPoint>,
                                      cur: seq<TouchPoint>, counter: int, n: nat)
    requires Linked(prev2, prev) && n < |cur|
    ensures var c := AssignAll(s, atan2, prev2, prev, cur, counter, n).1;
            var p := Partly(s, atan2, prev2, prev, cur, counter, n);
            var (t, c') := Assigned(s, atan2, prev, prev2, cur[n], Claim(Matches(prev, cur), n), c);
            p[n] == cur[n] && p[n := t] == Partly(s, atan2, prev2, prev, cur, counter, n + 1)
            && c' == AssignAll(s, atan2, prev2, prev, cur, counter, n + 1).1
  {
    var p := Partly(s, atan2, prev2, prev, cur, counter, n);
    var (t, _) := Assigned(s, atan2, prev, prev2, cur[n], Claim(Matches(prev, cur), n),
                           AssignAll(s, atan2, prev2, prev, cur, counter, n).1);
    var q := Partly(s, atan2, prev2, prev, cur, counter, n + 1);
    assert forall k :: 0 <= k < |cur| ==> p[n := t][k] == q[k];
  }

  /** Assigns ids to all touches of the frame. */
  method AssignIds(tp: array2<TouchPoint>, row: nat, prow: nat, p2row: nat, tpc: nat, distance: array<int>,
                   loc: array<int>, s: Settings, atan2: Atan2, counter: int,
                   ghost table: Table, ghost cur: seq<TouchPoint>, ghost prev: seq<TouchPoint>,
                       ghost prev2: seq<TouchPoint>)
    returns (counter': int)
    requires Rows(tp, table, row, prow, p2row, cur, prev, prev2) && Linked(prev2, prev)
    requires tpc == |cur| && distance.Length == loc.Length == MAX_TOUCH
    requires forall i :: 0 <= i < tpc ==> Match(loc[i], distance[i]) == Claim(Matches(prev, cur), i)
    modifies tp
    ensures Rows(tp, table, row, prow, p2row, AssignAll(s, atan2, prev2, prev, cur, counter, |cur|).0, prev, prev2)
    ensures counter' == AssignAll(s, atan2, prev2, prev, cur, counter, |cur|).1
  {
    counter' := counter;
    assert Partly(s, atan2, prev2, prev, cur, counter, 0) == cur;
    for i := 0 to tpc
      invariant Rows(tp, table, row, prow, p2row, Partly(s, atan2, prev2, prev, cur, counter, i), prev, prev2)
      invariant counter' == AssignAll(s, atan2, prev2, prev, cur, counter, i).1
    {
      PartlyStep(s, atan2, prev2, prev, cur, counter, i);
      counter' := AssignTouch(tp, row, prow, p2row, i, loc[i], distance[i], s, atan2, counter', table,
                              Partly(s, atan2, prev2, prev, cur, counter, i), prev, prev2);
    }
    assert Partly(s, atan2, prev2, prev, cur, counter, |cur|)
         == AssignAll(s, atan2, prev2, prev, cur, counter, |cur|).0;
  }

  /** Matching and id assignment of one frame. */
  method MatchTouches(tp: array2<TouchPoint>, row: nat, prow: nat, p2row: nat, tpc: nat, previoustpc: nat,
                      s: Settings, atan2: Atan2, counter: int,
                      ghost table: Table, ghost cur: seq<TouchPoint>, ghost prev: seq<TouchPoint>,
                          ghost prev2: seq<TouchPoint>)
    returns (counter': int)
    requires Rows(tp, table, row, prow, p2row, cur, prev, prev2) && Linked(prev2, prev)
    requires tpc == |cur| && previoustpc == |prev|
    modifies tp
    ensures ScanTable(tp, table, row, AssignAll(s, atan2, prev2, prev, cur, counter, |cur|).0)
    ensures counter' == AssignAll(s, atan2, prev2, prev, cur, counter, |cur|).1
  {
    var distance := new int[MAX_TOUCH];
    var loc := new int[MAX_TOUCH];
    FindNearest(tp, row, prow, tpc, previoustpc, distance, loc, table, p2row, cur, prev, prev2);
    RemoveRivals(distance, loc, tpc, Matches(prev, cur));
    assert forall i :: 0 <= i < tpc ==> loc[i] == loc[..tpc][i];
    counter' := AssignIds(tp, row, prow, p2row, tpc, distance, loc, s, atan2, counter, table, cur, prev, prev2);
  }

  // ----- debounce and report, on the table -----

  method DebounceTouch(tp: array2<TouchPoint>, row: nat, tpc: nat, isNew: bool, initialX: int, initialY: int,
                       ghost table: Table, ghost cur: seq<TouchPoint>)
    returns (x: int, y: int)
    requires ScanTable(tp, table, row, cur) && tpc == |cur|
    modifies tp
    ensures ScanTable(tp, table, row, Debounced(cur, isNew, initialX, initialY).0)
    ensures x == Debounced(cur, isNew, initialX, initialY).1 && y == Debounced(cur, isNew, initialX, initialY).2
  {
    x, y := initialX, initialY;
    if tpc == 1 {
      if isNew {
        x, y := tp[row, 0].x, tp[row, 0].y;
      } else if initialX > -20 {
        if Abs(initialX - tp[row, 0].x) <= DEBOUNCE_RADIUS && Abs(initialY - tp[row, 0].y) <= DEBOUNCE_RADIUS {
          SetTouch(tp, row, 0, tp[row, 0].(x := initialX, y := initialY), table, cur);
          assert cur[0 := cur[0].(x := initialX, y := initialY)] == [cur[0].(x := initialX, y := initialY)];
        } else {
          x := -100;
        }
      }
    }
  }

  /** The touches after the first n were reported or counted down. */
  ghost function PartlyCounted(cur: seq<TouchPoint>, n: nat): (r: seq<TouchPoint>)
    requires n <= |cur|
    ensures |r| == |cur|
  {
    CountedAll(cur)[..n] + cur[n..]
  }

  lemma {:induction false} CountedStep(cur: seq<TouchPoint>, n: nat)
    requires n < |cur|
    ensures PartlyCounted(cur, n)[n] == cur[n]
    ensures PartlyCounted(cur, n)[n := Counted(cur[n])] == PartlyCounted(cur, n + 1)
    ensures Reports(cur[..n + 1]) == Reports(cur[..n]) + if Sent(cur[n]) then [ReportOf(cur[n])] else []
  {
    assert cur[..n + 1][..n] == cur[..n];
    var p, q := PartlyCounted(cur, n), PartlyCounted(cur, n + 1);
    assert forall k :: 0 <= k < |cur| ==> p[n := Counted(cur[n])][k] == q[k];
  }

  /** Sends touch k if it is due, or brings it one frame closer. */
  method ReportTouch(tp: array2<TouchPoint>, row: nat, k: nat, ghost table: Table, ghost cur: seq<TouchPoint>)
    returns (sent: seq<Report>)
    requires k < |cur| && ScanTable(tp, table, row, cur)
    modifies tp
    ensures sent == (if Sent(cur[k]) then [ReportOf(cur[k])] else [])
            && ScanTable(tp, table, row, cur[k := Counted(cur[k])])
  {
    sent := [];
    var t := tp[row, k];
    if t.highestVal != 0 && t.touchDelay == 0 {
      sent := [ReportOf(t)];
    } else if t.touchDelay != 0 {
      t := t.(touchDelay := t.touchDelay - 1);
    }
    SetTouch(tp, row, k, t, table, cur);
  }

  /** Sends the touches that are due and brings the others one frame closer. */
  method ReportTouches(tp: array2<TouchPoint>, row: nat, tpc: nat, ghost table: Table, ghost cur: seq<TouchPoint>)
    returns (sent: seq<Report>)
    requires ScanTable(tp, table, row, cur) && tpc == |cur|
    modifies tp
    ensures sent == Reports(cur) && ScanTable(tp, table, row, CountedAll(cur))
  {
    sent := [];
    assert PartlyCounted(cur, 0) == cur && cur[..0] == [];
    for k := 0 to tpc
      invariant ScanTable(tp, table, row, PartlyCounted(cur, k)) && sent == Reports(cur[..k])
    {
      CountedStep(cur, k);
      var report := ReportTouch(tp, row, k, table, PartlyCounted(cur, k));
      sent := sent + report;
    }
    assert cur[..|cur|] == cur && PartlyCounted(cur, |cur|) == CountedAll(cur);
  }

  // ----- the server -----

  /** Every strong cell carries the mark of the touch it belongs to. */
  ghost predicate AllMarked(invalid: array2<int>, g: Grid, s: Settings)
    reads invalid
  {
    IsGrid(g) && Marks(invalid, g, Scanning.Seeds(g, s.continued, CELLS))
  }

  ghost function OlderOf(r: RunState, lifted: bool): (s: seq<TouchPoint>) { if lifted then [] else r.track.older }

  const CLEARED := TouchPoint(-1000, -1000.0, -1000.0, -1, -1, 0.0, 0, 0, -1000, -1000, -1000, -1000, -1000, -1000,
                              -1000, -1000, HOVER_DEBOUNCE_DELAY)

  /** Writing one row of the table leaves the others alone. */
  lemma {:induction false} RowKept(table: Table, row: nat, cur: seq<TouchPoint>, prow: nat, prev: seq<TouchPoint>)
    requires IsTable(table) && row < 3 && |cur| <= MAX_TOUCH
    requires prow < 3 && prev <= table[prow] && (prev != [] ==> prow != row)
    ensures var table' := table[row := Over(table[row], cur)];
            IsTable(table') && cur <= table'[row] && prev <= table'[prow]
  {
  }

  /** What the server keeps between two bytes: the live touches, everything sent, and the
      rows of the table. */
  datatype Kept = Kept(run: RunState, sent: seq<Report>, rows: TouchLiftoff.Rows)

  /** What one frame makes of it: the next state of the run, its reports, and the rows. */
  ghost predicate FrameStep(atan2: Atan2, k: Kept, s: Settings, lifted: bool, scanned: seq<TouchPoint>, k': Kept)
    requires Inv(k.run)
  {
    && lifted == (k.rows.row !in k.rows.used)
    && k'.run == StepFrame(s, atan2, k.run, lifted, scanned)
    && k'.sent == k.sent + Frame(s, atan2, k.run.track, lifted, scanned).reports
    && k'.rows == TouchLiftoff.RowsNext(k.rows, scanned)
  }

  lemma {:induction false} StepTaken(atan2: Atan2, s: Settings, k: Kept, lifted: bool, scanned: seq<TouchPoint>,
                                     k': Kept)
    requires Inv(k.run) && lifted == (k.rows.row !in k.rows.used)
    requires k'.run == StepFrame(s, atan2, k.run, lifted, scanned)
    requires k'.sent == k.sent + Frame(s, atan2, k.run.track, lifted, scanned).reports
    requires k'.rows.row == if lifted then k.rows.row else (k.rows.row + 1) % 3
    requires k'.rows.used == if |scanned| == 0 then k.rows.used else k.rows.used + {k'.rows.row}
    ensures FrameStep(atan2, k, s, lifted, scanned, k')
  {
  }

  /** These rows of the table hold a touch, live or stale. */
  ghost predicate UsedRows(table: Table, used: set<nat>) {
    IsTable(table) && forall r :: 0 <= r < 3 ==> UsedRow(table, used, r)
  }

  ghost predicate UsedRow(table: Table, used: set<nat>, row: nat)
    requires IsTable(table) && row < 3
  {
    row in used <==> table[row][0].x >= -20
  }

  lemma {:induction false} UsedNone(table: Table)
    requires table == seq(3, r => seq(MAX_TOUCH, t => CLEARED))
    ensures UsedRows(table, {})
  {
  }

  lemma {:induction false} UsedAfter(table: Table, used: set<nat>, row: nat, cur: seq<TouchPoint>)
    requires UsedRows(table, used) && row < 3 && |cur| <= MAX_TOUCH && AllOnScreen(cur)
    ensures UsedRows(table[row := Over(table[row], cur)], if cur == [] then used else used + {row})
  {
    if cur != [] { assert OnScreen(cur[0]); }
    var table', used' := table[row := Over(table[row], cur)], if cur == [] then used else used + {row};
    forall r | 0 <= r < 3 ensures UsedRow(table', used', r) {
      assert UsedRow(table, used, r);
    }
  }

  /** The parts of a frame's outcome, and the invariant after it. */
  lemma {:induction false} TrackFacts(s: Settings, atan2: Atan2, r: RunState, lifted: bool, scanned: seq<TouchPoint>)
    requires Sane(s) && Inv(r) && AllScanned(s, scanned)
    ensures Linked(OlderOf(r, lifted), PrevOf(r, lifted))
    ensures var o := Frame(s, atan2, r.track, lifted, scanned);
            var r' := StepFrame(s, atan2, r, lifted, scanned);
            && Inv(r') && AllOnScreen(r'.track.cur) && |r'.track.cur| == |scanned| <= MAX_TOUCH
            && o.reports == Reports(o.touches)
            && IsNext(s, atan2, r.track, lifted, scanned, PrevOf(r, lifted), OlderOf(r, lifted), o.touches, r'.track)
  {
    StepFrameKeeps(s, atan2, r, lifted, scanned);
  }

  /** The track after a frame, in terms of the steps that lead to it. */
  ghost predicate IsNext(s: Settings, atan2: Atan2, t: Track, lifted: bool, scanned: seq<TouchPoint>,
                         prev: seq<TouchPoint>, prev2: seq<TouchPoint>,
                         touches: seq<TouchPoint>, t': Track)
    requires Linked(prev2, prev)
  {
    var (given, c) := AssignAll(s, atan2, prev2, prev, scanned, t.counter, |scanned|);
    var (moved, x, y) := Debounced(given, lifted, t.initialX, t.initialY);
    touches == moved && t' == Track(prev, CountedAll(moved), if c > TRACKING_ID_LIMIT then 0 else c, x, y)
  }

  /** A live touch is on the screen, so it cannot look like a liftoff. */
  lemma {:induction false} LiftedOnlyWhenEmpty(tp: array2<TouchPoint>, table: Table, row: nat, cur: seq<TouchPoint>)
    requires TableIs(tp, table) && row < 3 && cur <= table[row] && AllOnScreen(cur)
    ensures tp[row, 0].x < -20 ==> cur == []
  {
    if cur != [] { assert OnScreen(cur[0]) && tp[row, 0] == cur[0]; }
  }

  class Server {
    const weight: int -> real
    const atan2: Atan2
    const matrix: array2<int>
    const invalid: array2<int>
    const tp: array2<TouchPoint>
    var tpoint: nat
    var prevtpoint: nat
    var prev2tpoint: nat
    var previoustpc: nat
    var trackingId: int
    var initialX: int
    var initialY: int
    var settings: Settings
    var sent: seq<Report>      // everything reported so far
    ghost var grid: Grid       // what the matrix holds
    ghost var table: Table     // what the table of touches holds
    ghost var used: set<nat>   // the rows that hold a touch, live or stale
    ghost var run: RunState    // the live touches, with their history

    /** The current row looks cleared: no touch has been written to it since clear_arrays. */
    predicate Lifted()
      reads this, tp
      requires tp.Length0 == 3 && tp.Length1 == MAX_TOUCH && tpoint < 3
    {
      tp[tpoint, 0].x < -20
    }

    ghost function Keeps(): (k: Kept)
      reads `run, `sent, `used, `tpoint
    {
      Kept(run, sent, TouchLiftoff.Rows(tpoint, used))
    }

    /** What holds of the parts that tracking leaves alone. */
    ghost predicate Prepared()
      reads `grid, `settings, `tpoint, `prevtpoint, `prev2tpoint, matrix, invalid
    {
      && matrix != invalid && Holds(matrix, grid) && GoodWeight(weight)
      && invalid.Length0 == X_AXIS_POINTS && invalid.Length1 == Y_AXIS_POINTS
      && Sane(settings)
      && tpoint < 3 && prev2tpoint < 3 && (prevtpoint == tpoint || prevtpoint == (tpoint + 2) % 3)
    }

    /** What holds of the state besides the table of touches. */
    ghost predicate Settled()
      reads this, matrix, invalid
    {
      && Prepared() && Inv(run)
      && trackingId == run.track.counter && initialX == run.track.initialX && initialY == run.track.initialY
    }

    /** The table of touches holds the live touches of the last two frames. */
    ghost predicate Tabled()
      reads this, tp
    {
      && TableIs(tp, table) && tpoint < 3 && prevtpoint < 3
      && run.track.cur <= table[tpoint] && run.track.older <= table[prevtpoint]
      && (if Lifted() then run.track.cur == [] else previoustpc == |run.track.cur|)
    }

    ghost predicate Valid()
      reads this, matrix, invalid, tp
    {
      Settled() && Tabled() && UsedRows(table, used)
    }

    constructor (weight: int -> real, atan2: Atan2)
      requires GoodWeight(weight)
      ensures Valid() && fresh(matrix) && fresh(invalid) && fresh(tp)
      ensures run == RunState(Start(), [], false) && sent == [] && grid == Framing.Blank()
      ensures tpoint == 0 && used == {}
    {
      this.weight, this.atan2 := weight, atan2;
      matrix := new int[X_AXIS_POINTS, Y_AXIS_POINTS]((i, j) => 0);
      invalid := new int[X_AXIS_POINTS, Y_AXIS_POINTS]((i, j) => 0);
      tp := new TouchPoint[3, MAX_TOUCH]((i, j) => CLEARED);
      tpoint, prevtpoint, prev2tpoint, previoustpc := 0, 0, 0, 0;
      trackingId, initialX, initialY := 0, 0, 0;
      settings, sent := FINGER, [];
      grid, run, used := Framing.Blank(), RunState(Start(), [], false), {};
      table := seq(3, r => seq(MAX_TOUCH, t => CLEARED));
      new;
      assert forall i, j :: 0 <= i < X_AXIS_POINTS && 0 <= j < Y_AXIS_POINTS ==> At(grid, (i, j)) == 0;
    }

    /** These are the touches of the matrix, and the mark matrix says which cell belongs to
        which. */
    ghost predicate Found(scanned: seq<TouchPoint>)
      reads `grid, `settings, invalid
    {
      Came(weight, grid, settings, scanned) && AllMarked(invalid, grid, settings) && AllScanned(settings, scanned)
    }

    /** The rows of the two frames before, apart from the row about to be written. */
    ghost predicate Rotated(prev: seq<TouchPoint>, prev2: seq<TouchPoint>)
      reads this
      requires IsTable(table)
    {
      && prevtpoint < 3 && prev2tpoint < 3 && previoustpc == |prev|
      && prev <= table[prevtpoint] && prev2 <= table[prev2tpoint]
      && (prev != [] ==> prevtpoint != tpoint) && (prev2 != [] ==> prev2tpoint != tpoint)
    }

    /** After the first half of a frame: the row has been chosen, and nothing else that is kept
        has changed. */
    ghost predicate RowChosen(was: Kept, lifted: bool)
      reads `run, `sent, `used, `tpoint
    {
      && run == was.run && sent == was.sent && used == was.rows.used
      && lifted == (was.rows.row !in used) && tpoint == if lifted then was.rows.row else (was.rows.row + 1) % 3
    }

    /** The frame's choice of rows: after a liftoff the current row is used again, otherwise
        the three rows rotate. */
    method BeginFrame() returns (newDebounceTouch: bool)
      requires Valid()
      modifies `tpoint, `prevtpoint, `prev2tpoint, `previoustpc
      ensures newDebounceTouch == old(Lifted()) && Settled() && TableIs(tp, table)
      ensures RowChosen(old(Keeps()), newDebounceTouch)
      ensures Rotated(PrevOf(run, newDebounceTouch), OlderOf(run, newDebounceTouch))
    {
      assert UsedRow(table, used, tpoint);
      if tp[tpoint, 0].x < -20 {
        previoustpc := 0;
        newDebounceTouch := true;
      } else {
        newDebounceTouch := false;
        prev2tpoint := prevtpoint;
        prevtpoint := tpoint;
        tpoint := tpoint + 1;
        if tpoint > 2 { tpoint := 0; }
      }
    }

    /** Debounce and reports, after the ids were assigned. */
    method Finish(tpc: nat, newDebounceTouch: bool, ghost given: seq<TouchPoint>)
      requires ScanTable(tp, table, tpoint, given) && tpc == |given|
      modifies tp, `initialX, `initialY, `sent
      ensures var (touches, x, y) := Debounced(given, newDebounceTouch, old(initialX), old(initialY));
              && ScanTable(tp, table, tpoint, CountedAll(touches)) && sent == old(sent) + Reports(touches)
              && initialX == x && initialY == y
    {
      ghost var touches := Debounced(given, newDebounceTouch, initialX, initialY).0;
      initialX, initialY := DebounceTouch(tp, tpoint, tpc, newDebounceTouch, initialX, initialY, table, given);
      var reports := ReportTouches(tp, tpoint, tpc, table, touches);
      sent := sent + reports;
    }

    /** Matching, ids, debounce and reports for the scanned touches. */
    method Process(tpc: nat, newDebounceTouch: bool, ghost scanned: seq<TouchPoint>, ghost prev: seq<TouchPoint>,
                   ghost prev2: seq<TouchPoint>)
      requires Rows(tp, table, tpoint, prevtpoint, prev2tpoint, scanned, prev, prev2) && Linked(prev2, prev)
      requires tpc == |scanned| && previoustpc == |prev| && Prepared()
      modifies tp, `trackingId, `initialX, `initialY, `sent
      ensures Prepared()
      ensures var (given, c) := AssignAll(settings, atan2, prev2, prev, scanned, old(trackingId), |scanned|);
              var (touches, x, y) := Debounced(given, newDebounceTouch, old(initialX), old(initialY));
              && ScanTable(tp, table, tpoint, CountedAll(touches)) && sent == old(sent) + Reports(touches)
              && initialX == x && initialY == y && trackingId == (if c > TRACKING_ID_LIMIT then 0 else c)
    {
      ghost var given := AssignAll(settings, atan2, prev2, prev, scanned, trackingId, |scanned|).0;
      trackingId := MatchTouches(tp, tpoint, prevtpoint, prev2tpoint, tpc, previoustpc, settings, atan2, trackingId,
                                 table, scanned, prev, prev2);
      Finish(tpc, newDebounceTouch, given);
      if trackingId > TRACKING_ID_LIMIT { trackingId := 0; }
    }

    method ScanRows() returns (tpc: nat, ghost scanned: seq<TouchPoint>)
      requires matrix != invalid && Holds(matrix, grid) && GoodWeight(weight) && Sane(settings)
      requires invalid.Length0 == X_AXIS_POINTS && invalid.Length1 == Y_AXIS_POINTS
      requires TableIs(tp, table) && tpoint < 3
      modifies invalid, tp
      ensures Found(scanned)
      ensures ScanTable(tp, table, tpoint, scanned) && tpc == |scanned|
    {
      ghost var seeds: seq<Cell>, stats: seq<Stats>;
      tpc, seeds, stats, scanned := ScanTouches(matrix, invalid, tp, tpoint, settings.continued, weight, table, grid);
      ScanResultGood(settings, grid, weight, CELLS, stats, table[tpoint], scanned);
    }

    /** The first half of a frame: the rows rotate and the scan fills the current one. */
    method ScanFrame() returns (tpc: nat, lifted: bool, ghost scanned: seq<TouchPoint>)
      requires Valid()
      modifies `tpoint, `prevtpoint, `prev2tpoint, `previoustpc, invalid, tp
      ensures Settled() && lifted == old(Lifted()) && tpc == |scanned|
      ensures Found(scanned)
      ensures Rows(tp, table, tpoint, prevtpoint, prev2tpoint, scanned, PrevOf(run, lifted), OlderOf(run, lifted))
      ensures previoustpc == |PrevOf(run, lifted)| && RowChosen(old(Keeps()), lifted)
    {
      lifted := BeginFrame();
      label begun:
      tpc, scanned := ScanRows();
      SettledKept@begun();
      RowsScanned(scanned, PrevOf(run, lifted), OlderOf(run, lifted));
    }

    twostate lemma {:induction false} SettledKept()
      requires old(Settled()) && unchanged(this) && unchanged(matrix)
      ensures Settled()
    {
    }

    lemma {:induction false} RowsScanned(scanned: seq<TouchPoint>, prev: seq<TouchPoint>, prev2: seq<TouchPoint>)
      requires ScanTable(tp, table, tpoint, scanned) && Rotated(prev, prev2)
      ensures Rows(tp, table, tpoint, prevtpoint, prev2tpoint, scanned, prev, prev2) && previoustpc == |prev|
    {
    }

    /** The second half of a frame, towards a given next state. */
    method TrackFrame(tpc: nat, lifted: bool, ghost scanned: seq<TouchPoint>, ghost prev: seq<TouchPoint>,
                      ghost prev2: seq<TouchPoint>,
                      ghost touches: seq<TouchPoint>, ghost run': RunState)
      requires tpc == |scanned| == |run'.track.cur| <= MAX_TOUCH && AllOnScreen(run'.track.cur)
      requires Rows(tp, table, tpoint, prevtpoint, prev2tpoint, scanned, prev, prev2) && Linked(prev2, prev)
      requires previoustpc == |prev|
      requires trackingId == run.track.counter && initialX == run.track.initialX && initialY == run.track.initialY
      requires IsNext(settings, atan2, run.track, lifted, scanned, prev, prev2, touches, run'.track)
      requires Prepared() && UsedRows(table, used)
      modifies `trackingId, `initialX, `initialY, `sent, `previoustpc, `run, `table, `used, tp
      ensures Prepared()
      ensures Tabled() && UsedRows(table, used) && run == run' && sent == old(sent) + Reports(touches)
      ensures used == if tpc == 0 then old(used) else old(used) + {tpoint}
      ensures trackingId == run.track.counter && initialX == run.track.initialX && initialY == run.track.initialY
    {
      Process(tpc, lifted, scanned, prev, prev2);
      Advance(tpc, prev, run');
    }

    /** The frame's touches become the live ones. */
    method Advance(tpc: nat, ghost prev: seq<TouchPoint>, ghost run': RunState)
      requires ScanTable(tp, table, tpoint, run'.track.cur) && tpc == |run'.track.cur| <= MAX_TOUCH
      requires AllOnScreen(run'.track.cur) && run'.track.older == prev
      requires prevtpoint < 3 && prev <= table[prevtpoint] && (prev != [] ==> prevtpoint != tpoint)
      requires UsedRows(table, used)
      modifies `previoustpc, `run, `table, `used
      ensures Tabled() && UsedRows(table, used) && run == run'
      ensures used == if tpc == 0 then old(used) else old(used) + {tpoint}
    {
      previoustpc := tpc;
      RowKept(table, tpoint, run'.track.cur, prevtpoint, prev);
      UsedAfter(table, used, tpoint, run'.track.cur);
      used := if run'.track.cur == [] then used else used + {tpoint};
      table := table[tpoint := Over(table[tpoint], run'.track.cur)];
      run := run';
      LiftedOnlyWhenEmpty(tp, table, tpoint, run'.track.cur);
    }

    /** The second half of a frame. */
    method TrackScanned(tpc: nat, lifted: bool, ghost scanned: seq<TouchPoint>)
      requires Settled() && tpc == |scanned|
      requires Rows(tp, table, tpoint, prevtpoint, prev2tpoint, scanned, PrevOf(run, lifted), OlderOf(run, lifted))
      requires previoustpc == |PrevOf(run, lifted)|
      requires Found(scanned) && UsedRows(table, used)
      modifies `trackingId, `initialX, `initialY, `sent, `previoustpc, `run, `table, `used, tp
      ensures Valid() && Found(scanned)
      ensures run == StepFrame(settings, atan2, old(run), lifted, scanned)
      ensures used == if tpc == 0 then old(used) else old(used) + {tpoint}
      ensures sent == old(sent) + Frame(settings, atan2, old(run).track, lifted, scanned).reports
    {
      TrackFacts(settings, atan2, run, lifted, scanned);
      ghost var o := Frame(settings, atan2, run.track, lifted, scanned);
      TrackFrame(tpc, lifted, scanned, PrevOf(run, lifted), OlderOf(run, lifted), o.touches,
                 StepFrame(settings, atan2, run, lifted, scanned));
    }

    /** ... in terms of what is kept. */
    method TrackKept(tpc: nat, lifted: bool, ghost scanned: seq<TouchPoint>, ghost was: Kept)
      requires Settled() && tpc == |scanned| && RowChosen(was, lifted)
      requires Rows(tp, table, tpoint, prevtpoint, prev2tpoint, scanned, PrevOf(run, lifted), OlderOf(run, lifted))
      requires previoustpc == |PrevOf(run, lifted)|
      requires Found(scanned) && UsedRows(table, used)
      modifies `trackingId, `initialX, `initialY, `sent, `previoustpc, `run, `table, `used, tp
      ensures Valid() && Found(scanned)
      ensures Inv(was.run) && FrameStep(atan2, was, settings, lifted, scanned, Keeps())
    {
      TrackScanned(tpc, lifted, scanned);
      StepTaken(atan2, settings, was, lifted, scanned, Keeps());
    }

    /** One frame: scans the matrix, then matches, numbers, debounces and reports what the
        scan found. The number of touches is returned. */
    method CalcPoint()
      returns (tpc: nat, ghost lifted: bool, ghost scanned: seq<TouchPoint>)
      requires Valid()
      modifies `tpoint, `prevtpoint, `prev2tpoint, `previoustpc, `trackingId, `initialX, `initialY, `sent, `run,
          `table, `used, invalid, tp
      ensures Valid()
      ensures lifted == old(Lifted()) && tpc == |scanned| && Found(scanned)
      ensures FrameStep(atan2, old(Keeps()), settings, lifted, scanned, Keeps())
    {
      ghost var was := Keeps();
      var newDebounceTouch: bool;
      tpc, newDebounceTouch, scanned := ScanFrame();
      lifted := newDebounceTouch;
      TrackKept(tpc, newDebounceTouch, scanned, was);
    }

    /** The loops of clear_arrays. */
    method ClearTouches()
      requires tp.Length0 == 3 && tp.Length1 == MAX_TOUCH
      modifies tp
      ensures forall r, t :: 0 <= r < 3 && 0 <= t < MAX_TOUCH ==> tp[r, t] == CLEARED
    {
      for i := 0 to 3
        invariant forall r, t :: 0 <= r < i && 0 <= t < MAX_TOUCH ==> tp[r, t] == CLEARED
      {
        for j := 0 to MAX_TOUCH
          invariant forall r, t :: 0 <= r < i && 0 <= t < MAX_TOUCH ==> tp[r, t] == CLEARED
          invariant forall t :: 0 <= t < j ==> tp[i, t] == CLEARED
        {
          tp[i, j] := CLEARED;
        }
      }
    }

    /** clear_arrays: forgets all touches; the id counter and the row indices stay. */
    method ClearArrays()
      requires Valid()
      modifies `table, `run, `used, tp
      ensures Valid() && run == StepClear(old(run)) && used == {} && Lifted()
    {
      ClearTouches();
      table := seq(3, r => seq(MAX_TOUCH, t => CLEARED));
      UsedNone(table);
      run, used := StepClear(run), {};
    }

    /** Blanks the matrix: the start flag of a row frame. */
    method Blank()
      requires matrix.Length0 == X_AXIS_POINTS && matrix.Length1 == Y_AXIS_POINTS
      modifies `grid, matrix
      ensures grid == Framing.Blank() && Holds(matrix, grid)
    {
      grid := Framing.Blank();
      for i := 0 to X_AXIS_POINTS
        invariant forall r, c :: 0 <= r < i && 0 <= c < Y_AXIS_POINTS ==> matrix[r, c] == 0
        modifies matrix
      {
        for j := 0 to Y_AXIS_POINTS
          invariant forall r, c :: 0 <= r < i && 0 <= c < Y_AXIS_POINTS ==> matrix[r, c] == 0
          invariant forall c :: 0 <= c < j ==> matrix[i, c] == 0
          modifies matrix
        {
          matrix[i, j] := 0;
        }
      }
    }

    /** Writes a row frame into the matrix. */
    method WriteLine(cline: array<Framing.Byte>)
      requires cline.Length == Framing.LINE_SIZE && Framing.RowOf(cline[2]) < X_AXIS_POINTS && Holds(matrix, grid)
      modifies `grid, matrix
      ensures Holds(matrix, grid)
      ensures grid == Framing.WriteRow(old(grid), cline[2], cline[3..3 + Y_AXIS_POINTS])
    {
      if cline[2] >= 0x80 { Blank(); }
      var row := Framing.RowOf(cline[2]);
      ghost var g, data := grid, cline[3..3 + Y_AXIS_POINTS];
      for i := 0 to Y_AXIS_POINTS
        invariant grid == g
        invariant forall r, c :: 0 <= r < X_AXIS_POINTS && 0 <= c < Y_AXIS_POINTS ==>
            matrix[r, c] == if r == row && c < i then data[c] else At(g, (r, c))
        modifies matrix
      {
        matrix[row, i] := cline[i + 3];
      }
      grid := grid[row := data];
    }

    /** A row frame arrives. */
    method StoreLine(cline: array<Framing.Byte>)
      requires Valid() && cline.Length == Framing.LINE_SIZE && Framing.RowOf(cline[2]) < X_AXIS_POINTS
      modifies `grid, matrix
      ensures Valid() && grid == Framing.WriteRow(old(grid), cline[2], cline[3..3 + Y_AXIS_POINTS])
    {
      WriteLine(cline);
    }

    /** set_ts_mode: zero is finger mode, everything else stylus mode. */
    method SetTsMode(mode: int)
      requires Valid()
      modifies `settings
      ensures Valid() && settings == if mode == 0 then FINGER else STYLUS
    {
      settings := if mode == 0 then FINGER else STYLUS;
    }
  }
}

/**
 The scan of calc_point (touchscreen_drv/ts_srv.c): which cells start a touch, and how
 the touches it finds relate to the fingers on the digitizer.
 */
module TouchScan {
  import opened Shared
  import opened TouchFill
  import Tracking = TouchTracking

  const MAX_TOUCH := Tracking.MAX_TOUCH
  const CELLS := X_AXIS_POINTS * Y_AXIS_POINTS

  // ----- the scan as a function of the matrix -----

  ghost predicate Claimed(g: Grid, seeds: seq<Cell>, c: Cell)
    requires IsGrid(g)
  {
    exists t :: 0 <= t < |seeds| && c in Touch(g, seeds[t])
  }

  /** A cell starts a touch when it is above the threshold and unclaimed, and the table of
      touches is not full. */
  ghost function WithSeed(g: Grid, thresh: int, s: seq<Cell>, c: Cell): (r: seq<Cell>)
    requires IsGrid(g) && InGrid(c)
  {
    if |s| < MAX_TOUCH && At(g, c) > thresh && !Claimed(g, s, c) then s + [c] else s
  }

  /** The cells at which a touch is started among the first k in row order. */
  ghost function Seeds(g: Grid, thresh: int, k: nat): (s: seq<Cell>)
    requires IsGrid(g) && k <= CELLS
    ensures |s| <= MAX_TOUCH
    ensures forall t :: 0 <= t < |s| ==> InGrid(s[t]) && At(g, s[t]) > thresh
    decreases k, g
  {
    if k == 0 then [] else WithSeed(g, thresh, Seeds(g, thresh, k - 1), CellAt(k - 1))
  }

  /** The mark the scan leaves on a cell: the number of the last touch that reached it. */
  ghost function Owner(g: Grid, seeds: seq<Cell>, c: Cell): (id: int)
    requires IsGrid(g)
    ensures 0 <= id <= |seeds|
    ensures id == 0 <==> !Claimed(g, seeds, c)
    ensures id > 0 ==> c in Touch(g, seeds[id - 1])
  {
    if seeds == [] then 0
    else if c in Touch(g, seeds[|seeds| - 1]) then |seeds|
    else
      var id := Owner(g, seeds[..|seeds| - 1], c);
      assert Claimed(g, seeds, c) ==> Claimed(g, seeds[..|seeds| - 1], c);
      assert id > 0 ==> seeds[..|seeds| - 1][id - 1] == seeds[id - 1];
      id
  }

  lemma {:induction false} OwnerSnoc(g: Grid, seeds: seq<Cell>, seed: Cell, c: Cell)
    requires IsGrid(g)
    ensures Owner(g, seeds + [seed], c) == if c in Touch(g, seed) then |seeds| + 1 else Owner(g, seeds, c)
  {
    assert (seeds + [seed])[..|seeds|] == seeds;
  }

  // ----- fingers: strong components -----

  ghost predicate Strong(g: Grid, c: Cell)
    requires IsGrid(g)
  {
    InGrid(c) && At(g, c) >= LARGE_AREA_UNPRESS
  }

  ghost predicate StrongPath(g: Grid, p: seq<Cell>)
    requires IsGrid(g)
  {
    && |p| > 0
    && (forall k :: 0 <= k < |p| ==> Strong(g, p[k]))
    && (forall k :: 0 <= k < |p| - 1 ==> AdjacentAt(p, k))
  }

  ghost predicate AdjacentAt(p: seq<Cell>, k: nat)
    requires k < |p| - 1
  {
    Adjacent(p[k], p[k + 1])
  }

  ghost predicate Connects(g: Grid, p: seq<Cell>, c: Cell, d: Cell)
    requires IsGrid(g)
  {
    StrongPath(g, p) && p[0] == c && p[|p| - 1] == d
  }

  /** The 8-connected component of c among the strong cells. */
  ghost function Component(g: Grid, c: Cell): (s: set<Cell>)
    requires IsGrid(g)
  {
    set d | d in Cells() && exists p :: Connects(g, p, c, d)
  }

  /** The components that contain a cell above the threshold. */
  ghost function Fingers(g: Grid, thresh: int): (s: set<set<Cell>>)
    requires IsGrid(g)
  {
    set c | c in Cells() && Strong(g, c) && At(g, c) > thresh :: Component(g, c)
  }

  lemma {:induction false} ComponentSelf(g: Grid, c: Cell)
    requires IsGrid(g) && Strong(g, c)
    ensures c in Component(g, c)
  {
    assert Connects(g, [c], c, c);
  }

  function Reversed(p: seq<Cell>): (r: seq<Cell>)
    ensures |r| == |p| && forall k :: 0 <= k < |p| ==> r[k] == p[|p| - 1 - k]
  {
    seq(|p|, k requires 0 <= k < |p| => p[|p| - 1 - k])
  }

  lemma {:induction false} ConnectsReversed(g: Grid, p: seq<Cell>, c: Cell, d: Cell)
    requires IsGrid(g) && Connects(g, p, c, d)
    ensures Connects(g, Reversed(p), d, c)
  {
    var r := Reversed(p);
    forall k | 0 <= k < |r| - 1 ensures AdjacentAt(r, k) {
      assert AdjacentAt(p, |p| - 2 - k);
    }
  }

  lemma {:induction false} ConnectsJoined(g: Grid, p: seq<Cell>, q: seq<Cell>, c: Cell, d: Cell, e: Cell)
    requires IsGrid(g) && Connects(g, p, c, d) && Connects(g, q, d, e)
    ensures Connects(g, p + q[1..], c, e)
  {
    var r := p + q[1..];
    forall k | 0 <= k < |r| - 1 ensures AdjacentAt(r, k) {
      if k < |p| - 1 {
        assert AdjacentAt(p, k);
      } else {
        assert AdjacentAt(q, k - |p| + 1);
      }
    }
  }

  /** Components are equal as soon as one contains the other's origin. */
  lemma {:induction false} ComponentShared(g: Grid, c: Cell, d: Cell)
    requires IsGrid(g) && d in Component(g, c)
    ensures Component(g, c) == Component(g, d)
  {
    var p :| Connects(g, p, c, d);
    ConnectsReversed(g, p, c, d);
    forall e | e in Component(g, c) ensures e in Component(g, d) {
      var q :| Connects(g, q, c, e);
      ConnectsJoined(g, Reversed(p), q, d, c, e);
    }
    forall e | e in Component(g, d) ensures e in Component(g, c) {
      var q :| Connects(g, q, d, e);
      ConnectsJoined(g, p, q, c, d, e);
    }
  }

  // ----- a touch and its finger -----

  /** On a fill path that ends in a strong cell, every cell is strong: weak cells only lead
      to weaker ones. */
  lemma {:induction false} StrongBackwards(g: Grid, seed: Cell, p: seq<Cell>, k: nat)
    requires IsGrid(g) && Strong(g, seed) && Path(g, seed, p) && k < |p|
    requires Strong(g, p[|p| - 1])
    ensures Strong(g, p[k])
    decreases |p| - k
  {
    if k < |p| - 1 {
      StrongBackwards(g, seed, p, k + 1);
      assert EdgeAt(g, seed, p, k);
    }
  }

  /** The strong cells of a touch with a strong seed are exactly the seed's component:
      the fringe never claims a strong cell. */
  lemma {:induction false} TouchCore(g: Grid, seed: Cell, c: Cell)
    requires IsGrid(g) && Strong(g, seed) && Strong(g, c)
    ensures c in Touch(g, seed) <==> c in Component(g, seed)
  {
    if c in Touch(g, seed) {
      var p :| PathTo(g, seed, p, c);
      forall k | 0 <= k < |p| ensures Strong(g, p[k]) { StrongBackwards(g, seed, p, k); }
      forall k | 0 <= k < |p| - 1 ensures AdjacentAt(p, k) {
        assert EdgeAt(g, seed, p, k);
      }
      assert Connects(g, p, seed, c);
    }
    if c in Component(g, seed) {
      var p :| Connects(g, p, seed, c);
      forall k | 0 <= k < |p| - 1 ensures EdgeAt(g, seed, p, k) {
        assert Strong(g, p[k]) && Strong(g, p[k + 1]) && AdjacentAt(p, k);
      }
      assert PathTo(g, seed, p, c);
    }
  }

  // ----- counting representatives -----

  /** The labels of the cells of s; the counting below does not care what labels are. */
  ghost function Labels<L>(mark: map<Cell, L>, s: seq<Cell>): (r: set<L>)
    requires forall t :: 0 <= t < |s| ==> s[t] in mark
  {
    set t | 0 <= t < |s| :: mark[s[t]]
  }

  ghost function LabelsOf<L>(mark: map<Cell, L>, hot: set<Cell>): (r: set<L>)
    requires hot <= mark.Keys
  {
    set c | c in hot :: mark[c]
  }

  /** s holds one cell for each mark met among the first k cells, until it is full. */
  ghost predicate Cover<L>(mark: map<Cell, L>, hot: set<Cell>, s: seq<Cell>, k: nat) {
    && hot <= mark.Keys
    && (forall t :: 0 <= t < |s| ==> s[t] in hot)
    && |Labels(mark, s)| == |s| <= MAX_TOUCH
    && (|s| < MAX_TOUCH ==> forall i :: 0 <= i < k && CellAt(i) in hot ==> mark[CellAt(i)] in Labels(mark, s))
  }

  lemma {:induction false} LabelsAppend<L>(mark: map<Cell, L>, s: seq<Cell>, c: Cell)
    requires c in mark && forall t :: 0 <= t < |s| ==> s[t] in mark
    ensures Labels(mark, s + [c]) == Labels(mark, s) + {mark[c]}
  {
    var r := s + [c];
    assert r[|s|] == c;
    forall x | x in Labels(mark, s) ensures x in Labels(mark, r) {
      var t :| 0 <= t < |s| && mark[s[t]] == x;
      assert r[t] == s[t];
    }
  }

  lemma {:induction false} CoverStep<L>(mark: map<Cell, L>, hot: set<Cell>, s: seq<Cell>, s': seq<Cell>, k: nat)
    requires Cover(mark, hot, s, k)
    requires s' == if |s| < MAX_TOUCH && CellAt(k) in hot && mark[CellAt(k)] !in Labels(mark, s)
                   then s + [CellAt(k)] else s
    ensures Cover(mark, hot, s', k + 1)
  {
    if s' != s { LabelsAppend(mark, s, CellAt(k)); }
  }

  lemma {:induction false} CoverCounts<L>(mark: map<Cell, L>, hot: set<Cell>, s: seq<Cell>)
    requires hot <= Cells() && Cover(mark, hot, s, CELLS)
    ensures |s| == Min(MAX_TOUCH, |LabelsOf(mark, hot)|)
  {
    SubsetCardinality(Labels(mark, s), LabelsOf(mark, hot));
    if |s| < MAX_TOUCH {
      forall x | x in LabelsOf(mark, hot) ensures x in Labels(mark, s) {
        var c :| c in hot && mark[c] == x;
        assert CellAt(Index(c)) == c && 0 <= Index(c) < CELLS;
      }
      assert Labels(mark, s) == LabelsOf(mark, hot);
    }
  }

  // ----- one touch per finger -----

  ghost function Label(g: Grid): (mark: map<Cell, set<Cell>>)
    requires IsGrid(g)
    ensures mark.Keys == Cells()
    ensures forall c :: c in Cells() ==> mark[c] == Component(g, c)
  {
    map c | c in Cells() :: Component(g, c)
  }

  ghost function Hot(g: Grid, thresh: int): (s: set<Cell>)
    requires IsGrid(g)
    ensures s <= Cells()
    ensures forall c :: c in s <==> InGrid(c) && At(g, c) > thresh
  {
    set c | c in Cells() && At(g, c) > thresh
  }

  /** Cells of the same touch have the same mark, and conversely. */
  lemma {:induction false} ClaimedIffLabelSeen(g: Grid, s: seq<Cell>, c: Cell)
    requires IsGrid(g) && Strong(g, c)
    requires forall t :: 0 <= t < |s| ==> Strong(g, s[t]) && s[t] in Label(g)
    ensures Claimed(g, s, c) <==> Label(g)[c] in Labels(Label(g), s)
  {
    if Claimed(g, s, c) {
      var t :| 0 <= t < |s| && c in Touch(g, s[t]);
      SameComponent(g, s[t], c);
    }
    if Label(g)[c] in Labels(Label(g), s) {
      var t :| 0 <= t < |s| && Label(g)[s[t]] == Label(g)[c];
      SameComponent(g, s[t], c);
    }
  }

  lemma {:induction false} SameComponent(g: Grid, seed: Cell, c: Cell)
    requires IsGrid(g) && Strong(g, seed) && Strong(g, c)
    ensures c in Touch(g, seed) <==> Component(g, seed) == Component(g, c)
  {
    TouchCore(g, seed, c);
    ComponentSelf(g, c);
    if c in Touch(g, seed) { ComponentShared(g, seed, c); }
  }

  /** Every cell of this matrix that can start a touch is strong. */
  ghost predicate HotStrong(g: Grid, thresh: int)
    requires IsGrid(g)
  {
    forall c :: InGrid(c) && At(g, c) > thresh ==> Strong(g, c)
  }

  lemma {:induction false} SeedsCover(g: Grid, thresh: int, k: nat)
    requires IsGrid(g) && k <= CELLS && HotStrong(g, thresh)
    ensures Cover(Label(g), Hot(g, thresh), Seeds(g, thresh, k), k)
  {
    if k == 0 {
      assert Labels(Label(g), []) == {};
    } else {
      SeedsCover(g, thresh, k - 1);
      var s, c := Seeds(g, thresh, k - 1), CellAt(k - 1);
      if At(g, c) > thresh { ClaimedIffLabelSeen(g, s, c); }
      CoverStep(Label(g), Hot(g, thresh), s, WithSeed(g, thresh, s, c), k - 1);
    }
  }

  lemma {:induction false} FingersAreLabels(g: Grid, thresh: int)
    requires IsGrid(g) && HotStrong(g, thresh)
    ensures LabelsOf(Label(g), Hot(g, thresh)) == Fingers(g, thresh)
  {
    forall f | f in Fingers(g, thresh) ensures f in LabelsOf(Label(g), Hot(g, thresh)) {
      var c :| c in Cells() && Strong(g, c) && At(g, c) > thresh && Component(g, c) == f;
      assert c in Hot(g, thresh) && Label(g)[c] == f;
    }
    forall f | f in LabelsOf(Label(g), Hot(g, thresh)) ensures f in Fingers(g, thresh) {
      var c :| c in Hot(g, thresh) && Label(g)[c] == f;
      assert c in Cells() && Strong(g, c) && At(g, c) > thresh && Component(g, c) == f;
    }
  }

  /** One touch per finger, as long as every reading above the threshold is strong. */
  lemma {:induction false} OneTouchPerFinger(g: Grid, thresh: int)
    requires IsGrid(g) && HotStrong(g, thresh)
    ensures |Seeds(g, thresh, CELLS)| == Min(MAX_TOUCH, |Fingers(g, thresh)|)
  {
    SeedsCover(g, thresh, CELLS);
    CoverCounts(Label(g), Hot(g, thresh), Seeds(g, thresh, CELLS));
    FingersAreLabels(g, thresh);
  }

  /** Two different seeds have different components. */
  lemma {:induction false} SeedsDistinct(g: Grid, thresh: int, k: nat, t: nat, u: nat)
    requires IsGrid(g) && k <= CELLS && HotStrong(g, thresh)
    requires t < u < |Seeds(g, thresh, k)|
    ensures Component(g, Seeds(g, thresh, k)[t]) != Component(g, Seeds(g, thresh, k)[u])
  {
    var s, c := Seeds(g, thresh, k - 1), CellAt(k - 1);
    if u < |s| {
      SeedsDistinct(g, thresh, k - 1, t, u);
    } else {
      ClaimedIffLabelSeen(g, s, c);
      assert Label(g)[s[t]] in Labels(Label(g), s);
    }
  }

  lemma {:induction false} TouchesApart(g: Grid, thresh: int, k: nat, c: Cell, t: nat, u: nat)
    requires IsGrid(g) && k <= CELLS && HotStrong(g, thresh)
    requires t < u < |Seeds(g, thresh, k)| && Strong(g, c)
    ensures !(c in Touch(g, Seeds(g, thresh, k)[t]) && c in Touch(g, Seeds(g, thresh, k)[u]))
  {
    SeedsDistinct(g, thresh, k, t, u);
    SameComponent(g, Seeds(g, thresh, k)[t], c);
    SameComponent(g, Seeds(g, thresh, k)[u], c);
  }

  /** The cores of two touches do not meet, and each core keeps its touch's own mark. */
  lemma {:induction false} CoresDisjoint(g: Grid, thresh: int, k: nat, c: Cell, t: nat)
    requires IsGrid(g) && k <= CELLS && HotStrong(g, thresh)
    requires t < |Seeds(g, thresh, k)| && Strong(g, c)
    ensures c in Touch(g, Seeds(g, thresh, k)[t]) <==> Owner(g, Seeds(g, thresh, k), c) == t + 1
  {
    var s := Seeds(g, thresh, k);
    var u := Owner(g, s, c) - 1;
    if c in Touch(g, s[t]) {
      assert Claimed(g, s, c);
      if t < u { TouchesApart(g, thresh, k, c, t, u); }
      if u < t { TouchesApart(g, thresh, k, c, u, t); }
    }
  }

  lemma {:induction false} SeedsGrow(g: Grid, thresh: int, j: nat, k: nat)
    requires IsGrid(g) && j <= k <= CELLS
    ensures |Seeds(g, thresh, j)| <= |Seeds(g, thresh, k)|
    decreases k
  {
    if j < k { SeedsGrow(g, thresh, j, k - 1); }
  }

  /** The matrix of a single reading just under the strong level. */
  ghost function WeakSpot(): (g: Grid)
    ensures IsGrid(g)
    ensures forall c :: InGrid(c) ==> At(g, c) == if c == (0, 0) then LARGE_AREA_UNPRESS - 1 else 0
  {
    seq(X_AXIS_POINTS, i => seq(Y_AXIS_POINTS, j => if i == 0 && j == 0 then LARGE_AREA_UNPRESS - 1 else 0))
  }

  /** With a lower threshold, as in stylus mode, a single reading just under the strong
      level is a touch although it is part of no finger. */
  lemma {:induction false} WeakSeedMiscounted(thresh: int)
    requires thresh + 1 < LARGE_AREA_UNPRESS
    ensures |Fingers(WeakSpot(), thresh)| == 0 < |Seeds(WeakSpot(), thresh, CELLS)|
  {
    var g := WeakSpot();
    assert Fingers(g, thresh) == {};
    assert CellAt(0) == (0, 0) && Seeds(g, thresh, 0) == [];
    assert Seeds(g, thresh, 1) == WithSeed(g, thresh, [], (0, 0)) == [(0, 0)];
    SeedsGrow(g, thresh, 1, CELLS);
  }

  /** The scan counts fingers, whatever is on the digitizer, exactly when no weak cell can
      start a touch. */
  lemma {:induction false} CountsFingersIff(thresh: int)
    ensures (forall g :: IsGrid(g) ==> |Seeds(g, thresh, CELLS)| == Min(MAX_TOUCH, |Fingers(g, thresh)|))
            <==> thresh + 1 >= LARGE_AREA_UNPRESS
  {
    if thresh + 1 >= LARGE_AREA_UNPRESS {
      forall g | IsGrid(g) ensures |Seeds(g, thresh, CELLS)| == Min(MAX_TOUCH, |Fingers(g, thresh)|) {
        assert HotStrong(g, thresh);
        OneTouchPerFinger(g, thresh);
      }
    } else {
      WeakSeedMiscounted(thresh);
    }
  }
}

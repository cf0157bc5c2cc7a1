/**
 The two-threshold flood fill of the touchscreen server (touchscreen_drv/ts_srv.c,
 determine_area_loc and determine_area_loc_fringe) and the reachability relation it
 computes on the digitizer matrix.
 */
module TouchFill {
  import opened Shared

  const X_AXIS_POINTS := 30
  const Y_AXIS_POINTS := 40
  const LARGE_AREA_UNPRESS := 22
  const LARGE_AREA_FRINGE := 5

  type Grid = seq<seq<int>>
  type Cell = (int, int)

  // ----- the digitizer matrix as a graph -----

  predicate InGrid(c: Cell) {
    0 <= c.0 < X_AXIS_POINTS && 0 <= c.1 < Y_AXIS_POINTS
  }

  ghost function Cells(): (s: set<Cell>)
    ensures forall c :: c in s <==> InGrid(c)
  {
    set i, j | 0 <= i < X_AXIS_POINTS && 0 <= j < Y_AXIS_POINTS :: (i, j)
  }

  ghost predicate IsGrid(g: Grid) {
    |g| == X_AXIS_POINTS && forall i :: 0 <= i < X_AXIS_POINTS ==> |g[i]| == Y_AXIS_POINTS
  }

  function At(g: Grid, c: Cell): int
    requires IsGrid(g) && InGrid(c)
  {
    g[c.0][c.1]
  }

  ghost predicate Adjacent(c: Cell, d: Cell) {
    InGrid(c) && InGrid(d) && c != d && -1 <= d.0 - c.0 <= 1 && -1 <= d.1 - c.1 <= 1
  }

  /** Cells from which the strong fill continues: the seed, and every cell at or above the
      upper threshold. */
  ghost predicate Core(g: Grid, seed: Cell, c: Cell)
    requires IsGrid(g)
  {
    InGrid(c) && (c == seed || At(g, c) >= LARGE_AREA_UNPRESS)
  }

  /** One step of the fill: from a core cell to any strong neighbour, and from any cell
      down to a weaker neighbour that is still above the fringe threshold. */
  ghost predicate Edge(g: Grid, seed: Cell, c: Cell, d: Cell)
    requires IsGrid(g)
  {
    && Adjacent(c, d)
    && ((Core(g, seed, c) && At(g, d) >= LARGE_AREA_UNPRESS)
        || (LARGE_AREA_FRINGE <= At(g, d) < At(g, c)))
  }

  ghost predicate Path(g: Grid, seed: Cell, p: seq<Cell>)
    requires IsGrid(g)
  {
    |p| > 0 && p[0] == seed && forall k :: 0 <= k < |p| - 1 ==> EdgeAt(g, seed, p, k)
  }

  /** Step k of a path; named so that instantiating one step does not produce the next. */
  ghost predicate EdgeAt(g: Grid, seed: Cell, p: seq<Cell>, k: nat)
    requires IsGrid(g) && k < |p| - 1
  {
    Edge(g, seed, p[k], p[k + 1])
  }

  ghost predicate Reach(g: Grid, seed: Cell, c: Cell)
    requires IsGrid(g)
  {
    exists p :: PathTo(g, seed, p, c)
  }

  ghost predicate PathTo(g: Grid, seed: Cell, p: seq<Cell>, c: Cell)
    requires IsGrid(g)
  {
    Path(g, seed, p) && p[|p| - 1] == c
  }

  /** The cells of the touch that starts at the seed. */
  ghost function Touch(g: Grid, seed: Cell): (s: set<Cell>)
    requires IsGrid(g)
  {
    set c | c in Cells() && Reach(g, seed, c)
  }

  lemma {:induction false} ReachSelf(g: Grid, seed: Cell)
    requires IsGrid(g)
    ensures Reach(g, seed, seed)
  {
    assert PathTo(g, seed, [seed], seed);
  }

  lemma {:induction false} ReachStep(g: Grid, seed: Cell, c: Cell, d: Cell)
    requires IsGrid(g) && Reach(g, seed, c) && Edge(g, seed, c, d)
    ensures Reach(g, seed, d)
  {
    var p :| PathTo(g, seed, p, c);
    var q := p + [d];
    forall k | 0 <= k < |q| - 1 ensures EdgeAt(g, seed, q, k) {
      if k < |p| - 1 { assert EdgeAt(g, seed, p, k); }
    }
    assert PathTo(g, seed, q, d);
  }

  ghost predicate ClosedUnderEdges(g: Grid, seed: Cell, m: set<Cell>)
    requires IsGrid(g)
  {
    forall c, d :: c in m && Edge(g, seed, c, d) ==> d in m
  }

  lemma {:induction false} PathStaysInside(g: Grid, seed: Cell, m: set<Cell>, p: seq<Cell>, k: nat)
    requires IsGrid(g) && ClosedUnderEdges(g, seed, m) && seed in m
    requires Path(g, seed, p) && k < |p|
    ensures p[k] in m
  {
    if k > 0 {
      PathStaysInside(g, seed, m, p, k - 1);
      assert EdgeAt(g, seed, p, k - 1);
    }
  }

  /** A closed set of reachable cells around the seed is the whole touch. */
  lemma {:induction false} ClosedIsTouch(g: Grid, seed: Cell, m: set<Cell>)
    requires IsGrid(g) && m <= Cells() && seed in m && ClosedUnderEdges(g, seed, m)
    requires forall c :: c in m ==> Reach(g, seed, c)
    ensures m == Touch(g, seed)
  {
    forall c | c in Touch(g, seed) ensures c in m {
      var p :| PathTo(g, seed, p, c);
      PathStaysInside(g, seed, m, p, |p| - 1);
    }
  }

  // ----- what a touch measures -----

  /** The quantities the fill sums up over a touch; the weight is an integer in the source,
      so each addition to it loses its fraction. */
  datatype Measure = Weight | RowMoment | ColumnMoment

  function Term(g: Grid, w: int -> real, kind: Measure, c: Cell): real
    requires IsGrid(g) && InGrid(c)
  {
    match kind
    case Weight => w(At(g, c)).Floor as real
    case RowMoment => Moment(w(At(g, c)), c.0)
    case ColumnMoment => Moment(w(At(g, c)), c.1)
  }

  function Moment(powered: real, i: int): real { powered * i as real }

  function CellAt(k: int): Cell { (k / Y_AXIS_POINTS, k % Y_AXIS_POINTS) }

  function Index(c: Cell): int { c.0 * Y_AXIS_POINTS + c.1 }

  /** The sum over the cells of m among the first k in row order. */
  ghost function Total(g: Grid, w: int -> real, kind: Measure, m: set<Cell>, k: nat): real
    requires IsGrid(g) && k <= X_AXIS_POINTS * Y_AXIS_POINTS
    decreases k, g
  {
    if k == 0 then 0.0 else
      (var rest := Total(g, w, kind, m, k - 1);
       if CellAt(k - 1) in m then rest + Term(g, w, kind, CellAt(k - 1)) else rest)
  }

  ghost function Sum(g: Grid, w: int -> real, kind: Measure, m: set<Cell>): real
    requires IsGrid(g)
  {
    Total(g, w, kind, m, X_AXIS_POINTS * Y_AXIS_POINTS)
  }

  lemma {:induction false} TotalEmpty(g: Grid, w: int -> real, kind: Measure, k: nat)
    requires IsGrid(g) && k <= X_AXIS_POINTS * Y_AXIS_POINTS
    ensures Total(g, w, kind, {}, k) == 0.0
  {
    if k > 0 { TotalEmpty(g, w, kind, k - 1); }
  }

  lemma {:induction false} TotalAdd(g: Grid, w: int -> real, kind: Measure, m: set<Cell>, c: Cell, k: nat)
    requires IsGrid(g) && InGrid(c) && c !in m && k <= X_AXIS_POINTS * Y_AXIS_POINTS
    ensures Total(g, w, kind, m + {c}, k)
         == Total(g, w, kind, m, k) + (if Index(c) < k then Term(g, w, kind, c) else 0.0)
  {
    if k > 0 {
      TotalAdd(g, w, kind, m, c, k - 1);
      assert CellAt(k - 1) == c <==> Index(c) == k - 1;
    }
  }

  lemma {:induction false} SumAdd(g: Grid, w: int -> real, kind: Measure, m: set<Cell>, c: Cell)
    requires IsGrid(g) && InGrid(c) && c !in m
    ensures Sum(g, w, kind, m + {c}) == Sum(g, w, kind, m) + Term(g, w, kind, c)
  {
    TotalAdd(g, w, kind, m, c, X_AXIS_POINTS * Y_AXIS_POINTS);
  }

  /** The largest value, and the bounding box, of the core of a touch. */
  ghost predicate IsHighest(g: Grid, seed: Cell, m: set<Cell>, v: int)
    requires IsGrid(g)
  {
    && (exists c :: c in m && Core(g, seed, c) && At(g, c) == v)
    && (forall c :: c in m && Core(g, seed, c) ==> At(g, c) <= v)
  }

  ghost predicate IsBox(g: Grid, seed: Cell, m: set<Cell>, mini: int, maxi: int, minj: int, maxj: int)
    requires IsGrid(g)
  {
    && (exists c :: c in m && Core(g, seed, c) && c.0 == mini)
    && (exists c :: c in m && Core(g, seed, c) && c.0 == maxi)
    && (exists c :: c in m && Core(g, seed, c) && c.1 == minj)
    && (exists c :: c in m && Core(g, seed, c) && c.1 == maxj)
    && (forall c :: c in m && Core(g, seed, c) ==> mini <= c.0 <= maxi && minj <= c.1 <= maxj)
  }

  // ----- the fill -----

  ghost predicate Holds(a: array2<int>, g: Grid)
    reads a
  {
    && a.Length0 == X_AXIS_POINTS && a.Length1 == Y_AXIS_POINTS && IsGrid(g)
    && forall i, j :: 0 <= i < X_AXIS_POINTS && 0 <= j < Y_AXIS_POINTS ==> a[i, j] == g[i][j]
  }

  /** The scan marks: the given id on the cells of m, what was there before elsewhere. */
  ghost predicate Painted(a: array2<int>, before: Grid, m: set<Cell>, id: int)
    reads a
  {
    && a.Length0 == X_AXIS_POINTS && a.Length1 == Y_AXIS_POINTS && IsGrid(before) && m <= Cells()
    && forall i, j :: 0 <= i < X_AXIS_POINTS && 0 <= j < Y_AXIS_POINTS ==>
      a[i, j] == (if (i, j) in m then id else before[i][j])
  }

  ghost predicate Unused(g: Grid, id: int) {
    IsGrid(g) && forall i, j :: 0 <= i < X_AXIS_POINTS && 0 <= j < Y_AXIS_POINTS ==> g[i][j] != id
  }

  /** The sums and extremes that the recursion updates through its pointer arguments. */
  class Area {
    var isum: real
    var jsum: real
    var tweight: int
    var mini: int
    var maxi: int
    var minj: int
    var maxj: int
    var highest: int

    constructor (i: int, j: int, v: int)
      ensures isum == 0.0 && jsum == 0.0 && tweight == 0
      ensures mini == i && maxi == i && minj == j && maxj == j && highest == v
    {
      isum, jsum, tweight := 0.0, 0.0, 0;
      mini, maxi, minj, maxj, highest := i, i, j, j, v;
    }

    /** Widens the box and the largest value. */
    method Extend(i: int, j: int, v: int)
      modifies `mini, `maxi, `minj, `maxj, `highest
      ensures mini == Min(old(mini), i) && maxi == Max(old(maxi), i)
      ensures minj == Min(old(minj), j) && maxj == Max(old(maxj), j)
      ensures highest == Max(old(highest), v)
    {
      if i < mini { mini := i; }
      if i > maxi { maxi := i; }
      if j < minj { minj := j; }
      if j > maxj { maxj := j; }
      if v > highest { highest := v; }
    }

    ghost predicate Sums(g: Grid, w: int -> real, m: set<Cell>)
      reads this
      requires IsGrid(g)
    {
      && tweight as real == Sum(g, w, Weight, m)
      && isum == Sum(g, w, RowMoment, m)
      && jsum == Sum(g, w, ColumnMoment, m)
    }

    ghost predicate Extremes(g: Grid, seed: Cell, m: set<Cell>)
      reads this
      requires IsGrid(g)
    {
      && IsHighest(g, seed, m + {seed}, highest)
      && IsBox(g, seed, m + {seed}, mini, maxi, minj, maxj)
    }
  }

  /** The source's order of the eight neighbours. */
  function Neighbour(c: Cell, k: nat): Cell
    requires k < 8
  {
    var (i, j) := c;
    match k
    case 0 => (i - 1, j)
    case 1 => (i + 1, j)
    case 2 => (i, j - 1)
    case 3 => (i, j + 1)
    case 4 => (i - 1, j - 1)
    case 5 => (i + 1, j - 1)
    case 6 => (i - 1, j + 1)
    case _ => (i + 1, j + 1)
  }

  lemma {:induction false} EightNeighbours(c: Cell, d: Cell) returns (k: nat)
    requires Adjacent(c, d)
    ensures k < 8 && Neighbour(c, k) == d
  {
    k := if d.0 < c.0 then (if d.1 < c.1 then 4 else if d.1 == c.1 then 0 else 6)
         else if d.0 == c.0 then (if d.1 < c.1 then 2 else 3)
         else (if d.1 < c.1 then 5 else if d.1 == c.1 then 1 else 7);
  }

  /** A visit to c that started with the cells m0 marked and has dealt with c's first k
      neighbours. */
  ghost predicate Visiting(g: Grid, seed: Cell, m0: set<Cell>, m: set<Cell>, c: Cell, k: nat)
    requires IsGrid(g) && k <= 8
  {
    && InGrid(c) && c in m && c !in m0 && m0 <= m <= Cells()
    && (forall x :: x in m && x !in m0 ==> Reach(g, seed, x))
    && (forall x, y :: x in m && x !in m0 && x != c && Edge(g, seed, x, y) ==> y in m)
    && (forall t :: 0 <= t < k && Edge(g, seed, c, Neighbour(c, t)) ==> Neighbour(c, t) in m)
  }

  /** A finished visit: everything newly marked has all its successors marked. */
  ghost predicate Visited(g: Grid, seed: Cell, m0: set<Cell>, m: set<Cell>, c: Cell)
    requires IsGrid(g)
  {
    && c in m && m0 <= m <= Cells()
    && (forall x :: x in m && x !in m0 ==> Reach(g, seed, x))
    && (forall x, y :: x in m && x !in m0 && Edge(g, seed, x, y) ==> y in m)
  }

  lemma {:induction false} VisitStarts(g: Grid, seed: Cell, m0: set<Cell>, c: Cell)
    requires IsGrid(g) && m0 <= Cells() && InGrid(c) && c !in m0 && Reach(g, seed, c)
    ensures Visiting(g, seed, m0, m0 + {c}, c, 0)
  {
  }

  lemma {:induction false} VisitEnds(g: Grid, seed: Cell, m0: set<Cell>, m: set<Cell>, c: Cell)
    requires IsGrid(g) && Visiting(g, seed, m0, m, c, 8)
    ensures Visited(g, seed, m0, m, c)
  {
    forall y | Edge(g, seed, c, y) ensures y in m {
      var k := EightNeighbours(c, y);
      assert Neighbour(c, k) == y;
    }
  }

  /** A finished visit to neighbour k carries the visit to c one neighbour further. */
  lemma {:induction false} VisitContinues(g: Grid, seed: Cell, m0: set<Cell>, m: set<Cell>, m': set<Cell>, c: Cell,
                                          k: nat)
    requires IsGrid(g) && k < 8 && Visiting(g, seed, m0, m, c, k)
    requires Visited(g, seed, m, m', Neighbour(c, k))
    ensures Visiting(g, seed, m0, m', c, k + 1)
  {
    forall x, y | x in m' && x !in m0 && x != c && Edge(g, seed, x, y) ensures y in m' {
      if x in m { assert y in m; }
    }
    forall t | 0 <= t < k + 1 && Edge(g, seed, c, Neighbour(c, t)) ensures Neighbour(c, t) in m' {
      if t < k { assert Neighbour(c, t) in m; }
    }
  }

  lemma {:induction false} VisitSkips(g: Grid, seed: Cell, m0: set<Cell>, m: set<Cell>, c: Cell, k: nat)
    requires IsGrid(g) && k < 8 && Visiting(g, seed, m0, m, c, k)
    requires Edge(g, seed, c, Neighbour(c, k)) ==> Neighbour(c, k) in m
    ensures Visiting(g, seed, m0, m, c, k + 1)
  {
    forall t | 0 <= t < k + 1 && Edge(g, seed, c, Neighbour(c, t)) ensures Neighbour(c, t) in m {
      if t < k { assert Neighbour(c, t) in m; }
    }
  }

  /** The termination measure: every call marks one more cell. */
  ghost function Unmarked(m: set<Cell>): nat { |Cells() - m| }

  lemma {:induction false} SubsetCardinality<T>(a: set<T>, b: set<T>)
    requires a <= b
    ensures |a| <= |b|
  {
    assert b == a + (b - a);
  }

  lemma {:induction false} MarksMore(m: set<Cell>, m': set<Cell>)
    requires m <= m'
    ensures Unmarked(m') <= Unmarked(m)
  {
    SubsetCardinality(Cells() - m', Cells() - m);
  }

  lemma {:induction false} MarksOneMore(m: set<Cell>, c: Cell)
    requires InGrid(c) && c !in m
    ensures Unmarked(m + {c}) < Unmarked(m)
  {
    assert Cells() - m == (Cells() - (m + {c})) + {c};
  }

  ghost predicate FillState(matrix: array2<int>, invalid: array2<int>, area: Area, id: int,
                            g: Grid, w: int -> real, before: Grid, seed: Cell, m: set<Cell>)
    reads matrix, invalid, area
  {
    && matrix != invalid && Holds(matrix, g) && Painted(invalid, before, m, id) && Unused(before, id)
    && InGrid(seed) && area.Sums(g, w, m) && area.Extremes(g, seed, m)
  }

  lemma {:induction false} FloorUnique(x: real, n: int)
    requires n as real <= x < n as real + 1.0
    ensures x.Floor == n
  {
  }

  /** Adding a real to an integer total and truncating adds the truncated real. */
  lemma {:induction false} FloorAdd(t: int, p: real)
    ensures (t as real + p).Floor == t + p.Floor
  {
    var k := p.Floor;
    assert (t + k) as real == t as real + k as real;
    FloorUnique(t as real + p, t + k);
  }

  /** Marks the cell and adds it to the sums: the opening lines of both fills. */
  method Mark(matrix: array2<int>, invalid: array2<int>, area: Area, i: int, j: int, id: int,
              ghost g: Grid, w: int -> real, ghost before: Grid, ghost m0: set<Cell>)
    requires matrix != invalid && Holds(matrix, g) && Painted(invalid, before, m0, id)
    requires InGrid((i, j)) && (i, j) !in m0 && area.Sums(g, w, m0)
    modifies invalid, area`isum, area`jsum, area`tweight
    ensures Painted(invalid, before, m0 + {(i, j)}, id)
    ensures area.Sums(g, w, m0 + {(i, j)})
  {
    invalid[i, j] := id;
    var powered := w(matrix[i, j]);
    FloorAdd(area.tweight, powered);
    area.tweight := (area.tweight as real + powered).Floor;
    area.isum := area.isum + Moment(powered, i);
    area.jsum := area.jsum + Moment(powered, j);
    SumAdd(g, w, Weight, m0, (i, j));
    SumAdd(g, w, RowMoment, m0, (i, j));
    SumAdd(g, w, ColumnMoment, m0, (i, j));
  }

  /** Extremes only depend on the core cells. */
  lemma {:induction false} ExtremesNoCore(area: Area, g: Grid, seed: Cell, m: set<Cell>, m': set<Cell>)
    requires IsGrid(g) && m <= m' && area.Extremes(g, seed, m)
    requires forall c :: c in m' && c !in m ==> !Core(g, seed, c)
    ensures area.Extremes(g, seed, m')
  {
  }

  method MarkFringe(matrix: array2<int>, invalid: array2<int>, area: Area, i: int, j: int, id: int,
                    ghost g: Grid, w: int -> real, ghost before: Grid, ghost seed: Cell, ghost m0: set<Cell>)
    requires FillState(matrix, invalid, area, id, g, w, before, seed, m0)
    requires InGrid((i, j)) && (i, j) !in m0 && !Core(g, seed, (i, j))
    modifies invalid, area
    ensures FillState(matrix, invalid, area, id, g, w, before, seed, m0 + {(i, j)})
  {
    Mark(matrix, invalid, area, i, j, id, g, w, before, m0);
    ExtremesNoCore(area, g, seed, m0, m0 + {(i, j)});
  }

  function Max(a: int, b: int): int { if b > a then b else a }

  lemma {:induction false} HighestAdd(g: Grid, seed: Cell, m: set<Cell>, c: Cell, v: int)
    requires IsGrid(g) && Core(g, seed, c) && IsHighest(g, seed, m + {seed}, v)
    ensures IsHighest(g, seed, m + {c} + {seed}, Max(v, At(g, c)))
  {
    var s, s' := m + {seed}, m + {c} + {seed};
    var h :| h in s && Core(g, seed, h) && At(g, h) == v;
    assert h in s' && c in s';
  }

  lemma {:induction false} BoxAdd(g: Grid, seed: Cell, m: set<Cell>, c: Cell, mini: int, maxi: int, minj: int,
                                  maxj: int)
    requires IsGrid(g) && Core(g, seed, c) && IsBox(g, seed, m + {seed}, mini, maxi, minj, maxj)
    ensures IsBox(g, seed, m + {c} + {seed}, Min(mini, c.0), Max(maxi, c.0), Min(minj, c.1), Max(maxj, c.1))
  {
    var s, s' := m + {seed}, m + {c} + {seed};
    assert c in s' && forall x :: x in s ==> x in s';
  }

  method ExtendCore(area: Area, i: int, j: int, v: int, ghost g: Grid, ghost seed: Cell, ghost m0: set<Cell>)
    requires IsGrid(g) && Core(g, seed, (i, j)) && v == At(g, (i, j)) && area.Extremes(g, seed, m0)
    modifies area`mini, area`maxi, area`minj, area`maxj, area`highest
    ensures area.Extremes(g, seed, m0 + {(i, j)})
  {
    HighestAdd(g, seed, m0, (i, j), area.highest);
    BoxAdd(g, seed, m0, (i, j), area.mini, area.maxi, area.minj, area.maxj);
    area.Extend(i, j, v);
  }

  method MarkCore(matrix: array2<int>, invalid: array2<int>, area: Area, i: int, j: int, id: int,
                  ghost g: Grid, w: int -> real, ghost before: Grid, ghost seed: Cell, ghost m0: set<Cell>)
    requires FillState(matrix, invalid, area, id, g, w, before, seed, m0)
    requires InGrid((i, j)) && (i, j) !in m0 && Core(g, seed, (i, j))
    modifies invalid, area
    ensures FillState(matrix, invalid, area, id, g, w, before, seed, m0 + {(i, j)})
  {
    Mark(matrix, invalid, area, i, j, id, g, w, before, m0);
    ExtendCore(area, i, j, matrix[i, j], g, seed, m0);
  }

  /** The weak fill: only ever downhill. The source spells the eight tests out one by one,
      in this order. */
  method DetermineAreaLocFringe(matrix: array2<int>, invalid: array2<int>, area: Area, i: int, j: int, id: int,
                                ghost g: Grid, w: int -> real, ghost before: Grid, ghost seed: Cell,
                                    ghost m0: set<Cell>)
    returns (ghost m: set<Cell>)
    requires FillState(matrix, invalid, area, id, g, w, before, seed, m0)
    requires InGrid((i, j)) && (i, j) !in m0 && Reach(g, seed, (i, j))
    requires seed in m0 && !Core(g, seed, (i, j))
    modifies invalid, area
    ensures FillState(matrix, invalid, area, id, g, w, before, seed, m)
    ensures Visited(g, seed, m0, m, (i, j))
    decreases Unmarked(m0), 0
  {
    MarkFringe(matrix, invalid, area, i, j, id, g, w, before, seed, m0);
    m := m0 + {(i, j)};
    MarksOneMore(m0, (i, j));
    VisitStarts(g, seed, m0, (i, j));
    for k := 0 to 8
      invariant FillState(matrix, invalid, area, id, g, w, before, seed, m)
      invariant seed in m && Visiting(g, seed, m0, m, (i, j), k)
      invariant Unmarked(m) < Unmarked(m0)
    {
      m := FringeNeighbour(matrix, invalid, area, i, j, k, id, g, w, before, seed, m0, m);
    }
    VisitEnds(g, seed, m0, m, (i, j));
  }

  /** The weak fill's test of one neighbour. */
  method FringeNeighbour(matrix: array2<int>, invalid: array2<int>, area: Area, i: int, j: int, k: nat, id: int,
                         ghost g: Grid, w: int -> real, ghost before: Grid, ghost seed: Cell,
                         ghost m0: set<Cell>, ghost m: set<Cell>)
    returns (ghost m': set<Cell>)
    requires k < 8
    requires FillState(matrix, invalid, area, id, g, w, before, seed, m)
    requires seed in m && !Core(g, seed, (i, j)) && Visiting(g, seed, m0, m, (i, j), k)
    modifies invalid, area
    ensures FillState(matrix, invalid, area, id, g, w, before, seed, m')
    ensures m <= m' && Visiting(g, seed, m0, m', (i, j), k + 1)
    ensures Unmarked(m') <= Unmarked(m)
    decreases Unmarked(m), 1
  {
    m' := m;
    var n := Neighbour((i, j), k);
    if InGrid(n) && invalid[n.0, n.1] != id {
      if matrix[n.0, n.1] >= LARGE_AREA_FRINGE && matrix[n.0, n.1] < matrix[i, j] {
        ReachStep(g, seed, (i, j), n);
        m' := DetermineAreaLocFringe(matrix, invalid, area, n.0, n.1, id, g, w, before, seed, m);
        VisitContinues(g, seed, m0, m, m', (i, j), k);
        MarksMore(m, m');
        return;
      }
    }
    VisitSkips(g, seed, m0, m, (i, j), k);
  }

  /** The strong fill. On return the cells carrying the id are the ones it was called with
      and everything newly reached, closed under the steps of the fill. */
  method DetermineAreaLoc(matrix: array2<int>, invalid: array2<int>, area: Area, i: int, j: int, id: int,
                          ghost g: Grid, w: int -> real, ghost before: Grid, ghost seed: Cell, ghost m0: set<Cell>)
    returns (ghost m: set<Cell>)
    requires FillState(matrix, invalid, area, id, g, w, before, seed, m0)
    requires InGrid((i, j)) && (i, j) !in m0 && Reach(g, seed, (i, j))
    requires (seed in m0 || seed == (i, j)) && Core(g, seed, (i, j))
    modifies invalid, area
    ensures FillState(matrix, invalid, area, id, g, w, before, seed, m)
    ensures Visited(g, seed, m0, m, (i, j))
    decreases Unmarked(m0), 0
  {
    MarkCore(matrix, invalid, area, i, j, id, g, w, before, seed, m0);
    m := m0 + {(i, j)};
    MarksOneMore(m0, (i, j));
    VisitStarts(g, seed, m0, (i, j));
    for k := 0 to 8
      invariant FillState(matrix, invalid, area, id, g, w, before, seed, m)
      invariant seed in m && Visiting(g, seed, m0, m, (i, j), k)
      invariant Unmarked(m) < Unmarked(m0)
    {
      m := CoreNeighbour(matrix, invalid, area, i, j, k, id, g, w, before, seed, m0, m);
    }
    VisitEnds(g, seed, m0, m, (i, j));
  }

  /** The strong fill's test of one neighbour. */
  method CoreNeighbour(matrix: array2<int>, invalid: array2<int>, area: Area, i: int, j: int, k: nat, id: int,
                       ghost g: Grid, w: int -> real, ghost before: Grid, ghost seed: Cell,
                       ghost m0: set<Cell>, ghost m: set<Cell>)
    returns (ghost m': set<Cell>)
    requires k < 8
    requires FillState(matrix, invalid, area, id, g, w, before, seed, m)
    requires seed in m && Core(g, seed, (i, j)) && Visiting(g, seed, m0, m, (i, j), k)
    modifies invalid, area
    ensures FillState(matrix, invalid, area, id, g, w, before, seed, m')
    ensures m <= m' && Visiting(g, seed, m0, m', (i, j), k + 1)
    ensures Unmarked(m') <= Unmarked(m)
    decreases Unmarked(m), 1
  {
    m' := m;
    var n := Neighbour((i, j), k);
    if InGrid(n) && invalid[n.0, n.1] != id {
      if matrix[n.0, n.1] >= LARGE_AREA_UNPRESS {
        ReachStep(g, seed, (i, j), n);
        m' := DetermineAreaLoc(matrix, invalid, area, n.0, n.1, id, g, w, before, seed, m);
        VisitContinues(g, seed, m0, m, m', (i, j), k);
        MarksMore(m, m');
        return;
      } else if matrix[n.0, n.1] >= LARGE_AREA_FRINGE && matrix[n.0, n.1] < matrix[i, j] {
        ReachStep(g, seed, (i, j), n);
        m' := DetermineAreaLocFringe(matrix, invalid, area, n.0, n.1, id, g, w, before, seed, m);
        VisitContinues(g, seed, m0, m, m', (i, j), k);
        MarksMore(m, m');
        return;
      }
    }
    VisitSkips(g, seed, m0, m, (i, j), k);
  }

  lemma {:induction false} EmptyArea(area: Area, g: Grid, w: int -> real, seed: Cell)
    requires IsGrid(g) && InGrid(seed) && area.isum == 0.0 && area.jsum == 0.0 && area.tweight == 0
    requires area.mini == area.maxi == seed.0 && area.minj == area.maxj == seed.1 && area.highest == At(g, seed)
    ensures area.Sums(g, w, {}) && area.Extremes(g, seed, {})
  {
    TotalEmpty(g, w, Weight, X_AXIS_POINTS * Y_AXIS_POINTS);
    TotalEmpty(g, w, RowMoment, X_AXIS_POINTS * Y_AXIS_POINTS);
    TotalEmpty(g, w, ColumnMoment, X_AXIS_POINTS * Y_AXIS_POINTS);
    assert seed in {} + {seed};
  }

  lemma {:induction false} VisitedIsTouch(g: Grid, seed: Cell, m: set<Cell>)
    requires IsGrid(g) && Visited(g, seed, {}, m, seed)
    ensures m == Touch(g, seed) && m + {seed} == m
  {
    ClosedIsTouch(g, seed, m);
  }

  /** The fill started by the scan: afterwards the cells carrying the id are exactly those
      reachable from (i, j), and the area measures them. */
  method FillArea(matrix: array2<int>, invalid: array2<int>, i: int, j: int, id: int, w: int -> real, ghost g: Grid,
                  ghost before: Grid)
    returns (area: Area)
    requires matrix != invalid && Holds(matrix, g) && Painted(invalid, before, {}, id) && Unused(before, id)
    requires InGrid((i, j))
    modifies invalid
    ensures fresh(area)
    ensures Painted(invalid, before, Touch(g, (i, j)), id)
    ensures area.Sums(g, w, Touch(g, (i, j)))
    ensures IsHighest(g, (i, j), Touch(g, (i, j)), area.highest)
    ensures IsBox(g, (i, j), Touch(g, (i, j)), area.mini, area.maxi, area.minj, area.maxj)
  {
    area := new Area(i, j, matrix[i, j]);
    EmptyArea(area, g, w, (i, j));
    ReachSelf(g, (i, j));
    ghost var m := DetermineAreaLoc(matrix, invalid, area, i, j, id, g, w, before, (i, j), {});
    VisitedIsTouch(g, (i, j), m);
  }
}

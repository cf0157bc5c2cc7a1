/**
 The byte stream of the touchscreen (touchscreen_drv/ts_srv.c, cline_valid, put_byte,
 consume_line and snarf2): how frames are cut out of it, how it recovers from aborted
 frames, and what a sequence of frames means.
 */
module TouchFraming {
  import opened Shared
  import opened TouchFill

  const LINE_SIZE := 64
  const START := 0xFF
  const ROW_FRAME := 0x43
  const END_FRAME := 0x47
  const ROW_FRAME_SIZE := 44

  type Byte = b: int | 0 <= b < 256

  /** The line being collected, the digitizer matrix, and the matrices handed on so far. */
  datatype Wire = Wire(line: seq<Byte>, matrix: Grid, frames: seq<Grid>)

  // ----- the automaton -----

  /** The line is a whole frame, or is short of one by `extras` bytes. */
  predicate LineValid(line: seq<Byte>, extras: nat) {
    || (|line| == ROW_FRAME_SIZE - extras && |line| > 1 && line[0] == START && line[1] == ROW_FRAME)
    || (|line| > 4 && line[0] == START && line[1] == END_FRAME && |line| == line[2] + 4 - extras)
  }

  function PutByte(line: seq<Byte>, b: Byte): (r: seq<Byte>) {
    if |line| == 0 && b != START then line
    else if b == START && !LineValid(line, 1) then [b]
    else line + [b]
  }

  function RowOf(control: Byte): (r: nat) { control % 32 }

  function Blank(): (g: Grid)
    ensures IsGrid(g) && forall c :: InGrid(c) ==> At(g, c) == 0
  {
    seq(X_AXIS_POINTS, _ => seq(Y_AXIS_POINTS, _ => 0))
  }

  /** A row frame: the start flag blanks the matrix before the row is written. */
  function WriteRow(g: Grid, control: Byte, data: seq<Byte>): (r: Grid)
    requires IsGrid(g) && RowOf(control) < X_AXIS_POINTS && |data| == Y_AXIS_POINTS
    ensures IsGrid(r)
  {
    (if control >= 0x80 then Blank() else g)[RowOf(control) := data]
  }

  /** The accesses that the source leaves unchecked stay inside their arrays. */
  predicate LineSafe(line: seq<Byte>) {
    |line| <= LINE_SIZE && (LineValid(line, 0) && line[1] == ROW_FRAME ==> RowOf(line[2]) < X_AXIS_POINTS)
  }

  function Consume(w: Wire): (r: Wire)
    requires IsGrid(w.matrix) && LineValid(w.line, 0) && LineSafe(w.line)
    ensures IsGrid(r.matrix) && r.line == []
  {
    if w.line[1] == END_FRAME then Wire([], w.matrix, w.frames + [w.matrix])
    else Wire([], WriteRow(w.matrix, w.line[2], w.line[3..3 + Y_AXIS_POINTS]), w.frames)
  }

  predicate ByteSafe(w: Wire, b: Byte) { LineSafe(PutByte(w.line, b)) }

  function FeedByte(w: Wire, b: Byte): (r: Wire)
    requires IsGrid(w.matrix) && ByteSafe(w, b)
    ensures IsGrid(r.matrix)
  {
    var line := PutByte(w.line, b);
    if LineValid(line, 0) then Consume(w.(line := line)) else w.(line := line)
  }

  predicate Safe(w: Wire, bytes: seq<Byte>)
    requires IsGrid(w.matrix)
    decreases |bytes|
  {
    bytes == [] || (ByteSafe(w, bytes[0]) && Safe(FeedByte(w, bytes[0]), bytes[1..]))
  }

  function Feed(w: Wire, bytes: seq<Byte>): (r: Wire)
    requires IsGrid(w.matrix) && Safe(w, bytes)
    ensures IsGrid(r.matrix)
    decreases |bytes|
  {
    if bytes == [] then w else Feed(FeedByte(w, bytes[0]), bytes[1..])
  }

  /** How the stream is cut into reads makes no difference. */
  lemma {:induction false} FeedConcat(w: Wire, a: seq<Byte>, b: seq<Byte>)
    requires IsGrid(w.matrix)
    ensures Safe(w, a + b) <==> Safe(w, a) && Safe(Feed(w, a), b)
    ensures Safe(w, a + b) ==> Feed(w, a + b) == Feed(Feed(w, a), b)
    decreases |a|
  {
    if a == [] {
      assert a + b == b;
    } else {
      assert (a + b)[1..] == a[1..] + b;
      if ByteSafe(w, a[0]) { FeedConcat(FeedByte(w, a[0]), a[1..], b); }
    }
  }

  // ----- frames -----

  datatype Frame =
    | Row(control: Byte, data: seq<Byte>, last: Byte)
    | End(payload: seq<Byte>, last: Byte)

  ghost predicate NoStart(s: seq<Byte>) { forall k :: 0 <= k < |s| ==> s[k] != START }

  /** What the digitizer sends: a row number on the grid, no start byte between header and
      final byte, a length that fits the line. A one-byte payload is the shortest the
      receiver accepts, and then the final byte must not be a start byte either. */
  ghost predicate WellFormed(f: Frame) {
    match f
    case Row(control, data, _) =>
      control != START && RowOf(control) < X_AXIS_POINTS && |data| == Y_AXIS_POINTS && NoStart(data)
    case End(payload, last) =>
      1 <= |payload| <= LINE_SIZE - 4 && NoStart(payload) && (|payload| == 1 ==> last != START)
  }

  ghost function Body(f: Frame): (s: seq<Byte>)
    requires WellFormed(f)
  {
    match f
    case Row(control, data, _) => [START, ROW_FRAME, control] + data
    case End(payload, _) => [START, END_FRAME, |payload|] + payload
  }

  ghost function Encode(f: Frame): (s: seq<Byte>)
    requires WellFormed(f)
  {
    Body(f) + [f.last]
  }

  /** The meaning of a frame. */
  ghost function Apply(w: Wire, f: Frame): (r: Wire)
    requires IsGrid(w.matrix) && WellFormed(f)
    ensures IsGrid(r.matrix) && r.line == []
  {
    match f
    case Row(control, data, _) => Wire([], WriteRow(w.matrix, control, data), w.frames)
    case End(_, _) => Wire([], w.matrix, w.frames + [w.matrix])
  }

  /** The same but for the line being collected. */
  ghost predicate SameBut(a: Wire, b: Wire) { a.matrix == b.matrix && a.frames == b.frames }

  /** Short by one: the state in which a start byte is taken for the missing final byte. */
  ghost predicate OneShort(line: seq<Byte>) { LineValid(line, 1) }

  lemma {:induction false} SafeSnoc(w: Wire, s: seq<Byte>, b: Byte)
    requires IsGrid(w.matrix) && Safe(w, s) && ByteSafe(Feed(w, s), b)
    ensures Safe(w, s + [b]) && Feed(w, s + [b]) == FeedByte(Feed(w, s), b)
  {
    FeedConcat(w, s, [b]);
    var v := Feed(w, s);
    assert [b][1..] == [];
    assert Safe(FeedByte(v, b), []);
  }

  /** A frame arriving when the line is not one byte short collects from its first byte on,
      whatever the line held before. */
  lemma {:induction false} FeedPrefix(w: Wire, f: Frame, k: nat)
    requires IsGrid(w.matrix) && WellFormed(f) && !OneShort(w.line)
    requires 1 <= k <= |Body(f)|
    ensures Safe(w, Encode(f)[..k]) && Feed(w, Encode(f)[..k]) == w.(line := Encode(f)[..k])
  {
    var e := Encode(f);
    if k == 1 {
      assert e[..1] == [] + [START];
      assert Safe(w, []);
      SafeSnoc(w, [], START);
    } else {
      FeedPrefix(w, f, k - 1);
      assert e[..k] == e[..k - 1] + [e[k - 1]];
      assert e[k - 1] != START by { BodyNoStart(f, k - 1); }
      SafeSnoc(w, e[..k - 1], e[k - 1]);
    }
  }

  lemma {:induction false} BodyNoStart(f: Frame, k: nat)
    requires WellFormed(f) && 1 <= k < |Body(f)|
    ensures Encode(f)[k] != START
  {
  }

  /** From every state that is not one byte short, a whole frame is understood. */
  lemma {:induction false} FeedFrame(w: Wire, f: Frame)
    requires IsGrid(w.matrix) && WellFormed(f) && !OneShort(w.line)
    ensures Safe(w, Encode(f)) && Feed(w, Encode(f)) == Apply(w, f)
  {
    var n := |Body(f)|;
    FeedPrefix(w, f, n);
    assert Encode(f)[..n] == Body(f);
    SafeSnoc(w, Body(f), f.last);
    if f.Row? { assert Encode(f)[3..3 + Y_AXIS_POINTS] == f.data; }
  }

  /** While nothing is being collected, bytes other than the start byte are ignored. */
  lemma {:induction false} FeedNoise(w: Wire, s: seq<Byte>)
    requires IsGrid(w.matrix) && w.line == [] && NoStart(s)
    ensures Safe(w, s) && Feed(w, s) == w
    decreases |s|
  {
    if s != [] {
      assert FeedByte(w, s[0]) == w;
      FeedNoise(w, s[1..]);
    }
  }

  /** From a state that is one byte short, the frame is lost: its start byte completes the
      frame before, and the rest is noise. */
  lemma {:induction false} FrameLost(w: Wire, f: Frame)
    requires IsGrid(w.matrix) && WellFormed(f) && OneShort(w.line) && LineSafe(w.line + [START])
    ensures Safe(w, Encode(f))
    ensures Feed(w, Encode(f))
         == Consume(w.(line := w.line + [START])).(line := if f.last == START then [START] else [])
  {
    var e := Encode(f);
    var v := Consume(w.(line := w.line + [START]));
    assert FeedByte(w, START) == v;
    assert e == [START] + e[1..];
    var s := Body(f)[1..];
    assert e[1..] == s + [f.last];
    FeedNoise(v, s);
    SafeSnoc(v, s, f.last);
  }

  // ----- streams -----

  /** What arrives: whole frames, and frames that the sender aborts after k bytes. */
  datatype Item = Whole(f: Frame) | Aborted(f: Frame, k: nat)

  ghost predicate GoodItem(i: Item) {
    && WellFormed(i.f)
    && (i.Aborted? ==> i.k <= |Body(i.f)| && !OneShort(Encode(i.f)[..i.k]))
  }

  /** An abort leaves the line one byte short exactly when one byte is missing and the frame is
      not the shortest end frame. */
  lemma {:induction false} OneShortIff(f: Frame, k: nat)
    requires WellFormed(f) && k <= |Body(f)|
    ensures OneShort(Encode(f)[..k]) <==> k == |Body(f)| && !(f.End? && |f.payload| == 1)
  {
    var p := Encode(f)[..k];
    if |p| > 2 { assert p[2] == Encode(f)[2]; }
  }

  /** Two frames with the same effect on what is held and handed on: both hand on the matrix,
      or both write the same row contents. */
  ghost predicate SameEffect(g: Grid, a: Frame, b: Frame)
    requires IsGrid(g) && WellFormed(a) && WellFormed(b)
  {
    || (a.End? && b.End?)
    || (a.Row? && b.Row? && WriteRow(g, a.control, a.data) == WriteRow(g, b.control, b.data))
  }

  /** The frame `g`, aborted after k bytes, and then the whole frame `f`. */
  ghost function AbortThen(g: Frame, k: nat, f: Frame): (s: seq<Byte>)
    requires WellFormed(g) && WellFormed(f) && k <= |Body(g)|
  {
    Encode(g)[..k] + Encode(f)
  }

  /** When the abort leaves the line one byte short, it is the aborted frame that takes
      effect, with a start byte for its final byte, in place of the frame that follows. */
  lemma {:induction false} AbortedTakesEffect(w: Wire, g: Frame, f: Frame)
    requires IsGrid(w.matrix) && WellFormed(g) && WellFormed(f) && !OneShort(w.line)
    requires !(g.End? && |g.payload| == 1)
    ensures Safe(w, AbortThen(g, |Body(g)|, f))
    ensures SameBut(Feed(w, AbortThen(g, |Body(g)|, f)), Apply(w, g))
  {
    var n := |Body(g)|;
    var v := w.(line := Encode(g)[..n]);
    FeedPrefix(w, g, n);
    OneShortIff(g, n);
    assert Encode(g)[..n] == Body(g);
    assert g.Row? ==> (Body(g) + [START])[3..3 + Y_AXIS_POINTS] == g.data;
    FrameLost(v, f);
    FeedConcat(w, Encode(g)[..n], Encode(f));
  }

  /** An aborted frame changes what the next one does exactly when it stops one byte short,
      is not the shortest end frame, and differs in effect from the next frame. */
  lemma {:induction false} HarmfulAbort(w: Wire, g: Frame, k: nat, f: Frame)
    requires IsGrid(w.matrix) && WellFormed(g) && WellFormed(f) && k <= |Body(g)| && !OneShort(w.line)
    ensures Safe(w, AbortThen(g, k, f))
    ensures !SameBut(Feed(w, AbortThen(g, k, f)), Apply(w, f))
       <==> k == |Body(g)| && !(g.End? && |g.payload| == 1) && !SameEffect(w.matrix, g, f)
  {
    OneShortIff(g, k);
    if OneShort(Encode(g)[..k]) {
      AbortedTakesEffect(w, g, f);
    } else {
      var v := if k == 0 then w else w.(line := Encode(g)[..k]);
      if k > 0 {
        FeedPrefix(w, g, k);
      } else {
        assert Encode(g)[..k] == [];
      }
      FeedFrame(v, f);
      FeedConcat(w, Encode(g)[..k], Encode(f));
    }
  }

  /** A harmful abort: a row without its last byte, and the end frame after it. The matrix is
      never handed on. */
  lemma {:induction false} EndSwallowed(w: Wire)
    requires IsGrid(w.matrix) && !OneShort(w.line)
    ensures var row := Row(0, Blank()[0], 0);
            var end := End([0, 0], 0);
            && WellFormed(row) && WellFormed(end)
            && Safe(w, AbortThen(row, |Body(row)|, end))
            && Feed(w, AbortThen(row, |Body(row)|, end)).frames == w.frames
            && Apply(w, end).frames == w.frames + [w.matrix]
  {
    AbortedTakesEffect(w, Row(0, Blank()[0], 0), End([0, 0], 0));
  }

  // ----- what a stream of items means -----

  /** A frame, whole or aborted anywhere before its last byte. */
  ghost predicate AnyItem(i: Item) { WellFormed(i.f) && (i.Aborted? ==> i.k <= |Body(i.f)|) }

  ghost predicate AnyItems(items: seq<Item>) { forall k :: 0 <= k < |items| ==> AnyItem(items[k]) }

  ghost predicate GoodFrames(fs: seq<Frame>) { forall k :: 0 <= k < |fs| ==> WellFormed(fs[k]) }

  ghost function BytesOf(i: Item): (s: seq<Byte>)
    requires AnyItem(i)
  {
    if i.Whole? then Encode(i.f) else Encode(i.f)[..i.k]
  }

  ghost function Bytes(items: seq<Item>): (s: seq<Byte>)
    requires AnyItems(items)
  {
    if items == [] then [] else BytesOf(items[0]) + Bytes(items[1..])
  }

  /** The frame is kept waiting for its last byte. */
  ghost predicate Waits(i: Item)
    requires AnyItem(i)
  {
    i.Aborted? && i.k == |Body(i.f)| && !(i.f.End? && |i.f.payload| == 1)
  }

  /** What is kept waiting after the item: the item itself, unless it serves as the last byte
      of what was waiting before. */
  ghost function WaitsAfter(waiting: Option<Frame>, i: Item): (next: Option<Frame>)
    requires AnyItem(i)
  {
    if waiting.Some? then if BytesOf(i) == [] then waiting else None
    else if Waits(i) then Some(i.f) else None
  }

  /** The frames that take effect at the item. */
  ghost function ActsAt(waiting: Option<Frame>, i: Item): (fs: seq<Frame>)
    requires AnyItem(i)
  {
    if waiting.Some? then if BytesOf(i) == [] then [] else [waiting.value]
    else if i.Whole? then [i.f] else []
  }

  /** The frames that take effect in the stream, in order. */
  ghost function Acting(waiting: Option<Frame>, items: seq<Item>): (fs: seq<Frame>)
    requires AnyItems(items)
    decreases |items|
  {
    if items == [] then [] else ActsAt(waiting, items[0]) + Acting(WaitsAfter(waiting, items[0]), items[1..])
  }

  ghost function WaitingAtEnd(waiting: Option<Frame>, items: seq<Item>): (next: Option<Frame>)
    requires AnyItems(items)
    decreases |items|
  {
    if items == [] then waiting else WaitingAtEnd(WaitsAfter(waiting, items[0]), items[1..])
  }

  /** The meaning of a sequence of frames. */
  ghost function ApplyAll(w: Wire, fs: seq<Frame>): (r: Wire)
    requires IsGrid(w.matrix) && GoodFrames(fs)
    ensures IsGrid(r.matrix)
    decreases |fs|
  {
    if fs == [] then w else ApplyAll(Apply(w, fs[0]), fs[1..])
  }

  lemma {:induction false} ApplyIgnoresLine(a: Wire, b: Wire, fs: seq<Frame>)
    requires IsGrid(a.matrix) && SameBut(a, b) && GoodFrames(fs)
    ensures SameBut(ApplyAll(a, fs), ApplyAll(b, fs))
    decreases |fs|
  {
    if fs != [] { ApplyIgnoresLine(Apply(a, fs[0]), Apply(b, fs[0]), fs[1..]); }
  }

  lemma {:induction false} ApplyConcat(w: Wire, a: seq<Frame>, b: seq<Frame>)
    requires IsGrid(w.matrix) && GoodFrames(a) && GoodFrames(b)
    ensures GoodFrames(a + b) && ApplyAll(w, a + b) == ApplyAll(ApplyAll(w, a), b)
    decreases |a|
  {
    if a == [] {
      assert a + b == b;
    } else {
      assert (a + b)[1..] == a[1..] + b;
      ApplyConcat(Apply(w, a[0]), a[1..], b);
    }
  }

  /** The line holds all but the last byte of the frame that waits; otherwise it is not one
      byte short. */
  ghost predicate LineWaits(line: seq<Byte>, waiting: Option<Frame>) {
    match waiting
    case None => !OneShort(line)
    case Some(f) => WellFormed(f) && line == Body(f) && !(f.End? && |f.payload| == 1)
  }

  /** One item, when no frame waits. */
  lemma {:induction false} ItemFresh(w: Wire, i: Item)
    requires IsGrid(w.matrix) && AnyItem(i) && !OneShort(w.line)
    ensures Safe(w, BytesOf(i)) && LineWaits(Feed(w, BytesOf(i)).line, WaitsAfter(None, i))
    ensures SameBut(Feed(w, BytesOf(i)), if i.Whole? then Apply(w, i.f) else w)
  {
    if i.Whole? {
      FeedFrame(w, i.f);
    } else if i.k > 0 {
      FeedPrefix(w, i.f, i.k);
      OneShortIff(i.f, i.k);
      assert i.k == |Body(i.f)| ==> Encode(i.f)[..i.k] == Body(i.f);
    }
  }

  /** One item, when a frame waits: its start byte completes that frame. */
  lemma {:induction false} ItemCompletes(w: Wire, i: Item, f: Frame)
    requires IsGrid(w.matrix) && AnyItem(i) && LineWaits(w.line, Some(f)) && BytesOf(i) != []
    ensures Safe(w, BytesOf(i)) && !OneShort(Feed(w, BytesOf(i)).line)
    ensures SameBut(Feed(w, BytesOf(i)), Apply(w, f))
  {
    assert f.Row? ==> (Body(f) + [START])[3..3 + Y_AXIS_POINTS] == f.data;
    OneShortIff(f, |Body(f)|);
    assert Encode(f)[..|Body(f)|] == Body(f);
    if i.Whole? {
      FrameLost(w, i.f);
    } else {
      var v := Consume(w.(line := w.line + [START]));
      var rest := BytesOf(i)[1..];
      assert BytesOf(i)[0] == START;
      assert FeedByte(w, START) == v;
      forall k | 0 <= k < |rest| ensures rest[k] != START { BodyNoStart(i.f, k + 1); }
      FeedNoise(v, rest);
    }
  }

  lemma {:induction false} ItemActs(w: Wire, i: Item, waiting: Option<Frame>)
    requires IsGrid(w.matrix) && AnyItem(i) && LineWaits(w.line, waiting)
    ensures GoodFrames(ActsAt(waiting, i))
    ensures Safe(w, BytesOf(i)) && LineWaits(Feed(w, BytesOf(i)).line, WaitsAfter(waiting, i))
    ensures SameBut(Feed(w, BytesOf(i)), ApplyAll(w, ActsAt(waiting, i)))
  {
    match waiting
    case None =>
      ItemFresh(w, i);
      if i.Whole? { ApplyOne(w, i.f); }
    case Some(f) =>
      if BytesOf(i) != [] {
        ItemCompletes(w, i, f);
        ApplyOne(w, f);
      }
  }

  lemma {:induction false} ApplyOne(w: Wire, f: Frame)
    requires IsGrid(w.matrix) && WellFormed(f)
    ensures GoodFrames([f]) && ApplyAll(w, [f]) == Apply(w, f)
  {
    assert [f][1..] == [];
  }

  /** The meaning of every stream of whole and aborted frames: it keeps the accesses safe, and
      its effect is that of the frames that act in it, in order. */
  lemma {:induction false} StreamMeaning(w: Wire, items: seq<Item>, waiting: Option<Frame>)
    requires IsGrid(w.matrix) && AnyItems(items) && LineWaits(w.line, waiting)
    ensures Safe(w, Bytes(items)) && GoodFrames(Acting(waiting, items))
    ensures SameBut(Feed(w, Bytes(items)), ApplyAll(w, Acting(waiting, items)))
    ensures LineWaits(Feed(w, Bytes(items)).line, WaitingAtEnd(waiting, items))
    decreases |items|
  {
    if items != [] {
      var i, rest := items[0], items[1..];
      ItemActs(w, i, waiting);
      var v, next := Feed(w, BytesOf(i)), WaitsAfter(waiting, i);
      StreamMeaning(v, rest, next);
      FeedConcat(w, BytesOf(i), Bytes(rest));
      ApplyConcat(w, ActsAt(waiting, i), Acting(next, rest));
      ApplyIgnoresLine(v, ApplyAll(w, ActsAt(waiting, i)), Acting(next, rest));
    }
  }

  /** The whole frames among the items. */
  ghost function Wholes(items: seq<Item>): (fs: seq<Frame>) {
    if items == [] then [] else (if items[0].Whole? then [items[0].f] else []) + Wholes(items[1..])
  }

  lemma {:induction false} GoodActing(items: seq<Item>)
    requires forall k :: 0 <= k < |items| ==> GoodItem(items[k])
    ensures AnyItems(items) && Acting(None, items) == Wholes(items) && WaitingAtEnd(None, items).None?
    decreases |items|
  {
    if items != [] {
      var i := items[0];
      assert GoodItem(i) && AnyItem(i);
      if i.Aborted? { OneShortIff(i.f, i.k); }
      GoodActing(items[1..]);
    }
  }

  /** Framing round trip with resynchronisation: a stream of whole frames, with aborted ones
      in between that do not stop one byte short, leaves exactly the whole frames' effect, and
      ends ready for more. */
  lemma {:induction false} WholesOnly(w: Wire, items: seq<Item>)
    requires IsGrid(w.matrix) && !OneShort(w.line)
    requires forall k :: 0 <= k < |items| ==> GoodItem(items[k])
    ensures AnyItems(items) && Safe(w, Bytes(items)) && GoodFrames(Wholes(items))
    ensures SameBut(Feed(w, Bytes(items)), ApplyAll(w, Wholes(items))) && !OneShort(Feed(w, Bytes(items)).line)
  {
    GoodActing(items);
    StreamMeaning(w, items, None);
  }

  // ----- streams that are not safe -----

  /** Bytes collected while the line is neither complete nor too long. */
  lemma {:induction false} Collects(w: Wire, s: seq<Byte>)
    requires IsGrid(w.matrix) && w.line != [] && NoStart(s)
    requires forall k :: 0 < k <= |s| ==> Incomplete(w.line + s[..k])
    ensures Safe(w, s) && Feed(w, s) == w.(line := w.line + s)
    decreases |s|
  {
    if s == [] {
      assert w.line + s == w.line;
    } else {
      var n := |s| - 1;
      var p := s[..n];
      forall k | 0 < k <= n ensures Incomplete(w.line + p[..k]) { assert p[..k] == s[..k]; }
      Collects(w, p);
      assert s[..|s|] == s == p + [s[n]] && w.line + s == (w.line + p) + [s[n]];
      SafeSnoc(w, p, s[n]);
    }
  }

  ghost predicate Incomplete(line: seq<Byte>) { !LineValid(line, 0) && LineSafe(line) }

  lemma {:induction false} UnsafeNext(w: Wire, s: seq<Byte>, b: Byte)
    requires IsGrid(w.matrix) && Safe(w, s) && !ByteSafe(Feed(w, s), b)
    ensures !Safe(w, s + [b])
  {
    FeedConcat(w, s, [b]);
  }

  /** A start byte and bytes that belong to no frame are collected until the line is full. The
      next one, number 64, is stored behind it. */
  lemma {:induction false} UnknownFrame(w: Wire, s: seq<Byte>)
    requires IsGrid(w.matrix) && !OneShort(w.line) && NoStart(s) && s != [] && s[0] !in {ROW_FRAME, END_FRAME}
    ensures Safe(w, [START] + s) <==> |s| < LINE_SIZE
  {
    var v := w.(line := [START]);
    assert [START][1..] == [];
    assert FeedByte(w, START) == v;
    FeedConcat(w, [START], s);
    var n := Min(|s|, LINE_SIZE - 1);
    var p := s[..n];
    forall k | 0 < k <= n ensures Incomplete([START] + p[..k]) { assert ([START] + p[..k])[1] == s[0]; }
    Collects(v, p);
    if n < |s| {
      UnsafeNext(v, p, s[n]);
      FeedConcat(v, s[..n + 1], s[n + 1..]);
      assert s[..n + 1] == p + [s[n]] && s == s[..n + 1] + s[n + 1..];
    } else {
      assert p == s;
    }
  }

  /** A row frame that names row 30 or 31 writes behind the matrix. */
  lemma {:induction false} RowBeyond(w: Wire, control: Byte, data: seq<Byte>, last: Byte)
    requires IsGrid(w.matrix) && !OneShort(w.line) && control != START && RowOf(control) >= X_AXIS_POINTS
    requires |data| == Y_AXIS_POINTS && NoStart(data)
    ensures !Safe(w, [START] + ([ROW_FRAME, control] + data) + [last])
  {
    var v, s := w.(line := [START]), [ROW_FRAME, control] + data;
    assert [START][1..] == [];
    assert FeedByte(w, START) == v;
    FeedConcat(w, [START], s);
    forall k | 0 < k <= |s| ensures Incomplete([START] + s[..k]) { assert ([START] + s[..k])[1] == ROW_FRAME; }
    assert s[..|s|] == s;
    Collects(v, s);
    UnsafeNext(w, [START] + s, last);
  }

  // ----- what the matrix holds -----

  /** The frame determines row r: it writes that row, or blanks the matrix first. */
  predicate Sets(f: Frame, r: nat) { f.Row? && (RowOf(f.control) == r || f.control >= 0x80) }

  lemma {:induction false} RowUntouched(w: Wire, fs: seq<Frame>, r: nat)
    requires IsGrid(w.matrix) && r < X_AXIS_POINTS && GoodFrames(fs)
    requires forall k :: 0 <= k < |fs| ==> !Sets(fs[k], r)
    ensures ApplyAll(w, fs).matrix[r] == w.matrix[r]
    decreases |fs|
  {
    if fs != [] {
      assert !Sets(fs[0], r);
      RowUntouched(Apply(w, fs[0]), fs[1..], r);
    }
  }

  /** A row holds the data last written to it since the last start flag, else zeros. */
  lemma {:induction false} RowIsLastWrite(w: Wire, fs: seq<Frame>, r: nat, k: nat)
    requires IsGrid(w.matrix) && r < X_AXIS_POINTS && k < |fs| && GoodFrames(fs)
    requires Sets(fs[k], r) && forall j :: k < j < |fs| ==> !Sets(fs[j], r)
    ensures ApplyAll(w, fs).matrix[r] == if RowOf(fs[k].control) == r then fs[k].data else Blank()[r]
    decreases |fs|
  {
    var v := Apply(w, fs[0]);
    if k == 0 {
      RowUntouched(v, fs[1..], r);
    } else {
      assert fs[1..][k - 1] == fs[k];
      RowIsLastWrite(v, fs[1..], r, k - 1);
    }
  }

  /** Each end frame hands on the matrix as the frames before it left it. */
  lemma {:induction false} EndHandsOn(w: Wire, fs: seq<Frame>, k: nat)
    requires IsGrid(w.matrix) && k < |fs| && fs[k].End? && GoodFrames(fs)
    ensures var before := ApplyAll(w, fs[..k]);
            |before.frames| < |ApplyAll(w, fs).frames|
            && ApplyAll(w, fs).frames[|before.frames|] == before.matrix
    decreases |fs|
  {
    var v := Apply(w, fs[0]);
    if k == 0 {
      FramesKept(v, fs[1..]);
    } else {
      assert fs[1..][k - 1] == fs[k] && fs[..k][1..] == fs[1..][..k - 1];
      EndHandsOn(v, fs[1..], k - 1);
    }
  }

  lemma {:induction false} FramesKept(w: Wire, fs: seq<Frame>)
    requires IsGrid(w.matrix) && GoodFrames(fs)
    ensures w.frames <= ApplyAll(w, fs).frames
    decreases |fs|
  {
    if fs != [] { FramesKept(Apply(w, fs[0]), fs[1..]); }
  }
}

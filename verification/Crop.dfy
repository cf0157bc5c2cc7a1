/**
 Cropping a picture inside its own buffer (camerahal/QualcommCameraHardware.cpp,
 crop_yuv420). The rows of each plane move towards their new place, some forwards and some
 backwards; the order in which they move decides whether a row is overwritten before it
 was read.
 */
module Crop {
  type Byte = b: int | 0 <= b < 256

  /** The start of row i of a window at `base` in a plane with the given stride. */
  function RowStart(base: nat, stride: nat, i: nat): (p: nat)
    ensures p >= base
  {
    base + i * stride
  }

  lemma {:induction false} RowNext(base: nat, stride: nat, i: nat)
    ensures RowStart(base, stride, i + 1) == RowStart(base, stride, i) + stride
  {
  }

  lemma {:induction false} RowOrder(base: nat, stride: nat, i: nat, j: nat)
    requires i < j
    ensures RowStart(base, stride, i) + stride <= RowStart(base, stride, j)
  {
    assert i * stride + stride == (i + 1) * stride <= j * stride;
  }

  /** The row from which on sources lie behind their destinations. */
  function SwitchRow(bd: nat, bs: nat, w: nat, cw: nat): (p: nat)
    requires bd > bs && w > cw
  {
    (bd - bs) / (w - cw)
  }

  /** Source and destination approach each other by the same amount per row. */
  lemma {:induction false} Approach(bd: nat, bs: nat, w: nat, cw: nat, i: nat)
    requires w >= cw
    ensures RowStart(bd, cw, i) <= RowStart(bs, w, i) <==> bd - bs <= i * (w - cw)
  {
    assert i * (w - cw) == i * w - i * cw;
  }

  lemma {:induction false} QuotientBounds(n: nat, d: nat)
    requires d > 0
    ensures (n / d) * d <= n < (n / d + 1) * d
  {
  }

  lemma {:induction false} Multiples(a: nat, b: nat, d: nat)
    requires a <= b
    ensures a * d <= b * d
  {
  }

  lemma {:induction false} BeforeSwitch(bd: nat, bs: nat, w: nat, cw: nat, i: nat)
    requires bd > bs && w > cw && i <= SwitchRow(bd, bs, w, cw)
    ensures RowStart(bs, w, i) <= RowStart(bd, cw, i)
  {
    var d := w - cw;
    QuotientBounds(bd - bs, d);
    Multiples(i, (bd - bs) / d, d);
    assert i * d == i * w - i * cw;
  }

  lemma {:induction false} AfterSwitch(bd: nat, bs: nat, w: nat, cw: nat, i: nat)
    requires bd > bs && w > cw && i > SwitchRow(bd, bs, w, cw)
    ensures RowStart(bd, cw, i) <= RowStart(bs, w, i)
  {
    var d := w - cw;
    QuotientBounds(bd - bs, d);
    Multiples((bd - bs) / d + 1, i, d);
    Approach(bd, bs, w, cw, i);
  }

  lemma {:induction false} WithoutSwitch(bd: nat, bs: nat, w: nat, cw: nat, i: nat)
    requires bd <= bs && w >= cw
    ensures RowStart(bd, cw, i) <= RowStart(bs, w, i)
  {
    assert i * cw <= i * w;
  }

  /** How many rows are moved: a switch-over row beyond the last row is moved as well. */
  function MovedRows(bd: nat, bs: nat, w: nat, cw: nat, rows: nat): (n: nat)
    requires bd > bs ==> w > cw
    ensures n >= rows
  {
    if bd > bs && SwitchRow(bd, bs, w, cw) + 1 > rows then SwitchRow(bd, bs, w, cw) + 1 else rows
  }

  /** Nothing but the bytes from lo to hi has changed. */
  ghost predicate SameOutside(was: seq<Byte>, now: seq<Byte>, lo: nat, hi: nat) {
    |now| == |was| && forall b :: 0 <= b < |was| && !(lo <= b < hi) ==> now[b] == was[b]
  }

  /** The bytes from dst on are those that were at src. */
  ghost predicate Copied(was: seq<Byte>, now: seq<Byte>, dst: nat, src: nat, n: nat)
    requires src + n <= |was| && dst + n <= |now|
  {
    now[dst..dst + n] == was[src..src + n]
  }

  ghost predicate RowCopied(was: seq<Byte>, now: seq<Byte>, bd: nat, bs: nat, w: nat, cw: nat, i: nat) {
    var dst, src := RowStart(bd, cw, i), RowStart(bs, w, i);
    src + cw <= |was| && dst + cw <= |now| && Copied(was, now, dst, src, cw)
  }

  /** The rows from lo to hi of the window are in their new place. */
  ghost predicate RowsCopied(was: seq<Byte>, now: seq<Byte>, bd: nat, bs: nat, w: nat, cw: nat, lo: nat, hi: nat) {
    forall i :: lo <= i < hi ==> RowCopied(was, now, bd, bs, w, cw, i)
  }

  /** The window's rows from 0 to n, and their new places, lie inside the buffer. */
  ghost predicate Fits(len: nat, bd: nat, bs: nat, w: nat, cw: nat, n: nat) {
    RowStart(bd, cw, n) <= len && (n > 0 ==> RowStart(bs, w, n - 1) + cw <= len)
  }

  lemma {:induction false} RowFits(len: nat, bd: nat, bs: nat, w: nat, cw: nat, n: nat, i: nat)
    requires Fits(len, bd, bs, w, cw, n) && i < n && cw <= w
    ensures RowStart(bd, cw, i) + cw <= len && RowStart(bs, w, i) + cw <= len
  {
    RowOrder(bd, cw, i, n);
    if i < n - 1 { RowOrder(bs, w, i, n - 1); }
  }

  /** One row, as memmove moves it. */
  method MoveRow(image: array<Byte>, dst: nat, src: nat, n: nat)
    requires dst + n <= image.Length && src + n <= image.Length
    modifies image
    ensures Copied(old(image[..]), image[..], dst, src, n)
    ensures SameOutside(old(image[..]), image[..], dst, dst + n)
  {
    forall k | 0 <= k < n {
      image[dst + k] := image[src + k];
    }
  }

  /** Rows written elsewhere stay as they are. */
  lemma {:induction false} RowsKept(was: seq<Byte>, mid: seq<Byte>, now: seq<Byte>, bd: nat, bs: nat, w: nat,
                                    cw: nat, lo: nat, hi: nat, dst: nat)
    requires RowsCopied(was, mid, bd, bs, w, cw, lo, hi) && SameOutside(mid, now, dst, dst + cw)
    requires dst + cw <= RowStart(bd, cw, lo) || RowStart(bd, cw, hi) <= dst
    ensures RowsCopied(was, now, bd, bs, w, cw, lo, hi)
  {
    forall i | lo <= i < hi
      ensures RowCopied(was, now, bd, bs, w, cw, i)
    {
      assert RowCopied(was, mid, bd, bs, w, cw, i);
      var d := RowStart(bd, cw, i);
      if lo < i { RowOrder(bd, cw, lo, i); }
      RowOrder(bd, cw, i, hi);
      assert now[d..d + cw] == mid[d..d + cw];
    }
  }

  /** The rows from lo to hi have been moved, and nothing else has changed. */
  ghost predicate Progress(was: seq<Byte>, now: seq<Byte>, bd: nat, bs: nat, w: nat, cw: nat, lo: nat, hi: nat) {
    && SameOutside(was, now, RowStart(bd, cw, lo), RowStart(bd, cw, hi))
    && RowsCopied(was, now, bd, bs, w, cw, lo, hi)
  }

  /** The row that a byte of the moved plane lies in. */
  lemma {:induction false} RowAt(bd: nat, cw: nat, n: nat, b: nat) returns (i: nat)
    requires bd <= b < RowStart(bd, cw, n)
    ensures i < n && RowStart(bd, cw, i) <= b < RowStart(bd, cw, i) + cw
  {
    if b < RowStart(bd, cw, n - 1) {
      i := RowAt(bd, cw, n - 1, b);
    } else {
      i := n - 1;
      assert n * cw == (n - 1) * cw + cw;
    }
  }

  /** A move of rows leaves nothing open: it determines every byte. */
  lemma {:induction false} MoveDetermined(was: seq<Byte>, a: seq<Byte>, c: seq<Byte>, bd: nat, bs: nat, w: nat, cw: nat,
                                          n: nat)
    requires Progress(was, a, bd, bs, w, cw, 0, n) && Progress(was, c, bd, bs, w, cw, 0, n)
    ensures a == c
  {
    forall b | 0 <= b < |was| ensures a[b] == c[b] {
      if bd <= b < RowStart(bd, cw, n) {
        var i := RowAt(bd, cw, n, b);
        var dst := RowStart(bd, cw, i);
        assert RowCopied(was, a, bd, bs, w, cw, i) && RowCopied(was, c, bd, bs, w, cw, i);
        assert a[b] == a[dst..dst + cw][b - dst] == c[dst..dst + cw][b - dst];
      }
    }
  }

  /** Row i may be moved next: it adjoins the moved rows and its source is untouched. */
  ghost predicate MayMove(bd: nat, bs: nat, w: nat, cw: nat, i: nat, lo: nat, hi: nat) {
    (i == hi && RowStart(bd, cw, i) <= RowStart(bs, w, i)) || (i + 1 == lo && RowStart(bs, w, i) <= RowStart(bd, cw, i))
  }

  lemma {:induction false} SourceUntouched(was: seq<Byte>, mid: seq<Byte>, bd: nat, bs: nat, w: nat, cw: nat,
                                           i: nat, lo: nat, hi: nat)
    requires SameOutside(was, mid, RowStart(bd, cw, lo), RowStart(bd, cw, hi)) && MayMove(bd, bs, w, cw, i, lo, hi)
    requires RowStart(bs, w, i) + cw <= |was|
    ensures mid[RowStart(bs, w, i)..RowStart(bs, w, i) + cw] == was[RowStart(bs, w, i)..RowStart(bs, w, i) + cw]
  {
    RowNext(bd, cw, i);
  }

  lemma {:induction false} OutsideStep(was: seq<Byte>, mid: seq<Byte>, now: seq<Byte>, bd: nat, cw: nat, i: nat,
                                       lo: nat, hi: nat)
    requires lo <= hi && (i == hi || i + 1 == lo)
    requires SameOutside(was, mid, RowStart(bd, cw, lo), RowStart(bd, cw, hi))
    requires SameOutside(mid, now, RowStart(bd, cw, i), RowStart(bd, cw, i) + cw)
    ensures SameOutside(was, now, RowStart(bd, cw, if i == hi then lo else i),
                        RowStart(bd, cw, if i == hi then hi + 1 else hi))
  {
    RowNext(bd, cw, i);
    if lo < hi { RowOrder(bd, cw, lo, hi); }
  }

  lemma {:induction false} RowsStep(was: seq<Byte>, mid: seq<Byte>, now: seq<Byte>, bd: nat, bs: nat, w: nat,
                                    cw: nat, i: nat, lo: nat, hi: nat)
    requires lo <= hi && (i == hi || i + 1 == lo)
    requires RowsCopied(was, mid, bd, bs, w, cw, lo, hi) && RowCopied(was, now, bd, bs, w, cw, i)
    requires SameOutside(mid, now, RowStart(bd, cw, i), RowStart(bd, cw, i) + cw)
    ensures RowsCopied(was, now, bd, bs, w, cw, if i == hi then lo else i, if i == hi then hi + 1 else hi)
  {
    RowNext(bd, cw, i);
    RowsKept(was, mid, now, bd, bs, w, cw, lo, hi, RowStart(bd, cw, i));
  }

  /** Moves row i. */
  method MoveNext(image: array<Byte>, bd: nat, bs: nat, w: nat, cw: nat, i: nat, ghost n: nat, ghost was: seq<Byte>,
                  ghost lo: nat, ghost hi: nat)
    requires cw <= w && i < n && Fits(image.Length, bd, bs, w, cw, n)
    requires lo <= hi && Progress(was, image[..], bd, bs, w, cw, lo, hi) && MayMove(bd, bs, w, cw, i, lo, hi)
    modifies image
    ensures Progress(was, image[..], bd, bs, w, cw, if i == hi then lo else i, if i == hi then hi + 1 else hi)
  {
    RowFits(image.Length, bd, bs, w, cw, n, i);
    ghost var mid := image[..];
    SourceUntouched(was, mid, bd, bs, w, cw, i, lo, hi);
    MoveRow(image, RowStart(bd, cw, i), RowStart(bs, w, i), cw);
    OutsideStep(was, mid, image[..], bd, cw, i, lo, hi);
    RowsStep(was, mid, image[..], bd, bs, w, cw, i, lo, hi);
  }

  /** Moves the rows from lo to hi, first row first. */
  method MoveForwards(image: array<Byte>, bd: nat, bs: nat, w: nat, cw: nat, lo: nat, hi: nat)
    requires cw <= w && lo <= hi && Fits(image.Length, bd, bs, w, cw, hi)
    requires forall i {:trigger RowStart(bd, cw, i)} :: lo <= i < hi ==> RowStart(bd, cw, i) <= RowStart(bs, w, i)
    modifies image
    ensures Progress(old(image[..]), image[..], bd, bs, w, cw, lo, hi)
  {
    ghost var was := image[..];
    for i := lo to hi
      invariant Progress(was, image[..], bd, bs, w, cw, lo, i)
    {
      MoveNext(image, bd, bs, w, cw, i, hi, was, lo, i);
    }
  }

  /** Moves the rows from position down to 0, on top of the rows up to n moved before. */
  method MoveBackwards(image: array<Byte>, bd: nat, bs: nat, w: nat, cw: nat, position: nat, ghost n: nat,
                       ghost was: seq<Byte>)
    requires cw <= w && position < n && Fits(image.Length, bd, bs, w, cw, n)
    requires forall i {:trigger RowStart(bd, cw, i)} :: 0 <= i <= position ==> RowStart(bs, w, i) <= RowStart(bd, cw, i)
    requires Progress(was, image[..], bd, bs, w, cw, position + 1, n)
    modifies image
    ensures Progress(was, image[..], bd, bs, w, cw, 0, n)
  {
    var j: int := position;
    while j >= 0
      invariant -1 <= j <= position && Progress(was, image[..], bd, bs, w, cw, j + 1, n)
    {
      MoveNext(image, bd, bs, w, cw, j, n, was, j + 1, n);
      j := j - 1;
    }
  }

  /** One plane: rows whose source follows their destination move forwards, then the rows
      up to the switch-over row move backwards. */
  method CropPlane(image: array<Byte>, bd: nat, bs: nat, w: nat, cw: nat, rows: nat)
    requires cw <= w && (bd > bs ==> cw < w)
    requires Fits(image.Length, bd, bs, w, cw, MovedRows(bd, bs, w, cw, rows))
    modifies image
    ensures Progress(old(image[..]), image[..], bd, bs, w, cw, 0, MovedRows(bd, bs, w, cw, rows))
  {
    ghost var was, n := image[..], MovedRows(bd, bs, w, cw, rows);
    if bd > bs {
      var position := SwitchRow(bd, bs, w, cw);
      forall i | position < i < n ensures RowStart(bd, cw, i) <= RowStart(bs, w, i) { AfterSwitch(bd, bs, w, cw, i); }
      forall i | 0 <= i <= position
        ensures RowStart(bs, w, i) <= RowStart(bd, cw, i)
      {
        BeforeSwitch(bd, bs, w, cw, i);
      }
      if position + 1 < rows { MoveForwards(image, bd, bs, w, cw, position + 1, rows); }
      MoveBackwards(image, bd, bs, w, cw, position, n, was);
    } else {
      forall i | 0 <= i < n ensures RowStart(bd, cw, i) <= RowStart(bs, w, i) { WithoutSwitch(bd, bs, w, cw, i); }
      MoveForwards(image, bd, bs, w, cw, 0, rows);
    }
  }

  // ----- both planes -----

  /** Where the planes of the full and of the cropped picture start. */
  datatype Layout = Layout(ySrc: nat, yDst: nat, cSrc: nat, cDst: nat)

  /** The largest even number up to half the margin. */
  function Margin(full: nat, cropped: nat): (m: nat)
    requires cropped <= full
    ensures m % 2 == 0 && m + cropped <= full
    ensures 0 <= full - cropped - 2 * m <= 3
  {
    var m := (full - cropped) / 2;
    m - m % 2
  }

  /** One plane's move: destination, source, and the number of rows. */
  datatype Move = Move(bd: nat, bs: nat, rows: nat)

  function LumaMove(l: Layout, w: nat, h: nat, cw: nat, ch: nat): (m: Move)
    requires cw <= w && ch <= h
  {
    Move(l.yDst, RowStart(l.ySrc, w, Margin(h, ch)) + Margin(w, cw), ch)
  }

  function ChromaMove(l: Layout, w: nat, h: nat, cw: nat, ch: nat): (m: Move)
    requires cw <= w && ch <= h
  {
    Move(l.cDst, RowStart(l.cSrc, w, Margin(h, ch) / 2) + Margin(w, cw), ch / 2)
  }

  predicate Movable(m: Move, w: nat, cw: nat) { cw <= w && (m.bd > m.bs ==> cw < w) }

  function Moved(m: Move, w: nat, cw: nat): (n: nat)
    requires Movable(m, w, cw)
  {
    MovedRows(m.bd, m.bs, w, cw, m.rows)
  }

  ghost predicate MoveFits(len: nat, m: Move, w: nat, cw: nat) {
    Movable(m, w, cw) && Fits(len, m.bd, m.bs, w, cw, Moved(m, w, cw))
  }

  /** No row beyond the cropped height is moved, exactly when the destination starts less
      than the whole approach of all rows behind the source. */
  lemma {:induction false} NoExtraRows(m: Move, w: nat, cw: nat)
    requires Movable(m, w, cw)
    ensures Moved(m, w, cw) == m.rows <==> m.bd <= m.bs || m.bd - m.bs < m.rows * (w - cw)
  {
    if m.bd > m.bs {
      var d, p := w - cw, SwitchRow(m.bd, m.bs, w, cw);
      assert p * d <= m.bd - m.bs < (p + 1) * d;
      if p < m.rows { Area(p + 1, d, m.rows, d); } else { Area(m.rows, d, p, d); }
    }
  }

  /** The plane holds the window that the move selects from the picture `was`. */
  ghost predicate Cropped(was: seq<Byte>, now: seq<Byte>, m: Move, w: nat, cw: nat) {
    RowsCopied(was, now, m.bd, m.bs, w, cw, 0, m.rows)
  }

  /** Moving luma leaves the chroma window alone, and moving chroma the cropped luma. */
  ghost predicate Apart(luma: Move, chroma: Move, w: nat, cw: nat)
    requires Movable(luma, w, cw) && Movable(chroma, w, cw)
  {
    && RowStart(luma.bd, cw, Moved(luma, w, cw)) <= chroma.bs
    && RowStart(luma.bd, cw, luma.rows) <= chroma.bd
  }

  /** Moved rows keep their meaning when the picture they came from changed elsewhere. */
  lemma {:induction false} SourceKept(was: seq<Byte>, mid: seq<Byte>, now: seq<Byte>, bd: nat, bs: nat, w: nat,
                                      cw: nat, rows: nat, hi: nat)
    requires |was| == |mid| && forall b :: hi <= b < |was| ==> mid[b] == was[b]
    requires hi <= bs && RowsCopied(mid, now, bd, bs, w, cw, 0, rows)
    ensures RowsCopied(was, now, bd, bs, w, cw, 0, rows)
  {
    forall i | 0 <= i < rows
      ensures RowCopied(was, now, bd, bs, w, cw, i)
    {
      var src := RowStart(bs, w, i);
      assert RowCopied(mid, now, bd, bs, w, cw, i);
      assert mid[src..src + cw] == was[src..src + cw];
    }
  }

  /** Rows below the changed part stay in place. */
  lemma {:induction false} PlaneKept(was: seq<Byte>, mid: seq<Byte>, now: seq<Byte>, bd: nat, bs: nat, w: nat,
                                     cw: nat, rows: nat, lo: nat)
    requires |mid| == |now| && forall b :: 0 <= b < lo && b < |mid| ==> now[b] == mid[b]
    requires RowStart(bd, cw, rows) <= lo && RowsCopied(was, mid, bd, bs, w, cw, 0, rows)
    ensures RowsCopied(was, now, bd, bs, w, cw, 0, rows)
  {
    forall i | 0 <= i < rows
      ensures RowCopied(was, now, bd, bs, w, cw, i)
    {
      assert RowCopied(was, mid, bd, bs, w, cw, i);
      var d := RowStart(bd, cw, i);
      RowOrder(bd, cw, i, rows);
      assert now[d..d + cw] == mid[d..d + cw];
    }
  }

  /** Nothing but the moved rows has changed. */
  ghost predicate OnlyPlanes(was: seq<Byte>, now: seq<Byte>, luma: Move, chroma: Move, w: nat, cw: nat)
    requires Movable(luma, w, cw) && Movable(chroma, w, cw)
  {
    && |now| == |was|
    && forall b :: 0 <= b < |was| && !InPlane(luma, w, cw, b) && !InPlane(chroma, w, cw, b) ==> now[b] == was[b]
  }

  predicate InPlane(m: Move, w: nat, cw: nat, b: nat)
    requires Movable(m, w, cw)
  {
    m.bd <= b < RowStart(m.bd, cw, Moved(m, w, cw))
  }

  /** The buffer holds both cropped planes of the picture `was`. */
  ghost predicate BothCropped(was: seq<Byte>, now: seq<Byte>, luma: Move, chroma: Move, w: nat, cw: nat) {
    Cropped(was, now, luma, w, cw) && Cropped(was, now, chroma, w, cw)
  }

  lemma {:induction false} PlanesDone(was: seq<Byte>, mid: seq<Byte>, now: seq<Byte>, luma: Move, chroma: Move,
                                      w: nat, cw: nat)
    requires Movable(luma, w, cw) && Movable(chroma, w, cw)
    requires Progress(was, mid, luma.bd, luma.bs, w, cw, 0, Moved(luma, w, cw))
    requires Progress(mid, now, chroma.bd, chroma.bs, w, cw, 0, Moved(chroma, w, cw))
    ensures OnlyPlanes(was, now, luma, chroma, w, cw) && Cropped(mid, now, chroma, w, cw)
    ensures Apart(luma, chroma, w, cw) ==> BothCropped(was, now, luma, chroma, w, cw)
  {
    if Apart(luma, chroma, w, cw) {
      PlaneKept(was, mid, now, luma.bd, luma.bs, w, cw, luma.rows, chroma.bd);
      SourceKept(was, mid, now, chroma.bd, chroma.bs, w, cw, chroma.rows, RowStart(luma.bd, cw, Moved(luma, w, cw)));
    }
  }

  /** One plane's move. */
  method CropMove(image: array<Byte>, m: Move, w: nat, cw: nat)
    requires MoveFits(image.Length, m, w, cw)
    modifies image
    ensures Progress(old(image[..]), image[..], m.bd, m.bs, w, cw, 0, Moved(m, w, cw))
  {
    CropPlane(image, m.bd, m.bs, w, cw, m.rows);
  }

  /** The luma plane, then the chroma plane. */
  method CropPlanes(image: array<Byte>, luma: Move, chroma: Move, w: nat, cw: nat) returns (ghost mid: seq<Byte>)
    requires MoveFits(image.Length, luma, w, cw) && MoveFits(image.Length, chroma, w, cw)
    modifies image
    ensures Progress(old(image[..]), mid, luma.bd, luma.bs, w, cw, 0, Moved(luma, w, cw))
    ensures Progress(mid, image[..], chroma.bd, chroma.bs, w, cw, 0, Moved(chroma, w, cw))
    ensures OnlyPlanes(old(image[..]), image[..], luma, chroma, w, cw)
    ensures Apart(luma, chroma, w, cw) ==> BothCropped(old(image[..]), image[..], luma, chroma, w, cw)
  {
    ghost var was := image[..];
    CropMove(image, luma, w, cw);
    mid := image[..];
    CropMove(image, chroma, w, cw);
    PlanesDone(was, mid, image[..], luma, chroma, w, cw);
  }

  /** The luma move, and then the chroma move on what it has left. */
  ghost predicate InTurn(was: seq<Byte>, mid: seq<Byte>, now: seq<Byte>, luma: Move, chroma: Move, w: nat, cw: nat) {
    && Movable(luma, w, cw) && Movable(chroma, w, cw)
    && Progress(was, mid, luma.bd, luma.bs, w, cw, 0, Moved(luma, w, cw))
    && Progress(mid, now, chroma.bd, chroma.bs, w, cw, 0, Moved(chroma, w, cw))
  }

  /** The two moves in turn determine the whole buffer, also when the planes overlap. */
  lemma {:induction false} InTurnDetermined(was: seq<Byte>, mid: seq<Byte>, now: seq<Byte>, mid': seq<Byte>,
                                            now': seq<Byte>,
                                            luma: Move, chroma: Move, w: nat, cw: nat)
    requires InTurn(was, mid, now, luma, chroma, w, cw) && InTurn(was, mid', now', luma, chroma, w, cw)
    ensures mid == mid' && now == now'
  {
    MoveDetermined(was, mid, mid', luma.bd, luma.bs, w, cw, Moved(luma, w, cw));
    MoveDetermined(mid, now, now', chroma.bd, chroma.bs, w, cw, Moved(chroma, w, cw));
  }

  // ----- which window it is -----

  /** The window of this size that begins at m lies inside; m is even, and the margin behind
      the window exceeds the one in front of it by three at most. */
  predicate Centred(full: nat, cropped: nat, m: nat) {
    m % 2 == 0 && 0 <= full - cropped - 2 * m <= 3
  }

  lemma {:induction false} CentredOnce(full: nat, cropped: nat, m: nat, n: nat)
    requires Centred(full, cropped, m) && Centred(full, cropped, n)
    ensures m == n
  {
  }

  /** The moves of the window that begins in column x and row y; chroma has half the rows. */
  ghost predicate WindowMoves(l: Layout, w: nat, ch: nat, x: nat, y: nat, luma: Move, chroma: Move) {
    && luma.bd == l.yDst && luma.bs == l.ySrc + y * w + x && luma.rows == ch
    && chroma.bd == l.cDst && chroma.bs == l.cSrc + (y / 2) * w + x && chroma.rows == ch / 2
  }

  ghost predicate SameByte(was: seq<Byte>, now: seq<Byte>, to: int, from: int) {
    0 <= to < |now| && 0 <= from < |was| && now[to] == was[from]
  }

  /** Byte j of row i of a plane of the cropped picture is byte j + x of row i + y of the
      original. */
  ghost predicate PixelCropped(was: seq<Byte>, now: seq<Byte>, dst: nat, src: nat, w: nat, cw: nat, x: nat, y: nat,
                               i: nat, j: nat) {
    SameByte(was, now, dst + i * cw + j, src + (i + y) * w + (j + x))
  }

  ghost predicate PlanePixels(was: seq<Byte>, now: seq<Byte>, dst: nat, src: nat, w: nat, cw: nat, rows: nat, x: nat,
                              y: nat) {
    forall i, j :: 0 <= i < rows && 0 <= j < cw ==> PixelCropped(was, now, dst, src, w, cw, x, y, i, j)
  }

  lemma {:induction false} WindowPixels(was: seq<Byte>, now: seq<Byte>, m: Move, src: nat, w: nat, cw: nat, x: nat,
                                        y: nat)
    requires Cropped(was, now, m, w, cw) && m.bs == src + y * w + x
    ensures PlanePixels(was, now, m.bd, src, w, cw, m.rows, x, y)
  {
    forall i, j | 0 <= i < m.rows && 0 <= j < cw ensures PixelCropped(was, now, m.bd, src, w, cw, x, y, i, j) {
      assert RowCopied(was, now, m.bd, m.bs, w, cw, i);
      var to, from := RowStart(m.bd, cw, i), RowStart(m.bs, w, i);
      assert i * w + y * w == (i + y) * w;
      assert now[to..to + cw][j] == was[from..from + cw][j];
    }
  }

  /** Each pixel keeps its colour: its two chroma bytes, which it shares with its neighbours,
      are those of the pixel it came from. */
  lemma {:induction false} PixelKeepsChroma(was: seq<Byte>, now: seq<Byte>, l: Layout, w: nat, h: nat, cw: nat, ch: nat,
                                            x: nat, y: nat, i: nat, j: nat, k: nat)
    requires Centred(w, cw, x) && Centred(h, ch, y)
    requires PlanePixels(was, now, l.cDst, l.cSrc, w, cw, ch / 2, x, y / 2)
    requires i / 2 < ch / 2 && k < 2 && j - j % 2 + k < cw
    ensures SameByte(was, now, l.cDst + (i / 2) * cw + (j - j % 2) + k,
                     l.cSrc + ((i + y) / 2) * w + (j + x - (j + x) % 2) + k)
  {
    var row, column := i / 2, j - j % 2 + k;
    assert PixelCropped(was, now, l.cDst, l.cSrc, w, cw, x, y / 2, row, column);
    assert (i + y) / 2 == row + y / 2 && (j + x) % 2 == j % 2;
  }

  /** crop_yuv420 on the window in the middle, which begins in column x and row y: nothing but
      the moved rows changes, and when the planes stay out of each other's way every luma byte
      of the cropped picture is that of the original x columns and y rows on, and every chroma
      byte the one x columns and y / 2 rows on. Otherwise the buffer is what the two moves in
      turn make of it. */
  method CropYuv420(w: nat, h: nat, cw: nat, ch: nat, image: array<Byte>, l: Layout)
    returns (ghost mid: seq<Byte>, ghost x: nat, ghost y: nat)
    requires cw <= w && ch <= h
    requires MoveFits(image.Length, LumaMove(l, w, h, cw, ch), w, cw)
             && MoveFits(image.Length, ChromaMove(l, w, h, cw, ch), w, cw)
    modifies image
    ensures InTurn(old(image[..]), mid, image[..], LumaMove(l, w, h, cw, ch), ChromaMove(l, w, h, cw, ch), w, cw)
    ensures OnlyPlanes(old(image[..]), image[..], LumaMove(l, w, h, cw, ch), ChromaMove(l, w, h, cw, ch), w, cw)
    ensures Centred(w, cw, x) && Centred(h, ch, y)
    ensures WindowMoves(l, w, ch, x, y, LumaMove(l, w, h, cw, ch), ChromaMove(l, w, h, cw, ch))
    ensures Apart(LumaMove(l, w, h, cw, ch), ChromaMove(l, w, h, cw, ch), w, cw)
            ==> BothCropped(old(image[..]), image[..], LumaMove(l, w, h, cw, ch), ChromaMove(l, w, h, cw, ch), w, cw)
                && PlanePixels(old(image[..]), image[..], l.yDst, l.ySrc, w, cw, ch, x, y)
                && PlanePixels(old(image[..]), image[..], l.cDst, l.cSrc, w, cw, ch / 2, x, y / 2)
  {
    ghost var was := image[..];
    x, y := Margin(w, cw), Margin(h, ch);
    mid := CropPlanes(image, LumaMove(l, w, h, cw, ch), ChromaMove(l, w, h, cw, ch), w, cw);
    WindowCropped(was, image[..], l, w, h, cw, ch, x, y);
  }

  lemma {:induction false} WindowCropped(was: seq<Byte>, now: seq<Byte>, l: Layout, w: nat, h: nat, cw: nat, ch: nat,
                                         x: nat, y: nat)
    requires cw <= w && ch <= h && x == Margin(w, cw) && y == Margin(h, ch)
    ensures var luma, chroma := LumaMove(l, w, h, cw, ch), ChromaMove(l, w, h, cw, ch);
            && WindowMoves(l, w, ch, x, y, luma, chroma)
            && (BothCropped(was, now, luma, chroma, w, cw)
                ==> PlanePixels(was, now, l.yDst, l.ySrc, w, cw, ch, x, y)
                    && PlanePixels(was, now, l.cDst, l.cSrc, w, cw, ch / 2, x, y / 2))
  {
    var luma, chroma := LumaMove(l, w, h, cw, ch), ChromaMove(l, w, h, cw, ch);
    if BothCropped(was, now, luma, chroma, w, cw) {
      WindowPixels(was, now, luma, l.ySrc, w, cw, x, y);
      WindowPixels(was, now, chroma, l.cSrc, w, cw, x, y / 2);
    }
  }

  // ----- the packed layout -----

  /** Every other caller than the snapshot camera packs the planes without padding. */
  function Packed(w: nat, h: nat, cw: nat, ch: nat): (l: Layout) { Layout(0, 0, w * h, cw * ch) }

  lemma {:induction false} Area(a: nat, b: nat, c: nat, d: nat)
    requires a <= c && b <= d
    ensures a * b <= c * d
  {
    assert a * b <= c * b <= c * d;
  }

  /** Packed planes never need a backward move, stay apart and fit, whatever the sizes. */
  lemma {:induction false} PackedWorks(w: nat, h: nat, cw: nat, ch: nat, len: nat)
    requires cw <= w && ch <= h && len >= w * h + w * (h / 2)
    ensures var l := Packed(w, h, cw, ch);
            var luma, chroma := LumaMove(l, w, h, cw, ch), ChromaMove(l, w, h, cw, ch);
            && MoveFits(len, luma, w, cw) && MoveFits(len, chroma, w, cw) && Apart(luma, chroma, w, cw)
            && Moved(luma, w, cw) == ch && Moved(chroma, w, cw) == ch / 2
  {
    Area(cw, ch, w, h);
    Area(cw, ch / 2, w, h / 2);
    var l, x, y := Packed(w, h, cw, ch), Margin(w, cw), Margin(h, ch);
    assert RowStart(0, cw, ch) == cw * ch;
    if ch > 0 { LastRow(0, w, h, cw, ch, y, x); }
    if ch / 2 > 0 { LastRow(w * h, w, h / 2, cw, ch / 2, y / 2, x); }
    assert RowStart(cw * ch, cw, ch / 2) == cw * ch + (ch / 2) * cw;
  }

  /** The last row of a window that starts in row y, column x of a plane of h rows. */
  lemma {:induction false} LastRow(base: nat, w: nat, h: nat, cw: nat, rows: nat, y: nat, x: nat)
    requires 0 < rows && y + rows <= h && x + cw <= w
    ensures RowStart(RowStart(base, w, y) + x, w, rows - 1) + cw <= base + w * h
  {
    assert y * w + (rows - 1) * w == (y + rows - 1) * w;
    assert (y + rows - 1) * w + w == (y + rows) * w <= h * w;
  }
}

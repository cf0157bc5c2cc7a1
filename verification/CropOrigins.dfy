/**
 Planes that are cropped in each other's way (camerahal/QualcommCameraHardware.cpp,
 crop_yuv420): where each byte of the buffer comes from, exactly when both planes of every
 picture are cropped, and a layout for which they are not.
 */
module CropOrigins {
  import opened Crop

  // ----- buffers as maps of places -----

  /** For each place of a buffer, the place that its byte comes from. */
  ghost predicate IsMap(o: seq<nat>) { forall b :: 0 <= b < |o| ==> o[b] < |o| }

  ghost function Taken(was: seq<Byte>, o: seq<nat>): (now: seq<Byte>)
    requires |o| == |was| && IsMap(o)
    ensures |now| == |was| && forall b :: 0 <= b < |o| ==> now[b] == was[o[b]]
  {
    seq(|o|, b requires 0 <= b < |o| => was[o[b]])
  }

  ghost function Through(a: seq<nat>, b: seq<nat>): (o: seq<nat>)
    requires |a| == |b| && IsMap(a) && IsMap(b)
    ensures |o| == |a| && IsMap(o) && forall k :: 0 <= k < |o| ==> o[k] == a[b[k]]
  {
    seq(|b|, k requires 0 <= k < |b| => a[b[k]])
  }

  lemma {:induction false} TakenTwice(was: seq<Byte>, a: seq<nat>, b: seq<nat>)
    requires |a| == |b| == |was| && IsMap(a) && IsMap(b)
    ensures Taken(Taken(was, a), b) == Taken(was, Through(a, b))
  {
  }

  ghost predicate ComesAt(o: seq<nat>, dst: nat, src: nat, k: nat) { dst + k < |o| && o[dst + k] == src + k }

  /** The n bytes from dst on come from the n bytes from src on. */
  ghost predicate Comes(o: seq<nat>, dst: nat, src: nat, n: nat) {
    forall k: nat :: k < n ==> ComesAt(o, dst, src, k)
  }

  lemma {:induction false} ComesCopied(was: seq<Byte>, o: seq<nat>, dst: nat, src: nat, n: nat)
    requires |o| == |was| && IsMap(o) && dst + n <= |was| && src + n <= |was| && Comes(o, dst, src, n)
    ensures Copied(was, Taken(was, o), dst, src, n)
  {
    var now := Taken(was, o);
    var a, b := now[dst..dst + n], was[src..src + n];
    forall k: nat | k < n ensures a[k] == b[k] { assert ComesAt(o, dst, src, k); }
  }

  /** A picture that tells one place from all others. */
  ghost function Dot(len: nat, p: nat): (was: seq<Byte>)
    ensures |was| == len && forall b :: 0 <= b < len ==> was[b] == if b == p then 1 else 0
  {
    seq(len, b => if b == p then 1 else 0)
  }

  lemma {:induction false} CopiedComes(o: seq<nat>, dst: nat, src: nat, n: nat, k: nat)
    requires IsMap(o) && dst + n <= |o| && src + n <= |o| && k < n
    requires Copied(Dot(|o|, src + k), Taken(Dot(|o|, src + k), o), dst, src, n)
    ensures ComesAt(o, dst, src, k)
  {
    var was := Dot(|o|, src + k);
    var now := Taken(was, o);
    assert now[dst + k] == now[dst..dst + n][k] == was[src..src + n][k] == was[src + k];
  }

  // ----- the maps of the moves -----

  /** The place that a byte comes from in a move. */
  function Origin(m: Move, w: nat, cw: nat, b: nat): (p: nat)
    requires Movable(m, w, cw)
  {
    if cw > 0 && InPlane(m, w, cw, b) then RowStart(m.bs, w, (b - m.bd) / cw) + (b - m.bd) % cw else b
  }

  lemma {:induction false} Quotient(i: nat, k: nat, d: nat)
    requires k < d
    ensures (i * d + k) / d == i && (i * d + k) % d == k
  {
    var n := i * d + k;
    var q, r := n / d, n % d;
    assert n == q * d + r;
    if q < i { Multiples(q + 1, i, d); }
    if q > i { Multiples(i + 1, q, d); }
  }

  /** In row i, column k of the destination it is row i, column k of the source. */
  lemma {:induction false} OriginAt(m: Move, w: nat, cw: nat, i: nat, k: nat)
    requires Movable(m, w, cw) && i < Moved(m, w, cw) && k < cw
    ensures Origin(m, w, cw, RowStart(m.bd, cw, i) + k) == RowStart(m.bs, w, i) + k
  {
    RowOrder(m.bd, cw, i, Moved(m, w, cw));
    Quotient(i, k, cw);
  }

  lemma {:induction false} OriginInside(len: nat, m: Move, w: nat, cw: nat, b: nat)
    requires MoveFits(len, m, w, cw) && b < len
    ensures Origin(m, w, cw, b) < len
  {
    if cw > 0 && InPlane(m, w, cw, b) {
      var n := Moved(m, w, cw);
      var i := RowAt(m.bd, cw, n, b);
      RowFits(len, m.bd, m.bs, w, cw, n, i);
      OriginAt(m, w, cw, i, b - RowStart(m.bd, cw, i));
    }
  }

  ghost function Origins(len: nat, m: Move, w: nat, cw: nat): (o: seq<nat>)
    requires MoveFits(len, m, w, cw)
    ensures |o| == len && IsMap(o)
  {
    forall b: nat | b < len ensures Origin(m, w, cw, b) < len { OriginInside(len, m, w, cw, b); }
    seq(len, b requires 0 <= b < len => Origin(m, w, cw, b))
  }

  /** The map of a move leaves places outside the moved rows alone and leads from their
      destinations to their sources. */
  lemma {:induction false} OriginsKeep(len: nat, m: Move, w: nat, cw: nat, b: nat)
    requires MoveFits(len, m, w, cw) && b < len && !InPlane(m, w, cw, b)
    ensures Origins(len, m, w, cw)[b] == b
  {
  }

  lemma {:induction false} OriginsMove(len: nat, m: Move, w: nat, cw: nat, i: nat)
    requires MoveFits(len, m, w, cw) && i < Moved(m, w, cw)
    ensures Comes(Origins(len, m, w, cw), RowStart(m.bd, cw, i), RowStart(m.bs, w, i), cw)
  {
    var o, dst, src := Origins(len, m, w, cw), RowStart(m.bd, cw, i), RowStart(m.bs, w, i);
    RowFits(len, m.bd, m.bs, w, cw, Moved(m, w, cw), i);
    forall k: nat | k < cw ensures ComesAt(o, dst, src, k) { OriginAt(m, w, cw, i, k); }
  }

  /** Moving the plane is taking every byte from its origin. */
  lemma {:induction false} MoveTakes(was: seq<Byte>, m: Move, w: nat, cw: nat)
    requires MoveFits(|was|, m, w, cw)
    ensures Progress(was, Taken(was, Origins(|was|, m, w, cw)), m.bd, m.bs, w, cw, 0, Moved(m, w, cw))
  {
    var o, n := Origins(|was|, m, w, cw), Moved(m, w, cw);
    var now := Taken(was, o);
    forall i | 0 <= i < n ensures RowCopied(was, now, m.bd, m.bs, w, cw, i) {
      RowFits(|was|, m.bd, m.bs, w, cw, n, i);
      OriginsMove(|was|, m, w, cw, i);
      ComesCopied(was, o, RowStart(m.bd, cw, i), RowStart(m.bs, w, i), cw);
    }
    forall b: nat | b < |was| && !InPlane(m, w, cw, b) ensures now[b] == was[b] { OriginsKeep(|was|, m, w, cw, b); }
  }

  /** Both moves, the luma move first. */
  ghost function BothOrigins(len: nat, luma: Move, chroma: Move, w: nat, cw: nat): (o: seq<nat>)
    requires MoveFits(len, luma, w, cw) && MoveFits(len, chroma, w, cw)
    ensures |o| == len && IsMap(o)
  {
    Through(Origins(len, luma, w, cw), Origins(len, chroma, w, cw))
  }

  /** The two moves in turn take every byte from its origin. */
  lemma {:induction false} InTurnTakes(was: seq<Byte>, mid: seq<Byte>, now: seq<Byte>, luma: Move, chroma: Move, w: nat,
                                       cw: nat)
    requires MoveFits(|was|, luma, w, cw) && MoveFits(|was|, chroma, w, cw)
    requires InTurn(was, mid, now, luma, chroma, w, cw)
    ensures now == Taken(was, BothOrigins(|was|, luma, chroma, w, cw))
  {
    var a, b := Origins(|was|, luma, w, cw), Origins(|was|, chroma, w, cw);
    MoveTakes(was, luma, w, cw);
    MoveTakes(Taken(was, a), chroma, w, cw);
    InTurnDetermined(was, mid, now, Taken(was, a), Taken(Taken(was, a), b), luma, chroma, w, cw);
    TakenTwice(was, a, b);
  }

  // ----- when both planes are cropped -----

  ghost predicate RowRight(o: seq<nat>, m: Move, w: nat, cw: nat, i: nat) {
    Comes(o, RowStart(m.bd, cw, i), RowStart(m.bs, w, i), cw)
  }

  /** All rows of the window come from the right places: a matter of sizes and offsets. */
  ghost predicate WindowRight(o: seq<nat>, m: Move, w: nat, cw: nat) {
    forall i: nat :: i < m.rows ==> RowRight(o, m, w, cw, i)
  }

  lemma {:induction false} RightCropped(was: seq<Byte>, o: seq<nat>, m: Move, w: nat, cw: nat)
    requires |o| == |was| && IsMap(o) && MoveFits(|was|, m, w, cw) && WindowRight(o, m, w, cw)
    ensures Cropped(was, Taken(was, o), m, w, cw)
  {
    forall i | 0 <= i < m.rows ensures RowCopied(was, Taken(was, o), m.bd, m.bs, w, cw, i) {
      assert RowRight(o, m, w, cw, i);
      RowFits(|was|, m.bd, m.bs, w, cw, Moved(m, w, cw), i);
      ComesCopied(was, o, RowStart(m.bd, cw, i), RowStart(m.bs, w, i), cw);
    }
  }

  /** Every picture is cropped by this move. */
  ghost predicate AlwaysCropped(o: seq<nat>, m: Move, w: nat, cw: nat)
    requires IsMap(o)
  {
    forall was: seq<Byte> :: |was| == |o| ==> Cropped(was, Taken(was, o), m, w, cw)
  }

  lemma {:induction false} CroppedRow(o: seq<nat>, m: Move, w: nat, cw: nat, i: nat)
    requires IsMap(o) && MoveFits(|o|, m, w, cw) && AlwaysCropped(o, m, w, cw) && i < m.rows
    ensures RowRight(o, m, w, cw, i)
  {
    var dst, src := RowStart(m.bd, cw, i), RowStart(m.bs, w, i);
    RowFits(|o|, m.bd, m.bs, w, cw, Moved(m, w, cw), i);
    forall k: nat | k < cw ensures ComesAt(o, dst, src, k) {
      var was := Dot(|o|, src + k);
      assert Cropped(was, Taken(was, o), m, w, cw);
      assert RowCopied(was, Taken(was, o), m.bd, m.bs, w, cw, i);
      CopiedComes(o, dst, src, cw, k);
    }
  }

  lemma {:induction false} AlwaysCroppedIff(o: seq<nat>, m: Move, w: nat, cw: nat)
    requires IsMap(o) && MoveFits(|o|, m, w, cw)
    ensures AlwaysCropped(o, m, w, cw) <==> WindowRight(o, m, w, cw)
  {
    if WindowRight(o, m, w, cw) {
      forall was: seq<Byte> | |was| == |o| ensures Cropped(was, Taken(was, o), m, w, cw) {
        RightCropped(was, o, m, w, cw);
      }
    }
    if AlwaysCropped(o, m, w, cw) {
      forall i: nat | i < m.rows ensures RowRight(o, m, w, cw, i) { CroppedRow(o, m, w, cw, i); }
    }
  }

  /** The two moves in turn crop both planes of every picture if and only if all bytes of both
      windows come from the right places. */
  lemma {:induction false} BothCroppedIff(len: nat, luma: Move, chroma: Move, w: nat, cw: nat)
    requires MoveFits(len, luma, w, cw) && MoveFits(len, chroma, w, cw)
    ensures var o := BothOrigins(len, luma, chroma, w, cw);
            (forall was: seq<Byte> :: |was| == len ==> BothCropped(was, Taken(was, o), luma, chroma, w, cw))
            <==> WindowRight(o, luma, w, cw) && WindowRight(o, chroma, w, cw)
  {
    var o := BothOrigins(len, luma, chroma, w, cw);
    AlwaysCroppedIff(o, luma, w, cw);
    AlwaysCroppedIff(o, chroma, w, cw);
    if forall was: seq<Byte> :: |was| == len ==> BothCropped(was, Taken(was, o), luma, chroma, w, cw) {
      forall was: seq<Byte> | |was| == len
        ensures Cropped(was, Taken(was, o), luma, w, cw) && Cropped(was, Taken(was, o), chroma, w, cw)
      {
        assert BothCropped(was, Taken(was, o), luma, chroma, w, cw);
      }
    }
  }

  // ----- a layout that damages the chroma plane -----

  lemma {:induction false} ByteCopied(was: seq<Byte>, now: seq<Byte>, bd: nat, bs: nat, w: nat, cw: nat, i: nat, k: nat)
    requires RowCopied(was, now, bd, bs, w, cw, i) && k < cw
    ensures RowStart(bd, cw, i) + k < |now| && RowStart(bs, w, i) + k < |was|
    ensures now[RowStart(bd, cw, i) + k] == was[RowStart(bs, w, i) + k]
  {
    var dst, src := RowStart(bd, cw, i), RowStart(bs, w, i);
    assert now[dst..dst + cw][k] == was[src..src + cw][k];
  }

  /** Where luma row i, extra rows included, is written over the chroma window, the chroma
      plane shows luma. */
  lemma {:induction false} Overwritten(was: seq<Byte>, mid: seq<Byte>, now: seq<Byte>, luma: Move, chroma: Move, w: nat,
                                       cw: nat, i: nat, k: nat, j: nat, c: nat)
    requires InTurn(was, mid, now, luma, chroma, w, cw)
    requires i < Moved(luma, w, cw) && k < cw && j < chroma.rows && c < cw
    requires RowStart(luma.bd, cw, i) + k == RowStart(chroma.bs, w, j) + c
    ensures var dst, src := RowStart(chroma.bd, cw, j) + c, RowStart(luma.bs, w, i) + k;
            var own := RowStart(chroma.bs, w, j) + c;
            && dst < |now| && src < |was| && own < |was| && now[dst] == was[src]
            && (was[src] != was[own] ==> !Cropped(was, now, chroma, w, cw))
  {
    assert RowCopied(was, mid, luma.bd, luma.bs, w, cw, i) && RowCopied(mid, now, chroma.bd, chroma.bs, w, cw, j);
    ByteCopied(was, mid, luma.bd, luma.bs, w, cw, i, k);
    ByteCopied(mid, now, chroma.bd, chroma.bs, w, cw, j, c);
    if Cropped(was, now, chroma, w, cw) {
      assert RowCopied(was, now, chroma.bd, chroma.bs, w, cw, j);
      ByteCopied(was, now, chroma.bd, chroma.bs, w, cw, j, c);
    }
  }

  /** A luma move that goes far enough back for the switch-over row to lie behind its rows. */
  const FAR_LUMA := Move(3, 0, 2)
  const NEXT_CHROMA := Move(7, 7, 1)

  /** They are what a picture of two rows of three bytes, cropped to two columns, asks for when
      its luma plane is padded by a byte. */
  lemma {:induction false} FarBackLuma(l: Layout)
    requires l == Layout(0, 3, 7, 7)
    ensures LumaMove(l, 3, 2, 2, 2) == FAR_LUMA
  {
    assert Margin(3, 2) == 0 && Margin(2, 2) == 0;
    assert RowStart(0, 3, 0) == 0;
  }

  lemma {:induction false} FarBackChroma(l: Layout)
    requires l == Layout(0, 3, 7, 7)
    ensures ChromaMove(l, 3, 2, 2, 2) == NEXT_CHROMA
  {
    assert Margin(3, 2) == 0 && Margin(2, 2) == 0;
    assert RowStart(7, 3, 0) == 7;
  }

  lemma {:induction false} FarBackExtra()
    ensures Moved(FAR_LUMA, 3, 2) == 4 && MoveFits(11, FAR_LUMA, 3, 2)
  {
    assert RowStart(3, 2, 4) == 11 && RowStart(0, 3, 3) == 9;
  }

  lemma {:induction false} NextFits()
    ensures MoveFits(11, NEXT_CHROMA, 3, 2)
  {
    assert RowStart(7, 2, 1) == 9 && RowStart(7, 3, 0) == 7;
  }

  /** Both moves fit a buffer of eleven bytes. */
  lemma {:induction false} BothFit()
    ensures MoveFits(11, FAR_LUMA, 3, 2) && MoveFits(11, NEXT_CHROMA, 3, 2)
  {
    FarBackExtra();
    NextFits();
  }

  lemma {:induction false} FarBackPlaces()
    ensures RowStart(3, 2, 2) == 7 == RowStart(7, 3, 0) == RowStart(7, 2, 0) && RowStart(0, 3, 2) == 6
  {
  }

  /** The cropped planes and their windows are apart. But the extra row of the luma move writes
      over the chroma window, and the cropped chroma plane starts with the byte before it. */
  lemma {:induction false} ExtraRowDamages(was: seq<Byte>, mid: seq<Byte>, now: seq<Byte>)
    requires InTurn(was, mid, now, FAR_LUMA, NEXT_CHROMA, 3, 2)
    ensures FAR_LUMA.rows < Moved(FAR_LUMA, 3, 2)
    ensures 7 < |now| && 7 < |was| && now[7] == was[6]
    ensures was[6] != was[7] ==> !Cropped(was, now, NEXT_CHROMA, 3, 2)
  {
    FarBackExtra();
    FarBackPlaces();
    Overwritten(was, mid, now, FAR_LUMA, NEXT_CHROMA, 3, 2, 2, 0, 0, 0);
  }
}

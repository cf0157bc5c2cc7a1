/**
 Where the samples of a call of pollEvents (libsensors/nusensors.cpp) go. A failed read moves
 the pointer into the caller's array backwards by its error number, and gives that much room
 back: earlier samples are overwritten, or the array is left at its front, and the number
 returned is below the number of samples written.
 */
module SensorWrites {
  import opened Shared
  import opened InputRing
  import opened SensorReaders
  import opened SensorCalls

  // ----- what the readers offer -----

  /** What a turn comes to when there is room for everything: samples, or a failed read whose
      error is subtracted from the number returned and so added to the room. */
  datatype Offer = Gave(n: nat) | Lost(errno: Errno)

  function OfferOf(s: Source, r: ReadResult): (t: Offer)
    requires |s.contents| <= s.size
  {
    if ReadFails(s, r) then Lost(ErrorOf(r))
    else Gave(|Fold(s.state, Filled(s, r).contents).1|)
  }

  /** The sensor after such a turn. */
  function Emptied(s: Source, r: ReadResult): (t: Sensor)
    requires |s.contents| <= s.size
    ensures |t.source.contents| <= t.source.size
  {
    var f := Filled(s, r);
    Sensor(if ReadFails(s, r) then s else f.(state := Fold(s.state, f.contents).0, contents := []), false)
  }

  /** The turns of the first k sensors of a pass with room for everything. */
  ghost function OffersUpTo(sensors: seq<Sensor>, script: seq<ReadResult>, k: nat)
    : (r: (seq<Sensor>, seq<ReadResult>, seq<Offer>))
    requires Fits(sensors) && k <= |sensors|
    ensures Fits(r.0) && |r.0| == |sensors|
  {
    if k == 0 then (sensors, script, [])
    else
      var (now, left, offers) := OffersUpTo(sensors, script, k - 1);
      if !now[k - 1].marked then (now, left, offers)
      else
        var source, r := now[k - 1].source, Outcome(left);
        (now[k - 1 := Emptied(source, r)], Later(left), offers + [OfferOf(source, r)])
  }

  /** All turns of a call with room for everything. */
  ghost function Offers(sensors: seq<Sensor>, script: seq<ReadResult>, polls: seq<PollResult>): (t: seq<Offer>)
    requires Fits(sensors)
    decreases |polls|
  {
    var (now, left, offers) := OffersUpTo(sensors, script, |sensors|);
    if NextOf(polls).More? then offers + Offers(Marked(now, NextOf(polls).marks), left, polls[1..]) else offers
  }

  /** The offers taken one after the other while there is room: the room left and the number
      of samples taken. */
  function Drain(offers: seq<Offer>, room: nat): (r: (nat, nat)) {
    if offers == [] then (room, 0)
    else
      var n := |offers| - 1;
      var (left, taken) := Drain(offers[..n], room);
      if left == 0 then (0, taken)
      else match offers[n]
        case Gave(k) => (left - Min(k, left), taken + Min(k, left))
        case Lost(e) => (left + e, taken)
  }

  function Total(offers: seq<Offer>): (n: nat) {
    if offers == [] then 0
    else Total(offers[..|offers| - 1]) + match offers[|offers| - 1] case Gave(k) => k case Lost(_) => 0
  }

  lemma {:induction false} DrainConcat(a: seq<Offer>, b: seq<Offer>, room: nat)
    ensures var (left, taken) := Drain(a, room);
            Drain(a + b, room) == (Drain(b, left).0, taken + Drain(b, left).1)
    decreases |b|
  {
    if b == [] {
      assert a + b == a;
    } else {
      var n := |b| - 1;
      DrainConcat(a, b[..n], room);
      assert (a + b)[..|a + b| - 1] == a + b[..n];
    }
  }

  /** With some room left everything was taken. */
  lemma {:induction false} DrainTotal(offers: seq<Offer>, room: nat)
    ensures var (left, taken) := Drain(offers, room);
            taken <= Total(offers) && (left != 0 ==> taken == Total(offers))
  {
    if offers != [] { DrainTotal(offers[..|offers| - 1], room); }
  }

  /** A read fails while the samples before it have not used up the room. */
  ghost predicate LosesAt(offers: seq<Offer>, room: nat, k: nat) {
    k < |offers| && offers[k].Lost? && Total(offers[..k]) < room
  }

  ghost predicate Loses(offers: seq<Offer>, room: nat) { exists k: nat :: LosesAt(offers, room, k) }

  lemma {:induction false} LosesSnoc(a: seq<Offer>, x: Offer, room: nat)
    ensures Loses(a + [x], room) <==> Loses(a, room) || (x.Lost? && Total(a) < room)
  {
    var s := a + [x];
    assert s[..|a|] == a;
    assert LosesAt(s, room, |a|) <==> x.Lost? && Total(a) < room;
    forall k: nat | k < |a| ensures LosesAt(s, room, k) <==> LosesAt(a, room, k) {
      assert s[..k] == a[..k];
    }
    if Loses(a, room) {
      var k: nat :| LosesAt(a, room, k);
      assert LosesAt(s, room, k);
    }
  }

  /** Room is gained exactly by such a failure. */
  lemma {:induction false} DrainBalance(offers: seq<Offer>, room: nat)
    ensures var (left, taken) := Drain(offers, room);
            if Loses(offers, room) then left + taken > room else left + taken == room
  {
    if offers != [] {
      var n := |offers| - 1;
      DrainBalance(offers[..n], room);
      DrainTotal(offers[..n], room);
      assert offers == offers[..n] + [offers[n]];
      LosesSnoc(offers[..n], offers[n], room);
    }
  }

  lemma {:induction false} DrainExceedsIff(offers: seq<Offer>, room: nat)
    ensures Drain(offers, room).1 > room <==> Loses(offers, room) && Total(offers) > room
  {
    DrainBalance(offers, room);
    DrainTotal(offers, room);
  }

  /** The errors that have been subtracted. */
  function Errors(offers: seq<Offer>): (n: nat) {
    if offers == [] then 0
    else Errors(offers[..|offers| - 1]) + match offers[|offers| - 1] case Gave(_) => 0 case Lost(e) => e
  }

  /** As long as there is room, it is what was asked for, less the samples, plus the errors. */
  lemma {:induction false} DrainLeft(offers: seq<Offer>, room: nat)
    ensures var left := Drain(offers, room).0;
            left != 0 ==> left == room + Errors(offers) - Total(offers)
  {
    if offers != [] { DrainLeft(offers[..|offers| - 1], room); }
  }

  // ----- where they are written -----

  function AtOf(out: seq<Write>): (at: seq<int>)
    ensures |at| == |out|
  {
    seq(|out|, k requires 0 <= k < |out| => out[k].at)
  }

  function Range(at: int, n: nat): (r: seq<int>)
    ensures |r| == n && forall k :: 0 <= k < n ==> r[k] == at + k
  {
    seq(n, k => at + k)
  }

  /** The places that the samples of these offers go to. The room left always reaches up to
      the end of the array, and so a turn starts that much before it. */
  function Places(offers: seq<Offer>, room: nat, end: int): (r: seq<int>)
    ensures |r| == Drain(offers, room).1
  {
    if offers == [] then []
    else
      var n := |offers| - 1;
      Places(offers[..n], room, end) + PlacesOf(offers[n], Drain(offers[..n], room).0, end)
  }

  /** The places of one offer. */
  function PlacesOf(offer: Offer, left: nat, end: int): (r: seq<int>) {
    if offer.Gave? then Range(end - left, Min(offer.n, left)) else []
  }

  lemma {:induction false} PlacesSnoc(a: seq<Offer>, x: Offer, room: nat, end: int)
    ensures Places(a + [x], room, end) == Places(a, room, end) + PlacesOf(x, Drain(a, room).0, end)
  {
    assert (a + [x])[..|a|] == a;
  }

  ghost predicate Splits(a: seq<Offer>, b: seq<Offer>, room: nat, end: int) {
    Places(a + b, room, end) == Places(a, room, end) + Places(b, Drain(a, room).0, end)
  }

  lemma {:induction false} SplitsNone(a: seq<Offer>, room: nat, end: int)
    ensures Splits(a, [], room, end)
  {
    assert a + [] == a;
  }

  /** Taking more goes on where the offers before have stopped. */
  lemma {:induction false} PlacesConcat(a: seq<Offer>, b: seq<Offer>, room: nat, end: int)
    ensures Splits(a, b, room, end)
    decreases |b|
  {
    if b == [] {
      SplitsNone(a, room, end);
    } else {
      var n := |b| - 1;
      PlacesConcat(a, b[..n], room, end);
      ConcatSnoc(a, b[..n], b[n], room, end);
      assert b[..n] + [b[n]] == b;
    }
  }

  lemma {:induction false} ConcatSnoc(a: seq<Offer>, b: seq<Offer>, x: Offer, room: nat, end: int)
    requires Splits(a, b, room, end)
    ensures Splits(a, b + [x], room, end)
  {
    DrainConcat(a, b, room);
    PlacesSnoc(a + b, x, room, end);
    PlacesSnoc(b, x, Drain(a, room).0, end);
    Associate(a, b, [x]);
    Regroup(Places(a, room, end), Places(b, Drain(a, room).0, end), PlacesOf(x, Drain(a + b, room).0, end),
            Places(a + b, room, end), Places(b + [x], Drain(a, room).0, end), Places((a + b) + [x], room, end));
  }

  lemma {:induction false} Regroup<T>(a: seq<T>, b: seq<T>, x: seq<T>, ab: seq<T>, bx: seq<T>, abx: seq<T>)
    requires ab == a + b && bx == b + x && abx == ab + x
    ensures abx == a + bx
  {
    Associate(a, b, x);
  }

  /** A real turn takes what is offered as far as there is room. */
  lemma {:induction false} TurnTakes(s: Sensor, room: nat, r: ReadResult)
    requires |s.source.contents| <= s.source.size && room >= 1 && s.marked
    ensures var (nb, s', out) := TurnOf(s, room, r);
            && (room - nb, |out|) == Drain([OfferOf(s.source, r)], room)
            && (nb < room ==> s' == Emptied(s.source, r))
  {
    var f, offer := Filled(s.source, r), OfferOf(s.source, r);
    assert [offer][..0] == [];
    if !ReadFails(s.source, r) {
      ServeCount(f.state, f.contents, room);
      if |Fold(f.state, f.contents).1| < room { ServeAll(f.state, f.contents, room); }
    }
  }

  /** The end of the array that a call fills: the next place and the room from there. */
  function EndOf(c: Call): (end: int) { c.nbEvents + c.room }

  /** From c to d the offers have been taken, and written one after the other. */
  ghost predicate Took(c: Call, d: Call, offers: seq<Offer>) {
    && d.room == Drain(offers, c.room).0 && EndOf(d) == EndOf(c)
    && AtOf(d.out) == AtOf(c.out) + Places(offers, c.room, EndOf(c))
  }

  lemma {:induction false} TookMore(c: Call, d: Call, e: Call, a: seq<Offer>, b: seq<Offer>)
    requires Took(c, d, a) && Took(d, e, b)
    ensures Took(c, e, a + b)
  {
    DrainConcat(a, b, c.room);
    PlacesConcat(a, b, c.room, EndOf(c));
    Associate(AtOf(c.out), Places(a, c.room, EndOf(c)), Places(b, d.room, EndOf(c)));
  }

  lemma {:induction false} DrainDry(offers: seq<Offer>)
    ensures Drain(offers, 0) == (0, 0)
  {
    if offers != [] { DrainDry(offers[..|offers| - 1]); }
  }

  /** Without room nothing is taken. */
  lemma {:induction false} TookNothing(c: Call, offers: seq<Offer>)
    requires c.room == 0
    ensures Took(c, c, offers)
  {
    DrainDry(offers);
    assert Places(offers, 0, EndOf(c)) == [];
  }

  /** As long as there is room, a pass goes as it would with room for everything. */
  ghost predicate Agrees(c: Call, d: Call, sensors: seq<Sensor>, script: seq<ReadResult>, offers: seq<Offer>) {
    Took(c, d, offers) && (d.room != 0 ==> d.sensors == sensors && d.script == script)
  }

  /** One turn takes one offer. */
  lemma {:induction false} VisitTook(d: Call, i: nat)
    requires Fits(d.sensors) && i < |d.sensors| && d.room != 0 && d.sensors[i].marked
    ensures var source, r := d.sensors[i].source, Outcome(d.script);
            && Took(d, VisitOf(d, i), [OfferOf(source, r)])
            && (VisitOf(d, i).room != 0 ==> VisitOf(d, i).sensors == d.sensors[i := Emptied(source, r)])
  {
    var s, r := d.sensors[i], Outcome(d.script);
    TurnTakes(s, d.room, r);
    TurnWrites(d, i, TurnOf(s, d.room, r).2, OfferOf(s.source, r));
  }

  lemma {:induction false} AtOfConcat(a: seq<Write>, b: seq<Write>)
    ensures AtOf(a + b) == AtOf(a) + AtOf(b)
  {
  }

  lemma {:induction false} AtOfFrom(i: nat, at: int, samples: seq<Sample>)
    ensures AtOf(From(i, at, samples)) == Range(at, |samples|)
  {
  }

  lemma {:induction false} TurnWrites(d: Call, i: nat, samples: seq<Sample>, offer: Offer)
    requires |samples| == Drain([offer], d.room).1
    ensures AtOf(d.out + From(i, d.nbEvents, samples)) == AtOf(d.out) + Places([offer], d.room, EndOf(d))
  {
    AtOfConcat(d.out, From(i, d.nbEvents, samples));
    AtOfFrom(i, d.nbEvents, samples);
    OnePlaces(offer, d.room, EndOf(d));
  }

  lemma {:induction false} OnePlaces(offer: Offer, room: nat, end: int)
    ensures Places([offer], room, end) == Range(end - room, Drain([offer], room).1)
  {
    assert [offer][..0] == [];
  }

  lemma {:induction false} VisitTakes(c: Call, d: Call, i: nat, sensors: seq<Sensor>, script: seq<ReadResult>,
                                      offers: seq<Offer>)
    requires Fits(d.sensors) && Fits(sensors) && i < |d.sensors| == |sensors| && sensors[i].marked
    requires Agrees(c, d, sensors, script, offers)
    ensures var source, r := sensors[i].source, Outcome(script);
            Agrees(c, VisitOf(d, i), sensors[i := Emptied(source, r)], Later(script), offers + [OfferOf(source, r)])
  {
    var offer := OfferOf(sensors[i].source, Outcome(script));
    if d.room == 0 {
      TookNothing(d, [offer]);
    } else {
      VisitTook(d, i);
    }
    TookMore(c, d, VisitOf(d, i), offers, [offer]);
  }

  lemma {:induction false} PassTakes(c: Call, k: nat)
    requires Fits(c.sensors) && k <= |c.sensors|
    ensures var (now, left, offers) := OffersUpTo(c.sensors, c.script, k);
            Agrees(c, PassUpTo(c, k), now, left, offers)
  {
    if k > 0 {
      PassTakes(c, k - 1);
      var (now, left, offers) := OffersUpTo(c.sensors, c.script, k - 1);
      if now[k - 1].marked { VisitTakes(c, PassUpTo(c, k - 1), k - 1, now, left, offers); }
    }
  }

  /** A call takes what the readers offer in turn, as far as there is room. */
  lemma {:induction false} CallTakes(c: Call, polls: seq<PollResult>)
    requires Fits(c.sensors)
    ensures Took(c, CallOf(c, polls).1, Offers(c.sensors, c.script, polls))
    decreases |polls|
  {
    PassTakes(c, |c.sensors|);
    var (now, left, offers) := OffersUpTo(c.sensors, c.script, |c.sensors|);
    if NextOf(polls).More? {
      var d, rest := PassOf(c), Offers(Marked(now, NextOf(polls).marks), left, polls[1..]);
      if d.room == 0 {
        TookNothing(d, rest);
        TookMore(c, d, d, offers, rest);
      } else {
        var v := AfterPoll(c, polls);
        CallTakes(v, polls[1..]);
        assert Took(c, v, offers);
        TookMore(c, v, CallOf(v, polls[1..]).1, offers, rest);
      }
    }
  }

  // ----- what the caller gets -----

  /** The call ends because poll() fails. */
  ghost predicate EndsInError(c: Call, polls: seq<PollResult>)
    requires Fits(c.sensors)
    decreases |polls|
  {
    PassOf(c).room != 0
    && (NextOf(polls).Stop? || (NextOf(polls).More? && EndsInError(AfterPoll(c, polls), polls[1..])))
  }

  lemma {:induction false} RoundOfError(c: Call, polls: seq<PollResult>, n: int, d: Call, left: seq<PollResult>)
    requires Fits(c.sensors) && Fits(d.sensors) && RoundTakes(c, polls, n, d, left)
    ensures EndsInError(c, polls) <==> n < 0 || (n > 0 && EndsInError(d, left))
  {
  }

  lemma {:induction false} ResultIs(c: Call, polls: seq<PollResult>)
    requires Fits(c.sensors)
    ensures var (res, d) := CallOf(c, polls);
            if EndsInError(c, polls) then res < 0 else res == d.nbEvents
    decreases |polls|
  {
    if PassOf(c).room != 0 && NextOf(polls).More? { ResultIs(AfterPoll(c, polls), polls[1..]); }
  }

  /** A call for count samples. */
  function Asked(sensors: seq<Sensor>, count: nat, script: seq<ReadResult>): (c: Call) {
    Call(sensors, count, 0, [], script)
  }

  /** No write reaches the end of the array, and the result never exceeds the number asked for. */
  lemma {:induction false} PlacesBelow(offers: seq<Offer>, room: nat, end: int, k: nat)
    requires k < |Places(offers, room, end)|
    ensures Places(offers, room, end)[k] < end
  {
    var n := |offers| - 1;
    if k < |Places(offers[..n], room, end)| { PlacesBelow(offers[..n], room, end, k); }
  }

  lemma {:induction false} NoneBeyond(sensors: seq<Sensor>, count: nat, script: seq<ReadResult>, polls: seq<PollResult>)
    requires Fits(sensors)
    ensures var (res, d) := CallOf(Asked(sensors, count, script), polls);
            res <= count && forall k :: 0 <= k < |d.out| ==> d.out[k].at < count
  {
    var c := Asked(sensors, count, script);
    var d := CallOf(c, polls).1;
    CallTakes(c, polls);
    ResultIs(c, polls);
    var places := Places(Offers(sensors, script, polls), count, count);
    assert AtOf(d.out) == [] + places == places;
    forall k | 0 <= k < |d.out| ensures d.out[k].at < count {
      PlacesBelow(Offers(sensors, script, polls), count, count, k);
      assert AtOf(d.out)[k] == d.out[k].at;
    }
  }

  /** What the caller's array holds at place p after these writes: the last one there. */
  function Held(out: seq<Write>, p: int): (s: Option<Sample>) {
    if out == [] then None
    else if out[|out| - 1].at == p then Some(out[|out| - 1].sample)
    else Held(out[..|out| - 1], p)
  }

  /** The caller gets all samples in order: the number returned is theirs, and they fill the
      array from its front. */
  ghost predicate Intact(out: seq<Write>, res: int) {
    res == |out| && forall k :: 0 <= k < |out| ==> Held(out, k) == Some(out[k].sample)
  }

  lemma {:induction false} HeldInOrder(out: seq<Write>, n: nat, k: nat)
    requires k < n <= |out| && forall j :: 0 <= j < |out| ==> out[j].at == j
    ensures Held(out[..n], k) == Some(out[k].sample)
  {
    var p := out[..n];
    assert p[..n - 1] == out[..n - 1] && p[n - 1] == out[n - 1];
    if k < n - 1 { HeldInOrder(out, n - 1, k); }
  }

  /** Without a failed read the places are those of an array filled from its front. */
  lemma {:induction false} PlacesInOrder(offers: seq<Offer>, room: nat, end: int)
    requires !Loses(offers, room)
    ensures Places(offers, room, end) == Range(end - room, Drain(offers, room).1)
  {
    if offers != [] {
      var n := |offers| - 1;
      assert offers == offers[..n] + [offers[n]];
      LosesSnoc(offers[..n], offers[n], room);
      PlacesInOrder(offers[..n], room, end);
      DrainBalance(offers[..n], room);
      DrainTotal(offers[..n], room);
    }
  }

  /** The number returned falls short of the samples exactly when a read fails in time. */
  lemma {:induction false} ShortIff(sensors: seq<Sensor>, count: nat, script: seq<ReadResult>, polls: seq<PollResult>)
    requires Fits(sensors)
    ensures var d := CallOf(Asked(sensors, count, script), polls).1;
            d.nbEvents <= |d.out| && (d.nbEvents < |d.out| <==> Loses(Offers(sensors, script, polls), count))
  {
    CallTakes(Asked(sensors, count, script), polls);
    DrainBalance(Offers(sensors, script, polls), count);
  }

  /** Without a failed read the caller's array holds the samples in order, and there are no
      more than asked for. */
  lemma {:induction false} InOrder(sensors: seq<Sensor>, count: nat, script: seq<ReadResult>, polls: seq<PollResult>)
    requires Fits(sensors) && !Loses(Offers(sensors, script, polls), count)
    ensures var d := CallOf(Asked(sensors, count, script), polls).1;
            && |d.out| == d.nbEvents <= count && Intact(d.out, d.nbEvents)
            && forall k :: 0 <= k < |d.out| ==> d.out[k].at == k
  {
    var c, offers := Asked(sensors, count, script), Offers(sensors, script, polls);
    var d := CallOf(c, polls).1;
    CallTakes(c, polls);
    ShortIff(sensors, count, script, polls);
    PlacesInOrder(offers, count, count);
    assert AtOf(d.out) == [] + Places(offers, count, count) == Range(0, |d.out|);
    forall k | 0 <= k < |d.out| ensures d.out[k].at == k { assert AtOf(d.out)[k] == k; }
    forall k | 0 <= k < |d.out| ensures Held(d.out, k) == Some(d.out[k].sample) {
      HeldInOrder(d.out, |d.out|, k);
      assert d.out[..|d.out|] == d.out;
    }
  }

  /** Apart from an error of poll() itself: the caller gets all samples in order if and only if
      no read fails before the room is used up. */
  lemma {:induction false} IntactIff(sensors: seq<Sensor>, count: nat, script: seq<ReadResult>, polls: seq<PollResult>)
    requires Fits(sensors) && !EndsInError(Asked(sensors, count, script), polls)
    ensures var (res, d) := CallOf(Asked(sensors, count, script), polls);
            Intact(d.out, res) <==> !Loses(Offers(sensors, script, polls), count)
  {
    ResultIs(Asked(sensors, count, script), polls);
    ShortIff(sensors, count, script, polls);
    if !Loses(Offers(sensors, script, polls), count) { InOrder(sensors, count, script, polls); }
  }

  /** Reader k delivers while fewer samples have been taken than errors lost. */
  ghost predicate TooEarlyAt(offers: seq<Offer>, room: nat, k: nat) {
    && k < |offers| && offers[k].Gave? && offers[k].n > 0
    && Drain(offers[..k], room).0 != 0 && Total(offers[..k]) < Errors(offers[..k])
  }

  ghost predicate TooEarly(offers: seq<Offer>, room: nat) { exists k: nat :: TooEarlyAt(offers, room, k) }

  lemma {:induction false} TooEarlySnoc(a: seq<Offer>, x: Offer, room: nat)
    ensures TooEarly(a + [x], room)
       <==> TooEarly(a, room)
            || (x.Gave? && x.n > 0 && Drain(a, room).0 != 0 && Total(a) < Errors(a))
  {
    var s := a + [x];
    assert s[..|a|] == a;
    assert TooEarlyAt(s, room, |a|) <==> x.Gave? && x.n > 0 && Drain(a, room).0 != 0 && Total(a) < Errors(a);
    forall k: nat | k < |a| ensures TooEarlyAt(s, room, k) <==> TooEarlyAt(a, room, k) {
      assert s[..k] == a[..k];
    }
    if TooEarly(a, room) {
      var k: nat :| TooEarlyAt(a, room, k);
      assert TooEarlyAt(s, room, k);
    }
  }

  ghost predicate AnyBefore(places: seq<int>, front: int) { exists k :: 0 <= k < |places| && places[k] < front }

  lemma {:induction false} BeforeConcat(a: seq<int>, b: seq<int>, front: int)
    ensures AnyBefore(a + b, front) <==> AnyBefore(a, front) || AnyBefore(b, front)
  {
    if AnyBefore(a, front) {
      var k :| 0 <= k < |a| && a[k] < front;
      assert (a + b)[k] < front;
    }
    if AnyBefore(b, front) {
      var k :| 0 <= k < |b| && b[k] < front;
      assert (a + b)[|a| + k] < front;
    }
  }

  lemma {:induction false} RangeBefore(at: int, n: nat, front: int)
    ensures AnyBefore(Range(at, n), front) <==> n > 0 && at < front
  {
    if n > 0 && at < front { assert Range(at, n)[0] < front; }
  }

  /** A place in front of the array goes with a reader that delivers too early. */
  ghost predicate BeforeIff(offers: seq<Offer>, room: nat, end: int) {
    AnyBefore(Places(offers, room, end), end - room) <==> TooEarly(offers, room)
  }

  lemma {:induction false} BeforeIffMore(a: seq<Offer>, x: Offer, room: nat, end: int)
    requires BeforeIff(a, room, end)
    ensures BeforeIff(a + [x], room, end)
  {
    var left := Drain(a, room).0;
    PlacesSnoc(a, x, room, end);
    TooEarlySnoc(a, x, room);
    DrainLeft(a, room);
    BeforeConcat(Places(a, room, end), PlacesOf(x, left, end), end - room);
    OneBeforeIff(x, left, end, end - room);
  }

  lemma {:induction false} OneBeforeIff(x: Offer, left: nat, end: int, front: int)
    ensures AnyBefore(PlacesOf(x, left, end), front) <==> x.Gave? && x.n > 0 && left > 0 && end - left < front
  {
    if x.Gave? { RangeBefore(end - left, Min(x.n, left), front); }
  }

  lemma {:induction false} PlacesBeforeIff(offers: seq<Offer>, room: nat, end: int)
    ensures BeforeIff(offers, room, end)
  {
    if offers != [] {
      var n := |offers| - 1;
      PlacesBeforeIff(offers[..n], room, end);
      BeforeIffMore(offers[..n], offers[n], room, end);
      assert offers[..n] + [offers[n]] == offers;
    }
  }

  /** A sample is written outside the places asked for if and only if a reader delivers while
      fewer samples have been taken than errors lost. */
  lemma {:induction false} OutsideIff(sensors: seq<Sensor>, count: nat, script: seq<ReadResult>, polls: seq<PollResult>)
    requires Fits(sensors)
    ensures var d := CallOf(Asked(sensors, count, script), polls).1;
            (exists k :: 0 <= k < |d.out| && !(0 <= d.out[k].at < count))
            <==> TooEarly(Offers(sensors, script, polls), count)
  {
    var c, offers := Asked(sensors, count, script), Offers(sensors, script, polls);
    var d := CallOf(c, polls).1;
    CallTakes(c, polls);
    NoneBeyond(sensors, count, script, polls);
    PlacesBeforeIff(offers, count, count);
    var places := Places(offers, count, count);
    assert AtOf(d.out) == [] + places == places;
    assert forall k :: 0 <= k < |d.out| ==> d.out[k].at == places[k];
  }

  /** The readers give more samples than there is room for exactly when a read fails before the
      room is used up, and they have more samples than that. */
  lemma {:induction false} OverrunIff(c: Call, polls: seq<PollResult>)
    requires Fits(c.sensors)
    ensures var offers := Offers(c.sensors, c.script, polls);
            |CallOf(c, polls).1.out| - |c.out| > c.room <==> Loses(offers, c.room) && Total(offers) > c.room
  {
    CallTakes(c, polls);
    assert |AtOf(CallOf(c, polls).1.out)| == |c.out| + Drain(Offers(c.sensors, c.script, polls), c.room).1;
    DrainExceedsIff(Offers(c.sensors, c.script, polls), c.room);
  }

  // ----- a call that writes in front of the array -----

  /** Both sensors are marked: a failed read, then n samples. */
  lemma {:induction false} FailThenGive(e: Errno, size: nat, n: nat)
    requires size >= n > 0
    ensures var sensors := [Idle(size, 0).(marked := true), Idle(size, n).(marked := true)];
            OffersUpTo(sensors, [Failed(e), Got(n)], 2).2 == [Lost(e), Gave(n)]
  {
    var a, b := Idle(size, 0).(marked := true), Idle(size, n).(marked := true);
    var sensors, script := [a, b], [Failed(e), Got(n)];
    TicksCount(n);
    assert Filled(b.source, Got(n)).contents == Ticks(n);
    assert OffersUpTo(sensors, script, 0) == (sensors, script, []);
    assert OffersUpTo(sensors, script, 1) == (sensors[0 := Emptied(a.source, Failed(e))], script[1..], [] + [Lost(e)]);
    assert script[1..][0] == Got(n);
  }

  lemma {:induction false} DrainTwo(e: Errno, n: nat, room: nat)
    requires room > 0
    ensures var took := Min(n, room + e);
            && Drain([Lost(e), Gave(n)], room) == (room + e - took, took)
            && Places([Lost(e), Gave(n)], room, room) == Range(-(e as int), took)
  {
    assert [Lost(e), Gave(n)][..1] == [Lost(e)] && [Lost(e)][..0] == [];
    assert Drain([Lost(e)], room) == (room + e, 0);
    assert Places([Lost(e)], room, room) == [];
  }

  /** Without marks nothing is offered before the first poll(). */
  lemma {:induction false} NothingMarked(sensors: seq<Sensor>, script: seq<ReadResult>, k: nat)
    requires Fits(sensors) && k <= |sensors| && forall i :: 0 <= i < k ==> !sensors[i].marked
    ensures OffersUpTo(sensors, script, k) == (sensors, script, [])
  {
    if k > 0 { NothingMarked(sensors, script, k - 1); }
  }

  /** One sample is asked for. The first sensor's read fails with error e, and so the second
      one gives e + 1 samples. They go to the places from -e to 0: all but the last one lie in
      front of the array, and the call returns 1, as if it had gone well. */
  lemma {:induction false} OverrunExample(e: Errno, size: nat)
    requires size > e
    ensures var c := Asked([Idle(size, 0), Idle(size, e + 1)], 1, [Failed(e), Got(e + 1)]);
            var (res, d) := CallOf(c, [Polled(2, [true, true])]);
            res == 1 && |d.out| == e + 1 && forall k :: 0 <= k <= e ==> d.out[k].at == k - e
  {
    var sensors, script, polls := [Idle(size, 0), Idle(size, e + 1)], [Failed(e), Got(e + 1)],
        [Polled(2, [true, true])];
    var c := Asked(sensors, 1, script);
    var d := CallOf(c, polls).1;
    CallTakes(c, polls);
    ResultIs(c, polls);
    ExampleOffers(e, size);
    DrainTwo(e, e + 1, 1);
    assert AtOf(d.out) == [] + Range(-(e as int), e + 1) == Range(-(e as int), e + 1);
    assert forall k :: 0 <= k <= e ==> d.out[k].at == AtOf(d.out)[k];
    NoErrorPolled(c, Polled(2, [true, true]));
  }

  lemma {:induction false} ExampleOffers(e: Errno, size: nat)
    requires size > e
    ensures Offers([Idle(size, 0), Idle(size, e + 1)], [Failed(e), Got(e + 1)], [Polled(2, [true, true])])
         == [Lost(e), Gave(e + 1)]
  {
    var sensors, script, polls := [Idle(size, 0), Idle(size, e + 1)], [Failed(e), Got(e + 1)],
        [Polled(2, [true, true])];
    NothingMarked(sensors, script, 2);
    var marked := [Idle(size, 0).(marked := true), Idle(size, e + 1).(marked := true)];
    assert Marked(sensors, [true, true]) == marked;
    FailThenGive(e, size, e + 1);
    var offers := [Lost(e), Gave(e + 1)];
    assert Offers(marked, script, polls[1..]) == offers;
    assert Offers(sensors, script, polls) == [] + offers == offers;
  }

  lemma {:induction false} NoErrorPolled(c: Call, p: PollResult)
    requires Fits(c.sensors) && p.Polled?
    ensures !EndsInError(c, [p])
  {
    assert [p][1..] == [];
  }
}

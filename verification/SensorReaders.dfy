/**
 The readers on top of the ring buffer (libsensors/lsm303dlh_acc.cpp and
 libsensors/LightSensor.cpp): raw input events are folded into sensor samples. However
 the events are cut into reads and however many samples each call asks for, the samples
 are those of one fold over the whole event stream.
 */
module SensorReaders {
  import opened Shared
  import opened InputRing

  const ABS_X := 0
  const ABS_Y := 1
  const ABS_Z := 2
  const ABS_MISC := 0x28
  const FIRST_GOOD_EVENT := 1

  /** One thousand counts are the acceleration of gravity. */
  const CONVERT_A := 9.80665 / 1000.0

  datatype Sample =
    | Acceleration(x: real, y: real, z: real, time: int)
    | Light(light: real, time: int)

  /** What a reader carries from event to event. */
  datatype Pending =
    | Accel(x: real, y: real, z: real)
    | Lux(light: real, previous: real, seen: nat, enabled: bool)

  /** processEvent of the accelerometer. */
  function ProcessEvent(p: Pending, code: int, value: int): (p': Pending)
    requires p.Accel?
    ensures p'.Accel?
  {
    if code == ABS_X then p.(x := value as real * CONVERT_A)
    else if code == ABS_Y then p.(y := value as real * CONVERT_A)
    else if code == ABS_Z then p.(z := value as real * CONVERT_A)
    else p
  }

  /** One event: the new state and the sample it completes, if any. */
  function Step(p: Pending, e: InputEvent): (r: (Pending, Option<Sample>))
    ensures r.0.Accel? <==> p.Accel?
  {
    match p
    case Accel(x, y, z) =>
      if e.kind == EV_ABS then (ProcessEvent(p, e.code, e.value), None)
      else if e.kind == EV_SYN then (p, Some(Acceleration(x, y, z, e.time)))
      else (p, None)
    case Lux(light, previous, seen, enabled) =>
      if e.kind == EV_ABS then
        if e.code == ABS_MISC then (p.(light := e.value as real,
                                       seen := if seen < FIRST_GOOD_EVENT then seen + 1 else seen), None)
        else (p, None)
      else if e.kind == EV_SYN && enabled && light != previous && seen >= FIRST_GOOD_EVENT then
        (p.(previous := light), Some(Light(light, e.time)))
      else (p, None)
  }

  /** All samples of a stream, and the state after it. */
  function Fold(p: Pending, es: seq<InputEvent>): (r: (Pending, seq<Sample>))
    ensures |r.1| <= |es|
    decreases |es|
  {
    if es == [] then (p, [])
    else
      var (p1, out) := Step(p, es[0]);
      var (p2, rest) := Fold(p1, es[1..]);
      (p2, ToSeq(out) + rest)
  }

  function ToSeq<T>(o: Option<T>): (s: seq<T>)
    ensures |s| <= 1
  {
    match o case None => [] case Some(x) => [x]
  }

  lemma {:induction false} FoldConcat(p: Pending, a: seq<InputEvent>, b: seq<InputEvent>)
    ensures var (q, out) := Fold(p, a);
            var (r, more) := Fold(q, b);
            Fold(p, a + b) == (r, out + more)
    decreases |a|
  {
    if a == [] {
      assert a + b == b;
      assert [] + Fold(p, b).1 == Fold(p, b).1;
    } else {
      var (p1, o) := Step(p, a[0]);
      FoldConcat(p1, a[1..], b);
      assert (a + b)[1..] == a[1..] + b;
      var rest := Fold(p1, a[1..]).1;
      var more := Fold(Fold(p1, a[1..]).0, b).1;
      Associate(ToSeq(o), rest, more);
    }
  }

  // ----- what the samples mean -----

  /** The value of the last event of the given code, or the given default. */
  function Latest(es: seq<InputEvent>, code: int, otherwise: real): (v: real)
    decreases |es|
  {
    if es == [] then otherwise
    else
      var e := es[|es| - 1];
      if e.kind == EV_ABS && e.code == code then e.value as real * CONVERT_A
      else Latest(es[..|es| - 1], code, otherwise)
  }

  lemma {:induction false} FoldLast(p: Pending, es: seq<InputEvent>)
    requires es != []
    ensures var (q, out) := Fold(p, es[..|es| - 1]);
            var (r, s) := Step(q, es[|es| - 1]);
            Fold(p, es) == (r, out + ToSeq(s))
  {
    var n := |es| - 1;
    assert es == es[..n] + [es[n]];
    FoldConcat(p, es[..n], [es[n]]);
    var q := Fold(p, es[..n]).0;
    assert [es[n]][1..] == [];
    assert ToSeq(Step(q, es[n]).1) + [] == ToSeq(Step(q, es[n]).1);
  }

  /** The accelerometer's state is the latest value of each axis. */
  lemma {:induction false} AccelState(p: Pending, es: seq<InputEvent>)
    requires p.Accel?
    ensures Fold(p, es).0 == Accel(Latest(es, ABS_X, p.x), Latest(es, ABS_Y, p.y), Latest(es, ABS_Z, p.z))
    decreases |es|
  {
    if es != [] {
      AccelState(p, es[..|es| - 1]);
      FoldLast(p, es);
    }
  }

  function Syncs(es: seq<InputEvent>): (n: nat) {
    if es == [] then 0 else Syncs(es[..|es| - 1]) + if es[|es| - 1].kind == EV_SYN then 1 else 0
  }

  /** One sample per synchronisation event, with the axes as they are then. */
  lemma {:induction false} AccelSamples(p: Pending, es: seq<InputEvent>, k: nat)
    requires p.Accel? && k < |es| && es[k].kind == EV_SYN
    ensures |Fold(p, es).1| == Syncs(es) && Syncs(es[..k]) < Syncs(es)
    ensures var before := es[..k];
            Fold(p, es).1[Syncs(before)]
            == Acceleration(Latest(before, ABS_X, p.x), Latest(before, ABS_Y, p.y), Latest(before, ABS_Z, p.z),
                            es[k].time)
    decreases |es|
  {
    var n := |es| - 1;
    AccelCount(p, es);
    FoldLast(p, es);
    AccelState(p, es[..n]);
    AccelCount(p, es[..n]);
    if k < n {
      AccelSamples(p, es[..n], k);
      assert es[..n][..k] == es[..k];
    }
  }

  lemma {:induction false} AccelCount(p: Pending, es: seq<InputEvent>)
    requires p.Accel?
    ensures |Fold(p, es).1| == Syncs(es)
    decreases |es|
  {
    if es != [] {
      AccelCount(p, es[..|es| - 1]);
      FoldLast(p, es);
      AccelState(p, es[..|es| - 1]);
    }
  }

  ghost predicate Changes(previous: real, out: seq<Sample>) {
    forall i :: 0 <= i < |out| ==> ChangeAt(previous, out, i)
  }

  ghost predicate ChangeAt(previous: real, out: seq<Sample>, i: nat)
    requires i < |out|
  {
    out[i].Light? && out[i].light != if i == 0 then previous else LightOf(out[i - 1])
  }

  function LightOf(s: Sample): real { if s.Light? then s.light else 0.0 }

  /** The light sensor reports changes only: no sample repeats the one before it, none
      comes while it is disabled, and none before the first good event. */
  lemma {:induction false} LightReportsChanges(p: Pending, es: seq<InputEvent>)
    requires p.Lux?
    ensures var (q, out) := Fold(p, es);
            && Changes(p.previous, out)
            && q.Lux? && q.previous == (if out == [] then p.previous else LightOf(out[|out| - 1]))
            && q.enabled == p.enabled && (!p.enabled ==> out == []) && q.seen >= p.seen
            && (q.seen < FIRST_GOOD_EVENT ==> out == [])
    decreases |es|
  {
    if es != [] {
      var n := |es| - 1;
      LightReportsChanges(p, es[..n]);
      FoldLast(p, es);
      var (q, out) := Fold(p, es[..n]);
      ChangesSnoc(p.previous, out, Step(q, es[n]).1);
    }
  }

  lemma {:induction false} ChangesSnoc(previous: real, out: seq<Sample>, o: Option<Sample>)
    requires Changes(previous, out)
    requires o.Some? ==> o.value.Light? && o.value.light != if out == [] then previous else LightOf(out[|out| - 1])
    ensures Changes(previous, out + ToSeq(o))
  {
    var all := out + ToSeq(o);
    forall i | 0 <= i < |all| ensures ChangeAt(previous, all, i) {
      if i < |out| { assert ChangeAt(previous, out, i); }
    }
  }

  // ----- the light sensor's samples -----

  /** The value of the last light event, if there is one. */
  function LastLight(es: seq<InputEvent>): (v: Option<int>)
    decreases |es|
  {
    if es == [] then None
    else
      var e := es[|es| - 1];
      if e.kind == EV_ABS && e.code == ABS_MISC then Some(e.value) else LastLight(es[..|es| - 1])
  }

  function LightAfter(p: Pending, es: seq<InputEvent>): real
    requires p.Lux?
  {
    match LastLight(es) case None => p.light case Some(v) => v as real
  }

  function LastReported(p: Pending, out: seq<Sample>): real
    requires p.Lux?
  {
    if out == [] then p.previous else LightOf(out[|out| - 1])
  }

  /** After the events `before`, which led to the samples `out`, there is a new light value to
      report: some light event has come since the sensor was enabled, and the latest value is
      not the one reported last. */
  predicate LightIsNew(p: Pending, before: seq<InputEvent>, out: seq<Sample>)
    requires p.Lux?
  {
    && p.enabled && (p.seen >= 1 || LastLight(before).Some?)
    && LightAfter(p, before) != LastReported(p, out)
  }

  /** The light sensor's state: the latest value, the value reported last, and whether a
      light event has come. */
  ghost predicate LightStateAt(p: Pending, es: seq<InputEvent>, q: Pending, out: seq<Sample>)
    requires p.Lux?
  {
    && q.Lux? && q.enabled == p.enabled
    && q.light == LightAfter(p, es) && q.previous == LastReported(p, out)
    && (q.seen >= 1 <==> p.seen >= 1 || LastLight(es).Some?)
    && (forall i :: 0 <= i < |out| ==> out[i].Light?)
  }

  lemma {:induction false} LightState(p: Pending, es: seq<InputEvent>)
    requires p.Lux?
    ensures LightStateAt(p, es, Fold(p, es).0, Fold(p, es).1)
    decreases |es|
  {
    if es != [] {
      var before := es[..|es| - 1];
      LightState(p, before);
      FoldLast(p, es);
      LightStateNext(p, es, Fold(p, before).0, Fold(p, before).1);
    }
  }

  /** The state after the last of these events. */
  lemma {:induction false} LightStateNext(p: Pending, es: seq<InputEvent>, q: Pending, out: seq<Sample>)
    requires p.Lux? && es != [] && LightStateAt(p, es[..|es| - 1], q, out)
    ensures var (r, s) := Step(q, es[|es| - 1]);
            LightStateAt(p, es, r, out + ToSeq(s))
  {
  }

  /** Every event but a synchronisation event leaves the samples alone, and a synchronisation
      event adds one exactly when there is a new light value to report: that value, at the
      time of this event. The samples of a stream are these, in order. */
  lemma {:induction false} LightSamples(p: Pending, es: seq<InputEvent>, k: nat)
    requires p.Lux? && k < |es|
    ensures var before, upTo := es[..k], es[..k + 1];
            var out := Fold(p, before).1;
            && Fold(p, upTo).1
               == out + (if es[k].kind == EV_SYN && LightIsNew(p, before, out)
                         then [Light(LightAfter(p, before), es[k].time)] else [])
            && Fold(p, upTo).1 <= Fold(p, es).1
  {
    var before, upTo := es[..k], es[..k + 1];
    assert upTo[..k] == before && upTo + es[k + 1..] == es;
    FoldLast(p, upTo);
    LightState(p, before);
    FoldConcat(p, upTo, es[k + 1..]);
  }

  // ----- the readers -----

  /** What a read has moved from the device into the ring. */
  lemma {:induction false} Arrived(had: seq<InputEvent>, device: seq<InputEvent>, now: seq<InputEvent>,
                                   device': seq<InputEvent>)
    returns (arrived: seq<InputEvent>)
    requires |now| >= |had| && now + device' == had + device
    ensures now == had + arrived && arrived + device' == device
  {
    arrived := now[|had|..];
    assert now == (now + device')[..|now|];
    assert (now + device')[|had|..] == arrived + device';
    assert (had + device)[|had|..] == device;
  }

  /** What was delivered and what is still buffered account for all events read. */
  ghost predicate Accounts(start: Pending, history: seq<InputEvent>, state: Pending, contents: seq<InputEvent>,
                           produced: seq<Sample>) {
    var (p, rest) := Fold(state, contents);
    Fold(start, history) == (p, produced + rest)
  }

  lemma {:induction false} Associate<T>(a: seq<T>, b: seq<T>, c: seq<T>)
    ensures (a + b) + c == a + (b + c)
  {
  }

  lemma {:induction false} AccountsRead(start: Pending, history: seq<InputEvent>, state: Pending,
                                        contents: seq<InputEvent>, produced: seq<Sample>, arrived: seq<InputEvent>)
    requires Accounts(start, history, state, contents, produced)
    ensures Accounts(start, history + arrived, state, contents + arrived, produced)
  {
    FoldConcat(start, history, arrived);
    FoldConcat(state, contents, arrived);
    var (p, rest) := Fold(state, contents);
    Associate(produced, rest, Fold(p, arrived).1);
  }

  lemma {:induction false} AccountsStep(start: Pending, history: seq<InputEvent>, state: Pending,
                                        contents: seq<InputEvent>, produced: seq<Sample>)
    requires contents != [] && Accounts(start, history, state, contents, produced)
    ensures var (p, o) := Step(state, contents[0]);
            Accounts(start, history, p, contents[1..], produced + ToSeq(o))
  {
    var (p, o) := Step(state, contents[0]);
    Associate(produced, ToSeq(o), Fold(p, contents[1..]).1);
  }

  lemma {:induction false} AccountsStart(p: Pending, contents: seq<InputEvent>)
    ensures Accounts(p, contents, p, contents, [])
  {
    assert [] + Fold(p, contents).1 == Fold(p, contents).1;
  }

  /** Batch independence: what was delivered begins the samples of the whole stream, whatever
      is still to come. */
  lemma {:induction false} PrefixOfFold(start: Pending, history: seq<InputEvent>, state: Pending,
                                        contents: seq<InputEvent>, produced: seq<Sample>,
                                        rest: seq<InputEvent>)
    requires Accounts(start, history, state, contents, produced)
    ensures produced <= Fold(start, history + rest).1
  {
    FoldConcat(start, history, rest);
    var (p, more) := Fold(state, contents);
    Associate(produced, more, Fold(p, rest).1);
  }

  // ----- one call of readEvents as a function -----

  /** What a call works on: the reader's state, the ring's contents and size, and what the
      device still has to deliver. */
  datatype Source = Source(state: Pending, contents: seq<InputEvent>, size: nat, device: seq<InputEvent>)

  /** The loop of readEvents: events are consumed until `count` samples are complete or none
      is left. */
  function Serve(p: Pending, es: seq<InputEvent>, count: nat): (r: (Pending, seq<InputEvent>, seq<Sample>))
    ensures |r.2| <= count && (|r.2| < count ==> r.1 == [])
    decreases |es|
  {
    if count == 0 || es == [] then (p, es, [])
    else
      var (p1, o) := Step(p, es[0]);
      var (p2, rest, out) := Serve(p1, es[1..], count - |ToSeq(o)|);
      (p2, rest, ToSeq(o) + out)
  }

  /** The room bounds the number of samples, and nothing else does. */
  lemma {:induction false} ServeCount(p: Pending, es: seq<InputEvent>, count: nat)
    ensures |Serve(p, es, count).2| == Min(count, |Fold(p, es).1|)
    decreases |es|
  {
    if count != 0 && es != [] {
      var (p1, o) := Step(p, es[0]);
      ServeCount(p1, es[1..], count - |ToSeq(o)|);
    }
  }

  /** What is served begins the samples of the events, and the rest still leads to the others. */
  lemma {:induction false} ServeFold(p: Pending, es: seq<InputEvent>, count: nat)
    ensures var (p', rest, out) := Serve(p, es, count);
            Accounts(p, es, p', rest, out)
    decreases |es|
  {
    if count == 0 || es == [] {
      AccountsStart(p, es);
    } else {
      var (p1, o) := Step(p, es[0]);
      ServeFold(p1, es[1..], count - |ToSeq(o)|);
      var (p', rest, out) := Serve(p1, es[1..], count - |ToSeq(o)|);
      Associate(ToSeq(o), out, Fold(p', rest).1);
    }
  }

  /** With more room than samples, all events are consumed. */
  lemma {:induction false} ServeAll(p: Pending, es: seq<InputEvent>, count: nat)
    requires count > |Fold(p, es).1|
    ensures Serve(p, es, count) == (Fold(p, es).0, [], Fold(p, es).1)
  {
    ServeCount(p, es, count);
    ServeFold(p, es, count);
    var (p', rest, out) := Serve(p, es, count);
    assert Fold(p', rest) == (p', []) && out + [] == out;
  }

  /** The read does not get any whole event; without free space there is no read. */
  predicate ReadFails(s: Source, r: ReadResult) {
    |s.contents| < s.size && !r.Got?
  }

  function ErrorOf(r: ReadResult): (e: Errno)
    requires !r.Got?
  {
    if r.Failed? then r.errno else EINVAL
  }

  /** The read at the start of readEvents. */
  function Filled(s: Source, r: ReadResult): (s': Source)
    requires |s.contents| <= s.size
    ensures |s'.contents| <= s'.size == s.size && s'.state == s.state
  {
    if |s.contents| < s.size && r.Got? then
      var n := Min(r.limit, Min(s.size - |s.contents|, |s.device|));
      s.(contents := s.contents + s.device[..n], device := s.device[n..])
    else s
  }

  /** readEvents: the result, the new state and the samples. */
  function ReadOf(s: Source, count: int, r: ReadResult): (t: (int, Source, seq<Sample>))
    requires |s.contents| <= s.size
    ensures t.0 <= count || t.0 == -EINVAL
    ensures t.0 < 0 <==> count < 1 || ReadFails(s, r)
    ensures if t.0 < 0 then t.1 == s && t.2 == [] else t.0 == |t.2|
    ensures |t.1.contents| <= t.1.size == s.size
  {
    if count < 1 then (-EINVAL, s, [])
    else if ReadFails(s, r) then (-(ErrorOf(r) as int), s, [])
    else
      var f := Filled(s, r);
      var (p, rest, out) := Serve(f.state, f.contents, count);
      ServeShorter(f.state, f.contents, count);
      (|out|, f.(state := p, contents := rest), out)
  }

  lemma {:induction false} ServeShorter(p: Pending, es: seq<InputEvent>, count: nat)
    ensures |Serve(p, es, count).1| <= |es|
    decreases |es|
  {
    if count != 0 && es != [] {
      ServeShorter(Step(p, es[0]).0, es[1..], count - |ToSeq(Step(p, es[0]).1)|);
    }
  }

  /** With `out` served so far, the rest of the loop completes the whole loop's result. */
  ghost predicate Serves(p: Pending, es: seq<InputEvent>, count: nat, q: Pending, left: seq<InputEvent>, room: nat,
                         out: seq<Sample>) {
    var (p', rest, more) := Serve(q, left, room);
    Serve(p, es, count) == (p', rest, out + more)
  }

  lemma {:induction false} ServesStep(p: Pending, es: seq<InputEvent>, count: nat, q: Pending,
                                      left: seq<InputEvent>, room: nat, out: seq<Sample>)
    requires room != 0 && left != [] && Serves(p, es, count, q, left, room, out)
    ensures var (q', o) := Step(q, left[0]);
            Serves(p, es, count, q', left[1..], room - |ToSeq(o)|, out + ToSeq(o))
  {
    var (q', o) := Step(q, left[0]);
    Associate(out, ToSeq(o), Serve(q', left[1..], room - |ToSeq(o)|).2);
  }

  lemma {:induction false} ServesStart(p: Pending, es: seq<InputEvent>, count: nat)
    ensures Serves(p, es, count, p, es, count, [])
  {
    assert [] + Serve(p, es, count).2 == Serve(p, es, count).2;
  }

  lemma {:induction false} ServesEnd(p: Pending, es: seq<InputEvent>, count: nat, q: Pending, left: seq<InputEvent>,
                                     room: nat, out: seq<Sample>)
    requires Serves(p, es, count, q, left, room, out) && (room == 0 || left == [])
    ensures Serve(p, es, count) == (q, left, out)
  {
    assert out + [] == out;
  }

  /** The state in which the loop of readEvents begins. */
  datatype Run = Run(start: Pending, history: seq<InputEvent>, produced: seq<Sample>, state: Pending,
                     contents: seq<InputEvent>, count: nat)

  class Reader {
    const ring: Ring
    var state: Pending
    ghost var start: Pending               // the state when the history begins
    ghost var history: seq<InputEvent>     // everything read since then
    ghost var produced: seq<Sample>        // everything delivered since then

    ghost predicate Valid()
      reads this, ring, ring.buffer
    {
      ring.Valid() && ring.size > 0 && Accounts(start, history, state, ring.contents, produced)
    }

    /** What a call of readEvents works on, with what the device still has to deliver. */
    ghost function Over(device: seq<InputEvent>): (s: Source)
      reads this, ring
    {
      Source(state, ring.contents, ring.size, device)
    }

    constructor (state: Pending, size: nat)
      requires size > 0
      ensures Valid() && ring.size == size && fresh(ring) && fresh(ring.buffer) && ring.contents == []
              && history == [] && produced == []
      ensures this.state == start == state
    {
      ring := new Ring(size);
      this.state, start := state, state;
      history, produced := [], [];
      new;
      AccountsStart(state, []);
    }

    /** One turn of the loop over the buffered events. */
    method Consume(event: InputEvent) returns (out: Option<Sample>)
      requires Valid() && ring.contents != [] && event == ring.contents[0]
      modifies this, ring
      ensures Valid() && ring.contents == old(ring.contents)[1..] && (state, out) == Step(old(state), event)
      ensures history == old(history) && start == old(start)
      ensures produced == old(produced) + ToSeq(out)
    {
      AccountsStep(start, history, state, ring.contents, produced);
      var (p, o) := Step(state, event);
      state, out := p, o;
      produced := produced + ToSeq(out);
      ring.Next();
    }

    /** readEvents: fills the ring once, then delivers up to count samples. Fewer than count
        come back only when the ring has run empty, or when the read failed. */
    method ReadEvents(count: int, device: seq<InputEvent>, r: ReadResult)
      returns (res: int, out: seq<Sample>, device': seq<InputEvent>)
      requires Valid()
      modifies this, ring, ring.buffer
      ensures Valid() && start == old(start) && produced == old(produced) + out
      ensures count < 1
              ==> res == -EINVAL && out == [] && device' == device && history == old(history)
                  && ring.contents == old(ring.contents)
      ensures history + device' == old(history) + device
      ensures res < 0 ==> out == [] && history == old(history) && ring.contents == old(ring.contents)
      ensures res < 0 ==> count < 1 || r.Failed? || r.Torn?
      ensures res >= 0 ==> res == |out| <= count && (res < count ==> ring.contents == [])
      ensures (res, Over(device'), out) == ReadOf(old(Over(device)), count, r)
    {
      out, device' := [], device;
      if count < 1 { return -EINVAL, out, device'; }
      res, device' := Fill(device, r);
      if res < 0 { return; }
      res, out := Deliver(count);
    }

    /** The read at the start of readEvents. */
    method Fill(device: seq<InputEvent>, r: ReadResult) returns (res: int, device': seq<InputEvent>)
      requires Valid()
      modifies `history, ring, ring.buffer
      ensures Valid() && history + device' == old(history) + device
      ensures res < 0 ==> history == old(history) && ring.contents == old(ring.contents) && (r.Failed? || r.Torn?)
      ensures res < 0 <==> ReadFails(old(Over(device)), r)
      ensures res < 0 ==> res == -(ErrorOf(r) as int)
      ensures Over(device') == Filled(old(Over(device)), r)
    {
      ghost var had := ring.contents;
      res, device' := ring.Fill(device, r);
      ghost var arrived := Arrived(had, device, ring.contents, device');
      AccountsRead(start, history, state, had, produced, arrived);
      Associate(history, arrived, device');
      history := history + arrived;
    }

    /** In the loop of readEvents: `out` has been served since the ring held `es`. */
    ghost predicate Serving(run: Run, room: nat, out: seq<Sample>)
      reads this, ring, ring.buffer
    {
      && Valid() && start == run.start && history == run.history && produced == run.produced + out
      && Serves(run.state, run.contents, run.count, state, ring.contents, room, out)
      && room + |out| == run.count
    }

    /** The loop of readEvents. */
    method Deliver(count: nat) returns (res: int, out: seq<Sample>)
      requires Valid() && count >= 1
      modifies this, ring
      ensures Valid() && start == old(start) && history == old(history) && produced == old(produced) + out
      ensures res == |out| <= count && (res < count ==> ring.contents == [])
      ensures (state, ring.contents, out) == Serve(old(state), old(ring.contents), count)
    {
      res, out := 0, [];
      var room := count;
      var available, event := ring.ReadEvent();
      ghost var run := Run(start, history, produced, state, ring.contents, count);
      ServesStart(state, ring.contents, count);
      assert produced + [] == produced;
      while room != 0 && available
        invariant Serving(run, room, out) && res == |out|
        invariant (available <==> ring.contents != []) && (available ==> event == ring.contents[0])
        decreases |ring.contents|
      {
        room, res, out := DeliverNext(event, room, res, out, run);
        available, event := ring.ReadEvent();
      }
      ServesEnd(run.state, run.contents, count, state, ring.contents, room, out);
    }

    /** One turn of that loop. */
    method DeliverNext(event: InputEvent, room: nat, res0: int, out0: seq<Sample>, ghost run: Run)
      returns (room': nat, res: int, out: seq<Sample>)
      requires Serving(run, room, out0) && res0 == |out0|
      requires ring.contents != [] && event == ring.contents[0] && room != 0
      modifies this, ring
      ensures Serving(run, room', out) && res == |out| && |ring.contents| < old(|ring.contents|)
    {
      room', res, out := room, res0, out0;
      ServesStep(run.state, run.contents, run.count, state, ring.contents, room, out0);
      var sample := Consume(event);
      Associate(run.produced, out0, ToSeq(sample));
      assert out0 + [] == out0;
      match sample {
        case Some(s) =>
          out := out + [s];
          room' := room' - 1;
          res := res + 1;
        case None =>
      }
    }

    /** Enabling or disabling the light sensor forgets the previous value; `ready` says
        whether the device files could be ready. */
    method EnableLight(en: bool, ready: bool) returns (err: int)
      requires Valid() && state.Lux?
      modifies this
      ensures Valid() && state == Lux(old(state).light, -1.0, 0, if ready then en else old(state).enabled)
      ensures start == state && history == ring.contents && produced == []
      ensures err == if en != old(state).enabled && !ready then -1 else 0
    {
      var flags := state.enabled;
      err := 0;
      if en != flags {
        if ready { flags := en; } else { err := -1; }
      }
      state := Lux(state.light, -1.0, 0, flags);
      start, history, produced := state, ring.contents, [];
      AccountsStart(state, ring.contents);
    }
  }
}

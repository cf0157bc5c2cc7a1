/**
 One call of pollEvents (libsensors/nusensors.cpp) as a function of what the readers hold and
 of the outcomes of poll() and read(), and when it leaves a reader with events and without a
 mark.
 */
module SensorCalls {
  import opened Shared
  import opened InputRing
  import opened SensorReaders

  /** The outcome of poll(): how many descriptors are ready, and which. */
  datatype PollResult = PollFailed(errno: Errno) | Polled(n: nat, revents: seq<bool>)

  /** A sample on its way to the caller: the sensor it comes from, and the place in the
      caller's array that it is written to. */
  datatype Write = Write(sensor: nat, sample: Sample, at: int)

  /** The samples of one turn, written one after the other from `at` on. */
  function From(i: nat, at: int, samples: seq<Sample>): (d: seq<Write>)
    ensures |d| == |samples|
  {
    seq(|samples|, k requires 0 <= k < |samples| => Write(i, samples[k], at + k))
  }

  // ----- a call as a function -----

  /** A reader, and whether its descriptor is marked as readable. */
  datatype Sensor = Sensor(source: Source, marked: bool)

  /** A call on its way: what the sensors hold, the room left, the number to be returned, what
      has been written, and the outcomes of the reads to come. The pointer into the caller's
      array moves together with the number to be returned, so that the next sample goes to
      place nbEvents. */
  datatype Call = Call(sensors: seq<Sensor>, room: nat, nbEvents: int, out: seq<Write>, script: seq<ReadResult>)

  ghost predicate Fits(sensors: seq<Sensor>) {
    forall i :: 0 <= i < |sensors| ==> |sensors[i].source.contents| <= sensors[i].source.size
  }

  /** The next outcome of a read; once none is left, reads find nothing. */
  function Outcome(script: seq<ReadResult>): (r: ReadResult) {
    if script == [] then Got(0) else script[0]
  }

  function Later(script: seq<ReadResult>): (s: seq<ReadResult>) {
    if script == [] then [] else script[1..]
  }

  /** One sensor's turn: the mark goes unless the room is used up. */
  function TurnOf(s: Sensor, room: nat, r: ReadResult): (t: (int, Sensor, seq<Sample>))
    requires |s.source.contents| <= s.source.size && room >= 1
    ensures t.0 <= room
    ensures |t.1.source.contents| <= t.1.source.size
  {
    var (nb, source, out) := ReadOf(s.source, room, r);
    (nb, Sensor(source, s.marked && nb >= room), out)
  }

  /** Sensor i in a pass: its turn, if it is marked and there is room. */
  ghost function VisitOf(c: Call, i: nat): (d: Call)
    requires Fits(c.sensors) && i < |c.sensors|
    ensures Fits(d.sensors) && |d.sensors| == |c.sensors|
  {
    if c.room == 0 || !c.sensors[i].marked then c
    else
      var (nb, s, out) := TurnOf(c.sensors[i], c.room, Outcome(c.script));
      Call(c.sensors[i := s], c.room - nb, c.nbEvents + nb, c.out + From(i, c.nbEvents, out), Later(c.script))
  }

  /** The first k sensors of a pass. */
  ghost function PassUpTo(c: Call, k: nat): (d: Call)
    requires Fits(c.sensors) && k <= |c.sensors|
    ensures Fits(d.sensors) && |d.sensors| == |c.sensors|
  {
    if k == 0 then c else VisitOf(PassUpTo(c, k - 1), k - 1)
  }

  /** The states of a pass, before each sensor and at the end. */
  ghost predicate IsPass(path: seq<Call>) {
    && path != [] && Fits(path[0].sensors) && |path| == |path[0].sensors| + 1
    && forall k {:trigger PassUpTo(path[0], k)} :: 0 <= k < |path| ==> path[k] == PassUpTo(path[0], k)
  }

  ghost function PathOf(c: Call): (path: seq<Call>)
    requires Fits(c.sensors)
    ensures IsPass(path) && path[0] == c
  {
    seq(|c.sensors| + 1, k requires 0 <= k <= |c.sensors| => PassUpTo(c, k))
  }

  /** Without room the rest of a pass does nothing. */
  lemma {:induction false} PassDry(path: seq<Call>, k: nat, n: nat)
    requires IsPass(path) && k <= n < |path| && path[k].room == 0
    ensures path[n] == path[k]
  {
    if k < n {
      PassDry(path, k, n - 1);
      assert path[n] == PassUpTo(path[0], n) && path[n - 1] == PassUpTo(path[0], n - 1);
    }
  }

  ghost function PassOf(c: Call): (d: Call)
    requires Fits(c.sensors)
    ensures Fits(d.sensors) && |d.sensors| == |c.sensors|
  {
    PassUpTo(c, |c.sensors|)
  }

  /** poll() overwrites every mark. */
  ghost function Marked(sensors: seq<Sensor>, marks: seq<bool>): (r: seq<Sensor>)
    ensures |r| == |sensors| && (Fits(sensors) ==> Fits(r))
  {
    seq(|sensors|, i requires 0 <= i < |sensors| => sensors[i].(marked := i < |marks| && marks[i]))
  }

  /** What follows a pass that leaves room: poll() fails, reports nothing, or is followed by
      another pass. */
  datatype Next = Stop(error: int) | Done(marks: seq<bool>) | More(marks: seq<bool>)

  function NextOf(polls: seq<PollResult>): (n: Next) {
    if polls == [] then Done([])
    else match polls[0]
      case PollFailed(errno) => Stop(-(errno as int))
      case Polled(n, marks) => if n == 0 then Done(marks) else More(marks)
  }

  /** pollEvents: the result and the state at its end. */
  ghost function CallOf(c: Call, polls: seq<PollResult>): (r: (int, Call))
    requires Fits(c.sensors)
    ensures Fits(r.1.sensors) && |r.1.sensors| == |c.sensors|
    decreases |polls|
  {
    var d := PassOf(c);
    if d.room == 0 then (d.nbEvents, d)
    else match NextOf(polls)
      case Stop(error) => (error, d)
      case Done(marks) => (d.nbEvents, d.(sensors := Marked(d.sensors, marks)))
      case More(marks) => CallOf(d.(sensors := Marked(d.sensors, marks)), polls[1..])
  }

  /** The call as it goes on after its first pass and poll(). */
  ghost function AfterPoll(c: Call, polls: seq<PollResult>): (v: Call)
    requires Fits(c.sensors) && PassOf(c).room != 0 && NextOf(polls).More?
    ensures Fits(v.sensors) && |v.sensors| == |c.sensors|
  {
    var d := PassOf(c);
    d.(sensors := Marked(d.sensors, NextOf(polls).marks))
  }

  /** One turn of the loop of pollEvents took c to d: n is the result of poll(), or zero when
      there was no room for it. */
  ghost predicate RoundTakes(c: Call, polls: seq<PollResult>, n: int, d: Call, left: seq<PollResult>)
    requires Fits(c.sensors)
  {
    var e := PassOf(c);
    if e.room == 0 then n == 0 && d == e
    else match NextOf(polls)
      case Stop(error) => n == error < 0 && d == e
      case Done(marks) => n == 0 && d == e.(sensors := Marked(e.sensors, marks))
      case More(marks) => n > 0 && d == AfterPoll(c, polls) && left == polls[1..]
  }

  lemma {:induction false} RoundOfCall(c: Call, polls: seq<PollResult>, n: int, d: Call, left: seq<PollResult>)
    requires Fits(c.sensors) && RoundTakes(c, polls, n, d, left)
    ensures Fits(d.sensors)
    ensures n > 0 ==> d.room != 0
    ensures CallOf(c, polls) == if n < 0 then (n, d) else if n == 0 then (d.nbEvents, d) else CallOf(d, left)
  {
  }

  // ----- readers left behind -----

  /** The reader holds events, and nothing will make the next pass look at it. */
  predicate Stranded(s: Sensor) { !s.marked && s.source.contents != [] }

  /** A turn strands its reader exactly when its read fails with events in the ring. */
  lemma {:induction false} TurnStrandsIff(s: Sensor, room: nat, r: ReadResult)
    requires |s.source.contents| <= s.source.size && room >= 1 && s.marked
    ensures Stranded(TurnOf(s, room, r).1) <==> ReadFails(s.source, r) && s.source.contents != []
  {
  }

  /** In the pass that starts from c, sensor i has its turn and the read fails although the
      ring holds events. */
  ghost predicate FailsIn(c: Call, i: nat)
    requires Fits(c.sensors) && i < |c.sensors|
  {
    var d := PassUpTo(c, i);
    && d.room != 0 && c.sensors[i].marked
    && ReadFails(c.sensors[i].source, Outcome(d.script)) && c.sensors[i].source.contents != []
  }

  lemma {:induction false} PassBefore(c: Call, k: nat, i: nat)
    requires Fits(c.sensors) && k <= i < |c.sensors|
    ensures PassUpTo(c, k).sensors[i] == c.sensors[i]
  {
    if k > 0 { PassBefore(c, k - 1, i); }
  }

  lemma {:induction false} PassBehind(c: Call, k: nat, i: nat)
    requires Fits(c.sensors) && i < k <= |c.sensors|
    ensures PassUpTo(c, k).sensors[i] == PassUpTo(c, i + 1).sensors[i]
  {
    if k > i + 1 { PassBehind(c, k - 1, i); }
  }

  lemma {:induction false} PassStrandsIff(c: Call, i: nat)
    requires Fits(c.sensors) && i < |c.sensors|
    ensures Stranded(PassOf(c).sensors[i]) <==> Stranded(c.sensors[i]) || FailsIn(c, i)
  {
    PassBefore(c, i, i);
    PassBehind(c, |c.sensors|, i);
    var d := PassUpTo(c, i);
    if d.room != 0 && d.sensors[i].marked { TurnStrandsIff(d.sensors[i], d.room, Outcome(d.script)); }
  }

  /** A pass that leaves room leaves no mark. */
  lemma {:induction false} PassUnmarks(c: Call, k: nat, i: nat)
    requires Fits(c.sensors) && i < k <= |c.sensors| && PassUpTo(c, k).room != 0
    ensures !PassUpTo(c, k).sensors[i].marked
  {
    if i < k - 1 { PassUnmarks(c, k - 1, i); }
  }

  /** The states in which the passes of a call begin. */
  ghost function Passes(c: Call, polls: seq<PollResult>): (s: seq<Call>)
    requires Fits(c.sensors)
    ensures s != [] && s[0] == c && forall k :: 0 <= k < |s| ==> Fits(s[k].sensors) && |s[k].sensors| == |c.sensors|
    decreases |polls|
  {
    var d := PassOf(c);
    if d.room != 0 && NextOf(polls).More? then
      [c] + Passes(d.(sensors := Marked(d.sensors, NextOf(polls).marks)), polls[1..])
    else [c]
  }

  /** After pass k there is room, and poll() finds something. */
  ghost predicate GoesOn(c: Call, polls: seq<PollResult>, k: nat)
    requires Fits(c.sensors)
  {
    && k < |Passes(c, polls)| && k < |polls| && PassOf(Passes(c, polls)[k]).room != 0
    && polls[k].Polled? && polls[k].n != 0
  }

  /** The next pass begins where this one has ended, with the marks that poll() has reported. */
  ghost predicate Continues(c: Call, polls: seq<PollResult>, k: nat, next: nat)
    requires Fits(c.sensors) && next < |Passes(c, polls)| && k < next && k < |polls| && polls[k].Polled?
  {
    var d, v := PassOf(Passes(c, polls)[k]), Passes(c, polls)[next];
    && v.room == d.room && v.nbEvents == d.nbEvents && v.out == d.out && v.script == d.script
    && forall i :: 0 <= i < |c.sensors| ==>
         v.sensors[i].source == d.sensors[i].source
         && (v.sensors[i].marked <==> i < |polls[k].revents| && polls[k].revents[i])
  }

  lemma {:induction false} PassesShift(c: Call, polls: seq<PollResult>, k: nat, next: nat)
    requires Fits(c.sensors) && PassOf(c).room != 0 && NextOf(polls).More? && next == k + 1
    ensures GoesOn(c, polls, next) <==> GoesOn(AfterPoll(c, polls), polls[1..], k)
    ensures |Passes(c, polls)| == |Passes(AfterPoll(c, polls), polls[1..])| + 1
    ensures k < |Passes(AfterPoll(c, polls), polls[1..])|
            ==> Passes(c, polls)[next] == Passes(AfterPoll(c, polls), polls[1..])[k]
  {
    var v := AfterPoll(c, polls);
    assert Passes(c, polls) == [c] + Passes(v, polls[1..]);
  }

  /** A pass is followed by another exactly when it leaves room and poll() finds something. */
  lemma {:induction false} PassesGoOn(c: Call, polls: seq<PollResult>, k: nat, next: nat)
    requires Fits(c.sensors) && k < |Passes(c, polls)| && next == k + 1
    ensures next < |Passes(c, polls)| <==> GoesOn(c, polls, k)
    ensures next < |Passes(c, polls)| ==> Continues(c, polls, k, next)
    decreases k
  {
    if PassOf(c).room != 0 && NextOf(polls).More? {
      PassesShift(c, polls, 0, 1);
      if k > 0 {
        var before := k - 1;
        PassesShift(c, polls, before, k);
        PassesShift(c, polls, k, next);
        PassesGoOn(AfterPoll(c, polls), polls[1..], before, k);
      }
    }
  }

  /** The result: the number of events counted in the last pass, or the error of the poll()
      after it. */
  lemma {:induction false} ResultOf(c: Call, polls: seq<PollResult>)
    requires Fits(c.sensors)
    ensures var k := |Passes(c, polls)| - 1;
            var d := PassOf(Passes(c, polls)[k]);
            && CallOf(c, polls).1.out == d.out
            && CallOf(c, polls).0 == if d.room != 0 && k < |polls| && polls[k].PollFailed? then -(polls[k].errno as int)
                                     else d.nbEvents
    decreases |polls|
  {
    if PassOf(c).room != 0 && NextOf(polls).More? {
      var v := AfterPoll(c, polls);
      assert Passes(c, polls) == [c] + Passes(v, polls[1..]);
      ResultOf(v, polls[1..]);
    }
  }

  /** The k-th poll() of the call comes about and reports sensor i. */
  ghost predicate Reports(c: Call, polls: seq<PollResult>, k: nat, i: nat)
    requires Fits(c.sensors)
  {
    && k < |Passes(c, polls)| && k < |polls| && PassOf(Passes(c, polls)[k]).room != 0
    && polls[k].Polled? && i < |polls[k].revents| && polls[k].revents[i]
  }

  /** Sensor i is stranded when pass k begins (only the call's start matters), or by pass k. */
  ghost predicate StrandedAt(c: Call, polls: seq<PollResult>, k: nat, i: nat)
    requires Fits(c.sensors) && i < |c.sensors|
  {
    k < |Passes(c, polls)| && (FailsIn(Passes(c, polls)[k], i) || (k == 0 && Stranded(c.sensors[i])))
  }

  /** ... and no later poll() of the call reports it. */
  ghost predicate StrandedFrom(c: Call, polls: seq<PollResult>, k: nat, i: nat)
    requires Fits(c.sensors) && i < |c.sensors|
  {
    StrandedAt(c, polls, k, i) && forall j: nat :: k <= j ==> !Reports(c, polls, j, i)
  }

  lemma {:induction false} StrandedLast(c: Call, polls: seq<PollResult>, i: nat)
    requires Fits(c.sensors) && i < |c.sensors| && |Passes(c, polls)| == 1
    ensures Stranded(CallOf(c, polls).1.sensors[i]) <==> StrandedFrom(c, polls, 0, i)
  {
    PassStrandsIff(c, i);
    if PassOf(c).room != 0 { PassUnmarks(c, |c.sensors|, i); }
    assert forall j: nat :: j >= 1 ==> !Reports(c, polls, j, i);
    assert StrandedFrom(c, polls, 0, i) <==> StrandedAt(c, polls, 0, i) && !Reports(c, polls, 0, i);
  }

  lemma {:induction false} ReportsShift(c: Call, polls: seq<PollResult>, k: nat, i: nat)
    requires Fits(c.sensors) && PassOf(c).room != 0 && NextOf(polls).More?
    ensures Reports(c, polls, k + 1, i) <==> Reports(AfterPoll(c, polls), polls[1..], k, i)
  {
    var v := AfterPoll(c, polls);
    assert Passes(c, polls) == [c] + Passes(v, polls[1..]);
    if k < |Passes(v, polls[1..])| { assert Passes(c, polls)[k + 1] == Passes(v, polls[1..])[k]; }
  }

  lemma {:induction false} StrandedShift(c: Call, polls: seq<PollResult>, k: nat, i: nat)
    requires Fits(c.sensors) && i < |c.sensors| && PassOf(c).room != 0 && NextOf(polls).More?
    ensures var v := AfterPoll(c, polls);
            StrandedAt(v, polls[1..], k, i) <==> StrandedAt(c, polls, k + 1, i) || (k == 0 && Stranded(v.sensors[i]))
  {
    var v := AfterPoll(c, polls);
    assert Passes(c, polls) == [c] + Passes(v, polls[1..]);
    if k < |Passes(v, polls[1..])| { assert Passes(c, polls)[k + 1] == Passes(v, polls[1..])[k]; }
  }

  lemma {:induction false} StrandedMore(c: Call, polls: seq<PollResult>, i: nat)
    requires Fits(c.sensors) && i < |c.sensors| && PassOf(c).room != 0 && NextOf(polls).More?
    ensures (exists k: nat :: StrandedFrom(c, polls, k, i))
       <==> exists k: nat :: StrandedFrom(AfterPoll(c, polls), polls[1..], k, i)
  {
    var v, later := AfterPoll(c, polls), polls[1..];
    forall k: nat ensures Reports(c, polls, k + 1, i) <==> Reports(v, later, k, i) { ReportsShift(c, polls, k, i); }
    PassStrandsIff(c, i);
    PassUnmarks(c, |c.sensors|, i);
    assert Passes(c, polls) == [c] + Passes(v, later);
    assert Stranded(v.sensors[i]) <==> StrandedAt(c, polls, 0, i) && !Reports(c, polls, 0, i);
    forall k: nat | StrandedFrom(c, polls, k, i) ensures exists h: nat :: StrandedFrom(v, later, h, i) {
      StrandedShift(c, polls, if k == 0 then 0 else k - 1, i);
      ShiftedBack(c, polls, v, later, k, if k == 0 then 0 else k - 1, i);
    }
    forall k: nat | StrandedFrom(v, later, k, i) ensures exists h: nat :: StrandedFrom(c, polls, h, i) {
      StrandedShift(c, polls, k, i);
      ShiftedOn(c, polls, v, later, k, if StrandedAt(c, polls, k + 1, i) then k + 1 else 0, i);
    }
  }

  lemma {:induction false} ShiftedBack(c: Call, polls: seq<PollResult>, v: Call, later: seq<PollResult>, k: nat,
                                       h: nat, i: nat)
    requires Fits(c.sensors) && Fits(v.sensors) && i < |c.sensors| == |v.sensors|
    requires forall j: nat :: Reports(c, polls, j + 1, i) <==> Reports(v, later, j, i)
    requires StrandedFrom(c, polls, k, i) && StrandedAt(v, later, h, i) && h + 1 >= k
    ensures StrandedFrom(v, later, h, i)
  {
    forall j: nat | h <= j ensures !Reports(v, later, j, i) { assert !Reports(c, polls, j + 1, i); }
  }

  lemma {:induction false} ShiftedOn(c: Call, polls: seq<PollResult>, v: Call, later: seq<PollResult>, k: nat,
                                     h: nat, i: nat)
    requires Fits(c.sensors) && Fits(v.sensors) && i < |c.sensors| == |v.sensors|
    requires forall j: nat :: Reports(c, polls, j + 1, i) <==> Reports(v, later, j, i)
    requires StrandedFrom(v, later, k, i) && StrandedAt(c, polls, h, i)
    requires h == k + 1 || (h == 0 == k && !Reports(c, polls, 0, i))
    ensures StrandedFrom(c, polls, h, i)
  {
    forall j: nat | h <= j ensures !Reports(c, polls, j, i) {
      if j > 0 { assert Reports(c, polls, (j - 1) + 1, i) <==> Reports(v, later, j - 1, i); }
    }
  }

  /** A reader is left with events and without a mark exactly when some pass of the call read
      it in vain, or it was stranded before, and no poll() of the call from then on reported it. */
  lemma {:induction false} StrandedIff(c: Call, polls: seq<PollResult>, i: nat)
    requires Fits(c.sensors) && i < |c.sensors|
    ensures Stranded(CallOf(c, polls).1.sensors[i]) <==> exists k: nat :: StrandedFrom(c, polls, k, i)
    decreases |polls|
  {
    if PassOf(c).room != 0 && NextOf(polls).More? {
      StrandedMore(c, polls, i);
      StrandedIff(AfterPoll(c, polls), polls[1..], i);
    } else {
      StrandedLast(c, polls, i);
      assert forall k: nat :: StrandedFrom(c, polls, k, i) ==> k == 0;
    }
  }

  // ----- a sample left behind -----

  const TICK := InputEvent(EV_SYN, 0, 0, 0)
  const REST := Accel(0.0, 0.0, 0.0)

  function Ticks(n: nat): (es: seq<InputEvent>) { seq(n, _ => TICK) }

  /** An accelerometer with an empty ring whose device holds n samples. */
  function Idle(size: nat, n: nat): (s: Sensor) { Sensor(Source(REST, [], size, Ticks(n)), false) }

  lemma {:induction false} TicksCount(n: nat)
    ensures |Fold(REST, Ticks(n)).1| == n
  {
    if n > 0 {
      TicksCount(n - 1);
      assert Ticks(n)[1..] == Ticks(n - 1);
    }
  }

  /** Of two samples that arrive, one is delivered, and the mark stays. */
  lemma {:induction false} OneOfTwo(size: nat)
    requires size >= 2
    ensures TurnOf(Idle(size, 2).(marked := true), 1, Got(2))
         == (1, Sensor(Source(REST, [TICK], size, []), true), [Acceleration(0.0, 0.0, 0.0, 0)])
  {
    var s := Idle(size, 2).source;
    assert Filled(s, Got(2)).contents == [TICK, TICK] && Filled(s, Got(2)).device == [];
    assert [TICK, TICK][1..] == [TICK];
    var sample := Acceleration(0.0, 0.0, 0.0, 0);
    assert Step(REST, TICK) == (REST, Some(sample)) && [sample] + [] == [sample];
    assert Serve(REST, [TICK, TICK][1..], 0) == (REST, [TICK], []);
    assert Serve(REST, [TICK, TICK], 1) == (REST, [TICK], [sample]);
  }

  /** The state in which that call ends. */
  lemma {:induction false} OneLeft(size: nat)
    requires size >= 2
    ensures CallOf(Call([Idle(size, 2)], 1, 0, [], [Got(2)]), [Polled(1, [true])]).1.sensors
         == [Sensor(Source(REST, [TICK], size, []), true)]
  {
    var c, polls := Call([Idle(size, 2)], 1, 0, [], [Got(2)]), [Polled(1, [true])];
    assert PassUpTo(c, 1) == PassUpTo(c, 0) == c;
    var v := AfterPoll(c, polls);
    assert v.sensors == [Idle(size, 2).(marked := true)];
    OneOfTwo(size);
    assert PassUpTo(v, 0) == v && PassUpTo(v, 1) == VisitOf(v, 0);
    assert CallOf(c, polls) == CallOf(v, polls[1..]);
  }

  /** Two samples arrive and one is asked for; in the next call the read fails, and the other
      sample stays behind. */
  lemma {:induction false} StrandedExample(e: Errno, size: nat)
    requires size >= 2
    ensures var between := CallOf(Call([Idle(size, 2)], 1, 0, [], [Got(2)]), [Polled(1, [true])]).1;
            Stranded(CallOf(Call(between.sensors, 1, 0, [], [Failed(e)]), []).1.sensors[0])
  {
    OneLeft(size);
    var left := Sensor(Source(REST, [TICK], size, []), true);
    var next := Call([left], 1, 0, [], [Failed(e)]);
    assert PassUpTo(next, 0) == next && FailsIn(next, 0);
    assert Passes(next, []) == [next];
    assert StrandedFrom(next, [], 0, 0);
    StrandedIff(next, [], 0);
  }
}

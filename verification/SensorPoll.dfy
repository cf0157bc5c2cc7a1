/**
 The poll loop over the sensors (libsensors/nusensors.cpp, pollEvents): it hands out what
 the readers have left over, polls the devices when there is room, and must not forget a
 reader that still holds events.
 */
module SensorPoll {
  import opened InputRing
  import opened SensorReaders
  import opened SensorCalls
  import opened SensorWrites

  /** The samples of sensor i among the writes. */
  function Of(out: seq<Write>, i: nat): (s: seq<Sample>) {
    if out == [] then []
    else Of(out[..|out| - 1], i) + if out[|out| - 1].sensor == i then [out[|out| - 1].sample] else []
  }

  lemma {:induction false} OfConcat(a: seq<Write>, b: seq<Write>, i: nat)
    ensures Of(a + b, i) == Of(a, i) + Of(b, i)
    decreases |b|
  {
    if b == [] {
      assert a + b == a;
    } else {
      var n := |b| - 1;
      OfConcat(a, b[..n], i);
      assert (a + b)[..|a + b| - 1] == a + b[..n];
    }
  }

  lemma {:induction false} OfFrom(i: nat, at: int, samples: seq<Sample>, j: nat)
    ensures Of(From(i, at, samples), j) == if i == j then samples else []
    decreases |samples|
  {
    var d, n := From(i, at, samples), |samples| - 1;
    if samples != [] {
      OfFrom(i, at, samples[..n], j);
      assert d[..n] == From(i, at, samples[..n]);
      assert samples == samples[..n] + [samples[n]];
    }
  }

  /** The writes are, sensor by sensor, what the readers produced between two states. */
  ghost predicate Delivered(was: seq<seq<Sample>>, now: seq<seq<Sample>>, out: seq<Write>) {
    |was| == |now| && forall i :: 0 <= i < |was| ==> now[i] == was[i] + Of(out, i)
  }

  lemma {:induction false} DeliveredMore(was: seq<seq<Sample>>, now: seq<seq<Sample>>, out: seq<Write>, i: nat, at: int,
                                         samples: seq<Sample>)
    requires Delivered(was, now, out) && i < |now|
    ensures Delivered(was, now[i := now[i] + samples], out + From(i, at, samples))
  {
    forall j | 0 <= j < |was| ensures now[i := now[i] + samples][j] == was[j] + Of(out + From(i, at, samples), j) {
      OfConcat(out, From(i, at, samples), j);
      OfFrom(i, at, samples, j);
    }
  }

  /** The numbers of a call: `lost` is what failed reads have added to the room. */
  ghost predicate Counts(room: int, count: int, nbEvents: int, out: seq<Write>, lost: nat) {
    nbEvents == |out| - lost && room + nbEvents == count && room >= 0
  }

  ghost predicate AnyFailed(polls: seq<PollResult>) { exists p :: p in polls && p.PollFailed? }
  ghost predicate AllGot(script: seq<ReadResult>) { forall k :: 0 <= k < |script| ==> script[k].Got? }

  twostate lemma {:induction false} ReaderKept(r: Reader)
    requires old(r.Valid()) && unchanged(r) && unchanged(r.ring) && unchanged(r.ring.buffer)
    ensures r.Valid() && r.ring.contents == old(r.ring.contents)
  {
  }

  class Poller {
    const sensors: seq<Reader>
    const revents: array<bool>            // one per sensor, the last for the wake pipe
    const devices: array<seq<InputEvent>> // what each device still has to deliver
    ghost var failed: set<nat>            // the sensors whose last read failed
    ghost const starts: seq<Pending>      // each reader's first state
    ghost const supply: seq<seq<InputEvent>>  // all events of each device

    ghost predicate Distinct()
    {
      forall i, j :: 0 <= i < j < |sensors| ==>
        sensors[i] != sensors[j] && sensors[i].ring != sensors[j].ring
            && sensors[i].ring.buffer != sensors[j].ring.buffer
    }

    ghost predicate Shape()
    {
      Distinct() && revents.Length == |sensors| + 1 && devices.Length == |starts| == |supply| == |sensors|
    }

    /** What reader i has read and what its device still holds is all there is. */
    ghost predicate Fed(i: nat)
      reads devices, sensors
      requires Shape() && i < |sensors|
    {
      sensors[i].start == starts[i] && sensors[i].history + devices[i] == supply[i]
    }

    ghost predicate ReadersValid()
      reads devices, sensors, set r | r in sensors :: r.ring, set r | r in sensors :: r.ring.buffer
      requires Shape()
    {
      forall i :: 0 <= i < |sensors| ==> sensors[i].Valid() && Fed(i)
    }

    /** Sensor i is marked, holds nothing, or could not be read. */
    ghost predicate Remembered(i: nat)
      reads this, revents, sensors, set r | r in sensors :: r.ring, set r | r in sensors :: r.ring.buffer
      requires Shape() && i < |sensors|
    {
      revents[i] || sensors[i].ring.contents == [] || i in failed
    }

    /** No reader holds events without being marked. */
    ghost predicate NoneStranded()
      reads this, revents, sensors, set r | r in sensors :: r.ring, set r | r in sensors :: r.ring.buffer
      requires Shape()
    {
      forall i :: 0 <= i < |sensors| ==> Remembered(i)
    }

    ghost predicate Valid()
      reads this, revents, devices, sensors, set r | r in sensors :: r.ring, set r | r in sensors :: r.ring.buffer
    {
      Shape() && ReadersValid() && NoneStranded()
    }

    constructor (sensors: seq<Reader>, supply: seq<seq<InputEvent>>)
      requires forall i :: 0 <= i < |sensors| ==>
                 sensors[i].Valid() && sensors[i].ring.contents == [] && sensors[i].history == []
      requires |supply| == |sensors|
      requires forall i, j :: 0 <= i < j < |sensors| ==>
        sensors[i] != sensors[j] && sensors[i].ring != sensors[j].ring
            && sensors[i].ring.buffer != sensors[j].ring.buffer
      ensures Valid() && this.sensors == sensors && this.supply == supply && failed == {} && fresh(revents)
              && fresh(devices)
      ensures forall i :: 0 <= i < |sensors| ==> SensorAt(i) == Sensor(sensors[i].Over(supply[i]), false)
    {
      this.sensors, this.supply := sensors, supply;
      revents := new bool[|sensors| + 1](_ => false);
      devices := new seq<InputEvent>[|sensors|](i requires 0 <= i < |sensors| => supply[i]);
      starts := seq(|sensors|, i requires 0 <= i < |sensors| reads sensors => sensors[i].start);
      failed := {};
    }

    /** However polls and reads cut the stream, what a reader has produced is a prefix of the
        samples of its whole event stream. */
    lemma {:induction false} ProducesPrefix(i: nat)
      requires Valid() && i < |sensors|
      ensures sensors[i].produced <= Fold(starts[i], supply[i]).1
    {
      var r := sensors[i];
      assert Fed(i);
      PrefixOfFold(r.start, r.history, r.state, r.ring.contents, r.produced, devices[i]);
    }

    /** What each reader has produced so far. */
    ghost function Produced(): (s: seq<seq<Sample>>)
      reads sensors
      ensures |s| == |sensors|
    {
      seq(|sensors|, i requires 0 <= i < |sensors| reads sensors => sensors[i].produced)
    }

    /** What a call works on: each reader with its device, and its mark. */
    ghost function SensorAt(i: nat): (s: Sensor)
      reads revents, devices, sensors, set r | r in sensors :: r.ring
      requires Shape() && i < |sensors|
    {
      Sensor(sensors[i].Over(devices[i]), revents[i])
    }

    ghost function View(): (s: seq<Sensor>)
      reads revents, devices, sensors, set r | r in sensors :: r.ring
      requires Shape()
      ensures |s| == |sensors| && forall i :: 0 <= i < |s| ==> s[i] == SensorAt(i)
    {
      seq(|sensors|, i requires 0 <= i < |sensors|
                       reads revents, devices, sensors, set r | r in sensors :: r.ring => SensorAt(i))
    }

    lemma {:induction false} ViewFits()
      requires Valid()
      ensures Fits(View())
    {
      forall i | 0 <= i < |sensors| ensures |SensorAt(i).source.contents| <= SensorAt(i).source.size {
        assert sensors[i].Valid();
      }
    }

    /** One sensor's turn. The result of a failed read is negative and is subtracted from the
        room all the same. */
    method Turn(i: nat, count: int, r: ReadResult) returns (nb: int, out: seq<Sample>)
      requires Shape() && i < |sensors| && sensors[i].Valid() && Fed(i) && count >= 1 && revents[i]
      modifies `failed, revents, devices, sensors[i], sensors[i].ring, sensors[i].ring.buffer
      ensures sensors[i].Valid() && Fed(i) && Remembered(i) && sensors[i].produced == old(sensors[i].produced) + out
      ensures old(|SensorAt(i).source.contents| <= SensorAt(i).source.size)
      ensures (nb, SensorAt(i), out) == TurnOf(old(SensorAt(i)), count, r)
      ensures nb <= count
      ensures if nb < 0 then out == [] && failed == old(failed) + {i} else |out| == nb && failed == old(failed) - {i}
      ensures nb < 0 ==> r.Failed? || r.Torn?
      ensures nb < count ==> !revents[i]
      ensures forall j :: 0 <= j < revents.Length && j != i ==> revents[j] == old(revents[j])
      ensures forall j :: 0 <= j < devices.Length && j != i ==> devices[j] == old(devices[j])
    {
      var device;
      nb, out, device := sensors[i].ReadEvents(count, devices[i], r);
      label served:
      devices[i] := device;
      failed := if nb < 0 then failed + {i} else failed - {i};
      if nb < count {
        revents[i] := false;
      }
      ReaderKept@served(sensors[i]);
    }

    /** Nothing of sensor j has changed. */
    twostate predicate Untouched(j: nat)
      requires Shape() && j < |sensors|
      reads this, revents, devices, sensors[j], sensors[j].ring, sensors[j].ring.buffer
    {
      && unchanged(sensors[j]) && unchanged(sensors[j].ring) && unchanged(sensors[j].ring.buffer)
      && revents[j] == old(revents[j]) && devices[j] == old(devices[j]) && (j in failed <==> j in old(failed))
    }

    /** Sensor j is as it was, and as it has to be. */
    twostate predicate Kept(j: nat)
      requires Shape() && j < |sensors|
      reads this, revents, devices, sensors, set r | r in sensors :: r.ring, set r | r in sensors :: r.ring.buffer
    {
      && sensors[j].Valid() && Fed(j) && Remembered(j)
      && SensorAt(j) == old(SensorAt(j)) && sensors[j].produced == old(sensors[j].produced)
    }

    twostate lemma {:induction false} OtherKept(j: nat)
      requires old(Valid()) && j < |sensors| && Untouched(j)
      ensures Kept(j)
    {
      ReaderKept(sensors[j]);
      assert old(Fed(j)) && old(Remembered(j));
    }

    /** One sensor's turn leaves the others as they are. */
    method TurnAlone(i: nat, count: int, r: ReadResult) returns (nb: int, out: seq<Sample>)
      requires Valid() && i < |sensors| && count >= 1 && revents[i]
      modifies `failed, revents, devices, sensors[i], sensors[i].ring, sensors[i].ring.buffer
      ensures sensors[i].Valid() && Fed(i) && Remembered(i) && sensors[i].produced == old(sensors[i].produced) + out
      ensures old(|SensorAt(i).source.contents| <= SensorAt(i).source.size)
      ensures (nb, SensorAt(i), out) == TurnOf(old(SensorAt(i)), count, r)
      ensures nb <= count
      ensures if nb < 0 then out == [] && failed == old(failed) + {i} else |out| == nb && failed == old(failed) - {i}
      ensures nb < 0 ==> r.Failed? || r.Torn?
      ensures nb < count ==> !revents[i]
      ensures forall j :: 0 <= j < revents.Length && j != i ==> revents[j] == old(revents[j])
      ensures forall j :: 0 <= j < |sensors| && j != i ==> Kept(j)
    {
      nb, out := Turn(i, count, r);
      forall j | 0 <= j < |sensors| && j != i ensures Kept(j) {
        OtherKept(j);
      }
    }

    method ReadSensor(i: nat, count: int, r: ReadResult) returns (nb: int, out: seq<Sample>)
      requires Valid() && i < |sensors| && count >= 1 && revents[i]
      modifies `failed, revents, devices, sensors[i], sensors[i].ring, sensors[i].ring.buffer
      ensures Valid() && Produced() == old(Produced())[i := old(Produced())[i] + out]
      ensures old(|SensorAt(i).source.contents| <= SensorAt(i).source.size)
      ensures var t := TurnOf(old(SensorAt(i)), count, r);
              nb == t.0 && out == t.2 && View() == old(View())[i := t.1]
      ensures nb <= count
      ensures if nb < 0 then out == [] && failed == old(failed) + {i} else |out| == nb && failed == old(failed) - {i}
      ensures nb < 0 ==> r.Failed? || r.Torn?
      ensures nb < count ==> !revents[i]
      ensures forall j :: 0 <= j < revents.Length && j != i ==> revents[j] == old(revents[j])
    {
      nb, out := TurnAlone(i, count, r);
      forall j | 0 <= j < |sensors| && j != i
        ensures sensors[j].Valid() && Fed(j) && Remembered(j) && SensorAt(j) == old(SensorAt(j))
        ensures sensors[j].produced == old(sensors[j].produced)
      {
        assert Kept(j);
      }
    }

    /** The call as it stands, with the given numbers, deliveries and reads to come. */
    ghost function Standing(room: nat, nbEvents: int, out: seq<Write>, script: seq<ReadResult>): (c: Call)
      reads revents, devices, sensors, set r | r in sensors :: r.ring
      requires Shape()
      ensures |c.sensors| == |sensors|
    {
      Call(View(), room, nbEvents, out, script)
    }

    /** A pass has dealt with the first i sensors. */
    ghost predicate Passing(path: seq<Call>, i: nat, room: int, nbEvents: int, out: seq<Write>,
                            script: seq<ReadResult>,
                            was: seq<seq<Sample>>, total: int, lost: nat)
      reads this, revents, devices, sensors, set r | r in sensors :: r.ring, set r | r in sensors :: r.ring.buffer
    {
      && Valid() && Delivered(was, Produced(), out) && Counts(room, total, nbEvents, out, lost)
      && i < |path| == |sensors| + 1 && Standing(room, nbEvents, out, script) == path[i]
    }

    /** One pass over the sensors, as long as there is room. */
    method Pass(count: int, nb0: int, script: seq<ReadResult>, out0: seq<Write>, ghost was: seq<seq<Sample>>,
                ghost total: int, ghost lost0: nat)
      returns (room: int, nbEvents: int, out: seq<Write>, script': seq<ReadResult>, ghost lost: nat)
      requires Valid() && Delivered(was, Produced(), out0) && Counts(count, total, nb0, out0, lost0)
      modifies this, revents, devices, sensors, set r | r in sensors :: r.ring, set r | r in sensors :: r.ring.buffer
      ensures Valid() && Delivered(was, Produced(), out) && Counts(room, total, nbEvents, out, lost)
      ensures room != 0 ==> forall i :: 0 <= i < |sensors| ==> !revents[i]
      ensures AllGot(script) ==> AllGot(script') && lost == lost0 && failed <= old(failed)
      ensures old(Fits(View()))
      ensures Standing(room, nbEvents, out, script') == PassOf(old(Standing(count, nb0, out0, script)))
    {
      ViewFits();
      ghost var path := PathOf(Standing(count, nb0, out0, script));
      room, nbEvents, out, script', lost := PassOver(count, nb0, script, out0, path, was, total, lost0);
      PassEnds(path, room, nbEvents, out, script', was, total, lost);
    }

    /** Without room, the rest of a pass changes nothing. */
    lemma {:induction false} PassingEnds(path: seq<Call>, i: nat, room: int, nbEvents: int, out: seq<Write>,
                                         script: seq<ReadResult>, was: seq<seq<Sample>>, total: int, lost: nat)
      requires IsPass(path) && Passing(path, i, room, nbEvents, out, script, was, total, lost)
      requires i <= |sensors| && (room == 0 || i == |sensors|)
      ensures Passing(path, |sensors|, room, nbEvents, out, script, was, total, lost)
    {
      if room == 0 { PassDry(path, i, |sensors|); }
    }

    /** The loop over the sensors. */
    method PassOver(count: int, nb0: int, script: seq<ReadResult>, out0: seq<Write>,
                    ghost path: seq<Call>, ghost was: seq<seq<Sample>>, ghost total: int, ghost lost0: nat)
      returns (room: int, nbEvents: int, out: seq<Write>, script': seq<ReadResult>, ghost lost: nat)
      requires IsPass(path) && Passing(path, 0, count, nb0, out0, script, was, total, lost0)
      modifies this, revents, devices, sensors, set r | r in sensors :: r.ring, set r | r in sensors :: r.ring.buffer
      ensures Passing(path, |sensors|, room, nbEvents, out, script', was, total, lost)
      ensures AllGot(script) ==> AllGot(script') && lost == lost0 && failed <= old(failed)
    {
      room, nbEvents, out, script', lost := count, nb0, out0, script, lost0;
      var i := 0;
      while room != 0 && i < |sensors|
        invariant 0 <= i <= |sensors| && Passing(path, i, room, nbEvents, out, script', was, total, lost)
        invariant AllGot(script) ==> AllGot(script') && lost == lost0 && failed <= old(failed)
        decreases |sensors| - i
      {
        room, nbEvents, out, script', lost := PassStep(i, room, nbEvents, script', out, path, was, total, lost);
        i := i + 1;
      }
      PassingEnds(path, i, room, nbEvents, out, script', was, total, lost);
    }

    lemma {:induction false} PassEnds(path: seq<Call>, room: int, nbEvents: int, out: seq<Write>,
                                      script: seq<ReadResult>,
                                      was: seq<seq<Sample>>, total: int, lost: nat)
      requires IsPass(path) && Passing(path, |sensors|, room, nbEvents, out, script, was, total, lost)
      ensures Standing(room, nbEvents, out, script) == PassOf(path[0])
      ensures room != 0 ==> forall j :: 0 <= j < |sensors| ==> !revents[j]
    {
      assert path[|sensors|] == PassUpTo(path[0], |sensors|);
      if room != 0 {
        forall j | 0 <= j < |sensors| ensures !revents[j] {
          PassUnmarks(path[0], |sensors|, j);
          assert View()[j] == SensorAt(j);
        }
      }
    }

    /** Sensor i in a pass. */
    method PassStep(i: nat, room: int, nb0: int, script: seq<ReadResult>, out0: seq<Write>,
                    ghost path: seq<Call>, ghost was: seq<seq<Sample>>, ghost total: int, ghost lost0: nat)
      returns (room': int, nbEvents: int, out: seq<Write>, script': seq<ReadResult>, ghost lost: nat)
      requires IsPass(path) && Passing(path, i, room, nb0, out0, script, was, total, lost0) && i < |sensors|
               && room != 0
      modifies this, revents, devices, sensors, set r | r in sensors :: r.ring, set r | r in sensors :: r.ring.buffer
      ensures Passing(path, i + 1, room', nbEvents, out, script', was, total, lost)
      ensures AllGot(script) ==> AllGot(script') && lost == lost0 && failed <= old(failed)
    {
      room', nbEvents, out, script', lost := room, nb0, out0, script, lost0;
      assert View()[i] == SensorAt(i);
      assert path[i] == PassUpTo(path[0], i) && path[i + 1] == PassUpTo(path[0], i + 1);
      if revents[i] {
        room', nbEvents, out, script', lost := Visit(i, room, nb0, script, out0, was, total, lost0);
      }
    }

    /** What one sensor's turn makes of a call. */
    static lemma {:induction false} VisitIs(c: Call, i: nat)
      requires Fits(c.sensors) && i < |c.sensors| && c.room >= 1 && c.sensors[i].marked
      ensures var t := TurnOf(c.sensors[i], c.room, Outcome(c.script));
              VisitOf(c, i) == Call(c.sensors[i := t.1], c.room - t.0, c.nbEvents + t.0,
                                    c.out + From(i, c.nbEvents, t.2), Later(c.script))
    {
    }

    /** A marked sensor is read. */
    method Visit(i: nat, room: int, nb0: int, script: seq<ReadResult>, out0: seq<Write>,
                 ghost was: seq<seq<Sample>>, ghost total: int, ghost lost0: nat)
      returns (room': int, nbEvents: int, out: seq<Write>, script': seq<ReadResult>, ghost lost: nat)
      requires Valid() && i < |sensors| && revents[i] && room >= 1
      requires Delivered(was, Produced(), out0) && Counts(room, total, nb0, out0, lost0)
      modifies `failed, revents, devices, sensors[i], sensors[i].ring, sensors[i].ring.buffer
      ensures Valid() && Delivered(was, Produced(), out) && Counts(room', total, nbEvents, out, lost)
      ensures room' != 0 ==> !revents[i]
      ensures forall j :: 0 <= j < revents.Length && j != i ==> revents[j] == old(revents[j])
      ensures AllGot(script) ==> AllGot(script') && lost == lost0 && failed <= old(failed)
      ensures old(Fits(View()))
      ensures Standing(room', nbEvents, out, script') == VisitOf(old(Standing(room, nb0, out0, script)), i)
    {
      ViewFits();
      VisitIs(Standing(room, nb0, out0, script), i);
      var r := Got(0);
      script' := script;
      if script' != [] { r, script' := script'[0], script'[1..]; }
      ghost var now := Produced();
      var nb, samples := ReadSensor(i, room, r);
      DeliveredMore(was, now, out0, i, nb0, samples);
      out := out0 + From(i, nb0, samples);
      room', nbEvents := room - nb, nb0 + nb;
      lost := if nb < 0 then lost0 - nb else lost0;
    }

    /** poll() overwrites all marks. That loses nothing as long as no reader that could be
        read holds events. */
    method Poll(p: PollResult) returns (n: int)
      requires Valid() && forall i :: 0 <= i < |sensors| ==> !revents[i]
      modifies revents
      ensures Valid() && n == if p.PollFailed? then -(p.errno as int) else p.n
      ensures View() == if p.PollFailed? then old(View()) else Marked(old(View()), p.revents)
    {
      match p
      case PollFailed(errno) => n := -(errno as int);
      case Polled(ready, marks) =>
        n := ready;
        forall i | 0 <= i < revents.Length {
          revents[i] := i < |marks| && marks[i];
        }
        if revents[|sensors|] { revents[|sensors|] := false; }
        forall i | 0 <= i < |sensors|
          ensures sensors[i].Valid() && Fed(i) && Remembered(i)
          ensures SensorAt(i) == old(SensorAt(i)).(marked := i < |marks| && marks[i])
        {
          ReaderKept(sensors[i]);
          assert old(Fed(i)) && old(Remembered(i));
        }
    }

    /** The next outcome of poll(); once none is left it times out. */
    method PollNext(polls: seq<PollResult>) returns (n: int, left: seq<PollResult>)
      requires Valid() && forall i :: 0 <= i < |sensors| ==> !revents[i]
      modifies revents
      ensures Valid() && (n != 0 ==> |left| < |polls|) && |left| <= |polls| && forall r :: r in left ==> r in polls
      ensures n < 0 ==> AnyFailed(polls)
      ensures match NextOf(polls)
              case Stop(error) => n == error < 0 && View() == old(View())
              case Done(marks) => n == 0 && View() == Marked(old(View()), marks)
              case More(marks) => n > 0 && View() == Marked(old(View()), marks) && left == polls[1..]
    {
      left := polls;
      var p := Polled(0, []);
      if left != [] { p, left := left[0], left[1..]; }
      n := Poll(p);
    }

    /** The call, begun as `call`, has come to where it stands: to its end, unless it goes on. */
    ghost predicate Reaches(call: Call, polls: seq<PollResult>, again: bool,
                            room: int, nbEvents: int, out: seq<Write>, rest: seq<ReadResult>, left: seq<PollResult>)
      reads revents, devices, sensors, set r | r in sensors :: r.ring
      requires Shape() && room >= 0
    {
      && Fits(call.sensors) && Fits(View())
      && var here := Standing(room, nbEvents, out, rest);
         && CallOf(call, polls) == (if again then CallOf(here, left) else (nbEvents, here))
         && (EndsInError(call, polls) <==> again && EndsInError(here, left))
    }

    /** pollEvents, for the given outcomes of poll() and of the reads; once no outcome is
        left, poll() times out. `out` lists the writes to the caller's array, which are what
        the readers produced; the result is their number less what failed reads have
        subtracted. Only readers whose last read failed can be left with events and without a
        mark. */
    method PollEvents(count: int, polls: seq<PollResult>, script: seq<ReadResult>)
      returns (res: int, out: seq<Write>, ghost lost: nat, ghost pollError: bool)
      requires Valid() && count >= 0
      modifies this, revents, devices, sensors, set r | r in sensors :: r.ring, set r | r in sensors :: r.ring.buffer
      ensures Valid() && Delivered(old(Produced()), Produced(), out)
      ensures |out| <= count + lost && (if pollError then res < 0 else res == |out| - lost)
      ensures AllGot(script) ==> lost == 0 && failed <= old(failed)
      ensures pollError ==> AnyFailed(polls)
      ensures old(Fits(View())) && (pollError <==> EndsInError(old(Standing(count, 0, [], script)), polls))
      ensures var (nb, end) := CallOf(old(Standing(count, 0, [], script)), polls);
              res == nb && out == end.out && View() == end.sensors
    {
      ViewFits();
      ghost var call := Standing(count, 0, [], script);
      var room, nbEvents, left, rest := count, 0, polls, script;
      out, lost, pollError := [], 0, false;
      ghost var was := Produced();
      var again := true;
      while again
        invariant Valid() && Delivered(was, Produced(), out) && Counts(room, count, nbEvents, out, lost)
        invariant AllGot(script) ==> AllGot(rest) && lost == 0 && failed <= old(failed)
        invariant AnyFailed(left) ==> AnyFailed(polls)
        invariant Reaches(call, polls, again, room, nbEvents, out, rest, left)
        decreases |left|, again
      {
        var n;
        ghost var here, ahead := Standing(room, nbEvents, out, rest), left;
        n, room, nbEvents, out, left, rest, lost := Round(room, nbEvents, out, left, rest, was, count, lost);
        RoundOfCall(here, ahead, n, Standing(room, nbEvents, out, rest), left);
        RoundOfError(here, ahead, n, Standing(room, nbEvents, out, rest), left);
        if n < 0 {
          pollError := true;
          return n, out, lost, pollError;
        }
        again := n != 0 && room != 0;
      }
      res := nbEvents;
    }

    /** One turn of the loop: a pass over the sensors, and a poll() when there is room. */
    method Round(room: int, nb0: int, out0: seq<Write>, polls: seq<PollResult>, script: seq<ReadResult>,
                 ghost was: seq<seq<Sample>>, ghost total: int, ghost lost0: nat)
      returns (n: int, room': int, nbEvents: int, out: seq<Write>, left: seq<PollResult>, rest: seq<ReadResult>,
               ghost lost: nat)
      requires Valid() && Delivered(was, Produced(), out0) && Counts(room, total, nb0, out0, lost0)
      modifies this, revents, devices, sensors, set r | r in sensors :: r.ring, set r | r in sensors :: r.ring.buffer
      ensures Valid() && Delivered(was, Produced(), out) && Counts(room', total, nbEvents, out, lost)
      ensures AllGot(script) ==> AllGot(rest) && lost == lost0 && failed <= old(failed)
      ensures |left| <= |polls| && (n != 0 ==> |left| < |polls|) && (AnyFailed(left) || n < 0 ==> AnyFailed(polls))
      ensures old(Fits(View()))
      ensures RoundTakes(old(Standing(room, nb0, out0, script)), polls, n, Standing(room', nbEvents, out, rest), left)
    {
      ViewFits();
      n, left := 0, polls;
      room', nbEvents, out, rest, lost := Pass(room, nb0, script, out0, was, total, lost0);
      if room' != 0 { n, left := PollNext(polls); }
    }
  }

  /** Two accelerometers on one poll loop; the second one's device holds n samples. */
  method TwoSensors(size: nat, n: nat) returns (poller: Poller, first: Reader, second: Reader)
    requires size > 0
    ensures poller.Valid() && poller.View() == [Idle(size, 0), Idle(size, n)]
    ensures fresh(poller) && fresh(poller.revents) && fresh(poller.devices)
    ensures poller.sensors == [first, second] && fresh(first) && fresh(second) && fresh(first.ring)
            && fresh(second.ring)
    ensures fresh(first.ring.buffer) && fresh(second.ring.buffer)
  {
    first := new Reader(REST, size);
    second := new Reader(REST, size);
    poller := new Poller([first, second], [Ticks(0), Ticks(n)]);
    assert poller.SensorAt(0) == Idle(size, 0);
    assert poller.SensorAt(1) == Idle(size, n);
  }

  /** Writes in front of the caller's array, on the objects themselves: two idle accelerometers,
      one failing read, a request for one sample. */
  method Overrun(e: Errno) returns (res: int, out: seq<Write>)
    ensures res == 1 && |out| == e + 1 && forall k :: 0 <= k <= e ==> out[k].at == k - e
  {
    var poller, first, second := TwoSensors(e + 1, e + 1);
    OverrunExample(e, e + 1);
    ghost var lost, pollError;
    res, out, lost, pollError := poller.PollEvents(1, [Polled(2, [true, true])], [Failed(e), Got(e + 1)]);
  }
}

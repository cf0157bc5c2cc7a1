/**
 The queue of busy video frames (camerahal/QCamera_Intf.h, enqueue and dequeue) and the
 record buffers that travel through it (camerahal/QualcommCameraHardware.cpp): the driver
 posts a filled buffer, the video thread takes it to the encoder, the encoder releases it,
 and the start of a recording drains what an earlier one left behind.
 */
module FrameQueue {
  import opened Shared

  type Buffer = nat

  class Node {
    var f: Buffer
    var next: Node?

    constructor (f: Buffer)
      ensures this.f == f && next == null
    {
      this.f, next := f, null;
    }
  }

  class Queue {
    var front: Node?
    var back: Node?
    var numOfFrames: int
    ghost var nodes: seq<Node>    // the linked nodes, front first

    ghost predicate Linked()
      reads this, nodes
    {
      && (forall i :: 0 <= i < |nodes| - 1 ==> nodes[i].next == nodes[i + 1])
      && (nodes != [] ==> nodes[|nodes| - 1].next == null)
    }

    ghost predicate Valid()
      reads this, nodes
    {
      && front == (if nodes == [] then null else nodes[0])
      && back == (if nodes == [] then null else nodes[|nodes| - 1])
      && numOfFrames == |nodes|
      && (forall i, j :: 0 <= i < j < |nodes| ==> nodes[i] != nodes[j])
      && Linked()
    }

    ghost function Frames(): (s: seq<Buffer>)
      reads this, nodes
      ensures |s| == |nodes|
    {
      seq(|nodes|, i requires 0 <= i < |nodes| reads this, nodes => nodes[i].f)
    }

    constructor ()
      ensures Valid() && nodes == [] && Frames() == []
    {
      front, back, numOfFrames, nodes := null, null, 0, [];
    }

    method Enqueue(p: Node)
      requires Valid() && p !in nodes && p.next == null
      modifies this, back
      ensures Valid() && nodes == old(nodes) + [p] && Frames() == old(Frames()) + [p.f] && p.f == old(p.f)
    {
      if back != null {
        back.next := p;
        back := p;
      } else {
        front := p;
        back := p;
      }
      numOfFrames := numOfFrames + 1;
      nodes := nodes + [p];
    }

    method Dequeue() returns (tmp: Node?)
      requires Valid()
      modifies this, front
      ensures Valid() && (tmp == null <==> old(nodes) == [])
      ensures tmp == null ==> nodes == []
      ensures tmp != null ==> tmp.next == null && old(nodes) == [tmp] + nodes && old(Frames()) == [tmp.f] + Frames()
    {
      tmp := front;
      if tmp == null { return null; }
      if front == back {
        front := null;
        back := null;
      } else if front != null {
        front := front.next;
      }
      tmp.next := null;
      numOfFrames := numOfFrames - 1;
      nodes := nodes[1..];
    }
  }

  // ----- the record buffers, as a state machine -----

  /** The busy queue, the tracking flags, and the buffers handed to the free queue so far. */
  datatype State = State(queue: seq<Buffer>, flags: seq<bool>, freed: seq<Buffer>)

  datatype Event =
    | Post(b: Buffer, memory: bool)      // the driver delivers a filled buffer
    | Take                                  // the video thread passes one to the encoder
    | Release(b: Buffer, running: bool)     // the encoder is done with a buffer
    | Drain                                 // a recording starts

  /** The flagged buffers from number k on, in ascending order. */
  function Flagged(flags: seq<bool>, k: nat): (s: seq<Buffer>)
    requires k <= |flags|
    decreases |flags| - k
  {
    if k == |flags| then [] else (if flags[k] then [k] else []) + Flagged(flags, k + 1)
  }

  function Step(s: State, e: Event): (s': State) {
    match e
    case Post(b, memory) => if memory then s.(queue := s.queue + [b]) else s
    case Take =>
      if s.queue == [] then s
      else s.(queue := s.queue[1..], flags := if s.queue[0] < |s.flags| then s.flags[s.queue[0] := true] else s.flags)
    case Release(b, running) =>
      if running && b < |s.flags| then s.(flags := s.flags[b := false], freed := s.freed + [b]) else s
    case Drain =>
      State([], seq(|s.flags|, _ => false), s.freed + s.queue + Flagged(s.flags, 0))
  }

  // ----- conservation -----

  predicate IsFlagged(flags: seq<bool>, b: Buffer) { b < |flags| && flags[b] }

  /** How often the recorder holds a buffer: queued or with the encoder. */
  function Copies(s: State, b: Buffer): (n: nat) {
    multiset(s.queue)[b] + if IsFlagged(s.flags, b) then 1 else 0
  }

  /** What the driver holds after an event: it gives up what it posts and gets what is
      freed. */
  function Held(held: multiset<Buffer>, s: State, e: Event): (h: multiset<Buffer>) {
    (if e.Post? then held - multiset{e.b} else held) + multiset(Freed(s, e))
  }

  function Freed(s: State, e: Event): (f: seq<Buffer>)
    ensures Step(s, e).freed == s.freed + f
  {
    match e
    case Release(b, running) => if running && b < |s.flags| then [b] else []
    case Drain => s.queue + Flagged(s.flags, 0)
    case _ => []
  }

  /** Every buffer is in exactly one place. */
  ghost predicate Conserved(s: State, held: multiset<Buffer>) {
    forall b: Buffer :: OnePlace(s, held, b)
  }

  ghost predicate OnePlace(s: State, held: multiset<Buffer>, b: Buffer) {
    Copies(s, b) + held[b] == if b < |s.flags| then 1 else 0
  }

  /** The driver posts only what it holds and memory suffices, and the encoder releases only
      what it was given. */
  predicate Fair(s: State, held: multiset<Buffer>, e: Event) {
    match e
    case Post(b, memory) => memory <==> b in held
    case Release(b, running) => running && b < |s.flags| ==> s.flags[b]
    case _ => true
  }

  lemma {:induction false} FlaggedOnce(flags: seq<bool>, k: nat, b: Buffer)
    requires k <= |flags|
    ensures multiset(Flagged(flags, k))[b] == if b >= k && IsFlagged(flags, b) then 1 else 0
    decreases |flags| - k
  {
    if k < |flags| {
      FlaggedOnce(flags, k + 1, b);
      var head := if flags[k] then [k] else [];
      assert multiset(Flagged(flags, k)) == multiset(head) + multiset(Flagged(flags, k + 1));
    }
  }

  /** A drain frees every queued or flagged buffer as often as the recorder holds it. */
  lemma {:induction false} DrainFrees(s: State, b: Buffer)
    ensures multiset(Freed(s, Drain))[b] == Copies(s, b) && Copies(Step(s, Drain), b) == 0
  {
    FlaggedOnce(s.flags, 0, b);
    assert multiset(s.queue + Flagged(s.flags, 0)) == multiset(s.queue) + multiset(Flagged(s.flags, 0));
  }

  /** Each buffer is freed at most once, exactly when no buffer is queued twice and none is
      queued and flagged. */
  lemma {:induction false} DrainFreesOnceIff(s: State)
    ensures (forall b: Buffer :: multiset(Freed(s, Drain))[b] <= 1)
            <==> (forall i, j :: 0 <= i < j < |s.queue| ==> s.queue[i] != s.queue[j])
                 && (forall i :: 0 <= i < |s.queue| ==> !IsFlagged(s.flags, s.queue[i]))
  {
    forall b: Buffer ensures multiset(Freed(s, Drain))[b] == Copies(s, b) { DrainFrees(s, b); }
    if forall b: Buffer :: multiset(Freed(s, Drain))[b] <= 1 {
      forall i | 0 <= i < |s.queue|
        ensures !IsFlagged(s.flags, s.queue[i]) && forall j :: i < j < |s.queue| ==> s.queue[i] != s.queue[j]
      {
        assert Copies(s, s.queue[i]) <= 1;
        CountAt(s.queue, i);
      }
    } else {
      var b: Buffer :| multiset(Freed(s, Drain))[b] > 1;
      assert Copies(s, b) > 1 && b in multiset(s.queue);
      var i :| 0 <= i < |s.queue| && s.queue[i] == b;
      if !IsFlagged(s.flags, b) { SecondCopy(s.queue, i); }
    }
  }

  lemma {:induction false} CountAt(q: seq<Buffer>, i: nat)
    requires i < |q|
    ensures multiset(q)[q[i]] >= 1
    ensures forall j :: i < j < |q| && q[j] == q[i] ==> multiset(q)[q[i]] >= 2
  {
    assert q == q[..i] + [q[i]] + q[i + 1..];
    assert multiset(q) == multiset(q[..i]) + multiset{q[i]} + multiset(q[i + 1..]);
    forall j | i < j < |q| && q[j] == q[i]
      ensures q[i] in multiset(q[i + 1..])
    {
      assert q[i + 1..][j - i - 1] == q[i];
    }
  }

  lemma {:induction false} SecondCopy(q: seq<Buffer>, i: nat)
    requires i < |q| && multiset(q)[q[i]] >= 2
    ensures exists j :: 0 <= j < |q| && j != i && q[j] == q[i]
  {
    assert q == q[..i] + [q[i]] + q[i + 1..];
    assert multiset(q) == multiset(q[..i]) + multiset{q[i]} + multiset(q[i + 1..]);
    if q[i] in q[..i] {
      var j :| 0 <= j < i && q[..i][j] == q[i];
      assert q[j] == q[i];
    } else {
      assert q[i] in q[i + 1..];
      var j :| 0 <= j < |q| - i - 1 && q[i + 1..][j] == q[i];
      assert q[i + 1 + j] == q[i];
    }
  }

  /** One event keeps every buffer in exactly one place if and only if it is fair. */
  lemma {:induction false} StepConservesIff(s: State, held: multiset<Buffer>, e: Event)
    requires Conserved(s, held)
    ensures Conserved(Step(s, e), Held(held, s, e)) <==> Fair(s, held, e)
  {
    var s', h := Step(s, e), Held(held, s, e);
    if Fair(s, held, e) {
      forall b: Buffer ensures OnePlace(s', h, b) { PlaceKept(s, held, e, b); }
    } else {
      assert OnePlace(s, held, e.b);
      assert !OnePlace(s', h, e.b) by { PlaceLost(s, held, e); }
    }
  }

  lemma {:induction false} PlaceKept(s: State, held: multiset<Buffer>, e: Event, b: Buffer)
    requires Conserved(s, held) && Fair(s, held, e)
    ensures OnePlace(Step(s, e), Held(held, s, e), b)
  {
    assert OnePlace(s, held, b);
    match e
    case Post(c, memory) => PostKeeps(s, held, c, memory, b);
    case Take =>
      if s.queue != [] {
        assert OnePlace(s, held, s.queue[0]);
        TakeMoves(s, held, b);
      }
    case Release(c, running) => ReleaseKeeps(s, held, c, running, b);
    case Drain => DrainFrees(s, b);
  }

  lemma {:induction false} PostKeeps(s: State, held: multiset<Buffer>, c: Buffer, memory: bool, b: Buffer)
    requires OnePlace(s, held, b) && OnePlace(s, held, c) && Fair(s, held, Post(c, memory))
    ensures OnePlace(Step(s, Post(c, memory)), Held(held, s, Post(c, memory)), b)
  {
    if memory { assert multiset(s.queue + [c]) == multiset(s.queue) + multiset{c}; }
  }

  lemma {:induction false} ReleaseKeeps(s: State, held: multiset<Buffer>, c: Buffer, running: bool, b: Buffer)
    requires OnePlace(s, held, b) && Fair(s, held, Release(c, running))
    ensures OnePlace(Step(s, Release(c, running)), Held(held, s, Release(c, running)), b)
  {
  }

  lemma {:induction false} TakeMoves(s: State, held: multiset<Buffer>, b: Buffer)
    requires s.queue != [] && OnePlace(s, held, s.queue[0])
    ensures Copies(Step(s, Take), b) == Copies(s, b) && |Step(s, Take).flags| == |s.flags| && Freed(s, Take) == []
  {
    var q := s.queue;
    assert q == [q[0]] + q[1..];
    assert multiset(q) == multiset{q[0]} + multiset(q[1..]);
  }

  lemma {:induction false} PlaceLost(s: State, held: multiset<Buffer>, e: Event)
    requires Conserved(s, held) && !Fair(s, held, e)
    ensures !OnePlace(Step(s, e), Held(held, s, e), e.b)
  {
    assert OnePlace(s, held, e.b);
    if e.Post? && e.memory { assert multiset(s.queue + [e.b]) == multiset(s.queue) + multiset{e.b}; }
  }

  /** A whole run of fair events. */
  ghost predicate FairRun(s: State, held: multiset<Buffer>, events: seq<Event>)
    decreases |events|
  {
    events == [] || (Fair(s, held, events[0]) && FairRun(Step(s, events[0]), Held(held, s, events[0]), events[1..]))
  }

  function Run(s: State, held: multiset<Buffer>, events: seq<Event>): (r: (State, multiset<Buffer>))
    decreases |events|
  {
    if events == [] then (s, held) else Run(Step(s, events[0]), Held(held, s, events[0]), events[1..])
  }

  lemma {:induction false} DrainedClean(s: State, held: multiset<Buffer>)
    requires Conserved(s, held)
    ensures forall b: Buffer :: Copies(Step(s, Drain), b) == 0
    ensures forall b: Buffer :: Held(held, s, Drain)[b] == if b < |s.flags| then 1 else 0
  {
    StepConservesIff(s, held, Drain);
    forall b: Buffer ensures Copies(Step(s, Drain), b) == 0 { DrainFrees(s, b); }
    forall b: Buffer ensures Held(held, s, Drain)[b] == if b < |s.flags| then 1 else 0 {
      assert OnePlace(Step(s, Drain), Held(held, s, Drain), b);
    }
  }

  /** After any fair run, starting a recording leaves the recorder empty and every buffer
      with the driver, none of them twice. */
  lemma {:induction false} RecordingStartsClean(s: State, held: multiset<Buffer>, events: seq<Event>)
    requires Conserved(s, held) && FairRun(s, held, events)
    ensures var (t, h) := Run(s, held, events);
            var h' := Held(h, t, Drain);
            && Conserved(t, h) && (forall b: Buffer :: Copies(Step(t, Drain), b) == 0)
            && |t.flags| == |s.flags| && (forall b: Buffer :: h'[b] == if b < |s.flags| then 1 else 0)
    decreases |events|
  {
    if events == [] {
      DrainedClean(s, held);
    } else {
      StepConservesIff(s, held, events[0]);
      RecordingStartsClean(Step(s, events[0]), Held(held, s, events[0]), events[1..]);
    }
  }

  // ----- the recorder -----

  ghost predicate InRange(s: seq<Buffer>, n: nat) { forall i :: 0 <= i < |s| ==> s[i] < n }

  lemma {:induction false} RangeTail(s: seq<Buffer>, n: nat)
    requires InRange(s, n) && s != []
    ensures InRange(s[1..], n)
  {
  }

  lemma {:induction false} MoveOne(freed: seq<Buffer>, q: seq<Buffer>)
    requires q != []
    ensures (freed + [q[0]]) + q[1..] == freed + q
  {
  }

  class Recorder {
    const busy: Queue
    const flags: array<bool>          // record_buffers_tracking_flag
    var freed: seq<Buffer>            // what LINK_camframe_free_video was called with

    ghost predicate Valid()
      reads this, busy, busy.nodes, flags
    {
      busy.Valid() && InRange(busy.Frames(), flags.Length)
    }

    ghost function View(): (s: State)
      reads this, busy, busy.nodes, flags
    {
      State(busy.Frames(), flags[..], freed)
    }

    constructor (buffers: nat)
      ensures Valid() && View() == State([], seq(buffers, _ => false), []) && flags.Length == buffers
    {
      busy := new Queue();
      flags := new bool[buffers](_ => false);
      freed := [];
    }

    /** cam_frame_post_video; `memory` says whether malloc finds any for the node. */
    method Post(p: Buffer, memory: bool)
      requires Valid() && p < flags.Length
      modifies busy, busy.nodes
      ensures Valid() && View() == Step(old(View()), Event.Post(p, memory))
    {
      if memory {
        var node := new Node(p);
        busy.Enqueue(node);
      }
    }

    /** cam_frame_get_video */
    method GetVideo() returns (p: Option<Buffer>)
      requires Valid()
      modifies busy, busy.nodes
      ensures Valid() && busy.nodes == if old(busy.nodes) == [] then [] else old(busy.nodes)[1..]
      ensures old(View()).queue == [] ==> p == None && View() == old(View())
      ensures old(View()).queue != []
              ==> p == Some(old(View()).queue[0]) && View() == old(View()).(queue := old(View()).queue[1..])
    {
      p := None;
      ghost var was := busy.Frames();
      if busy.front != null {
        RangeTail(was, flags.Length);
        var node := busy.Dequeue();
        p := Some(node.f);
        assert busy.Frames() == was[1..];
      }
    }

    /** The video thread takes a frame and hands it to the encoder. */
    method Take()
      requires Valid()
      modifies busy, busy.nodes, flags
      ensures Valid() && View() == Step(old(View()), Event.Take)
    {
      var vframe := GetVideo();
      match vframe
      case None =>
      case Some(offset) => flags[offset] := true;
    }

    /** releaseRecordingFrame, for the buffer found at `cnt`; `running` says whether the
        frame thread runs. */
    method Release(cnt: nat, running: bool)
      requires Valid()
      modifies flags, `freed
      ensures Valid() && View() == Step(old(View()), Event.Release(cnt, running))
    {
      if cnt < flags.Length {
        if running {
          flags[cnt] := false;
          freed := freed + [cnt];
        }
      }
    }

    /** cam_frame_flush_video: the nodes go, the frames are forgotten. */
    method Flush()
      requires Valid()
      modifies busy, busy.nodes
      ensures Valid() && View() == old(View()).(queue := [])
    {
      ghost var k := 0;
      while busy.front != null
        invariant busy.Valid() && View() == old(View()).(queue := View().queue)
        invariant k <= |old(busy.nodes)| && busy.nodes == old(busy.nodes)[k..]
        decreases |busy.nodes|
      {
        assert busy.front == old(busy.nodes)[k];
        var node := busy.Dequeue();
        k := k + 1;
      }
    }

    /** The first drain loop of startRecording: the counter, not the list, drives it. */
    method DrainBusy()
      requires Valid()
      modifies busy, busy.nodes, `freed
      ensures Valid() && View() == State([], old(View()).flags, old(View()).freed + old(View()).queue)
    {
      ghost var k, all := 0, freed + busy.Frames();
      while busy.numOfFrames > 0
        invariant Valid() && flags[..] == old(flags[..]) && freed + busy.Frames() == all
        invariant k <= |old(busy.nodes)| && busy.nodes == old(busy.nodes)[k..]
        decreases busy.numOfFrames
      {
        k := k + 1;
        MoveOne(freed, busy.Frames());
        FreeNext();
      }
    }

    /** One turn of the first drain loop. */
    method FreeNext()
      requires Valid() && busy.numOfFrames > 0
      modifies busy, busy.nodes, `freed
      ensures Valid() && busy.nodes == old(busy.nodes)[1..] && busy.numOfFrames == old(busy.numOfFrames) - 1
      ensures View() == State(old(View()).queue[1..], old(View()).flags, old(View()).freed + [old(View()).queue[0]])
    {
      var vframe := GetVideo();
      match vframe
      case None => assert false;
      case Some(b) => freed := freed + [b];
    }

    /** The second drain loop: dangling buffers. */
    method DrainFlags()
      modifies flags, `freed
      ensures flags[..] == seq(flags.Length, _ => false)
      ensures freed == old(freed) + Flagged(old(flags[..]), 0)
    {
      ghost var was := flags[..];
      for cnt := 0 to flags.Length
        invariant forall k :: 0 <= k < flags.Length ==> flags[k] == (k >= cnt && was[k])
        invariant freed + Flagged(was, cnt) == old(freed) + Flagged(was, 0)
      {
        if flags[cnt] {
          freed := freed + [cnt];
          flags[cnt] := false;
        }
      }
    }

    method StartRecording()
      requires Valid()
      modifies busy, busy.nodes, flags, `freed
      ensures Valid() && View() == Step(old(View()), Drain)
    {
      DrainBusy();
      DrainFlags();
    }
  }
}

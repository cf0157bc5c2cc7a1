/**
 The double-length ring buffer in front of the sensor devices
 (libsensors/InputEventReader.cpp): reads go in one piece into the buffer, whatever spills
 over its first half is copied back, and the head may come to rest on the boundary.
 */
module InputRing {
  import opened Shared

  const EV_SYN := 0
  const EV_ABS := 3
  const EINVAL := 22

  datatype InputEvent = InputEvent(kind: int, code: int, value: int, time: int)

  type Errno = e: int | e > 0 witness 1

  /** What a read of the device does: at most `limit` events arrive, or it fails, or it
      delivers bytes that are not a whole number of events. */
  datatype ReadResult = Got(limit: nat) | Failed(errno: Errno) | Torn(junk: seq<InputEvent>)

  class Ring {
    const size: nat
    const buffer: array<InputEvent>    // two times size
    var head: nat
    var curr: nat
    var freeSpace: int
    ghost var contents: seq<InputEvent>

    function Slot(k: nat): (s: nat)
    {
      if k < size then k else k - size
    }

    ghost predicate Valid()
      reads this, buffer
    {
      && buffer.Length == 2 * size && |contents| == size - freeSpace && 0 <= freeSpace <= size
      && head <= size && (curr < size || curr == size == 0)
      && (curr + |contents| == head || curr + |contents| == head + size
          || (head == size && curr == 0 && contents == []))
      && forall k :: 0 <= k < |contents| ==> buffer[Slot(curr + k)] == contents[k]
    }

    constructor (numEvents: nat)
      ensures Valid() && contents == [] && size == numEvents && freeSpace == size && fresh(buffer)
    {
      size := numEvents;
      buffer := new InputEvent[numEvents * 2](_ => InputEvent(0, 0, 0, 0));
      head, curr, freeSpace := 0, 0, numEvents;
      contents := [];
    }

    /** The device writes events from the head on. */
    method Store(events: seq<InputEvent>)
      requires Valid() && |events| <= freeSpace
      modifies buffer
      ensures Valid() && forall k :: 0 <= k < |events| ==> buffer[head + k] == events[k]
      ensures forall k :: 0 <= k < head ==> buffer[k] == old(buffer[k])
    {
      forall k | 0 <= k < |events| {
        buffer[head + k] := events[k];
      }
    }

    /** fill: a successful read appends what arrived to the contents; after any other
        outcome the contents are as before. */
    method Fill(device: seq<InputEvent>, r: ReadResult) returns (res: int, device': seq<InputEvent>)
      requires Valid()
      modifies this, buffer
      ensures Valid()
      ensures freeSpace <= old(freeSpace) && contents + device' == old(contents) + device
      ensures (res >= 0 <==> old(freeSpace) == 0 || r.Got?) && (res >= 0 ==> res == |contents| - |old(contents)|)
      ensures res < 0 ==> contents == old(contents) && res == (if r.Failed? then -(r.errno as int) else -EINVAL)
      ensures old(freeSpace) > 0 && r.Got? ==> res == Min(r.limit, Min(old(freeSpace), |device|))
    {
      device' := device;
      res := 0;
      if freeSpace != 0 {
        match r
        case Failed(errno) => res := -(errno as int);
        case Torn(junk) =>
          Store(junk[..Min(|junk|, freeSpace)]);
          res := -EINVAL;
        case Got(limit) =>
          var n := Min(limit, Min(freeSpace, |device|));
          Store(device[..n]);
          device' := device[n..];
          res := n;
          if n != 0 { Advance(n, device[..n]); }
      }
    }

    /** The head moves past the events just stored; the spill is copied back. */
    method Advance(n: nat, ghost events: seq<InputEvent>)
      requires Valid() && 0 < |events| == n <= freeSpace
      requires forall k :: 0 <= k < n ==> buffer[head + k] == events[k]
      modifies this, buffer
      ensures Valid() && contents == old(contents) + events && freeSpace == old(freeSpace) - n
    {
      head := head + n;
      freeSpace := freeSpace - n;
      if head > size {
        var s := head - size;
        forall k | 0 <= k < s {
          buffer[k] := buffer[size + k];
        }
        head := s;
      }
      contents := contents + events;
    }

    /** readEvent */
    method ReadEvent() returns (available: bool, event: InputEvent)
      requires Valid() && size > 0
      ensures available <==> contents != []
      ensures available ==> event == contents[0]
    {
      event := buffer[curr];
      available := size - freeSpace != 0;
    }

    method Next()
      requires Valid() && contents != []
      modifies this
      ensures Valid() && contents == old(contents)[1..] && freeSpace == old(freeSpace) + 1
    {
      curr := curr + 1;
      freeSpace := freeSpace + 1;
      if curr >= size { curr := 0; }
      contents := contents[1..];
    }
  }
}

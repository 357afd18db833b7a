/** `Marshaller` (src/frame.rs): a pair of byte queues which turns frames into a byte stream and
    a byte stream, however it was chopped up in transit, back into frames. */
module Frames {
  import opened Base

  /** What `Frame::unmarshall` makes of the bytes under its cursor: a frame and the cursor
      position after it, `Ok(None)`, or an error. */
  datatype Decoded<+F, +E> =
    | Complete(frame: F, consumed: nat)
    | Incomplete
    | Malformed(error: E)

  /** An implementation of the `Frame` trait. */
  datatype Codec<!F, +E> = Codec(marshall: F -> Bytes, unmarshall: Bytes -> Decoded<F, E>)
  {
    /** An `io::Cursor` never moves past the end of the slice it reads. */
    ghost predicate CursorStaysInside()
    {
      forall stream :: unmarshall(stream).Complete? ==> unmarshall(stream).consumed <= |stream|
    }
  }

  /** What the trait asks of an implementation: unmarshalling inverts marshalling whatever bytes
      follow, and a stream which does not hold the whole frame yet (the empty stream included)
      yields `Ok(None)`. */
  ghost predicate Lawful<F(!new), E>(codec: Codec<F, E>)
  {
    && codec.CursorStaysInside()
    && (forall frame, rest ::
          codec.unmarshall(codec.marshall(frame) + rest) == Complete(frame, |codec.marshall(frame)|))
    && (forall frame, part :: part < codec.marshall(frame) ==> codec.unmarshall(part) == Incomplete)
    && codec.unmarshall([]) == Incomplete
  }

  class Marshaller {
    var readQueue: Bytes
    var writeQueue: Bytes

    constructor ()
      ensures readQueue == [] && writeQueue == []
    {
      readQueue, writeQueue := [], [];
    }

    method Push<F, E>(codec: Codec<F, E>, frame: F)
      modifies this`writeQueue
      ensures writeQueue == old(writeQueue) + codec.marshall(frame)
    {
      writeQueue := writeQueue + codec.marshall(frame);
    }

    /** On an error and on an incomplete frame the queue is left as it was. */
    method Pop<F, E>(codec: Codec<F, E>) returns (popped: Result<Option<F>, E>)
      requires codec.CursorStaysInside()
      modifies this`readQueue
      ensures popped == PopOutcome(codec, old(readQueue))
      ensures readQueue == PopRest(codec, old(readQueue))
      ensures popped.Ok? && popped.value.Some? ==>
                codec.unmarshall(old(readQueue)) == Complete(popped.value.value, |old(readQueue)| - |readQueue|)
                && readQueue == old(readQueue)[|old(readQueue)| - |readQueue|..]
      ensures popped == Ok(None) ==> codec.unmarshall(old(readQueue)) == Incomplete && readQueue == old(readQueue)
      ensures popped.Err? ==>
                codec.unmarshall(old(readQueue)) == Malformed(popped.error) && readQueue == old(readQueue)
    {
      match codec.unmarshall(readQueue)
      case Malformed(error) =>
        return Err(error);
      case Incomplete =>
        return Ok(None);
      case Complete(frame, consumed) =>
        readQueue := readQueue[consumed..];
        return Ok(Some(frame));
    }

    /** `Read`: copies from the front slice of the ring buffer only, `front` bytes long, so the
        read may be shorter than both the queue and the buffer. */
    method Read(buf: array<Byte>, front: nat) returns (count: nat)
      requires front <= |writeQueue| && (writeQueue != [] ==> front > 0)
      modifies this`writeQueue, buf
      ensures count == Min(front, buf.Length)
      ensures buf[..count] + writeQueue == old(writeQueue)
      ensures buf[count..] == old(buf[count..])
    {
      count := Min(front, buf.Length);
      forall i | 0 <= i < count {
        buf[i] := writeQueue[i];
      }
      assert buf[..count] == writeQueue[..count];
      writeQueue := writeQueue[count..];
    }

    /** `Write`: always takes the whole buffer. */
    method Write(buf: Bytes) returns (count: nat)
      modifies this`readQueue
      ensures count == |buf| && readQueue == old(readQueue) + buf
    {
      readQueue := readQueue + buf;
      count := |buf|;
    }

    /** Hands back the unread input, unless marshalled output is still waiting. */
    method Drain() returns (drained: Option<Bytes>)
      modifies this`readQueue
      ensures drained == if writeQueue == [] then Some(old(readQueue)) else None
      ensures readQueue == if writeQueue == [] then [] else old(readQueue)
    {
      if writeQueue == [] {
        drained := Some(readQueue);
        readQueue := [];
      } else {
        drained := None;
      }
    }
  }

  function PopOutcome<F, E>(codec: Codec<F, E>, queue: Bytes): Result<Option<F>, E>
  {
    match codec.unmarshall(queue)
    case Complete(frame, _) => Ok(Some(frame))
    case Incomplete => Ok(None)
    case Malformed(error) => Err(error)
  }

  function PopRest<F, E>(codec: Codec<F, E>, queue: Bytes): Bytes
    requires codec.CursorStaysInside()
  {
    match codec.unmarshall(queue)
    case Complete(_, consumed) => queue[consumed..]
    case _ => queue
  }

  // ---------------------------------------------------------------- Two marshallers and a wire

  /** A sending marshaller's write queue, the bytes in flight, and a receiving marshaller's read
      queue, with the frames pushed at one end and popped at the other. */
  datatype Link<F> = Link(outbox: Bytes, wire: Bytes, inbox: Bytes, pushed: seq<F>, popped: seq<F>)

  datatype LinkOp<F> =
    | Push(frame: F)
    | Fetch(count: nat)     // a read from the sender, possibly short
    | Deliver(count: nat)   // a write to the receiver
    | Pop

  function Step<F, E>(codec: Codec<F, E>, link: Link<F>, op: LinkOp<F>): Link<F>
    requires codec.CursorStaysInside()
  {
    match op
    case Push(frame) =>
      link.(outbox := link.outbox + codec.marshall(frame), pushed := link.pushed + [frame])
    case Fetch(count) =>
      var n := Min(count, |link.outbox|);
      link.(outbox := link.outbox[n..], wire := link.wire + link.outbox[..n])
    case Deliver(count) =>
      var n := Min(count, |link.wire|);
      link.(wire := link.wire[n..], inbox := link.inbox + link.wire[..n])
    case Pop =>
      var popped := PopOutcome(codec, link.inbox);
      link.(inbox := PopRest(codec, link.inbox),
            popped := link.popped + (if popped.Ok? && popped.value.Some? then [popped.value.value] else []))
  }

  function Run<F, E>(codec: Codec<F, E>, link: Link<F>, ops: seq<LinkOp<F>>): Link<F>
    requires codec.CursorStaysInside()
    decreases |ops|
  {
    if ops == [] then link else Run(codec, Step(codec, link, ops[0]), ops[1..])
  }

  function MarshallAll<F, E>(codec: Codec<F, E>, frames: seq<F>): Bytes
  {
    if frames == [] then [] else codec.marshall(frames[0]) + MarshallAll(codec, frames[1..])
  }

  /** Frames popped so far are the first frames pushed, and every byte of the others is in one of
      the three buffers, in order. */
  ghost predicate Faithful<F, E>(codec: Codec<F, E>, link: Link<F>)
  {
    && link.popped <= link.pushed
    && link.inbox + link.wire + link.outbox == MarshallAll(codec, link.pushed[|link.popped|..])
  }

  lemma {:induction false} MarshallAllSnoc<F, E>(codec: Codec<F, E>, frames: seq<F>, frame: F)
    ensures MarshallAll(codec, frames + [frame]) == MarshallAll(codec, frames) + codec.marshall(frame)
  {
    if frames == [] {
      assert frames + [frame] == [frame];
      assert MarshallAll(codec, [frame]) == codec.marshall(frame) + MarshallAll(codec, []);
    } else {
      MarshallAllSnoc(codec, frames[1..], frame);
      assert (frames + [frame])[1..] == frames[1..] + [frame];
    }
  }

  /** A queue which is the beginning of the stream of `frames` yields the first of them once all
      of its bytes are there, and until then asks for more. */
  lemma PopFromPrefix<F(!new), E>(codec: Codec<F, E>, frames: seq<F>, queue: Bytes)
    requires Lawful(codec) && queue <= MarshallAll(codec, frames)
    ensures frames == [] ==> codec.unmarshall(queue) == Incomplete
    ensures frames != [] ==>
              var first := codec.marshall(frames[0]);
              if first <= queue then codec.unmarshall(queue) == Complete(frames[0], |first|)
              else codec.unmarshall(queue) == Incomplete
  {
    if frames != [] {
      var first := codec.marshall(frames[0]);
      if |first| <= |queue| {
        assert queue == first + queue[|first|..];
      } else {
        assert queue < first;
      }
    }
  }

  lemma Shift(a: Bytes, b: Bytes, c: Bytes, n: nat)
    requires n <= |b|
    ensures (a + b[..n]) + b[n..] + c == a + b + c
    ensures c + (a + b[..n]) + b[n..] == c + a + b
  {
    assert b == b[..n] + b[n..];
  }

  lemma MoveFaithful<F, E>(codec: Codec<F, E>, link: Link<F>, op: LinkOp<F>)
    requires codec.CursorStaysInside() && Faithful(codec, link) && !op.Pop?
    ensures Faithful(codec, Step(codec, link, op))
  {
    var stream := link.inbox + link.wire + link.outbox;
    match op {
      case Push(frame) =>
        PushFaithful(codec, link, frame);
      case Fetch(count) =>
        Shift(link.wire, link.outbox, link.inbox, Min(count, |link.outbox|));
      case Deliver(count) =>
        Shift(link.inbox, link.wire, link.outbox, Min(count, |link.wire|));
    }
  }

  lemma PushFaithful<F, E>(codec: Codec<F, E>, link: Link<F>, frame: F)
    requires codec.CursorStaysInside() && Faithful(codec, link)
    ensures Faithful(codec, Step(codec, link, Push(frame)))
  {
    var missing := link.pushed[|link.popped|..];
    MarshallAllSnoc(codec, missing, frame);
    assert (link.pushed + [frame])[|link.popped|..] == missing + [frame];
    var stream := link.inbox + link.wire;
    assert stream + (link.outbox + codec.marshall(frame)) == stream + link.outbox + codec.marshall(frame);
  }

  /** The next frame is popped exactly when its last byte has arrived. */
  lemma PopNext<F(!new), E>(codec: Codec<F, E>, link: Link<F>)
    requires Lawful(codec) && Faithful(codec, link)
    ensures PopOutcome(codec, link.inbox) ==
            if |link.popped| < |link.pushed| && codec.marshall(link.pushed[|link.popped|]) <= link.inbox
            then Ok(Some(link.pushed[|link.popped|])) else Ok(None)
    ensures PopRest(codec, link.inbox) ==
              if PopOutcome(codec, link.inbox) == Ok(None) then link.inbox
              else link.inbox[|codec.marshall(link.pushed[|link.popped|])|..]
  {
    var missing := link.pushed[|link.popped|..];
    assert link.inbox <= MarshallAll(codec, missing);
    PopFromPrefix(codec, missing, link.inbox);
  }

  lemma DropFirst(a: Bytes, b: Bytes, c: Bytes, k: nat)
    requires k <= |a|
    ensures a[k..] + b + c == (a + b + c)[k..]
  {
  }

  lemma PopNothing<F(!new), E>(codec: Codec<F, E>, link: Link<F>)
    requires codec.CursorStaysInside() && PopOutcome(codec, link.inbox) == Ok(None)
    ensures Step(codec, link, Pop) == link.(inbox := PopRest(codec, link.inbox))
  {
    assert link.popped + [] == link.popped;
  }

  lemma PopFaithful<F(!new), E>(codec: Codec<F, E>, link: Link<F>)
    requires Lawful(codec) && Faithful(codec, link)
    ensures Faithful(codec, Step(codec, link, Pop))
  {
    PopNext(codec, link);
    if PopOutcome(codec, link.inbox) == Ok(None) {
      PopNothing(codec, link);
    } else {
      DropFirst(link.inbox, link.wire, link.outbox, |codec.marshall(link.pushed[|link.popped|])|);
      NextMissing(codec, link);
    }
  }

  lemma NextMissing<F, E>(codec: Codec<F, E>, link: Link<F>)
    requires |link.popped| < |link.pushed|
    ensures var first := codec.marshall(link.pushed[|link.popped|]);
            MarshallAll(codec, link.pushed[|link.popped|..])
              == first + MarshallAll(codec, link.pushed[|link.popped| + 1..])
  {
    assert link.pushed[|link.popped|..][1..] == link.pushed[|link.popped| + 1..];
  }

  /** Round trip over any chunking: whatever the interleaving of pushes, short reads, writes and
      pops, nothing is popped but a prefix of what was pushed, and `pop` never reports an error. */
  lemma {:induction false} RunFaithful<F(!new), E>(codec: Codec<F, E>, link: Link<F>, ops: seq<LinkOp<F>>)
    requires Lawful(codec) && Faithful(codec, link)
    ensures var end := Run(codec, link, ops);
            Faithful(codec, end) && end.popped <= end.pushed && PopOutcome(codec, end.inbox).Ok?
    decreases |ops|
  {
    if ops == [] {
      PopNext(codec, link);
    } else {
      if ops[0].Pop? {
        PopFaithful(codec, link);
      } else {
        MoveFaithful(codec, link, ops[0]);
      }
      RunFaithful(codec, Step(codec, link, ops[0]), ops[1..]);
    }
  }

  function PopTimes<F, E>(codec: Codec<F, E>, link: Link<F>, n: nat): Link<F>
    requires codec.CursorStaysInside()
    decreases n
  {
    if n == 0 then link else PopTimes(codec, Step(codec, link, Pop), n - 1)
  }

  /** Once all bytes have moved, a pop answers with the next frame, and with `None` only when
      every frame has been popped. */
  lemma PopAfterArrival<F(!new), E>(codec: Codec<F, E>, link: Link<F>)
    requires Lawful(codec) && Faithful(codec, link) && link.wire == [] && link.outbox == []
    ensures PopOutcome(codec, link.inbox) ==
            if |link.popped| < |link.pushed| then Ok(Some(link.pushed[|link.popped|])) else Ok(None)
    ensures |link.popped| == |link.pushed| ==> link.popped == link.pushed && link.inbox == []
  {
    assert link.inbox + link.wire + link.outbox == link.inbox;
    PopNext(codec, link);
  }

  lemma PopArrived<F(!new), E>(codec: Codec<F, E>, link: Link<F>)
    requires Lawful(codec) && Faithful(codec, link) && link.wire == [] && link.outbox == []
    requires |link.popped| < |link.pushed|
    ensures var next := Step(codec, link, Pop);
            && Faithful(codec, next) && next.wire == [] && next.outbox == []
            && next.pushed == link.pushed && |next.popped| == |link.popped| + 1
  {
    PopAfterArrival(codec, link);
    PopFaithful(codec, link);
  }

  /** Hence popping as often as frames are missing hands over all of them, in order. */
  lemma {:induction false} MovedBytesYieldAllFrames<F(!new), E>(codec: Codec<F, E>, link: Link<F>)
    requires Lawful(codec) && Faithful(codec, link) && link.wire == [] && link.outbox == []
    ensures var end := PopTimes(codec, link, |link.pushed| - |link.popped|);
            end.popped == link.pushed && end.inbox == []
    decreases |link.pushed| - |link.popped|
  {
    if |link.popped| < |link.pushed| {
      PopArrived(codec, link);
      MovedBytesYieldAllFrames(codec, Step(codec, link, Pop));
    } else {
      PopAfterArrival(codec, link);
    }
  }

  /** At any time the bytes under way can be brought to the receiver, by one read and one write. */
  lemma BytesCanMove<F(!new), E>(codec: Codec<F, E>, link: Link<F>)
    requires codec.CursorStaysInside() && Faithful(codec, link)
    ensures var ops := [Fetch(|link.outbox|), Deliver(|link.wire| + |link.outbox|)];
            var end := Run(codec, link, ops);
            && Faithful(codec, end) && end.wire == [] && end.outbox == []
            && end.inbox == MarshallAll(codec, link.pushed[|link.popped|..])
            && end.pushed == link.pushed && end.popped == link.popped
  {
    var fetch, deliver := Fetch(|link.outbox|), Deliver(|link.wire| + |link.outbox|);
    var fetched := Step(codec, link, fetch);
    MoveFaithful(codec, link, fetch);
    MoveFaithful(codec, fetched, deliver);
    var end := Step(codec, fetched, deliver);
    assert [fetch, deliver][1..] == [deliver] && [deliver][1..] == [];
    assert Run(codec, fetched, [deliver]) == Run(codec, end, []);
    assert end.inbox + [] + [] == end.inbox;
  }

  /** From a fresh pair of marshallers, over every run. */
  lemma StreamingRoundTrip<F(!new), E>(codec: Codec<F, E>, ops: seq<LinkOp<F>>)
    requires Lawful(codec)
    ensures var end := Run(codec, Link([], [], [], [], []), ops);
            && end.popped <= end.pushed
            && PopOutcome(codec, end.inbox).Ok?
            && (end.wire == [] && end.outbox == [] ==>
                  PopTimes(codec, end, |end.pushed| - |end.popped|).popped == end.pushed)
  {
    var start: Link<F> := Link([], [], [], [], []);
    RunFaithful(codec, start, ops);
    var end := Run(codec, start, ops);
    if end.wire == [] && end.outbox == [] {
      MovedBytesYieldAllFrames(codec, end);
    }
  }
}

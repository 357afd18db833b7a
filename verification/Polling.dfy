/** `IoType` and the `Poll` contract (io-reactor/src/poller/mod.rs) with its `popol` implementation
    (io-reactor/src/poller/popol.rs). */
module Polling {
  import opened Base

  type Fd = nat

  datatype Io = Read | Write

  datatype IoType = IoType(read: bool, write: bool)
  {
    /** `ops::Not` */
    function Complement(): IoType
    {
      IoType(!read, !write)
    }
  }

  const NONE := IoType(false, false)
  const READ_ONLY := IoType(true, false)
  const WRITE_ONLY := IoType(false, true)
  const READ_WRITE := IoType(true, true)

  /** One call of `IoType`'s `Iterator::next`: the operation handed out and the flags left. */
  function NextIo(io: IoType): (Option<Io>, IoType)
  {
    if io.write then (Some(Write), io.(write := false))
    else if io.read then (Some(Read), io.(read := false))
    else (None, io)
  }

  /** All operations a `for` loop over an `IoType` sees. */
  function Ios(io: IoType): seq<Io>
    decreases io.write, io.read
  {
    var (next, rest) := NextIo(io);
    if next.None? then [] else [next.value] + Ios(rest)
  }

  /** A write is handed out before a read, each at most once. */
  lemma WriteBeforeRead(io: IoType)
    ensures Ios(io) == (if io.write then [Write] else []) + (if io.read then [Read] else [])
  {
    var (_, rest) := NextIo(io);
    if io.write && io.read {
      assert Ios(rest) == [Read] + Ios(NONE);
    }
  }

  datatype IoFail = Connectivity(flags: int) | Os(flags: int)

  /** What the operating system reports about one file descriptor. */
  datatype Fired = Fired(hangup: bool, error: bool, readable: bool, writable: bool, flags: int)

  datatype Event = Event(fd: Fd, res: Result<IoType, IoFail>)

  /** A hang-up outweighs an error, and an error readiness; the readiness is reported flag by flag. */
  function EventOf(fd: Fd, fired: Fired): (event: Event)
    ensures event.fd == fd
    ensures event.res == Err(Connectivity(fired.flags)) <==> fired.hangup
    ensures event.res == Err(Os(fired.flags)) <==> fired.error && !fired.hangup
    ensures event.res.Ok? <==> !fired.hangup && !fired.error
    ensures event.res.Ok? ==> event.res.value.read == fired.readable && event.res.value.write == fired.writable
  {
    if fired.hangup then Event(fd, Err(Connectivity(fired.flags)))
    else if fired.error then Event(fd, Err(Os(fired.flags)))
    else Event(fd, Ok(IoType(fired.readable, fired.writable)))
  }

  function EventsOf(fired: seq<(Fd, Fired)>): (events: seq<Event>)
    ensures |events| == |fired|
    ensures forall i | 0 <= i < |fired| :: events[i] == EventOf(fired[i].0, fired[i].1)
  {
    seq(|fired|, i requires 0 <= i < |fired| => EventOf(fired[i].0, fired[i].1))
  }

  /** How a blocking wait ends. */
  datatype Waited = TimedOutWait | Failed(kind: ErrorKind) | Ready(fired: seq<(Fd, Fired)>)

  class Poller {
    var masks: map<Fd, IoType>
    var events: seq<Event>

    constructor ()
      ensures masks == map[] && events == []
    {
      masks, events := map[], [];
    }

    method Register(fd: Fd, interest: IoType)
      modifies this`masks
      ensures masks == old(masks)[fd := interest]
    {
      masks := masks[fd := interest];
    }

    method Unregister(fd: Fd)
      modifies this`masks
      ensures masks == old(masks) - {fd}
    {
      masks := masks - {fd};
    }

    /** Clears the bits of the complement, then sets the bits asked for. Whatever the mask was
        before, a registered descriptor ends up with exactly the interest asked for. */
    method SetInterest(fd: Fd, interest: IoType) returns (known: bool)
      modifies this`masks
      ensures known <==> fd in old(masks)
      ensures masks == if fd in old(masks) then old(masks)[fd := interest] else old(masks)
    {
      var _ := Unset(fd, interest.Complement());
      known := Set(fd, interest);
    }

    method Unset(fd: Fd, bits: IoType) returns (known: bool)
      modifies this`masks
      ensures known <==> fd in old(masks)
      ensures masks == if fd !in old(masks) then old(masks) else
                old(masks)[fd := IoType(old(masks)[fd].read && !bits.read, old(masks)[fd].write && !bits.write)]
    {
      known := fd in masks;
      if known {
        masks := masks[fd := IoType(masks[fd].read && !bits.read, masks[fd].write && !bits.write)];
      }
    }

    method Set(fd: Fd, bits: IoType) returns (known: bool)
      modifies this`masks
      ensures known <==> fd in old(masks)
      ensures masks == if fd !in old(masks) then old(masks) else
                old(masks)[fd := IoType(old(masks)[fd].read || bits.read, old(masks)[fd].write || bits.write)]
    {
      known := fd in masks;
      if known {
        masks := masks[fd := IoType(masks[fd].read || bits.read, masks[fd].write || bits.write)];
      }
    }

    /** Appends to the queue, which `Next` drains; answers how many events were added. */
    method Poll(waited: Waited) returns (count: Result<nat, ErrorKind>)
      modifies this`events
      ensures waited.Ready? ==> events == old(events) + EventsOf(waited.fired) && count == Ok(|waited.fired|)
      ensures waited.TimedOutWait? ==> events == old(events) && count == Ok(0)
      ensures waited.Failed? ==> events == old(events) && count == Err(waited.kind)
    {
      match waited
      case TimedOutWait =>
        return Ok(0);
      case Failed(kind) =>
        return Err(kind);
      case Ready(fired) =>
        var len := |events|;
        for i := 0 to |fired|
          invariant events == old(events) + EventsOf(fired[..i])
        {
          events := events + [EventOf(fired[i].0, fired[i].1)];
          assert EventsOf(fired[..i + 1]) == EventsOf(fired[..i]) + [EventOf(fired[i].0, fired[i].1)];
        }
        assert fired[..|fired|] == fired;
        return Ok(|events| - len);
    }

    method Next() returns (event: Option<Event>)
      modifies this`events
      ensures old(events) == [] ==> event == None && events == []
      ensures old(events) != [] ==> event == Some(old(events)[0]) && events == old(events)[1..]
    {
      if events == [] {
        return None;
      }
      event := Some(events[0]);
      events := events[1..];
    }
  }
}

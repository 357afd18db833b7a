/** `tunnel_once` (src/tunnel.rs): one poll loop which pumps bytes both ways between an accepted
    local stream and a session. */
module Tunnel {
  import opened Base
  import opened Polling

  // ---------------------------------------------------------------- Specification

  /** One end of the tunnel: the bytes waiting to be written to it, how many were written, its poll
      interest, and the bytes read from and written to it so far, which may be more than this tunnel
      has moved. */
  datatype Side = Side(buf: Bytes, count: nat, mask: IoType, taken: Bytes, given: Bytes)

  datatype Pump = Pump(local: Side, remote: Side)

  /** A tunnel which has just been opened, over ends with any past. */
  predicate Opened(pump: Pump)
  {
    Waiting(pump.local) && Waiting(pump.remote)
  }

  predicate Waiting(side: Side)
  {
    side.buf == [] && side.count == 0 && side.mask == READ_ONLY
  }

  /** How one end answers the calls made for one event. A write takes no more than it is given. */
  datatype Answers = Answers(
    write: Result<nat, ErrorKind>, flush: Result<(), ErrorKind>, read: Result<Bytes, ErrorKind>)

  /** The loop goes on, returns its counters, or returns an error. */
  datatype Outcome = Running(pump: Pump) | Finished(pump: Pump) | Broken(pump: Pump, kind: ErrorKind)

  datatype Served = Served(near: Side, far: Side, end: Option<Result<(), ErrorKind>>)

  function ServeWrite(near: Side, answers: Answers): (Side, Option<Result<(), ErrorKind>>)
  {
    match answers.write
    case Err(kind) => (near, Some(Err(kind)))
    case Ok(offer) =>
      var n := Min(offer, |near.buf|);
      if n == 0 then (near, Some(Ok(())))
      else
        var written := near.(given := near.given + near.buf[..n]);
        if answers.flush.Err? then (written, Some(Err(answers.flush.error)))
        else
          var rest := near.buf[n..];
          (written.(buf := rest, count := near.count + n, mask := if rest == [] then READ_ONLY else near.mask), None)
  }

  function ServeRead(near: Side, far: Side, answers: Answers): Served
  {
    match answers.read
    case Err(kind) => Served(near, far, Some(Err(kind)))
    case Ok(bytes) =>
      if bytes == [] then Served(near, far, Some(Ok(())))
      else Served(near.(taken := near.taken + bytes), far.(buf := far.buf + bytes, mask := READ_WRITE), None)
  }

  /** The near end is ready: first write what waits for it, then read what goes to the far end. */
  function Serve(near: Side, far: Side, ev: IoType, answers: Answers): Served
  {
    var (wrote, end) := if ev.write then ServeWrite(near, answers) else (near, None);
    if end.Some? || !ev.read then Served(wrote, far, end) else ServeRead(wrote, far, answers)
  }

  function Conclude(pump: Pump, end: Option<Result<(), ErrorKind>>): Outcome
  {
    match end
    case None => Running(pump)
    case Some(Ok(_)) => Finished(pump)
    case Some(Err(kind)) => Broken(pump, kind)
  }

  /** What `tunnel_once` returns; `None` while it is still pumping. */
  function Returned(out: Outcome): Option<Result<(nat, nat), ErrorKind>>
  {
    match out
    case Running(_) => None
    case Finished(pump) => Some(Ok((pump.local.count, pump.remote.count)))
    case Broken(_, kind) => Some(Err(kind))
  }

  /** The two descriptors polled. */
  datatype Fds = Fds(local: Fd, remote: Fd)

  function HandleEvent(fds: Fds, pump: Pump, event: Event, answers: Answers): Outcome
  {
    match event.res
    case Err(Connectivity(_)) => Finished(pump)
    case Err(Os(_)) => Broken(pump, BrokenPipe)
    case Ok(ev) =>
      if event.fd == fds.local then
        var s := Serve(pump.local, pump.remote, ev, answers);
        Conclude(Pump(s.near, s.far), s.end)
      else if event.fd == fds.remote then
        var s := Serve(pump.remote, pump.local, ev, answers);
        Conclude(Pump(s.far, s.near), s.end)
      else Running(pump)
  }

  function HandleBatch(fds: Fds, pump: Pump, events: seq<Event>, answers: seq<Answers>): Outcome
    requires |events| == |answers|
    decreases |events|
  {
    if events == [] then Running(pump)
    else
      var first := HandleEvent(fds, pump, events[0], answers[0]);
      if first.Running? then HandleBatch(fds, first.pump, events[1..], answers[1..]) else first
  }

  /** One poll: what it reports, and how the two ends answer for each event. */
  datatype Round = Round(waited: Waited, answers: seq<Answers>)

  predicate WellFormed(round: Round)
  {
    round.waited.Ready? ==> |round.answers| == |round.waited.fired|
  }

  function HandleRound(fds: Fds, pump: Pump, round: Round): Outcome
    requires WellFormed(round)
  {
    match round.waited
    case Failed(kind) => Broken(pump, kind)
    case TimedOutWait => Broken(pump, TimedOut)
    case Ready(fired) =>
      if fired == [] then Broken(pump, TimedOut)
      else HandleBatch(fds, pump, EventsOf(fired), round.answers)
  }

  function RunRounds(fds: Fds, pump: Pump, rounds: seq<Round>): Outcome
    requires forall r | r in rounds :: WellFormed(r)
    decreases |rounds|
  {
    if rounds == [] then Running(pump)
    else
      var first := HandleRound(fds, pump, rounds[0]);
      if first.Running? then RunRounds(fds, first.pump, rounds[1..]) else first
  }

  // ---------------------------------------------------------------- Conservation

  /** What came after `before`. */
  function Since(before: Bytes, now: Bytes): Bytes
    requires before <= now
  {
    now[|before|..]
  }

  lemma SinceAppend(before: Bytes, now: Bytes, more: Bytes)
    requires before <= now
    ensures before <= now + more && Since(before, now + more) == Since(before, now) + more
  {
  }

  predicate Grown(start: Side, side: Side)
  {
    start.taken <= side.taken && start.given <= side.given
  }

  /** Since the start, what was written to an end, followed by what waits for it, is what was read
      from the other end. */
  predicate Pumps(from0: Side, to0: Side, from: Side, to: Side)
  {
    && Grown(from0, from) && Grown(to0, to)
    && Since(to0.given, to.given) + to.buf == Since(from0.taken, from.taken)
    && to.count == |Since(to0.given, to.given)|
  }

  predicate PumpsBothWays(near0: Side, far0: Side, near: Side, far: Side)
  {
    && Pumps(near0, far0, near, far) && Pumps(far0, near0, far, near)
    && Interested(near) && Interested(far)
  }

  /** An end has write interest exactly when bytes wait for it. */
  predicate Interested(side: Side)
  {
    side.mask == if side.buf == [] then READ_ONLY else READ_WRITE
  }

  predicate Invariant(start: Pump, pump: Pump)
  {
    PumpsBothWays(start.local, start.remote, pump.local, pump.remote)
  }

  /** The output of this tunnel is a prefix of its input both ways, and the counters are the lengths
      written. */
  predicate Exact(start: Pump, pump: Pump)
  {
    && Grown(start.local, pump.local) && Grown(start.remote, pump.remote)
    && Since(start.local.given, pump.local.given) <= Since(start.remote.taken, pump.remote.taken)
    && Since(start.remote.given, pump.remote.given) <= Since(start.local.taken, pump.local.taken)
    && pump.local.count == |Since(start.local.given, pump.local.given)|
    && pump.remote.count == |Since(start.remote.given, pump.remote.given)|
  }

  lemma ServeWriteKeeps(near0: Side, far0: Side, near: Side, far: Side, answers: Answers)
    requires PumpsBothWays(near0, far0, near, far)
    ensures var (wrote, end) := ServeWrite(near, answers);
            end.None? || end.value.Ok? ==> PumpsBothWays(near0, far0, wrote, far)
  {
    if answers.write.Ok? {
      var n := Min(answers.write.value, |near.buf|);
      SinceAppend(near0.given, near.given, near.buf[..n]);
      assert near.buf == near.buf[..n] + near.buf[n..];
      var given := Since(near0.given, near.given);
      assert given + near.buf[..n] + near.buf[n..] == given + near.buf;
    }
  }

  lemma ServeReadKeeps(near0: Side, far0: Side, near: Side, far: Side, answers: Answers)
    requires PumpsBothWays(near0, far0, near, far)
    ensures var s := ServeRead(near, far, answers);
            PumpsBothWays(near0, far0, s.near, s.far)
  {
    if answers.read.Ok? {
      SinceAppend(near0.taken, near.taken, answers.read.value);
      var given := Since(far0.given, far.given);
      assert given + (far.buf + answers.read.value) == given + far.buf + answers.read.value;
    }
  }

  lemma ServeKeeps(near0: Side, far0: Side, near: Side, far: Side, ev: IoType, answers: Answers)
    requires PumpsBothWays(near0, far0, near, far)
    ensures var s := Serve(near, far, ev, answers);
            s.end.None? || s.end.value.Ok? ==> PumpsBothWays(near0, far0, s.near, s.far)
  {
    ServeWriteKeeps(near0, far0, near, far, answers);
    var (wrote, end) := if ev.write then ServeWrite(near, answers) else (near, None);
    if end.None? {
      ServeReadKeeps(near0, far0, wrote, far, answers);
    }
  }

  lemma EventKeeps(fds: Fds, start: Pump, pump: Pump, event: Event, answers: Answers)
    requires Invariant(start, pump)
    ensures var out := HandleEvent(fds, pump, event, answers);
            !out.Broken? ==> Invariant(start, out.pump)
  {
    if event.res.Ok? {
      ServeKeeps(start.local, start.remote, pump.local, pump.remote, event.res.value, answers);
      ServeKeeps(start.remote, start.local, pump.remote, pump.local, event.res.value, answers);
    }
  }

  lemma {:induction false} BatchKeeps(fds: Fds, start: Pump, pump: Pump, events: seq<Event>, answers: seq<Answers>)
    requires Invariant(start, pump) && |events| == |answers|
    ensures var out := HandleBatch(fds, pump, events, answers);
            !out.Broken? ==> Invariant(start, out.pump)
    decreases |events|
  {
    if events != [] {
      EventKeeps(fds, start, pump, events[0], answers[0]);
      var first := HandleEvent(fds, pump, events[0], answers[0]);
      if first.Running? {
        BatchKeeps(fds, start, first.pump, events[1..], answers[1..]);
      }
    }
  }

  lemma {:induction false} RoundsKeep(fds: Fds, start: Pump, pump: Pump, rounds: seq<Round>)
    requires Invariant(start, pump) && forall r | r in rounds :: WellFormed(r)
    ensures var out := RunRounds(fds, pump, rounds);
            !out.Broken? ==> Invariant(start, out.pump)
    decreases |rounds|
  {
    if rounds != [] {
      var round := rounds[0];
      assert WellFormed(round);
      if round.waited.Ready? {
        BatchKeeps(fds, start, pump, EventsOf(round.waited.fired), round.answers);
      }
      var first := HandleRound(fds, pump, round);
      if first.Running? {
        RoundsKeep(fds, start, first.pump, rounds[1..]);
      }
    }
  }

  /** Over any run: after every handled event, and on every return without an error, no byte is
      lost, invented or reordered in either direction. */
  lemma TunnelConserves(fds: Fds, start: Pump, rounds: seq<Round>)
    requires Opened(start) && forall r | r in rounds :: WellFormed(r)
    ensures var out := RunRounds(fds, start, rounds);
            !out.Broken? ==> Invariant(start, out.pump) && Exact(start, out.pump)
  {
    RoundsKeep(fds, start, start, rounds);
  }

  // ---------------------------------------------------------------- What one event moves

  function SideOf(fds: Fds, pump: Pump, fd: Fd): Option<Side>
  {
    if fd == fds.local then Some(pump.local) else if fd == fds.remote then Some(pump.remote) else None
  }

  function Opposite(fds: Fds, fd: Fd): Fd
  {
    if fd == fds.local then fds.remote else fds.local
  }

  /** The bytes which an end takes when it is ready, and those it gives out. */
  function Outgoing(near: Side, ev: IoType, answers: Answers): Bytes
  {
    if ev.write && answers.write.Ok? then near.buf[..Min(answers.write.value, |near.buf|)] else []
  }

  function Incoming(ev: IoType, answers: Answers): Bytes
  {
    if ev.read && answers.read.Ok? then answers.read.value else []
  }

  /** Writing, if the end is writable, moves some bytes and is flushed. */
  predicate WritesOn(near: Side, ev: IoType, answers: Answers)
  {
    ev.write ==> Outgoing(near, ev, answers) != [] && answers.flush.Ok?
  }

  /** What readiness of either end does. The tunnel goes on exactly if the writing and the reading it calls
      for both move some bytes: then the bytes written leave the buffer of this end, and the bytes read
      join that of the opposite end. It is over, without an error, exactly if this end takes nothing of
      what it is offered, or has nothing more to give. Else it reports the error of the call which
      failed first. */
  lemma EventMoves(fds: Fds, pump: Pump, fd: Fd, ev: IoType, answers: Answers)
    requires fds.local != fds.remote && (fd == fds.local || fd == fds.remote)
    ensures var out := HandleEvent(fds, pump, Event(fd, Ok(ev)), answers);
            var near, far := SideOf(fds, pump, fd).value, SideOf(fds, pump, Opposite(fds, fd)).value;
            var near', far' := SideOf(fds, out.pump, fd).value, SideOf(fds, out.pump, Opposite(fds, fd)).value;
            var sent, got := Outgoing(near, ev, answers), Incoming(ev, answers);
            && (out.Running? <==> WritesOn(near, ev, answers) && (ev.read ==> got != []))
            && (out.Finished? <==>
                  || (ev.write && answers.write.Ok? && sent == [])
                  || (WritesOn(near, ev, answers) && ev.read && answers.read == Ok([])))
            && (out.Broken? ==>
                  Err(out.kind) == if ev.write && answers.write.Err? then Err(answers.write.error)
                                   else if ev.write && answers.flush.Err? then Err(answers.flush.error)
                                   else if answers.read.Err? then Err(answers.read.error)
                                   else Ok(()))
            && (!out.Broken? ==>
                  && near'.given == near.given + sent && near.buf == sent + near'.buf
                  && near'.count == near.count + |sent|)
            && (out.Running? ==>
                  && near'.taken == near.taken + got && far'.buf == far.buf + got
                  && far'.given == far.given && far'.taken == far.taken && far'.count == far.count)
            && (out.Finished? ==> far' == far && near'.taken == near.taken)
  {
    var near := SideOf(fds, pump, fd).value;
    assert near.given + [] == near.given;
    var far := SideOf(fds, pump, Opposite(fds, fd)).value;
    assert far.buf + [] == far.buf && near.taken + [] == near.taken;
  }

  /** A hang-up of either end ends the tunnel, any other poll error breaks it. */
  lemma ErrorEnds(fds: Fds, pump: Pump, fd: Fd, error: IoFail, answers: Answers)
    ensures var out := HandleEvent(fds, pump, Event(fd, Err(error)), answers);
            out == if error.Connectivity? then Finished(pump) else Broken(pump, BrokenPipe)
  {
  }

  // ---------------------------------------------------------------- Where a run ends

  /** The events of a poll are handled one by one, up to the first which ends the tunnel. */
  lemma {:induction false} BatchEnds(fds: Fds, pump: Pump, events: seq<Event>, answers: seq<Answers>) returns (n: nat)
    requires |events| == |answers|
    ensures n <= |events|
    ensures HandleBatch(fds, pump, events[..n], answers[..n]).Running?
    ensures var before := HandleBatch(fds, pump, events[..n], answers[..n]).pump;
            var out := HandleBatch(fds, pump, events, answers);
            if out.Running? then n == |events| && out.pump == before
            else n < |events| && out == HandleEvent(fds, before, events[n], answers[n])
    decreases |events|
  {
    if events == [] {
      n := 0;
    } else {
      var first := HandleEvent(fds, pump, events[0], answers[0]);
      if first.Running? {
        var m := BatchEnds(fds, first.pump, events[1..], answers[1..]);
        n := m + 1;
        assert events[..n][1..] == events[1..][..m] && answers[..n][1..] == answers[1..][..m];
      } else {
        n := 0;
      }
    }
  }

  lemma {:induction false} BatchAppend(fds: Fds, pump: Pump, events: seq<Event>, answers: seq<Answers>,
                                       last: Event, answer: Answers)
    requires |events| == |answers| && HandleBatch(fds, pump, events, answers).Running?
    ensures HandleBatch(fds, pump, events + [last], answers + [answer])
         == HandleEvent(fds, HandleBatch(fds, pump, events, answers).pump, last, answer)
    decreases |events|
  {
    var all, replies := events + [last], answers + [answer];
    if events == [] {
      assert all[1..] == [] && replies[1..] == [];
    } else {
      assert all[1..] == events[1..] + [last] && replies[1..] == answers[1..] + [answer];
      BatchAppend(fds, HandleEvent(fds, pump, events[0], answers[0]).pump, events[1..], answers[1..], last, answer);
    }
  }

  /** A run goes on until a poll fails, times out or reports an event which ends the tunnel, and then
      returns what that poll or that event asks for. */
  lemma {:induction false} RunEnds(fds: Fds, pump: Pump, rounds: seq<Round>) returns (n: nat)
    requires forall r | r in rounds :: WellFormed(r)
    ensures n <= |rounds| && RunRounds(fds, pump, rounds[..n]).Running?
    ensures forall i | 0 <= i < n :: rounds[i].waited.Ready? && rounds[i].waited.fired != []
    ensures var before := RunRounds(fds, pump, rounds[..n]).pump;
            var out := RunRounds(fds, pump, rounds);
            if out.Running? then n == |rounds| && out.pump == before
            else
              && n < |rounds| && WellFormed(rounds[n])
              && match rounds[n].waited
                 case Failed(kind) => out == Broken(before, kind)
                 case TimedOutWait => out == Broken(before, TimedOut)
                 case Ready(fired) =>
                   if fired == [] then out == Broken(before, TimedOut)
                   else out == HandleBatch(fds, before, EventsOf(fired), rounds[n].answers)
    decreases |rounds|
  {
    if rounds == [] {
      n := 0;
    } else {
      assert rounds[0] in rounds;
      var first := HandleRound(fds, pump, rounds[0]);
      if first.Running? {
        var m := RunEnds(fds, first.pump, rounds[1..]);
        n := m + 1;
        assert rounds[..n][1..] == rounds[1..][..m];
        assert rounds[..n][0] == rounds[0];
      } else {
        n := 0;
      }
    }
  }

  // ---------------------------------------------------------------- No write of an empty buffer

  /** A poll reports each descriptor once, and write readiness only where it was asked for. */
  predicate Honest(fds: Fds, pump: Pump, events: seq<Event>)
  {
    && (forall i, j | 0 <= i < j < |events| :: events[i].fd != events[j].fd)
    && (forall i | 0 <= i < |events| ::
          events[i].res.Ok? && events[i].res.value.write && SideOf(fds, pump, events[i].fd).Some? ==>
            SideOf(fds, pump, events[i].fd).value.mask.write)
  }

  /** Every write attempted while this batch is handled has something to write. */
  predicate WritesSomething(fds: Fds, pump: Pump, events: seq<Event>, answers: seq<Answers>)
    requires |events| == |answers|
    decreases |events|
  {
    events != [] ==>
      var side := SideOf(fds, pump, events[0].fd);
      && (events[0].res.Ok? && events[0].res.value.write && side.Some? ==> side.value.buf != [])
      && (var first := HandleEvent(fds, pump, events[0], answers[0]);
          first.Running? ==> WritesSomething(fds, first.pump, events[1..], answers[1..]))
  }

  lemma {:induction false} BatchNeverWritesEmpty(fds: Fds, start: Pump, pump: Pump, events: seq<Event>,
                                                 answers: seq<Answers>)
    requires fds.local != fds.remote && |events| == |answers|
    requires Invariant(start, pump) && Honest(fds, pump, events)
    ensures WritesSomething(fds, pump, events, answers)
    decreases |events|
  {
    if events != [] {
      EventKeeps(fds, start, pump, events[0], answers[0]);
      var first := HandleEvent(fds, pump, events[0], answers[0]);
      if first.Running? {
        forall i | 1 <= i < |events| && SideOf(fds, pump, events[i].fd).Some?
          ensures SideOf(fds, pump, events[i].fd).value.mask.write ==>
                    SideOf(fds, first.pump, events[i].fd).value.mask.write
        {
          assert events[0].fd != events[i].fd;
        }
        BatchNeverWritesEmpty(fds, start, first.pump, events[1..], answers[1..]);
      }
    }
  }

  /** At every poll of every run. So a write of zero bytes, which ends the tunnel, is always the
      sink refusing bytes that were offered. */
  lemma NoEmptyWrites(fds: Fds, start: Pump, rounds: seq<Round>, round: Round)
    requires Opened(start) && fds.local != fds.remote
    requires WellFormed(round) && forall r | r in rounds :: WellFormed(r)
    requires RunRounds(fds, start, rounds).Running? && round.waited.Ready?
    requires Honest(fds, RunRounds(fds, start, rounds).pump, EventsOf(round.waited.fired))
    ensures WritesSomething(fds, RunRounds(fds, start, rounds).pump, EventsOf(round.waited.fired), round.answers)
  {
    TunnelConserves(fds, start, rounds);
    BatchNeverWritesEmpty(fds, start, RunRounds(fds, start, rounds).pump, EventsOf(round.waited.fired), round.answers);
  }

  // ---------------------------------------------------------------- The loop

  /** A non-blocking stream with the bytes it has given out and taken in. */
  class Endpoint {
    ghost var taken: Bytes
    ghost var given: Bytes

    constructor ()
      ensures taken == [] && given == []
    {
      taken, given := [], [];
    }

    method Write(data: Bytes, answer: Result<nat, ErrorKind>) returns (res: Result<nat, ErrorKind>)
      modifies this`given
      ensures answer.Err? ==> res == Err(answer.error) && given == old(given)
      ensures answer.Ok? ==> var n := Min(answer.value, |data|); res == Ok(n) && given == old(given) + data[..n]
    {
      match answer
      case Err(kind) => res := Err(kind);
      case Ok(offer) =>
        var n := Min(offer, |data|);
        given := given + data[..n];
        res := Ok(n);
    }

    method Flush(answer: Result<(), ErrorKind>) returns (res: Result<(), ErrorKind>)
      ensures res == answer
    {
      res := answer;
    }

    method Read(answer: Result<Bytes, ErrorKind>) returns (res: Result<Bytes, ErrorKind>)
      modifies this`taken
      ensures res == answer && taken == if answer.Ok? then old(taken) + answer.value else old(taken)
    {
      if answer.Ok? {
        taken := taken + answer.value;
      }
      res := answer;
    }
  }

  /** What an end looks like from the loop's variables. */
  ghost function Observed(buf: Bytes, count: nat, masks: map<Fd, IoType>, fd: Fd, end: Endpoint): Side
    requires fd in masks
    reads end
  {
    Side(buf, count, masks[fd], end.taken, end.given)
  }

  /** Serves one readiness event of the near end; `end` is how the tunnel returns, if it does. */
  method ServeEvent(near: Endpoint, nearFd: Fd, nearBuf: Bytes, nearCount: nat,
                    ghost far: Endpoint, farFd: Fd, farBuf: Bytes, ghost farCount: nat,
                    poller: Poller, ev: IoType, answers: Answers)
    returns (nearBuf': Bytes, nearCount': nat, farBuf': Bytes, end: Option<Result<(), ErrorKind>>)
    requires near != far && nearFd != farFd && nearFd in poller.masks && farFd in poller.masks
    modifies near, poller`masks
    ensures nearFd in poller.masks && farFd in poller.masks
    ensures Served(Observed(nearBuf', nearCount', poller.masks, nearFd, near),
                   Observed(farBuf', farCount, poller.masks, farFd, far), end)
            == Serve(old(Observed(nearBuf, nearCount, poller.masks, nearFd, near)),
                     old(Observed(farBuf, farCount, poller.masks, farFd, far)), ev, answers)
  {
    nearBuf', nearCount', farBuf' := nearBuf, nearCount, farBuf;
    if ev.write {
      var wrote := near.Write(nearBuf, answers.write);
      if wrote.Err? {
        end := Some(Err(wrote.error));
        return;
      }
      if wrote.value == 0 {
        assert near.given == old(near.given);
        end := Some(Ok(()));
        return;
      }
      var flushed := near.Flush(answers.flush);
      if flushed.Err? {
        end := Some(Err(flushed.error));
        return;
      }
      nearBuf' := nearBuf[wrote.value..];
      nearCount' := nearCount + wrote.value;
      if nearBuf' == [] {
        var _ := poller.SetInterest(nearFd, READ_ONLY);
      }
    }
    if ev.read {
      var read := near.Read(answers.read);
      if read.Err? {
        end := Some(Err(read.error));
        return;
      }
      if read.value == [] {
        assert near.taken == old(near.taken);
        end := Some(Ok(()));
        return;
      }
      farBuf' := farBuf + read.value;
      var _ := poller.SetInterest(farFd, READ_WRITE);
    }
    end := None;
  }

  class Tunnel {
    const session: Endpoint
    const extFd: Fd

    constructor (session: Endpoint, fd: Fd)
      ensures this.session == session && extFd == fd
    {
      this.session, extFd := session, fd;
    }

    /** The two ends when the tunnel is opened. */
    ghost function Opening(stream: Endpoint): (pump: Pump)
      reads stream, session
      ensures Opened(pump)
    {
      Pump(Side([], 0, READ_ONLY, stream.taken, stream.given), Side([], 0, READ_ONLY, session.taken, session.given))
    }

    /** Handles the events of one poll. */
    method PumpBatch(stream: Endpoint, intFd: Fd, poller: Poller, answers: seq<Answers>,
                     inBuf0: Bytes, inCount0: nat, outBuf0: Bytes, outCount0: nat)
      returns (inBuf: Bytes, inCount: nat, outBuf: Bytes, outCount: nat, res: Option<Result<(nat, nat), ErrorKind>>,
               ghost out: Outcome)
      requires stream != session && intFd != extFd && |poller.events| == |answers|
      requires intFd in poller.masks && extFd in poller.masks
      modifies stream, session, poller
      ensures intFd in poller.masks && extFd in poller.masks
      ensures out == HandleBatch(Fds(intFd, extFd),
                       old(Pump(Observed(inBuf0, inCount0, poller.masks, intFd, stream),
                                Observed(outBuf0, outCount0, poller.masks, extFd, session))),
                       old(poller.events), answers)
      ensures out.pump == Pump(Observed(inBuf, inCount, poller.masks, intFd, stream),
                               Observed(outBuf, outCount, poller.masks, extFd, session))
      ensures res == Returned(out) && (res.None? ==> poller.events == [])
    {
      ghost var fds := Fds(intFd, extFd);
      ghost var events := poller.events;
      inBuf, inCount, outBuf, outCount := inBuf0, inCount0, outBuf0, outCount0;
      ghost var pump := Pump(Observed(inBuf, inCount, poller.masks, intFd, stream),
                             Observed(outBuf, outCount, poller.masks, extFd, session));
      out := HandleBatch(fds, pump, events, answers);
      var i := 0;
      assert answers[i..] == answers;
      while poller.events != []
        invariant 0 <= i <= |events| == |answers| && poller.events == events[i..]
        invariant intFd in poller.masks && extFd in poller.masks
        invariant pump == Pump(Observed(inBuf, inCount, poller.masks, intFd, stream),
                               Observed(outBuf, outCount, poller.masks, extFd, session))
        invariant out == HandleBatch(fds, pump, events[i..], answers[i..])
        decreases |events| - i
      {
        assert answers[i..][1..] == answers[i + 1..] && events[i..][1..] == events[i + 1..];
        var popped := poller.Next();
        var event := popped.value;
        var end: Option<Result<(), ErrorKind>> := None;
        match event.res {
          case Err(Connectivity(_)) =>
            end := Some(Ok(()));
          case Err(Os(_)) =>
            end := Some(Err(BrokenPipe));
          case Ok(ev) =>
            if event.fd == intFd {
              inBuf, inCount, outBuf, end :=
                ServeEvent(stream, intFd, inBuf, inCount, session, extFd, outBuf, outCount, poller, ev, answers[i]);
            } else if event.fd == extFd {
              outBuf, outCount, inBuf, end :=
                ServeEvent(session, extFd, outBuf, outCount, stream, intFd, inBuf, inCount, poller, ev, answers[i]);
            }
        }
        pump := Pump(Observed(inBuf, inCount, poller.masks, intFd, stream),
                     Observed(outBuf, outCount, poller.masks, extFd, session));
        i := i + 1;
        if end.Some? {
          res := Some(if end.value.Ok? then Ok((inCount, outCount)) else Err(end.value.error));
          return;
        }
      }
      res := None;
    }

    /** Pumps until an end closes, an error occurs or the script of polls is exhausted (`None`).
        `stream` is the connection just accepted from the listener; the session may have carried bytes
        before. */
    method TunnelOnce(stream: Endpoint, intFd: Fd, poller: Poller, rounds: seq<Round>)
      returns (res: Option<Result<(nat, nat), ErrorKind>>, ghost out: Outcome)
      requires stream != session && intFd != extFd && poller.events == []
      requires forall r | r in rounds :: WellFormed(r)
      modifies stream, session, poller
      ensures out == RunRounds(Fds(intFd, extFd), old(Opening(stream)), rounds)
      ensures stream.given == out.pump.local.given && stream.taken == out.pump.local.taken
      ensures session.given == out.pump.remote.given && session.taken == out.pump.remote.taken
      ensures res == Returned(out)
      ensures res.Some? && res.value.Ok? ==>
                && old(stream.given) <= stream.given && old(stream.taken) <= stream.taken
                && old(session.given) <= session.given && old(session.taken) <= session.taken
                && var inward := Since(old(stream.given), stream.given);
                   var outward := Since(old(session.given), session.given);
                   && inward <= Since(old(session.taken), session.taken)
                   && outward <= Since(old(stream.taken), stream.taken)
                   && res.value.value == (|inward|, |outward|)
    {
      ghost var fds := Fds(intFd, extFd);
      ghost var pump := Opening(stream);
      TunnelConserves(fds, pump, rounds);
      poller.Register(intFd, READ_ONLY);
      poller.Register(extFd, READ_ONLY);

      var inBuf: Bytes, outBuf: Bytes := [], [];
      var inCount, outCount := 0, 0;
      out := RunRounds(fds, pump, rounds);

      var r := 0;
      assert rounds[r..] == rounds;
      while r < |rounds|
        invariant 0 <= r <= |rounds| && poller.events == []
        invariant intFd in poller.masks && extFd in poller.masks
        invariant pump == Pump(Observed(inBuf, inCount, poller.masks, intFd, stream),
                               Observed(outBuf, outCount, poller.masks, extFd, session))
        invariant out == RunRounds(fds, pump, rounds[r..])
      {
        var round := rounds[r];
        assert round in rounds;
        assert rounds[r..][0] == round && rounds[r..][1..] == rounds[r + 1..];
        var polled := poller.Poll(round.waited);
        if polled.Err? {
          return Some(Err(polled.error)), out;
        }
        if polled.value == 0 {
          return Some(Err(TimedOut)), out;
        }
        assert poller.events == EventsOf(round.waited.fired);
        ghost var batch;
        inBuf, inCount, outBuf, outCount, res, batch :=
          PumpBatch(stream, intFd, poller, round.answers, inBuf, inCount, outBuf, outCount);
        assert batch == HandleRound(fds, pump, round);
        if res.Some? {
          return;
        }
        pump := batch.pump;
        r := r + 1;
      }
      return None, out;
    }
  }
}

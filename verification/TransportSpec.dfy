/** What a transport does (src/resources.rs), on values: one readiness event, one atomic write
    (io-reactor/src/resource.rs), and whole runs of both over any session. */
module TransportSpec {
  import opened Base
  import opened Polling

  const READ_BUFFER_SIZE: nat := 0xFFFF

  datatype TransportState = Init | Handshake | Active | Terminated

  datatype SessionEvent<+Id> = Established(id: Id) | Data(bytes: Bytes) | Terminated(reason: ErrorKind)

  datatype WriteError = NotReady | Io(kind: ErrorKind)

  // ---------------------------------------------------------------- The session contract

  /** What a transport can ask a session about itself. */
  datatype Face<+Id> = Face(established: bool, id: Option<Id>)

  /** How the environment answers one session call, and how the session looks afterwards. */
  datatype ReadAnswer<+Id> = ReadAnswer(res: Result<Bytes, ErrorKind>, after: Face<Id>)
  datatype WriteAnswer<+Id> = WriteAnswer(res: Result<nat, ErrorKind>, after: Face<Id>)

  /** Establishing is for good, and an established session knows its id. */
  predicate Proceeds<Id(==)>(before: Face<Id>, after: Face<Id>)
  {
    && (before.established ==> after == before)
    && (after.established ==> after.id.Some?)
  }

  /** Reads fit the buffer, and bytes are only returned by a session established before the call. */
  predicate LawfulRead<Id(==)>(before: Face<Id>, capacity: nat, answer: ReadAnswer<Id>)
  {
    && Proceeds(before, answer.after)
    && (answer.res.Ok? ==> |answer.res.value| <= capacity)
    && (answer.res.Ok? && answer.res.value != [] ==> before.established)
  }

  predicate LawfulWrite<Id(==)>(before: Face<Id>, len: nat, answer: WriteAnswer<Id>)
  {
    Proceeds(before, answer.after) && Bounded(answer, len)
  }

  /** A write takes no more than it is given. */
  predicate Bounded<Id>(answer: WriteAnswer<Id>, len: nat)
  {
    answer.res.Ok? ==> answer.res.value <= len
  }

  // ---------------------------------------------------------------- The transport on values

  datatype Net<+Id> = Net(state: TransportState, session: Face<Id>, writeIntent: bool, writeBuffer: Bytes)

  /** One readiness event with the answers of the session calls it may make. */
  datatype IoCall<+Id> =
    | OnRead(read: ReadAnswer<Id>)
    | OnWrite(write: WriteAnswer<Id>, flush: Result<(), ErrorKind>)

  predicate LawfulCall<Id(==)>(session: Face<Id>, call: IoCall<Id>)
  {
    match call
    case OnRead(read) => LawfulRead(session, READ_BUFFER_SIZE, read)
    case OnWrite(write, _) => LawfulWrite(session, 0, write)
  }

  function Interests<Id>(net: Net<Id>): IoType
  {
    match net.state
    case Init => WRITE_ONLY
    case Terminated => NONE
    case _ => if net.writeIntent then READ_WRITE else READ_ONLY
  }

  function Readable<Id>(net: Net<Id>, read: ReadAnswer<Id>): (Net<Id>, Option<SessionEvent<Id>>)
  {
    var net := net.(session := read.after);
    match read.res
    case Ok(bytes) =>
      if bytes != [] then (net, Some(Data(bytes)))
      else if !net.session.established then (net, None)
      else (net, Some(SessionEvent.Terminated(ConnectionReset)))
    case Err(kind) =>
      if kind == WouldBlock then (net, None)
      else (net.(state := TransportState.Terminated), Some(SessionEvent.Terminated(kind)))
  }

  function Writable<Id>(net: Net<Id>, write: WriteAnswer<Id>, flush: Result<(), ErrorKind>)
    : (Net<Id>, Option<SessionEvent<Id>>)
  {
    if !net.session.established then (net.(session := write.after, writeIntent := true), None)
    else
      match flush
      case Ok(_) => (net.(writeIntent := false), None)
      case Err(kind) =>
        if kind == WouldBlock || kind == WriteZero then (net.(writeIntent := true), None)
        else (net.(state := TransportState.Terminated), Some(SessionEvent.Terminated(kind)))
  }

  /** The debug assertions at the head of `handle_io`. A third one, that the read buffer is drained,
      is part of `NetResource.Valid`. `HandleIo` says what happens when they are met, and what happens
      in a build without them when they are not. */
  predicate AssertionsHold<Id>(net: Net<Id>)
  {
    net.state != TransportState.Terminated && (net.state == Handshake ==> !net.session.established)
  }

  function HandleIo<Id>(net: Net<Id>, call: IoCall<Id>): (Net<Id>, Option<SessionEvent<Id>>)
    requires LawfulCall(net.session, call)
  {
    var started := if net.state == Init then net.(state := Handshake) else net;
    var (moved, resp) :=
      match call
      case OnRead(read) => Readable(started, read)
      case OnWrite(write, flush) => Writable(started, write, flush);
    var next := moved.(writeIntent :=
      moved.writeIntent || (call.OnRead? && moved.state == Handshake) || net.state == Init);
    if resp == Some(SessionEvent.Terminated(ConnectionReset)) && next.state != Handshake then
      (next.(state := TransportState.Terminated), resp)
    else if next.session.established && next.state == Handshake then
      (next.(writeIntent := true, state := Active), Some(Established(next.session.id.value)))
    else
      (next, resp)
  }

  /** A send: the transport after it, its result, and the bytes the session took meanwhile. */
  datatype Sent<+Id> = Sent(net: Net<Id>, res: Result<(), WriteError>, accepted: Bytes)

  /** The answers to the two session writes a send may make are possible ones. */
  predicate LawfulSend<Id(==)>(net: Net<Id>, payload: Bytes, first: WriteAnswer<Id>, second: WriteAnswer<Id>)
  {
    LawfulWrite(net.session, |net.writeBuffer|, first) && LawfulWrite(first.after, |payload|, second)
  }

  function WriteAtomic<Id>(net: Net<Id>, payload: Bytes, first: WriteAnswer<Id>, second: WriteAnswer<Id>): Sent<Id>
    requires Bounded(first, |net.writeBuffer|) && Bounded(second, |payload|)
  {
    if net.state != Active then Sent(net, Err(NotReady), [])
    else
      var waiting := net.writeBuffer;
      var flushed := net.(session := first.after);
      match first.res
      case Err(kind) => Sent(flushed, Err(Io(kind)), [])
      case Ok(len) =>
        if len < |waiting| then
          Sent(flushed.(writeBuffer := waiting[len..] + payload), Ok(()), waiting[..len])
        else
          var written := flushed.(session := second.after);
          match second.res
          case Err(kind) => Sent(written.(writeBuffer := []), Err(Io(kind)), waiting)
          case Ok(len) => Sent(written.(writeBuffer := payload[len..]), Ok(()), waiting + payload[..len])
  }

  // ---------------------------------------------------------------- Runs of a transport

  datatype Input<+Id> =
    | OnIo(call: IoCall<Id>)
    | OnSend(payload: Bytes, first: WriteAnswer<Id>, second: WriteAnswer<Id>)

  /** A transport with its history: the events it reported, the bytes the session returned and
      accepted, and the payloads of the sends which returned `Ok`, one after another. */
  datatype Log<+Id> = Log(net: Net<Id>, events: seq<SessionEvent<Id>>, received: Bytes, accepted: Bytes, granted: Bytes)

  /** The reactor never dispatches I/O to a terminated transport. */
  predicate Lawful<Id(==)>(net: Net<Id>, input: Input<Id>)
  {
    match input
    case OnIo(call) => net.state != TransportState.Terminated && LawfulCall(net.session, call)
    case OnSend(payload, first, second) => LawfulSend(net, payload, first, second)
  }

  function Step<Id>(log: Log<Id>, input: Input<Id>): Log<Id>
    requires Lawful(log.net, input)
  {
    match input
    case OnIo(call) =>
      var (net, event) := HandleIo(log.net, call);
      log.(net := net,
           events := log.events + (if event.Some? then [event.value] else []),
           received := log.received + (if call.OnRead? && call.read.res.Ok? then call.read.res.value else []))
    case OnSend(payload, first, second) =>
      var sent := WriteAtomic(log.net, payload, first, second);
      log.(net := sent.net,
           accepted := log.accepted + sent.accepted,
           granted := log.granted + (if sent.res.Ok? then payload else []))
  }

  predicate LawfulRun<Id(==)>(log: Log<Id>, inputs: seq<Input<Id>>)
    decreases |inputs|
  {
    inputs != [] ==> Lawful(log.net, inputs[0]) && LawfulRun(Step(log, inputs[0]), inputs[1..])
  }

  function Run<Id>(log: Log<Id>, inputs: seq<Input<Id>>): Log<Id>
    requires LawfulRun(log, inputs)
    decreases |inputs|
  {
    if inputs == [] then log else Run(Step(log, inputs[0]), inputs[1..])
  }

  /** What `with_state` makes of a session which is not established yet. */
  predicate Fresh<Id>(net: Net<Id>)
  {
    && (net.state == Init || net.state == Handshake)
    && !net.session.established
    && net.writeBuffer == []
  }

  function StartLog<Id>(net: Net<Id>): Log<Id>
  {
    Log(net, [], [], [], [])
  }

  /** Nothing, or one `Established` and then only `Data`. */
  predicate Conversation<Id>(events: seq<SessionEvent<Id>>)
  {
    events != [] ==> events[0].Established? && forall i | 1 <= i < |events| :: events[i].Data?
  }

  /** Which events a transport has reported by the time it is in a given state. */
  predicate EventLanguage<Id(==)>(net: Net<Id>, events: seq<SessionEvent<Id>>)
  {
    match net.state
    case Init => events == [] && !net.session.established
    case Handshake => events == [] && !net.session.established
    case Active =>
      && net.session.established && net.session.id.Some?
      && events != [] && events[0] == Established(net.session.id.value)
      && Conversation(events)
    case Terminated =>
      events != [] && events[|events| - 1].Terminated? && Conversation(events[..|events| - 1])
  }

  function DataOf<Id>(events: seq<SessionEvent<Id>>): Bytes
  {
    if events == [] then []
    else (if events[0].Data? then events[0].bytes else []) + DataOf(events[1..])
  }

  lemma {:induction false} DataOfSnoc<Id>(events: seq<SessionEvent<Id>>, event: SessionEvent<Id>)
    ensures DataOf(events + [event]) == DataOf(events) + if event.Data? then event.bytes else []
  {
    if events == [] {
      assert events + [event] == [event];
      assert DataOf([event]) == (if event.Data? then event.bytes else []) + DataOf<Id>([]);
    } else {
      DataOfSnoc(events[1..], event);
      assert (events + [event])[1..] == events[1..] + [event];
    }
  }

  function Rank(state: TransportState): nat
  {
    match state
    case Init => 0
    case Handshake => 1
    case Active => 2
    case Terminated => 3
  }

  /** Lossless reads: the `Data` payloads are the bytes the session returned.
      Atomic ordered writes: what the session accepted, followed by what is buffered, is what the
      successful sends were given. */
  predicate Conserved<Id>(log: Log<Id>)
  {
    DataOf(log.events) == log.received && log.accepted + log.net.writeBuffer == log.granted
  }

  /** The session flags which go with a live state. */
  predicate Agrees<Id>(net: Net<Id>)
  {
    match net.state
    case Active => net.session.established && net.session.id.Some?
    case Terminated => true
    case _ => !net.session.established
  }

  /** A transport which is made of a session that is not established yet, and one which agrees with
      its session, meet the debug assertions while they are alive. */
  lemma AgreeingMeetsAssertions<Id>(net: Net<Id>)
    ensures Fresh(net) ==> Agrees(net)
    ensures Agrees(net) && net.state != TransportState.Terminated ==> AssertionsHold(net)
  {
  }

  /** One readiness event: which transition goes with which report. */
  lemma IoOutcome<Id>(net: Net<Id>, call: IoCall<Id>)
    requires Lawful(net, OnIo(call)) && Agrees(net)
    ensures var (next, event) := HandleIo(net, call);
            && Agrees(next) && next.writeBuffer == net.writeBuffer
            && match event
               case None =>
                 && next.state == (if net.state == Init then Handshake else net.state)
                 && (net.state == Active ==> next.session == net.session)
                 && (call.OnRead? && call.read.res.Ok? ==> call.read.res.value == [])
               case Some(Established(id)) =>
                 && net.state != Active && next.state == Active && next.session.id == Some(id)
                 && (call.OnRead? && call.read.res.Ok? ==> call.read.res.value == [])
               case Some(Data(bytes)) =>
                 && net.state == Active && next.state == Active && next.session == net.session
                 && call.OnRead? && call.read.res == Ok(bytes)
               case Some(Terminated(_)) =>
                 && next.state == TransportState.Terminated
                 && (call.OnRead? && call.read.res.Ok? ==> call.read.res.value == [])
  {
  }

  /** Which answer to a read leads to which report, and to which state. The end of the stream, and any error
      but `WouldBlock`, terminates an Active transport, for that very reason, and bytes are handed on
      with nothing else changed. Before a transport is Active, an error terminates it as well, and
      anything else makes it Active exactly when the session has become established by it. */
  lemma ReadOutcome<Id>(net: Net<Id>, read: ReadAnswer<Id>)
    requires Lawful(net, OnIo(OnRead(read))) && Agrees(net)
    ensures var (next, event) := HandleIo(net, OnRead(read));
            var failed := read.res.Err? && read.res.error != WouldBlock;
            && next.session == read.after
            && (forall reason :: event == Some(SessionEvent.Terminated(reason)) <==>
                  || (read.res == Err(reason) && failed)
                  || (net.state == Active && read.res == Ok([]) && reason == ConnectionReset))
            && (forall bytes :: event == Some(Data(bytes)) <==>
                  net.state == Active && read.res == Ok(bytes) && bytes != [])
            && (forall id :: event == Some(Established(id)) <==>
                  net.state != Active && !failed && read.after.established && read.after.id == Some(id))
            && (next.state == TransportState.Terminated <==> event.Some? && event.value.Terminated?)
            && (next.state == Handshake <==> net.state != Active && !failed && !read.after.established)
            && (next.state == Handshake ==> event == None && next.writeIntent)
            && (net.state == Active && (event == None || event.value.Data?) ==> next == net)
            && (net.state == Active ==> (event == None <==> read.res == Err(WouldBlock)))
  {
  }

  /** Which answers to a write readiness lead to what. A session not established is written to, in order to
      go on with the handshake, and an established one is flushed: a flush which fails terminates, for
      that very reason, but for one that would block, or wrote nothing, which is tried again. */
  lemma WriteOutcome<Id>(net: Net<Id>, write: WriteAnswer<Id>, flush: Result<(), ErrorKind>)
    requires Lawful(net, OnIo(OnWrite(write, flush))) && Agrees(net)
    ensures var (next, event) := HandleIo(net, OnWrite(write, flush));
            var again := flush.Err? && (flush.error == WouldBlock || flush.error == WriteZero);
            && next.session == (if net.state == Active then net.session else write.after)
            && (forall reason :: event == Some(SessionEvent.Terminated(reason)) <==>
                  net.state == Active && flush == Err(reason) && !again)
            && (forall id :: event == Some(Established(id)) <==>
                  net.state != Active && write.after.established && write.after.id == Some(id))
            && !(event.Some? && event.value.Data?)
            && (next.state == TransportState.Terminated <==> net.state == Active && flush.Err? && !again)
            && (next.state == Handshake <==> net.state != Active && !write.after.established)
            && (next.state == Active ==> (next.writeIntent <==> net.state != Active || again))
            && (next.state == Handshake ==> next.writeIntent)
  {
  }

  /** What a transport asks the poller for, in every state: to be told of a connection, then to read, and to
      write as long as it intends to. */
  lemma InterestsOf<Id>(net: Net<Id>)
    ensures Interests(net).read <==> net.state == Handshake || net.state == Active
    ensures Interests(net).write <==>
              net.state == Init || ((net.state == Handshake || net.state == Active) && net.writeIntent)
  {
  }

  /** What a transport which lives on asks the poller for after an event: until it is established it
      always wants to write again, as every handshake read must be answered; once Active it wants
      to write exactly while a flush is blocked, and a read changes nothing. Before its first event it
      waits to be connected, and once terminated for nothing. */
  lemma InterestAfterIo<Id>(net: Net<Id>, call: IoCall<Id>)
    requires Lawful(net, OnIo(call)) && Agrees(net)
    ensures var next := HandleIo(net, call).0;
            next.state != TransportState.Terminated ==>
              Interests(next) ==
                if net.state != Active then READ_WRITE
                else if call.OnRead? then Interests(net)
                else if call.flush.Ok? then READ_ONLY
                else READ_WRITE
    ensures net.state == Init ==> Interests(net) == WRITE_ONLY
    ensures var next := HandleIo(net, call).0;
            next.state == TransportState.Terminated <==> Interests(next) == NONE
  {
  }

  lemma IoKeeps<Id>(log: Log<Id>, call: IoCall<Id>)
    requires Lawful(log.net, OnIo(call)) && EventLanguage(log.net, log.events) && Conserved(log)
    ensures var next := Step(log, OnIo(call));
            && EventLanguage(next.net, next.events) && Conserved(next)
            && Rank(log.net.state) <= Rank(next.net.state)
  {
    IoOutcome(log.net, call);
    var event := HandleIo(log.net, call).1;
    if event.Some? {
      DataOfSnoc(log.events, event.value);
      var events := log.events + [event.value];
      assert events[..|events| - 1] == log.events;
    } else {
      assert log.events + [] == log.events;
    }
  }

  /** A send that returned an error changed nothing the peer will see but the flushing of older
      bytes; one that returned `Ok` put its payload behind everything granted before. */
  lemma SendIsAtomic<Id>(net: Net<Id>, payload: Bytes, first: WriteAnswer<Id>, second: WriteAnswer<Id>)
    requires LawfulSend(net, payload, first, second)
    ensures var sent := WriteAtomic(net, payload, first, second);
            && sent.accepted + sent.net.writeBuffer == net.writeBuffer + (if sent.res.Ok? then payload else [])
            && (sent.res == Err(NotReady) <==> net.state != Active)
            && (sent.res == Err(NotReady) ==> sent.net == net)
  {
    var sent := WriteAtomic(net, payload, first, second);
    if net.state == Active && first.res.Ok? && first.res.value < |net.writeBuffer| {
      assert net.writeBuffer == net.writeBuffer[..first.res.value] + net.writeBuffer[first.res.value..];
    } else if net.state == Active && first.res.Ok? && second.res.Ok? {
      assert payload == payload[..second.res.value] + payload[second.res.value..];
    }
  }

  /** How much a send over an Active transport writes. The session is offered the buffered bytes first; if it
      takes them all, it is offered the payload, and only what it does not take then is buffered. A send
      fails for the reason for which the write it came to failed; if that was the second, the buffered
      bytes are gone to the session. */
  lemma SendOutcome<Id>(net: Net<Id>, payload: Bytes, first: WriteAnswer<Id>, second: WriteAnswer<Id>)
    requires LawfulSend(net, payload, first, second) && net.state == Active
    ensures var sent := WriteAtomic(net, payload, first, second);
            var flushed := first.res == Ok(|net.writeBuffer|);
            && (forall kind :: sent.res == Err(Io(kind)) <==>
                  first.res == Err(kind) || (flushed && second.res == Err(kind)))
            && (first.res.Err? ==> sent.accepted == [] && sent.net.writeBuffer == net.writeBuffer)
            && (forall n | first.res == Ok(n) && n < |net.writeBuffer| ::
                  sent.accepted == net.writeBuffer[..n] && sent.net.writeBuffer == net.writeBuffer[n..] + payload)
            && (forall n | flushed && second.res == Ok(n) ::
                  sent.accepted == net.writeBuffer + payload[..n] && sent.net.writeBuffer == payload[n..])
            && (flushed && second.res.Err? ==> sent.accepted == net.writeBuffer && sent.net.writeBuffer == [])
            && sent.net.session == (if flushed then second.after else first.after)
            && sent.net.state == Active && sent.net.writeIntent == net.writeIntent
  {
  }

  /** A send changes neither the state nor the events, and keeps conservation. */
  lemma SendKeeps<Id>(log: Log<Id>, payload: Bytes, first: WriteAnswer<Id>, second: WriteAnswer<Id>)
    requires LawfulSend(log.net, payload, first, second)
    requires EventLanguage(log.net, log.events) && Conserved(log)
    ensures var next := Step(log, OnSend(payload, first, second));
            && EventLanguage(next.net, next.events) && Conserved(next)
            && log.net.state == next.net.state && next.events == log.events
  {
    SendIsAtomic(log.net, payload, first, second);
    var sent := WriteAtomic(log.net, payload, first, second);
    var granted := if sent.res.Ok? then payload else [];
    calc {
      log.accepted + sent.accepted + sent.net.writeBuffer;
      log.accepted + (sent.accepted + sent.net.writeBuffer);
      log.accepted + (log.net.writeBuffer + granted);
      log.granted + granted;
    }
  }

  /** Every run of a transport from a session that is not established yet. */
  lemma {:induction false} RunKeeps<Id>(log: Log<Id>, inputs: seq<Input<Id>>)
    requires LawfulRun(log, inputs) && EventLanguage(log.net, log.events) && Conserved(log)
    ensures var end := Run(log, inputs);
            && EventLanguage(end.net, end.events) && Conserved(end)
            && Rank(log.net.state) <= Rank(end.net.state)
    decreases |inputs|
  {
    if inputs != [] {
      match inputs[0] {
        case OnIo(call) => IoKeeps(log, call);
        case OnSend(payload, first, second) => SendKeeps(log, payload, first, second);
      }
      RunKeeps(Step(log, inputs[0]), inputs[1..]);
    }
  }

  lemma TransportRun<Id>(net: Net<Id>, inputs: seq<Input<Id>>)
    requires Fresh(net) && LawfulRun(StartLog(net), inputs)
    ensures var end := Run(StartLog(net), inputs);
            && EventLanguage(end.net, end.events)
            && DataOf(end.events) == end.received
            && end.accepted + end.net.writeBuffer == end.granted
  {
    assert DataOf<Id>([]) == [];
    RunKeeps(StartLog(net), inputs);
  }

  // ---------------------------------------------------------------- Where reads are lost

  /** Bytes a session returns reach the handler exactly when the transport is already Active. A
      transport which is still in Init or Handshake over an established session reports
      `Established` in place of the data it has read. */
  lemma BytesSurfaceIffActive<Id>(net: Net<Id>, read: ReadAnswer<Id>)
    requires net.state != TransportState.Terminated && LawfulCall(net.session, OnRead(read))
    requires read.res.Ok? && read.res.value != []
    ensures HandleIo(net, OnRead(read)).1 == Some(Data(read.res.value)) <==> net.state == Active
    ensures net.state != Active ==> HandleIo(net, OnRead(read)).1 == Some(Established(net.session.id.value))
  {
  }

  ghost predicate LosslessOnEveryRun<Id(!new)>(net: Net<Id>)
  {
    forall inputs | LawfulRun(StartLog(net), inputs) ::
      DataOf(Run(StartLog(net), inputs).events) == Run(StartLog(net), inputs).received
  }

  /** In a build without debug assertions: a transport made by `with_state` in Init or Handshake loses
      no bytes on any run if and only if its session was not established yet. `connect_blocking`
      wraps an established session in Handshake, so the first bytes such a transport reads are
      dropped. */
  lemma LosslessIffNotEstablished<Id(!new)>(net: Net<Id>)
    requires net.state == Init || net.state == Handshake
    requires net.writeBuffer == [] && (net.session.established ==> net.session.id.Some?)
    ensures LosslessOnEveryRun(net) <==> !net.session.established
  {
    if net.session.established {
      var input := OnIo(OnRead(ReadAnswer(Ok([0]), net.session)));
      var next := Step(StartLog(net), input);
      assert [input][1..] == [];
      assert LawfulRun(StartLog(net), [input]);
      assert Run(StartLog(net), [input]) == next;
      assert next.events == [Established(net.session.id.value)];
      assert DataOf(next.events) == [] + DataOf<Id>([]);
    } else {
      forall inputs | LawfulRun(StartLog(net), inputs)
        ensures DataOf(Run(StartLog(net), inputs).events) == Run(StartLog(net), inputs).received
      {
        TransportRun(net, inputs);
      }
    }
  }

  /** Every event of a run meets the debug assertions. */
  predicate NeverTrips<Id(==)>(log: Log<Id>, inputs: seq<Input<Id>>)
    requires LawfulRun(log, inputs)
    decreases |inputs|
  {
    inputs != [] ==>
      (inputs[0].OnIo? ==> AssertionsHold(log.net)) && NeverTrips(Step(log, inputs[0]), inputs[1..])
  }

  ghost predicate NeverTripsOnAnyRun<Id(!new)>(net: Net<Id>)
  {
    forall inputs | LawfulRun(StartLog(net), inputs) :: NeverTrips(StartLog(net), inputs)
  }

  lemma {:induction false} SoundRunNeverTrips<Id>(log: Log<Id>, inputs: seq<Input<Id>>)
    requires LawfulRun(log, inputs) && (log.net.state == Init || Agrees(log.net))
    ensures NeverTrips(log, inputs)
    decreases |inputs|
  {
    if inputs != [] {
      SoundRunNeverTrips(Step(log, inputs[0]), inputs[1..]);
    }
  }

  /** In a build with debug assertions: such a transport panics on no run if and only if it starts in
      Init or its session was not established yet. The one made by `connect_blocking` panics at its
      first event. */
  lemma TripsIffEstablishedInHandshake<Id(!new)>(net: Net<Id>)
    requires net.state == Init || net.state == Handshake
    requires net.writeBuffer == [] && (net.session.established ==> net.session.id.Some?)
    ensures NeverTripsOnAnyRun(net) <==> net.state == Init || !net.session.established
    ensures !NeverTripsOnAnyRun(net) ==> !AssertionsHold(net)
  {
    if net.state == Handshake && net.session.established {
      var input := OnIo(OnRead(ReadAnswer(Ok([]), net.session)));
      assert [input][0] == input && [input][1..] == [];
      assert LawfulRun(StartLog(net), [input]);
      assert !AssertionsHold(StartLog(net).net);
      assert !NeverTrips(StartLog(net), [input]);
    } else {
      forall inputs | LawfulRun(StartLog(net), inputs)
        ensures NeverTrips(StartLog(net), inputs)
      {
        SoundRunNeverTrips(StartLog(net), inputs);
      }
    }
  }
}

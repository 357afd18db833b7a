/** The reactor running the nsh server over `NetResource` transports (io-reactor/src/reactor.rs,
    nsh/src/server.rs, src/resources.rs), on values, one poll after another. */
module SystemSpec {
  import opened Base
  import opened Polling
  import opened TransportSpec
  import opened ReactorSpec
  import opened ServerSpec

  /** `closing` is the unregister queue of the batch being handled. */
  datatype World = World(reg: Registry, server: Server, closing: seq<Fd>, awoken: bool)

  /** `Panicked` is a failed lookup or a failed debug assertion. `ListenerLost` is the panic which the
      server raises itself when it is handed over a listener. `Excluded` marks an answer of the
      environment which cannot occur, or a resource it cannot have opened. */
  datatype Outcome = Go(w: World) | Panicked | ListenerLost | Excluded

  // ---------------------------------------------------------------- Events

  /** What the outside world answers while one event is handled: the session accepted by a
      listener, the session calls of a transport, and the delegate's reactions to what the write
      and the read report. */
  datatype EventEnv = EventEnv(
    accepted: Option<Transport>,
    write: WriteAnswer<PeerKey>, flush: Result<(), ErrorKind>, read: ReadAnswer<PeerKey>,
    onWrite: seq<Action>, onRead: seq<Action>)

  function CallOf(io: Io, env: EventEnv): IoCall<PeerKey>
  {
    if io == Read then OnRead(env.read) else OnWrite(env.write, env.flush)
  }

  /** One operation on one transport, and the server told what it reported. */
  function TransportIo(w: World, id: TransportId, io: Io, env: EventEnv): Outcome
    requires id in w.reg.transports
  {
    var t := w.reg.transports[id];
    if !AssertionsHold(t.net) then Panicked
    else if !LawfulCall(t.net.session, CallOf(io, env)) then Excluded
    else
      var (net, event) := HandleIo(t.net, CallOf(io, env));
      var delegated := if io == Read then env.onRead else env.onWrite;
      Go(w.(reg := Moved(w.reg, id, net),
            server := if event.Some? then OnTransportEvent(w.server, id, event.value, delegated) else w.server))
  }

  function TransportIos(w: World, id: TransportId, ios: seq<Io>, env: EventEnv): Outcome
    requires id in w.reg.transports
    decreases |ios|
  {
    if ios == [] then Go(w)
    else
      match TransportIo(w, id, ios[0], env)
      case Go(next) => TransportIos(next, id, ios[1..], env)
      case other => other
  }

  function ListenerIos(server: Server, ios: seq<Io>, env: EventEnv): Server
    decreases |ios|
  {
    if ios == [] then server
    else ListenerIos(if ios[0] == Read then OnListenerEvent(server, env.accepted) else server, ios[1..], env)
  }

  /** What the server makes of an event which is not I/O on a transport. */
  function Informed(server: Server, reg: Registry, route: Route, env: EventEnv): Server
  {
    match route
    case ToListener(_, io) => ListenerIos(server, Ios(io), env)
    case ListenerGone(id) =>
      if id in reg.listeners then OnError(server, ListenerDisconnect(id, reg.listeners[id])) else server
    case TransportGone(id) =>
      if id in reg.transports then OnError(server, TransportDisconnect(id, reg.transports[id])) else server
    case ListenerFault(id) => OnError(server, ListenerPollError(id))
    case TransportFault(id) => OnError(server, TransportPollError(id))
    case _ => server
  }

  function HandleEvent(w: World, event: Event, env: EventEnv): Outcome
  {
    var route := RouteOf(w.reg, event);
    match route
    case Nowhere => Panicked
    case ToTransport(id, io) => TransportIos(w, id, Ios(io), env)
    case _ => Go(World(AfterEvent(w.reg, route, NO_IO), Informed(w.server, w.reg, route, env),
                       w.closing + Closing(w.reg, route), w.awoken || route == Wake))
  }

  function HandleEvents(w: World, events: seq<Event>, envs: seq<EventEnv>): Outcome
    requires |events| == |envs|
    decreases |events|
  {
    if events == [] then Go(w.(reg := Close(w.reg, w.closing), closing := []))
    else
      match HandleEvent(w, events[0], envs[0])
      case Go(next) => HandleEvents(next, events[1..], envs[1..])
      case other => other
  }

  // ---------------------------------------------------------------- What the server hears of events

  /** The server hears of an operation on a transport exactly what it reports, and reacts to it: its queue
      grows by the delegate's answer, by what waits for a peer just established, or by the removal of a
      terminated one. */
  lemma ServerHears(w: World, id: TransportId, io: Io, env: EventEnv)
    requires id in w.reg.transports && TransportIo(w, id, io, env).Go?
    ensures var out := TransportIo(w, id, io, env).w;
            var (net, event) := HandleIo(w.reg.transports[id].net, CallOf(io, env));
            var answer := if io == Read then env.onRead else env.onWrite;
            && out.reg == Moved(w.reg, id, net)
            && out.closing == w.closing && out.awoken == w.awoken
            && out.server.heard == w.server.heard + (if event.Some? then [Heard(id, event.value)] else [])
            && match event
               case None => out.server == w.server
               case Some(Data(_)) =>
                 out.server.queue == w.server.queue + answer && out.server.outbox == w.server.outbox
               case Some(Established(_)) =>
                 && out.server.queue == w.server.queue + answer + Sends(id, OutboxOf(w.server, id))
                 && out.server.outbox == w.server.outbox - {id}
               case Some(Terminated(_)) =>
                 && out.server.queue == w.server.queue + [UnregisterTransport(id)]
                 && out.server.outbox == w.server.outbox
  {
    assert w.server.heard + [] == w.server.heard;
  }

  /** So the delegate gets all input of an Active transport, and what it answers is queued. */
  lemma DataIsAnswered(w: World, id: TransportId, env: EventEnv, bytes: Bytes)
    requires Ready(w.reg, id) && Agrees(w.reg.transports[id].net) && bytes != []
    requires env.read == ReadAnswer(Ok(bytes), w.reg.transports[id].net.session) && |bytes| <= READ_BUFFER_SIZE
    ensures var out := TransportIo(w, id, Read, env);
            && out.Go? && out.w.reg == w.reg
            && out.w.server.heard == w.server.heard + [Heard(id, Data(bytes))]
            && out.w.server.queue == w.server.queue + env.onRead
  {
    var t := w.reg.transports[id];
    ReadOutcome(t.net, env.read);
    assert HandleIo(t.net, OnRead(env.read)) == (t.net, Some(Data(bytes)));
    assert w.reg.transports[id := t] == w.reg.transports;
  }

  /** And the end of the stream takes it out. */
  lemma EndOfStreamIsHeard(w: World, id: TransportId, env: EventEnv)
    requires Ready(w.reg, id) && Agrees(w.reg.transports[id].net)
    requires env.read == ReadAnswer(Ok([]), w.reg.transports[id].net.session)
    ensures var out := TransportIo(w, id, Read, env);
            && out.Go? && Dead(out.w.reg, id)
            && out.w.server.heard == w.server.heard + [Heard(id, SessionEvent.Terminated(ConnectionReset))]
            && out.w.server.queue == w.server.queue + [UnregisterTransport(id)]
  {
    ReadOutcome(w.reg.transports[id].net, env.read);
  }

  /** A listener which is readable accepts one session, and whether it is writable makes no difference. */
  lemma ListenerAccepts(server: Server, io: IoType, env: EventEnv)
    ensures ListenerIos(server, Ios(io), env) ==
              if io.read && env.accepted.Some? then
                server.(queue := server.queue + [RegisterTransport(env.accepted.value)])
              else server
  {
    WriteBeforeRead(io);
    if io.write && io.read {
      assert Ios(io) == [Write, Read] && [Write, Read][1..] == [Read] && [Read][1..] == [];
    } else if io.write {
      assert Ios(io) == [Write] && [Write][1..] == [];
    } else if io.read {
      assert Ios(io) == [Read] && [Read][1..] == [];
    }
  }

  /** The loop is awoken by exactly an event of the waker. */
  lemma {:induction false} WhatWakes(w: World, events: seq<Event>, envs: seq<EventEnv>)
    requires |events| == |envs| && HandleEvents(w, events, envs).Go?
    ensures var out := HandleEvents(w, events, envs).w;
            && out.reg.waker == w.reg.waker
            && (out.awoken <==> w.awoken || exists event | event in events :: event.fd == w.reg.waker)
    decreases |events|
  {
    if events != [] {
      var next := HandleEvent(w, events[0], envs[0]).w;
      WhatOneEventWakes(w, events[0], envs[0]);
      WhatWakes(next, events[1..], envs[1..]);
      assert events[0] in events;
      assert forall event | event in events :: event == events[0] || event in events[1..];
      assert forall event | event in events[1..] :: event in events;
    }
  }

  lemma WhatOneEventWakes(w: World, event: Event, env: EventEnv)
    requires HandleEvent(w, event, env).Go?
    ensures var next := HandleEvent(w, event, env).w;
            next.reg.waker == w.reg.waker && (next.awoken <==> w.awoken || event.fd == w.reg.waker)
  {
    var route := RouteOf(w.reg, event);
    if route.ToTransport? {
      IosDoNotWake(w, route.id, Ios(route.io), env);
    }
  }

  lemma {:induction false} IosDoNotWake(w: World, id: TransportId, ios: seq<Io>, env: EventEnv)
    requires id in w.reg.transports && TransportIos(w, id, ios, env).Go?
    ensures var next := TransportIos(w, id, ios, env).w; next.reg.waker == w.reg.waker && next.awoken == w.awoken
    decreases |ios|
  {
    if ios != [] {
      IosDoNotWake(TransportIo(w, id, ios[0], env).w, id, ios[1..], env);
    }
  }

  /** The events of a batch are handled one after another, and the descriptors of the resources which are
      gone unregistered when all of them are. */
  lemma {:induction false} EventsInTurn(w: World, events: seq<Event>, envs: seq<EventEnv>, last: Event, env: EventEnv)
    requires |events| == |envs|
    ensures HandleEvents(w, events + [last], envs + [env]) ==
              match Handled(w, events, envs)
              case Go(before) =>
                (match HandleEvent(before, last, env)
                 case Go(after) => Go(after.(reg := Close(after.reg, after.closing), closing := []))
                 case other => other)
              case other => other
    decreases |events|
  {
    var all, answers := events + [last], envs + [env];
    if events == [] {
      assert all[1..] == [] && answers[1..] == [];
    } else {
      assert all[1..] == events[1..] + [last] && answers[1..] == envs[1..] + [env];
      var first := HandleEvent(w, events[0], envs[0]);
      if first.Go? {
        EventsInTurn(first.w, events[1..], envs[1..], last, env);
      }
    }
  }

  /** The world after some events of a batch, before anything is unregistered. */
  function Handled(w: World, events: seq<Event>, envs: seq<EventEnv>): Outcome
    requires |events| == |envs|
    decreases |events|
  {
    if events == [] then Go(w)
    else
      match HandleEvent(w, events[0], envs[0])
      case Go(next) => Handled(next, events[1..], envs[1..])
      case other => other
  }

  // ---------------------------------------------------------------- Actions

  /** A `Send` weighs more than the `UnregisterTransport` its failure can put on the queue. */
  function Weight(action: Action): nat
  {
    if action.Send? then 2 else 1
  }

  function QueueWeight(queue: seq<Action>): nat
  {
    if queue == [] then 0 else Weight(queue[0]) + QueueWeight(queue[1..])
  }

  lemma {:induction false} QueueWeightSnoc(queue: seq<Action>, action: Action)
    ensures QueueWeight(queue + [action]) == QueueWeight(queue) + Weight(action)
  {
    if queue == [] {
      assert queue + [action] == [action];
      assert QueueWeight([action]) == Weight(action) + QueueWeight([]);
    } else {
      QueueWeightSnoc(queue[1..], action);
      assert (queue + [action])[1..] == queue[1..] + [action];
    }
  }

  /** A resource which is being registered: nowhere else open, and for a transport, new. */
  predicate Registrable(reg: Registry, action: Action)
  {
    && Admissible(reg, action)
    && (action.RegisterTransport? ==> Fresh(action.transport.net))
  }

  /** The world once the reactor has handled an action, and the server has heard how it went. */
  function React(w: World, res: Result<Handover, Error>): Outcome
  {
    match res
    case Ok(OfListener(_)) => ListenerLost
    case Ok(_) => Go(w)
    case Err(error) => Go(w.(server := OnError(w.server, error)))
  }

  /** One round of `handle_actions`: the first queued action is taken, applied and reacted to. */
  function HandleNext(w: World, env: SendEnv): Outcome
    requires w.server.queue != []
  {
    var action := w.server.queue[0];
    var taken := w.(server := w.server.(queue := w.server.queue[1..]));
    if !Registrable(w.reg, action) then Excluded
    else
      match Apply(w.reg, action, env)
      case Mismatch => Panicked
      case Applied(reg, res) => React(taken.(reg := reg), res)
  }

  /** Although errors put new actions on the queue, its weight strictly decreases, whatever the
      queue and the outcome of writes. */
  lemma HandleNextLightens(w: World, env: SendEnv)
    requires w.server.queue != [] && HandleNext(w, env).Go?
    ensures QueueWeight(HandleNext(w, env).w.server.queue) < QueueWeight(w.server.queue)
  {
    var rest := w.server.queue[1..];
    var applied := Apply(w.reg, w.server.queue[0], env);
    if applied.res.Err? {
      match applied.res.error {
        case WriteFailure(id, _) => QueueWeightSnoc(rest, UnregisterTransport(id));
        case _ =>
      }
    }
  }

  /** A send over a transport which agrees with its session. */
  lemma SendOverConserves(net: Net<PeerKey>, data: Bytes, env: SendEnv)
    requires Agrees(net)
    ensures var sent := SendOver(net, data, env);
            match sent.res
            case Err(NotReady) => net.state != Active && sent.net == net
            case Err(Io(_)) => sent.accepted + sent.net.writeBuffer == net.writeBuffer
            case Ok(_) => sent.accepted + sent.net.writeBuffer == net.writeBuffer + data
  {
    if net.state == Active {
      SendIsAtomic(net, data, WriteAnswer(Take(env.first, |net.writeBuffer|), net.session),
                   WriteAnswer(Take(env.second, |data|), net.session));
      assert net.writeBuffer + [] == net.writeBuffer;
    }
  }

  /** A round takes the first action, and only a failed write adds another: the removal of its transport. */
  lemma QueueAfter(w: World, env: SendEnv)
    requires w.server.queue != [] && HandleNext(w, env).Go?
    ensures var action, next := w.server.queue[0], HandleNext(w, env).w;
            var applied := Apply(w.reg, action, env);
            && applied.Applied? && next.reg == applied.reg && next.server.heard == w.server.heard
            && next.closing == w.closing && next.awoken == w.awoken
            && next.server.queue == w.server.queue[1..] +
                 (if applied.res.Err? && applied.res.error.WriteFailure? then [UnregisterTransport(action.id)] else [])
            && (next.server.queue == w.server.queue[1..] || action.Send?)
  {
    assert w.server.queue[1..] + [] == w.server.queue[1..];
  }

  /** These actions with the answers to the writes they make, from the n-th round on. */
  function WithAnswers(actions: seq<Action>, sends: nat -> SendEnv, n: nat): (answered: seq<(Action, SendEnv)>)
    ensures |answered| == |actions|
  {
    seq(|actions|, i requires 0 <= i < |actions| => (actions[i], sends(n + i)))
  }

  /** What the action loop comes to: every queued action is applied, in order, and then nothing but
      removals of transports which could not be written to. The server hears of no event meanwhile. */
  lemma {:induction false} AllActionsAreApplied(w: World, sends: nat -> SendEnv, n: nat) returns (removals: seq<Action>)
    requires HandleActions(w, sends, n).Go?
    ensures var out := HandleActions(w, sends, n).w;
            && out.server.queue == [] && out.server.heard == w.server.heard
            && out.closing == w.closing && out.awoken == w.awoken
            && ApplyAll(w.reg, WithAnswers(w.server.queue + removals, sends, n)) == At(out.reg)
    ensures forall action | action in removals :: action.UnregisterTransport?
    decreases QueueWeight(w.server.queue)
  {
    if w.server.queue == [] {
      removals := [];
    } else {
      HandleNextLightens(w, sends(n));
      QueueAfter(w, sends(n));
      var next := HandleNext(w, sends(n)).w;
      var rest := w.server.queue[1..];
      var later := AllActionsAreApplied(next, sends, n + 1);
      var added := next.server.queue[|rest|..];
      removals := added + later;
      Regroup(w.server.queue, next.server.queue, added, later);
      ApplyFirst(w.reg, w.server.queue + removals, sends, n);
    }
  }

  lemma Regroup(queue: seq<Action>, next: seq<Action>, added: seq<Action>, later: seq<Action>)
    requires queue != [] && next == queue[1..] + added
    ensures (queue + (added + later))[1..] == next + later && (queue + (added + later))[0] == queue[0]
  {
  }

  lemma ApplyFirst(reg: Registry, actions: seq<Action>, sends: nat -> SendEnv, n: nat)
    requires actions != [] && Apply(reg, actions[0], sends(n)).Applied?
    ensures ApplyAll(reg, WithAnswers(actions, sends, n)) ==
              ApplyAll(Apply(reg, actions[0], sends(n)).reg, WithAnswers(actions[1..], sends, n + 1))
  {
    assert WithAnswers(actions, sends, n)[1..] == WithAnswers(actions[1..], sends, n + 1);
  }

  /** The world after so many rounds of the action loop. */
  function AfterRounds(w: World, sends: nat -> SendEnv, n: nat, rounds: nat): Outcome
    decreases rounds
  {
    if rounds == 0 then Go(w)
    else if w.server.queue == [] then Go(w)
    else
      match HandleNext(w, sends(n))
      case Go(next) => AfterRounds(next, sends, n + 1, rounds - 1)
      case other => other
  }

  /** The loop goes on round after round until the queue is empty, or a round cannot be gone on from. */
  lemma {:induction false} ActionsEnd(w: World, sends: nat -> SendEnv, n: nat) returns (rounds: nat)
    ensures AfterRounds(w, sends, n, rounds).Go?
    ensures var last := AfterRounds(w, sends, n, rounds).w;
            if last.server.queue == [] then HandleActions(w, sends, n) == Go(last)
            else
              && HandleActions(w, sends, n) == HandleNext(last, sends(n + rounds))
              && !HandleNext(last, sends(n + rounds)).Go?
    decreases QueueWeight(w.server.queue)
  {
    if w.server.queue == [] || !HandleNext(w, sends(n)).Go? {
      rounds := 0;
    } else {
      HandleNextLightens(w, sends(n));
      var more := ActionsEnd(HandleNext(w, sends(n)).w, sends, n + 1);
      rounds := 1 + more;
    }
  }

  /** Where the payload of a `Send` goes, in every case: nowhere for an unknown transport, to the outbox
      of one that is not Active, behind all earlier bytes of one that took it, and nowhere again when
      writing failed, in which case the transport is about to be unregistered. */
  lemma WhereASendGoes(w: World, id: TransportId, data: Bytes, env: SendEnv)
    requires w.server.queue != [] && w.server.queue[0] == Send(id, data)
    requires id in w.reg.transports ==> Agrees(w.reg.transports[id].net)
    ensures var rest := w.server.queue[1..];
            var out := HandleNext(w, env);
            && out.Go?
            && if id !in w.reg.transports then out.w == w.(server := w.server.(queue := rest))
               else
                 var sent := SendOver(w.reg.transports[id].net, data, env);
                 var before, after := w.reg.transports[id].net, out.w.reg.transports[id].net;
                 match sent.res
                 case Err(NotReady) =>
                   && before.state != Active && after == before && out.w.server.queue == rest
                   && OutboxOf(out.w.server, id) == OutboxOf(w.server, id) + [data]
                 case Err(Io(_)) =>
                   && out.w.server == w.server.(queue := rest + [UnregisterTransport(id)])
                   && sent.accepted + after.writeBuffer == before.writeBuffer
                 case Ok(_) =>
                   && out.w.server == w.server.(queue := rest)
                   && sent.accepted + after.writeBuffer == before.writeBuffer + data
  {
    if id in w.reg.transports {
      SendOverConserves(w.reg.transports[id].net, data, env);
    }
  }

  /** `handle_actions`: until the queue is empty. `sends(n)` answers the writes of the n-th round. */
  function HandleActions(w: World, sends: nat -> SendEnv, n: nat): Outcome
    decreases QueueWeight(w.server.queue)
  {
    if w.server.queue == [] then Go(w)
    else
      match HandleNext(w, sends(n))
      case Go(next) =>
        HandleNextLightens(w, sends(n));
        HandleActions(next, sends, n + 1)
      case other => other
  }

  /** The number of rounds `handle_actions` goes through. */
  function Rounds(w: World, sends: nat -> SendEnv, n: nat): nat
    decreases QueueWeight(w.server.queue)
  {
    if w.server.queue == [] then 0
    else
      match HandleNext(w, sends(n))
      case Go(next) =>
        HandleNextLightens(w, sends(n));
        1 + Rounds(next, sends, n + 1)
      case _ => 1
  }

  /** The loop the source warns about ends: it takes at most two rounds for a queued send and one for
      any other queued action, whatever fails. */
  lemma {:induction false} ActionsTerminate(w: World, sends: nat -> SendEnv, n: nat)
    ensures Rounds(w, sends, n) <= QueueWeight(w.server.queue) <= 2 * |w.server.queue|
    ensures HandleActions(w, sends, n).Go? ==> HandleActions(w, sends, n).w.server.queue == []
    decreases QueueWeight(w.server.queue)
  {
    QueueWeightBound(w.server.queue);
    if w.server.queue != [] && HandleNext(w, sends(n)).Go? {
      HandleNextLightens(w, sends(n));
      ActionsTerminate(HandleNext(w, sends(n)).w, sends, n + 1);
    }
  }

  lemma {:induction false} QueueWeightBound(queue: seq<Action>)
    ensures |queue| <= QueueWeight(queue) <= 2 * |queue|
  {
    if queue != [] {
      QueueWeightBound(queue[1..]);
    }
  }

  // ---------------------------------------------------------------- One turn of the loop

  /** Everything the outside world does during one turn. `registrations` are the control messages
      found on the channel, which is drained only after a wake-up. */
  datatype TurnEnv = TurnEnv(events: seq<Event>, envs: seq<EventEnv>, registrations: seq<Action>, sends: nat -> SendEnv)

  predicate IsRegistration(action: Action)
  {
    action.RegisterListener? || action.RegisterTransport?
  }

  function ApplyRegistrations(w: World, registrations: seq<Action>): Outcome
    decreases |registrations|
  {
    if registrations == [] then Go(w)
    else if !IsRegistration(registrations[0]) || !Registrable(w.reg, registrations[0]) then Excluded
    else
      match Apply(w.reg, registrations[0], SendEnv(Ok(0), Ok(0)))
      case Mismatch => Panicked
      case Applied(reg, _) => ApplyRegistrations(w.(reg := reg), registrations[1..])
  }

  /** Each of these can be registered when its turn comes. */
  predicate AllRegistrable(reg: Registry, registrations: seq<Action>)
    decreases |registrations|
  {
    registrations != [] ==>
      var first := registrations[0];
      && IsRegistration(first) && Registrable(reg, first)
      && AllRegistrable(Apply(reg, first, SendEnv(Ok(0), Ok(0))).reg, registrations[1..])
  }

  lemma {:induction false} WhenRegistered(w: World, registrations: seq<Action>)
    ensures ApplyRegistrations(w, registrations).Go? <==> AllRegistrable(w.reg, registrations)
    decreases |registrations|
  {
    if registrations != [] && IsRegistration(registrations[0]) && Registrable(w.reg, registrations[0]) {
      WhenRegistered(w.(reg := Apply(w.reg, registrations[0], SendEnv(Ok(0), Ok(0))).reg), registrations[1..]);
    }
  }

  /** All registrations found on the channel are carried out, and the server does not hear of them. */
  lemma {:induction false} AllAreRegistered(w: World, registrations: seq<Action>)
    requires ApplyRegistrations(w, registrations).Go?
    ensures var out := ApplyRegistrations(w, registrations).w;
            && out.server == w.server && out.closing == w.closing && out.awoken == w.awoken
            && (forall id :: id in out.reg.transports <==>
                  id in w.reg.transports || exists action | action in registrations :: Registers(action, id))
            && (forall id :: id in out.reg.listeners <==>
                  id in w.reg.listeners || exists action | action in registrations :: Listens(action, id))
            && (forall action | action in registrations ::
                  if action.RegisterTransport? then out.reg.transports[action.transport.id] == action.transport
                  else action.RegisterListener? && out.reg.listeners[action.listener.id] == action.listener)
            && (forall id | id in w.reg.transports :: out.reg.transports[id] == w.reg.transports[id])
            && (forall id | id in w.reg.listeners :: out.reg.listeners[id] == w.reg.listeners[id])
    decreases |registrations|
  {
    if registrations != [] {
      var first, rest := registrations[0], registrations[1..];
      var next := w.(reg := Apply(w.reg, first, SendEnv(Ok(0), Ok(0))).reg);
      AllAreRegistered(next, rest);
      assert first in registrations;
      assert forall action | action in registrations :: action == first || action in rest;
      assert forall action | action in rest :: action in registrations;
    }
  }

  predicate Registers(action: Action, id: TransportId)
  {
    action.RegisterTransport? && action.transport.id == id
  }

  predicate Listens(action: Action, id: ListenerId)
  {
    action.RegisterListener? && action.listener.id == id
  }

  /** What the loop does with the events of one poll. */
  function HandleBatch(w: World, env: TurnEnv): Outcome
    requires |env.events| == |env.envs|
  {
    match HandleEvents(w, env.events, env.envs)
    case Go(handled) =>
      (match ApplyRegistrations(handled, if handled.awoken then env.registrations else [])
       case Go(registered) => HandleActions(registered, env.sends, 0)
       case other => other)
    case other => other
  }

  /** From one poll to the next. A poll that times out or fails leaves the rest of the turn out. */
  function Turn(w: World, env: TurnEnv): Outcome
    requires |env.events| == |env.envs|
  {
    var polled := w.(reg := SetInterests(w.reg), awoken := false);
    if env.events == [] then Go(polled)
    else if !PossibleBatch(polled.reg, env.events) then Excluded
    else HandleBatch(polled, env)
  }

  /** Each event comes with the answers to what is called while it is handled. */
  predicate Answered(turn: TurnEnv)
  {
    |turn.events| == |turn.envs|
  }

  predicate AllAnswered(turns: seq<TurnEnv>)
  {
    forall i | 0 <= i < |turns| :: Answered(turns[i])
  }

  /** A poll which times out, or fails, leads to nothing but the interests set before it. */
  lemma QuietTurn(w: World, turn: TurnEnv)
    requires Answered(turn) && turn.events == []
    ensures Turn(w, turn) == Go(w.(reg := SetInterests(w.reg), awoken := false))
  {
  }

  /** A turn with events ends as the first of its three phases does which cannot be gone on from: the events,
      the registrations, and the actions; it is excluded before that only if no poller reports these
      events. */
  lemma PhasesOfTurn(w: World, turn: TurnEnv)
    requires Answered(turn) && turn.events != []
    ensures var polled := w.(reg := SetInterests(w.reg), awoken := false);
            var handled := HandleEvents(polled, turn.events, turn.envs);
            var registrations := if handled.Go? && handled.w.awoken then turn.registrations else [];
            && (!PossibleBatch(polled.reg, turn.events) ==> Turn(w, turn).Excluded?)
            && (PossibleBatch(polled.reg, turn.events) && !handled.Go? ==> Turn(w, turn) == handled)
            && (PossibleBatch(polled.reg, turn.events) && handled.Go? ==>
                  var registered := ApplyRegistrations(handled.w, registrations);
                  Turn(w, turn) ==
                    if registered.Go? then HandleActions(registered.w, turn.sends, 0) else registered)
  {
  }

  /** Registrations stay in the channel unless the waker is among the events. */
  lemma OnlyWakingRegisters(w: World, turn: TurnEnv, others: seq<Action>)
    requires Answered(turn) && forall event | event in turn.events :: event.fd != w.reg.waker
    ensures Turn(w, turn) == Turn(w, turn.(registrations := others))
  {
    var polled := w.(reg := SetInterests(w.reg), awoken := false);
    if HandleEvents(polled, turn.events, turn.envs).Go? {
      WhatWakes(polled, turn.events, turn.envs);
    }
  }

  function RunTurns(w: World, turns: seq<TurnEnv>): Outcome
    requires forall i | 0 <= i < |turns| :: |turns[i].events| == |turns[i].envs|
    decreases |turns|
  {
    if turns == [] then Go(w)
    else
      match Turn(w, turns[0])
      case Go(next) => RunTurns(next, turns[1..])
      case other => other
  }

  // ---------------------------------------------------------------- Invariants

  predicate Dead(reg: Registry, id: TransportId)
  {
    id in reg.transports && reg.transports[id].net.state == TransportState.Terminated
  }

  predicate Ready(reg: Registry, id: TransportId)
  {
    id in reg.transports && reg.transports[id].net.state == Active
  }

  /** Every terminated transport is on its way out, no message is held back from a ready one, and each
      transport agrees with its session. */
  ghost predicate Tended(w: World)
  {
    && (forall id | Dead(w.reg, id) :: UnregisterTransport(id) in w.server.queue)
    && NoneHeldBack(w) && AllAgree(w.reg)
  }

  ghost predicate AllAgree(reg: Registry)
  {
    forall id | id in reg.transports :: Agrees(reg.transports[id].net)
  }

  ghost predicate NoneHeldBack(w: World)
  {
    forall id | Ready(w.reg, id) :: id !in w.server.outbox
  }

  ghost predicate NoneDead(reg: Registry)
  {
    forall id | id in reg.transports :: !Dead(reg, id)
  }

  ghost predicate AtPoll(w: World)
  {
    Coherent(w.reg) && w.closing == [] && NoneDead(w.reg) && NoneHeldBack(w) && AllAgree(w.reg)
  }

  /** A flush whose error terminates the transport. */
  predicate FailsForGood(flush: Result<(), ErrorKind>)
  {
    flush.Err? && flush.error != WouldBlock && flush.error != WriteZero
  }

  /** An event after whose first half, a flush of an established session which fails for good, a read is
      still to come. A `NoiseXk` session forwards the flush to its connection. */
  predicate Harsh(reg: Registry, event: Event, env: EventEnv)
  {
    && event.res.Ok? && event.res.value.write && event.res.value.read
    && event.fd != reg.waker && LiveTransport(reg, event.fd)
    && reg.transports[reg.transportMap[event.fd]].net.session.established
    && FailsForGood(env.flush)
  }

  predicate AnyHarsh(reg: Registry, events: seq<Event>, envs: seq<EventEnv>)
    requires |events| == |envs|
  {
    exists i | 0 <= i < |events| :: Harsh(reg, events[i], envs[i])
  }

  /** A transport is terminated, or becomes ready, by exactly the operation which reports it. */
  lemma TransitionsAreReported(net: Net<PeerKey>, call: IoCall<PeerKey>)
    requires net.state != TransportState.Terminated && LawfulCall(net.session, call)
    ensures var (next, event) := HandleIo(net, call);
            && (next.state == TransportState.Terminated <==> event.Some? && event.value.Terminated?)
            && (next.state == Active && net.state != Active <==> event.Some? && event.value.Established?)
  {
  }

  /** The registry differs in nothing but what the I/O made of one transport. */
  predicate OnlyMoved(before: Registry, id: TransportId, after: Registry)
  {
    && id in before.transports && id in after.transports
    && after == AfterEvent(before, ToTransport(id, NONE), after.transports[id].net)
  }

  lemma IoKeepsAgreement(w: World, id: TransportId, io: Io, env: EventEnv)
    requires id in w.reg.transports && AllAgree(w.reg)
    ensures var out := TransportIo(w, id, io, env);
            && (out.Panicked? <==> Dead(w.reg, id))
            && (out.Go? ==> AllAgree(out.w.reg))
  {
    var net := w.reg.transports[id].net;
    AgreeingMeetsAssertions(net);
    if !Dead(w.reg, id) && LawfulCall(net.session, CallOf(io, env)) {
      IoOutcome(net, CallOf(io, env));
    }
  }

  lemma TransportIoKeeps(w: World, id: TransportId, io: Io, env: EventEnv)
    requires id in w.reg.transports && Tended(w)
    ensures var out := TransportIo(w, id, io, env);
            && (out.Panicked? <==> Dead(w.reg, id))
            && (out.Excluded? ==> !LawfulCall(w.reg.transports[id].net.session, CallOf(io, env)))
            && !out.ListenerLost?
            && (out.Go? ==>
                  && Tended(out.w) && w.server.queue <= out.w.server.queue
                  && out.w.closing == w.closing && out.w.awoken == w.awoken
                  && OnlyMoved(w.reg, id, out.w.reg))
  {
    var t := w.reg.transports[id];
    var call := CallOf(io, env);
    IoKeepsAgreement(w, id, io, env);
    var out := TransportIo(w, id, io, env);
    if out.Go? {
      TransitionsAreReported(t.net, call);
      forall other | Dead(out.w.reg, other)
        ensures UnregisterTransport(other) in out.w.server.queue
      {
        if other != id {
          assert Dead(w.reg, other);
        }
      }
      forall other | Ready(out.w.reg, other)
        ensures other !in out.w.server.outbox
      {
        assert other != id || t.net.state == Active ==> Ready(w.reg, other);
      }
    }
  }

  /** Writing terminates a transport exactly if it flushes an established session, and for good
      fails to. */
  lemma WhenWritingTerminates(net: Net<PeerKey>, env: EventEnv)
    requires AssertionsHold(net) && LawfulCall(net.session, CallOf(Write, env))
    ensures HandleIo(net, CallOf(Write, env)).0.state == TransportState.Terminated <==>
              net.session.established && FailsForGood(env.flush)
  {
  }

  /** The event of a transport which was alive at the poll hits the debug assertion if and only if it
      is both writable and readable, and flushing the established session fails for good. */
  lemma WhenTransportEventPanics(w: World, id: TransportId, io: IoType, env: EventEnv)
    requires id in w.reg.transports && !Dead(w.reg, id) && Tended(w)
    ensures var out := TransportIos(w, id, Ios(io), env);
            var session := w.reg.transports[id].net.session;
            && (io.write && !LawfulCall(session, CallOf(Write, env)) ==> out.Excluded?)
            && (out.Panicked? <==>
                  && io.write && io.read && LawfulCall(session, CallOf(Write, env))
                  && session.established && FailsForGood(env.flush))
  {
    WriteBeforeRead(io);
    AgreeingMeetsAssertions(w.reg.transports[id].net);
    TransportIoKeeps(w, id, Write, env);
    TransportIoKeeps(w, id, Read, env);
    var wrote := TransportIo(w, id, Write, env);
    if io.write && io.read {
      assert [Write, Read][1..] == [Read];
      assert [Write] + [Read] == [Write, Read];
      if wrote.Go? {
        WhenWritingTerminates(w.reg.transports[id].net, env);
        TransportIoKeeps(wrote.w, id, Read, env);
        OneIo(wrote.w, id, Read, env);
      }
    } else if io.write {
      OneIo(w, id, Write, env);
    } else if io.read {
      OneIo(w, id, Read, env);
    }
  }

  /** An event which is both writable and readable is first the one, then, if that can be gone on from, the
      other. */
  lemma BothIos(w: World, id: TransportId, env: EventEnv)
    requires id in w.reg.transports
    ensures var wrote := TransportIo(w, id, Write, env);
            TransportIos(w, id, Ios(READ_WRITE), env) ==
              if wrote.Go? then TransportIo(wrote.w, id, Read, env) else wrote
  {
    WriteBeforeRead(READ_WRITE);
    assert [Write] + [Read] == [Write, Read] && [Write, Read][1..] == [Read];
    if TransportIo(w, id, Write, env).Go? {
      OneIo(TransportIo(w, id, Write, env).w, id, Read, env);
    }
  }

  lemma OneIo(w: World, id: TransportId, io: Io, env: EventEnv)
    requires id in w.reg.transports
    ensures TransportIos(w, id, [io], env) == TransportIo(w, id, io, env)
  {
  }

  lemma {:induction false} TransportIosKeep(w: World, id: TransportId, ios: seq<Io>, env: EventEnv)
    requires id in w.reg.transports && Tended(w)
    ensures var out := TransportIos(w, id, ios, env);
            && !out.ListenerLost?
            && (out.Go? ==> Tended(out.w) && out.w.closing == w.closing && OnlyMoved(w.reg, id, out.w.reg))
    decreases |ios|
  {
    if ios == [] {
      assert w.reg.transports[id := w.reg.transports[id]] == w.reg.transports;
    } else {
      TransportIoKeeps(w, id, ios[0], env);
      var first := TransportIo(w, id, ios[0], env);
      if first.Go? {
        TransportIosKeep(first.w, id, ios[1..], env);
      }
    }
  }

  // ---------------------------------------------------------------- What a batch keeps

  /** No event to come is for a terminated transport. */
  ghost predicate AliveAhead(reg: Registry, events: seq<Event>)
  {
    forall event | event in events && event.fd != reg.waker && LiveTransport(reg, event.fd) ::
      !Dead(reg, reg.transportMap[event.fd])
  }

  ghost predicate InBatch(w: World, events: seq<Event>)
  {
    MidBatch(w.reg, w.closing, events) && AliveAhead(w.reg, events) && Tended(w)
  }

  lemma AliveAheadKeeps(reg: Registry, closing: seq<Fd>, events: seq<Event>, net: Net<PeerKey>)
    requires MidBatch(reg, closing, events) && AliveAhead(reg, events) && events != []
    ensures AliveAhead(AfterEvent(reg, RouteOf(reg, events[0]), net), events[1..])
  {
    assert events[0] in events;
    var route := RouteOf(reg, events[0]);
    var next := AfterEvent(reg, route, net);
    forall event | event in events[1..] && event.fd != next.waker && LiveTransport(next, event.fd)
      ensures !Dead(next, next.transportMap[event.fd])
    {
      var i :| 1 <= i < |events| && events[i] == event;
      assert event in events && events[0].fd != events[i].fd;
      assert LiveTransport(reg, event.fd);
    }
  }

  /** An event which leaves the transports which stay alone. */
  lemma QuietEventKeeps(w: World, events: seq<Event>, env: EventEnv)
    requires InBatch(w, events) && events != []
    requires RouteOf(w.reg, events[0]) != Nowhere && !RouteOf(w.reg, events[0]).ToTransport?
    ensures Tended(HandleEvent(w, events[0], env).w)
  {
    var route := RouteOf(w.reg, events[0]);
    if route.ToListener? {
      ListenerIosGrow(w.server, Ios(route.io), env);
    }
    var out := HandleEvent(w, events[0], env);
    assert w.server.queue <= out.w.server.queue;
    assert out.w.server.outbox == w.server.outbox;
    forall id | Dead(out.w.reg, id) || Ready(out.w.reg, id)
      ensures Dead(out.w.reg, id) ==> UnregisterTransport(id) in out.w.server.queue
      ensures Ready(out.w.reg, id) ==> id !in out.w.server.outbox
    {
      assert Dead(w.reg, id) || Ready(w.reg, id);
    }
  }

  lemma TransportEventKeeps(w: World, events: seq<Event>, env: EventEnv)
    requires InBatch(w, events) && events != []
    requires RouteOf(w.reg, events[0]).ToTransport?
    ensures var out := HandleEvent(w, events[0], env);
            var id := RouteOf(w.reg, events[0]).id;
            && !out.ListenerLost?
            && (!out.Excluded? ==> (out.Panicked? <==> Harsh(w.reg, events[0], env)))
            && (out.Go? ==> Tended(out.w) && out.w.closing == w.closing && OnlyMoved(w.reg, id, out.w.reg))
  {
    assert events[0] in events;
    var route := RouteOf(w.reg, events[0]);
    assert !Dead(w.reg, route.id);
    WhenTransportEventPanics(w, route.id, route.io, env);
    TransportIosKeep(w, route.id, Ios(route.io), env);
  }

  lemma HandleEventKeeps(w: World, events: seq<Event>, env: EventEnv)
    requires InBatch(w, events) && events != []
    requires events[0].fd == w.reg.waker ==> events[0].res.Ok?
    ensures var out := HandleEvent(w, events[0], env);
            && !out.ListenerLost?
            && (out.Excluded? ==> RouteOf(w.reg, events[0]).ToTransport?)
            && (!out.Excluded? ==> (out.Panicked? <==> Harsh(w.reg, events[0], env)))
            && (out.Go? ==> InBatch(out.w, events[1..]) && out.w.reg.waker == w.reg.waker)
  {
    var route := RouteOf(w.reg, events[0]);
    var net := NO_IO;
    var out := HandleEvent(w, events[0], env);
    EventKeepsMidBatch(w.reg, w.closing, events, NO_IO);
    if route.ToTransport? {
      TransportEventKeeps(w, events, env);
      if out.Go? {
        net := out.w.reg.transports[route.id].net;
        assert w.closing + [] == w.closing;
        assert out.w.reg == AfterEvent(w.reg, route, net);
      }
    } else {
      QuietEventKeeps(w, events, env);
    }
    EventKeepsMidBatch(w.reg, w.closing, events, net);
    AliveAheadKeeps(w.reg, w.closing, events, net);
  }

  /** Whether a later event is harsh does not change with this one. */
  lemma HarshStays(w: World, events: seq<Event>, env: EventEnv, i: nat, later: EventEnv)
    requires InBatch(w, events) && 1 <= i < |events| && HandleEvent(w, events[0], env).Go?
    requires events[0].fd == w.reg.waker ==> events[0].res.Ok?
    ensures Harsh(HandleEvent(w, events[0], env).w.reg, events[i], later) <==> Harsh(w.reg, events[i], later)
  {
    assert events[0] in events && events[i] in events && events[0].fd != events[i].fd;
    if RouteOf(w.reg, events[0]).ToTransport? {
      TransportEventKeeps(w, events, env);
    }
  }

  lemma HarshAhead(w: World, events: seq<Event>, envs: seq<EventEnv>)
    requires |events| == |envs| && InBatch(w, events) && events != []
    requires events[0].fd == w.reg.waker ==> events[0].res.Ok?
    requires HandleEvent(w, events[0], envs[0]).Go?
    ensures var next := HandleEvent(w, events[0], envs[0]).w.reg;
            AnyHarsh(w.reg, events, envs) <==>
              Harsh(w.reg, events[0], envs[0]) || AnyHarsh(next, events[1..], envs[1..])
  {
    var next := HandleEvent(w, events[0], envs[0]).w.reg;
    forall i | 1 <= i < |events|
      ensures Harsh(next, events[i], envs[i]) <==> Harsh(w.reg, events[i], envs[i])
    {
      HarshStays(w, events, envs[0], i, envs[i]);
    }
    AnyHarshSplits(w.reg, next, events, envs);
  }

  lemma AnyHarshSplits(reg: Registry, next: Registry, events: seq<Event>, envs: seq<EventEnv>)
    requires |events| == |envs| && events != []
    requires forall i | 1 <= i < |events| :: Harsh(next, events[i], envs[i]) <==> Harsh(reg, events[i], envs[i])
    ensures AnyHarsh(reg, events, envs) <==> Harsh(reg, events[0], envs[0]) || AnyHarsh(next, events[1..], envs[1..])
  {
    if i :| 1 <= i < |events| && Harsh(reg, events[i], envs[i]) {
      assert Harsh(next, events[1..][i - 1], envs[1..][i - 1]);
    }
    if i :| 0 <= i < |events| - 1 && Harsh(next, events[1..][i], envs[1..][i]) {
      assert Harsh(reg, events[i + 1], envs[i + 1]);
    }
  }

  /** What a poll failure on a live resource leads to: a hang-up takes the resource out at once, with
      its descriptor left to the end of the batch, and only for a listener asks for more; any other
      error leaves the resource in place and asks for it to be unregistered. Neither touches the
      descriptor indexes, so that a hang-up leaves a stale key behind. */
  lemma FailureReaction(w: World, events: seq<Event>, env: EventEnv)
    requires InBatch(w, events) && events != [] && events[0].res.Err? && events[0].fd != w.reg.waker
    ensures var fd := events[0].fd;
            var hungUp := events[0].res.error.Connectivity?;
            var out := HandleEvent(w, events[0], env);
            && out.Go? && out.w.awoken == w.awoken && out.w.server.outbox == w.server.outbox
            && (LiveTransport(w.reg, fd) || LiveListener(w.reg, fd))
            && out.w.closing == w.closing + (if hungUp then [fd] else [])
            && out.w.reg.masks == w.reg.masks && out.w.reg.waker == w.reg.waker
            && out.w.reg.listenerMap == w.reg.listenerMap && out.w.reg.transportMap == w.reg.transportMap
            && if LiveTransport(w.reg, fd) then
                 var id := w.reg.transportMap[fd];
                 && out.w.reg.listeners == w.reg.listeners
                 && out.w.reg.transports == (if hungUp then w.reg.transports - {id} else w.reg.transports)
                 && out.w.server.queue == w.server.queue + (if hungUp then [] else [UnregisterTransport(id)])
               else
                 var id := w.reg.listenerMap[fd];
                 && out.w.reg.transports == w.reg.transports
                 && out.w.reg.listeners == (if hungUp then w.reg.listeners - {id} else w.reg.listeners)
                 && out.w.server.queue == w.server.queue + [UnregisterListener(id)]
  {
    assert events[0] in events;
  }

  lemma {:induction false} ListenerIosGrow(server: Server, ios: seq<Io>, env: EventEnv)
    ensures server.queue <= ListenerIos(server, ios, env).queue
    ensures server.outbox == ListenerIos(server, ios, env).outbox
    decreases |ios|
  {
    if ios != [] {
      ListenerIosGrow(if ios[0] == Read then OnListenerEvent(server, env.accepted) else server, ios[1..], env);
    }
  }

  lemma {:induction false} HandleEventsKeep(w: World, events: seq<Event>, envs: seq<EventEnv>)
    requires |events| == |envs| && InBatch(w, events)
    requires forall event | event in events :: event.fd == w.reg.waker ==> event.res.Ok?
    ensures var out := HandleEvents(w, events, envs);
            && !out.ListenerLost?
            && (!out.Excluded? ==> (out.Panicked? <==> AnyHarsh(w.reg, events, envs)))
            && (out.Go? ==> Coherent(out.w.reg) && out.w.closing == [] && Tended(out.w))
    decreases |events|
  {
    if events == [] {
      CloseRestoresCoherence(w.reg, w.closing);
    } else {
      assert events[0] in events;
      HandleEventKeeps(w, events, envs[0]);
      var out := HandleEvent(w, events[0], envs[0]);
      if out.Go? {
        HarshAhead(w, events, envs);
        HandleEventsKeep(out.w, events[1..], envs[1..]);
      }
    }
  }

  // ---------------------------------------------------------------- What actions keep

  ghost predicate Settling(w: World)
  {
    Coherent(w.reg) && w.closing == [] && Tended(w)
  }

  lemma ApplyKeepsAgreement(reg: Registry, action: Action, env: SendEnv)
    requires AllAgree(reg) && Registrable(reg, action)
    ensures var out := Apply(reg, action, env); out.Applied? ==> AllAgree(out.reg)
  {
    if action.RegisterTransport? {
      AgreeingMeetsAssertions(action.transport.net);
    }
  }

  lemma ApplyKeepsTended(w: World, action: Action, env: SendEnv, rest: seq<Action>)
    requires Settling(w) && Registrable(w.reg, action)
    requires forall id | Dead(w.reg, id) :: UnregisterTransport(id) == action || UnregisterTransport(id) in rest
    ensures var out := Apply(w.reg, action, env);
            && out.Applied? && Coherent(out.reg) && AllAgree(out.reg)
            && (forall id | Dead(out.reg, id) :: UnregisterTransport(id) in rest)
            && (forall id | Ready(out.reg, id) :: Ready(w.reg, id))
            && (out.res.Err? && out.res.error.WriteLogicError? ==> !Ready(out.reg, out.res.error.id))
  {
    ApplyKeepsCoherence(w.reg, action, env);
    ApplyKeepsAgreement(w.reg, action, env);
    var out := Apply(w.reg, action, env);
    forall id | Dead(out.reg, id)
      ensures UnregisterTransport(id) in rest
    {
      assert Dead(w.reg, id);
    }
  }

  lemma {:induction false} RegisterKeeps(w: World, registrations: seq<Action>)
    requires Settling(w)
    ensures var out := ApplyRegistrations(w, registrations);
            !out.Panicked? && !out.ListenerLost? && (out.Go? ==> Settling(out.w))
    decreases |registrations|
  {
    if registrations != [] && IsRegistration(registrations[0]) && Registrable(w.reg, registrations[0]) {
      var env := SendEnv(Ok(0), Ok(0));
      ApplyKeepsTended(w, registrations[0], env, w.server.queue);
      RegisterKeeps(w.(reg := Apply(w.reg, registrations[0], env).reg), registrations[1..]);
    }
  }

  /** The server's reaction to an error keeps the terminated on their way out and the ready served. */
  lemma ReactKeepsTended(w: World, res: Result<Handover, Error>)
    requires Tended(w)
    requires res.Err? && res.error.WriteLogicError? ==> !Ready(w.reg, res.error.id)
    ensures React(w, res).Go? ==> Tended(React(w, res).w)
  {
    var out := React(w, res);
    if out.Go? {
      assert w.server.queue <= out.w.server.queue;
    }
  }

  lemma HandleNextKeeps(w: World, env: SendEnv)
    requires Settling(w) && w.server.queue != []
    ensures var out := HandleNext(w, env);
            && !out.Panicked? && (out.Go? ==> Settling(out.w))
            && (out.Excluded? <==> !Registrable(w.reg, w.server.queue[0]))
  {
    var action, rest := w.server.queue[0], w.server.queue[1..];
    if Registrable(w.reg, action) {
      assert w.server.queue == [action] + rest;
      ApplyKeepsTended(w, action, env, rest);
      var applied := Apply(w.reg, action, env);
      ReactKeepsTended(w.(reg := applied.reg, server := w.server.(queue := rest)), applied.res);
    }
  }

  /** The server's own panic: an `UnregisterListener` for a listener that is still registered. */
  lemma WhenListenerIsLost(w: World, env: SendEnv)
    requires Settling(w) && w.server.queue != []
    ensures HandleNext(w, env).ListenerLost? <==>
              w.server.queue[0].UnregisterListener? && w.server.queue[0].listenerId in w.reg.listeners
  {
    HandleNextKeeps(w, env);
  }

  lemma {:induction false} HandleActionsKeep(w: World, sends: nat -> SendEnv, n: nat)
    requires Settling(w)
    ensures var out := HandleActions(w, sends, n);
            !out.Panicked? && (out.Go? ==> AtPoll(out.w) && out.w.server.queue == [])
    decreases QueueWeight(w.server.queue)
  {
    if w.server.queue != [] {
      HandleNextKeeps(w, sends(n));
      var out := HandleNext(w, sends(n));
      if out.Go? {
        HandleNextLightens(w, sends(n));
        HandleActionsKeep(out.w, sends, n + 1);
      }
    }
  }

  /** A transport which is to be unregistered, because it terminated, could not be written to or had
      a poll error, is gone when the actions are done, unless its id is being registered anew. */
  lemma {:induction false} QueuedUnregisterHappens(w: World, sends: nat -> SendEnv, n: nat, id: TransportId)
    requires UnregisterTransport(id) in w.server.queue || id !in w.reg.transports
    requires forall action | action in w.server.queue :: !Registers(action, id)
    ensures var out := HandleActions(w, sends, n);
            out.Go? ==> id !in out.w.reg.transports
    decreases QueueWeight(w.server.queue)
  {
    if w.server.queue != [] && HandleNext(w, sends(n)).Go? {
      var action, rest := w.server.queue[0], w.server.queue[1..];
      var next := HandleNext(w, sends(n)).w;
      assert w.server.queue == [action] + rest;
      assert !Registers(action, id);
      HandleNextLightens(w, sends(n));
      QueuedUnregisterHappens(next, sends, n + 1, id);
    }
  }

  // ---------------------------------------------------------------- Whole runs

  /** Setting the interests changes nothing about transports and outbox. */
  lemma PolledStaysTended(w: World)
    requires AtPoll(w)
    ensures var polled := w.(reg := SetInterests(w.reg), awoken := false);
            Coherent(polled.reg) && NoneDead(polled.reg) && Tended(polled)
  {
    InterestsKeepCoherence(w.reg);
    var polled := w.(reg := SetInterests(w.reg), awoken := false);
    assert forall id | id in polled.reg.transports :: !Dead(w.reg, id) && (Ready(polled.reg, id) ==> Ready(w.reg, id));
  }

  lemma TurnKeeps(w: World, env: TurnEnv)
    requires AtPoll(w) && Answered(env)
    ensures var out := Turn(w, env);
            && (!out.Excluded? ==> (out.Panicked? <==> AnyHarsh(w.reg, env.events, env.envs)))
            && (out.Go? ==> AtPoll(out.w))
  {
    PolledStaysTended(w);
    var polled := w.(reg := SetInterests(w.reg), awoken := false);
    if env.events != [] && PossibleBatch(polled.reg, env.events) {
      assert MidBatch(polled.reg, [], env.events);
      HandleEventsKeep(polled, env.events, env.envs);
      assert AnyHarsh(polled.reg, env.events, env.envs) <==> AnyHarsh(w.reg, env.events, env.envs) by {
        assert forall event, env :: Harsh(polled.reg, event, env) <==> Harsh(w.reg, event, env);
      }
      var handled := HandleEvents(polled, env.events, env.envs);
      if handled.Go? {
        var registrations := if handled.w.awoken then env.registrations else [];
        RegisterKeeps(handled.w, registrations);
        var registered := ApplyRegistrations(handled.w, registrations);
        if registered.Go? {
          HandleActionsKeep(registered.w, env.sends, 0);
        }
      }
    }
  }

  function Start(waker: Fd, listener: Listener): World
  {
    World(Empty(waker), NewServer([RegisterListener(listener)]), [], false)
  }

  /** In some turn that is reached, an event is harsh. */
  predicate HarshIsMet(w: World, turns: seq<TurnEnv>)
    requires AllAnswered(turns)
    decreases |turns|
  {
    turns != [] &&
      (AnyHarsh(w.reg, turns[0].events, turns[0].envs)
       || (Turn(w, turns[0]).Go? && HarshIsMet(Turn(w, turns[0]).w, turns[1..])))
  }

  lemma {:induction false} RunKeeps(w: World, turns: seq<TurnEnv>)
    requires AtPoll(w) && AllAnswered(turns)
    ensures var out := RunTurns(w, turns);
            && (!out.Excluded? ==> (out.Panicked? <==> HarshIsMet(w, turns)))
            && (out.Go? ==> AtPoll(out.w))
    decreases |turns|
  {
    if turns != [] {
      TurnKeeps(w, turns[0]);
      var out := Turn(w, turns[0]);
      if out.Go? {
        RunKeeps(out.w, turns[1..]);
      }
    }
  }
}

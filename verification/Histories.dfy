/** What whole runs of the system come to for each transport: the events the server is told about it,
    the bytes its session returned and accepted, and the payloads its sends were granted. */
module Histories {
  import opened Base
  import opened Polling
  import opened TransportSpec
  import opened ReactorSpec
  import opened ServerSpec
  import opened SystemSpec

  /** A transport is registered. One operation of a transport: what the server was told meanwhile, and the
      bytes its session returned. One send to a transport: the payload, if it returned `Ok`, and
      the bytes its session accepted meanwhile. */
  datatype Happening =
    | Arrived(id: TransportId)
    | DidIo(id: TransportId, told: seq<Heard>, read: Bytes)
    | DidSend(id: TransportId, payload: Bytes, taken: Bytes)

  // ---------------------------------------------------------------- The history of a run

  /** The bytes which the session of a transport returns in this operation. */
  function BytesRead(io: Io, env: EventEnv): Bytes
  {
    if io == Read && env.read.res.Ok? then env.read.res.value else []
  }

  /** What has been added to the record which the server keeps. */
  function News(before: Server, after: Server): seq<Heard>
  {
    if |before.heard| <= |after.heard| then after.heard[|before.heard|..] else []
  }

  function IoHistory(w: World, id: TransportId, ios: seq<Io>, env: EventEnv): seq<Happening>
    requires id in w.reg.transports
    decreases |ios|
  {
    if ios == [] then []
    else
      match TransportIo(w, id, ios[0], env)
      case Go(next) =>
        [DidIo(id, News(w.server, next.server), BytesRead(ios[0], env))] + IoHistory(next, id, ios[1..], env)
      case _ => []
  }

  function EventHistory(w: World, event: Event, env: EventEnv): seq<Happening>
  {
    match RouteOf(w.reg, event)
    case ToTransport(id, io) => IoHistory(w, id, Ios(io), env)
    case _ => []
  }

  function BatchHistory(w: World, events: seq<Event>, envs: seq<EventEnv>): seq<Happening>
    requires |events| == |envs|
    decreases |events|
  {
    if events == [] then []
    else
      match HandleEvent(w, events[0], envs[0])
      case Go(next) => EventHistory(w, events[0], envs[0]) + BatchHistory(next, events[1..], envs[1..])
      case _ => []
  }

  function ActionHistory(reg: Registry, action: Action, env: SendEnv): seq<Happening>
  {
    match action
    case RegisterTransport(t) => [Arrived(t.id)]
    case Send(id, data) =>
      if id !in reg.transports then []
      else
        var sent := SendOver(reg.transports[id].net, data, env);
        [DidSend(id, if sent.res.Ok? then data else [], sent.accepted)]
    case _ => []
  }

  function ActionsHistory(w: World, sends: nat -> SendEnv, n: nat): seq<Happening>
    decreases QueueWeight(w.server.queue)
  {
    if w.server.queue == [] then []
    else
      match HandleNext(w, sends(n))
      case Go(next) =>
        HandleNextLightens(w, sends(n));
        ActionHistory(w.reg, w.server.queue[0], sends(n)) + ActionsHistory(next, sends, n + 1)
      case _ => []
  }

  function RegistrationsHistory(w: World, registrations: seq<Action>): seq<Happening>
    decreases |registrations|
  {
    if registrations == [] || !ApplyRegistrations(w, registrations).Go? then []
    else
      var env := SendEnv(Ok(0), Ok(0));
      ActionHistory(w.reg, registrations[0], env)
      + RegistrationsHistory(w.(reg := Apply(w.reg, registrations[0], env).reg), registrations[1..])
  }

  function TurnHistory(w: World, turn: TurnEnv): seq<Happening>
    requires Answered(turn)
  {
    var polled := w.(reg := SetInterests(w.reg), awoken := false);
    match HandleEvents(polled, turn.events, turn.envs)
    case Go(handled) =>
      var registrations := if handled.awoken then turn.registrations else [];
      (match ApplyRegistrations(handled, registrations)
       case Go(registered) =>
         BatchHistory(polled, turn.events, turn.envs)
         + (RegistrationsHistory(handled, registrations) + ActionsHistory(registered, turn.sends, 0))
       case _ => [])
    case _ => []
  }

  function History(w: World, turns: seq<TurnEnv>): seq<Happening>
    requires AllAnswered(turns)
    decreases |turns|
  {
    if turns == [] then []
    else
      match Turn(w, turns[0])
      case Go(next) =>
        (if turns[0].events == [] then [] else TurnHistory(w, turns[0])) + History(next, turns[1..])
      case _ => []
  }

  // ---------------------------------------------------------------- What it says about one transport

  /** What has happened to one transport since it was registered. */
  datatype Ledger = Ledger(events: seq<SessionEvent<PeerKey>>, received: Bytes, accepted: Bytes, granted: Bytes)

  const BLANK := Ledger([], [], [], [])

  /** The events told about `id`. */
  function EventsAbout(id: TransportId, told: seq<Heard>): seq<SessionEvent<PeerKey>>
  {
    if told == [] then []
    else (if told[0].id == id then [told[0].event] else []) + EventsAbout(id, told[1..])
  }

  function Entered(id: TransportId, ledger: Ledger, last: Happening): Ledger
  {
    if last.id != id then ledger
    else
      match last
      case Arrived(_) => BLANK
      case DidIo(_, told, read) =>
        ledger.(events := ledger.events + EventsAbout(id, told),
                received := ledger.received + read)
      case DidSend(_, payload, taken) =>
        ledger.(accepted := ledger.accepted + taken, granted := ledger.granted + payload)
  }

  function LedgerOf(history: seq<Happening>, id: TransportId): Ledger
    decreases |history|
  {
    if history == [] then BLANK
    else Entered(id, LedgerOf(history[..|history| - 1], id), history[|history| - 1])
  }

  /** The ledger fits the transport: the events are those a transport in its state has reported, their
      data are the bytes received, and the bytes accepted, followed by those the transport still buffers,
      are the bytes granted. */
  predicate Fits(net: Net<PeerKey>, ledger: Ledger)
  {
    && EventLanguage(net, ledger.events)
    && DataOf(ledger.events) == ledger.received
    && ledger.accepted + net.writeBuffer == ledger.granted
  }

  /** All that the server was told. */
  function AllTold(history: seq<Happening>): seq<Heard>
    decreases |history|
  {
    if history == [] then []
    else
      var last := history[|history| - 1];
      AllTold(history[..|history| - 1]) + (if last.DidIo? then last.told else [])
  }

  predicate AllFit(reg: Registry, history: seq<Happening>)
  {
    forall id | id in reg.transports :: Fits(reg.transports[id].net, LedgerOf(history, id))
  }

  /** The history fits the transports, and the record the server keeps. */
  predicate Chronicled(w: World, history: seq<Happening>)
  {
    AllFit(w.reg, history) && w.server.heard == AllTold(history)
  }

  // ---------------------------------------------------------------- Every run is chronicled

  function LogOf(net: Net<PeerKey>, ledger: Ledger): Log<PeerKey>
  {
    Log(net, ledger.events, ledger.received, ledger.accepted, ledger.granted)
  }

  /** An event and its entry. */
  lemma IoFits(net: Net<PeerKey>, ledger: Ledger, id: TransportId, io: Io, env: EventEnv)
    requires Fits(net, ledger) && Lawful(net, OnIo(CallOf(io, env)))
    ensures var (next, event) := HandleIo(net, CallOf(io, env));
            var told := if event.Some? then [Heard(id, event.value)] else [];
            Fits(next, Entered(id, ledger, DidIo(id, told, BytesRead(io, env))))
  {
    IoKeeps(LogOf(net, ledger), CallOf(io, env));
    var event := HandleIo(net, CallOf(io, env)).1;
    if event.Some? {
      assert EventsAbout(id, [Heard(id, event.value)]) == [event.value] + EventsAbout(id, []) == [event.value];
    }
    var told := if event.Some? then [Heard(id, event.value)] else [];
    assert EventsAbout(id, told) == if event.Some? then [event.value] else [];
  }

  /** A send and its entry. */
  lemma SendFits(net: Net<PeerKey>, ledger: Ledger, id: TransportId, data: Bytes, env: SendEnv)
    requires Fits(net, ledger)
    ensures var sent := SendOver(net, data, env);
            Fits(sent.net, Entered(id, ledger, DidSend(id, if sent.res.Ok? then data else [], sent.accepted)))
  {
    if net.state == Active {
      SendKeeps(LogOf(net, ledger), data, WriteAnswer(Take(env.first, |net.writeBuffer|), net.session),
                WriteAnswer(Take(env.second, |data|), net.session));
    } else {
      assert ledger.accepted + [] == ledger.accepted && ledger.granted + [] == ledger.granted;
    }
  }

  lemma HistorySnoc(history: seq<Happening>, last: Happening, id: TransportId)
    ensures LedgerOf(history + [last], id) == Entered(id, LedgerOf(history, id), last)
    ensures AllTold(history + [last]) == AllTold(history) + if last.DidIo? then last.told else []
  {
    assert (history + [last])[..|history + [last]| - 1] == history;
  }

  lemma Join(w: World, past: seq<Happening>, first: seq<Happening>, rest: seq<Happening>)
    requires Chronicled(w, past + first + rest)
    ensures Chronicled(w, past + (first + rest))
  {
    assert past + first + rest == past + (first + rest);
  }

  lemma MoveIsChronicled(reg: Registry, id: TransportId, net: Net<PeerKey>, past: seq<Happening>, last: Happening)
    requires id in reg.transports && last.id == id && AllFit(reg, past)
    requires Fits(net, Entered(id, LedgerOf(past, id), last))
    ensures AllFit(Moved(reg, id, net), past + [last])
  {
    forall other | other in reg.transports
      ensures Fits(Moved(reg, id, net).transports[other].net, LedgerOf(past + [last], other))
    {
      HistorySnoc(past, last, other);
    }
  }

  lemma IoIsChronicled(w: World, id: TransportId, io: Io, env: EventEnv, past: seq<Happening>)
    requires id in w.reg.transports && Chronicled(w, past) && TransportIo(w, id, io, env).Go?
    ensures var next := TransportIo(w, id, io, env).w;
            Chronicled(next, past + [DidIo(id, News(w.server, next.server), BytesRead(io, env))])
  {
    var net := w.reg.transports[id].net;
    IoFits(net, LedgerOf(past, id), id, io, env);
    ServerHears(w, id, io, env);
    var (moved, event) := HandleIo(net, CallOf(io, env));
    var next := TransportIo(w, id, io, env).w;
    var told := if event.Some? then [Heard(id, event.value)] else [];
    assert News(w.server, next.server) == told;
    MoveIsChronicled(w.reg, id, moved, past, DidIo(id, told, BytesRead(io, env)));
    HistorySnoc(past, DidIo(id, told, BytesRead(io, env)), id);
  }

  lemma {:induction false} IosAreChronicled(w: World, id: TransportId, ios: seq<Io>, env: EventEnv,
                                            past: seq<Happening>)
    requires id in w.reg.transports && Chronicled(w, past)
    ensures var out := TransportIos(w, id, ios, env);
            out.Go? ==> Chronicled(out.w, past + IoHistory(w, id, ios, env))
    decreases |ios|
  {
    if ios == [] {
      assert past + [] == past;
    } else if TransportIo(w, id, ios[0], env).Go? {
      IoIsChronicled(w, id, ios[0], env, past);
      var next := TransportIo(w, id, ios[0], env).w;
      var first := [DidIo(id, News(w.server, next.server), BytesRead(ios[0], env))];
      IosAreChronicled(next, id, ios[1..], env, past + first);
      if TransportIos(next, id, ios[1..], env).Go? {
        Join(TransportIos(next, id, ios[1..], env).w, past, first, IoHistory(next, id, ios[1..], env));
      }
    }
  }

  lemma EventIsChronicled(w: World, event: Event, env: EventEnv, past: seq<Happening>)
    requires Chronicled(w, past)
    ensures var out := HandleEvent(w, event, env);
            out.Go? ==> Chronicled(out.w, past + EventHistory(w, event, env))
  {
    var route := RouteOf(w.reg, event);
    assert past + [] == past;
    if route.ToListener? {
      ListenerAccepts(w.server, route.io, env);
    }
    if route.ToTransport? {
      IosAreChronicled(w, route.id, Ios(route.io), env, past);
    }
  }

  lemma {:induction false} BatchIsChronicled(w: World, events: seq<Event>, envs: seq<EventEnv>,
                                             past: seq<Happening>)
    requires |events| == |envs| && Chronicled(w, past)
    ensures var out := HandleEvents(w, events, envs);
            out.Go? ==> Chronicled(out.w, past + BatchHistory(w, events, envs))
    decreases |events|
  {
    if events == [] {
      assert past + [] == past;
    } else if HandleEvent(w, events[0], envs[0]).Go? {
      EventIsChronicled(w, events[0], envs[0], past);
      var first := EventHistory(w, events[0], envs[0]);
      var next := HandleEvent(w, events[0], envs[0]).w;
      BatchIsChronicled(next, events[1..], envs[1..], past + first);
      if HandleEvents(next, events[1..], envs[1..]).Go? {
        Join(HandleEvents(next, events[1..], envs[1..]).w, past, first, BatchHistory(next, events[1..], envs[1..]));
      }
    }
  }

  lemma ArrivalIsChronicled(reg: Registry, t: Transport, env: SendEnv, past: seq<Happening>)
    requires AllFit(reg, past) && Fresh(t.net)
    ensures AllFit(Apply(reg, RegisterTransport(t), env).reg, past + [Arrived(t.id)])
  {
    var next := Apply(reg, RegisterTransport(t), env).reg;
    forall id | id in next.transports
      ensures Fits(next.transports[id].net, LedgerOf(past + [Arrived(t.id)], id))
    {
      HistorySnoc(past, Arrived(t.id), id);
    }
  }

  lemma SendIsChronicled(reg: Registry, id: TransportId, data: Bytes, env: SendEnv, past: seq<Happening>)
    requires AllFit(reg, past) && id in reg.transports
    ensures var sent := SendOver(reg.transports[id].net, data, env);
            AllFit(Moved(reg, id, sent.net), past + [DidSend(id, if sent.res.Ok? then data else [], sent.accepted)])
  {
    var net := reg.transports[id].net;
    SendFits(net, LedgerOf(past, id), id, data, env);
    var sent := SendOver(net, data, env);
    MoveIsChronicled(reg, id, sent.net, past, DidSend(id, if sent.res.Ok? then data else [], sent.accepted));
  }

  lemma ActionIsChronicled(reg: Registry, action: Action, env: SendEnv, past: seq<Happening>)
    requires AllFit(reg, past) && Registrable(reg, action) && Apply(reg, action, env).Applied?
    ensures AllFit(Apply(reg, action, env).reg, past + ActionHistory(reg, action, env))
    ensures AllTold(past + ActionHistory(reg, action, env)) == AllTold(past)
  {
    assert past + [] == past;
    var news := ActionHistory(reg, action, env);
    if news != [] {
      assert news == [news[0]];
      HistorySnoc(past, news[0], 0);
    }
    match action {
      case RegisterTransport(t) => ArrivalIsChronicled(reg, t, env, past);
      case Send(id, data) =>
        if id in reg.transports {
          SendIsChronicled(reg, id, data, env, past);
        }
      case _ =>
    }
  }

  lemma {:induction false} ActionsAreChronicled(w: World, sends: nat -> SendEnv, n: nat, past: seq<Happening>)
    requires Chronicled(w, past)
    ensures var out := HandleActions(w, sends, n);
            out.Go? ==> Chronicled(out.w, past + ActionsHistory(w, sends, n))
    decreases QueueWeight(w.server.queue)
  {
    if w.server.queue == [] {
      assert past + [] == past;
    } else if HandleNext(w, sends(n)).Go? {
      HandleNextLightens(w, sends(n));
      var action := w.server.queue[0];
      ActionIsChronicled(w.reg, action, sends(n), past);
      var first := ActionHistory(w.reg, action, sends(n));
      var next := HandleNext(w, sends(n)).w;
      QueueAfter(w, sends(n));
      ActionsAreChronicled(next, sends, n + 1, past + first);
      if HandleActions(next, sends, n + 1).Go? {
        Join(HandleActions(next, sends, n + 1).w, past, first, ActionsHistory(next, sends, n + 1));
      }
    }
  }

  lemma {:induction false} RegistrationsAreChronicled(w: World, registrations: seq<Action>, past: seq<Happening>)
    requires Chronicled(w, past) && ApplyRegistrations(w, registrations).Go?
    ensures Chronicled(ApplyRegistrations(w, registrations).w, past + RegistrationsHistory(w, registrations))
    decreases |registrations|
  {
    if registrations == [] {
      assert past + [] == past;
    } else {
      var env := SendEnv(Ok(0), Ok(0));
      ActionIsChronicled(w.reg, registrations[0], env, past);
      var first := ActionHistory(w.reg, registrations[0], env);
      var next := w.(reg := Apply(w.reg, registrations[0], env).reg);
      RegistrationsAreChronicled(next, registrations[1..], past + first);
      Join(ApplyRegistrations(next, registrations[1..]).w, past, first,
           RegistrationsHistory(next, registrations[1..]));
    }
  }

  lemma RestIsChronicled(w: World, registrations: seq<Action>, sends: nat -> SendEnv, past: seq<Happening>)
    requires Chronicled(w, past) && ApplyRegistrations(w, registrations).Go?
    ensures var registered := ApplyRegistrations(w, registrations).w;
            var out := HandleActions(registered, sends, 0);
            out.Go? ==> Chronicled(out.w, past + (RegistrationsHistory(w, registrations)
                                                  + ActionsHistory(registered, sends, 0)))
  {
    var first := RegistrationsHistory(w, registrations);
    RegistrationsAreChronicled(w, registrations, past);
    var registered := ApplyRegistrations(w, registrations).w;
    ActionsAreChronicled(registered, sends, 0, past + first);
    if HandleActions(registered, sends, 0).Go? {
      Join(HandleActions(registered, sends, 0).w, past, first, ActionsHistory(registered, sends, 0));
    }
  }

  lemma TurnIsChronicled(w: World, turn: TurnEnv, past: seq<Happening>)
    requires Answered(turn) && Chronicled(w, past) && Turn(w, turn).Go?
    ensures Chronicled(Turn(w, turn).w, past + if turn.events == [] then [] else TurnHistory(w, turn))
  {
    var polled := w.(reg := SetInterests(w.reg), awoken := false);
    assert polled.reg.transports == w.reg.transports && Chronicled(polled, past);
    if turn.events == [] {
      assert past + [] == past;
    } else {
      BatchIsChronicled(polled, turn.events, turn.envs, past);
      var handled := HandleEvents(polled, turn.events, turn.envs).w;
      var first := BatchHistory(polled, turn.events, turn.envs);
      var registrations := if handled.awoken then turn.registrations else [];
      RestIsChronicled(handled, registrations, turn.sends, past + first);
      var registered := ApplyRegistrations(handled, registrations).w;
      var rest := RegistrationsHistory(handled, registrations) + ActionsHistory(registered, turn.sends, 0);
      Join(HandleActions(registered, turn.sends, 0).w, past, first, rest);
    }
  }

  lemma {:induction false} RunIsChronicled(w: World, turns: seq<TurnEnv>, past: seq<Happening>)
    requires AllAnswered(turns) && Chronicled(w, past)
    ensures var out := RunTurns(w, turns);
            out.Go? ==> Chronicled(out.w, past + History(w, turns))
    decreases |turns|
  {
    if turns == [] {
      assert past + [] == past;
    } else if Turn(w, turns[0]).Go? {
      TurnIsChronicled(w, turns[0], past);
      var first := if turns[0].events == [] then [] else TurnHistory(w, turns[0]);
      var next := Turn(w, turns[0]).w;
      RunIsChronicled(next, turns[1..], past + first);
      if RunTurns(next, turns[1..]).Go? {
        Join(RunTurns(next, turns[1..]).w, past, first, History(next, turns[1..]));
      }
    }
  }

  /** Whole runs of the system, down to each registered transport, over what has happened to it since its
      registration. The server was told nothing about it before `Established`, then data, then at most one
      final termination, which it was told exactly if the transport is terminated. The data it was told
      are the bytes the session returned, one after another. The bytes the session accepted, followed by
      those the transport still buffers, are the payloads of the sends which returned `Ok`, in order.
      The history has no more and no less of what the server was told than its own record. */
  lemma TransportsAreChronicled(waker: Fd, listener: Listener, turns: seq<TurnEnv>, id: TransportId)
    requires AllAnswered(turns)
    ensures var out := RunTurns(Start(waker, listener), turns);
            var history := History(Start(waker, listener), turns);
            out.Go? ==>
              && out.w.server.heard == AllTold(history)
              && (id in out.w.reg.transports ==>
                    var net := out.w.reg.transports[id].net;
                    var ledger := LedgerOf(history, id);
                    && EventLanguage(net, ledger.events)
                    && DataOf(ledger.events) == ledger.received
                    && ledger.accepted + net.writeBuffer == ledger.granted)
  {
    var start := Start(waker, listener);
    RunIsChronicled(start, turns, []);
    assert [] + History(start, turns) == History(start, turns);
  }
}

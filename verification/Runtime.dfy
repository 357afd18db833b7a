/** The reactor's `Runtime` (io-reactor/src/reactor.rs) with the nsh `Server` as its service
    (nsh/src/server.rs), as objects updated in place. */
module Runtime {
  import opened Base
  import opened Polling
  import opened Timeouts
  import opened TransportSpec
  import opened ReactorSpec
  import opened ServerSpec
  import opened SystemSpec
  import Handler = ServerSpec
  import System = SystemSpec

  class Server {
    var outbox: map<TransportId, seq<Bytes>>
    var actionQueue: seq<Action>
    ghost var heard: seq<Heard>

    constructor With(listener: Listener)
      ensures View() == NewServer([RegisterListener(listener)])
    {
      outbox, actionQueue, heard := map[], [RegisterListener(listener)], [];
    }

    ghost function View(): Handler.Server
      reads this
    {
      Handler.Server.Server(outbox, actionQueue, heard)
    }

    method HandleListenerEvent(accepted: Option<Transport>)
      modifies this
      ensures View() == OnListenerEvent(old(View()), accepted)
    {
      if accepted.Some? {
        actionQueue := actionQueue + [RegisterTransport(accepted.value)];
      }
    }

    method HandleTransportEvent(id: TransportId, event: SessionEvent<PeerKey>, delegated: seq<Action>)
      modifies this
      ensures View() == OnTransportEvent(old(View()), id, event, delegated)
    {
      heard := heard + [Heard(id, event)];
      match event
      case Established(_) =>
        var queue := if id in outbox then outbox[id] else [];
        outbox := outbox - {id};
        actionQueue := actionQueue + delegated;
        actionQueue := actionQueue + Sends(id, queue);
      case Data(_) =>
        actionQueue := actionQueue + delegated;
      case Terminated(_) =>
        actionQueue := actionQueue + [UnregisterTransport(id)];
    }

    method HandleError(error: Error)
      modifies this
      ensures View() == OnError(old(View()), error)
    {
      match error
      case TransportDisconnect(_, _) =>
      case WriteLogicError(id, message) =>
        var waiting := if id in outbox then outbox[id] else [];
        outbox := outbox[id := waiting + [message]];
      case ListenerUnknown(_) =>
      case TransportUnknown(_) =>
      case PollFailure(_) =>
      case ListenerDisconnect(id, _) =>
        actionQueue := actionQueue + [UnregisterListener(id)];
      case ListenerPollError(id) =>
        actionQueue := actionQueue + [UnregisterListener(id)];
      case WriteFailure(id, _) =>
        actionQueue := actionQueue + [UnregisterTransport(id)];
      case TransportPollError(id) =>
        actionQueue := actionQueue + [UnregisterTransport(id)];
    }

    method Next() returns (action: Option<Action>)
      modifies this
      ensures View() == Handler.Step(old(View()), Call.Next)
      ensures action == if old(actionQueue) == [] then None else Some(old(actionQueue)[0])
    {
      if actionQueue == [] {
        return None;
      }
      action := Some(actionQueue[0]);
      actionQueue := actionQueue[1..];
    }
  }

  /** What the timers have come to when the first of the actions `asked` for are done, with `left` to do:
      none is gone, each new one is one asked for, counted from `time`, and each one asked for is
      covered. */
  ghost predicate TimersServed(before: seq<Timer<()>>, asked: seq<Action>, left: seq<Action>, time: Duration,
                               threshold: Duration, after: seq<Timer<()>>)
  {
    && StillPending(before, after)
    && (forall timer | timer in after ::
          timer in before || exists action | action in asked :: IsTimer(action, time, timer))
    && (forall action | action in left && action.SetTimer? :: action in asked)
    && (forall action | action in asked && action.SetTimer? ::
          action in left || CoveredBy(after, threshold, time + action.duration))
  }

  predicate IsTimer(action: Action, time: Duration, timer: Timer<()>)
  {
    action.SetTimer? && timer == Timer((), time + action.duration)
  }

  /** What one action does to the timers. */
  ghost predicate TimerHandled(before: seq<Timer<()>>, action: Action, time: Duration, threshold: Duration,
                               after: seq<Timer<()>>)
  {
    if action.SetTimer? then Requested(before, threshold, Timer((), time + action.duration), after)
    else after == before
  }

  lemma TimersServedNext(before: seq<Timer<()>>, asked: seq<Action>, left: seq<Action>, next: seq<Action>,
                         time: Duration, threshold: Duration, now: seq<Timer<()>>, after: seq<Timer<()>>)
    requires TimersServed(before, asked, left, time, threshold, now) && left != []
    requires TimerHandled(now, left[0], time, threshold, after)
    requires left[1..] <= next && forall action | action in next[|left| - 1..] :: !action.SetTimer?
    ensures TimersServed(before, asked, next, time, threshold, after)
  {
    var timer := if left[0].SetTimer? then Timer((), time + left[0].duration) else Timer((), 0);
    assert left[0] in left && left == [left[0]] + left[1..] && next == left[1..] + next[|left| - 1..];
    if left[0].SetTimer? {
      RequestKeepsPending(now, threshold, timer, after);
      RequestIsCovered(now, threshold, timer, after);
      assert IsTimer(left[0], time, timer);
    }
    forall action | action in asked && action.SetTimer? && action !in next
      ensures CoveredBy(after, threshold, time + action.duration)
    {
      if action !in left {
        var t :| t in now && Covers(t.at, time + action.duration, threshold);
        assert t in after;
      }
    }
  }

  lemma NextRound(w: World, sends: nat -> SendEnv, n: nat, before: seq<Timer<()>>, asked: seq<Action>,
                  time: Duration, threshold: Duration, now: seq<Timer<()>>)
    requires System.HandleActions(w, sends, n).Go? && w.server.queue != []
    requires TimersServed(before, asked, w.server.queue, time, threshold, now)
    ensures HandleNext(w, sends(n)).Go?
    ensures var next := HandleNext(w, sends(n)).w;
            && System.HandleActions(next, sends, n + 1) == System.HandleActions(w, sends, n)
            && QueueWeight(next.server.queue) < QueueWeight(w.server.queue)
            && forall after | TimerHandled(now, w.server.queue[0], time, threshold, after) ::
                 TimersServed(before, asked, next.server.queue, time, threshold, after)
  {
    HandleNextLightens(w, sends(n));
    QueueAfter(w, sends(n));
    var next := HandleNext(w, sends(n)).w;
    forall after | TimerHandled(now, w.server.queue[0], time, threshold, after)
      ensures TimersServed(before, asked, next.server.queue, time, threshold, after)
    {
      TimersServedNext(before, asked, w.server.queue, next.server.queue, time, threshold, now, after);
    }
  }

  class Runtime {
    const service: Server
    const poller: Poller
    const timeouts: TimeoutManager<()>
    const waker: Fd
    var listeners: map<ListenerId, Listener>
    var transports: map<TransportId, Transport>
    var listenerMap: map<Fd, ListenerId>
    var transportMap: map<Fd, TransportId>

    /** The waker is registered before the loop is entered. */
    constructor (service: Server, waker: Fd)
      ensures Snapshot() == Empty(waker) && this.service == service && fresh(poller) && fresh(timeouts)
      ensures timeouts.Valid() && poller.events == []
    {
      this.service, this.waker := service, waker;
      listeners, transports, listenerMap, transportMap := map[], map[], map[], map[];
      poller := new Poller();
      timeouts := new TimeoutManager(1_000_000_000);
      new;
      poller.Register(waker, READ_ONLY);
    }

    ghost function Snapshot(): Registry
      reads this, poller
    {
      Registry(waker, listeners, transports, listenerMap, transportMap, poller.masks)
    }

    ghost function Observed(closing: seq<Fd>, awoken: bool): World
      reads this, poller, service
    {
      World(Snapshot(), service.View(), closing, awoken)
    }

    /** Hands an unregistered resource over to the caller, which passes it on to the service. */
    method HandleAction(action: Action, time: Duration, send: SendEnv) returns (res: Result<Handover, Error>)
      requires Apply(Snapshot(), action, send).Applied? && timeouts.Valid()
      modifies this, poller`masks, timeouts
      ensures Applied(Snapshot(), res) == Apply(old(Snapshot()), action, send)
      ensures timeouts.Valid()
      ensures TimerHandled(old(timeouts.timeouts), action, time, timeouts.threshold, timeouts.timeouts)
    {
      if action.SetTimer? {
        var _ := timeouts.Register((), time + action.duration);
        return Ok(Nothing);
      }
      res := HandleResourceAction(action, send);
    }

    method HandleResourceAction(action: Action, send: SendEnv) returns (res: Result<Handover, Error>)
      requires Apply(Snapshot(), action, send).Applied? && !action.SetTimer?
      modifies this, poller`masks
      ensures Applied(Snapshot(), res) == Apply(old(Snapshot()), action, send)
    {
      match action
      case RegisterListener(listener) =>
        AddListener(listener, send);
        return Ok(Nothing);
      case RegisterTransport(transport) =>
        AddTransport(transport, send);
        return Ok(Nothing);
      case UnregisterListener(id) =>
        res := RemoveListener(id, send);
      case UnregisterTransport(id) =>
        res := RemoveTransport(id, send);
      case Send(id, data) =>
        res := SendTo(id, data, send);
    }

    method AddListener(listener: Listener, ghost send: SendEnv)
      modifies this, poller`masks
      ensures Applied(Snapshot(), Ok(Nothing)) == Apply(old(Snapshot()), RegisterListener(listener), send)
    {
      poller.Register(listener.fd, READ_ONLY);
      listeners := listeners[listener.id := listener];
      listenerMap := listenerMap[listener.fd := listener.id];
    }

    method AddTransport(transport: Transport, ghost send: SendEnv)
      modifies this, poller`masks
      ensures Applied(Snapshot(), Ok(Nothing)) == Apply(old(Snapshot()), RegisterTransport(transport), send)
    {
      poller.Register(transport.fd, READ_ONLY);
      transports := transports[transport.id := transport];
      transportMap := transportMap[transport.fd := transport.id];
    }

    method RemoveListener(id: ListenerId, ghost send: SendEnv) returns (res: Result<Handover, Error>)
      requires Apply(Snapshot(), UnregisterListener(id), send).Applied?
      modifies this, poller`masks
      ensures Applied(Snapshot(), res) == Apply(old(Snapshot()), UnregisterListener(id), send)
    {
      if id !in listeners {
        return Err(ListenerUnknown(id));
      }
      var listener := listeners[id];
      listeners := listeners - {id};
      assert listener.fd in listenerMap;  // "listener index content doesn't match"
      listenerMap := listenerMap - {listener.fd};
      poller.Unregister(listener.fd);
      return Ok(OfListener(listener));
    }

    method RemoveTransport(id: TransportId, ghost send: SendEnv) returns (res: Result<Handover, Error>)
      requires Apply(Snapshot(), UnregisterTransport(id), send).Applied?
      modifies this, poller`masks
      ensures Applied(Snapshot(), res) == Apply(old(Snapshot()), UnregisterTransport(id), send)
    {
      if id !in transports {
        return Err(TransportUnknown(id));
      }
      var transport := transports[id];
      transports := transports - {id};
      assert transport.fd in transportMap;  // "transport index content doesn't match"
      transportMap := transportMap - {transport.fd};
      poller.Unregister(transport.fd);
      return Ok(OfTransport(transport));
    }

    /** `NetResource.WriteAtomic` computes what `SendOver` says. */
    method SendTo(id: TransportId, data: Bytes, send: SendEnv) returns (res: Result<Handover, Error>)
      modifies this`transports
      ensures Applied(Snapshot(), res) == Apply(old(Snapshot()), Send(id, data), send)
    {
      if id !in transports {
        return Err(TransportUnknown(id));
      }
      var sent := SendOver(transports[id].net, data, send);
      transports := transports[id := transports[id].(net := sent.net)];
      match sent.res
      case Ok(_) => return Ok(Nothing);
      case Err(NotReady) => return Err(WriteLogicError(id, data));
      case Err(Io(kind)) => return Err(WriteFailure(id, kind));
    }

    /** One round of the action loop. */
    method HandleNextAction(time: Duration, send: SendEnv, ghost awoken: bool)
      requires timeouts.Valid() && service.actionQueue != []
      requires HandleNext(Observed([], awoken), send).Go?
      modifies this, poller`masks, timeouts, service
      ensures timeouts.Valid()
      ensures Go(Observed([], awoken)) == HandleNext(old(Observed([], awoken)), send)
      ensures TimerHandled(old(timeouts.timeouts), old(service.actionQueue)[0], time, timeouts.threshold,
                           timeouts.timeouts)
    {
      var next := service.Next();
      var res := HandleAction(next.value, time, send);
      if res.Err? {
        service.HandleError(res.error);
      }
    }

    /** Takes actions from the service until it has none; errors go back to the service, which may
        queue more. Terminates because the weight of the queue decreases. */
    method HandleActions(time: Duration, sends: nat -> SendEnv, ghost awoken: bool) returns (rounds: nat)
      requires timeouts.Valid()
      requires System.HandleActions(Observed([], awoken), sends, 0).Go?
      modifies this, poller`masks, timeouts, service
      ensures timeouts.Valid()
      ensures Go(Observed([], awoken)) == System.HandleActions(old(Observed([], awoken)), sends, 0)
      ensures service.actionQueue == []
      ensures rounds <= QueueWeight(old(service.actionQueue))
      ensures TimersServed(old(timeouts.timeouts), old(service.actionQueue), [], time, timeouts.threshold,
                           timeouts.timeouts)
    {
      ghost var goal := System.HandleActions(Observed([], awoken), sends, 0);
      rounds := 0;
      while service.actionQueue != []
        invariant timeouts.Valid()
        invariant System.HandleActions(Observed([], awoken), sends, rounds) == goal
        invariant rounds + QueueWeight(service.actionQueue) <= QueueWeight(old(service.actionQueue))
        invariant TimersServed(old(timeouts.timeouts), old(service.actionQueue), service.actionQueue, time,
                               timeouts.threshold, timeouts.timeouts)
        decreases QueueWeight(service.actionQueue)
      {
        NextRound(Observed([], awoken), sends, rounds, old(timeouts.timeouts), old(service.actionQueue), time,
                  timeouts.threshold, timeouts.timeouts);
        HandleNextAction(time, sends(rounds), awoken);
        rounds := rounds + 1;
      }
    }

    /** Sets the poller's interest for every live resource; the maps are iterated in any order. */
    method SetInterests()
      requires Coherent(Snapshot())
      modifies poller`masks
      ensures Snapshot() == ReactorSpec.SetInterests(old(Snapshot()))
    {
      ghost var before := Snapshot();
      SetListenerInterests();
      SetTransportInterests();
      assert poller.masks == ReactorSpec.SetInterests(before).masks;
    }

    method SetListenerInterests()
      requires Indexed(Snapshot())
      modifies poller`masks
      ensures poller.masks.Keys == old(poller.masks).Keys
      ensures forall fd | fd in poller.masks ::
                poller.masks[fd] == if LiveListener(old(Snapshot()), fd) then READ_ONLY else old(poller.masks)[fd]
    {
      ghost var before := Snapshot();
      var todo := listeners.Keys;
      while todo != {}
        invariant todo <= listeners.Keys
        invariant poller.masks.Keys == before.masks.Keys
        invariant forall fd | fd in before.masks ::
                    poller.masks[fd] ==
                      if LiveListener(before, fd) && listenerMap[fd] !in todo then READ_ONLY else before.masks[fd]
        decreases |todo|
      {
        var id :| id in todo;
        var _ := poller.SetInterest(listeners[id].fd, READ_ONLY);
        todo := todo - {id};
      }
    }

    method SetTransportInterests()
      requires Indexed(Snapshot())
      modifies poller`masks
      ensures poller.masks.Keys == old(poller.masks).Keys
      ensures forall fd | fd in poller.masks ::
                poller.masks[fd] ==
                  if LiveTransport(old(Snapshot()), fd) then Interests(transports[transportMap[fd]].net)
                  else old(poller.masks)[fd]
    {
      ghost var before := Snapshot();
      var todo := transports.Keys;
      while todo != {}
        invariant todo <= transports.Keys
        invariant poller.masks.Keys == before.masks.Keys
        invariant forall fd | fd in before.masks ::
                    poller.masks[fd] ==
                      if LiveTransport(before, fd) && transportMap[fd] !in todo then
                        Interests(transports[transportMap[fd]].net)
                      else before.masks[fd]
        decreases |todo|
      {
        var id :| id in todo;
        var _ := poller.SetInterest(transports[id].fd, Interests(transports[id].net));
        todo := todo - {id};
      }
    }

    /** One operation on one transport. `NetResource.HandleIo` computes what `HandleIo` says. */
    method HandleTransportIo(id: TransportId, io: Io, env: EventEnv, ghost closing: seq<Fd>, ghost awoken: bool)
      requires id in transports && TransportIo(Observed(closing, awoken), id, io, env).Go?
      modifies this`transports, service
      ensures id in transports
      ensures Go(Observed(closing, awoken)) == TransportIo(old(Observed(closing, awoken)), id, io, env)
    {
      assert transports[id].net.state != TransportState.Terminated;  // "I/O on terminated transport"
      assert transports[id].net.state == Handshake ==> !transports[id].net.session.established;
      var (net, event) := HandleIo(transports[id].net, CallOf(io, env));
      transports := transports[id := transports[id].(net := net)];
      if event.Some? {
        service.HandleTransportEvent(id, event.value, if io == Read then env.onRead else env.onWrite);
      }
    }

    /** `for io in io { .. }` over a transport's readiness. */
    method HandleTransportIos(id: TransportId, io: IoType, env: EventEnv, ghost closing: seq<Fd>, ghost awoken: bool)
      requires id in transports && TransportIos(Observed(closing, awoken), id, Ios(io), env).Go?
      modifies this`transports, service
      ensures Go(Observed(closing, awoken)) == TransportIos(old(Observed(closing, awoken)), id, Ios(io), env)
    {
      ghost var goal := TransportIos(Observed(closing, awoken), id, Ios(io), env);
      var left := io;
      while true
        invariant id in transports
        invariant TransportIos(Observed(closing, awoken), id, Ios(left), env) == goal
        decreases left.write, left.read
      {
        var (next, rest) := NextIo(left);
        if next.None? {
          break;
        }
        assert Ios(left)[1..] == Ios(rest);
        HandleTransportIo(id, next.value, env, closing, awoken);
        left := rest;
      }
    }

    method HandleListenerIos(io: IoType, env: EventEnv)
      modifies service
      ensures service.View() == ListenerIos(old(service.View()), Ios(io), env)
    {
      ghost var goal := ListenerIos(service.View(), Ios(io), env);
      var left := io;
      while true
        invariant ListenerIos(service.View(), Ios(left), env) == goal
        decreases left.write, left.read
      {
        var (next, rest) := NextIo(left);
        if next.None? {
          break;
        }
        assert Ios(left)[1..] == Ios(rest);
        if next.value == Read {
          service.HandleListenerEvent(env.accepted);
        }
        left := rest;
      }
    }

    /** One event of the batch; returns the descriptor to be unregistered, and whether it was the waker. */
    method HandleEvent(event: Event, env: EventEnv, ghost closing: seq<Fd>, awoken: bool)
      returns (closed: seq<Fd>, woken: bool)
      requires System.HandleEvent(Observed(closing, awoken), event, env).Go?
      modifies this`listeners, this`transports, service
      ensures Go(Observed(closing + closed, woken)) == System.HandleEvent(old(Observed(closing, awoken)), event, env)
    {
      closed, woken := [], awoken;
      assert closing + [] == closing;
      if event.fd == waker {
        woken := true;
      } else if event.fd in listenerMap {
        var id := listenerMap[event.fd];
        match event.res
        case Ok(io) =>
          assert id in listeners;  // "resource disappeared"
          HandleListenerIos(io, env);
        case Err(Connectivity(_)) =>
          assert id in listeners;  // "resource disappeared"
          var listener := listeners[id];
          listeners := listeners - {id};
          closed := [listener.fd];
          service.HandleError(ListenerDisconnect(id, listener));
        case Err(Os(_)) =>
          service.HandleError(ListenerPollError(id));
      } else {
        assert event.fd in transportMap;  // "not a known waker, listener or transport"
        var id := transportMap[event.fd];
        match event.res
        case Ok(io) =>
          assert id in transports;  // "resource disappeared"
          HandleTransportIos(id, io, env, closing, awoken);
        case Err(Connectivity(_)) =>
          assert id in transports;  // "resource disappeared"
          var transport := transports[id];
          transports := transports - {id};
          closed := [transport.fd];
          service.HandleError(TransportDisconnect(id, transport));
        case Err(Os(_)) =>
          service.HandleError(TransportPollError(id));
      }
    }

    method HandleEvents(envs: seq<EventEnv>) returns (awoken: bool)
      requires |poller.events| == |envs|
      requires System.HandleEvents(Observed([], false), poller.events, envs).Go?
      modifies this`listeners, this`transports, service, poller
      ensures poller.events == []
      ensures Go(Observed([], awoken)) == System.HandleEvents(old(Observed([], false)), old(poller.events), envs)
    {
      ghost var goal := System.HandleEvents(Observed([], false), poller.events, envs);
      ghost var events := poller.events;
      awoken := false;
      var unregisterQueue: seq<Fd> := [];
      var i := 0;
      assert envs[i..] == envs;
      while poller.events != []
        invariant 0 <= i <= |events| && poller.events == events[i..]
        invariant System.HandleEvents(Observed(unregisterQueue, awoken), events[i..], envs[i..]) == goal
        decreases |events| - i
      {
        assert envs[i..][1..] == envs[i + 1..] && events[i..][1..] == events[i + 1..];
        var event := poller.Next();
        var closed;
        closed, awoken := HandleEvent(event.value, envs[i], unregisterQueue, awoken);
        unregisterQueue := unregisterQueue + closed;
        i := i + 1;
      }
      CloseAll(unregisterQueue);
    }

    method CloseAll(fds: seq<Fd>)
      modifies poller`masks
      ensures Snapshot() == Close(old(Snapshot()), fds)
    {
      ghost var before := Snapshot();
      for i := 0 to |fds|
        invariant poller.masks == Close(before, fds[..i]).masks
      {
        poller.Unregister(fds[i]);
        assert fds[..i + 1] == fds[..i] + [fds[i]];
      }
      assert fds[..|fds|] == fds;
    }

    /** Applies the registrations found on the control channel, which cannot fail. */
    method RegisterAll(registrations: seq<Action>, time: Duration, ghost awoken: bool)
      requires timeouts.Valid()
      requires ApplyRegistrations(Observed([], awoken), registrations).Go?
      modifies this, poller`masks, timeouts
      ensures timeouts.Valid() && timeouts.timeouts == old(timeouts.timeouts)
      ensures Go(Observed([], awoken)) == ApplyRegistrations(old(Observed([], awoken)), registrations)
    {
      ghost var goal := ApplyRegistrations(Observed([], awoken), registrations);
      var i := 0;
      assert registrations[i..] == registrations;
      while i < |registrations|
        invariant 0 <= i <= |registrations|
        invariant timeouts.Valid() && timeouts.timeouts == old(timeouts.timeouts)
        invariant ApplyRegistrations(Observed([], awoken), registrations[i..]) == goal
        invariant service.View() == old(service.View())
      {
        assert registrations[i..][1..] == registrations[i + 1..];
        var res := HandleAction(registrations[i], time, SendEnv(Ok(0), Ok(0)));
        assert res.Ok?;  // "register actions do not error"
        i := i + 1;
      }
    }

    /** One pass of the main loop. Answers the poll timeout: the least wait of any pending timer, or an
        hour if there is none. No timer is removed, and those are set which the queued actions ask for,
        counted from `now`. */
    method Turn(env: TurnEnv, waited: Waited, beforePoll: Duration, now: Duration, ghost awoken: bool)
      returns (timeout: Duration, ghost awoken': bool)
      requires timeouts.Valid() && poller.events == [] && Coherent(Snapshot())
      requires |env.events| == |env.envs|
      requires env.events == if waited.Ready? then EventsOf(waited.fired) else []
      requires System.Turn(Observed([], awoken), env).Go?
      modifies this, poller, timeouts, service
      ensures timeouts.Valid() && poller.events == []
      ensures Go(Observed([], awoken')) == System.Turn(old(Observed([], awoken)), env)
      ensures IsLeastWait(old(timeouts.timeouts), beforePoll, WAIT_TIMEOUT, timeout)
      ensures env.events == [] ==> timeouts.timeouts == old(timeouts.timeouts)
      ensures var polled := old(Observed([], false)).(reg := ReactorSpec.SetInterests(old(Snapshot())));
              env.events != [] ==>
                && System.HandleEvents(polled, env.events, env.envs).Go?
                && TimersServed(old(timeouts.timeouts),
                                System.HandleEvents(polled, env.events, env.envs).w.server.queue, [], now,
                                timeouts.threshold, timeouts.timeouts)
    {
      var wait := timeouts.Next(beforePoll);
      timeout := if wait.Some? then wait.value else WAIT_TIMEOUT;
      SetInterests();
      var count := poller.Poll(waited);
      assert poller.events == env.events;
      awoken' := false;
      match count
      case Err(kind) =>
        service.HandleError(PollFailure(kind));
      case Ok(n) =>
        if n > 0 {
          awoken' := HandleBatch(env, now);
        }
    }

    /** What the loop does with the events of one poll. */
    method HandleBatch(env: TurnEnv, now: Duration) returns (ghost awoken: bool)
      requires timeouts.Valid()
      requires poller.events == env.events && |env.events| == |env.envs|
      requires System.HandleBatch(Observed([], false), env).Go?
      modifies this, poller, timeouts, service
      ensures timeouts.Valid() && poller.events == []
      ensures Go(Observed([], awoken)) == System.HandleBatch(old(Observed([], false)), env)
      ensures var handled := System.HandleEvents(old(Observed([], false)), env.events, env.envs);
              && handled.Go?
              && TimersServed(old(timeouts.timeouts), handled.w.server.queue, [], now, timeouts.threshold,
                              timeouts.timeouts)
    {
      var woken := HandleEvents(env.envs);
      awoken := woken;
      AllAreRegistered(Observed([], woken), if woken then env.registrations else []);
      if woken {
        RegisterAll(env.registrations, now, woken);
      }
      var _ := HandleActions(now, env.sends, woken);
    }
  }

  /** The longest a poll blocks: an hour. */
  const WAIT_TIMEOUT: Duration := 60 * 60 * 1_000_000_000

  /** What the clock and the poller do around one turn. */
  datatype Poll = Poll(env: TurnEnv, waited: Waited, beforePoll: Duration, now: Duration)

  /** The main loop over any script of polls which does not end in a panic; `SystemRuns.ServerRun` says
      which do. None of the lookups on the way panics. `waits` are the timeouts of the polls, `pending`
      the timers before each of them, and at the end. As the loop removes no timer, each poll after one
      has become due returns at once. */
  method RunLoop(runtime: Runtime, polls: seq<Poll>, listener: Listener)
    returns (waits: seq<Duration>, ghost pending: seq<seq<Timer<()>>>, ghost awoken: bool)
    requires runtime.Snapshot() == Empty(runtime.waker)
    requires runtime.service.View() == NewServer([RegisterListener(listener)])
    requires runtime.timeouts.Valid() && runtime.poller.events == []
    requires AllAnswered(TurnsOf(polls))
    requires forall i | 0 <= i < |polls| ::
               polls[i].env.events == if polls[i].waited.Ready? then EventsOf(polls[i].waited.fired) else []
    requires RunTurns(Start(runtime.waker, listener), TurnsOf(polls)).Go?
    modifies runtime, runtime.poller, runtime.timeouts, runtime.service
    ensures Go(runtime.Observed([], awoken)) == RunTurns(Start(runtime.waker, listener), TurnsOf(polls))
    ensures Coherent(runtime.Snapshot()) && NoneDead(runtime.Snapshot())
    ensures Paced(pending, polls, waits)
    ensures pending[0] == old(runtime.timeouts.timeouts) && pending[|polls|] == runtime.timeouts.timeouts
    ensures forall timer, i, j | 0 <= i <= j < |polls| && timer in pending[i] && timer.at <= polls[j].beforePoll ::
              waits[j] == 0
  {
    awoken, waits, pending := false, [], [runtime.timeouts.timeouts];
    EmptyIsCoherent(runtime.waker);
    ghost var goal := RunTurns(Start(runtime.waker, listener), TurnsOf(polls));
    var i := 0;
    assert polls[i..] == polls;
    while i < |polls|
      invariant 0 <= i <= |polls|
      invariant runtime.timeouts.Valid() && runtime.poller.events == []
      invariant AtPoll(runtime.Observed([], awoken)) && AllAnswered(TurnsOf(polls[i..]))
      invariant RunTurns(runtime.Observed([], awoken), TurnsOf(polls[i..])) == goal
      invariant Paced(pending, polls[..i], waits)
      invariant pending[0] == old(runtime.timeouts.timeouts) && pending[i] == runtime.timeouts.timeouts
    {
      FirstTurn(runtime.Observed([], awoken), polls[i..]);
      assert polls[i..][1..] == polls[i + 1..];
      var timeout;
      timeout, awoken := runtime.Turn(polls[i].env, polls[i].waited, polls[i].beforePoll, polls[i].now, awoken);
      PacedSnoc(pending, polls, i, waits, timeout, runtime.timeouts.timeouts);
      waits, pending := waits + [timeout], pending + [runtime.timeouts.timeouts];
      i := i + 1;
    }
    assert polls[..i] == polls;
    DueIsPolledAtOnce(pending, polls, waits);
  }

  /** Each poll has the timeout which the timers before it ask for, and no timer is removed. */
  ghost predicate Paced(pending: seq<seq<Timer<()>>>, polls: seq<Poll>, waits: seq<Duration>)
  {
    && |waits| == |polls| && |pending| == |polls| + 1
    && (forall i | 0 <= i < |polls| :: IsLeastWait(pending[i], polls[i].beforePoll, WAIT_TIMEOUT, waits[i]))
    && forall i, j | 0 <= i <= j <= |polls| :: StillPending(pending[i], pending[j])
  }

  lemma PacedSnoc(pending: seq<seq<Timer<()>>>, polls: seq<Poll>, n: nat, waits: seq<Duration>,
                  wait: Duration, next: seq<Timer<()>>)
    requires n < |polls| && Paced(pending, polls[..n], waits)
    requires IsLeastWait(pending[n], polls[n].beforePoll, WAIT_TIMEOUT, wait) && StillPending(pending[n], next)
    ensures Paced(pending + [next], polls[..n + 1], waits + [wait])
    ensures (pending + [next])[0] == pending[0] && (pending + [next])[n + 1] == next
  {
    forall i, j | 0 <= i <= j <= n + 1
      ensures StillPending((pending + [next])[i], (pending + [next])[j])
    {
      if i <= n < j {
        assert StillPending(pending[i], pending[n]);
      }
    }
  }

  lemma DueIsPolledAtOnce(pending: seq<seq<Timer<()>>>, polls: seq<Poll>, waits: seq<Duration>)
    requires Paced(pending, polls, waits)
    ensures forall timer, i, j | 0 <= i <= j < |polls| && timer in pending[i] && timer.at <= polls[j].beforePoll ::
              waits[j] == 0
  {
    forall timer, i, j | 0 <= i <= j < |polls| && timer in pending[i] && timer.at <= polls[j].beforePoll
      ensures waits[j] == 0
    {
      assert StillPending(pending[i], pending[j]);
      assert timer in pending[j];
    }
  }

  lemma FirstTurn(w: World, polls: seq<Poll>)
    requires polls != [] && AtPoll(w) && AllAnswered(TurnsOf(polls))
    requires RunTurns(w, TurnsOf(polls)).Go?
    ensures Answered(polls[0].env) && Turn(w, polls[0].env).Go?
    ensures var next := Turn(w, polls[0].env).w;
            && AtPoll(next) && AllAnswered(TurnsOf(polls[1..]))
            && RunTurns(w, TurnsOf(polls)) == RunTurns(next, TurnsOf(polls[1..]))
  {
    assert TurnsOf(polls)[0] == polls[0].env;
    assert TurnsOf(polls)[1..] == TurnsOf(polls[1..]);
    TurnKeeps(w, polls[0].env);
  }

  ghost function TurnsOf(polls: seq<Poll>): (turns: seq<TurnEnv>)
    ensures |turns| == |polls|
    ensures forall i | 0 <= i < |polls| :: turns[i] == polls[i].env
  {
    seq(|polls|, i requires 0 <= i < |polls| => polls[i].env)
  }
}

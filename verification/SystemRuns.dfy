/** Whole runs of the nsh server in the reactor: what they keep, when they end in the panic the server
    raises itself, and runs which reach the places where the program does less than expected. */
module SystemRuns {
  import opened Base
  import opened Polling
  import opened TransportSpec
  import opened ReactorSpec
  import opened ServerSpec
  import opened SystemSpec

  // ---------------------------------------------------------------- When the action loop loses a listener

  /** Some `UnregisterListener` on the queue is for a listener which is registered by then. */
  predicate Loses(queue: seq<Action>, listeners: set<ListenerId>)
  {
    queue != [] &&
    match queue[0]
    case UnregisterListener(id) => id in listeners || Loses(queue[1..], listeners)
    case RegisterListener(l) => Loses(queue[1..], listeners + {l.id})
    case _ => Loses(queue[1..], listeners)
  }

  lemma {:induction false} LosesSnoc(queue: seq<Action>, listeners: set<ListenerId>, id: TransportId)
    ensures Loses(queue + [UnregisterTransport(id)], listeners) == Loses(queue, listeners)
  {
    var all := queue + [UnregisterTransport(id)];
    if queue == [] {
      assert all[1..] == [];
    } else {
      assert all[1..] == queue[1..] + [UnregisterTransport(id)];
      LosesSnoc(queue[1..], if queue[0].RegisterListener? then listeners + {queue[0].listener.id} else listeners, id);
    }
  }

  /** One round takes the head of the queue into account, and reactions to errors change nothing about
      listeners. */
  lemma NextKeepsLoss(w: World, env: SendEnv)
    requires Settling(w) && w.server.queue != [] && HandleNext(w, env).Go?
    ensures var next := HandleNext(w, env).w;
            Loses(w.server.queue, w.reg.listeners.Keys) == Loses(next.server.queue, next.reg.listeners.Keys)
  {
    WhenListenerIsLost(w, env);
    var rest := w.server.queue[1..];
    var applied := Apply(w.reg, w.server.queue[0], env);
    if applied.res.Err? && applied.res.error.WriteFailure? {
      LosesSnoc(rest, w.reg.listeners.Keys, applied.res.error.id);
    }
    if w.server.queue[0].RegisterListener? {
      assert applied.reg.listeners.Keys == w.reg.listeners.Keys + {w.server.queue[0].listener.id};
    }
  }

  /** For every queue: as far as the environment keeps to what it can do, the action loop ends in the
      server's own panic if and only if the queue loses a listener. */
  lemma {:induction false} WhenActionsLoseListener(w: World, sends: nat -> SendEnv, n: nat)
    requires Settling(w)
    ensures var out := HandleActions(w, sends, n);
            !out.Excluded? ==> (out.ListenerLost? <==> Loses(w.server.queue, w.reg.listeners.Keys))
    decreases QueueWeight(w.server.queue)
  {
    HandleActionsKeep(w, sends, n);
    if w.server.queue != [] {
      HandleNextKeeps(w, sends(n));
      WhenListenerIsLost(w, sends(n));
      var out := HandleNext(w, sends(n));
      if out.Go? {
        HandleNextLightens(w, sends(n));
        NextKeepsLoss(w, sends(n));
        WhenActionsLoseListener(out.w, sends, n + 1);
      }
    }
  }

  // ---------------------------------------------------------------- When a turn loses a listener

  /** None of these actions unregisters a listener, or registers one under an id in use at the poll. */
  predicate Considerate(inUse: set<ListenerId>, actions: seq<Action>)
  {
    forall action | action in actions ::
      !action.UnregisterListener? && (action.RegisterListener? ==> action.listener.id !in inUse)
  }

  predicate ConsiderateEnv(inUse: set<ListenerId>, env: EventEnv)
  {
    Considerate(inUse, env.onWrite) && Considerate(inUse, env.onRead)
  }

  /** Neither the delegate nor a controller asks for more; what is queued when the loop polls is the
      registration of the first listener at most. */
  predicate ConsiderateTurn(w: World, turn: TurnEnv)
  {
    var inUse := w.reg.listeners.Keys;
    && Considerate(inUse, w.server.queue) && Considerate(inUse, turn.registrations)
    && forall env | env in turn.envs :: ConsiderateEnv(inUse, env)
  }

  /** An error other than a hang-up on the descriptor of a live listener. */
  predicate Faulty(reg: Registry, event: Event)
  {
    event.fd != reg.waker && LiveListener(reg, event.fd) && event.res.Err? && event.res.error.Os?
  }

  predicate AnyFaulty(reg: Registry, events: seq<Event>)
  {
    exists event | event in events :: Faulty(reg, event)
  }

  /** A live listener is up for removal. */
  predicate Doomed(reg: Registry, queue: seq<Action>)
  {
    exists id | id in reg.listeners :: UnregisterListener(id) in queue
  }

  /** What the queue says about listeners: only such as were in use at the poll are to be unregistered,
      and only under other ids new ones registered. */
  predicate Marked(inUse: set<ListenerId>, queue: seq<Action>)
  {
    forall action | action in queue ::
      && (action.UnregisterListener? ==> action.listenerId in inUse)
      && (action.RegisterListener? ==> action.listener.id !in inUse)
  }

  /** No event to come is for a listener which is up for removal. */
  predicate Spared(reg: Registry, queue: seq<Action>, events: seq<Event>)
  {
    forall id, event | id in reg.listeners && UnregisterListener(id) in queue && event in events ::
      event.fd != reg.listeners[id].fd
  }

  lemma {:induction false} MarkedLoses(inUse: set<ListenerId>, queue: seq<Action>, listeners: set<ListenerId>)
    requires Marked(inUse, queue)
    ensures Loses(queue, listeners) <==> exists id | id in listeners :: UnregisterListener(id) in queue
  {
    if queue != [] {
      var head, rest := queue[0], queue[1..];
      assert queue == [head] + rest && head in queue;
      var next := if head.RegisterListener? then listeners + {head.listener.id} else listeners;
      MarkedLoses(inUse, rest, next);
      if head.UnregisterListener? && head.listenerId in listeners {
        assert UnregisterListener(head.listenerId) in queue;
      } else {
        assert forall id | id in next ::
            UnregisterListener(id) in rest ==> id in listeners && UnregisterListener(id) in queue;
        assert forall id | id in listeners ::
            UnregisterListener(id) in queue ==> id in next && UnregisterListener(id) in rest;
      }
    }
  }

  lemma TransportEventAdds(server: Server, id: TransportId, event: SessionEvent<PeerKey>, delegated: seq<Action>,
                           inUse: set<ListenerId>)
    requires Considerate(inUse, delegated)
    ensures var out := OnTransportEvent(server, id, event, delegated);
            server.queue <= out.queue && Considerate(inUse, out.queue[|server.queue|..])
  {
    var out := OnTransportEvent(server, id, event, delegated);
    var added := out.queue[|server.queue|..];
    match event {
      case Established(_) =>
        assert added == delegated + Sends(id, OutboxOf(server, id));
      case Data(_) =>
        assert added == delegated;
      case Terminated(_) =>
        assert added == [UnregisterTransport(id)];
    }
  }

  /** I/O on a transport adds nothing to the queue but what the delegate asks for, sends and removals
      of transports. */
  lemma TransportIoAdds(w: World, id: TransportId, io: Io, env: EventEnv, inUse: set<ListenerId>)
    requires id in w.reg.transports && ConsiderateEnv(inUse, env)
    ensures var out := TransportIo(w, id, io, env);
            out.Go? ==>
              && w.server.queue <= out.w.server.queue
              && Considerate(inUse, out.w.server.queue[|w.server.queue|..])
              && SameListeners(w.reg, out.w.reg) && id in out.w.reg.transports
  {
    if TransportIo(w, id, io, env).Go? {
      var event := HandleIo(w.reg.transports[id].net, CallOf(io, env)).1;
      if event.Some? {
        TransportEventAdds(w.server, id, event.value, if io == Read then env.onRead else env.onWrite, inUse);
      }
    }
  }

  predicate SameListeners(before: Registry, after: Registry)
  {
    after.listeners == before.listeners && after.listenerMap == before.listenerMap && after.waker == before.waker
  }

  lemma {:induction false} TransportIosAdd(w: World, id: TransportId, ios: seq<Io>, env: EventEnv,
                                           inUse: set<ListenerId>)
    requires id in w.reg.transports && ConsiderateEnv(inUse, env)
    ensures var out := TransportIos(w, id, ios, env);
            out.Go? ==>
              && w.server.queue <= out.w.server.queue
              && Considerate(inUse, out.w.server.queue[|w.server.queue|..])
              && SameListeners(w.reg, out.w.reg)
    decreases |ios|
  {
    if ios != [] {
      TransportIoAdds(w, id, ios[0], env, inUse);
      var first := TransportIo(w, id, ios[0], env);
      if first.Go? {
        TransportIosAdd(first.w, id, ios[1..], env, inUse);
        var out := TransportIos(first.w, id, ios[1..], env);
        if out.Go? {
          assert out.w.server.queue[|w.server.queue|..]
              == first.w.server.queue[|w.server.queue|..] + out.w.server.queue[|first.w.server.queue|..];
        }
      }
    }
  }

  lemma {:induction false} ListenerIosAdd(server: Server, ios: seq<Io>, env: EventEnv, inUse: set<ListenerId>)
    ensures var out := ListenerIos(server, ios, env);
            server.queue <= out.queue && Considerate(inUse, out.queue[|server.queue|..])
    decreases |ios|
  {
    if ios != [] {
      var next := if ios[0] == Read then OnListenerEvent(server, env.accepted) else server;
      ListenerIosAdd(next, ios[1..], env, inUse);
      var out := ListenerIos(next, ios[1..], env);
      assert out.queue[|server.queue|..] == next.queue[|server.queue|..] + out.queue[|next.queue|..];
    }
  }

  /** What an event adds to the queue: an `UnregisterListener` for the listener it is for, if it is an
      error, and else nothing about listeners in use. */
  lemma EventAdds(w: World, events: seq<Event>, env: EventEnv, inUse: set<ListenerId>)
    requires InBatch(w, events) && events != []
    requires events[0].fd == w.reg.waker ==> events[0].res.Ok?
    requires ConsiderateEnv(inUse, env)
    ensures var out := HandleEvent(w, events[0], env);
            out.Go? ==>
              && w.server.queue <= out.w.server.queue
              && var added := out.w.server.queue[|w.server.queue|..];
                 var fd := events[0].fd;
                 if fd != w.reg.waker && LiveListener(w.reg, fd) && events[0].res.Err? then
                   var id := w.reg.listenerMap[fd];
                   && added == [UnregisterListener(id)]
                   && SameListeners(if Faulty(w.reg, events[0]) then w.reg
                                    else w.reg.(listeners := w.reg.listeners - {id}), out.w.reg)
                 else Considerate(inUse, added) && SameListeners(w.reg, out.w.reg)
  {
    assert events[0] in events;
    var route := RouteOf(w.reg, events[0]);
    match route {
      case ToListener(_, io) => ListenerIosAdd(w.server, Ios(io), env, inUse);
      case ToTransport(id, io) => TransportIosAdd(w, id, Ios(io), env, inUse);
      case _ =>
    }
  }

  /** The bookkeeping of one event: a listener is doomed by it exactly if the event is faulty. */
  lemma EventDooms(w: World, events: seq<Event>, env: EventEnv, inUse: set<ListenerId>)
    requires InBatch(w, events) && events != []
    requires events[0].fd == w.reg.waker ==> events[0].res.Ok?
    requires ConsiderateEnv(inUse, env) && w.reg.listeners.Keys <= inUse
    requires Marked(inUse, w.server.queue) && Spared(w.reg, w.server.queue, events)
    ensures var out := HandleEvent(w, events[0], env);
            out.Go? ==>
              && out.w.reg.listeners.Keys <= inUse
              && Marked(inUse, out.w.server.queue) && Spared(out.w.reg, out.w.server.queue, events[1..])
              && (Doomed(out.w.reg, out.w.server.queue) <==>
                    Doomed(w.reg, w.server.queue) || Faulty(w.reg, events[0]))
  {
    EventAdds(w, events, env, inUse);
    var out := HandleEvent(w, events[0], env);
    if out.Go? {
      var queue, added := out.w.server.queue, out.w.server.queue[|w.server.queue|..];
      assert queue == w.server.queue + added;
      assert forall action :: action in queue <==> action in w.server.queue || action in added;
      assert events[0] in events;
      forall id, event | id in out.w.reg.listeners && UnregisterListener(id) in queue && event in events[1..]
        ensures event.fd != out.w.reg.listeners[id].fd
      {
        var i :| 1 <= i < |events| && events[i] == event;
        assert events[0].fd != events[i].fd && event in events;
      }
      if Faulty(w.reg, events[0]) {
        assert UnregisterListener(w.reg.listenerMap[events[0].fd]) in queue;
      }
      DoomedGrows(w, out.w, added, events[0]);
    }
  }

  lemma DoomedGrows(w: World, next: World, added: seq<Action>, event: Event)
    requires Indexed(w.reg) && next.server.queue == w.server.queue + added
    requires Spared(w.reg, w.server.queue, [event])
    requires if event.fd != w.reg.waker && LiveListener(w.reg, event.fd) && event.res.Err? then
               var id := w.reg.listenerMap[event.fd];
               && added == [UnregisterListener(id)]
               && next.reg.listeners == (if Faulty(w.reg, event) then w.reg.listeners else w.reg.listeners - {id})
             else Considerate(w.reg.listeners.Keys, added) && next.reg.listeners == w.reg.listeners
    ensures Doomed(next.reg, next.server.queue) <==> Doomed(w.reg, w.server.queue) || Faulty(w.reg, event)
  {
    assert event in [event];
    if Doomed(w.reg, w.server.queue) {
      var id :| id in w.reg.listeners && UnregisterListener(id) in w.server.queue;
      assert id in next.reg.listeners && UnregisterListener(id) in next.server.queue;
    }
    if Faulty(w.reg, event) {
      var id := w.reg.listenerMap[event.fd];
      assert UnregisterListener(id) in added;
      assert id in next.reg.listeners && UnregisterListener(id) in next.server.queue;
    }
  }

  /** Whether later events are faulty does not change with this one. */
  lemma FaultyAhead(w: World, events: seq<Event>, env: EventEnv, inUse: set<ListenerId>)
    requires InBatch(w, events) && events != []
    requires events[0].fd == w.reg.waker ==> events[0].res.Ok?
    requires ConsiderateEnv(inUse, env) && HandleEvent(w, events[0], env).Go?
    ensures var next := HandleEvent(w, events[0], env).w.reg;
            AnyFaulty(w.reg, events) <==> Faulty(w.reg, events[0]) || AnyFaulty(next, events[1..])
  {
    EventAdds(w, events, env, inUse);
    var next := HandleEvent(w, events[0], env).w.reg;
    assert events[0] in events;
    forall event | event in events[1..]
      ensures event in events && (Faulty(next, event) <==> Faulty(w.reg, event))
    {
      var i :| 1 <= i < |events| && events[i] == event;
      assert events[0].fd != events[i].fd && event in events;
    }
    assert forall event | event in events :: event == events[0] || event in events[1..];
  }

  /** At the end of a batch a live listener is up for removal if and only if some event was faulty. */
  lemma {:induction false} BatchDooms(w: World, events: seq<Event>, envs: seq<EventEnv>, inUse: set<ListenerId>)
    requires |events| == |envs| && InBatch(w, events)
    requires forall event | event in events :: event.fd == w.reg.waker ==> event.res.Ok?
    requires forall env | env in envs :: ConsiderateEnv(inUse, env)
    requires w.reg.listeners.Keys <= inUse
    requires Marked(inUse, w.server.queue) && Spared(w.reg, w.server.queue, events)
    ensures var out := HandleEvents(w, events, envs);
            out.Go? ==>
              && out.w.reg.listeners.Keys <= inUse && Marked(inUse, out.w.server.queue)
              && (Doomed(out.w.reg, out.w.server.queue) <==>
                    Doomed(w.reg, w.server.queue) || AnyFaulty(w.reg, events))
    decreases |events|
  {
    if events != [] {
      assert events[0] in events && envs[0] in envs;
      HandleEventKeeps(w, events, envs[0]);
      EventDooms(w, events, envs[0], inUse);
      var out := HandleEvent(w, events[0], envs[0]);
      if out.Go? {
        FaultyAhead(w, events, envs[0], inUse);
        BatchDooms(out.w, events[1..], envs[1..], inUse);
      }
    }
  }

  /** Registering listeners under new ids dooms none and saves none. */
  lemma {:induction false} RegistrationsDoomNone(w: World, registrations: seq<Action>, inUse: set<ListenerId>)
    requires Marked(inUse, w.server.queue) && Considerate(inUse, registrations)
    ensures var out := ApplyRegistrations(w, registrations);
            out.Go? ==>
              && out.w.server == w.server
              && (Doomed(out.w.reg, w.server.queue) <==> Doomed(w.reg, w.server.queue))
    decreases |registrations|
  {
    if registrations != [] && ApplyRegistrations(w, registrations).Go? {
      var action := registrations[0];
      assert action in registrations;
      var reg := Apply(w.reg, action, SendEnv(Ok(0), Ok(0))).reg;
      if action.RegisterListener? {
        assert forall id | id in reg.listeners :: id == action.listener.id || id in w.reg.listeners;
        assert UnregisterListener(action.listener.id) !in w.server.queue;
        assert forall id | id in w.reg.listeners :: id in reg.listeners;
      }
      RegistrationsDoomNone(w.(reg := reg), registrations[1..], inUse);
    }
  }

  /** For a considerate delegate and controllers: as far as the environment keeps to what it can do and
      the debug assertion is not hit before, a turn ends in the server's own panic if and only if the
      poll reports an error other than a hang-up on a live listener. */
  lemma WhenTurnLosesListener(w: World, turn: TurnEnv)
    requires AtPoll(w) && Answered(turn) && ConsiderateTurn(w, turn)
    ensures var out := Turn(w, turn);
            !out.Excluded? && !out.Panicked? ==> (out.ListenerLost? <==> AnyFaulty(w.reg, turn.events))
  {
    InterestsKeepCoherence(w.reg);
    var polled := w.(reg := SetInterests(w.reg), awoken := false);
    var inUse := w.reg.listeners.Keys;
    PolledStaysTended(w);
    if turn.events != [] && PossibleBatch(polled.reg, turn.events) {
      assert MidBatch(polled.reg, [], turn.events);
      HandleEventsKeep(polled, turn.events, turn.envs);
      BatchDooms(polled, turn.events, turn.envs, inUse);
      assert AnyFaulty(polled.reg, turn.events) <==> AnyFaulty(w.reg, turn.events) by {
        assert forall event :: Faulty(polled.reg, event) <==> Faulty(w.reg, event);
      }
      assert !Doomed(polled.reg, polled.server.queue);
      var handled := HandleEvents(polled, turn.events, turn.envs);
      if handled.Go? {
        HandledTurn(handled.w, turn, inUse);
      }
    }
  }

  lemma HandledTurn(w: World, turn: TurnEnv, inUse: set<ListenerId>)
    requires Settling(w) && Marked(inUse, w.server.queue) && Considerate(inUse, turn.registrations)
    ensures var registered := ApplyRegistrations(w, if w.awoken then turn.registrations else []);
            && !registered.ListenerLost? && !registered.Panicked?
            && (registered.Go? ==>
                  var out := HandleActions(registered.w, turn.sends, 0);
                  && !out.Panicked?
                  && (!out.Excluded? ==> (out.ListenerLost? <==> Doomed(w.reg, w.server.queue))))
  {
    var registrations := if w.awoken then turn.registrations else [];
    RegisterKeeps(w, registrations);
    RegistrationsDoomNone(w, registrations, inUse);
    var registered := ApplyRegistrations(w, registrations);
    if registered.Go? {
      HandleActionsKeep(registered.w, turn.sends, 0);
      WhenActionsLoseListener(registered.w, turn.sends, 0);
      MarkedLoses(inUse, registered.w.server.queue, registered.w.reg.listeners.Keys);
    }
  }

  // ---------------------------------------------------------------- Whole runs

  /** Delegate and controllers are considerate in every turn that is reached. */
  predicate ConsiderateRun(w: World, turns: seq<TurnEnv>)
    requires AllAnswered(turns)
    decreases |turns|
  {
    turns != [] ==>
      ConsiderateTurn(w, turns[0]) && (Turn(w, turns[0]).Go? ==> ConsiderateRun(Turn(w, turns[0]).w, turns[1..]))
  }

  /** In some turn that is reached, the poll reports an error other than a hang-up on a live listener. */
  predicate FaultIsMet(w: World, turns: seq<TurnEnv>)
    requires AllAnswered(turns)
    decreases |turns|
  {
    turns != [] &&
      (AnyFaulty(w.reg, turns[0].events) || (Turn(w, turns[0]).Go? && FaultIsMet(Turn(w, turns[0]).w, turns[1..])))
  }

  lemma {:induction false} WhenRunLosesListener(w: World, turns: seq<TurnEnv>)
    requires AtPoll(w) && AllAnswered(turns) && ConsiderateRun(w, turns)
    ensures var out := RunTurns(w, turns);
            !out.Excluded? && !out.Panicked? ==> (out.ListenerLost? <==> FaultIsMet(w, turns))
    decreases |turns|
  {
    if turns != [] {
      TurnKeeps(w, turns[0]);
      WhenTurnLosesListener(w, turns[0]);
      var out := Turn(w, turns[0]);
      if out.Go? {
        WhenRunLosesListener(out.w, turns[1..]);
      }
    }
  }

  /** What holds whenever the loop polls: no transport is dead, no ready one has messages waiting in the
      outbox, each agrees with its session; nothing but the waker and the live resources is polled, and
      every live resource's mask is what the resource asks for, whatever it was before. */
  ghost predicate WellAtPoll(w: World)
  {
    var reg := SetInterests(w.reg);
    && NoneDead(reg) && NoneHeldBack(w) && AllAgree(reg)
    && (forall fd | fd in reg.masks :: fd == reg.waker || LiveListener(reg, fd) || LiveTransport(reg, fd))
    && (forall id | id in reg.listeners ::
          reg.listeners[id].fd in reg.masks && reg.masks[reg.listeners[id].fd] == READ_ONLY)
    && (forall id | id in reg.transports ::
          reg.transports[id].fd in reg.masks
          && reg.masks[reg.transports[id].fd] == Interests(reg.transports[id].net))
  }

  /** Every run of the server in the reactor. Whenever the loop polls, all is well. No lookup panics, nor
      does any debug assertion but that on I/O on a terminated transport, which ends a run if and only if
      an event is met which is both writable and readable and whose flush of an established session fails
      for good. The server's own panic, on being handed a listener, ends a run with a considerate delegate
      and controllers if and only if an error other than a hang-up is met on a live listener. */
  lemma ServerRun(waker: Fd, listener: Listener, turns: seq<TurnEnv>)
    requires AllAnswered(turns)
    ensures var start := Start(waker, listener);
            var out := RunTurns(start, turns);
            && (out.Go? ==> WellAtPoll(out.w))
            && (!out.Excluded? ==> (out.Panicked? <==> HarshIsMet(start, turns)))
            && (!out.Excluded? && !out.Panicked? && ConsiderateRun(start, turns) ==>
                  (out.ListenerLost? <==> FaultIsMet(start, turns)))
  {
    EmptyIsCoherent(waker);
    var start := Start(waker, listener);
    SystemSpec.RunKeeps(start, turns);
    var out := RunTurns(start, turns);
    if out.Go? {
      InterestsKeepCoherence(out.w.reg);
      assert forall id | id in out.w.reg.transports :: !Dead(out.w.reg, id);
    }
    if ConsiderateRun(start, turns) {
      WhenRunLosesListener(start, turns);
    }
  }

  // ---------------------------------------------------------------- Single turns

  /** A turn with one event which neither wakes the loop nor closes a descriptor. */
  lemma OneEventTurn(w: World, turn: TurnEnv, handled: World)
    requires AtPoll(w) && Answered(turn) && |turn.events| == 1 && turn.events[0].fd in w.reg.masks
    requires turn.events[0].fd == w.reg.waker ==> turn.events[0].res.Ok?
    requires HandleEvent(w.(reg := SetInterests(w.reg), awoken := false), turn.events[0], turn.envs[0]) == Go(handled)
    ensures var done := handled.(reg := Close(handled.reg, handled.closing), closing := []);
            Turn(w, turn) ==
              match ApplyRegistrations(done, if handled.awoken then turn.registrations else [])
              case Go(registered) => HandleActions(registered, turn.sends, 0)
              case other => other
  {
    var polled := w.(reg := SetInterests(w.reg), awoken := false);
    assert PossibleBatch(polled.reg, turn.events);
    assert turn.events[1..] == [] && turn.envs[1..] == [];
    assert HandleEvents(handled, turn.events[1..], turn.envs[1..])
        == Go(handled.(reg := Close(handled.reg, handled.closing), closing := []));
  }

  lemma NothingCloses(reg: Registry)
    ensures Close(reg, []) == reg
  {
    assert Close(reg, []).masks == reg.masks;
  }

  /** The only queued action is handled without queueing another one. */
  lemma OneAction(w: World, sends: nat -> SendEnv)
    requires |w.server.queue| == 1
    requires HandleNext(w, sends(0)).Go? ==> HandleNext(w, sends(0)).w.server.queue == []
    ensures HandleActions(w, sends, 0) == HandleNext(w, sends(0))
  {
    if HandleNext(w, sends(0)).Go? {
      HandleNextLightens(w, sends(0));
      var next := HandleNext(w, sends(0)).w;
      assert HandleActions(next, sends, 1) == Go(next);
    }
  }

  /** The wake-up which ends the launch of a reactor lets the loop take over the listener its service
      has asked for. */
  lemma FirstWakeupRegisters(waker: Fd, listener: Listener, turn: TurnEnv)
    requires listener.fd != waker
    requires turn.events == [Event(waker, Ok(READ_ONLY))] && |turn.envs| == 1 && turn.registrations == []
    ensures var out := Turn(Start(waker, listener), turn);
            && out.Go? && AtPoll(out.w) && out.w.awoken && out.w.server == NewServer([])
            && out.w.reg.listeners == map[listener.id := listener] && LiveListener(out.w.reg, listener.fd)
            && out.w.reg.waker == waker && out.w.reg.transports == map[] && out.w.reg.transportMap == map[]
            && out.w.reg.listenerMap == map[listener.fd := listener.id]
            && out.w.reg.masks == map[waker := READ_ONLY, listener.fd := READ_ONLY]
  {
    var start := Start(waker, listener);
    EmptyIsCoherent(waker);
    TurnKeeps(start, turn);
    var polled := start.(reg := SetInterests(start.reg), awoken := false);
    assert polled.reg.masks == map[waker := READ_ONLY];
    var woken := polled.(awoken := true);
    assert woken.closing + [] == [];
    assert HandleEvent(polled, turn.events[0], turn.envs[0]) == Go(woken);
    OneEventTurn(start, turn, woken);
    NothingCloses(woken.reg);
    OneAction(woken, turn.sends);
  }

  /** A listener accepts a session, and its transport is registered before the next poll. */
  lemma AcceptedIsRegistered(w: World, t: Transport, turn: TurnEnv)
    requires AtPoll(w) && w.server.queue == [] && Registrable(w.reg, RegisterTransport(t))
    requires |turn.events| == 1 && |turn.envs| == 1 && turn.envs[0].accepted == Some(t)
    requires turn.events[0].res == Ok(READ_ONLY) && LiveListener(w.reg, turn.events[0].fd)
    ensures var out := Turn(w, turn);
            && out.Go? && AtPoll(out.w) && out.w.server == w.server
            && out.w.reg.transports == w.reg.transports[t.id := t] && LiveTransport(out.w.reg, t.fd)
            && out.w.reg.transportMap == w.reg.transportMap[t.fd := t.id] && SameListeners(w.reg, out.w.reg)
  {
    var event, env := turn.events[0], turn.envs[0];
    var id := w.reg.listenerMap[event.fd];
    var polled := w.(reg := SetInterests(w.reg), awoken := false);
    TurnKeeps(w, turn);
    assert Ios(READ_ONLY) == [Read] by {
      WriteBeforeRead(READ_ONLY);
    }
    assert ListenerIos(w.server, [Read], env) == OnListenerEvent(w.server, Some(t)) by {
      assert [Read][1..] == [];
    }
    var handled := polled.(server := w.server.(queue := [RegisterTransport(t)]));
    assert w.server.queue + [RegisterTransport(t)] == [RegisterTransport(t)];
    assert polled.closing + [] == polled.closing;
    assert HandleEvent(polled, event, env) == Go(handled);
    OneEventTurn(w, turn, handled);
    NothingCloses(handled.reg);
    OneAction(handled, turn.sends);
  }

  lemma CompletingRead(w: World, id: TransportId, key: PeerKey, env: EventEnv)
    requires id in w.reg.transports && Agrees(w.reg.transports[id].net)
    requires !Dead(w.reg, id) && !w.reg.transports[id].net.session.established
    requires env.read == ReadAnswer(Ok([]), Face(true, Some(key)))
    ensures var before := w.reg.transports[id].net;
            var net := HandleIo(before, OnRead(env.read)).0;
            && net == Net(Active, Face(true, Some(key)), true, before.writeBuffer)
            && TransportIos(w, id, Ios(READ_ONLY), env)
                 == Go(w.(reg := Moved(w.reg, id, net),
                          server := OnTransportEvent(w.server, id, Established(key), env.onRead)))
  {
    WriteBeforeRead(READ_ONLY);
    OneIo(w, id, Read, env);
    assert [] + [Read] == [Read];
  }

  /** A turn in which nothing happens but a read which completes the handshake of a transport. */
  lemma CompletingTurn(w: World, fd: Fd, key: PeerKey, turn: TurnEnv)
    requires AtPoll(w) && LiveTransport(w.reg, fd)
    requires !w.reg.transports[w.reg.transportMap[fd]].net.session.established
    requires turn.events == [Event(fd, Ok(READ_ONLY))] && |turn.envs| == 1
    requires turn.envs[0].read == ReadAnswer(Ok([]), Face(true, Some(key)))
    ensures var id := w.reg.transportMap[fd];
            var net := Net(Active, Face(true, Some(key)), true, w.reg.transports[id].net.writeBuffer);
            var server := OnTransportEvent(w.server, id, Established(key), turn.envs[0].onRead);
            Turn(w, turn) ==
              HandleActions(World(Moved(SetInterests(w.reg), id, net), server, [], false), turn.sends, 0)
  {
    var id := w.reg.transportMap[fd];
    var polled := w.(reg := SetInterests(w.reg), awoken := false);
    assert !Dead(w.reg, id);
    CompletingRead(polled, id, key, turn.envs[0]);
    var handled := TransportIos(polled, id, Ios(READ_ONLY), turn.envs[0]).w;
    assert HandleEvent(polled, turn.events[0], turn.envs[0]) == Go(handled);
    OneEventTurn(w, turn, handled);
    NothingCloses(handled.reg);
  }

  /** A transport becomes Active by a read which completes its handshake. */
  lemma HandshakeCompletes(w: World, fd: Fd, key: PeerKey, turn: TurnEnv)
    requires AtPoll(w) && w.server.queue == [] && LiveTransport(w.reg, fd) && w.reg.transportMap[fd] !in w.server.outbox
    requires !w.reg.transports[w.reg.transportMap[fd]].net.session.established
    requires turn.events == [Event(fd, Ok(READ_ONLY))] && |turn.envs| == 1
    requires turn.envs[0].read == ReadAnswer(Ok([]), Face(true, Some(key))) && turn.envs[0].onRead == []
    ensures var out := Turn(w, turn);
            && out.Go? && AtPoll(out.w) && SameListeners(w.reg, out.w.reg)
            && out.w.server.outbox == w.server.outbox && out.w.server.queue == []
            && out.w.server.heard == w.server.heard + [Heard(w.reg.transportMap[fd], Established(key))]
            && LiveTransport(out.w.reg, fd) && out.w.reg.transportMap == w.reg.transportMap
            && out.w.reg.transports[w.reg.transportMap[fd]].net.session.established
  {
    TurnKeeps(w, turn);
    QuietCompletion(w, fd, key, turn);
  }

  lemma QuietCompletion(w: World, fd: Fd, key: PeerKey, turn: TurnEnv)
    requires AtPoll(w) && w.server.queue == [] && LiveTransport(w.reg, fd) && w.reg.transportMap[fd] !in w.server.outbox
    requires !w.reg.transports[w.reg.transportMap[fd]].net.session.established
    requires turn.events == [Event(fd, Ok(READ_ONLY))] && |turn.envs| == 1
    requires turn.envs[0].read == ReadAnswer(Ok([]), Face(true, Some(key))) && turn.envs[0].onRead == []
    ensures var id := w.reg.transportMap[fd];
            var net := Net(Active, Face(true, Some(key)), true, w.reg.transports[id].net.writeBuffer);
            var server := w.server.(heard := w.server.heard + [Heard(id, Established(key))]);
            Turn(w, turn) == Go(World(Moved(SetInterests(w.reg), id, net), server, [], false))
  {
    var id := w.reg.transportMap[fd];
    CompletingTurn(w, fd, key, turn);
    assert w.server.outbox - {id} == w.server.outbox;
    assert [] + [] + Sends(id, []) == [];
  }

  // ---------------------------------------------------------------- Runs which end badly

  const NO_EVENT_ENV := EventEnv(None, WriteAnswer(Ok(0), Face(false, None)), Ok(()),
                                 ReadAnswer(Ok([]), Face(false, None)), [], [])

  function OneTurn(event: Event, env: EventEnv): TurnEnv
  {
    TurnEnv([event], [env], [], _ => SendEnv(Ok(0), Ok(0)))
  }

  lemma {:induction false} RunTurnsSnoc(w: World, turns: seq<TurnEnv>, last: TurnEnv)
    requires AllAnswered(turns) && Answered(last) && RunTurns(w, turns).Go?
    ensures AllAnswered(turns + [last])
    ensures RunTurns(w, turns + [last]) == Turn(RunTurns(w, turns).w, last)
    decreases |turns|
  {
    var all := turns + [last];
    if turns == [] {
      assert all[1..] == [];
    } else {
      assert all[1..] == turns[1..] + [last];
      RunTurnsSnoc(Turn(w, turns[0]).w, turns[1..], last);
    }
  }

  lemma FirstTurn(waker: Fd, listener: Listener) returns (turns: seq<TurnEnv>)
    requires listener.fd != waker
    ensures turns == [OneTurn(Event(waker, Ok(READ_ONLY)), NO_EVENT_ENV)] && AllAnswered(turns)
    ensures RunTurns(Start(waker, listener), turns) == Turn(Start(waker, listener), turns[0])
  {
    turns := [OneTurn(Event(waker, Ok(READ_ONLY)), NO_EVENT_ENV)];
    assert turns[1..] == [];
  }

  /** A run of two turns: the listener is registered, and a session accepted. */
  lemma AcceptingRun(waker: Fd, listener: Listener, t: Transport) returns (turns: seq<TurnEnv>)
    requires listener.fd != waker && t.fd != waker && t.fd != listener.fd && Fresh(t.net)
    ensures AllAnswered(turns) && |turns| == 2
    ensures var out := RunTurns(Start(waker, listener), turns);
            && out.Go? && AtPoll(out.w) && out.w.server == NewServer([]) && out.w.reg.waker == waker
            && LiveTransport(out.w.reg, t.fd) && out.w.reg.transportMap == map[t.fd := t.id]
            && out.w.reg.transports == map[t.id := t]
            && LiveListener(out.w.reg, listener.fd) && out.w.reg.listenerMap == map[listener.fd := listener.id]
  {
    var start := Start(waker, listener);
    turns := FirstTurn(waker, listener);
    FirstWakeupRegisters(waker, listener, turns[0]);
    var accept := OneTurn(Event(listener.fd, Ok(READ_ONLY)), NO_EVENT_ENV.(accepted := Some(t)));
    AcceptedIsRegistered(RunTurns(start, turns).w, t, accept);
    RunTurnsSnoc(start, turns, accept);
    turns := turns + [accept];
  }

  /** The debug assertion is hit by a run of four turns: the listener is registered, a session accepted,
      its handshake completed, and then its transport both writable and readable while its flush fails. */
  lemma PanicIsReached(waker: Fd, listener: Listener, t: Transport, key: PeerKey) returns (turns: seq<TurnEnv>)
    requires listener.fd != waker && t.fd != waker && t.fd != listener.fd && Fresh(t.net)
    ensures AllAnswered(turns) && |turns| == 4 && RunTurns(Start(waker, listener), turns).Panicked?
  {
    var start := Start(waker, listener);
    turns := AcceptingRun(waker, listener, t);
    var accepted := RunTurns(start, turns).w;
    var complete := OneTurn(Event(t.fd, Ok(READ_ONLY)),
                            NO_EVENT_ENV.(read := ReadAnswer(Ok([]), Face(true, Some(key)))));
    HandshakeCompletes(accepted, t.fd, key, complete);
    RunTurnsSnoc(start, turns, complete);
    turns := turns + [complete];

    var active := Turn(accepted, complete).w;
    var session := active.reg.transports[t.id].net.session;
    var broken := OneTurn(Event(t.fd, Ok(READ_WRITE)),
                          NO_EVENT_ENV.(write := WriteAnswer(Ok(0), session), flush := Err(BrokenPipe)));
    BrokenFlushPanics(active, t.fd, broken);
    RunTurnsSnoc(start, turns, broken);
    turns := turns + [broken];
  }

  lemma BrokenFlushPanics(w: World, fd: Fd, turn: TurnEnv)
    requires AtPoll(w) && LiveTransport(w.reg, fd) && turn.events == [Event(fd, Ok(READ_WRITE))] && |turn.envs| == 1
    requires var session := w.reg.transports[w.reg.transportMap[fd]].net.session;
             session.established && turn.envs[0].write == WriteAnswer(Ok(0), session)
    requires FailsForGood(turn.envs[0].flush)
    ensures Turn(w, turn).Panicked?
  {
    var id := w.reg.transportMap[fd];
    var polled := w.(reg := SetInterests(w.reg), awoken := false);
    PolledStaysTended(w);
    assert !Dead(w.reg, id) && Agrees(w.reg.transports[id].net);
    WhenTransportEventPanics(polled, id, READ_WRITE, turn.envs[0]);
    assert PossibleBatch(polled.reg, turn.events);
    assert HandleEvent(polled, turn.events[0], turn.envs[0]).Panicked?;
  }

  /** The server's own panic is reached by a run of two turns: the listener is registered, and has an
      error which is not a hang-up. */
  lemma ListenerIsLost(waker: Fd, listener: Listener, flags: int) returns (turns: seq<TurnEnv>)
    requires listener.fd != waker
    ensures AllAnswered(turns) && |turns| == 2 && RunTurns(Start(waker, listener), turns).ListenerLost?
  {
    var start := Start(waker, listener);
    turns := FirstTurn(waker, listener);
    FirstWakeupRegisters(waker, listener, turns[0]);
    var w := RunTurns(start, turns).w;
    var fault := OneTurn(Event(listener.fd, Err(Os(flags))), NO_EVENT_ENV);
    var polled := w.(reg := SetInterests(w.reg), awoken := false);
    var handled := polled.(server := NewServer([UnregisterListener(listener.id)]));
    assert [] + [UnregisterListener(listener.id)] == [UnregisterListener(listener.id)];
    assert polled.closing + [] == polled.closing;
    assert HandleEvent(polled, fault.events[0], NO_EVENT_ENV) == Go(handled);
    OneEventTurn(w, fault, handled);
    NothingCloses(handled.reg);
    OneAction(handled, fault.sends);
    RunTurnsSnoc(start, turns, fault);
    turns := turns + [fault];
  }

  /** Nor may controllers be inconsiderate: if a listener hangs up and, within the same turn, another one
      is registered under its id, the removal queued for the old one is applied to the new one. */
  lemma RelisteningIsLost(w: World, fd: Fd, flags: int, l: Listener, turn: TurnEnv)
    requires AtPoll(w) && w.server.queue == [] && LiveListener(w.reg, fd)
    requires l.id == w.reg.listenerMap[fd] && l.fd !in w.reg.masks
    requires turn.events == [Event(fd, Err(Connectivity(flags))), Event(w.reg.waker, Ok(READ_ONLY))]
    requires |turn.envs| == 2 && turn.registrations == [RegisterListener(l)]
    ensures Turn(w, turn).ListenerLost?
  {
    var polled := w.(reg := SetInterests(w.reg), awoken := false);
    var events := turn.events;
    assert PossibleBatch(polled.reg, events);
    var gone := World(polled.reg.(listeners := polled.reg.listeners - {l.id}),
                      w.server.(queue := [UnregisterListener(l.id)]), [fd], false);
    assert w.server.queue + [UnregisterListener(l.id)] == [UnregisterListener(l.id)];
    assert polled.closing + [fd] == [fd] && gone.closing + [] == [fd];
    assert HandleEvent(polled, events[0], turn.envs[0]) == Go(gone);
    var woken := gone.(awoken := true);
    assert HandleEvent(gone, events[1], turn.envs[1]) == Go(woken);
    TwoEvents(polled, events, turn.envs, gone, woken);
    RelistenedIsLost(woken.(reg := Close(woken.reg, [fd]), closing := []), l, turn);
  }

  lemma TwoEvents(w: World, events: seq<Event>, envs: seq<EventEnv>, first: World, second: World)
    requires |events| == |envs| == 2
    requires HandleEvent(w, events[0], envs[0]) == Go(first) && HandleEvent(first, events[1], envs[1]) == Go(second)
    ensures HandleEvents(w, events, envs) == Go(second.(reg := Close(second.reg, second.closing), closing := []))
  {
    assert events[1..] == [events[1]] && envs[1..] == [envs[1]];
    assert HandleEvents(first, events[1..], envs[1..]) == HandleEvents(second, [], []);
  }

  lemma RelistenedIsLost(w: World, l: Listener, turn: TurnEnv)
    requires Registrable(w.reg, RegisterListener(l)) && w.server.queue == [UnregisterListener(l.id)]
    requires turn.registrations == [RegisterListener(l)]
    ensures var registered := ApplyRegistrations(w, turn.registrations);
            registered.Go? && HandleActions(registered.w, turn.sends, 0).ListenerLost?
  {
    var registered := w.(reg := Apply(w.reg, RegisterListener(l), SendEnv(Ok(0), Ok(0))).reg);
    assert turn.registrations[1..] == [];
    assert ApplyRegistrations(w, turn.registrations) == ApplyRegistrations(registered, []);
    OneAction(registered, turn.sends);
  }

  // ---------------------------------------------------------------- Leftover keys

  /** A descriptor which is polled no more, is a key in the listener index, but no listener's. */
  predicate Leftover(reg: Registry, fd: Fd)
  {
    fd !in reg.masks && fd in reg.listenerMap && reg.listenerMap[fd] !in reg.listeners
  }

  /** Whenever a listener hangs up, the loop is back at its poll with a coherent registry in which the
      descriptor is left over: a transport which gets it next has its first event panic. */
  lemma HangUpLeavesKey(w: World, fd: Fd, flags: int, turn: TurnEnv)
    requires AtPoll(w) && w.server.queue == [] && LiveListener(w.reg, fd)
    requires turn.events == [Event(fd, Err(Connectivity(flags)))] && |turn.envs| == 1
    ensures var out := Turn(w, turn);
            && out.Go? && AtPoll(out.w) && Leftover(out.w.reg, fd)
            && out.w.server.queue == [] && out.w.reg.transports == w.reg.transports
            && forall t: Transport, send, io | t.fd == fd && t.id !in w.reg.transports ::
                 RouteOf(Apply(out.w.reg, RegisterTransport(t), send).reg, Event(fd, Ok(io))) == Nowhere
  {
    var id := w.reg.listenerMap[fd];
    var polled := w.(reg := SetInterests(w.reg), awoken := false);
    TurnKeeps(w, turn);
    var handled := World(polled.reg.(listeners := polled.reg.listeners - {id}),
                         w.server.(queue := [UnregisterListener(id)]), [fd], false);
    assert w.server.queue + [UnregisterListener(id)] == [UnregisterListener(id)];
    assert polled.closing + [fd] == [fd];
    assert HandleEvent(polled, turn.events[0], turn.envs[0]) == Go(handled);
    OneEventTurn(w, turn, handled);
    OneAction(handled.(reg := Close(handled.reg, [fd]), closing := []), turn.sends);
  }

  /** So a leftover key is reached from the start. */
  lemma LeftoverKeyIsReached(waker: Fd, listener: Listener, flags: int) returns (turns: seq<TurnEnv>)
    requires listener.fd != waker
    ensures AllAnswered(turns) && |turns| == 2
    ensures var out := RunTurns(Start(waker, listener), turns);
            out.Go? && Coherent(out.w.reg) && Leftover(out.w.reg, listener.fd)
  {
    var start := Start(waker, listener);
    turns := FirstTurn(waker, listener);
    FirstWakeupRegisters(waker, listener, turns[0]);
    var hangUp := OneTurn(Event(listener.fd, Err(Connectivity(flags))), NO_EVENT_ENV);
    HangUpLeavesKey(RunTurns(start, turns).w, listener.fd, flags, hangUp);
    RunTurnsSnoc(start, turns, hangUp);
    turns := turns + [hangUp];
  }
}

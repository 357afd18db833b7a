/** The reactor's registry (io-reactor/src/reactor.rs): two resource maps, two descriptor indexes
    and the poller's interests, on values, under any handler. A place where the code calls
    `expect` or `panic!` is an explicit outcome. */
module ReactorSpec {
  import opened Base
  import opened Polling
  import opened TransportSpec

  type ListenerId = nat
  type TransportId = nat
  type PeerKey = Bytes

  datatype Listener = Listener(id: ListenerId, fd: Fd)

  datatype Transport = Transport(id: TransportId, fd: Fd, net: Net<PeerKey>)

  datatype Error =
    | ListenerUnknown(listenerId: ListenerId)
    | TransportUnknown(id: TransportId)
    | WriteFailure(id: TransportId, kind: ErrorKind)
    | WriteLogicError(id: TransportId, data: Bytes)
    | ListenerDisconnect(listenerId: ListenerId, listener: Listener)
    | TransportDisconnect(id: TransportId, transport: Transport)
    | ListenerPollError(listenerId: ListenerId)
    | TransportPollError(id: TransportId)
    | PollFailure(kind: ErrorKind)

  datatype Action =
    | RegisterListener(listener: Listener)
    | RegisterTransport(transport: Transport)
    | UnregisterListener(listenerId: ListenerId)
    | UnregisterTransport(id: TransportId)
    | Send(id: TransportId, data: Bytes)
    | SetTimer(duration: nat)

  datatype Registry = Registry(
    waker: Fd,
    listeners: map<ListenerId, Listener>,
    transports: map<TransportId, Transport>,
    listenerMap: map<Fd, ListenerId>,
    transportMap: map<Fd, TransportId>,
    masks: map<Fd, IoType>)

  function Empty(waker: Fd): Registry
  {
    Registry(waker, map[], map[], map[], map[], map[waker := READ_ONLY])
  }

  // ---------------------------------------------------------------- Actions

  /** How a session answers the two writes a send may make; each takes at most what it is given. */
  datatype SendEnv = SendEnv(first: Result<nat, ErrorKind>, second: Result<nat, ErrorKind>)

  function Take(offer: Result<nat, ErrorKind>, len: nat): Result<nat, ErrorKind>
  {
    if offer.Ok? then Ok(Min(offer.value, len)) else offer
  }

  /** A send over an established session, which stays as it is. */
  function SendOver(net: Net<PeerKey>, data: Bytes, env: SendEnv): Sent<PeerKey>
  {
    WriteAtomic(net, data, WriteAnswer(Take(env.first, |net.writeBuffer|), net.session),
                WriteAnswer(Take(env.second, |data|), net.session))
  }

  /** What a send over an Active transport writes: of the buffered bytes as many as the session is willing to
      take, and, only if those are all, of the payload as many as it is willing to take. */
  lemma SendOverWrites(net: Net<PeerKey>, data: Bytes, env: SendEnv)
    requires Agrees(net) && net.state == Active
    ensures var sent := SendOver(net, data, env);
            var willing := env.first.Ok? && env.first.value >= |net.writeBuffer|;
            && sent.net.session == net.session
            && (forall kind :: sent.res == Err(Io(kind)) <==>
                  env.first == Err(kind) || (willing && env.second == Err(kind)))
            && (env.first.Ok? && !willing ==>
                  && sent.accepted == net.writeBuffer[..env.first.value]
                  && sent.net.writeBuffer == net.writeBuffer[env.first.value..] + data)
            && (willing && env.second.Ok? && env.second.value < |data| ==>
                  && sent.accepted == net.writeBuffer + data[..env.second.value]
                  && sent.net.writeBuffer == data[env.second.value..])
            && (willing && env.second.Ok? && env.second.value >= |data| ==>
                  sent.accepted == net.writeBuffer + data && sent.net.writeBuffer == [])
            && (willing && env.second.Err? ==> sent.accepted == net.writeBuffer && sent.net.writeBuffer == [])
            && (env.first.Err? ==> sent.accepted == [] && sent.net.writeBuffer == net.writeBuffer)
  {
    SendOutcome(net, data, WriteAnswer(Take(env.first, |net.writeBuffer|), net.session),
                WriteAnswer(Take(env.second, |data|), net.session));
    assert data[..|data|] == data;
  }

  /** What an unregistered resource is given back to the handler as. */
  datatype Handover = Nothing | OfListener(listener: Listener) | OfTransport(transport: Transport)

  datatype Applied = Applied(reg: Registry, res: Result<Handover, Error>) | Mismatch

  /** `handle_action` */
  function Apply(reg: Registry, action: Action, env: SendEnv): Applied
  {
    match action
    case RegisterListener(l) =>
      Applied(reg.(masks := reg.masks[l.fd := READ_ONLY],
                   listeners := reg.listeners[l.id := l],
                   listenerMap := reg.listenerMap[l.fd := l.id]), Ok(Nothing))
    case RegisterTransport(t) =>
      Applied(reg.(masks := reg.masks[t.fd := READ_ONLY],
                   transports := reg.transports[t.id := t],
                   transportMap := reg.transportMap[t.fd := t.id]), Ok(Nothing))
    case UnregisterListener(id) =>
      if id !in reg.listeners then Applied(reg, Err(ListenerUnknown(id)))
      else
        var l := reg.listeners[id];
        if l.fd !in reg.listenerMap then Mismatch   // index content doesn't match
        else Applied(reg.(listeners := reg.listeners - {id},
                          listenerMap := reg.listenerMap - {l.fd},
                          masks := reg.masks - {l.fd}), Ok(OfListener(l)))
    case UnregisterTransport(id) =>
      if id !in reg.transports then Applied(reg, Err(TransportUnknown(id)))
      else
        var t := reg.transports[id];
        if t.fd !in reg.transportMap then Mismatch  // index content doesn't match
        else Applied(reg.(transports := reg.transports - {id},
                          transportMap := reg.transportMap - {t.fd},
                          masks := reg.masks - {t.fd}), Ok(OfTransport(t)))
    case Send(id, data) =>
      if id !in reg.transports then Applied(reg, Err(TransportUnknown(id)))
      else
        var sent := SendOver(reg.transports[id].net, data, env);
        Applied(Moved(reg, id, sent.net),
                match sent.res
                case Ok(_) => Ok(Nothing)
                case Err(NotReady) => Err(WriteLogicError(id, data))
                case Err(Io(kind)) => Err(WriteFailure(id, kind)))
    case SetTimer(_) => Applied(reg, Ok(Nothing))
  }

  // ---------------------------------------------------------------- Events

  /** Where `handle_events` takes an event, or the lookup that panics. Listener descriptors are
      looked up before transport descriptors. */
  datatype Route =
    | Wake
    | ToListener(listenerId: ListenerId, io: IoType)
    | ListenerGone(listenerId: ListenerId)
    | ListenerFault(listenerId: ListenerId)
    | ToTransport(id: TransportId, io: IoType)
    | TransportGone(id: TransportId)
    | TransportFault(id: TransportId)
    | Nowhere

  function RouteOf(reg: Registry, event: Event): Route
  {
    if event.fd == reg.waker then
      if event.res.Ok? then Wake else Nowhere               // waker failure
    else if event.fd in reg.listenerMap then
      var id := reg.listenerMap[event.fd];
      match event.res
      case Ok(io) => if id in reg.listeners then ToListener(id, io) else Nowhere              // disappeared
      case Err(Connectivity(_)) => if id in reg.listeners then ListenerGone(id) else Nowhere  // disappeared
      case Err(Os(_)) => ListenerFault(id)
    else if event.fd in reg.transportMap then
      var id := reg.transportMap[event.fd];
      match event.res
      case Ok(io) => if id in reg.transports then ToTransport(id, io) else Nowhere              // disappeared
      case Err(Connectivity(_)) => if id in reg.transports then TransportGone(id) else Nowhere  // disappeared
      case Err(Os(_)) => TransportFault(id)
    else Nowhere                                            // unknown file descriptor
  }

  /** Stands in for the transport's state where an event does no I/O on a transport. */
  const NO_IO: Net<PeerKey> := Net(Init, Face(false, None), false, [])

  /** The registry in which one transport has moved on. */
  function Moved(reg: Registry, id: TransportId, net: Net<PeerKey>): Registry
    requires id in reg.transports
  {
    reg.(transports := reg.transports[id := reg.transports[id].(net := net)])
  }

  /** The registry after an event; `net` is what the I/O made of a transport. */
  function AfterEvent(reg: Registry, route: Route, net: Net<PeerKey>): Registry
  {
    match route
    case ListenerGone(id) => reg.(listeners := reg.listeners - {id})
    case TransportGone(id) => reg.(transports := reg.transports - {id})
    case ToTransport(id, _) =>
      if id in reg.transports then Moved(reg, id, net) else reg
    case _ => reg
  }

  /** The descriptor put on the unregister queue. */
  function Closing(reg: Registry, route: Route): seq<Fd>
  {
    match route
    case ListenerGone(id) => if id in reg.listeners then [reg.listeners[id].fd] else []
    case TransportGone(id) => if id in reg.transports then [reg.transports[id].fd] else []
    case _ => []
  }

  function Close(reg: Registry, fds: seq<Fd>): Registry
  {
    reg.(masks := map fd | fd in reg.masks && fd !in fds :: reg.masks[fd])
  }

  // ---------------------------------------------------------------- Interests

  function InterestOf(reg: Registry, fd: Fd): IoType
    requires fd in reg.masks
  {
    if LiveListener(reg, fd) then READ_ONLY
    else if LiveTransport(reg, fd) then Interests(reg.transports[reg.transportMap[fd]].net)
    else reg.masks[fd]
  }

  /** The loop before each poll, which sets the interest of every live resource. */
  function SetInterests(reg: Registry): Registry
  {
    reg.(masks := map fd | fd in reg.masks :: InterestOf(reg, fd))
  }

  // ---------------------------------------------------------------- Coherence

  predicate LiveListener(reg: Registry, fd: Fd)
  {
    fd in reg.listenerMap && reg.listenerMap[fd] in reg.listeners && reg.listeners[reg.listenerMap[fd]].fd == fd
  }

  predicate LiveTransport(reg: Registry, fd: Fd)
  {
    && fd !in reg.listenerMap
    && fd in reg.transportMap && reg.transportMap[fd] in reg.transports && reg.transports[reg.transportMap[fd]].fd == fd
  }

  /** Every live id's descriptor maps back to that id and is polled. Keys left over from hang-ups
      are allowed in both indexes, but no live transport hides behind a listener key. */
  ghost predicate Indexed(reg: Registry)
  {
    && reg.waker in reg.masks && reg.masks[reg.waker] == READ_ONLY
    && (forall id | id in reg.listeners ::
          var fd := reg.listeners[id].fd;
          fd != reg.waker && fd in reg.masks && fd in reg.listenerMap && reg.listenerMap[fd] == id)
    && (forall id | id in reg.transports ::
          var fd := reg.transports[id].fd;
          && fd != reg.waker && fd in reg.masks && fd !in reg.listenerMap
          && fd in reg.transportMap && reg.transportMap[fd] == id)
  }

  /** At a loop boundary, moreover, nothing else is polled than the waker and the live resources. */
  ghost predicate Coherent(reg: Registry)
  {
    && Indexed(reg)
    && forall fd | fd in reg.masks :: fd == reg.waker || LiveListener(reg, fd) || LiveTransport(reg, fd)
  }

  /** While a batch is handled: what is polled beyond that is waiting to be unregistered, and no
      event to come concerns it. */
  ghost predicate MidBatch(reg: Registry, closing: seq<Fd>, events: seq<Event>)
  {
    && Indexed(reg)
    && (forall fd | fd in reg.masks && fd !in closing ::
          fd == reg.waker || LiveListener(reg, fd) || LiveTransport(reg, fd))
    && (forall fd | fd in closing :: fd != reg.waker && !LiveListener(reg, fd) && !LiveTransport(reg, fd))
    && (forall event | event in events :: event.fd in reg.masks && event.fd !in closing)
    && DistinctFds(events)
  }

  predicate DistinctFds(events: seq<Event>)
  {
    forall i, j | 0 <= i < j < |events| :: events[i].fd != events[j].fd
  }

  /** What a poller can report: registered descriptors, each once, and a waker which works. */
  predicate PossibleBatch(reg: Registry, events: seq<Event>)
  {
    && DistinctFds(events)
    && forall event | event in events :: event.fd in reg.masks && (event.fd == reg.waker ==> event.res.Ok?)
  }

  /** A resource about to be registered has a descriptor which is open nowhere else and an unused id;
      for a transport, the descriptor is not a listener key left over from a hang-up either. */
  predicate Admissible(reg: Registry, action: Action)
  {
    match action
    case RegisterListener(l) => l.fd !in reg.masks && l.id !in reg.listeners
    case RegisterTransport(t) => t.fd !in reg.masks && t.id !in reg.transports && t.fd !in reg.listenerMap
    case _ => true
  }

  /** Which resources there are after an action, in either map: those there were, but for the one which is
      unregistered, and the one which is registered, as it is; a send changes nothing but the transport it
      is for. A resource just registered is polled for reading, one just unregistered no more. */
  lemma ResourcesAfter(reg: Registry, action: Action, env: SendEnv)
    requires Coherent(reg) && Admissible(reg, action)
    ensures var next := Apply(reg, action, env).reg;
            && (forall id :: id in next.listeners <==>
                  || (id in reg.listeners && action != UnregisterListener(id))
                  || (action.RegisterListener? && action.listener.id == id))
            && (forall id :: id in next.transports <==>
                  || (id in reg.transports && action != UnregisterTransport(id))
                  || (action.RegisterTransport? && action.transport.id == id))
            && (forall id | id in next.listeners ::
                  next.listeners[id] == if id in reg.listeners then reg.listeners[id] else action.listener)
            && (forall id | id in next.transports && !(action.Send? && action.id == id) ::
                  next.transports[id] == if id in reg.transports then reg.transports[id] else action.transport)
            && (action.Send? && action.id in reg.transports ==>
                  next == Moved(reg, action.id, SendOver(reg.transports[action.id].net, action.data, env).net))
            && (action.RegisterListener? ==> next.masks == reg.masks[action.listener.fd := READ_ONLY])
            && (action.RegisterTransport? ==> next.masks == reg.masks[action.transport.fd := READ_ONLY])
            && (action.SetTimer? ==> next == reg)
  {
  }

  /** What an action answers: the resource which was unregistered, or that there is none; and for a send, the
      payload back if it came too early, or the reason for which writing failed. */
  lemma ActionAnswers(reg: Registry, action: Action, env: SendEnv)
    requires Coherent(reg)
    ensures var res := Apply(reg, action, env).res;
            match action
            case UnregisterListener(id) =>
              res == (if id in reg.listeners then Ok(OfListener(reg.listeners[id])) else Err(ListenerUnknown(id)))
            case UnregisterTransport(id) =>
              res == (if id in reg.transports then Ok(OfTransport(reg.transports[id])) else Err(TransportUnknown(id)))
            case Send(id, data) =>
              && (res == Err(TransportUnknown(id)) <==> id !in reg.transports)
              && (res == Err(WriteLogicError(id, data)) <==>
                    id in reg.transports && reg.transports[id].net.state != Active)
              && (res.Ok? ==> res == Ok(Nothing))
              && (res.Ok? <==> id in reg.transports && SendOver(reg.transports[id].net, data, env).res.Ok?)
              && (forall kind :: res == Err(WriteFailure(id, kind)) <==>
                    id in reg.transports && SendOver(reg.transports[id].net, data, env).res == Err(Io(kind)))
            case _ => res == Ok(Nothing)
  {
  }

  /** An event reaches the live resource whose descriptor it is for. On a descriptor which is a key of
      neither index it panics, as an error of the waker does, and on one left over by a listener, unless
      it is an error which is no hang-up. */
  lemma EventsReachTheirResource(reg: Registry, fd: Fd, res: Result<IoType, IoFail>)
    requires Indexed(reg)
    ensures var route := RouteOf(reg, Event(fd, res));
            && (route == Wake <==> fd == reg.waker && res.Ok?)
            && (forall id | id in reg.listeners && reg.listeners[id].fd == fd ::
                  route == if res.Ok? then ToListener(id, res.value)
                           else if res.error.Connectivity? then ListenerGone(id)
                           else ListenerFault(id))
            && (forall id | id in reg.transports && reg.transports[id].fd == fd ::
                  route == if res.Ok? then ToTransport(id, res.value)
                           else if res.error.Connectivity? then TransportGone(id)
                           else TransportFault(id))
            && (fd == reg.waker && res.Err? ==> route == Nowhere)
            && (fd != reg.waker && fd !in reg.listenerMap && fd !in reg.transportMap ==> route == Nowhere)
            && (fd != reg.waker && fd in reg.listenerMap && reg.listenerMap[fd] !in reg.listeners ==>
                  (route == Nowhere <==> res.Ok? || res.error.Connectivity?))
  {
  }

  lemma RegisterListenerKeepsCoherence(reg: Registry, l: Listener, env: SendEnv)
    requires Coherent(reg) && Admissible(reg, RegisterListener(l))
    ensures Coherent(Apply(reg, RegisterListener(l), env).reg)
  {
  }

  lemma RegisterTransportKeepsCoherence(reg: Registry, t: Transport, env: SendEnv)
    requires Coherent(reg) && Admissible(reg, RegisterTransport(t))
    ensures Coherent(Apply(reg, RegisterTransport(t), env).reg)
  {
  }

  lemma UnregisterListenerKeepsCoherence(reg: Registry, id: ListenerId, env: SendEnv)
    requires Coherent(reg)
    ensures var out := Apply(reg, UnregisterListener(id), env); out.Applied? && Coherent(out.reg)
  {
  }

  lemma UnregisterTransportKeepsCoherence(reg: Registry, id: TransportId, env: SendEnv)
    requires Coherent(reg)
    ensures var out := Apply(reg, UnregisterTransport(id), env); out.Applied? && Coherent(out.reg)
  {
  }

  lemma ReplaceNetKeepsIndexed(reg: Registry, id: TransportId, net: Net<PeerKey>)
    requires Indexed(reg) && id in reg.transports
    ensures Indexed(Moved(reg, id, net))
  {
  }

  /** Every action keeps the registry coherent and meets no mismatched index. */
  lemma ApplyKeepsCoherence(reg: Registry, action: Action, env: SendEnv)
    requires Coherent(reg) && Admissible(reg, action)
    ensures var out := Apply(reg, action, env);
            out.Applied? && Coherent(out.reg) && out.reg.waker == reg.waker
  {
    match action {
      case RegisterListener(l) => RegisterListenerKeepsCoherence(reg, l, env);
      case RegisterTransport(t) => RegisterTransportKeepsCoherence(reg, t, env);
      case UnregisterListener(id) => UnregisterListenerKeepsCoherence(reg, id, env);
      case UnregisterTransport(id) => UnregisterTransportKeepsCoherence(reg, id, env);
      case Send(id, data) =>
        if id in reg.transports {
          ReplaceNetKeepsIndexed(reg, id, SendOver(reg.transports[id].net, data, env).net);
        }
      case SetTimer(_) =>
    }
  }

  /** The lookups of an event which a poller can report never panic, and what becomes of the
      descriptors stays accounted for. */
  lemma EventKeepsMidBatch(reg: Registry, closing: seq<Fd>, events: seq<Event>, net: Net<PeerKey>)
    requires MidBatch(reg, closing, events) && events != []
    requires events[0].fd == reg.waker ==> events[0].res.Ok?
    ensures var route := RouteOf(reg, events[0]);
            && route != Nowhere
            && MidBatch(AfterEvent(reg, route, net), closing + Closing(reg, route), events[1..])
            && AfterEvent(reg, route, net).waker == reg.waker
  {
    assert events[0] in events;
    var route := RouteOf(reg, events[0]);
    match route {
      case ToTransport(id, _) => ReplaceNetKeepsIndexed(reg, id, net);
      case ListenerGone(id) => RemovalKeepsMidBatch(reg, closing, events, route, net);
      case TransportGone(id) => RemovalKeepsMidBatch(reg, closing, events, route, net);
      case _ =>
    }
    LaterEvents(reg, closing + Closing(reg, route), events);
    assert closing + [] == closing;
  }

  lemma LaterEvents(reg: Registry, closing: seq<Fd>, events: seq<Event>)
    requires events != [] && DistinctFds(events)
    requires forall event | event in events :: event.fd in reg.masks
    requires forall event | event in events :: event.fd in closing ==> event.fd == events[0].fd
    ensures forall event | event in events[1..] :: event.fd in reg.masks && event.fd !in closing
    ensures DistinctFds(events[1..])
  {
    forall event | event in events[1..]
      ensures event.fd in reg.masks && event.fd !in closing
    {
      var i :| 1 <= i < |events| && events[i] == event;
      assert events[0].fd != events[i].fd;
      assert event in events;
    }
  }

  lemma RemovalKeepsMidBatch(reg: Registry, closing: seq<Fd>, events: seq<Event>, route: Route, net: Net<PeerKey>)
    requires MidBatch(reg, closing, events) && events != [] && events[0] in events
    requires route == RouteOf(reg, events[0]) && (route.ListenerGone? || route.TransportGone?)
    ensures Closing(reg, route) == [events[0].fd]
    ensures MidBatch(AfterEvent(reg, route, net), closing + Closing(reg, route), [])
  {
  }

  lemma CloseRestoresCoherence(reg: Registry, closing: seq<Fd>)
    requires MidBatch(reg, closing, [])
    ensures Coherent(Close(reg, closing))
  {
  }

  lemma InterestsKeepCoherence(reg: Registry)
    requires Coherent(reg)
    ensures Coherent(SetInterests(reg))
    ensures forall id | id in reg.listeners :: SetInterests(reg).masks[reg.listeners[id].fd] == READ_ONLY
    ensures forall id | id in reg.transports ::
              SetInterests(reg).masks[reg.transports[id].fd] == Interests(reg.transports[id].net)
  {
  }

  // ---------------------------------------------------------------- Runs under any handler

  datatype Progress = At(reg: Registry) | Crashed

  /** Handles a batch; `nets[i]` is what the i-th event makes of the transport it is for. */
  function Dispatch(reg: Registry, closing: seq<Fd>, events: seq<Event>, nets: seq<Net<PeerKey>>): Progress
    requires |events| == |nets|
    decreases |events|
  {
    if events == [] then At(Close(reg, closing))
    else
      var route := RouteOf(reg, events[0]);
      if route == Nowhere then Crashed
      else Dispatch(AfterEvent(reg, route, nets[0]), closing + Closing(reg, route), events[1..], nets[1..])
  }

  function ApplyAll(reg: Registry, actions: seq<(Action, SendEnv)>): Progress
    decreases |actions|
  {
    if actions == [] then At(reg)
    else
      match Apply(reg, actions[0].0, actions[0].1)
      case Mismatch => Crashed
      case Applied(next, _) => ApplyAll(next, actions[1..])
  }

  ghost predicate AllAdmissible(reg: Registry, actions: seq<(Action, SendEnv)>)
    decreases |actions|
  {
    actions != [] ==>
      && Admissible(reg, actions[0].0)
      && (match Apply(reg, actions[0].0, actions[0].1)
          case Mismatch => true
          case Applied(next, _) => AllAdmissible(next, actions[1..]))
  }

  /** One iteration of the loop: the batch a poll reports and the actions which any handler, or any
      controller's registrations, come up with in reaction to it. */
  datatype Iteration = Iteration(events: seq<Event>, nets: seq<Net<PeerKey>>, actions: seq<(Action, SendEnv)>)

  function Iterate(reg: Registry, it: Iteration): Progress
    requires |it.events| == |it.nets|
  {
    match Dispatch(SetInterests(reg), [], it.events, it.nets)
    case Crashed => Crashed
    case At(next) => ApplyAll(next, it.actions)
  }

  ghost predicate PossibleIteration(reg: Registry, it: Iteration)
  {
    && |it.events| == |it.nets|
    && PossibleBatch(reg, it.events)
    && (match Dispatch(SetInterests(reg), [], it.events, it.nets)
        case Crashed => true
        case At(next) => AllAdmissible(next, it.actions))
  }

  lemma {:induction false} DispatchKeepsCoherence(reg: Registry, closing: seq<Fd>, events: seq<Event>,
                                                  nets: seq<Net<PeerKey>>)
    requires |events| == |nets| && MidBatch(reg, closing, events)
    requires forall event | event in events :: event.fd == reg.waker ==> event.res.Ok?
    ensures var out := Dispatch(reg, closing, events, nets);
            out.At? && Coherent(out.reg) && out.reg.waker == reg.waker
    decreases |events|
  {
    if events == [] {
      CloseRestoresCoherence(reg, closing);
    } else {
      assert events[0] in events;
      EventKeepsMidBatch(reg, closing, events, nets[0]);
      var route := RouteOf(reg, events[0]);
      DispatchKeepsCoherence(AfterEvent(reg, route, nets[0]), closing + Closing(reg, route), events[1..], nets[1..]);
    }
  }

  lemma {:induction false} ApplyAllKeepsCoherence(reg: Registry, actions: seq<(Action, SendEnv)>)
    requires Coherent(reg) && AllAdmissible(reg, actions)
    ensures var out := ApplyAll(reg, actions);
            out.At? && Coherent(out.reg) && out.reg.waker == reg.waker
    decreases |actions|
  {
    if actions != [] {
      ApplyKeepsCoherence(reg, actions[0].0, actions[0].1);
      ApplyAllKeepsCoherence(Apply(reg, actions[0].0, actions[0].1).reg, actions[1..]);
    }
  }

  lemma IterationKeepsCoherence(reg: Registry, it: Iteration)
    requires Coherent(reg) && PossibleIteration(reg, it)
    ensures Iterate(reg, it).At? && Coherent(Iterate(reg, it).reg)
  {
    InterestsKeepCoherence(reg);
    var polled := SetInterests(reg);
    assert MidBatch(polled, [], it.events);
    DispatchKeepsCoherence(polled, [], it.events, it.nets);
    ApplyAllKeepsCoherence(Dispatch(polled, [], it.events, it.nets).reg, it.actions);
  }

  ghost predicate PossibleRun(reg: Registry, its: seq<Iteration>)
    decreases |its|
  {
    its != [] ==>
      && PossibleIteration(reg, its[0])
      && (match Iterate(reg, its[0])
          case Crashed => true
          case At(next) => PossibleRun(next, its[1..]))
  }

  function IterateAll(reg: Registry, its: seq<Iteration>): Progress
    requires forall it | it in its :: |it.events| == |it.nets|
    decreases |its|
  {
    if its == [] then At(reg)
    else
      match Iterate(reg, its[0])
      case Crashed => Crashed
      case At(next) => IterateAll(next, its[1..])
  }

  /** Registry coherence on every run, whatever the handler asks for: at each loop boundary the
      indexes and the poller agree with the live resources, and none of the lookups panics. */
  lemma {:induction false} RegistryStaysCoherent(reg: Registry, its: seq<Iteration>)
    requires Coherent(reg) && PossibleRun(reg, its)
    requires forall it | it in its :: |it.events| == |it.nets|
    ensures var out := IterateAll(reg, its);
            out.At? && Coherent(out.reg)
    decreases |its|
  {
    if its != [] {
      assert its[0] in its;
      IterationKeepsCoherence(reg, its[0]);
      RegistryStaysCoherent(Iterate(reg, its[0]).reg, its[1..]);
    }
  }

  lemma EmptyIsCoherent(waker: Fd)
    ensures Coherent(Empty(waker))
  {
  }

  // ---------------------------------------------------------------- The leftover listener key

  /** A transport which is otherwise fine to register can have its events delivered if and only if its
      descriptor is not a listener key left over from a hang-up; if it is one, the next readiness
      event on it panics. */
  lemma LeftoverListenerKey(reg: Registry, t: Transport, env: SendEnv, io: IoType)
    requires Coherent(reg) && t.fd !in reg.masks && t.id !in reg.transports
    ensures var next := Apply(reg, RegisterTransport(t), env).reg;
            RouteOf(next, Event(t.fd, Ok(io))) ==
              if t.fd !in reg.listenerMap then ToTransport(t.id, io)
              else if reg.listenerMap[t.fd] in reg.listeners then ToListener(reg.listenerMap[t.fd], io)
              else Nowhere
    ensures RouteOf(Apply(reg, RegisterTransport(t), env).reg, Event(t.fd, Ok(io))) == ToTransport(t.id, io)
            <==> t.fd !in reg.listenerMap
  {
  }
}

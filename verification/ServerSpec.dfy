/** The nsh `Server` as a reactor handler (nsh/src/server.rs), on values: an outbox of messages
    rejected as not ready, and the queue of actions the reactor will take from it. */
module ServerSpec {
  import opened Base
  import opened TransportSpec
  import opened ReactorSpec

  /** An event of a transport which the server was handed. */
  datatype Heard = Heard(id: TransportId, event: SessionEvent<PeerKey>)

  /** `heard` records every event of a transport the server was ever handed. */
  datatype Server = Server(outbox: map<TransportId, seq<Bytes>>, queue: seq<Action>, heard: seq<Heard>)

  function NewServer(queue: seq<Action>): Server
  {
    Server(map[], queue, [])
  }

  function OutboxOf(server: Server, id: TransportId): seq<Bytes>
  {
    if id in server.outbox then server.outbox[id] else []
  }

  function Sends(id: TransportId, messages: seq<Bytes>): (actions: seq<Action>)
    ensures |actions| == |messages|
    ensures forall i | 0 <= i < |messages| :: actions[i] == Send(id, messages[i])
  {
    seq(|messages|, i requires 0 <= i < |messages| => Send(id, messages[i]))
  }

  /** `delegated` is what the delegate answers to a new client or to input. */
  function OnTransportEvent(server: Server, id: TransportId, event: SessionEvent<PeerKey>,
                            delegated: seq<Action>): Server
  {
    var told := server.(heard := server.heard + [Heard(id, event)]);
    match event
    case Established(_) =>
      told.(outbox := server.outbox - {id}, queue := server.queue + delegated + Sends(id, OutboxOf(server, id)))
    case Data(_) =>
      told.(queue := server.queue + delegated)
    case Terminated(_) =>
      told.(queue := server.queue + [UnregisterTransport(id)])
  }

  /** `accepted` is the transport made of an accepted session, if accepting it worked out. */
  function OnListenerEvent(server: Server, accepted: Option<Transport>): Server
  {
    match accepted
    case Some(t) => server.(queue := server.queue + [RegisterTransport(t)])
    case None => server
  }

  function OnError(server: Server, error: Error): Server
  {
    match error
    case WriteLogicError(id, message) =>
      server.(outbox := server.outbox[id := OutboxOf(server, id) + [message]])
    case ListenerDisconnect(id, _) => server.(queue := server.queue + [UnregisterListener(id)])
    case ListenerPollError(id) => server.(queue := server.queue + [UnregisterListener(id)])
    case WriteFailure(id, _) => server.(queue := server.queue + [UnregisterTransport(id)])
    case TransportPollError(id) => server.(queue := server.queue + [UnregisterTransport(id)])
    case _ => server
  }

  // ---------------------------------------------------------------- One call

  /** What the server makes of an event: the delegate's answer to a new client, or to its input, joins the
      queue, followed by what waits for a client just established; a client which is gone is to be
      unregistered. Nothing else is done, and nothing forgotten. */
  lemma EventReaction(server: Server, id: TransportId, event: SessionEvent<PeerKey>, delegated: seq<Action>)
    ensures var out := OnTransportEvent(server, id, event, delegated);
            && out.heard == server.heard + [Heard(id, event)]
            && (event.Data? ==> out.queue == server.queue + delegated)
            && (event.Terminated? ==> out.queue == server.queue + [UnregisterTransport(id)])
            && (event.Established? ==> out.queue == server.queue + delegated + Sends(id, OutboxOf(server, id)))
            && (event.Established? ==> OutboxOf(out, id) == [])
            && forall other | other != id || !event.Established? :: OutboxOf(out, other) == OutboxOf(server, other)
  {
  }

  /** The server asks for the removal of a listener or a transport on exactly these errors. */
  predicate Removes(error: Error, action: Action)
  {
    match action
    case UnregisterTransport(id) => (error.WriteFailure? || error.TransportPollError?) && error.id == id
    case UnregisterListener(id) => (error.ListenerDisconnect? || error.ListenerPollError?) && error.listenerId == id
    case _ => false
  }

  /** What the server makes of an error: at most one removal is queued, and a message which came too early
      joins the outbox of its transport. */
  lemma ErrorReaction(server: Server, error: Error)
    ensures var out := OnError(server, error);
            && out.heard == server.heard && server.queue <= out.queue
            && (forall action :: out.queue[|server.queue|..] == [action] <==> Removes(error, action))
            && |out.queue| <= |server.queue| + 1
            && forall id :: OutboxOf(out, id) ==
                 OutboxOf(server, id) + (if error.WriteLogicError? && error.id == id then [error.data] else [])
  {
    assert forall id :: OutboxOf(server, id) + [] == OutboxOf(server, id);
    var out := OnError(server, error);
    if !error.WriteLogicError? && out.queue != server.queue {
      var action := out.queue[|server.queue|];
      assert out.queue == server.queue + [action];
      assert Removes(error, action);
    }
  }

  // ---------------------------------------------------------------- The outbox over any history

  datatype Call =
    | TransportEvent(id: TransportId, event: SessionEvent<PeerKey>, delegated: seq<Action>)
    | ListenerEvent(accepted: Option<Transport>)
    | Failure(error: Error)
    | Next

  function Step(server: Server, call: Call): Server
  {
    match call
    case TransportEvent(id, event, delegated) => OnTransportEvent(server, id, event, delegated)
    case ListenerEvent(accepted) => OnListenerEvent(server, accepted)
    case Failure(error) => OnError(server, error)
    case Next => if server.queue == [] then server else server.(queue := server.queue[1..])
  }

  function Run(server: Server, calls: seq<Call>): Server
    decreases |calls|
  {
    if calls == [] then server else Step(Run(server, calls[..|calls| - 1]), calls[|calls| - 1])
  }

  /** The payloads which sends to `id` had rejected as not ready since `id` was last established. */
  function RejectedSince(calls: seq<Call>, id: TransportId): seq<Bytes>
    decreases |calls|
  {
    if calls == [] then []
    else
      var earlier := RejectedSince(calls[..|calls| - 1], id);
      match calls[|calls| - 1]
      case Failure(WriteLogicError(other, message)) => if other == id then earlier + [message] else earlier
      case TransportEvent(other, Established(_), _) => if other == id then [] else earlier
      case _ => earlier
  }

  /** All payloads ever rejected as not ready for `id`. */
  function Rejected(calls: seq<Call>, id: TransportId): seq<Bytes>
    decreases |calls|
  {
    if calls == [] then []
    else
      var earlier := Rejected(calls[..|calls| - 1], id);
      match calls[|calls| - 1]
      case Failure(WriteLogicError(other, message)) => if other == id then earlier + [message] else earlier
      case _ => earlier
  }

  function Payloads(actions: seq<Action>): seq<Bytes>
  {
    if actions == [] then []
    else (if actions[0].Send? then [actions[0].data] else []) + Payloads(actions[1..])
  }

  /** The payloads which, besides the delegate's own actions, were queued as sends whenever `id` was
      established. */
  function Released(server: Server, calls: seq<Call>, id: TransportId): seq<Bytes>
    decreases |calls|
  {
    if calls == [] then []
    else
      var front := calls[..|calls| - 1];
      var earlier := Released(server, front, id);
      var before := Run(server, front);
      match calls[|calls| - 1]
      case TransportEvent(other, Established(_), delegated) =>
        var after := Step(before, calls[|calls| - 1]);
        if other == id then earlier + Payloads(after.queue[|before.queue| + |delegated|..]) else earlier
      case _ => earlier
  }

  /** Over every history and any interleaving of ids, the outbox holds for each id exactly the
      payloads rejected since it was last established, in order. */
  lemma {:induction false} OutboxHoldsRejected(queue: seq<Action>, calls: seq<Call>, id: TransportId)
    ensures OutboxOf(Run(NewServer(queue), calls), id) == RejectedSince(calls, id)
    decreases |calls|
  {
    if calls != [] {
      OutboxHoldsRejected(queue, calls[..|calls| - 1], id);
    }
  }

  /** When an id is established, exactly these payloads are queued as sends to it, behind what the
      delegate wants, and its outbox is empty. */
  lemma EstablishedReleasesOutbox(queue: seq<Action>, calls: seq<Call>, id: TransportId, key: PeerKey,
                                  delegated: seq<Action>)
    ensures var before := Run(NewServer(queue), calls);
            var after := Step(before, TransportEvent(id, Established(key), delegated));
            && after.queue == before.queue + delegated + Sends(id, RejectedSince(calls, id))
            && OutboxOf(after, id) == []
            && forall other | other != id :: OutboxOf(after, other) == RejectedSince(calls, other)
  {
    OutboxHoldsRejected(queue, calls, id);
    forall other | other != id
      ensures OutboxOf(Run(NewServer(queue), calls), other) == RejectedSince(calls, other)
    {
      OutboxHoldsRejected(queue, calls, other);
    }
  }

  lemma {:induction false} PayloadsOfSends(id: TransportId, messages: seq<Bytes>)
    ensures Payloads(Sends(id, messages)) == messages
  {
    if messages != [] {
      PayloadsOfSends(id, messages[1..]);
      assert Sends(id, messages)[1..] == Sends(id, messages[1..]);
    }
  }

  predicate Establishes(call: Call, id: TransportId)
  {
    call.TransportEvent? && call.id == id && call.event.Established?
  }

  lemma {:induction false} RejectedSinceAppend(before: seq<Call>, after: seq<Call>, id: TransportId)
    requires forall call | call in after :: !Establishes(call, id)
    ensures RejectedSince(before + after, id) == RejectedSince(before, id) + RejectedSince(after, id)
    decreases |after|
  {
    if after == [] {
      assert before + after == before;
    } else {
      var front, last := after[..|after| - 1], after[|after| - 1];
      assert (before + after)[..|before + after| - 1] == before + front;
      assert last in after;
      RejectedSinceAppend(before, front, id);
    }
  }

  /** Nothing clears an outbox but being established. Let `before` be the history up to when a peer
      left, and `after` what happened since, without a session of that id being established: the next
      peer to get the id is sent what was rejected for its predecessors as well, so it is sent
      exactly its own messages if and only if nothing was waiting when the last one left. */
  lemma LeftoversGoToTheNextPeer(queue: seq<Action>, before: seq<Call>, after: seq<Call>, id: TransportId,
                                 key: PeerKey, delegated: seq<Action>)
    requires forall call | call in after :: !Establishes(call, id)
    ensures var left := Run(NewServer(queue), before);
            var now := Run(NewServer(queue), before + after);
            var met := Step(now, TransportEvent(id, Established(key), delegated));
            var released := Payloads(met.queue[|now.queue| + |delegated|..]);
            && released == OutboxOf(left, id) + RejectedSince(after, id)
            && (released == RejectedSince(after, id) <==> OutboxOf(left, id) == [])
  {
    var now := Run(NewServer(queue), before + after);
    var met := Step(now, TransportEvent(id, Established(key), delegated));
    RejectedSinceAppend(before, after, id);
    OutboxHoldsRejected(queue, before, id);
    OutboxHoldsRejected(queue, before + after, id);
    assert met.queue[|now.queue| + |delegated|..] == Sends(id, OutboxOf(now, id));
    PayloadsOfSends(id, OutboxOf(now, id));
  }

  /** Outbox conservation: what was rejected is what was released plus what is still held, each
      message once and in order. */
  lemma {:induction false} OutboxConserves(queue: seq<Action>, calls: seq<Call>, id: TransportId)
    ensures var start := NewServer(queue);
            Rejected(calls, id) == Released(start, calls, id) + OutboxOf(Run(start, calls), id)
    decreases |calls|
  {
    var start := NewServer(queue);
    if calls != [] {
      var front, call := calls[..|calls| - 1], calls[|calls| - 1];
      OutboxConserves(queue, front, id);
      var before := Run(start, front);
      var held := OutboxOf(before, id);
      if call.TransportEvent? && call.event.Established? && call.id == id {
        PayloadsOfSends(id, held);
        assert Step(before, call).queue[|before.queue| + |call.delegated|..] == Sends(id, held);
        assert Released(start, calls, id) == Released(start, front, id) + held;
        assert Released(start, calls, id) + [] == Released(start, calls, id);
      } else if call.Failure? && call.error.WriteLogicError? && call.error.id == id {
        var released := Released(start, front, id);
        assert released + (held + [call.error.data]) == released + held + [call.error.data];
      }
    }
  }
}

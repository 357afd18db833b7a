/** A run of the system in which a message reaches a peer it was not meant for. */
module Leftovers {
  import opened Base
  import opened Polling
  import opened TransportSpec
  import opened ReactorSpec
  import opened ServerSpec
  import opened SystemSpec
  import opened SystemRuns

  /** A turn in which a handshake is completed, and one action is queued for it: the delegate's only
      wish, or the only message waiting. */
  lemma CompletionWithAction(w: World, fd: Fd, key: PeerKey, turn: TurnEnv, action: Action)
    requires AtPoll(w) && w.server.queue == [] && LiveTransport(w.reg, fd)
    requires !w.reg.transports[w.reg.transportMap[fd]].net.session.established
    requires turn.events == [Event(fd, Ok(READ_ONLY))] && |turn.envs| == 1
    requires turn.envs[0].read == ReadAnswer(Ok([]), Face(true, Some(key)))
    requires var id := w.reg.transportMap[fd];
             OnTransportEvent(w.server, id, Established(key), turn.envs[0].onRead).queue == [action]
    ensures var id := w.reg.transportMap[fd];
            var net := Net(Active, Face(true, Some(key)), true, w.reg.transports[id].net.writeBuffer);
            var server := OnTransportEvent(w.server, id, Established(key), turn.envs[0].onRead);
            var queued := World(Moved(SetInterests(w.reg), id, net), server, [], false);
            HandleNext(queued, turn.sends(0)).Go? && HandleNext(queued, turn.sends(0)).w.server.queue == [] ==>
              Turn(w, turn) == HandleNext(queued, turn.sends(0)) && AtPoll(Turn(w, turn).w)
  {
    var id := w.reg.transportMap[fd];
    var net := Net(Active, Face(true, Some(key)), true, w.reg.transports[id].net.writeBuffer);
    var server := OnTransportEvent(w.server, id, Established(key), turn.envs[0].onRead);
    var queued := World(Moved(SetInterests(w.reg), id, net), server, [], false);
    CompletingTurn(w, fd, key, turn);
    TurnKeeps(w, turn);
    if HandleNext(queued, turn.sends(0)).Go? && HandleNext(queued, turn.sends(0)).w.server.queue == [] {
      OneAction(queued, turn.sends);
    }
  }

  /** The delegate greets a new client by a message to another one, whose handshake is not complete: the
      message goes to the outbox. */
  lemma SentTooEarly(w: World, fd: Fd, key: PeerKey, turn: TurnEnv, other: TransportId, message: Bytes)
    requires AtPoll(w) && w.server.outbox == map[] && w.server.queue == [] && LiveTransport(w.reg, fd)
    requires !w.reg.transports[w.reg.transportMap[fd]].net.session.established
    requires other in w.reg.transports && other != w.reg.transportMap[fd]
    requires !w.reg.transports[other].net.session.established
    requires turn.events == [Event(fd, Ok(READ_ONLY))] && |turn.envs| == 1
    requires turn.envs[0].read == ReadAnswer(Ok([]), Face(true, Some(key)))
    requires turn.envs[0].onRead == [Send(other, message)]
    ensures var out := Turn(w, turn);
            && out.Go? && AtPoll(out.w) && out.w.server.outbox == map[other := [message]] && out.w.server.queue == []
            && SameListeners(w.reg, out.w.reg) && out.w.reg.transportMap == w.reg.transportMap
            && other in out.w.reg.transports && out.w.reg.transports[other] == w.reg.transports[other]
  {
    var id := w.reg.transportMap[fd];
    assert [] + [Send(other, message)] + Sends(id, []) == [Send(other, message)];
    CompletionWithAction(w, fd, key, turn, Send(other, message));
    assert Agrees(w.reg.transports[other].net);
    assert w.server.outbox - {id} == w.server.outbox;
    assert [] + [message] == [message];
    var reg := SetInterests(w.reg);
    assert reg.transports[other := reg.transports[other]] == reg.transports;
  }

  /** A hang-up of a transport, which the outbox does not notice. */
  lemma PeerLeaves(w: World, fd: Fd, flags: int, turn: TurnEnv)
    requires AtPoll(w) && w.server.queue == [] && LiveTransport(w.reg, fd)
    requires turn.events == [Event(fd, Err(Connectivity(flags)))] && |turn.envs| == 1
    ensures var out := Turn(w, turn);
            && out.Go? && AtPoll(out.w) && out.w.server == w.server && SameListeners(w.reg, out.w.reg)
            && out.w.reg.transports == w.reg.transports - {w.reg.transportMap[fd]}
            && out.w.reg.transportMap == w.reg.transportMap && fd !in out.w.reg.masks
  {
    var id := w.reg.transportMap[fd];
    var polled := w.(reg := SetInterests(w.reg), awoken := false);
    TurnKeeps(w, turn);
    var handled := polled.(reg := polled.reg.(transports := polled.reg.transports - {id}), closing := [fd]);
    assert polled.closing + [fd] == [fd];
    assert HandleEvent(polled, turn.events[0], turn.envs[0]) == Go(handled);
    OneEventTurn(w, turn, handled);
  }

  /** The next peer under the id gets what waits, here into its write buffer. */
  lemma NextPeerIsSent(w: World, fd: Fd, key: PeerKey, turn: TurnEnv, message: Bytes)
    requires AtPoll(w) && LiveTransport(w.reg, fd)
    requires w.server.outbox == map[w.reg.transportMap[fd] := [message]] && w.server.queue == []
    requires Fresh(w.reg.transports[w.reg.transportMap[fd]].net)
    requires turn.events == [Event(fd, Ok(READ_ONLY))] && |turn.envs| == 1
    requires turn.envs[0].read == ReadAnswer(Ok([]), Face(true, Some(key))) && turn.envs[0].onRead == []
    requires turn.sends(0) == SendEnv(Ok(0), Ok(0))
    ensures var out := Turn(w, turn);
            var id := w.reg.transportMap[fd];
            && out.Go? && AtPoll(out.w) && id in out.w.reg.transports
            && out.w.reg.transports[id].net == Net(Active, Face(true, Some(key)), true, message)
  {
    var id := w.reg.transportMap[fd];
    var sends := Sends(id, [message]);
    assert sends == [Send(id, message)] && [] + [] + sends == sends;
    CompletionWithAction(w, fd, key, turn, Send(id, message));
    assert message[0..] == message;
  }

  /** A run of seven turns from the start. The listener is registered; it accepts a first peer, and
      another one, whose handshake completes and makes the delegate send the message to the first peer,
      whose handshake has not; the first peer hangs up; a third one is accepted under its id and
      descriptor; and when the handshake of this one completes, it is sent the message. */
  lemma MessageReachesNextPeer(waker: Fd, listener: Listener, first: Transport, other: Transport, next: Transport,
                               message: Bytes, otherKey: PeerKey, nextKey: PeerKey)
    returns (turns: seq<TurnEnv>)
    requires listener.fd != waker && first.fd !in {waker, listener.fd} && other.fd !in {waker, listener.fd, first.fd}
    requires first.id != other.id && next.id == first.id && next.fd == first.fd
    requires Fresh(first.net) && Fresh(other.net) && Fresh(next.net)
    ensures AllAnswered(turns) && |turns| == 7
    ensures var out := RunTurns(Start(waker, listener), turns);
            && out.Go? && next.id in out.w.reg.transports
            && out.w.reg.transports[next.id].net == Net(Active, Face(true, Some(nextKey)), true, message)
  {
    var start := Start(waker, listener);
    var early;
    turns, early := MessageIsHeld(waker, listener, first, other, message, otherKey);

    var hangUp := OneTurn(Event(first.fd, Err(Connectivity(0))), NO_EVENT_ENV);
    PeerLeaves(early, first.fd, 0, hangUp);
    RunTurnsSnoc(start, turns, hangUp);
    turns := turns + [hangUp];
    var left := Turn(early, hangUp).w;

    var accept := OneTurn(Event(listener.fd, Ok(READ_ONLY)), NO_EVENT_ENV.(accepted := Some(next)));
    AcceptedIsRegistered(left, next, accept);
    RunTurnsSnoc(start, turns, accept);
    turns := turns + [accept];
    var accepted := Turn(left, accept).w;

    var complete := OneTurn(Event(next.fd, Ok(READ_ONLY)),
                            NO_EVENT_ENV.(read := ReadAnswer(Ok([]), Face(true, Some(nextKey)))));
    NextPeerIsSent(accepted, next.fd, nextKey, complete, message);
    RunTurnsSnoc(start, turns, complete);
    turns := turns + [complete];
  }

  /** The first four of these turns. */
  lemma MessageIsHeld(waker: Fd, listener: Listener, first: Transport, other: Transport, message: Bytes,
                      otherKey: PeerKey)
    returns (turns: seq<TurnEnv>, held: World)
    requires listener.fd != waker && first.fd !in {waker, listener.fd} && other.fd !in {waker, listener.fd, first.fd}
    requires first.id != other.id && Fresh(first.net) && Fresh(other.net)
    ensures AllAnswered(turns) && |turns| == 4 && RunTurns(Start(waker, listener), turns) == Go(held)
    ensures AtPoll(held) && held.server.outbox == map[first.id := [message]] && held.server.queue == []
    ensures LiveTransport(held.reg, first.fd) && held.reg.transportMap[first.fd] == first.id
    ensures LiveListener(held.reg, listener.fd) && held.reg.listenerMap == map[listener.fd := listener.id]
  {
    var start := Start(waker, listener);
    turns := AcceptingRun(waker, listener, first);
    var w := RunTurns(start, turns).w;

    var accept := OneTurn(Event(listener.fd, Ok(READ_ONLY)), NO_EVENT_ENV.(accepted := Some(other)));
    AcceptedIsRegistered(w, other, accept);
    RunTurnsSnoc(start, turns, accept);
    turns := turns + [accept];
    var both := Turn(w, accept).w;

    var read := ReadAnswer(Ok([]), Face(true, Some(otherKey)));
    var greet := OneTurn(Event(other.fd, Ok(READ_ONLY)),
                         NO_EVENT_ENV.(read := read, onRead := [Send(first.id, message)]));
    SentTooEarly(both, other.fd, otherKey, greet, first.id, message);
    RunTurnsSnoc(start, turns, greet);
    turns := turns + [greet];
    held := Turn(both, greet).w;
  }
}

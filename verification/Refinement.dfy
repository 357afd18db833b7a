/** The server in the reactor is one of the handlers of `ReactorSpec`: each turn of the system is an
    iteration of the reactor under any handler. */
module Refinement {
  import opened Base
  import opened Polling
  import opened TransportSpec
  import opened ReactorSpec
  import opened ServerSpec
  import opened SystemSpec

  lemma {:induction false} IosOnlyMove(w: World, id: TransportId, ios: seq<Io>, env: EventEnv)
    requires id in w.reg.transports && TransportIos(w, id, ios, env).Go?
    ensures var out := TransportIos(w, id, ios, env).w;
            && out.closing == w.closing && id in out.reg.transports
            && out.reg == Moved(w.reg, id, out.reg.transports[id].net)
    decreases |ios|
  {
    if ios == [] {
      assert w.reg.transports[id := w.reg.transports[id]] == w.reg.transports;
    } else {
      ServerHears(w, id, ios[0], env);
      IosOnlyMove(TransportIo(w, id, ios[0], env).w, id, ios[1..], env);
    }
  }

  /** What an event makes of the transport it is for, as far as the registry is concerned. */
  lemma EventIsRouted(w: World, event: Event, env: EventEnv) returns (net: Net<PeerKey>)
    requires HandleEvent(w, event, env).Go?
    ensures var out := HandleEvent(w, event, env).w;
            var route := RouteOf(w.reg, event);
            && route != Nowhere
            && out.reg == AfterEvent(w.reg, route, net) && out.closing == w.closing + Closing(w.reg, route)
  {
    var route := RouteOf(w.reg, event);
    net := NO_IO;
    if route.ToTransport? {
      IosOnlyMove(w, route.id, Ios(route.io), env);
      net := HandleEvent(w, event, env).w.reg.transports[route.id].net;
      assert w.closing + [] == w.closing;
    }
  }

  lemma {:induction false} BatchIsDispatched(w: World, events: seq<Event>, envs: seq<EventEnv>)
    returns (nets: seq<Net<PeerKey>>)
    requires |events| == |envs| && HandleEvents(w, events, envs).Go?
    ensures |nets| == |events|
    ensures Dispatch(w.reg, w.closing, events, nets) == At(HandleEvents(w, events, envs).w.reg)
    decreases |events|
  {
    if events == [] {
      nets := [];
    } else {
      var net := EventIsRouted(w, events[0], envs[0]);
      var rest := BatchIsDispatched(HandleEvent(w, events[0], envs[0]).w, events[1..], envs[1..]);
      nets := [net] + rest;
      assert nets[1..] == rest;
    }
  }

  lemma {:induction false} RegistrationsAreApplied(w: World, registrations: seq<Action>)
    requires ApplyRegistrations(w, registrations).Go?
    ensures ApplyAll(w.reg, WithAnswers(registrations, _ => SendEnv(Ok(0), Ok(0)), 0))
         == At(ApplyRegistrations(w, registrations).w.reg)
    decreases |registrations|
  {
    var sends := _ => SendEnv(Ok(0), Ok(0));
    if registrations != [] {
      ApplyFirst(w.reg, registrations, sends, 0);
      var next := w.(reg := Apply(w.reg, registrations[0], sends(0)).reg);
      RegistrationsAreApplied(next, registrations[1..]);
      assert WithAnswers(registrations[1..], sends, 1) == WithAnswers(registrations[1..], sends, 0);
    }
  }

  lemma {:induction false} ApplyAllAppend(reg: Registry, actions: seq<(Action, SendEnv)>, more: seq<(Action, SendEnv)>)
    requires ApplyAll(reg, actions).At?
    ensures ApplyAll(reg, actions + more) == ApplyAll(ApplyAll(reg, actions).reg, more)
    decreases |actions|
  {
    if actions == [] {
      assert actions + more == more;
    } else {
      assert (actions + more)[1..] == actions[1..] + more;
      ApplyAllAppend(Apply(reg, actions[0].0, actions[0].1).reg, actions[1..], more);
    }
  }

  /** A turn is an iteration with the events of its poll, in which the handler asks for the registrations
      found on a wake-up, then for what is queued, then for the removals which failed writes lead to. */
  lemma TurnIsIteration(w: World, turn: TurnEnv) returns (it: Iteration, removals: seq<Action>)
    requires Answered(turn) && w.closing == [] && turn.events != [] && Turn(w, turn).Go?
    ensures |it.events| == |it.nets| && it.events == turn.events
    ensures Iterate(w.reg, it) == At(Turn(w, turn).w.reg)
    ensures var polled := w.(reg := SetInterests(w.reg), awoken := false);
            var handled := HandleEvents(polled, turn.events, turn.envs).w;
            it.actions ==
              WithAnswers(if handled.awoken then turn.registrations else [], _ => SendEnv(Ok(0), Ok(0)), 0)
              + WithAnswers(handled.server.queue + removals, turn.sends, 0)
    ensures forall action | action in removals :: action.UnregisterTransport?
  {
    var polled := w.(reg := SetInterests(w.reg), awoken := false);
    var nets := BatchIsDispatched(polled, turn.events, turn.envs);
    var handled := HandleEvents(polled, turn.events, turn.envs).w;
    var registrations := if handled.awoken then turn.registrations else [];
    RegistrationsAreApplied(handled, registrations);
    AllAreRegistered(handled, registrations);
    var registered := ApplyRegistrations(handled, registrations).w;
    removals := AllActionsAreApplied(registered, turn.sends, 0);
    var first := WithAnswers(registrations, _ => SendEnv(Ok(0), Ok(0)), 0);
    var second := WithAnswers(registered.server.queue + removals, turn.sends, 0);
    ApplyAllAppend(handled.reg, first, second);
    it := Iteration(turn.events, nets, first + second);
  }
}

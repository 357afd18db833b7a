/** The wake-up protocol between any number of controllers and the event loop
    (io-reactor/src/reactor.rs): a controller pushes onto a channel, then writes a byte to the
    waker socket; the loop clears the socket, then drains both channels. */
module Waker {
  import opened Base

  type Tid = nat

  datatype Message = Command(command: int) | Register(fd: nat) | Shutdown

  datatype Lane = Cmd | Ctl

  /** A channel with its history. `woken` are the positions in `sent` of the messages whose sender
      has seen `wake` return `Ok`. */
  datatype Channel = Channel(sent: seq<Message>, handled: seq<Message>, queue: seq<Message>, woken: set<nat>)

  /** Where a controller is within one of its calls: it has sent a message and not yet locked the
      mutex, or it holds the mutex and writes to the socket. `Jammed` is a `wake` whose write was
      refused by a full socket, or interrupted, and which, for its second try, waits to lock the
      mutex; it has not given up the lock of its first try. */
  datatype Pc =
    | Idle
    | Pushed(lane: Lane, index: nat)
    | Holding(lane: Lane, index: nat)
    | Jammed(lane: Lane, index: nat)

  /** Where the loop is: `Dispatching(true)` has the waker's event in its batch, `Clearing` is inside
      `reset_fd`, `Awoken` handles the rest of the batch. The loop is `Stopped` by a shutdown, and
      `Crashed` when it cannot read its end of the waker. */
  datatype Stage =
    | Polling
    | Dispatching(waker: bool)
    | Clearing
    | Awoken
    | DrainCmd
    | DrainCtl
    | Acting
    | Stopped
    | Crashed

  /** How many unread bytes the waker socket has room for. */
  type Capacity = n: nat | 0 < n witness 1

  datatype State = State(capacity: Capacity, unread: nat, cmd: Channel, ctl: Channel, pcs: map<Tid, Pc>,
                         lock: Option<Tid>, stage: Stage)

  datatype Action =
    | Send(t: Tid, lane: Lane, message: Message)
    | Lock(t: Tid)
    | WakeOk(t: Tid)       // the byte is written, `wake` returns Ok
    | WakeErr(t: Tid)      // `wake` returns an error
    | WakeFull(t: Tid)     // the write is refused with WouldBlock
    | WakeInterrupted(t: Tid)
    | PollReturns
    | PollFails            // the error is logged by the handler, and the loop polls again
    | Dispatch             // the batch, or the part of it before the waker's event, is handled
    | ClearSome
    | ClearDone            // a read of the waker finds it empty
    | ClearFails           // a read of the waker fails, which panics
    | DrainStarts
    | TryRecv
    | Act

  const RESET_BUFFER: nat := 4096

  function PcOf(s: State, t: Tid): Pc
  {
    if t in s.pcs then s.pcs[t] else Idle
  }

  function ChannelOf(s: State, lane: Lane): Channel
  {
    if lane == Cmd then s.cmd else s.ctl
  }

  function WithChannel(s: State, lane: Lane, channel: Channel): State
  {
    if lane == Cmd then s.(cmd := channel) else s.(ctl := channel)
  }

  predicate Gone(stage: Stage)
  {
    stage == Stopped || stage == Crashed
  }

  /** Once the loop is gone, so are its receivers and its end of the socket: sends fail, and a write
      to the socket can only end in an error. A controller which waits for the mutex goes on when it
      is free, be it for its first or its second try. */
  predicate Enabled(s: State, a: Action)
  {
    match a
    case Send(t, lane, message) => PcOf(s, t) == Idle && !Gone(s.stage) && (message.Command? <==> lane == Cmd)
    case Lock(t) => (PcOf(s, t).Pushed? || PcOf(s, t).Jammed?) && s.lock == None
    case WakeOk(t) => PcOf(s, t).Holding? && !Gone(s.stage) && s.unread < s.capacity
    case WakeErr(t) => PcOf(s, t).Holding?
    case WakeFull(t) => PcOf(s, t).Holding? && !Gone(s.stage) && s.unread == s.capacity
    case WakeInterrupted(t) => PcOf(s, t).Holding?
    case PollReturns => s.stage == Polling
    case PollFails => s.stage == Polling
    case Dispatch => s.stage.Dispatching?
    case ClearSome => s.stage == Clearing && s.unread > 0
    case ClearDone => s.stage == Clearing && s.unread == 0
    case ClearFails => s.stage == Clearing
    case DrainStarts => s.stage == Awoken
    case TryRecv => s.stage == DrainCmd || s.stage == DrainCtl
    case Act => s.stage == Acting
  }

  function Next(s: State, a: Action): State
    requires Enabled(s, a)
  {
    match a
    case Send(t, lane, message) =>
      var c := ChannelOf(s, lane);
      WithChannel(s, lane, c.(sent := c.sent + [message], queue := c.queue + [message]))
      .(pcs := s.pcs[t := Pushed(lane, |c.sent|)])
    case Lock(t) =>
      var pc := PcOf(s, t);
      s.(lock := Some(t), pcs := s.pcs[t := Holding(pc.lane, pc.index)])
    case WakeOk(t) =>
      var pc := PcOf(s, t);
      var c := ChannelOf(s, pc.lane);
      WithChannel(s, pc.lane, c.(woken := c.woken + {pc.index}))
      .(unread := s.unread + 1, lock := None, pcs := s.pcs[t := Idle])
    case WakeErr(t) =>
      s.(lock := None, pcs := s.pcs[t := Idle])
    case WakeFull(t) =>
      var pc := PcOf(s, t);
      s.(pcs := s.pcs[t := Jammed(pc.lane, pc.index)])
    case WakeInterrupted(t) =>
      var pc := PcOf(s, t);
      s.(pcs := s.pcs[t := Jammed(pc.lane, pc.index)])
    case PollReturns =>
      // The poll is level-triggered: a waker with unread bytes is in every batch.
      s.(stage := Dispatching(s.unread > 0))
    case PollFails =>
      s
    case Dispatch =>
      s.(stage := if s.stage.waker then Clearing else Acting)
    case ClearSome =>
      s.(unread := s.unread - Min(RESET_BUFFER, s.unread))
    case ClearDone =>
      s.(stage := Awoken)
    case ClearFails =>
      s.(stage := Crashed)
    case DrainStarts =>
      s.(stage := DrainCmd)
    case TryRecv =>
      var lane := if s.stage == DrainCmd then Cmd else Ctl;
      var c := ChannelOf(s, lane);
      if c.queue == [] then s.(stage := if lane == Cmd then DrainCtl else Acting)
      else
        var received := WithChannel(s, lane, c.(handled := c.handled + [c.queue[0]], queue := c.queue[1..]));
        if c.queue[0] == Shutdown then received.(stage := Stopped) else received
    case Act =>
      s.(stage := Polling)
  }

  predicate EnabledAll(s: State, actions: seq<Action>)
    decreases |actions|
  {
    actions != [] ==> Enabled(s, actions[0]) && EnabledAll(Next(s, actions[0]), actions[1..])
  }

  /** An interleaving of loop and controllers. */
  function Run(s: State, actions: seq<Action>): State
    requires EnabledAll(s, actions)
    decreases |actions|
  {
    if actions == [] then s else Run(Next(s, actions[0]), actions[1..])
  }

  function Start(capacity: Capacity): State
  {
    State(capacity, 0, Channel([], [], [], {}), Channel([], [], [], {}), map[], None, Polling)
  }

  // ---------------------------------------------------------------- No lost wake-up

  /** The loop is clearing or has cleared the waker and has not found this channel empty since. */
  predicate WillDrain(stage: Stage, lane: Lane)
  {
    stage == Clearing || stage == Awoken || stage == DrainCmd || (lane == Ctl && stage == DrainCtl)
  }

  predicate Ordered(c: Channel)
  {
    c.handled + c.queue == c.sent && forall i | i in c.woken :: i < |c.sent|
  }

  /** Some message is queued although its sender was told that the loop is awake. */
  predicate Awaited(c: Channel)
  {
    exists i | i in c.woken :: |c.handled| <= i < |c.sent|
  }

  predicate NoLostWakeup(s: State, lane: Lane)
  {
    Awaited(ChannelOf(s, lane)) && !Gone(s.stage) ==> s.unread > 0 || WillDrain(s.stage, lane)
  }

  /** Command messages travel on one channel, control messages on the other; a controller in the
      middle of a call has its message among those sent; the mutex is held by exactly whoever is
      writing to the socket or jammed; the socket holds no more than it has room for. */
  predicate Bookkept(s: State)
  {
    && (forall m | m in s.cmd.sent :: m.Command?)
    && (forall t | t in s.pcs && s.pcs[t] != Idle ::
          s.pcs[t].index < |ChannelOf(s, s.pcs[t].lane).sent|)
    && (forall t | t in s.pcs && (s.pcs[t].Holding? || s.pcs[t].Jammed?) :: s.lock == Some(t))
    && (s.lock.Some? ==> PcOf(s, s.lock.value).Holding? || PcOf(s, s.lock.value).Jammed?)
    && s.unread <= s.capacity
  }

  predicate Inv(s: State)
  {
    && Bookkept(s)
    && Ordered(s.cmd) && Ordered(s.ctl)
    && NoLostWakeup(s, Cmd) && NoLostWakeup(s, Ctl)
  }

  lemma ReceiveKeepsOrder(c: Channel)
    requires Ordered(c) && c.queue != []
    ensures var after := c.(handled := c.handled + [c.queue[0]], queue := c.queue[1..]);
            Ordered(after) && (Awaited(after) ==> Awaited(c))
    ensures c.queue[0] in c.sent
  {
    assert c.handled + [c.queue[0]] + c.queue[1..] == c.handled + c.queue;
    assert c.queue[0] == c.sent[|c.handled|];
  }

  lemma SendKeepsOrder(c: Channel, message: Message)
    requires Ordered(c)
    ensures var after := c.(sent := c.sent + [message], queue := c.queue + [message]);
            Ordered(after) && (Awaited(after) ==> Awaited(c))
  {
    assert c.handled + (c.queue + [message]) == c.sent + [message];
  }

  predicate OfController(a: Action)
  {
    a.Send? || a.Lock? || a.WakeOk? || a.WakeErr? || a.WakeFull? || a.WakeInterrupted?
  }

  lemma SendKeepsInv(s: State, a: Action)
    requires Inv(s) && Enabled(s, a) && a.Send?
    ensures Inv(Next(s, a))
  {
    SendKeepsOrder(ChannelOf(s, a.lane), a.message);
  }

  lemma WakeOkKeepsInv(s: State, a: Action)
    requires Inv(s) && Enabled(s, a) && a.WakeOk?
    ensures Inv(Next(s, a))
  {
  }

  /** The steps of a controller. */
  lemma ControllerKeepsInv(s: State, a: Action)
    requires Inv(s) && Enabled(s, a) && OfController(a)
    ensures Inv(Next(s, a))
  {
    if a.Send? {
      SendKeepsInv(s, a);
    } else if a.WakeOk? {
      WakeOkKeepsInv(s, a);
    }
  }

  /** The steps of the loop. */
  lemma LoopKeepsInv(s: State, a: Action)
    requires Inv(s) && Enabled(s, a) && !OfController(a)
    ensures Inv(Next(s, a))
  {
    if a.TryRecv? {
      var c := ChannelOf(s, if s.stage == DrainCmd then Cmd else Ctl);
      if c.queue == [] {
        assert !Awaited(c) by {
          assert |c.handled| == |c.sent|;
        }
      } else {
        ReceiveKeepsOrder(c);
      }
    }
  }

  lemma StepKeepsInv(s: State, a: Action)
    requires Inv(s) && Enabled(s, a)
    ensures Inv(Next(s, a))
  {
    if OfController(a) {
      ControllerKeepsInv(s, a);
    } else {
      LoopKeepsInv(s, a);
    }
  }

  /** On every interleaving: a message whose sender saw `wake` return `Ok` is never left behind by a
      loop which goes to sleep, and each channel's handled messages followed by its queue are the
      messages sent, in order. */
  lemma {:induction false} RunKeepsInv(s: State, actions: seq<Action>)
    requires Inv(s) && EnabledAll(s, actions)
    ensures Inv(Run(s, actions))
    decreases |actions|
  {
    if actions != [] {
      StepKeepsInv(s, actions[0]);
      RunKeepsInv(Next(s, actions[0]), actions[1..]);
    }
  }

  lemma NoWakeupIsLost(capacity: Capacity, actions: seq<Action>, lane: Lane)
    requires EnabledAll(Start(capacity), actions)
    ensures var s := Run(Start(capacity), actions);
            var c := ChannelOf(s, lane);
            && c.handled + c.queue == c.sent
            && (Awaited(c) && !Gone(s.stage) ==> s.unread > 0 || WillDrain(s.stage, lane))
            && (s.stage == Polling && s.unread == 0 ==> !Awaited(c))
  {
    RunKeepsInv(Start(capacity), actions);
  }

  // ---------------------------------------------------------------- What a wake-up achieves

  /** The first `cmds` commands and `ctls` control messages have been handled, or the loop is on its
      way to handle them within this iteration. */
  predicate OnTheWay(s: State, cmds: nat, ctls: nat)
  {
    || (cmds <= |s.cmd.handled| && ctls <= |s.ctl.handled|)
    || s.stage == Dispatching(true) || s.stage == Clearing || s.stage == Awoken || s.stage == DrainCmd
    || ((s.stage == DrainCtl || s.stage == Stopped) && cmds <= |s.cmd.handled|)
    || s.stage == Crashed
  }

  lemma StepStaysOnTheWay(s: State, a: Action, cmds: nat, ctls: nat)
    requires Inv(s) && Enabled(s, a)
    requires cmds <= |s.cmd.sent| && ctls <= |s.ctl.sent| && OnTheWay(s, cmds, ctls)
    ensures OnTheWay(Next(s, a), cmds, ctls)
  {
    if a.TryRecv? {
      var c := if s.stage == DrainCmd then s.cmd else s.ctl;
      if c.queue == [] {
        assert |c.handled| == |c.sent|;
      } else {
        ReceiveKeepsOrder(c);
      }
    }
  }

  lemma {:induction false} StaysOnTheWay(s: State, actions: seq<Action>, cmds: nat, ctls: nat)
    requires Inv(s) && EnabledAll(s, actions)
    requires cmds <= |s.cmd.sent| && ctls <= |s.ctl.sent| && OnTheWay(s, cmds, ctls)
    ensures OnTheWay(Run(s, actions), cmds, ctls)
    decreases |actions|
  {
    if actions != [] {
      StepKeepsInv(s, actions[0]);
      StepStaysOnTheWay(s, actions[0], cmds, ctls);
      StaysOnTheWay(Next(s, actions[0]), actions[1..], cmds, ctls);
    }
  }

  /** Whatever was queued by a sender whose `wake` returned `Ok` when a poll returns without an error
      has been handled by the time the loop polls again, however controllers interleave; a loop which
      stops on a shutdown in between has at least handled the commands. A poll which fails handles
      nothing, whatever waits, and neither does a loop which crashes. */
  lemma WokenMessagesAreHandled(s: State, actions: seq<Action>)
    requires Inv(s) && s.stage == Polling && EnabledAll(Next(s, PollReturns), actions)
    ensures var end := Run(Next(s, PollReturns), actions);
            && (end.stage == Polling ==> forall i | i in s.cmd.woken :: i < |end.cmd.handled|)
            && (end.stage == Polling ==> forall i | i in s.ctl.woken :: i < |end.ctl.handled|)
            && (end.stage == Stopped ==> forall i | i in s.cmd.woken :: i < |end.cmd.handled|)
  {
    var first := Next(s, PollReturns);
    StepKeepsInv(s, PollReturns);
    if s.unread > 0 {
      StaysOnTheWay(first, actions, |s.cmd.sent|, |s.ctl.sent|);
    } else {
      assert !Awaited(s.cmd) && !Awaited(s.ctl);
      HandledGrows(first, actions);
    }
  }

  lemma {:induction false} HandledGrows(s: State, actions: seq<Action>)
    requires EnabledAll(s, actions)
    ensures |s.cmd.handled| <= |Run(s, actions).cmd.handled|
    ensures |s.ctl.handled| <= |Run(s, actions).ctl.handled|
    decreases |actions|
  {
    if actions != [] {
      HandledGrows(Next(s, actions[0]), actions[1..]);
    }
  }

  // ---------------------------------------------------------------- When a wake-up returns

  predicate InsideWake(s: State, t: Tid)
  {
    PcOf(s, t) != Idle
  }

  /** The controller which holds the mutex waits for it. */
  predicate Deadlocked(s: State)
  {
    s.lock.Some? && PcOf(s, s.lock.value).Jammed?
  }

  /** The call which `t` is in at the start of this interleaving returns. */
  predicate Returns(actions: seq<Action>, t: Tid)
  {
    WakeOk(t) in actions || WakeErr(t) in actions
  }

  /** The call which `t` is in at the start of this interleaving returns `Ok`. */
  predicate ReturnsOk(actions: seq<Action>, t: Tid)
    decreases |actions|
  {
    actions != [] && (actions[0] == WakeOk(t) || (actions[0] != WakeErr(t) && ReturnsOk(actions[1..], t)))
  }

  /** On this continuation the call which `t` is in returns, or returns `Ok`. */
  predicate LetsReturn(s: State, actions: seq<Action>, t: Tid)
  {
    EnabledAll(s, actions) && Returns(actions, t)
  }

  predicate LetsSucceed(s: State, actions: seq<Action>, t: Tid)
  {
    EnabledAll(s, actions) && ReturnsOk(actions, t)
  }

  /** A full socket which the loop will not read again: it is past clearing the waker, and finds a
      shutdown before it next polls. */
  predicate NeverCleared(s: State)
  {
    && s.unread == s.capacity
    && (s.stage == Awoken || s.stage == DrainCmd || s.stage == DrainCtl)
    && Shutdown in s.ctl.queue
  }

  /** A `wake` whose write was refused or interrupted never returns, and no other `wake` returns after
      it: the mutex stays locked on every continuation, as only its holder could unlock it, which
      waits for it. */
  lemma {:induction false} JammedForever(s: State, actions: seq<Action>, t: Tid)
    requires Inv(s) && EnabledAll(s, actions) && PcOf(s, t).Jammed?
    ensures var end := Run(s, actions);
            && PcOf(end, t) == PcOf(s, t) && end.lock == Some(t)
            && end.cmd.woken == s.cmd.woken && end.ctl.woken == s.ctl.woken
    ensures forall u :: !Returns(actions, u)
    decreases |actions|
  {
    if actions != [] {
      StepKeepsInv(s, actions[0]);
      JammedForever(Next(s, actions[0]), actions[1..], t);
      forall u ensures !Returns(actions, u) {
        assert !Returns(actions[1..], u);
        assert actions[0] != WakeOk(u) && actions[0] != WakeErr(u);
      }
    }
  }

  lemma {:induction false} RunAppend(s: State, actions: seq<Action>, more: seq<Action>)
    requires EnabledAll(s, actions) && EnabledAll(Run(s, actions), more)
    ensures EnabledAll(s, actions + more) && Run(s, actions + more) == Run(Run(s, actions), more)
    decreases |actions|
  {
    if actions == [] {
      assert actions + more == more;
    } else {
      RunAppend(Next(s, actions[0]), actions[1..], more);
      assert (actions + more)[1..] == actions[1..] + more;
    }
  }

  lemma RunSnoc(s: State, actions: seq<Action>, a: Action)
    requires EnabledAll(s, actions) && Enabled(Run(s, actions), a)
    ensures EnabledAll(s, actions + [a]) && Run(s, actions + [a]) == Next(Run(s, actions), a)
  {
    var next := Next(Run(s, actions), a);
    assert EnabledAll(next, []) && Run(next, []) == next;
    assert [a][1..] == [];
    RunAppend(s, actions, [a]);
  }

  lemma {:induction false} OkAfter(actions: seq<Action>, more: seq<Action>, t: Tid)
    requires WakeErr(t) !in actions && ReturnsOk(more, t)
    ensures ReturnsOk(actions + more, t)
    decreases |actions|
  {
    if actions == [] {
      assert actions + more == more;
    } else {
      OkAfter(actions[1..], more, t);
      assert (actions + more)[1..] == actions[1..] + more;
    }
  }

  /** Brings a controller which is inside `wake` and not locked out to its write. Whoever else is
      writing is answered with an error first. */
  lemma GetsHold(s: State, t: Tid) returns (actions: seq<Action>)
    requires Inv(s) && InsideWake(s, t) && !Deadlocked(s)
    ensures EnabledAll(s, actions) && WakeErr(t) !in actions
    ensures var end := Run(s, actions);
            && Inv(end) && PcOf(end, t).Holding?
            && end == s.(pcs := end.pcs, lock := Some(t))
  {
    actions := [];
    if PcOf(s, t).Pushed? {
      if s.lock.Some? {
        RunSnoc(s, actions, WakeErr(s.lock.value));
        actions := actions + [WakeErr(s.lock.value)];
      }
      RunSnoc(s, actions, Lock(t));
      actions := actions + [Lock(t)];
    }
    RunKeepsInv(s, actions);
  }

  /** The loop drains a channel in which it finds no shutdown. */
  lemma {:induction false} Drains(s: State) returns (actions: seq<Action>)
    requires Inv(s)
    requires s.stage == DrainCmd || (s.stage == DrainCtl && Shutdown !in s.ctl.queue)
    ensures EnabledAll(s, actions) && forall a | a in actions :: a == TryRecv
    ensures var end := Run(s, actions);
            if s.stage == DrainCmd then end == s.(cmd := end.cmd, stage := DrainCtl)
            else end == s.(ctl := end.ctl, stage := Acting)
    decreases |ChannelOf(s, if s.stage == DrainCmd then Cmd else Ctl).queue|
  {
    var next := Next(s, TryRecv);
    var c := ChannelOf(s, if s.stage == DrainCmd then Cmd else Ctl);
    StepKeepsInv(s, TryRecv);
    if c.queue == [] {
      actions := [TryRecv];
      assert EnabledAll(next, []) && [TryRecv][1..] == [];
    } else {
      ReceiveKeepsOrder(c);
      var rest := Drains(next);
      actions := [TryRecv] + rest;
      assert actions[1..] == rest;
    }
  }

  function StepsToPoll(stage: Stage): nat
  {
    match stage
    case Awoken => 5
    case DrainCmd => 4
    case DrainCtl => 3
    case Dispatching(_) => 2
    case Acting => 1
    case _ => 0
  }

  /** The loop gets to its next poll, as far as it has no more to do with the waker before. */
  lemma {:induction false} ReachesPoll(s: State) returns (actions: seq<Action>)
    requires Inv(s) && !Gone(s.stage) && s.unread == s.capacity && !NeverCleared(s)
    requires s.stage != Clearing && s.stage != Dispatching(true)
    ensures EnabledAll(s, actions)
    ensures forall a | a in actions :: !OfController(a)
    ensures Run(s, actions) == s.(cmd := Run(s, actions).cmd, ctl := Run(s, actions).ctl, stage := Polling)
    decreases StepsToPoll(s.stage)
  {
    if s.stage == Polling {
      actions := [];
    } else {
      var first;
      if s.stage == DrainCmd || s.stage == DrainCtl {
        first := Drains(s);
      } else {
        first := [if s.stage == Awoken then DrainStarts else if s.stage == Acting then Act else Dispatch];
        assert first[1..] == [] && EnabledAll(Next(s, first[0]), []);
        assert Run(s, first) == Run(Next(s, first[0]), []);
      }
      RunKeepsInv(s, first);
      var rest := ReachesPoll(Run(s, first));
      RunAppend(s, first, rest);
      actions := first + rest;
    }
  }

  /** The loop makes room in a full socket. */
  lemma MakesRoom(s: State) returns (actions: seq<Action>)
    requires Inv(s) && !Gone(s.stage) && s.unread == s.capacity && !NeverCleared(s)
    ensures EnabledAll(s, actions) && forall a | a in actions :: !OfController(a)
    ensures var end := Run(s, actions);
            end.stage == Clearing && end.unread < end.capacity && end.pcs == s.pcs
  {
    actions := [];
    if s.stage != Clearing && s.stage != Dispatching(true) {
      actions := ReachesPoll(s);
      RunSnoc(s, actions, PollReturns);
      actions := actions + [PollReturns];
    }
    if s.stage != Clearing {
      RunSnoc(s, actions, Dispatch);
      actions := actions + [Dispatch];
    }
    RunSnoc(s, actions, ClearSome);
    actions := actions + [ClearSome];
  }

  /** The socket stays full, and the loop on its way to the shutdown. */
  lemma {:induction false} StaysFull(s: State, actions: seq<Action>, t: Tid)
    requires Inv(s) && EnabledAll(s, actions) && (NeverCleared(s) || Gone(s.stage))
    ensures !ReturnsOk(actions, t)
    decreases |actions|
  {
    if actions != [] {
      StepKeepsInv(s, actions[0]);
      var next := Next(s, actions[0]);
      if actions[0].TryRecv? && s.stage == DrainCmd && s.cmd.queue != [] {
        ReceiveKeepsOrder(s.cmd);
      }
      StaysFull(next, actions[1..], t);
    }
  }

  /** A `wake` which has not returned can still return if and only if no controller is jammed. */
  lemma WakeReturnsIffNotJammed(s: State, t: Tid)
    requires Inv(s) && InsideWake(s, t)
    ensures (exists actions :: LetsReturn(s, actions, t)) <==> !Deadlocked(s)
  {
    if Deadlocked(s) {
      forall actions | EnabledAll(s, actions)
        ensures !Returns(actions, t)
      {
        JammedForever(s, actions, s.lock.value);
      }
    } else {
      var actions := GetsHold(s, t);
      RunSnoc(s, actions, WakeErr(t));
      assert WakeErr(t) in actions + [WakeErr(t)];
      assert LetsReturn(s, actions + [WakeErr(t)], t);
    }
  }

  /** It can still return `Ok` if and only if, moreover, the loop runs and the socket has room or will
      be cleared once more. */
  lemma WakeSucceedsIff(s: State, t: Tid)
    requires Inv(s) && InsideWake(s, t)
    ensures (exists actions :: LetsSucceed(s, actions, t)) <==>
              !Deadlocked(s) && !Gone(s.stage) && !NeverCleared(s)
  {
    if Deadlocked(s) {
      forall actions | EnabledAll(s, actions)
        ensures !ReturnsOk(actions, t)
      {
        JammedForever(s, actions, s.lock.value);
        if ReturnsOk(actions, t) {
          OkIsReturn(actions, t);
        }
      }
    } else if Gone(s.stage) || NeverCleared(s) {
      forall actions | EnabledAll(s, actions)
        ensures !ReturnsOk(actions, t)
      {
        StaysFull(s, actions, t);
      }
    } else {
      var actions := GetsHold(s, t);
      var held := Run(s, actions);
      var made := [];
      if held.unread == held.capacity {
        made := MakesRoom(held);
      }
      RunAppend(s, actions, made);
      RunSnoc(s, actions + made, WakeOk(t));
      assert [WakeOk(t)][0] == WakeOk(t);
      OkAfter(actions + made, [WakeOk(t)], t);
      assert LetsSucceed(s, actions + made + [WakeOk(t)], t);
    }
  }

  lemma {:induction false} OkIsReturn(actions: seq<Action>, t: Tid)
    requires ReturnsOk(actions, t)
    ensures Returns(actions, t)
    decreases |actions|
  {
    if actions[0] != WakeOk(t) {
      OkIsReturn(actions[1..], t);
    }
  }

  /** A jam without any interruption: while the loop does not get to clear the waker, one controller
      fills it, one successful send after another, and the next send never returns. */
  lemma FullSocketJams(capacity: Capacity, t: Tid) returns (actions: seq<Action>)
    ensures EnabledAll(Start(capacity), actions) && forall a | a in actions :: !a.WakeInterrupted?
    ensures PcOf(Run(Start(capacity), actions), t).Jammed?
  {
    var s := Start(capacity);
    actions := [];
    var n := 0;
    while n < capacity
      invariant n <= capacity && EnabledAll(s, actions) && forall a | a in actions :: !a.WakeInterrupted?
      invariant var now := Run(s, actions);
                && now.capacity == capacity && now.unread == n
                && PcOf(now, t) == Idle && now.lock == None && now.stage == Polling
    {
      actions := Sends(s, actions, t, WakeOk(t));
      n := n + 1;
    }
    actions := Sends(s, actions, t, WakeFull(t));
  }

  /** One `send` whose `wake` is answered at once. */
  lemma Sends(s: State, done: seq<Action>, t: Tid, answer: Action) returns (actions: seq<Action>)
    requires EnabledAll(s, done) && (answer == WakeOk(t) || answer == WakeFull(t))
    requires var now := Run(s, done);
             && PcOf(now, t) == Idle && now.lock == None && now.stage == Polling
             && (if answer == WakeOk(t) then now.unread < now.capacity else now.unread == now.capacity)
    ensures actions == done + [Send(t, Cmd, Command(0)), Lock(t), answer] && EnabledAll(s, actions)
    ensures var now, end := Run(s, done), Run(s, actions);
            && end.capacity == now.capacity && end.stage == Polling
            && if answer == WakeOk(t) then PcOf(end, t) == Idle && end.lock == None && end.unread == now.unread + 1
               else PcOf(end, t).Jammed?
  {
    var sending := Send(t, Cmd, Command(0));
    RunSnoc(s, done, sending);
    RunSnoc(s, done + [sending], Lock(t));
    RunSnoc(s, done + [sending] + [Lock(t)], answer);
    actions := done + [sending] + [Lock(t)] + [answer];
    assert actions == done + [sending, Lock(t), answer];
  }

  // ---------------------------------------------------------------- reset_fd

  /** What happens around one read of the waker: controllers have written some more, the read may fail,
      and the other end may be closed. */
  datatype Attempt = Attempt(arriving: nat, fails: Option<ErrorKind>, closed: bool)

  /** The reading end of the waker. */
  class Socket {
    var unread: nat

    method Read(len: nat, attempt: Attempt) returns (res: Result<nat, ErrorKind>)
      modifies this
      ensures var available := old(unread) + attempt.arriving;
              if attempt.fails.Some? then unread == available && res == Err(attempt.fails.value)
              else if available == 0 then unread == 0 && res == (if attempt.closed then Ok(0) else Err(WouldBlock))
              else unread == available - Min(len, available) && res == Ok(Min(len, available))
    {
      unread := unread + attempt.arriving;
      if attempt.fails.Some? {
        return Err(attempt.fails.value);
      }
      if unread == 0 {
        return if attempt.closed then Ok(0) else Err(WouldBlock);
      }
      var count := Min(len, unread);
      unread := unread - count;
      return Ok(count);
    }
  }

  function Sum(counts: seq<nat>): nat
  {
    if counts == [] then 0 else counts[0] + Sum(counts[1..])
  }

  lemma {:induction false} SumSnoc(counts: seq<nat>, n: nat)
    ensures Sum(counts + [n]) == Sum(counts) + n
  {
    if counts == [] {
      assert counts + [n] == [n];
    } else {
      SumSnoc(counts[1..], n);
      assert (counts + [n])[1..] == counts[1..] + [n];
    }
  }

  function Arrivals(script: seq<Attempt>): (counts: seq<nat>)
    ensures |counts| == |script|
  {
    seq(|script|, i requires 0 <= i < |script| => script[i].arriving)
  }

  /** Returns `Ok` only at a moment when the socket is empty, having read all that was in it and all that
      arrived meanwhile, and an error exactly when a read failed. After the script nothing happens any
      more; a read does not answer `WouldBlock` while there are bytes. */
  method ResetFd(socket: Socket, script: seq<Attempt>)
    returns (res: Result<(), ErrorKind>, cleared: nat, attempts: nat)
    requires forall attempt | attempt in script :: attempt.fails != Some(WouldBlock)
    modifies socket
    ensures attempts > 0
    ensures cleared + socket.unread == old(socket.unread) + Sum(Arrivals(script)[..Min(attempts, |script|)])
    ensures res.Ok? ==> socket.unread == 0
    ensures res.Err? <==> attempts <= |script| && script[attempts - 1].fails.Some?
    ensures res.Err? ==> script[attempts - 1].fails == Some(res.error)
  {
    cleared, attempts := 0, 0;
    var counts := Arrivals(script);
    while true
      invariant cleared + socket.unread == old(socket.unread) + Sum(counts[..Min(attempts, |script|)])
      decreases |script| - Min(attempts, |script|), socket.unread
    {
      var attempt := if attempts < |script| then script[attempts] else Attempt(0, None, false);
      if attempts < |script| {
        assert attempt in script;
        SumSnoc(counts[..attempts], attempt.arriving);
        assert counts[..attempts + 1] == counts[..attempts] + [attempt.arriving];
      }
      var count := socket.Read(RESET_BUFFER, attempt);
      attempts := attempts + 1;
      match count {
        case Err(kind) =>
          if kind == WouldBlock {
            return Ok(()), cleared, attempts;
          }
          return Err(kind), cleared, attempts;
        case Ok(n) =>
          if n == 0 {
            return Ok(()), cleared, attempts;
          }
          cleared := cleared + n;
      }
    }
  }
}

# Verification model of rust-netservices

This project models, in Dafny, the event-driven networking core of rust-netservices and proves what it keeps over
whole runs: the poll reactor and its wake-up protocol, the transport resource with its handshake and its write buffer,
the Noise XK session with its authenticator, the nsh server which drives them, the frame marshaller, the tunnel and the
timer set.

`dafny verify dfyconfig.toml` checks everything.

## Shape

What the environment does (results of socket calls, batches of poll events, interleavings of threads, reactions of the
delegate) is an explicit input. A component which the program updates in place is a class with the same fields; its
methods are proved to compute a function on values, and the theorems are about that function over every run:

| file | content |
|---|---|
| `Base.dfy` | bytes, options, results, error kinds |
| `Polling.dfy` | `IoType`, poll events, the popol poller |
| `Timeouts.dfy` | the timer set |
| `Frames.dfy` | the marshaller, and two of them joined by a wire |
| `Tunnel.dfy` | the two-way byte pump |
| `TransportSpec.dfy`, `Resources.dfy` | a transport over any session: on values, as objects |
| `NoiseSpec.dfy`, `Noise.dfy` | the Noise XK session and its authenticator, and a transport over them |
| `Waker.dfy` | controllers and event loop as an interleaving of atomic steps |
| `ReactorSpec.dfy` | resource maps, descriptor indexes and poller interests under any handler |
| `ServerSpec.dfy` | the nsh server as a handler |
| `SystemSpec.dfy` | reactor, server and transports together, poll after poll |
| `SystemRuns.dfy` | whole runs of them: when they panic, and what holds otherwise |
| `Histories.dfy` | what such runs come to for each transport: events, bytes read, accepted and granted |
| `Refinement.dfy` | each turn of the system as an iteration of the reactor under any handler |
| `Leftovers.dfy` | a run in which a message reaches the wrong peer |
| `Runtime.dfy` | the server and the runtime as objects, down to the main loop |

A failed lookup of the reactor, the debug assertions of a transport and the panic of the server are explicit outcomes of
the functions (`Nowhere`, `Mismatch`, `Crashed`, `Panicked`, `ListenerLost`), and are proved not to be reached, or to be
reached exactly under a condition on the events; methods of the runtime carry them as an `assert`. `HandleIo` itself also
says what a build without debug assertions does where they fail.
What is taken for granted about the environment is written down in a few predicates: `LawfulRead` and `LawfulWrite` (a
session), `PossibleBatch` (a poller), `Admissible` and `Registrable` (descriptors, ids and state of resources being
registered), `Lawful` (a frame codec), `Honest` (the poller of a tunnel).

## Where the code does less than one might expect

- A `NetResource` made by `connect_blocking` starts in Handshake over a session which is already established. In a build
  with debug assertions it panics at its first event: `TripsIffEstablishedInHandshake`. In a build without them the first
  bytes it reads are replaced by the `Established` event: `LosslessIffNotEstablished` gives the exact condition under which
  no bytes are lost on any run.
- A `NoiseXk` session counts as established as soon as the remote side is verified, even if its own credential was not
  sent. No event sends it later; the first send does, and fails: `FirstSendFails`, `SendSucceedsIffCertified`,
  `ActiveBeforeCertified`.
- A hang-up leaves its descriptor as a key in the index: `HangUpLeavesKey`, `LeftoverKeyIsReached`. If it was a listener's
  and a transport gets the same descriptor, its events are not delivered to it: `LeftoverListenerKey`.
- The server's outbox is not cleared when a peer disconnects: `LeftoversGoToTheNextPeer` says exactly when the next peer
  under the same id gets messages meant for another, `MessageReachesNextPeer` is a run on which that happens.
- A transport which is both writable and readable in one event, and whose flush of an established session fails with
  anything but `WouldBlock` or `WriteZero`, trips the debug assertion on I/O on a terminated transport:
  `WhenTransportEventPanics`, and `ServerRun` for whole runs; `PanicIsReached` is such a run. It takes a session whose
  `flush` can fail: `NoiseXk` only forwards the flush to its connection.
- The server panics when it is handed a listener. With a delegate and controllers which do not ask for it, that is on an
  error other than a hang-up on a listener: `WhenTurnLosesListener`, `ServerRun`; for any delegate,
  `WhenActionsLoseListener`. `ListenerIsLost` is such a run. A listener registered under the id of one that hung up in the
  same turn is lost as well: `RelisteningIsLost`.
- `wake` retries while it holds the mutex it needs. It returns if and only if no `wake` has met a full socket or an
  interruption: `WakeReturnsIffNotJammed`; `WakeSucceedsIff` says when it still returns `Ok`, `FullSocketJams` that the
  full socket is reached.
- The loop never removes a timer: once one is due, every later poll returns at once, as `RunLoop` shows.
- A poll which fails is followed by another poll, whatever waits in the channels; what is woken is handled after a poll
  which returns without an error, unless the loop crashes: `WokenMessagesAreHandled`.
- A credential whose sending failed after its first byte is sent again from its beginning: `GatedIffNothingStray`,
  `TornCredentialIsRepeated`.
- The documentation of `WriteAtomic` speaks of data being written in full or not at all; the code buffers what the
  session does not take, and never drains that buffer but by a later send. The theorems are about accepted and buffered
  bytes together.

## Model

| member | source | states |
|---|---|---|
| `Waker.NoWakeupIsLost` | io-reactor/src/reactor.rs:217-322 | on every interleaving of any number of controllers with the loop, a queued message whose sender's `wake` returned `Ok` has an unread waker byte or a loop that has yet to find that channel empty; handled messages followed by the channel are the messages sent, in order; a loop about to sleep with a silent waker leaves no such message; failed polls included |
| `Waker.WokenMessagesAreHandled` | io-reactor/src/reactor.rs:393-441 | everything so queued when a poll returns without an error is handled by the time the loop polls again (commands even if a shutdown intervenes) |
| `Waker.WakeReturnsIffNotJammed` | io-reactor/src/reactor.rs:259-293 | a controller inside `wake` has a continuation on which its call returns if and only if no controller waits for the mutex it holds itself |
| `Waker.WakeSucceedsIff` | io-reactor/src/reactor.rs:266-280 | it has one on which the call returns `Ok` if and only if, moreover, the loop has neither stopped nor crashed, and the socket has room or the loop does not meet a shutdown before it next clears it |
| `Waker.JammedForever` | io-reactor/src/reactor.rs:266-285 | after a `wake` met a full socket or an interruption, it waits for the mutex it holds: it never gets it, the mutex stays locked, and no `wake` of anyone returns |
| `Waker.FullSocketJams` | io-reactor/src/reactor.rs:273-279 | while the loop does not clear the waker, one controller fills the socket by successful sends, and its next send never returns |
| `Waker.RunKeepsInv` | io-reactor/src/reactor.rs:372-445 | the wake-up invariant with its bookkeeping of controllers and mutex holds in every reachable state |
| `Waker.ResetFd` | io-reactor/src/reactor.rs:296-322 | clearing the waker returns `Ok` only when the socket is empty, having read all that was there and all that arrived meanwhile, and an error exactly when a read failed |
| `ReactorSpec.RegistryStaysCoherent` | io-reactor/src/reactor.rs:372-539 | for every handler and every run: at each loop boundary every live id's descriptor maps back to it, exactly the waker and the live resources are polled, and no lookup of events or actions panics |
| `ReactorSpec.ApplyKeepsCoherence` | io-reactor/src/reactor.rs:556-648 | every action keeps that coherence and finds its index entry |
| `ReactorSpec.EventKeepsMidBatch` | io-reactor/src/reactor.rs:454-531 | within a batch, the lookups of an event succeed, and what is polled beyond the live resources is on the unregister queue and has no event to come |
| `ReactorSpec.CloseRestoresCoherence` | io-reactor/src/reactor.rs:533-536 | draining the unregister queue restores the loop-boundary invariant |
| `ReactorSpec.InterestsKeepCoherence` | io-reactor/src/reactor.rs:383-388 | setting interests gives every live resource's descriptor its own interest and keeps coherence |
| `ReactorSpec.ResourcesAfter` | io-reactor/src/reactor.rs:556-648 | which listeners and transports there are after an action, unchanged but for the one unregistered, registered or sent to, and that a new one is polled for reading |
| `ReactorSpec.ActionAnswers` | io-reactor/src/reactor.rs:556-648 | for every action, the resource handed over or the error handed back, each under its exact condition |
| `ReactorSpec.EventsReachTheirResource` | io-reactor/src/reactor.rs:454-530 | an event reaches the live resource whose descriptor it is for, by its kind; where there is none the lookup panics, but for an error on a leftover listener key |
| `ReactorSpec.SendOverWrites` | io-reactor/src/reactor.rs:616-638 | a send takes to the session as much as it is willing to take, buffered bytes first, and buffers the rest; it fails for the reason the write failed for |
| `Refinement.TurnIsIteration` | io-reactor/src/reactor.rs:372-445 | each turn of the nsh server is an iteration under any handler: the same events, then the registrations found on a wake-up, the queued actions, and removals after failed writes, leading to the same registry |
| `ReactorSpec.LeftoverListenerKey` | io-reactor/src/reactor.rs:466-496 | a registered transport gets its events if and only if its descriptor is no leftover listener key; otherwise they go to the wrong listener or panic |
| `SystemRuns.ServerRun` | io-reactor/src/reactor.rs:372-445 | every run of the nsh server in the reactor: at each poll no transport is terminated, no ready transport has messages waiting, every transport agrees with its session, only waker and live resources are polled, and each mask is what its resource asks for; no lookup panics, and a debug assertion does if and only if a writable and readable event is met whose flush of an established session fails for good; with a considerate delegate and controllers the server itself panics if and only if a listener error other than a hang-up is met |
| `SystemRuns.WhenTurnLosesListener` | nsh/src/server.rs:136-151 | with a considerate delegate and controllers, a turn ends in the server's own panic if and only if the poll reports an error other than a hang-up on a live listener |
| `SystemRuns.WhenActionsLoseListener` | nsh/src/server.rs:148-151 | for every queue, the action loop ends in that panic if and only if an `UnregisterListener` on it is for a listener registered by then |
| `SystemRuns.PanicIsReached` | src/resources.rs:385-390 | from a fresh transport, a run of four turns which hits the debug assertion |
| `SystemRuns.ListenerIsLost` | nsh/src/server.rs:136-151 | a run of two turns which ends in the server's own panic |
| `SystemRuns.RelisteningIsLost` | nsh/src/server.rs:136-151 | whenever a listener hangs up and another is registered under its id in the same turn, the turn ends in that panic |
| `SystemRuns.HangUpLeavesKey` | io-reactor/src/reactor.rs:479-487 | after the turn in which any listener hung up, the registry is coherent, the listener is gone, its descriptor still a key of the index, and the first event of a transport which is registered with that descriptor panics |
| `SystemRuns.LeftoverKeyIsReached` | io-reactor/src/reactor.rs:479-487 | a run from the start to such a leftover key |
| `SystemRuns.AcceptedIsRegistered` | nsh/src/server.rs:70-77 | a session accepted in a turn is a registered, polled transport at its end |
| `Histories.TransportsAreChronicled` | io-reactor/src/reactor.rs:498-639 | over every run of the system, for each registered transport, since its registration: the events handed to the server follow the event language of its state, their data are the bytes its session returned, and the bytes its session accepted followed by those it buffers are the payloads of its sends that returned `Ok`, in order; the events are those of the record the server itself keeps, all of them |
| `SystemSpec.ActionsTerminate` | io-reactor/src/reactor.rs:541-554 | the action loop ends for every queue and every outcome of writes, within the queue's weight and so within two rounds a queued action, with an empty queue |
| `SystemSpec.AllActionsAreApplied` | io-reactor/src/reactor.rs:541-554 | the loop applies every queued action, in order, and then nothing but removals of transports |
| `SystemSpec.ActionsEnd` | io-reactor/src/reactor.rs:541-554 | it goes on until the queue is empty or a round cannot be gone on from |
| `SystemSpec.QueueAfter` | io-reactor/src/reactor.rs:541-554 | a round takes the first action, and only a failed write adds another one |
| `SystemSpec.HandleNextLightens` | nsh/src/server.rs:120-146 | handling one action, error reaction included, strictly decreases the queue's weight |
| `SystemSpec.WhereASendGoes` | io-reactor/src/reactor.rs:616-639 | where the payload of a send ends up in each case: dropped, outbox, granted behind all earlier bytes, or failed with the transport put up for removal |
| `SystemSpec.QueuedUnregisterHappens` | io-reactor/src/reactor.rs:600-615 | a transport put up for removal is gone after the action loop unless its id is registered anew |
| `SystemSpec.HandleActionsKeep` | nsh/src/server.rs:109-112 | from a batch in which every terminated transport is up for removal, the action loop reaches a state without terminated transports |
| `SystemSpec.FailureReaction` | io-reactor/src/reactor.rs:479-525 | a hang-up removes the live resource at once and leaves its descriptor to the end of the batch, any other error asks for it to be unregistered; both indexes, masks, outbox and all other resources stay as they are |
| `SystemSpec.ServerHears` | io-reactor/src/reactor.rs:502-507 | the server is handed exactly what an operation on a transport reports, and its queue and outbox change accordingly |
| `SystemSpec.DataIsAnswered` | nsh/src/server.rs:104-108 | bytes read by an Active transport reach the delegate, and what it answers is queued |
| `SystemSpec.EndOfStreamIsHeard` | nsh/src/server.rs:109-112 | the end of the stream terminates an Active transport, is heard as a reset connection and queues the removal |
| `SystemSpec.ListenerAccepts` | io-reactor/src/reactor.rs:472-477 | a readable listener has its accepted session queued for registration, a writable one nothing |
| `SystemSpec.BothIos` | io-reactor/src/reactor.rs:502-507 | a writable and readable event is the write and, if that can be gone on from, the read |
| `SystemSpec.EventsInTurn` | io-reactor/src/reactor.rs:454-538 | the events of a batch are handled one after another, descriptors unregistered after the last |
| `SystemSpec.WhatWakes` | io-reactor/src/reactor.rs:455-465 | the loop is awoken exactly by an event of the waker |
| `SystemSpec.AllAreRegistered` | io-reactor/src/reactor.rs:433-438 | every registration found is carried out, no resource is lost, and the server does not hear of it |
| `SystemSpec.WhenRegistered` | io-reactor/src/reactor.rs:433-438 | registering succeeds exactly if each resource can be registered when its turn comes |
| `SystemSpec.OnlyWakingRegisters` | io-reactor/src/reactor.rs:415-416 | without an event of the waker the registrations in the channel make no difference |
| `SystemSpec.PhasesOfTurn` | io-reactor/src/reactor.rs:413-443 | a turn ends as the first of its phases, events, registrations and actions, that cannot be gone on from |
| `SystemSpec.QuietTurn` | io-reactor/src/reactor.rs:393-406 | a poll that times out or fails leads to nothing but the interests |
| `SystemRuns.FirstWakeupRegisters` | io-reactor/src/reactor.rs:179-181 | the wake-up at the end of the launch makes the loop register the listener its service was created with, and nothing else |
| `SystemSpec.WhenTransportEventPanics` | src/resources.rs:312-331 | the debug assertion is hit by the event of a live transport if and only if it is writable and readable, the session is established, and its flush fails with anything but `WouldBlock` and `WriteZero` |
| `SystemSpec.WhenListenerIsLost` | nsh/src/server.rs:148-151 | the server's own panic happens exactly on unregistering a listener that is still registered |
| `SystemSpec.TransitionsAreReported` | src/resources.rs:406-434 | becoming terminated, and becoming ready, is reported by exactly the operation that does it |
| `ServerSpec.OutboxConserves` | nsh/src/server.rs:96-129 | per id, over every history: rejected payloads are the released ones followed by those still held, each once and in order |
| `ServerSpec.OutboxHoldsRejected` | nsh/src/server.rs:126-129 | per id, the outbox is the payloads rejected since the id was last established |
| `ServerSpec.EstablishedReleasesOutbox` | nsh/src/server.rs:97-103 | establishing queues exactly those as sends, in order, behind the delegate's actions, and leaves other ids alone |
| `ServerSpec.EventReaction` | nsh/src/server.rs:89-114 | what each event adds to the queue, that it is recorded, and that no other outbox changes |
| `ServerSpec.ErrorReaction` | nsh/src/server.rs:120-146 | which error queues which removal, and which one puts which message into which outbox, and nothing else |
| `ServerSpec.LeftoversGoToTheNextPeer` | nsh/src/server.rs:120-129 | over every history: what the next peer under an id is sent at `Established` is what was waiting when the previous one left followed by what was rejected since, so exactly its own if and only if nothing was waiting |
| `Leftovers.MessageReachesNextPeer` | nsh/src/server.rs:96-129 | a run of seven turns from the start: a delegate sends to a peer in Handshake, which hangs up, and the next peer under its id is sent the message once established |
| `Runtime.Server.HandleTransportEvent` | nsh/src/server.rs:89-114 | the server's reaction to transport events is the specified one |
| `Runtime.Server.HandleListenerEvent` | nsh/src/server.rs:62-87 | an accepted session's transport is queued for registration, a failure changes nothing |
| `Runtime.Server.HandleError` | nsh/src/server.rs:120-146 | the server's reaction to errors is the specified one |
| `Runtime.Server.Next` | nsh/src/server.rs:158-164 | actions leave the queue first in, first out |
| `Runtime.Runtime.HandleAction` | io-reactor/src/reactor.rs:556-648 | the in-place maps, indexes and poller follow the specified action; a timer reaches the timer set and nothing else does |
| `Runtime.Runtime.HandleActions` | io-reactor/src/reactor.rs:541-554 | the loop computes the specified result, in at most as many rounds as the queue weighs; each timer asked for is covered, counted from the given time, no other is set, and none is gone |
| `Runtime.Runtime.HandleEvents` | io-reactor/src/reactor.rs:450-539 | the batch is handled event by event as specified, and the unregister queue drained |
| `Runtime.Runtime.SetInterests` | io-reactor/src/reactor.rs:383-388 | iterating the maps in any order sets exactly the specified masks |
| `Runtime.Runtime.Turn` | io-reactor/src/reactor.rs:373-444 | one pass of the loop is the specified turn, its poll timeout is the least wait of the pending timers, or an hour without any; timers are set as the queued actions ask for, counted from the time after the poll, and none is removed |
| `Runtime.RunLoop` | io-reactor/src/reactor.rs:372-445 | over any script of polls the objects follow the specified run and end coherent and without dead transports; timers stay pending, so every poll after one has become due has a timeout of zero |
| `TransportSpec.TransportRun` | src/resources.rs:312-435 | every run of events and sends from a session not established yet: nothing is reported before `Established`, then only data, then at most one final termination, which is reported exactly when the state becomes Terminated; Handshake implies an unestablished session; data reported are the bytes read; bytes accepted and buffered are the payloads of the successful sends, in order |
| `TransportSpec.RunKeeps` | src/resources.rs:385-435 | the same from any state that agrees with its history, and the state never moves backward |
| `TransportSpec.SendIsAtomic` | io-reactor/src/resource.rs:49-64 | a failed send adds none of its bytes even when it flushed older ones, a successful one adds all of them last, and `NotReady` means not Active and nothing changed |
| `TransportSpec.IoOutcome` | src/resources.rs:385-435 | which transition goes with which report, and that no bytes are read unreported |
| `TransportSpec.ReadOutcome` | src/resources.rs:335-363 | exactly which answer to a read leads to data, to `Established`, to termination and for which reason, or to nothing |
| `TransportSpec.WriteOutcome` | src/resources.rs:312-333 | exactly which answer to a write readiness establishes, terminates and for which reason, or is tried again |
| `TransportSpec.SendOutcome` | src/resources.rs:476-492 | how many bytes a send over an Active transport writes and buffers for each answer of the session, and for which reason it fails |
| `TransportSpec.InterestsOf` | src/resources.rs:374-383 | what a transport asks the poller for in every state |
| `TransportSpec.InterestAfterIo` | src/resources.rs:374-383 | what a transport asks of the poller after an event: to write throughout the handshake, and when Active while a flush is blocked |
| `TransportSpec.BytesSurfaceIffActive` | src/resources.rs:348-351 | bytes read are reported exactly by an Active transport |
| `TransportSpec.LosslessIffNotEstablished` | src/resources.rs:165-172 | without debug assertions, a new transport loses no bytes on any run if and only if its session was not established |
| `TransportSpec.TripsIffEstablishedInHandshake` | src/resources.rs:393-404 | with debug assertions, a new transport panics on no run if and only if it starts in Init or over a session not established; otherwise at its first event |
| `Resources.NetResource.WithState` | src/resources.rs:252-264 | a new transport has a full-size drained read buffer and an empty write buffer |
| `Resources.NetResource.HandleIo` | src/resources.rs:385-435 | the in-place event handler computes the specified step, with the read buffer in bounds and drained at the end |
| `Resources.NetResource.HandleReadable` | src/resources.rs:335-363 | the read half, byte for byte |
| `Resources.NetResource.HandleWritable` | src/resources.rs:312-333 | the write half, which never touches the write buffer |
| `Resources.NetResource.WriteOrBuffer` | src/resources.rs:476-492 | buffered bytes go first, the rest of the payload is buffered |
| `Resources.NetResource.WriteAtomic` | io-reactor/src/resource.rs:54-60 | the readiness test in front of it |
| `NoiseSpec.IdentityAgreement` | src/noise.rs:205-223 | in every reachable Active state the session id is present and is a key whose signature was verified, and for a dialled session the dialled key, although a mismatching key is stored before it is refused |
| `NoiseSpec.RunKeepsIdentity` | src/noise.rs:188-246 | the invariant behind it over every run of a transport on a Noise session |
| `NoiseSpec.GatedIffNothingStray` | src/noise.rs:229-246 | on every run on which the handshake acts go out whole, the bytes on the connection are the acts, then at most one credential, then what the application was told is written, if and only if no failed write of the credential put a byte there |
| `NoiseSpec.SessionGating` | src/noise.rs:229-246 | so on every run without a failed `write_all` |
| `NoiseSpec.TornCredentialIsRepeated` | src/auth.rs:23-29 | what is found there otherwise: a credential torn off in its signature is repeated in full behind its first part |
| `NoiseSpec.ReadMeetsContract` | src/noise.rs:188-226 | reads return bytes only after handshake and authentication; both are for good; then the id is known |
| `NoiseSpec.ReadProceeds` | src/noise.rs:188-224 | when a read completes the handshake and verifies the remote side, which id the session gets, and what it puts on the connection |
| `NoiseSpec.HandshakeReadAnswers` | src/noise.rs:189-204 | what a read answers during the handshake |
| `NoiseSpec.VerifyingReadAnswers` | src/noise.rs:205-223 | a genuine key is accepted if and only if none or that one was dialled; which error is given otherwise |
| `NoiseSpec.EstablishedReadAnswers` | src/noise.rs:225 | once established, a read is one of the connection |
| `NoiseSpec.WriteMeetsContract` | src/noise.rs:230-246 | writes keep that contract and the identity |
| `NoiseSpec.WriteAnswers` | src/noise.rs:230-246 | what a write puts on the connection and answers in each phase |
| `NoiseSpec.SendSucceedsIffCertified` | src/noise.rs:241-244 | over a willing connection, a send on an Active transport succeeds if and only if the credential was sent |
| `NoiseSpec.FirstSendFails` | src/noise.rs:241-244 | over runs: once Active without it, no number of events sends the credential, and the first send fails with an I/O error whatever the connection answers, grants nothing, and puts at most the credential on the connection |
| `NoiseSpec.ActiveBeforeCertified` | src/noise.rs:416-418 | such a transport without credential is reached from an accepted connection |
| `NoiseSpec.DialledIsEstablished` | src/noise.rs:205-223 | a dialled session becomes Active under the dialled id when that peer proves its key, and is terminated when another does |
| `NoiseSpec.WritableCertifies` | src/resources.rs:313-316 | readiness to write before the remote side is verified sends the credential |
| `NoiseSpec.SessionServes` | src/noise.rs:188-246 | with a cooperative connection and a genuine peer, an accepted and a dialled session alike go through handshake and both credentials to a send whose whole payload is on the connection behind acts and credential |
| `Noise.NoiseXk.Read` | src/noise.rs:188-226 | the in-place read follows the specification |
| `Noise.NoiseXk.Write` | src/noise.rs:230-246 | the in-place write follows the specification |
| `Noise.Authenticator.Certify` | src/auth.rs:23-29 | key and signature go out in this order, and only a complete credential is marked as sent |
| `Noise.Authenticator.Verify` | src/auth.rs:32-50 | a key is stored if and only if it and its signature could be read and the signature holds |
| `Noise.Accept` | src/noise.rs:324-333 | an inbound session starts silent, with a partial address |
| `Noise.ConnectNonblocking` | src/noise.rs:391-407 | an outbound session starts silent, with the dialled address |
| `Noise.ConnectBlocking` | src/noise.rs:335-388 | a returned session is established, has put its acts and one credential on the wire and verified the dialled key; it is returned, panics, or is refused with a given error each under its exact condition on handshake, credential, key and signature |
| `Noise.ShakeEnds` | src/noise.rs:347-362 | the blocking handshake ends at the first round that does not go on: with the acts of all rounds so far if that completes it, else with its error |
| `Frames.StreamingRoundTrip` | src/frame.rs:35-50 | for every lawful codec and every interleaving of pushes, short reads, writes and pops: the popped frames are a prefix of those pushed, `pop` never fails, and once all bytes have moved popping yields all of them |
| `Frames.BytesCanMove` | src/frame.rs:69-78 | at any time one read and one write bring all bytes under way to the receiver |
| `Frames.RunFaithful` | src/frame.rs:69-84 | the invariant behind it: the bytes in the three buffers are those of the frames not popped yet |
| `Frames.PopNext` | src/frame.rs:41-50 | a frame is popped exactly when its last byte has arrived |
| `Frames.MovedBytesYieldAllFrames` | src/frame.rs:41-50 | popping as often as frames are missing yields them all and leaves nothing |
| `Frames.Marshaller.Push` | src/frame.rs:35-39 | appends the marshalled frame |
| `Frames.Marshaller.Pop` | src/frame.rs:41-50 | removes exactly the consumed bytes, and only on success |
| `Frames.Marshaller.Read` | src/frame.rs:69-73 | moves a prefix of the queue, possibly short, into the buffer |
| `Frames.Marshaller.Write` | src/frame.rs:75-78 | takes the whole buffer |
| `Frames.Marshaller.Drain` | src/frame.rs:60-66 | hands back the input only when no output waits |
| `Timeouts.RunsStaySpacedAndCover` | io-reactor/src/timeouts.rs:58-125 | over every mix of `register` and `check`: latest first, pairwise at least a threshold apart, n timers spanning n - 1 thresholds, and every requested deadline, refused ones included, met or covered by a pending or fired timer |
| `Timeouts.ExactFiring` | io-reactor/src/timeouts.rs:113-125 | a check conserves the timers, fires exactly those due, earliest first, and leaves only positive waits |
| `Timeouts.FiredKeyAt` | io-reactor/src/timeouts.rs:116-118 | the keys handed out are those of the due timers, from the last in the vector to the first |
| `Timeouts.RequestIsCovered` | io-reactor/src/timeouts.rs:58-75 | a requested deadline is covered whether it is admitted or refused, and no other timer is added |
| `Timeouts.Packing` | io-reactor/src/timeouts.rs:58-75 | n spaced timers span at least n - 1 thresholds |
| `Timeouts.TimeoutManager.Register` | io-reactor/src/timeouts.rs:58-75 | refuses exactly the crowded deadlines, otherwise adds the timer to the sorted, spaced vector |
| `Timeouts.TimeoutManager.Next` | io-reactor/src/timeouts.rs:100-109 | the wait after which the first timer becomes due, zero once one is |
| `Timeouts.TimeoutManager.Check` | io-reactor/src/timeouts.rs:113-125 | the pop loop appends the keys of the due timers in firing order and keeps the rest |
| `Tunnel.TunnelConserves` | src/tunnel.rs:95-165 | after every event of every run, in each direction, bytes written followed by the buffer are the bytes read, the counters are the lengths written, and an end has write interest exactly when bytes wait for it |
| `Tunnel.NoEmptyWrites` | src/tunnel.rs:117-163 | at every poll of every run no write is attempted with an empty buffer |
| `Tunnel.EventMoves` | src/tunnel.rs:117-163 | what readiness of either end moves: the bytes written leave its buffer and are counted, those read join the other buffer; exactly when the tunnel goes on, is over, or breaks, and with which error |
| `Tunnel.ErrorEnds` | src/tunnel.rs:104-116 | a hang-up ends the tunnel, any other poll error breaks it |
| `Tunnel.BatchEnds` | src/tunnel.rs:103-164 | the events of a poll are handled one by one up to the first that ends the tunnel |
| `Tunnel.RunEnds` | src/tunnel.rs:95-165 | a run goes on until a poll fails, times out or reports such an event, and returns what that asks for |
| `Tunnel.Tunnel.TunnelOnce` | src/tunnel.rs:34-166 | the loop computes the specified outcome; whenever it returns `Ok`, what this call wrote to each end is a prefix of what it read from the other, whatever the session carried before, and the returned pair is exact |
| `Polling.WriteBeforeRead` | io-reactor/src/poller/mod.rs:73-87 | iterating an `IoType` yields the write before the read, each at most once |
| `Polling.EventOf` | io-reactor/src/poller/popol.rs:64-75 | a hang-up outweighs an error and an error readiness, which is reported flag by flag |
| `Polling.Poller.SetInterest` | io-reactor/src/poller/popol.rs:37-45 | unset-then-set leaves exactly the interest asked for, whatever the mask was |
| `Polling.Poller.Poll` | io-reactor/src/poller/popol.rs:47-83 | appends one event per reported descriptor and answers their number |
| `Polling.Poller.Next` | io-reactor/src/poller/popol.rs:86-107 | events leave the queue first in, first out |

## Left out

- Sockets, listeners and proxies (src/connection.rs, src/listener.rs, src/session.rs, src/socks5.rs): their results are inputs of the model.
- Cryptography and the Noise transcoder, which are not part of this repository: a signature predicate, and a machine with arbitrary answers and a flag that is raised once.
- `re-actor/` and `src/actors/`: an older reactor with a copy of the timer set.
- The nsh command line, shell, client and command processing: the delegate's actions are arbitrary inputs.
- Split and merge of sessions, and the `Read`/`Write` implementations of an unregistered `NetResource`: field copying and delegation.
- `NetResource.with_session`: it makes an Active transport with an empty read buffer; runs start from `with_state`.
- Delivery of buffered bytes: `handle_writable` flushes the session but never drains the write buffer, so nothing can be promised.
- Firing of timers inside the runtime: the loop never calls `check`.
- Commands and messages left in the channels when the loop stops on a shutdown: they are dropped with it.
- Commands and the shutdown message inside `Runtime.Runtime.Turn`: the server ignores the former, a run ends with the latter; their order and delivery are the subject of `Waker.dfy`.
- A waker socket which cannot be read, in `SystemSpec.dfy` and above, and a system clock before 1970: the loop panics on
  both. `Waker.dfy` has a step for the first one (`ClearFails`); above, `PossibleBatch` takes a working waker for granted.
- Poisoning of the waker mutex, and the "channel is broken" panics: the runtime holds a controller itself, so its channels stay connected.
- Overflow of `Duration` and of the byte counters: numbers are unbounded.
- Runtime.Runtime.HandleEvents: transports live in the map as values, so that the in-place update of one transport is that of its map entry; `Resources.NetResource` is proved separately to compute the functions applied to them.
- Runtime.Runtime.Turn: is stated for turns which do not end in a panic, since nothing is left to describe then; `SystemRuns.ServerRun` says which do.

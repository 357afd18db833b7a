/** The `NoiseXk` session (src/noise.rs) and its authenticator (src/auth.rs), on values. The Noise
    transcoder is an abstract machine which, until its `complete` flag is raised for good, may
    answer an advance with an act, with nothing, or with an error. */
module NoiseSpec {
  import opened Base
  import opened TransportSpec

  type Key = Bytes

  /** Whether a signature over the key itself is valid under the key. */
  type Scheme = (Key, Bytes) -> bool

  datatype XkAddr = Partial(addr: nat) | Full(id: Key, addr: nat)
  {
    function Upgrade(id: Key): (XkAddr, bool)
    {
      match this
      case Partial(addr) => (XkAddr.Full(id, addr), true)
      case Full(_, _) => (this, false)
    }

    function PeerId(): Option<Key>
    {
      match this
      case Partial(_) => None
      case Full(id, _) => Some(id)
    }
  }

  datatype Auth = Auth(sent: bool, pubkey: Key, signature: Bytes, remoteId: Option<Key>)

  /** `wire` is every byte the endpoint has put on its connection. */
  datatype Noise = Noise(addr: XkAddr, complete: bool, auth: Auth, wire: Bytes)

  // ---------------------------------------------------------------- Environment answers

  /** How a `write_all` ends: everything written, or an error after some of the bytes. */
  datatype Writing = Written | Torn(taken: nat, kind: ErrorKind)

  /** How `advance_handshake` answers, and whether the handshake is complete afterwards. */
  datatype Advance = Advance(act: Result<Option<Bytes>, ()>, complete: bool)

  datatype ReadEnv = ReadEnv(
    input: Result<Bytes, ErrorKind>, advance: Advance, sending: Writing,
    key: Result<Key, ErrorKind>, signature: Result<Bytes, ErrorKind>,
    data: Result<Bytes, ErrorKind>)

  datatype WriteEnv = WriteEnv(
    advance: Advance, sending: Writing,
    sendingKey: Writing, sendingSignature: Writing,
    data: Result<nat, ErrorKind>)

  const KEY_LEN: nat := 32
  const SIGNATURE_LEN: nat := 64

  predicate PossibleRead(env: ReadEnv, capacity: nat)
  {
    && (env.key.Ok? ==> |env.key.value| == KEY_LEN)
    && (env.signature.Ok? ==> |env.signature.value| == SIGNATURE_LEN)
    && (env.data.Ok? ==> |env.data.value| <= capacity)
  }

  predicate PossibleWrite(env: WriteEnv, len: nat)
  {
    env.data.Ok? ==> env.data.value <= len
  }

  // ---------------------------------------------------------------- The endpoint's calls

  /** The part of `data` which a `write_all` puts on the connection. */
  function Taken(data: Bytes, writing: Writing): Bytes
  {
    if writing.Written? then data else data[..Min(writing.taken, |data|)]
  }

  function WriteResult(writing: Writing): Result<(), ErrorKind>
  {
    if writing.Written? then Ok(()) else Err(writing.kind)
  }

  function Certify(auth: Auth, sendingKey: Writing, sendingSignature: Writing)
    : (Auth, Bytes, Result<(), ErrorKind>)
  {
    if sendingKey.Torn? then (auth, Taken(auth.pubkey, sendingKey), Err(sendingKey.kind))
    else if sendingSignature.Torn? then
      (auth, auth.pubkey + Taken(auth.signature, sendingSignature), Err(sendingSignature.kind))
    else (auth.(sent := true), auth.pubkey + auth.signature, Ok(()))
  }

  function Verify(genuine: Scheme, auth: Auth, key: Result<Key, ErrorKind>, signature: Result<Bytes, ErrorKind>)
    : (Auth, Result<Option<Key>, ErrorKind>)
  {
    if key.Err? then (auth, Err(key.error))
    else if signature.Err? then (auth, Err(signature.error))
    else if !genuine(key.value, signature.value) then (auth, Ok(None))
    else (auth.(remoteId := Some(key.value)), Ok(Some(key.value)))
  }

  function Read(genuine: Scheme, noise: Noise, env: ReadEnv): (Noise, Result<Bytes, ErrorKind>)
  {
    if !noise.complete then
      match env.input
      case Err(kind) => (noise, Err(kind))
      case Ok(_) =>
        var advanced := noise.(complete := env.advance.complete);
        match env.advance.act
        case Err(_) => (advanced, Err(ConnectionAborted))
        case Ok(None) => (advanced, Ok([]))
        case Ok(Some(act)) =>
          var next := advanced.(wire := advanced.wire + Taken(act, env.sending));
          if env.sending.Torn? then (next, Err(env.sending.kind)) else (next, Ok([]))
    else if noise.auth.remoteId.None? then
      var (auth, verified) := Verify(genuine, noise.auth, env.key, env.signature);
      var next := noise.(auth := auth);
      match verified
      case Err(kind) => (next, Err(kind))
      case Ok(None) => (next, Err(InvalidInput))
      case Ok(Some(remote)) =>
        if next.addr.Full? && remote != next.addr.id then (next, Err(ConnectionReset))
        else (next.(addr := next.addr.Upgrade(remote).0), Ok([]))
    else (noise, env.data)
  }

  function Write(noise: Noise, buf: Bytes, env: WriteEnv): (Noise, Result<nat, ErrorKind>)
    requires PossibleWrite(env, |buf|)
  {
    if !noise.complete then
      var advanced := noise.(complete := env.advance.complete);
      match env.advance.act
      case Err(_) => (advanced, Err(ConnectionAborted))
      case Ok(None) => (advanced, Err(Interrupted))
      case Ok(Some(act)) =>
        var next := advanced.(wire := advanced.wire + Taken(act, env.sending));
        if env.sending.Torn? then (next, Err(env.sending.kind)) else (next, Err(Interrupted))
    else if !noise.auth.sent then
      var (auth, bytes, res) := Certify(noise.auth, env.sendingKey, env.sendingSignature);
      var next := noise.(auth := auth, wire := noise.wire + bytes);
      if res.Err? then (next, Err(res.error)) else (next, Err(Interrupted))
    else
      match env.data
      case Err(kind) => (noise, Err(kind))
      case Ok(n) => (noise.(wire := noise.wire + buf[..n]), Ok(n))
  }

  // ---------------------------------------------------------------- Gating

  datatype Op = ReadOp(read: ReadEnv) | WriteOp(buf: Bytes, write: WriteEnv)

  /** No `write_all` of a handshake act fails in this operation; that of a credential may. */
  predicate ActsWritten(op: Op)
  {
    match op
    case ReadOp(env) => env.sending.Written?
    case WriteOp(buf, env) => PossibleWrite(env, |buf|) && env.sending.Written?
  }

  /** No `write_all` of the credential fails either. */
  predicate CredentialWritten(op: Op)
  {
    op.WriteOp? ==> op.write.sendingKey.Written? && op.write.sendingSignature.Written?
  }

  /** An endpoint with the handshake acts it produced and the application bytes it accepted. */
  datatype Trace = Trace(noise: Noise, acts: seq<Bytes>, app: Bytes)

  /** The act the transcoder hands out in this operation, if it is advanced at all. */
  function ActOf(noise: Noise, op: Op): seq<Bytes>
  {
    var advance := if op.ReadOp? then op.read.advance else op.write.advance;
    if noise.complete || (op.ReadOp? && op.read.input.Err?) then []
    else if advance.act.Ok? && advance.act.value.Some? then [advance.act.value.value]
    else []
  }

  function StepTrace(genuine: Scheme, trace: Trace, op: Op): Trace
    requires ActsWritten(op)
  {
    var acts := trace.acts + ActOf(trace.noise, op);
    match op
    case ReadOp(env) => Trace(Read(genuine, trace.noise, env).0, acts, trace.app)
    case WriteOp(buf, env) =>
      var (noise, res) := Write(trace.noise, buf, env);
      Trace(noise, acts, trace.app + if res.Ok? then buf[..res.value] else [])
  }

  function RunTrace(genuine: Scheme, trace: Trace, ops: seq<Op>): Trace
    requires forall op | op in ops :: ActsWritten(op)
    decreases |ops|
  {
    if ops == [] then trace else RunTrace(genuine, StepTrace(genuine, trace, ops[0]), ops[1..])
  }

  /** What a failed write of the credential in this operation puts on the connection. */
  function StrayOf(noise: Noise, op: Op): Bytes
  {
    if op.WriteOp? && noise.complete && !noise.auth.sent then
      var (_, bytes, res) := Certify(noise.auth, op.write.sendingKey, op.write.sendingSignature);
      if res.Err? then bytes else []
    else []
  }

  /** What all failed writes of the credential have put on the connection. */
  function Stray(genuine: Scheme, trace: Trace, ops: seq<Op>): Bytes
    requires forall op | op in ops :: ActsWritten(op)
    decreases |ops|
  {
    if ops == [] then []
    else StrayOf(trace.noise, ops[0]) + Stray(genuine, StepTrace(genuine, trace, ops[0]), ops[1..])
  }

  /** The bytes which belong on the connection: the handshake acts, then at most one credential, then
      the accepted application bytes. */
  function Expected(trace: Trace): Bytes
  {
    var auth := trace.noise.auth;
    Flatten(trace.acts) + (if auth.sent then auth.pubkey + auth.signature else []) + trace.app
  }

  /** Credentials and application bytes wait for the handshake, application bytes for the credential. */
  predicate Phased(trace: Trace)
  {
    var auth := trace.noise.auth;
    && (auth.sent || auth.remoteId.Some? ==> trace.noise.complete)
    && (!auth.sent ==> trace.app == [])
  }

  predicate Gated(trace: Trace)
  {
    Phased(trace) && trace.noise.wire == Expected(trace)
  }

  lemma FlattenActs(trace: Trace, op: Op)
    ensures var acts := ActOf(trace.noise, op);
            && Flatten(trace.acts + acts) == Flatten(trace.acts) + Flatten(acts)
            && (acts != [] ==> Flatten(acts) == acts[0])
  {
    var acts := ActOf(trace.noise, op);
    FlattenAppend(trace.acts, acts);
    if acts != [] {
      assert Flatten(acts) == acts[0] + Flatten([]);
    }
  }

  lemma HandshakeRead(genuine: Scheme, trace: Trace, env: ReadEnv)
    requires Phased(trace) && ActsWritten(ReadOp(env)) && !trace.noise.complete
    ensures var next := StepTrace(genuine, trace, ReadOp(env));
            && Phased(next) && next.app == [] && !next.noise.auth.sent
            && next.noise.wire == trace.noise.wire + Flatten(ActOf(trace.noise, ReadOp(env)))
  {
    FlattenActs(trace, ReadOp(env));
  }

  lemma HandshakeWrite(genuine: Scheme, trace: Trace, buf: Bytes, env: WriteEnv)
    requires Phased(trace) && ActsWritten(WriteOp(buf, env)) && !trace.noise.complete
    ensures var next := StepTrace(genuine, trace, WriteOp(buf, env));
            && Phased(next) && next.app == [] && !next.noise.auth.sent
            && next.noise.wire == trace.noise.wire + Flatten(ActOf(trace.noise, WriteOp(buf, env)))
  {
    FlattenActs(trace, WriteOp(buf, env));
  }

  /** Before completion nothing but acts is put on the connection. */
  lemma HandshakeStep(genuine: Scheme, trace: Trace, op: Op)
    requires Phased(trace) && ActsWritten(op) && !trace.noise.complete
    ensures var next := StepTrace(genuine, trace, op);
            var act := Flatten(ActOf(trace.noise, op));
            && Phased(next)
            && next.noise.wire == trace.noise.wire + act && Expected(next) == Expected(trace) + act
  {
    FlattenActs(trace, op);
    match op {
      case ReadOp(env) => HandshakeRead(genuine, trace, env);
      case WriteOp(buf, env) => HandshakeWrite(genuine, trace, buf, env);
    }
    assert StepTrace(genuine, trace, op).acts == trace.acts + ActOf(trace.noise, op);
  }

  /** After completion, what is put there besides the stray bytes is what is expected next. */
  lemma SettledStep(genuine: Scheme, trace: Trace, op: Op) returns (more: Bytes)
    requires Phased(trace) && ActsWritten(op) && trace.noise.complete
    ensures var next := StepTrace(genuine, trace, op);
            && Phased(next)
            && next.noise.wire == trace.noise.wire + StrayOf(trace.noise, op) + more
            && Expected(next) == Expected(trace) + more
  {
    var auth := trace.noise.auth;
    assert trace.acts + [] == trace.acts;
    if op.ReadOp? {
      more := [];
    } else if auth.sent {
      more := if op.write.data.Ok? then op.buf[..op.write.data.value] else [];
      var head := Flatten(trace.acts) + (auth.pubkey + auth.signature);
      assert head + trace.app + more == head + (trace.app + more);
    } else {
      var certified := Certify(auth, op.write.sendingKey, op.write.sendingSignature).2;
      more := if certified.Ok? then auth.pubkey + auth.signature else [];
      assert Flatten(trace.acts) + more + [] == Flatten(trace.acts) + [] + [] + more;
    }
  }

  /** One operation keeps an endpoint gated exactly when it leaves no stray bytes, and the connection
      grows by what is expected next and what is stray. */
  lemma StepGated(genuine: Scheme, trace: Trace, op: Op)
    requires Phased(trace) && ActsWritten(op)
    ensures var next := StepTrace(genuine, trace, op);
            && Phased(next)
            && |next.noise.wire| - |Expected(next)| ==
                 |trace.noise.wire| - |Expected(trace)| + |StrayOf(trace.noise, op)|
            && (Gated(trace) && StrayOf(trace.noise, op) == [] ==> Gated(next))
  {
    if trace.noise.complete {
      var _ := SettledStep(genuine, trace, op);
    } else {
      HandshakeStep(genuine, trace, op);
    }
  }

  lemma {:induction false} RunGated(genuine: Scheme, trace: Trace, ops: seq<Op>)
    requires Phased(trace) && forall op | op in ops :: ActsWritten(op)
    ensures var end := RunTrace(genuine, trace, ops);
            && |end.noise.wire| - |Expected(end)| ==
                 |trace.noise.wire| - |Expected(trace)| + |Stray(genuine, trace, ops)|
            && (Gated(trace) && Stray(genuine, trace, ops) == [] ==> Gated(end))
    decreases |ops|
  {
    if ops != [] {
      StepGated(genuine, trace, ops[0]);
      RunGated(genuine, StepTrace(genuine, trace, ops[0]), ops[1..]);
    }
  }

  predicate FreshNoise(noise: Noise)
  {
    !noise.complete && !noise.auth.sent && noise.auth.remoteId == None && noise.wire == []
  }

  /** Over every run from a fresh authenticator and a silent connection on which the acts go out
      whole: the bytes on the connection are acts, credential and application bytes in this order if
      and only if no failed write of the credential has put a byte there. */
  lemma GatedIffNothingStray(genuine: Scheme, noise: Noise, ops: seq<Op>)
    requires FreshNoise(noise) && forall op | op in ops :: ActsWritten(op)
    ensures var start := Trace(noise, [], []);
            Gated(RunTrace(genuine, start, ops)) <==> Stray(genuine, start, ops) == []
  {
    RunGated(genuine, Trace(noise, [], []), ops);
  }

  lemma {:induction false} CleanLeavesNothingStray(genuine: Scheme, trace: Trace, ops: seq<Op>)
    requires forall op | op in ops :: ActsWritten(op)
    requires forall op | op in ops :: CredentialWritten(op)
    ensures Stray(genuine, trace, ops) == []
    decreases |ops|
  {
    if ops != [] {
      assert ops[0] in ops && ActsWritten(ops[0]) && CredentialWritten(ops[0]);
      assert StrayOf(trace.noise, ops[0]) == [];
      CleanLeavesNothingStray(genuine, StepTrace(genuine, trace, ops[0]), ops[1..]);
    }
  }

  /** In particular on every run without a failed `write_all`. */
  lemma SessionGating(genuine: Scheme, noise: Noise, ops: seq<Op>)
    requires FreshNoise(noise) && forall op | op in ops :: ActsWritten(op)
    requires forall op | op in ops :: CredentialWritten(op)
    ensures Gated(RunTrace(genuine, Trace(noise, [], []), ops))
  {
    CleanLeavesNothingStray(genuine, Trace(noise, [], []), ops);
    GatedIffNothingStray(genuine, noise, ops);
  }

  /** What happens otherwise: a credential whose signature was torn off is sent again from its
      beginning, behind the bytes which had gone out. */
  lemma TornCredentialIsRepeated(noise: Noise, buf: Bytes, torn: WriteEnv, clean: WriteEnv)
    requires noise.complete && !noise.auth.sent
    requires PossibleWrite(torn, |buf|) && torn.sendingKey.Written? && torn.sendingSignature.Torn?
    requires PossibleWrite(clean, |buf|) && clean.sendingKey.Written? && clean.sendingSignature.Written?
    ensures var first := Write(noise, buf, torn).0;
            var second := Write(first, buf, clean).0;
            var part := Taken(noise.auth.signature, torn.sendingSignature);
            && !first.auth.sent && second.auth.sent
            && StrayOf(noise, WriteOp(buf, torn)) == noise.auth.pubkey + part
            && second.wire == noise.wire + (noise.auth.pubkey + part) + (noise.auth.pubkey + noise.auth.signature)
  {
  }

  // ---------------------------------------------------------------- The session contract

  /** `is_session_established` and `session_id` */
  function Observe(noise: Noise): Face<Key>
  {
    Face(noise.complete && noise.auth.remoteId.Some?, noise.addr.PeerId())
  }

  /** A verified remote key implies a finished handshake and a full address. */
  predicate Settled(noise: Noise)
  {
    noise.auth.remoteId.Some? ==> noise.complete && noise.addr.Full?
  }

  /** `NoiseXk` meets what `NetResource` relies on: reads return bytes only after handshake and
      authentication, both are for good, and then the session id is known. */
  lemma ReadMeetsContract(genuine: Scheme, noise: Noise, capacity: nat, env: ReadEnv)
    requires Settled(noise) && PossibleRead(env, capacity)
    ensures var (next, res) := Read(genuine, noise, env);
            && Settled(next)
            && LawfulRead(Observe(noise), capacity, ReadAnswer(res, Observe(next)))
            && (res.Ok? && res.value != [] ==> noise.complete && noise.auth.remoteId.Some?)
  {
  }

  lemma WriteMeetsContract(noise: Noise, buf: Bytes, env: WriteEnv)
    requires Settled(noise) && PossibleWrite(env, |buf|)
    ensures var (next, res) := Write(noise, buf, env);
            && Settled(next)
            && LawfulWrite(Observe(noise), |buf|, WriteAnswer(res, Observe(next)))
            && next.addr == noise.addr && next.auth.remoteId == noise.auth.remoteId
            && (noise.complete ==> Observe(next) == Observe(noise))
  {
  }

  // ---------------------------------------------------------------- What the calls answer

  /** The remote side has sent a key together with a genuine signature. */
  predicate Genuine(genuine: Scheme, env: ReadEnv)
  {
    env.key.Ok? && env.signature.Ok? && genuine(env.key.value, env.signature.value)
  }

  predicate Verifying(noise: Noise)
  {
    noise.complete && noise.auth.remoteId == None
  }

  /** A session passes through its phases by what it reads: the handshake is complete when the transcoder says
      so; the remote side is verified exactly when it has sent a key with a genuine signature; and the
      session has the id of that key unless another one was dialled. */
  lemma ReadProceeds(genuine: Scheme, noise: Noise, env: ReadEnv)
    requires Settled(noise)
    ensures var next := Read(genuine, noise, env).0;
            var proven := Verifying(noise) && Genuine(genuine, env);
            && (next.complete <==> noise.complete || (env.input.Ok? && env.advance.complete))
            && next.auth == (if proven then noise.auth.(remoteId := Some(env.key.value)) else noise.auth)
            && next.addr.addr == noise.addr.addr
            && (proven && noise.addr.PeerId() == None ==> next.addr.PeerId() == Some(env.key.value))
            && (!proven || noise.addr.PeerId().Some? ==> next.addr == noise.addr)
    ensures var act := ActOf(noise, ReadOp(env));
            Read(genuine, noise, env).0.wire == noise.wire + (if act == [] then [] else Taken(act[0], env.sending))
  {
    assert noise.wire + [] == noise.wire;
  }

  /** What a read answers in the handshake: nothing, or the error of the step which failed. */
  lemma HandshakeReadAnswers(genuine: Scheme, noise: Noise, env: ReadEnv)
    requires !noise.complete
    ensures var res := Read(genuine, noise, env).1;
            var act := env.advance.act;
            && (res.Ok? ==> res == Ok([]))
            && (res.Ok? <==> env.input.Ok? && act.Ok? && (act.value.Some? ==> env.sending.Written?))
            && (env.input.Err? ==> res == Err(env.input.error))
            && (env.input.Ok? && act.Err? ==> res == Err(ConnectionAborted))
            && (env.input.Ok? && act.Ok? && res.Err? ==> env.sending.Torn? && res == Err(env.sending.kind))
  {
  }

  /** What it answers next: nothing to a genuine key which nobody, or the very peer, was dialled under; and
      else `ConnectionReset` for another key, `InvalidInput` for a signature which does not hold, or the
      error of the connection. */
  lemma VerifyingReadAnswers(genuine: Scheme, noise: Noise, env: ReadEnv)
    requires Verifying(noise)
    ensures var res := Read(genuine, noise, env).1;
            var expected := noise.addr.PeerId();
            && (res.Ok? ==> res == Ok([]))
            && (res.Ok? <==> Genuine(genuine, env) && (expected == None || expected == Some(env.key.value)))
            && (Genuine(genuine, env) && res.Err? ==> res == Err(ConnectionReset))
            && (env.key.Err? ==> res == Err(env.key.error))
            && (env.key.Ok? && env.signature.Err? ==> res == Err(env.signature.error))
            && (env.key.Ok? && env.signature.Ok? && !Genuine(genuine, env) ==> res == Err(InvalidInput))
  {
  }

  /** And from then on, what the connection does. */
  lemma EstablishedReadAnswers(genuine: Scheme, noise: Noise, env: ReadEnv)
    requires Observe(noise).established
    ensures Read(genuine, noise, env) == (noise, env.data)
  {
  }

  /** What a write does: in the handshake it goes on with it, then it sends the credential, each time with an
      error for the caller, and only then it writes, as much as the connection takes. */
  lemma WriteAnswers(noise: Noise, buf: Bytes, env: WriteEnv)
    requires PossibleWrite(env, |buf|)
    ensures var (next, res) := Write(noise, buf, env);
            var certified := env.sendingKey.Written? && env.sendingSignature.Written?;
            && (next.complete <==> noise.complete || env.advance.complete)
            && next.auth == noise.auth.(sent := noise.auth.sent || (noise.complete && certified))
            && next.addr == noise.addr
            && (res.Ok? <==> noise.complete && noise.auth.sent && env.data.Ok?)
    ensures var (next, res) := Write(noise, buf, env);
            noise.complete && noise.auth.sent ==>
              && res == env.data
              && next.wire == noise.wire + (if env.data.Ok? then buf[..env.data.value] else [])
    ensures var (next, res) := Write(noise, buf, env);
            noise.complete && !noise.auth.sent ==>
              && (env.sendingKey.Torn? ==> res == Err(env.sendingKey.kind))
              && (env.sendingKey.Written? && env.sendingSignature.Torn? ==> res == Err(env.sendingSignature.kind))
              && (next.auth.sent ==> res == Err(Interrupted))
              && (next.auth.sent ==> next.wire == noise.wire + (noise.auth.pubkey + noise.auth.signature))
    ensures var (next, res) := Write(noise, buf, env);
            var act := ActOf(noise, WriteOp(buf, env));
            !noise.complete ==>
              && next.wire == noise.wire + (if act == [] then [] else Taken(act[0], env.sending))
              && (env.advance.act.Err? ==> res == Err(ConnectionAborted))
              && (act != [] && env.sending.Torn? ==> res == Err(env.sending.kind))
              && (env.advance.act.Ok? && (act == [] || env.sending.Written?) ==> res == Err(Interrupted))
  {
    assert noise.wire + [] == noise.wire;
  }

  // ---------------------------------------------------------------- A transport over NoiseXk

  datatype Peer = Peer(net: Net<Key>, noise: Noise)

  datatype PeerOp =
    | Readable(read: ReadEnv)
    | Writable(write: WriteEnv, flush: Result<(), ErrorKind>)
    | Send(payload: Bytes, first: WriteEnv, second: WriteEnv)

  /** What the operating system can answer, and the reactor not dispatching to a dead transport. */
  predicate PossibleOp(peer: Peer, op: PeerOp)
  {
    match op
    case Readable(env) => peer.net.state != TransportState.Terminated && PossibleRead(env, READ_BUFFER_SIZE)
    case Writable(env, _) => peer.net.state != TransportState.Terminated && PossibleWrite(env, 0)
    case Send(payload, first, second) =>
      PossibleWrite(first, |peer.net.writeBuffer|) && PossibleWrite(second, |payload|)
  }

  /** The transport input which an operation amounts to, and the endpoint after it. */
  function Play(genuine: Scheme, peer: Peer, op: PeerOp): (Input<Key>, Noise)
    requires PossibleOp(peer, op)
  {
    match op
    case Readable(env) =>
      var (noise, res) := Read(genuine, peer.noise, env);
      (OnIo(OnRead(ReadAnswer(res, Observe(noise)))), noise)
    case Writable(env, flush) =>
      var (written, res) := Write(peer.noise, [], env);
      var noise := if peer.net.session.established then peer.noise else written;
      (OnIo(OnWrite(WriteAnswer(res, Observe(written)), flush)), noise)
    case Send(payload, first, second) =>
      var (noise1, res1) := Write(peer.noise, peer.net.writeBuffer, first);
      var (noise2, res2) := Write(noise1, payload, second);
      var noise :=
        if peer.net.state != Active then peer.noise
        else if res1.Err? || res1.value < |peer.net.writeBuffer| then noise1
        else noise2;
      (OnSend(payload, WriteAnswer(res1, Observe(noise1)), WriteAnswer(res2, Observe(noise2))), noise)
  }

  lemma PlayIsLawful(genuine: Scheme, peer: Peer, op: PeerOp)
    requires PossibleOp(peer, op) && Settled(peer.noise) && peer.net.session == Observe(peer.noise)
    ensures Lawful(peer.net, Play(genuine, peer, op).0)
  {
    match op
    case Readable(env) => ReadMeetsContract(genuine, peer.noise, READ_BUFFER_SIZE, env);
    case Writable(env, _) => WriteMeetsContract(peer.noise, [], env);
    case Send(payload, first, second) =>
      WriteMeetsContract(peer.noise, peer.net.writeBuffer, first);
      WriteMeetsContract(Write(peer.noise, peer.net.writeBuffer, first).0, payload, second);
  }

  ghost predicate Proven(genuine: Scheme, key: Key)
  {
    exists signature :: genuine(key, signature)
  }

  /** What holds of a transport and its endpoint between calls; `dialled` is the id an outbound
      session was opened for. A key which was verified but is not the one expected can only
      be found on a terminated transport. */
  ghost predicate Identified(genuine: Scheme, dialled: Option<Key>, peer: Peer)
  {
    && Settled(peer.noise) && peer.net.session == Observe(peer.noise) && Agrees(peer.net)
    && (dialled.Some? ==> peer.noise.addr.PeerId() == dialled)
    && (peer.noise.auth.remoteId.Some? ==> Proven(genuine, peer.noise.auth.remoteId.value))
    && (peer.net.state != TransportState.Terminated && peer.noise.auth.remoteId.Some? ==>
          peer.noise.addr.PeerId() == peer.noise.auth.remoteId)
  }

  function StepPeer(genuine: Scheme, peer: Peer, op: PeerOp): Peer
    requires PossibleOp(peer, op) && Settled(peer.noise) && peer.net.session == Observe(peer.noise)
  {
    PlayIsLawful(genuine, peer, op);
    var (input, noise) := Play(genuine, peer, op);
    Peer(Step(StartLog(peer.net), input).net, noise)
  }

  lemma ReadableKeepsIdentity(genuine: Scheme, dialled: Option<Key>, peer: Peer, env: ReadEnv)
    requires Identified(genuine, dialled, peer) && PossibleOp(peer, Readable(env))
    ensures Identified(genuine, dialled, StepPeer(genuine, peer, Readable(env)))
  {
    ReadMeetsContract(genuine, peer.noise, READ_BUFFER_SIZE, env);
    var (noise, res) := Read(genuine, peer.noise, env);
    IoOutcome(peer.net, OnRead(ReadAnswer(res, Observe(noise))));
    if peer.noise.complete && peer.noise.auth.remoteId.None? && noise.auth.remoteId.Some? {
      assert genuine(env.key.value, env.signature.value);
    }
  }

  lemma WritableKeepsIdentity(genuine: Scheme, dialled: Option<Key>, peer: Peer, env: WriteEnv,
                              flush: Result<(), ErrorKind>)
    requires Identified(genuine, dialled, peer) && PossibleOp(peer, Writable(env, flush))
    ensures Identified(genuine, dialled, StepPeer(genuine, peer, Writable(env, flush)))
  {
    WriteMeetsContract(peer.noise, [], env);
    var (noise, res) := Write(peer.noise, [], env);
    IoOutcome(peer.net, OnWrite(WriteAnswer(res, Observe(noise)), flush));
  }

  lemma SendKeepsIdentity(genuine: Scheme, dialled: Option<Key>, peer: Peer, payload: Bytes,
                          first: WriteEnv, second: WriteEnv)
    requires Identified(genuine, dialled, peer) && PossibleOp(peer, Send(payload, first, second))
    ensures Identified(genuine, dialled, StepPeer(genuine, peer, Send(payload, first, second)))
  {
    WriteMeetsContract(peer.noise, peer.net.writeBuffer, first);
    var noise1 := Write(peer.noise, peer.net.writeBuffer, first).0;
    WriteMeetsContract(noise1, payload, second);
  }

  lemma StepKeepsIdentity(genuine: Scheme, dialled: Option<Key>, peer: Peer, op: PeerOp)
    requires Identified(genuine, dialled, peer) && PossibleOp(peer, op)
    ensures Identified(genuine, dialled, StepPeer(genuine, peer, op))
  {
    match op
    case Readable(env) => ReadableKeepsIdentity(genuine, dialled, peer, env);
    case Writable(env, flush) => WritableKeepsIdentity(genuine, dialled, peer, env, flush);
    case Send(payload, first, second) => SendKeepsIdentity(genuine, dialled, peer, payload, first, second);
  }

  /** `ops` can be played one after another, leading from `peer` to `end`. What is asked of `peer`
      besides `PossibleOp` holds in every state reached, by `StepKeepsIdentity`. */
  predicate Reaches(genuine: Scheme, peer: Peer, ops: seq<PeerOp>, end: Peer)
    decreases |ops|
  {
    if ops == [] then end == peer
    else
      && PossibleOp(peer, ops[0]) && Settled(peer.noise) && peer.net.session == Observe(peer.noise)
      && Reaches(genuine, StepPeer(genuine, peer, ops[0]), ops[1..], end)
  }

  /** What `accept` and `connect_nonblocking` make, wrapped by `NetResource`. */
  predicate Accepted(peer: Peer)
  {
    && FreshNoise(peer.noise) && peer.noise.addr.Partial?
    && peer.net == Net(Handshake, Observe(peer.noise), false, [])
  }

  predicate Dialled(peer: Peer, id: Key)
  {
    && FreshNoise(peer.noise) && peer.noise.addr.PeerId() == Some(id)
    && peer.net == Net(Init, Observe(peer.noise), false, [])
  }

  lemma {:induction false} RunKeepsIdentity(genuine: Scheme, dialled: Option<Key>, peer: Peer,
                                            ops: seq<PeerOp>, end: Peer)
    requires Identified(genuine, dialled, peer) && Reaches(genuine, peer, ops, end)
    ensures Identified(genuine, dialled, end)
    decreases |ops|
  {
    if ops != [] {
      StepKeepsIdentity(genuine, dialled, peer, ops[0]);
      RunKeepsIdentity(genuine, dialled, StepPeer(genuine, peer, ops[0]), ops[1..], end);
    }
  }

  /** Identity agreement: whenever a transport is Active, the session id is the key whose
      signature was verified, and for an outbound session the key that was dialled. */
  lemma IdentityAgreement(genuine: Scheme, peer: Peer, ops: seq<PeerOp>, end: Peer, dialled: Option<Key>)
    requires if dialled.Some? then Dialled(peer, dialled.value) else Accepted(peer)
    requires Reaches(genuine, peer, ops, end) && end.net.state == Active
    ensures end.net.session.id.Some?
    ensures var id := end.net.session.id.value;
            && end.noise.auth.remoteId == Some(id) && Proven(genuine, id)
            && (dialled.Some? ==> id == dialled.value)
  {
    RunKeepsIdentity(genuine, dialled, peer, ops, end);
  }

  // ---------------------------------------------------------------- Sending before certifying

  /** A session counts as established once the remote side is verified, although its own credential
      may not have been sent. A send over an Active transport with a willing connection succeeds if
      and only if the credential is out; otherwise its first session write sends the credential in
      its place and reports an error. */
  lemma SendSucceedsIffCertified(genuine: Scheme, peer: Peer, payload: Bytes, first: WriteEnv, second: WriteEnv)
    requires peer.net.state == Active && peer.noise.complete
    requires PossibleOp(peer, Send(payload, first, second)) && first.data.Ok? && second.data.Ok?
    ensures var (input, _) := Play(genuine, peer, Send(payload, first, second));
            WriteAtomic(peer.net, payload, input.first, input.second).res.Ok? <==> peer.noise.auth.sent
  {
  }

  /** A handshake read after which nothing is missing. */
  predicate Completes(env: ReadEnv)
  {
    && env.input.Ok? && env.advance.complete && env.advance.act.Ok?
    && (env.advance.act.value.Some? ==> env.sending.Written?)
  }

  /** Such a transport is reached when an accepted peer sends its credential before the socket has
      become writable. */
  lemma ActiveBeforeCertified(genuine: Scheme, peer: Peer, handshake: ReadEnv, credential: ReadEnv)
    requires Accepted(peer)
    requires PossibleRead(handshake, READ_BUFFER_SIZE) && PossibleRead(credential, READ_BUFFER_SIZE)
    requires Completes(handshake)
    requires credential.key.Ok? && credential.signature.Ok? && genuine(credential.key.value, credential.signature.value)
    ensures Settled(peer.noise)
    ensures var middle := StepPeer(genuine, peer, Readable(handshake));
            && Settled(middle.noise) && middle.net.session == Observe(middle.noise)
            && PossibleOp(middle, Readable(credential))
            && var end := StepPeer(genuine, middle, Readable(credential));
               end.net.state == Active && !end.noise.auth.sent
  {
  }

  /** A dialled session gets established, and only by the peer that was dialled: after a read which completes
      the handshake, a genuine credential makes the transport Active under the dialled id if it is for
      that key, and terminates it if it is for any other. */
  lemma DialledIsEstablished(genuine: Scheme, peer: Peer, id: Key, handshake: ReadEnv, credential: ReadEnv)
    requires Dialled(peer, id)
    requires PossibleRead(handshake, READ_BUFFER_SIZE) && PossibleRead(credential, READ_BUFFER_SIZE)
    requires Completes(handshake)
    requires credential.key.Ok? && credential.signature.Ok? && genuine(credential.key.value, credential.signature.value)
    ensures Settled(peer.noise)
    ensures var middle := StepPeer(genuine, peer, Readable(handshake));
            && Settled(middle.noise) && middle.net.session == Observe(middle.noise)
            && PossibleOp(middle, Readable(credential))
            && var end := StepPeer(genuine, middle, Readable(credential));
               && end.net.state == (if credential.key.value == id then Active else TransportState.Terminated)
               && end.net.session.id == Some(id)
               && end.noise.auth.remoteId == Some(credential.key.value)
  {
  }

  /** Nothing but a send sends the credential of such a transport. */
  lemma {:induction false} StaysUncertified(genuine: Scheme, dialled: Option<Key>, peer: Peer,
                                            ops: seq<PeerOp>, end: Peer)
    requires Identified(genuine, dialled, peer) && Reaches(genuine, peer, ops, end)
    requires peer.net.session.established && !peer.noise.auth.sent
    requires forall op | op in ops :: !op.Send?
    ensures Identified(genuine, dialled, end)
    ensures end.net.session.established && !end.noise.auth.sent && end.noise.wire == peer.noise.wire
    decreases |ops|
  {
    if ops != [] {
      assert ops[0] in ops;
      StepKeepsIdentity(genuine, dialled, peer, ops[0]);
      StaysUncertified(genuine, dialled, StepPeer(genuine, peer, ops[0]), ops[1..], end);
    }
  }

  /** Over runs: once a transport is Active without its credential sent, no event ever sends it, however
      many come, and the first send fails with an I/O error, whatever the connection answers. That send
      grants nothing, and puts on the connection, at most, the credential. */
  lemma FirstSendFails(genuine: Scheme, dialled: Option<Key>, peer: Peer, ops: seq<PeerOp>, end: Peer,
                       payload: Bytes, first: WriteEnv, second: WriteEnv)
    requires Identified(genuine, dialled, peer) && Reaches(genuine, peer, ops, end)
    requires peer.net.state == Active && !peer.noise.auth.sent
    requires forall op | op in ops :: !op.Send?
    requires end.net.state == Active && PossibleOp(end, Send(payload, first, second))
    ensures !end.noise.auth.sent && end.noise.wire == peer.noise.wire
    ensures var (input, noise) := Play(genuine, end, Send(payload, first, second));
            var sent := WriteAtomic(end.net, payload, input.first, input.second);
            && sent.res.Err? && sent.res.error.Io?
            && sent.accepted == [] && sent.net.writeBuffer == end.net.writeBuffer
            && noise.wire == end.noise.wire + Certify(end.noise.auth, first.sendingKey, first.sendingSignature).1
  {
    StaysUncertified(genuine, dialled, peer, ops, end);
    PlayIsLawful(genuine, end, Send(payload, first, second));
  }

  /** Readiness to write, before the remote side is verified, sends the credential. */
  lemma WritableCertifies(genuine: Scheme, dialled: Option<Key>, peer: Peer, env: WriteEnv,
                          flush: Result<(), ErrorKind>)
    requires Identified(genuine, dialled, peer) && PossibleOp(peer, Writable(env, flush))
    requires peer.noise.complete && !peer.noise.auth.sent && !peer.net.session.established
    requires env.sendingKey.Written? && env.sendingSignature.Written?
    ensures var next := StepPeer(genuine, peer, Writable(env, flush));
            && next.noise.auth == peer.noise.auth.(sent := true) && next.noise.addr == peer.noise.addr
            && next.noise.complete && next.net.state == Handshake && next.net.session == peer.net.session
            && next.net.writeBuffer == peer.net.writeBuffer
            && next.noise.wire == peer.noise.wire + (peer.noise.auth.pubkey + peer.noise.auth.signature)
  {
    WriteAnswers(peer.noise, [], env);
  }

  lemma ReadCompletes(genuine: Scheme, dialled: Option<Key>, peer: Peer, env: ReadEnv)
    requires if dialled.Some? then Dialled(peer, dialled.value) else Accepted(peer)
    requires PossibleRead(env, READ_BUFFER_SIZE) && Completes(env)
    ensures Identified(genuine, dialled, peer) && PossibleOp(peer, Readable(env))
    ensures var next := StepPeer(genuine, peer, Readable(env));
            && Identified(genuine, dialled, next) && next.net.state == Handshake && next.net.writeBuffer == []
            && Verifying(next.noise) && next.noise.auth == peer.noise.auth && next.noise.addr == peer.noise.addr
            && next.noise.wire == Flatten(ActOf(peer.noise, ReadOp(env)))
  {
    StepKeepsIdentity(genuine, dialled, peer, Readable(env));
    FlattenActs(Trace(peer.noise, [], []), ReadOp(env));
  }

  lemma ReadVerifies(genuine: Scheme, dialled: Option<Key>, peer: Peer, env: ReadEnv)
    requires Identified(genuine, dialled, peer) && PossibleOp(peer, Readable(env))
    requires Verifying(peer.noise) && Genuine(genuine, env)
    requires peer.noise.addr.PeerId() == None || peer.noise.addr.PeerId() == Some(env.key.value)
    ensures var next := StepPeer(genuine, peer, Readable(env));
            && Identified(genuine, dialled, next) && next.net.state == Active
            && next.net.session.id == Some(env.key.value) && next.net.writeBuffer == peer.net.writeBuffer
            && next.noise.complete && next.noise.auth.sent == peer.noise.auth.sent && next.noise.wire == peer.noise.wire
  {
    StepKeepsIdentity(genuine, dialled, peer, Readable(env));
  }

  lemma SendIsWritten(genuine: Scheme, dialled: Option<Key>, peer: Peer, payload: Bytes,
                      first: WriteEnv, second: WriteEnv)
    requires Identified(genuine, dialled, peer) && peer.net.state == Active && peer.net.writeBuffer == []
    requires peer.noise.complete && peer.noise.auth.sent
    requires first.data == Ok(0) && second.data == Ok(|payload|)
    ensures PossibleOp(peer, Send(payload, first, second))
    ensures var next := StepPeer(genuine, peer, Send(payload, first, second));
            && next.net == peer.net && next.noise.wire == peer.noise.wire + payload
  {
    assert payload[..|payload|] == payload;
    assert peer.noise.wire + [] == peer.noise.wire;
  }

  /** What a cooperative connection and a genuine peer lead to, whether the session was accepted or dialled:
      the handshake completes, the credential goes out, that of the peer comes in, and a payload sent then
      is on the connection as a whole, behind what had to come before. */
  lemma SessionServes(genuine: Scheme, dialled: Option<Key>, peer: Peer, handshake: ReadEnv, certify: WriteEnv,
                      credential: ReadEnv, payload: Bytes, first: WriteEnv, second: WriteEnv)
    returns (end: Peer)
    requires if dialled.Some? then Dialled(peer, dialled.value) else Accepted(peer)
    requires dialled.Some? ==> credential.key == Ok(dialled.value)
    requires PossibleRead(handshake, READ_BUFFER_SIZE) && Completes(handshake)
    requires PossibleWrite(certify, 0) && certify.sendingKey.Written? && certify.sendingSignature.Written?
    requires PossibleRead(credential, READ_BUFFER_SIZE) && Genuine(genuine, credential)
    requires first.data == Ok(0) && second.data == Ok(|payload|)
    ensures Reaches(genuine, peer, [Readable(handshake), Writable(certify, Ok(())), Readable(credential),
                                    Send(payload, first, second)], end)
    ensures end.net.state == Active && end.net.session.id == Some(credential.key.value) && end.net.writeBuffer == []
    ensures end.noise.wire == Flatten(ActOf(peer.noise, ReadOp(handshake)))
                              + (peer.noise.auth.pubkey + peer.noise.auth.signature) + payload
  {
    var op1, op2, op3, op4 :=
      Readable(handshake), Writable(certify, Ok(())), Readable(credential), Send(payload, first, second);
    ReadCompletes(genuine, dialled, peer, handshake);
    var shaken := StepPeer(genuine, peer, op1);
    WritableCertifies(genuine, dialled, shaken, certify, Ok(()));
    StepKeepsIdentity(genuine, dialled, shaken, op2);
    var certified := StepPeer(genuine, shaken, op2);
    ReadVerifies(genuine, dialled, certified, credential);
    var active := StepPeer(genuine, certified, op3);
    SendIsWritten(genuine, dialled, active, payload, first, second);
    end := StepPeer(genuine, active, op4);
    ReachesInFour(genuine, peer, op1, shaken, op2, certified, op3, active, op4, end);
  }

  predicate StepsTo(genuine: Scheme, peer: Peer, op: PeerOp, next: Peer)
  {
    && PossibleOp(peer, op) && Settled(peer.noise) && peer.net.session == Observe(peer.noise)
    && StepPeer(genuine, peer, op) == next
  }

  lemma ReachesInFour(genuine: Scheme, peer: Peer, op1: PeerOp, peer1: Peer, op2: PeerOp, peer2: Peer,
                      op3: PeerOp, peer3: Peer, op4: PeerOp, end: Peer)
    requires StepsTo(genuine, peer, op1, peer1) && StepsTo(genuine, peer1, op2, peer2)
    requires StepsTo(genuine, peer2, op3, peer3) && StepsTo(genuine, peer3, op4, end)
    ensures Reaches(genuine, peer, [op1, op2, op3, op4], end)
  {
    ReachesNext(genuine, peer3, op4, [], end);
    ReachesNext(genuine, peer2, op3, [op4], end);
    ReachesNext(genuine, peer1, op2, [op3, op4], end);
    ReachesNext(genuine, peer, op1, [op2, op3, op4], end);
    assert [op1] + [op2, op3, op4] == [op1, op2, op3, op4];
    assert [op2] + [op3, op4] == [op2, op3, op4] && [op3] + [op4] == [op3, op4] && [op4] + [] == [op4];
  }

  lemma ReachesNext(genuine: Scheme, peer: Peer, op: PeerOp, ops: seq<PeerOp>, end: Peer)
    requires PossibleOp(peer, op) && Settled(peer.noise) && peer.net.session == Observe(peer.noise)
    requires Reaches(genuine, StepPeer(genuine, peer, op), ops, end)
    ensures Reaches(genuine, peer, [op] + ops, end)
  {
    assert ([op] + ops)[1..] == ops;
  }
}

/** `NoiseXk` (src/noise.rs), `Authenticator` (src/auth.rs) and what they run on, as objects
    updated in place. */
module Noise {
  import opened Base
  import opened TransportSpec
  import opened NoiseSpec
  import Spec = NoiseSpec

  /** A stream socket. `wire` is every byte it has taken. */
  class Connection {
    ghost var wire: Bytes

    constructor ()
      ensures wire == []
    {
      wire := [];
    }

    method WriteAll(data: Bytes, writing: Writing) returns (res: Result<(), ErrorKind>)
      modifies this
      ensures wire == old(wire) + Taken(data, writing) && res == WriteResult(writing)
    {
      wire := wire + Taken(data, writing);
      res := WriteResult(writing);
    }

    method ReadExact(buf: array<Byte>, len: nat, answer: Result<Bytes, ErrorKind>) returns (res: Result<(), ErrorKind>)
      requires len <= buf.Length && (answer.Ok? ==> |answer.value| == len)
      modifies buf
      ensures answer.Ok? ==> res == Ok(()) && buf[..len] == answer.value
      ensures answer.Err? ==> res == Err(answer.error)
    {
      match answer
      case Err(kind) =>
        res := Err(kind);
      case Ok(bytes) =>
        forall i | 0 <= i < len {
          buf[i] := bytes[i];
        }
        res := Ok(());
    }

    method Write(data: Bytes, answer: Result<nat, ErrorKind>) returns (res: Result<nat, ErrorKind>)
      requires answer.Ok? ==> answer.value <= |data|
      modifies this
      ensures wire == (if answer.Ok? then old(wire) + data[..answer.value] else old(wire)) && res == answer
    {
      if answer.Ok? {
        wire := wire + data[..answer.value];
      }
      res := answer;
    }
  }

  class Transcoder {
    var complete: bool

    constructor ()
      ensures !complete
    {
      complete := false;
    }

    method AdvanceHandshake(answer: Advance) returns (act: Result<Option<Bytes>, ()>)
      requires !complete
      modifies this
      ensures complete == answer.complete && act == answer.act
    {
      complete := answer.complete;
      act := answer.act;
    }
  }

  class Authenticator {
    var sent: bool
    const pubkey: Key
    const signature: Bytes
    var remoteId: Option<Key>

    constructor (pubkey: Key, signature: Bytes)
      ensures View() == Auth(false, pubkey, signature, None)
    {
      sent, this.pubkey, this.signature, remoteId := false, pubkey, signature, None;
    }

    function View(): Auth
      reads this
    {
      Auth(sent, pubkey, signature, remoteId)
    }

    method Certify(writer: Connection, sendingKey: Writing, sendingSignature: Writing)
      returns (res: Result<(), ErrorKind>)
      modifies this`sent, writer
      ensures var (auth, bytes, certified) := Spec.Certify(old(View()), sendingKey, sendingSignature);
              View() == auth && writer.wire == old(writer.wire) + bytes && res == certified
    {
      res := writer.WriteAll(pubkey, sendingKey);
      if res.Err? {
        return;
      }
      res := writer.WriteAll(signature, sendingSignature);
      if res.Err? {
        return;
      }
      sent := true;
    }

    /** Called only while no remote id is known. The key is stored as soon as its signature holds. */
    method Verify(genuine: Scheme, reader: Connection, key: Result<Key, ErrorKind>, signature: Result<Bytes, ErrorKind>)
      returns (res: Result<Option<Key>, ErrorKind>)
      requires remoteId == None
      requires key.Ok? ==> |key.value| == KEY_LEN
      requires signature.Ok? ==> |signature.value| == SIGNATURE_LEN
      modifies this`remoteId
      ensures (View(), res) == Spec.Verify(genuine, old(View()), key, signature)
    {
      var buf := new Byte[SIGNATURE_LEN](_ => 0);
      var got := reader.ReadExact(buf, KEY_LEN, key);
      if got.Err? {
        return Err(got.error);
      }
      var remote := buf[..KEY_LEN];
      got := reader.ReadExact(buf, SIGNATURE_LEN, signature);
      if got.Err? {
        return Err(got.error);
      }
      assert buf[..SIGNATURE_LEN] == buf[..];
      if !genuine(remote, buf[..]) {
        return Ok(None);
      }
      remoteId := Some(remote);
      return Ok(remoteId);
    }
  }

  class NoiseXk {
    var remoteAddr: XkAddr
    const connection: Connection
    const transcoder: Transcoder
    const authenticator: Authenticator

    ghost function View(): Spec.Noise
      reads this, connection, transcoder, authenticator
    {
      Spec.Noise.Noise(remoteAddr, transcoder.complete, authenticator.View(), connection.wire)
    }

    constructor With(addr: XkAddr, connection: Connection, transcoder: Transcoder, authenticator: Authenticator)
      ensures View() == Spec.Noise.Noise(addr, transcoder.complete, authenticator.View(), connection.wire)
      ensures this.connection == connection && this.transcoder == transcoder && this.authenticator == authenticator
    {
      remoteAddr, this.connection := addr, connection;
      this.transcoder, this.authenticator := transcoder, authenticator;
    }

    /** `session_id` and `is_session_established` */
    function Observe(): Face<Key>
      reads this, transcoder, authenticator
    {
      Face(transcoder.complete && authenticator.remoteId.Some?, remoteAddr.PeerId())
    }

    method Read(genuine: Scheme, capacity: nat, env: ReadEnv) returns (res: Result<Bytes, ErrorKind>)
      requires PossibleRead(env, capacity)
      modifies this, connection, transcoder, authenticator
      ensures (View(), res) == Spec.Read(genuine, old(View()), env)
      ensures Observe() == Spec.Observe(View())
    {
      if !transcoder.complete {
        if env.input.Err? {
          return Err(env.input.error);
        }
        var act := transcoder.AdvanceHandshake(env.advance);
        match act
        case Err(_) =>
          return Err(ConnectionAborted);
        case Ok(None) =>
          return Ok([]);
        case Ok(Some(bytes)) =>
          var sending := connection.WriteAll(bytes, env.sending);
          if sending.Err? {
            return Err(sending.error);
          }
          return Ok([]);
      } else if authenticator.remoteId.None? {
        var verified := authenticator.Verify(genuine, connection, env.key, env.signature);
        if verified.Err? {
          return Err(verified.error);
        }
        match verified.value
        case Some(remote) =>
          if remoteAddr.PeerId().Some? && remote != remoteAddr.PeerId().value {
            return Err(ConnectionReset);
          }
          var (addr, _) := remoteAddr.Upgrade(remote);
          remoteAddr := addr;
          return Ok([]);
        case None =>
          return Err(InvalidInput);
      }
      return env.data;
    }

    method Write(buf: Bytes, env: WriteEnv) returns (res: Result<nat, ErrorKind>)
      requires PossibleWrite(env, |buf|)
      modifies this, connection, transcoder, authenticator
      ensures (View(), res) == Spec.Write(old(View()), buf, env)
      ensures Observe() == Spec.Observe(View())
    {
      if !transcoder.complete {
        var act := transcoder.AdvanceHandshake(env.advance);
        if act.Err? {
          return Err(ConnectionAborted);
        }
        if act.value.Some? {
          var sending := connection.WriteAll(act.value.value, env.sending);
          if sending.Err? {
            return Err(sending.error);
          }
        }
        return Err(Interrupted);
      } else if !authenticator.sent {
        var certified := authenticator.Certify(connection, env.sendingKey, env.sendingSignature);
        if certified.Err? {
          return Err(certified.error);
        }
        return Err(Interrupted);
      }
      res := connection.Write(buf, env.data);
    }
  }

  // ---------------------------------------------------------------- Ways to open a session

  method Accept(addr: nat, connection: Connection, pubkey: Key, signature: Bytes) returns (session: NoiseXk)
    ensures session.View() ==
              Spec.Noise.Noise(Partial(addr), false, Auth(false, pubkey, signature, None), connection.wire)
  {
    var transcoder := new Transcoder();
    var authenticator := new Authenticator(pubkey, signature);
    session := new NoiseXk.With(Partial(addr), connection, transcoder, authenticator);
  }

  method ConnectNonblocking(peerId: Key, addr: nat, connection: Connection, pubkey: Key, signature: Bytes)
    returns (session: NoiseXk)
    ensures session.View() ==
              Spec.Noise.Noise(Full(peerId, addr), false, Auth(false, pubkey, signature, None), connection.wire)
  {
    var transcoder := new Transcoder();
    var authenticator := new Authenticator(pubkey, signature);
    session := new NoiseXk.With(Full(peerId, addr), connection, transcoder, authenticator);
  }

  /** One turn of the blocking handshake: an advance, the write of its act, the read of a reply. */
  datatype Round = Round(advance: Advance, sending: Writing, input: Result<Bytes, ErrorKind>)

  datatype Outcome = Connected(session: NoiseXk) | Refused(kind: ErrorKind) | Panicked

  /** How the blocking handshake ends: with the acts it has sent, or an error. A peer which never
      finishes runs into the socket's time limit. */
  function Shake(rounds: seq<Round>): Result<seq<Bytes>, ErrorKind>
  {
    if rounds == [] then Err(TimedOut)
    else
      var round := rounds[0];
      if round.advance.act.Err? then Err(ConnectionAborted)
      else if round.advance.act.value.Some? && round.sending.Torn? then Err(round.sending.kind)
      else
        var acts := if round.advance.act.value.Some? then [round.advance.act.value.value] else [];
        if round.advance.complete then Ok(acts)
        else if round.input.Err? then Err(round.input.error)
        else Behind(acts, Shake(rounds[1..]))
  }

  function Behind(acts: seq<Bytes>, rest: Result<seq<Bytes>, ErrorKind>): Result<seq<Bytes>, ErrorKind>
  {
    if rest.Ok? then Ok(acts + rest.value) else rest
  }

  /** This round goes on with the handshake, or completes it. */
  predicate Advances(round: Round)
  {
    round.advance.act.Ok? && (round.advance.act.value.Some? ==> round.sending.Written?)
  }

  predicate GoesOn(round: Round)
  {
    Advances(round) && !round.advance.complete && round.input.Ok?
  }

  /** The act sent in this round. */
  function ActIn(round: Round): seq<Bytes>
  {
    if round.advance.act.Ok? && round.advance.act.value.Some? then [round.advance.act.value.value] else []
  }

  /** The acts sent in these rounds, one after another. */
  function ActsIn(rounds: seq<Round>): seq<Bytes>
  {
    if rounds == [] then [] else ActIn(rounds[0]) + ActsIn(rounds[1..])
  }

  /** The handshake goes on round after round up to the first which does not. If that one completes it, it
      has ended with the acts of all rounds so far, in order, and else with the error of this round. */
  lemma {:induction false} ShakeEnds(rounds: seq<Round>) returns (n: nat)
    ensures n <= |rounds| && forall i | 0 <= i < n :: GoesOn(rounds[i])
    ensures n == |rounds| ==> Shake(rounds) == Err(TimedOut)
    ensures n < |rounds| ==> !GoesOn(rounds[n])
    ensures n < |rounds| && Advances(rounds[n]) && rounds[n].advance.complete ==>
              Shake(rounds) == Ok(ActsIn(rounds[..n + 1]))
    ensures n < |rounds| && Advances(rounds[n]) && !rounds[n].advance.complete ==>
              rounds[n].input.Err? && Shake(rounds) == Err(rounds[n].input.error)
    ensures n < |rounds| && rounds[n].advance.act.Err? ==> Shake(rounds) == Err(ConnectionAborted)
    ensures n < |rounds| && rounds[n].advance.act.Ok? && !Advances(rounds[n]) ==>
              rounds[n].sending.Torn? && Shake(rounds) == Err(rounds[n].sending.kind)
  {
    if rounds == [] || !GoesOn(rounds[0]) {
      n := 0;
      if rounds != [] {
        assert rounds[..1][1..] == [] && rounds[..1][0] == rounds[0];
        assert ActsIn(rounds[..1]) == ActIn(rounds[0]) + ActsIn([]) == ActIn(rounds[0]);
      }
    } else {
      var m := ShakeEnds(rounds[1..]);
      n := m + 1;
      if n < |rounds| {
        assert rounds[..n + 1][1..] == rounds[1..][..m + 1] && rounds[..n + 1][0] == rounds[0];
      }
    }
  }

  lemma BehindBehind(acts: seq<Bytes>, more: seq<Bytes>, rest: Result<seq<Bytes>, ErrorKind>)
    ensures Behind([], rest) == rest
    ensures Behind(acts, Behind(more, rest)) == Behind(acts + more, rest)
  {
    if rest.Ok? {
      assert [] + rest.value == rest.value;
      assert acts + (more + rest.value) == acts + more + rest.value;
    }
  }

  /** Runs handshake and authentication to the end before it returns. `rounds` is what the remote
      side and the socket do.
      A session which is returned is established, has sent its acts and one credential, and has
      verified the very key it dialled. It is returned if and only if the handshake completed, the
      credential went out, and a key with its signature came in which is genuine and the one dialled;
      if all but that last condition is met, the program panics. */
  method ConnectBlocking(genuine: Scheme, peerId: Key, addr: nat, pubkey: Key, signature: Bytes,
                         rounds: seq<Round>, credential: WriteEnv,
                         key: Result<Key, ErrorKind>, keySignature: Result<Bytes, ErrorKind>)
    returns (outcome: Outcome)
    requires key.Ok? ==> |key.value| == KEY_LEN
    requires keySignature.Ok? ==> |keySignature.value| == SIGNATURE_LEN
    ensures outcome.Connected? ==>
              && Shake(rounds).Ok?
              && outcome.session.View() ==
                   Spec.Noise.Noise(Full(peerId, addr), true, Auth(true, pubkey, signature, Some(peerId)),
                                    Flatten(Shake(rounds).value) + (pubkey + signature))
              && Observe(outcome.session.View()) == Face(true, Some(peerId))
              && Proven(genuine, peerId)
    ensures var certified := credential.sendingKey.Written? && credential.sendingSignature.Written?;
            var answered := Shake(rounds).Ok? && certified && key.Ok? && keySignature.Ok?;
            && (outcome.Connected? <==> answered && genuine(key.value, keySignature.value) && key.value == peerId)
            && (outcome.Panicked? <==> answered && !(genuine(key.value, keySignature.value) && key.value == peerId))
    ensures outcome.Refused? ==>
              Err(outcome.kind) == if Shake(rounds).Err? then Err(Shake(rounds).error)
                                   else if credential.sendingKey.Torn? then Err(credential.sendingKey.kind)
                                   else if credential.sendingSignature.Torn? then Err(credential.sendingSignature.kind)
                                   else if key.Err? then Err(key.error)
                                   else if keySignature.Err? then Err(keySignature.error)
                                   else Ok(())
  {
    var connection := new Connection();
    var transcoder := new Transcoder();
    ghost var acts := [];
    var i := 0;
    assert rounds[i..] == rounds;
    BehindBehind([], [], Shake(rounds));
    while !transcoder.complete
      invariant 0 <= i <= |rounds|
      invariant connection.wire == Flatten(acts)
      invariant Shake(rounds) == if transcoder.complete then Ok(acts) else Behind(acts, Shake(rounds[i..]))
      invariant fresh(connection) && fresh(transcoder)
      decreases |rounds| - i
    {
      if i == |rounds| {
        return Refused(TimedOut);
      }
      assert rounds[i..][1..] == rounds[i + 1..];
      var act := transcoder.AdvanceHandshake(rounds[i].advance);
      if act.Err? {
        return Refused(ConnectionAborted);
      }
      assert acts + [] == acts;
      BehindBehind(acts, if act.value.Some? then [act.value.value] else [], Shake(rounds[i + 1..]));
      if act.value.Some? {
        var sending := connection.WriteAll(act.value.value, rounds[i].sending);
        if sending.Err? {
          return Refused(sending.error);
        }
        FlattenSnoc(acts, act.value.value);
        acts := acts + [act.value.value];
      }
      if !transcoder.complete && rounds[i].input.Err? {
        return Refused(rounds[i].input.error);
      }
      i := i + 1;
    }

    var authenticator := new Authenticator(pubkey, signature);
    while authenticator.remoteId.None?
      invariant fresh(connection) && fresh(transcoder) && fresh(authenticator) && transcoder.complete
      invariant authenticator.pubkey == pubkey && authenticator.signature == signature
      invariant authenticator.remoteId.None? ==> !authenticator.sent && connection.wire == Flatten(acts)
      invariant authenticator.remoteId.Some? ==>
                  && credential.sendingKey.Written? && credential.sendingSignature.Written?
                  && key == Ok(peerId) && keySignature.Ok? && genuine(peerId, keySignature.value)
                  && authenticator.sent && authenticator.remoteId.value == peerId
                  && connection.wire == Flatten(acts) + (pubkey + signature)
      decreases if authenticator.remoteId.None? then 1 else 0
    {
      var certified := authenticator.Certify(connection, credential.sendingKey, credential.sendingSignature);
      if certified.Err? {
        return Refused(certified.error);
      }
      var verified := authenticator.Verify(genuine, connection, key, keySignature);
      if verified.Err? {
        return Refused(verified.error);
      }
      if verified.value.None? || verified.value.value != peerId {
        return Panicked;
      }
    }
    var session := new NoiseXk.With(Full(peerId, addr), connection, transcoder, authenticator);
    return Connected(session);
  }
}

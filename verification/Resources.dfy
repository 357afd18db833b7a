/** `NetResource` (src/resources.rs) and the session it drives, as objects updated in place. */
module Resources {
  import opened Base
  import opened Polling
  import opened TransportSpec
  import Spec = TransportSpec

  /** A session as a transport sees it. `accepted` and `returned` are the bytes it took from
      writes and gave out by reads over its whole life. */
  class Session<Id(==)> {
    var established: bool
    var id: Option<Id>
    ghost var accepted: Bytes
    ghost var returned: Bytes

    constructor (established: bool, id: Option<Id>)
      ensures Face() == Spec.Face.Face(established, id) && accepted == [] && returned == []
    {
      this.established, this.id, accepted, returned := established, id, [], [];
    }

    function Face(): Spec.Face<Id>
      reads this
    {
      Spec.Face.Face(established, id)
    }

    /** `read(&mut buf[from..])` */
    method Read(buf: array<Byte>, from: nat, answer: ReadAnswer<Id>) returns (res: Result<nat, ErrorKind>)
      requires from <= buf.Length && LawfulRead(Face(), buf.Length - from, answer)
      modifies this, buf
      ensures Face() == answer.after && accepted == old(accepted)
      ensures answer.res.Err? ==> res == Err(answer.res.error) && returned == old(returned) && buf[..] == old(buf[..])
      ensures answer.res.Ok? ==> res == Ok(|answer.res.value|) && returned == old(returned) + answer.res.value
      ensures answer.res.Ok? ==>
                buf[..] == old(buf[..from]) + answer.res.value + old(buf[from + |answer.res.value|..])
    {
      established, id := answer.after.established, answer.after.id;
      match answer.res
      case Err(kind) => res := Err(kind);
      case Ok(bytes) =>
        forall i | 0 <= i < |bytes| {
          buf[from + i] := bytes[i];
        }
        returned := returned + bytes;
        res := Ok(|bytes|);
    }

    method Write(data: Bytes, answer: WriteAnswer<Id>) returns (res: Result<nat, ErrorKind>)
      requires LawfulWrite(Face(), |data|, answer)
      modifies this
      ensures Face() == answer.after && returned == old(returned)
      ensures res == answer.res
      ensures accepted == old(accepted) + if res.Ok? then data[..res.value] else []
    {
      established, id := answer.after.established, answer.after.id;
      res := answer.res;
      accepted := accepted + if res.Ok? then data[..res.value] else [];
    }

    method Flush(answer: Result<(), ErrorKind>) returns (res: Result<(), ErrorKind>)
      ensures res == answer
    {
      res := answer;
    }
  }

  class NetResource<Id(==)> {
    var state: TransportState
    const session: Session<Id>
    const inbound: bool
    var writeIntent: bool
    const readBuffer: array<Byte>
    var readBufferLen: nat
    var writeBuffer: Bytes

    /** Between calls the read buffer is drained. */
    ghost predicate Valid()
      reads this
    {
      readBuffer.Length == READ_BUFFER_SIZE && readBufferLen == 0
    }

    ghost function View(): Net<Id>
      reads this, session
    {
      Net(state, session.Face(), writeIntent, writeBuffer)
    }

    /** `with_state`, once setting the socket timeouts has succeeded. */
    constructor WithState(session: Session<Id>, inbound: bool, state: TransportState)
      ensures Valid() && View() == Net(state, session.Face(), false, [])
      ensures this.session == session && this.inbound == inbound && fresh(readBuffer)
    {
      this.state, this.session, this.inbound := state, session, inbound;
      writeIntent, readBufferLen, writeBuffer := false, 0, [];
      readBuffer := new Byte[READ_BUFFER_SIZE](_ => 0);
    }

    function Interests(): (interest: IoType)
      reads this, session
      ensures interest == Spec.Interests(View())
    {
      match state
      case Init => WRITE_ONLY
      case Terminated => NONE
      case _ => if writeIntent then READ_WRITE else READ_ONLY
    }

    method DrainReadBuffer() returns (bytes: Bytes)
      requires readBufferLen <= readBuffer.Length
      modifies this`readBufferLen
      ensures readBufferLen == 0 && bytes == old(readBuffer[..readBufferLen])
    {
      var len := readBufferLen;
      readBufferLen := 0;
      bytes := readBuffer[..len];
    }

    method Terminate(reason: ErrorKind) returns (event: SessionEvent<Id>)
      modifies this`state
      ensures state == TransportState.Terminated && event == SessionEvent.Terminated(reason)
    {
      state := TransportState.Terminated;
      event := SessionEvent.Terminated(reason);
    }

    method HandleWritable(write: WriteAnswer<Id>, flush: Result<(), ErrorKind>)
      returns (event: Option<SessionEvent<Id>>)
      requires Valid() && LawfulWrite(session.Face(), 0, write)
      modifies this, session
      ensures Valid() && (View(), event) == Writable(old(View()), write, flush)
      ensures session.accepted == old(session.accepted) && session.returned == old(session.returned)
    {
      if !session.established {
        var _ := session.Write([], write);
        writeIntent := true;
        return None;
      }
      var res := session.Flush(flush);
      match res
      case Ok(_) =>
        writeIntent := false;
        return None;
      case Err(kind) =>
        if kind == WouldBlock || kind == WriteZero {
          writeIntent := true;
          return None;
        }
        var terminated := Terminate(kind);
        return Some(terminated);
    }

    method HandleReadable(read: ReadAnswer<Id>) returns (event: Option<SessionEvent<Id>>)
      requires Valid() && LawfulRead(session.Face(), READ_BUFFER_SIZE, read)
      modifies this, session, readBuffer
      ensures Valid() && (View(), event) == Readable(old(View()), read)
      ensures session.accepted == old(session.accepted)
      ensures session.returned == old(session.returned) + if read.res.Ok? then read.res.value else []
    {
      var res := session.Read(readBuffer, readBufferLen, read);
      match res
      case Ok(len) =>
        if len == 0 && !session.established {
          return None;
        }
        if len == 0 {
          return Some(SessionEvent.Terminated(ConnectionReset));
        }
        readBufferLen := readBufferLen + len;
        assert readBuffer[..len] == read.res.value;
        var bytes := DrainReadBuffer();
        return Some(Data(bytes));
      case Err(kind) =>
        if kind == WouldBlock {
          return None;
        }
        var terminated := Terminate(kind);
        return Some(terminated);
    }

    method HandleIo(call: IoCall<Id>) returns (event: Option<SessionEvent<Id>>)
      requires Valid() && state != TransportState.Terminated && LawfulCall(session.Face(), call)
      modifies this, session, readBuffer
      ensures Valid() && (View(), event) == Spec.HandleIo(old(View()), call)
      ensures session.accepted == old(session.accepted)
      ensures session.returned == old(session.returned) +
                if call.OnRead? && call.read.res.Ok? then call.read.res.value else []
    {
      var forceWriteIntent := false;
      if state == Init {
        forceWriteIntent := true;
        state := Handshake;
      }
      var resp;
      match call {
        case OnRead(read) => resp := HandleReadable(read);
        case OnWrite(write, flush) => resp := HandleWritable(write, flush);
      }
      if (call.OnRead? && state == Handshake) || forceWriteIntent {
        writeIntent := true;
      }
      if resp == Some(SessionEvent.Terminated(ConnectionReset)) && state != Handshake {
        state := TransportState.Terminated;
        return resp;
      } else if session.established && state == Handshake {
        writeIntent := true;
        state := Active;
        return Some(Established(session.id.value));
      } else {
        return resp;
      }
    }

    method WriteOrBuffer(buf: Bytes, first: WriteAnswer<Id>, second: WriteAnswer<Id>)
      returns (res: Result<(), ErrorKind>)
      requires state == Active && LawfulSend(View(), buf, first, second)
      modifies this`writeBuffer, session
      ensures var sent := Spec.WriteAtomic(old(View()), buf, first, second);
              && View() == sent.net
              && sent.res == (if res.Ok? then Ok(()) else Err(Io(res.error)))
              && session.accepted == old(session.accepted) + sent.accepted
      ensures session.returned == old(session.returned)
    {
      var res1 := session.Write(writeBuffer, first);
      if res1.Err? {
        return Err(res1.error);
      }
      var len := res1.value;
      if len < |writeBuffer| {
        writeBuffer := writeBuffer[len..];
        writeBuffer := writeBuffer + buf;
        return Ok(());
      }
      writeBuffer := [];
      var res2 := session.Write(buf, second);
      match res2
      case Err(kind) =>
        return Err(kind);
      case Ok(len) =>
        if len < |buf| {
          writeBuffer := writeBuffer + buf[len..];
        }
        return Ok(());
    }

    method WriteAtomic(buf: Bytes, first: WriteAnswer<Id>, second: WriteAnswer<Id>)
      returns (res: Result<(), WriteError>)
      requires LawfulSend(View(), buf, first, second)
      modifies this`writeBuffer, session
      ensures var sent := Spec.WriteAtomic(old(View()), buf, first, second);
              && View() == sent.net && res == sent.res
              && session.accepted == old(session.accepted) + sent.accepted
      ensures session.returned == old(session.returned)
    {
      if state != Active {
        return Err(NotReady);
      }
      var written := WriteOrBuffer(buf, first, second);
      match written
      case Ok(_) => return Ok(());
      case Err(kind) => return Err(Io(kind));
    }
  }
}

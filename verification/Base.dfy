/** Types shared by the whole model: bytes, optional values, results and the
    `std::io::ErrorKind` cases which the modelled code tells apart. */
module Base {

  type Byte = bv8
  type Bytes = seq<Byte>

  datatype Option<+T> = None | Some(value: T)

  datatype Result<+T, +E> = Ok(value: T) | Err(error: E)

  /** The kinds of `io::Error` the code constructs or matches on; every other kind is `Other`. */
  datatype ErrorKind =
    | WouldBlock
    | Interrupted
    | WriteZero
    | ConnectionReset
    | ConnectionAborted
    | InvalidInput
    | BrokenPipe
    | TimedOut
    | Other(code: int)

  function Min(a: nat, b: nat): (m: nat)
    ensures m <= a && m <= b && (m == a || m == b)
  {
    if a <= b then a else b
  }

  /** The byte stream obtained by writing the chunks one after another. */
  function Flatten(chunks: seq<Bytes>): Bytes
  {
    if chunks == [] then [] else chunks[0] + Flatten(chunks[1..])
  }

  lemma {:induction false} FlattenAppend(chunks: seq<Bytes>, more: seq<Bytes>)
    ensures Flatten(chunks + more) == Flatten(chunks) + Flatten(more)
  {
    if chunks == [] {
      assert chunks + more == more;
    } else {
      var all := chunks + more;
      assert all[0] == chunks[0] && all[1..] == chunks[1..] + more;
      calc {
        Flatten(all);
        chunks[0] + Flatten(chunks[1..] + more);
        { FlattenAppend(chunks[1..], more); }
        chunks[0] + (Flatten(chunks[1..]) + Flatten(more));
        chunks[0] + Flatten(chunks[1..]) + Flatten(more);
        Flatten(chunks) + Flatten(more);
      }
    }
  }

  lemma FlattenSnoc(chunks: seq<Bytes>, chunk: Bytes)
    ensures Flatten(chunks + [chunk]) == Flatten(chunks) + chunk
  {
    FlattenAppend(chunks, [chunk]);
    assert Flatten([chunk]) == chunk + Flatten([]);
  }
}

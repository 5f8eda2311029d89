/** Readers and writers of bytes.
  *
  * One class stands for every io.Reader of the source.  It holds the bytes still to come as a list of
  * non-empty chunks, and one Read never crosses a chunk boundary.  A TCP connection is such a list cut at
  * arbitrary points; a bytes.Buffer is a list of at most one chunk, so that its Read returns
  * min(wanted, available) bytes and reports EOF only when nothing is left. */
module Streams {
  import opened Bytes

  datatype Option<+T> = None | Some(value: T)

  datatype Error = Eof | UnexpectedEof | NotHandshake | NotHandshakeAck | HandshakeFailed(code: uint16)

  datatype Result<+T> = Ok(value: T) | Err(error: Error)

  /** What a decoder makes of some bytes: its result, and the bytes that it leaves unread. */
  datatype Parsed<+T> = Parsed(result: Result<T>, rest: seq<byte>)

  function Flatten(chunks: seq<seq<byte>>): seq<byte> {
    if chunks == [] then [] else chunks[0] + Flatten(chunks[1..])
  }

  /** The specification of io.ReadFull for a buffer of n bytes. */
  function ParseFull(n: nat, data: seq<byte>): Parsed<seq<byte>> {
    if n <= |data| then Parsed(Ok(data[..n]), data[n..])
    else Parsed(Err(if data == [] then Eof else UnexpectedEof), [])
  }

  class Reader {
    var chunks: seq<seq<byte>>

    ghost predicate Valid()
      reads this
    {
      forall i :: 0 <= i < |chunks| ==> chunks[i] != []
    }

    /** True of a bytes.Buffer, false of a stream that is still cut into several pieces. */
    ghost predicate Buffered()
      reads this
    {
      Valid() && |chunks| <= 1
    }

    ghost function Remaining(): seq<byte>
      reads this
    {
      Flatten(chunks)
    }

    /** A stream that arrives in the given pieces. */
    constructor Stream(chunks: seq<seq<byte>>)
      requires forall i :: 0 <= i < |chunks| ==> chunks[i] != []
      ensures Valid() && Remaining() == Flatten(chunks)
    {
      this.chunks := chunks;
    }

    /** bytes.NewBuffer(data) */
    constructor Buffer(data: seq<byte>)
      ensures Buffered() && Remaining() == data
    {
      this.chunks := if data == [] then [] else [data];
      new;
      assert data != [] ==> Flatten([data]) == data + Flatten([]);
    }

    /** One Read into p[from..]: it fills a prefix of that slice and leaves everything else in p alone. */
    method Read(p: array<byte>, from: nat) returns (n: nat, err: Option<Error>)
      requires Valid() && from <= p.Length
      modifies this, p
      ensures Valid() && (old(Buffered()) ==> Buffered())
      ensures n <= p.Length - from
      ensures old(Remaining()) == p[from..from + n] + Remaining()
      ensures p[..from] == old(p[..from]) && p[from + n..] == old(p[from + n..])
      ensures err == if from < p.Length && old(Remaining()) == [] then Some(Eof) else None
      ensures n == 0 <==> from == p.Length || old(Remaining()) == []
      ensures old(Buffered()) ==>
                n == if p.Length - from <= |old(Remaining())| then p.Length - from else |old(Remaining())|
    {
      if from == p.Length {
        return 0, None;
      }
      if chunks == [] {
        return 0, Some(Eof);
      }
      var first := chunks[0];
      assert Remaining() == first + Flatten(chunks[1..]);
      assert first != [];
      n := if |first| < p.Length - from then |first| else p.Length - from;
      forall i | 0 <= i < n {
        p[from + i] := first[i];
      }
      assert p[from..from + n] == first[..n];
      if n == |first| {
        chunks := chunks[1..];
      } else {
        assert first == first[..n] + first[n..];
        assert ([first[n..]] + chunks[1..])[1..] == chunks[1..];
        chunks := [first[n..]] + chunks[1..];
      }
      err := None;
    }

    /** io.ReadFull: the outcome depends on the bytes of the stream, and not on how they were cut. */
    method ReadFull(p: array<byte>) returns (err: Option<Error>)
      requires Valid()
      modifies this, p
      ensures Valid() && (old(Buffered()) ==> Buffered())
      ensures ParseFull(p.Length, old(Remaining())) ==
              Parsed(if err == None then Ok(p[..]) else Err(err.value), Remaining())
    {
      var n: nat := 0;
      err := None;
      while n < p.Length && err == None
        invariant n <= p.Length
        invariant Valid() && (old(Buffered()) ==> Buffered())
        invariant old(Remaining()) == p[..n] + Remaining()
        invariant err != None ==> err == Some(Eof) && Remaining() == [] && n < p.Length
        decreases p.Length - n, err == None
      {
        ghost var before := p[..n];
        var k;
        k, err := Read(p, n);
        assert p[..n + k] == before + p[n..n + k];
        n := n + k;
      }
      if n == p.Length {
        assert p[..n] == p[..];
        err := None;
      } else if n > 0 {
        err := Some(UnexpectedEof);
      }
    }
  }

  /** Every io.Writer of the source, with all that has been written to it so far. */
  class Writer {
    var data: seq<byte>

    constructor ()
      ensures data == []
    {
      data := [];
    }

    method Write(p: seq<byte>)
      modifies this
      ensures data == old(data) + p
    {
      data := data + p;
    }
  }
}

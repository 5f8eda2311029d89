/** wire/common.go: integers and length-prefixed fields.  Each Parse function says what the Read method of
  * the same name makes of the bytes that are left in its reader. */
module WireCommon {
  import opened Bytes
  import opened Streams

  type Ksuid = id: seq<byte> | |id| == 20 witness Zeros(20)

  const NIL_KSUID: Ksuid := Zeros(20)

  // ----- specification -----

  function EncodeBytes(buf: seq<byte>): seq<byte> {
    PutUint32(Narrow32(|buf|)) + buf
  }

  function ParseUint8(data: seq<byte>): Parsed<byte> {
    match ParseFull(1, data)
    case Parsed(Ok(b), rest) => Parsed(Ok(b[0]), rest)
    case Parsed(Err(e), rest) => Parsed(Err(e), rest)
  }

  function ParseUint16(data: seq<byte>): Parsed<uint16> {
    match ParseFull(2, data)
    case Parsed(Ok(b), rest) => Parsed(Ok(Uint16(b)), rest)
    case Parsed(Err(e), rest) => Parsed(Err(e), rest)
  }

  function ParseUint32(data: seq<byte>): Parsed<uint32> {
    match ParseFull(4, data)
    case Parsed(Ok(b), rest) => Parsed(Ok(Uint32(b)), rest)
    case Parsed(Err(e), rest) => Parsed(Err(e), rest)
  }

  function ParseBytes(data: seq<byte>): Parsed<seq<byte>> {
    match ParseUint32(data)
    case Parsed(Ok(n), rest) => ParseFull(n, rest)
    case Parsed(Err(e), rest) => Parsed(Err(e), rest)
  }

  function ParseKsuid(data: seq<byte>): Parsed<Ksuid> {
    match ParseFull(20, data)
    case Parsed(Ok(id), rest) => Parsed(Ok(id), rest)
    case Parsed(Err(e), rest) => Parsed(Err(e), rest)
  }

  /** A fixed-length field is read exactly when the bytes begin with it. */
  lemma FullExact(n: nat, data: seq<byte>, field: seq<byte>, rest: seq<byte>)
    ensures ParseFull(n, data) == Parsed(Ok(field), rest) <==> |field| == n && data == field + rest
  {
  }

  lemma Uint32Exact(data: seq<byte>, v: uint32, rest: seq<byte>)
    ensures ParseUint32(data) == Parsed(Ok(v), rest) <==> data == PutUint32(v) + rest
  {
    if data == PutUint32(v) + rest {
      Uint32Bijection(v, []);
      FullExact(4, data, PutUint32(v), rest);
    }
    if ParseUint32(data) == Parsed(Ok(v), rest) {
      Uint32Bijection(0, data[..4]);
    }
  }

  lemma Uint16Exact(data: seq<byte>, v: uint16, rest: seq<byte>)
    ensures ParseUint16(data) == Parsed(Ok(v), rest) <==> data == PutUint16(v) + rest
  {
    if data == PutUint16(v) + rest {
      FullExact(2, data, PutUint16(v), rest);
    }
    if ParseUint16(data) == Parsed(Ok(v), rest) {
      Uint16Bijection(0, data[..2]);
    }
  }

  /** A length-prefixed field is decoded from exactly one byte string.  The prefix has 32 bits, so a field of
    * 2^32 bytes or more is never the result. */
  lemma BytesExact(data: seq<byte>, buf: seq<byte>, rest: seq<byte>)
    ensures ParseBytes(data) == Parsed(Ok(buf), rest) <==>
            |buf| < 0x1_0000_0000 && data == EncodeBytes(buf) + rest
  {
    if |buf| < 0x1_0000_0000 && data == EncodeBytes(buf) + rest {
      assert data == PutUint32(|buf|) + (buf + rest);
      Uint32Exact(data, |buf|, buf + rest);
      FullExact(|buf|, buf + rest, buf, rest);
    }
    if ParseBytes(data) == Parsed(Ok(buf), rest) {
      var Parsed(Ok(n), tail) := ParseUint32(data);
      Uint32Exact(data, n, tail);
      FullExact(n, tail, buf, rest);
      assert data == EncodeBytes(buf) + rest;
    }
  }

  // ----- readers and writers -----

  method ReadFixedBytes(n: nat, r: Reader) returns (res: Result<seq<byte>>)
    requires r.Valid()
    modifies r
    ensures r.Valid() && (old(r.Buffered()) ==> r.Buffered())
    ensures ParseFull(n, old(r.Remaining())) == Parsed(res, r.Remaining())
  {
    var buf := new byte[n](_ => 0);
    var err := r.ReadFull(buf);
    res := if err == None then Ok(buf[..]) else Err(err.value);
  }

  method ReadUint8(r: Reader) returns (res: Result<byte>)
    requires r.Valid()
    modifies r
    ensures r.Valid() && (old(r.Buffered()) ==> r.Buffered())
    ensures ParseUint8(old(r.Remaining())) == Parsed(res, r.Remaining())
  {
    var bytes := ReadFixedBytes(1, r);
    res := match bytes case Ok(b) => Ok(b[0]) case Err(e) => Err(e);
  }

  method ReadUint16(r: Reader) returns (res: Result<uint16>)
    requires r.Valid()
    modifies r
    ensures r.Valid() && (old(r.Buffered()) ==> r.Buffered())
    ensures ParseUint16(old(r.Remaining())) == Parsed(res, r.Remaining())
  {
    var bytes := ReadFixedBytes(2, r);
    res := match bytes case Ok(b) => Ok(Uint16(b)) case Err(e) => Err(e);
  }

  method ReadUint32(r: Reader) returns (res: Result<uint32>)
    requires r.Valid()
    modifies r
    ensures r.Valid() && (old(r.Buffered()) ==> r.Buffered())
    ensures ParseUint32(old(r.Remaining())) == Parsed(res, r.Remaining())
  {
    var bytes := ReadFixedBytes(4, r);
    res := match bytes case Ok(b) => Ok(Uint32(b)) case Err(e) => Err(e);
  }

  method ReadBytes(r: Reader) returns (res: Result<seq<byte>>)
    requires r.Valid()
    modifies r
    ensures r.Valid() && (old(r.Buffered()) ==> r.Buffered())
    ensures ParseBytes(old(r.Remaining())) == Parsed(res, r.Remaining())
  {
    var len := ReadUint32(r);
    if len.Err? {
      return Err(len.error);
    }
    res := ReadFixedBytes(len.value, r);
  }

  method DecodeKsuid(r: Reader) returns (res: Result<Ksuid>)
    requires r.Valid()
    modifies r
    ensures r.Valid() && (old(r.Buffered()) ==> r.Buffered())
    ensures ParseKsuid(old(r.Remaining())) == Parsed(res, r.Remaining())
  {
    var bytes := ReadFixedBytes(20, r);
    res := match bytes case Ok(b) => Ok(b) case Err(e) => Err(e);
  }

  method WriteBytes(w: Writer, buf: seq<byte>)
    modifies w
    ensures w.data == old(w.data) + EncodeBytes(buf)
  {
    w.Write(PutUint32(Narrow32(|buf|)));
    w.Write(buf);
  }
}

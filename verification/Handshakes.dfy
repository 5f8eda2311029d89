/** The opening handshake of peer/tcp_peer.go: ConnectServer on one side, Handshake.Upgrade on the other. */
module Handshakes {
  import opened Bytes
  import opened Streams
  import opened WireCommon
  import opened Frames

  const CODE_HANDSHAKE_OK: uint16 := 200

  datatype HandshakeReq = HandshakeReq(sid: Ksuid, meta: seq<byte>)

  datatype HandshakeAck = HandshakeAck(code: uint16, error: seq<byte>)

  /** The OnHandshake callback: a code, and the text of the error if there is one. */
  type Judge = HandshakeReq -> HandshakeAck

  // ----- the two records -----

  function EncodeReq(req: HandshakeReq): seq<byte> {
    req.sid + EncodeBytes(req.meta)
  }

  function ParseReq(data: seq<byte>): Parsed<HandshakeReq> {
    match ParseKsuid(data)
    case Parsed(Err(e), rest) => Parsed(Err(e), rest)
    case Parsed(Ok(sid), afterSid) =>
      match ParseBytes(afterSid)
      case Parsed(Err(e), rest) => Parsed(Err(e), rest)
      case Parsed(Ok(meta), rest) => Parsed(Ok(HandshakeReq(sid, meta)), rest)
  }

  function EncodeAck(ack: HandshakeAck): seq<byte> {
    PutUint16(ack.code) + EncodeBytes(ack.error)
  }

  function ParseAck(data: seq<byte>): Parsed<HandshakeAck> {
    match ParseUint16(data)
    case Parsed(Err(e), rest) => Parsed(Err(e), rest)
    case Parsed(Ok(code), afterCode) =>
      match ParseBytes(afterCode)
      case Parsed(Err(e), rest) => Parsed(Err(e), rest)
      case Parsed(Ok(error), rest) => Parsed(Ok(HandshakeAck(code, error)), rest)
  }

  lemma ReqExact(data: seq<byte>, req: HandshakeReq, rest: seq<byte>)
    ensures ParseReq(data) == Parsed(Ok(req), rest) <==>
            |req.meta| < 0x1_0000_0000 && data == EncodeReq(req) + rest
  {
    if |req.meta| < 0x1_0000_0000 && data == EncodeReq(req) + rest {
      var afterSid := EncodeBytes(req.meta) + rest;
      assert data == req.sid + afterSid;
      FullExact(20, data, req.sid, afterSid);
      BytesExact(afterSid, req.meta, rest);
    }
    if ParseReq(data) == Parsed(Ok(req), rest) {
      var afterSid := ParseKsuid(data).rest;
      FullExact(20, data, req.sid, afterSid);
      BytesExact(afterSid, req.meta, rest);
      assert data == EncodeReq(req) + rest;
    }
  }

  lemma AckExact(data: seq<byte>, ack: HandshakeAck, rest: seq<byte>)
    ensures ParseAck(data) == Parsed(Ok(ack), rest) <==>
            |ack.error| < 0x1_0000_0000 && data == EncodeAck(ack) + rest
  {
    if |ack.error| < 0x1_0000_0000 && data == EncodeAck(ack) + rest {
      var afterCode := EncodeBytes(ack.error) + rest;
      assert data == PutUint16(ack.code) + afterCode;
      Uint16Exact(data, ack.code, afterCode);
      BytesExact(afterCode, ack.error, rest);
    }
    if ParseAck(data) == Parsed(Ok(ack), rest) {
      var afterCode := ParseUint16(data).rest;
      Uint16Exact(data, ack.code, afterCode);
      BytesExact(afterCode, ack.error, rest);
      assert data == EncodeAck(ack) + rest;
    }
  }

  // ----- the two sides -----

  function RequestIn(f: Frame): Result<HandshakeReq> {
    if f.OpCode() != OP_HANDSHAKE then Err(NotHandshake) else ParseReq(f.payload).result
  }

  function AckIn(f: Frame): Result<HandshakeAck> {
    if f.OpCode() != OP_HANDSHAKE_ACK then Err(NotHandshakeAck) else ParseAck(f.payload).result
  }

  /** What the client writes. */
  function Hello(req: HandshakeReq): seq<byte> {
    EncodeFrame(NewFrame(OP_HANDSHAKE, EncodeReq(req)))
  }

  /** What the server writes. */
  function Reply(ack: HandshakeAck): seq<byte> {
    EncodeFrame(NewFrame(OP_HANDSHAKE_ACK, EncodeAck(ack)))
  }

  /** Handshake.Upgrade on the bytes that arrive: the request, the acknowledgement, and the bytes left unread.  The
    * acknowledgement is written by a deferred function, whose code is still OK when there was no request. */
  function Upgraded(data: seq<byte>, judge: Judge): (Result<HandshakeReq>, HandshakeAck, seq<byte>) {
    match ParseFrame(data)
    case Parsed(Err(e), rest) => (Err(e), HandshakeAck(CODE_HANDSHAKE_OK, []), rest)
    case Parsed(Ok(f), rest) =>
      match RequestIn(f)
      case Err(e) => (Err(e), HandshakeAck(CODE_HANDSHAKE_OK, []), rest)
      case Ok(req) => (Ok(req), judge(req), rest)
  }

  /** How the client takes the bytes that arrive after its request: None for success, and the bytes left unread. */
  function Connected(data: seq<byte>): (Option<Error>, seq<byte>) {
    match ParseFrame(data)
    case Parsed(Err(e), rest) => (Some(e), rest)
    case Parsed(Ok(f), rest) =>
      match AckIn(f)
      case Err(e) => (Some(e), rest)
      case Ok(ack) =>
        if ack.code != CODE_HANDSHAKE_OK then (Some(HandshakeFailed(ack.code)), rest) else (None, rest)
  }

  /** The server recovers the client's id and meta data, and no byte behind the request is consumed, exactly when the
    * request fits into one frame. */
  lemma ServerRecovers(req: HandshakeReq, later: seq<byte>, judge: Judge)
    ensures Upgraded(Hello(req) + later, judge) == (Ok(req), judge(req), later) <==>
            24 + |req.meta| < 0x1_0000_0000
  {
    var body := EncodeReq(req);
    var f := NewFrame(OP_HANDSHAKE, body);
    NewFrameFields(OP_HANDSHAKE, body);
    assert |body| == 24 + |req.meta|;
    if |body| < 0x1_0000_0000 {
      FrameExact(Hello(req) + later, f, later);
      ReqExact(body, req, []);
      assert body + [] == body;
    }
    if Upgraded(Hello(req) + later, judge).0 == Ok(req) {
      var Parsed(Ok(g), rest) := ParseFrame(Hello(req) + later);
      FrameExact(Hello(req) + later, g, rest);
      var extra := ParseReq(g.payload).rest;
      ReqExact(g.payload, req, extra);
      assert |g.payload| == |body| + |extra|;
    }
  }

  /** The client succeeds exactly on code 200, and no byte behind the acknowledgement is consumed. */
  lemma ClientFollowsCode(ack: HandshakeAck, later: seq<byte>)
    requires 6 + |ack.error| < 0x1_0000_0000
    ensures Connected(Reply(ack) + later) ==
            (if ack.code == 200 then None else Some(HandshakeFailed(ack.code)), later)
  {
    var body := EncodeAck(ack);
    NewFrameFields(OP_HANDSHAKE_ACK, body);
    FrameExact(Reply(ack) + later, NewFrame(OP_HANDSHAKE_ACK, body), later);
    AckExact(body, ack, []);
    assert body + [] == body;
  }

  /** Whatever reaches the server, the other side is told of success exactly when the request was malformed or was
    * judged with code 200; a success therefore does not show that the server took the connection. */
  lemma SuccessMeans(data: seq<byte>, later: seq<byte>, judge: Judge)
    requires 6 + |Upgraded(data, judge).1.error| < 0x1_0000_0000
    ensures var (request, ack, _) := Upgraded(data, judge);
            && (Connected(Reply(ack) + later).0 == None <==>
                request.Err? || judge(request.value).code == 200)
            && Connected(Reply(ack) + later).1 == later
  {
    ClientFollowsCode(Upgraded(data, judge).1, later);
  }

  /** The whole exchange on lossless streams that go on with other bytes in both directions. */
  lemma Exchange(req: HandshakeReq, judge: Judge, up: seq<byte>, down: seq<byte>)
    requires 24 + |req.meta| < 0x1_0000_0000 && 6 + |judge(req).error| < 0x1_0000_0000
    ensures var (request, ack, upRest) := Upgraded(Hello(req) + up, judge);
            var (failure, downRest) := Connected(Reply(ack) + down);
            && request == Ok(req) && upRest == up && downRest == down
            && (failure == None <==> judge(req).code == 200)
  {
    ServerRecovers(req, up, judge);
    ClientFollowsCode(judge(req), down);
  }

  /** The bytes of a request, by their places: op code 1, and a payload of the client's id and its meta data; each
    * length has its most significant byte first (see Bytes.BigEndian). */
  lemma HelloLayout(req: HandshakeReq)
    requires 24 + |req.meta| < 0x1_0000_0000
    ensures var b := Hello(req);
            && |b| == 29 + |req.meta| && b[0] == 1 && Uint32(b[1..5]) == 24 + |req.meta|
            && b[5..25] == req.sid && Uint32(b[25..29]) == |req.meta| && b[29..] == req.meta
  {
    hide PutUint32, Uint32;
    var size, len := PutUint32(24 + |req.meta|), PutUint32(|req.meta|);
    FourBytes(24 + |req.meta|);
    FourBytes(|req.meta|);
    var b := Hello(req);
    assert b == [1] + size + req.sid + len + req.meta;
    assert b[1..5] == size && b[25..29] == len;
  }

  /** And those of an acknowledgement: op code 2, and a payload of the code and the text of the error. */
  lemma ReplyLayout(ack: HandshakeAck)
    requires 6 + |ack.error| < 0x1_0000_0000
    ensures var b := Reply(ack);
            && |b| == 11 + |ack.error| && b[0] == 2 && Uint32(b[1..5]) == 6 + |ack.error|
            && b[5] as int * 0x100 + b[6] == ack.code
            && Uint32(b[7..11]) == |ack.error| && b[11..] == ack.error
  {
    hide PutUint32, Uint32;
    var size, len := PutUint32(6 + |ack.error|), PutUint32(|ack.error|);
    FourBytes(6 + |ack.error|);
    FourBytes(|ack.error|);
    var b := Reply(ack);
    assert b == [2] + size + PutUint16(ack.code) + len + ack.error;
    assert b[1..5] == size && b[7..11] == len;
  }

  // ----- the methods on connections -----

  method DecodeReq(r: Reader) returns (res: Result<HandshakeReq>)
    requires r.Valid()
    modifies r
    ensures r.Valid()
    ensures ParseReq(old(r.Remaining())) == Parsed(res, r.Remaining())
  {
    var sid := DecodeKsuid(r);
    if sid.Err? {
      return Err(sid.error);
    }
    var meta := ReadBytes(r);
    if meta.Err? {
      return Err(meta.error);
    }
    res := Ok(HandshakeReq(sid.value, meta.value));
  }

  method DecodeAck(r: Reader) returns (res: Result<HandshakeAck>)
    requires r.Valid()
    modifies r
    ensures r.Valid()
    ensures ParseAck(old(r.Remaining())) == Parsed(res, r.Remaining())
  {
    var code := ReadUint16(r);
    if code.Err? {
      return Err(code.error);
    }
    var error := ReadBytes(r);
    if error.Err? {
      return Err(error.error);
    }
    res := Ok(HandshakeAck(code.value, error.value));
  }

  method MustGetHandshakeReq(f: Frame) returns (res: Result<HandshakeReq>)
    ensures res == RequestIn(f)
  {
    if f.OpCode() != OP_HANDSHAKE {
      return Err(NotHandshake);
    }
    var buf := new Reader.Buffer(f.payload);
    res := DecodeReq(buf);
  }

  method MustGetHandshakeAck(f: Frame) returns (res: Result<HandshakeAck>)
    ensures res == AckIn(f)
  {
    if f.OpCode() != OP_HANDSHAKE_ACK {
      return Err(NotHandshakeAck);
    }
    var buf := new Reader.Buffer(f.payload);
    res := DecodeAck(buf);
  }

  /** Handshake.Upgrade */
  method Upgrade(r: Reader, w: Writer, judge: Judge) returns (req: Result<HandshakeReq>)
    requires r.Valid()
    modifies r, w
    ensures r.Valid()
    ensures var (request, ack, rest) := Upgraded(old(r.Remaining()), judge);
            req == request && r.Remaining() == rest && w.data == old(w.data) + Reply(ack)
  {
    var ack := HandshakeAck(CODE_HANDSHAKE_OK, []);
    var frame := DecodeFrame(r);
    if frame.Err? {
      req := Err(frame.error);
    } else {
      req := MustGetHandshakeReq(frame.value);
      if req.Ok? {
        ack := judge(req.value);
      }
    }
    EncodeFrameTo(NewFrame(OP_HANDSHAKE_ACK, EncodeAck(ack)), w);
  }

  /** ConnectServer, once the connection is open */
  method ConnectServer(r: Reader, w: Writer, clientId: Ksuid, meta: seq<byte>) returns (err: Option<Error>)
    requires r.Valid()
    modifies r, w
    ensures r.Valid()
    ensures w.data == old(w.data) + Hello(HandshakeReq(clientId, meta))
    ensures Connected(old(r.Remaining())) == (err, r.Remaining())
  {
    EncodeFrameTo(NewFrame(OP_HANDSHAKE, EncodeReq(HandshakeReq(clientId, meta))), w);
    var resp := DecodeFrame(r);
    if resp.Err? {
      return Some(resp.error);
    }
    var ack := MustGetHandshakeAck(resp.value);
    if ack.Err? {
      return Some(ack.error);
    }
    if ack.value.code != CODE_HANDSHAKE_OK {
      return Some(HandshakeFailed(ack.value.code));
    }
    err := None;
  }
}

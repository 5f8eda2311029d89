/** The frames of peer/tcp_peer.go, and the loop that reads them from a connection. */
module Frames {
  import opened Bytes
  import opened Streams
  import opened WireCommon

  const OP_HANDSHAKE: byte := 1
  const OP_HANDSHAKE_ACK: byte := 2
  const OP_PING: byte := 3
  const OP_PONG: byte := 4
  const OP_MESSAGE: byte := 5
  const OP_CLOSE: byte := 6

  /** An op code and a 32-bit payload length. */
  type FrameHeader = h: seq<byte> | |h| == 5 witness Zeros(5)

  datatype Frame = Frame(header: FrameHeader, payload: seq<byte>) {
    function OpCode(): byte {
      header[0]
    }

    function PayloadLen(): uint32 {
      Uint32(header[1..])
    }

    predicate WellFormed() {
      PayloadLen() == |payload|
    }

    predicate IsControl() {
      OpCode() in {OP_PING, OP_PONG, OP_CLOSE}
    }

    /** What the source puts on the wire: lengths are right, and control frames have no body. */
    predicate Sendable() {
      WellFormed() && (IsControl() ==> payload == [])
    }
  }

  function NewFrame(opCode: byte, payload: seq<byte>): Frame {
    Frame([opCode] + PutUint32(Narrow32(|payload|)), payload)
  }

  lemma NewFrameFields(opCode: byte, payload: seq<byte>)
    ensures var f := NewFrame(opCode, payload);
            f.OpCode() == opCode && f.payload == payload && f.PayloadLen() == Narrow32(|payload|)
    ensures NewFrame(opCode, payload).WellFormed() <==> |payload| < 0x1_0000_0000
  {
    var len := PutUint32(Narrow32(|payload|));
    assert ([opCode] + len)[1..] == len;
    Uint32Bijection(Narrow32(|payload|), []);
  }

  function EncodeFrame(f: Frame): seq<byte> {
    f.header + f.payload
  }

  function EncodeFrames(fs: seq<Frame>): seq<byte> {
    if fs == [] then [] else EncodeFrame(fs[0]) + EncodeFrames(fs[1..])
  }

  /** Frame.Decode */
  function ParseFrame(data: seq<byte>): Parsed<Frame> {
    match ParseFull(5, data)
    case Parsed(Err(e), rest) => Parsed(Err(e), rest)
    case Parsed(Ok(header), afterHeader) =>
      var len := Uint32(header[1..]);
      if len == 0 then Parsed(Ok(Frame(header, [])), afterHeader)
      else
        match ParseFull(len, afterHeader)
        case Parsed(Err(e), rest) => Parsed(Err(e), rest)
        case Parsed(Ok(payload), rest) => Parsed(Ok(Frame(header, payload)), rest)
  }

  /** A frame is read from exactly its own encoding, and not one byte of what follows it is consumed. */
  lemma FrameExact(data: seq<byte>, f: Frame, rest: seq<byte>)
    ensures ParseFrame(data) == Parsed(Ok(f), rest) <==> f.WellFormed() && data == EncodeFrame(f) + rest
  {
    if f.WellFormed() && data == EncodeFrame(f) + rest {
      assert data == f.header + (f.payload + rest);
      FullExact(5, data, f.header, f.payload + rest);
      FullExact(|f.payload|, f.payload + rest, f.payload, rest);
    }
    if ParseFrame(data) == Parsed(Ok(f), rest) {
      assert f.header == data[..5];
      assert data == EncodeFrame(f) + rest;
    }
  }

  // ----- the reader loop -----

  /** What the reader loop does: hand a payload to onMsg, or answer a ping. */
  datatype Action = Deliver(payload: seq<byte>) | AnswerPing

  /** One round of the reader loop: whether it goes on, what it does, and the bytes left for the next round. */
  datatype Round = Round(goesOn: bool, actions: seq<Action>, rest: seq<byte>)

  function ReceiveOne(data: seq<byte>): (round: Round)
    ensures round.goesOn ==> |round.rest| < |data|
  {
    if |data| < 5 then Round(false, [], [])
    else
      var op, len, rest := data[0], Uint32(data[1..5]), data[5..];
      if op == OP_CLOSE then Round(false, [], rest)
      else if op == OP_PING then Round(true, [AnswerPing], rest)
      else if op == OP_PONG || len == 0 then Round(true, [], rest)
      else if |rest| < len then Round(false, [], [])
      else Round(true, [Deliver(rest[..len])], rest[len..])
  }

  /** readHandler on all the bytes of a stream: the actions, and what is left when the loop ends. */
  function Receive(data: seq<byte>): (seq<Action>, seq<byte>)
    decreases |data|
  {
    var round := ReceiveOne(data);
    if round.goesOn then
      var (more, end) := Receive(round.rest);
      (round.actions + more, end)
    else (round.actions, round.rest)
  }

  /** What one frame asks of its reader. */
  function ActionsOf(f: Frame): seq<Action> {
    if f.OpCode() == OP_PING then [AnswerPing]
    else if f.OpCode() == OP_PONG || f.payload == [] then []
    else [Deliver(f.payload)]
  }

  /** What a list of frames asks of its reader; nothing behind a close frame counts. */
  function ExpectedActions(fs: seq<Frame>): seq<Action> {
    if fs == [] || fs[0].OpCode() == OP_CLOSE then []
    else ActionsOf(fs[0]) + ExpectedActions(fs[1..])
  }

  predicate HasClose(fs: seq<Frame>) {
    exists i :: 0 <= i < |fs| && fs[i].OpCode() == OP_CLOSE
  }

  /** The loop skips no body of a ping, a pong or a close. */
  function Unskipped(f: Frame): seq<byte> {
    if f.IsControl() then f.payload else []
  }

  /** One frame of any kind but a close: the loop does what it asks, and reads the body of a control frame as if it
    * stood in the stream by itself. */
  lemma ReceiveFrame(f: Frame, tail: seq<byte>)
    requires f.WellFormed() && f.OpCode() != OP_CLOSE
    ensures Receive(EncodeFrame(f) + tail).0 == ActionsOf(f) + Receive(Unskipped(f) + tail).0
  {
    var data := EncodeFrame(f) + tail;
    assert data[..5] == f.header;
    assert data[1..5] == f.header[1..];
    assert data[5..] == f.payload + tail;
    if !f.IsControl() {
      assert data[5..][..|f.payload|] == f.payload;
      assert data[5..][|f.payload|..] == tail;
      assert Unskipped(f) + tail == tail;
    }
  }

  /** What the loop makes of any well-formed frames and the bytes behind them, control frames with a body included. */
  function Seen(fs: seq<Frame>, tail: seq<byte>): seq<Action> {
    if fs == [] then Receive(tail).0
    else if fs[0].OpCode() == OP_CLOSE then []
    else if Unskipped(fs[0]) == [] then ActionsOf(fs[0]) + Seen(fs[1..], tail)
    else ActionsOf(fs[0]) + Receive(fs[0].payload + (EncodeFrames(fs[1..]) + tail)).0
  }

  lemma {:induction false} ReceiveAnyFrames(fs: seq<Frame>, tail: seq<byte>)
    requires forall i :: 0 <= i < |fs| ==> fs[i].WellFormed()
    ensures Receive(EncodeFrames(fs) + tail).0 == Seen(fs, tail)
  {
    if fs == [] {
      assert EncodeFrames(fs) + tail == tail;
    } else {
      var more := EncodeFrames(fs[1..]) + tail;
      assert EncodeFrames(fs) + tail == EncodeFrame(fs[0]) + more;
      if fs[0].OpCode() == OP_CLOSE {
        assert (EncodeFrame(fs[0]) + more)[0] == OP_CLOSE;
      } else {
        ReceiveFrame(fs[0], more);
        ReceiveAnyFrames(fs[1..], tail);
        assert Unskipped(fs[0]) == [] ==> Unskipped(fs[0]) + more == more;
      }
    }
  }

  /** The same by the byte with which a frame begins, whatever stands behind it: a close is 6, a ping 3, a pong 4, and
    * anything else is a message. */
  lemma ReceiveByOpCode(op: byte, payload: seq<byte>, tail: seq<byte>)
    requires |payload| < 0x1_0000_0000
    ensures var data := EncodeFrame(NewFrame(op, payload)) + tail;
            data[0] == op &&
            Receive(data).0 ==
              if op == 6 then []
              else if op == 3 then [AnswerPing] + Receive(payload + tail).0
              else if op == 4 then Receive(payload + tail).0
              else if payload == [] then Receive(tail).0
              else [Deliver(payload)] + Receive(tail).0
  {
    var f := NewFrame(op, payload);
    NewFrameFields(op, payload);
    if op != 6 {
      ReceiveFrame(f, tail);
      assert [] + tail == tail;
      assert [] + Receive(payload + tail).0 == Receive(payload + tail).0;
      assert [] + Receive(tail).0 == Receive(tail).0;
    }
  }

  /** Bytes that the loop reads without doing anything, and that end where a frame ends: bare headers of pongs and of
    * empty messages. */
  predicate Silent(body: seq<byte>)
    decreases |body|
  {
    body == [] ||
    (|body| >= 5 && ReceiveOne(body[..5]) == Round(true, [], []) && Silent(body[5..]))
  }

  lemma SilentFirst(body: seq<byte>, tail: seq<byte>)
    requires |body| >= 5 && ReceiveOne(body[..5]) == Round(true, [], [])
    ensures Receive(body + tail).0 == Receive(body[5..] + tail).0
  {
    var data := body + tail;
    assert data[0] == body[..5][0] && data[1..5] == body[..5][1..5];
    assert data[5..] == body[5..] + tail;
    assert Receive(data).0 == [] + Receive(data[5..]).0;
  }

  lemma {:induction false} SilentIsSkipped(body: seq<byte>, tail: seq<byte>)
    requires Silent(body)
    ensures Receive(body + tail).0 == Receive(tail).0
    decreases |body|
  {
    if body == [] {
      assert body + tail == tail;
    } else {
      SilentFirst(body, tail);
      SilentIsSkipped(body[5..], tail);
    }
  }

  const BARE_PING: seq<byte> := [OP_PING, 0, 0, 0, 0]
  const BARE_PONG: seq<byte> := [OP_PONG, 0, 0, 0, 0]

  lemma BareControls()
    ensures Receive([]).0 == [] && Receive(BARE_PONG).0 == [] && Receive(BARE_PING).0 == [AnswerPing]
  {
    assert BARE_PING[5..] == [] && BARE_PONG[5..] == [];
  }

  /** Any other bytes are noticed by what follows them. */
  lemma {:induction false} NoiseIsNoticed(body: seq<byte>) returns (tail: seq<byte>)
    requires !Silent(body)
    ensures Receive(body + tail).0 != Receive(tail).0
    decreases |body|
  {
    BareControls();
    hide Receive;
    if |body| >= 5 && ReceiveOne(body[..5]) == Round(true, [], []) {
      tail := NoiseIsNoticed(body[5..]);
      SilentFirst(body, tail);
    } else if body[0] == OP_PING {
      tail := BARE_PONG;
      PingComesFirst(body + tail);
    } else {
      tail := BARE_PING;
      NoPingComesFirst(body, tail);
    }
  }

  lemma PingComesFirst(data: seq<byte>)
    requires |data| >= 5 && data[0] == OP_PING
    ensures Receive(data).0 != []
  {
  }

  lemma NoPingComesFirst(body: seq<byte>, tail: seq<byte>)
    requires body != [] && body[0] != OP_PING && |tail| == 5
    requires |body| < 5 || ReceiveOne(body[..5]) != Round(true, [], [])
    ensures Receive(body + tail).0 == [] || Receive(body + tail).0[0].Deliver?
  {
    var data := body + tail;
    hide Receive;
    FirstRound(data);
    if |body| >= 5 {
      if Skips(data) {
        SameFirstHeader(body, tail);
      }
    } else {
      ShortRest(data[5..]);
    }
  }

  /** After a first header that is no ping, the loop stops, delivers a payload, or goes on behind that header. */
  lemma FirstRound(data: seq<byte>)
    requires |data| >= 5 && data[0] != OP_PING
    ensures || Receive(data).0 == []
            || Receive(data).0[0].Deliver?
            || (Receive(data).0 == Receive(data[5..]).0 && Skips(data))
  {
    if Skips(data) {
      assert Receive(data).0 == [] + Receive(data[5..]).0;
    }
  }

  /** The first header is one that the loop passes over. */
  predicate Skips(data: seq<byte>) {
    |data| >= 5 && (data[0] == OP_PONG || (data[0] != OP_CLOSE && data[0] != OP_PING && Uint32(data[1..5]) == 0))
  }

  lemma SameFirstHeader(body: seq<byte>, tail: seq<byte>)
    requires |body| >= 5 && Skips(body + tail)
    ensures ReceiveOne(body[..5]) == Round(true, [], [])
  {
    var data := body + tail;
    assert data[0] == body[..5][0] && data[1..5] == body[..5][1..5];
    assert body[..5][5..] == [];
  }

  lemma ShortRest(data: seq<byte>)
    requires |data| < 5
    ensures Receive(data).0 == []
  {
  }

  /** Exactly which frames keep the loop in step, whatever follows them: those that are no control frames, and control
    * frames with a silent body, an empty one for instance. */
  lemma KeepsInStep(f: Frame)
    requires f.WellFormed() && f.OpCode() != OP_CLOSE
    ensures (forall tail :: Receive(EncodeFrame(f) + tail).0 == ActionsOf(f) + Receive(tail).0) <==>
            Silent(Unskipped(f))
  {
    if Silent(Unskipped(f)) {
      forall tail ensures Receive(EncodeFrame(f) + tail).0 == ActionsOf(f) + Receive(tail).0 {
        ReceiveFrame(f, tail);
        SilentIsSkipped(Unskipped(f), tail);
      }
    } else {
      var tail := NoiseIsNoticed(Unskipped(f));
      ReceiveFrame(f, tail);
      TailsDiffer(ActionsOf(f), Receive(Unskipped(f) + tail).0, Receive(tail).0);
    }
  }

  lemma TailsDiffer(a: seq<Action>, b: seq<Action>, c: seq<Action>)
    requires b != c
    ensures a + b != a + c
  {
    assert b == (a + b)[|a|..];
    assert c == (a + c)[|a|..];
  }

  /** The loop does exactly what the frames in front of the first close frame ask for, in order, when each keeps it in
    * step. */
  lemma {:induction false} ReceiveFrames(fs: seq<Frame>, tail: seq<byte>)
    requires forall i :: 0 <= i < |fs| ==>
               fs[i].WellFormed() && (fs[i].OpCode() != OP_CLOSE ==> Silent(Unskipped(fs[i])))
    ensures Receive(EncodeFrames(fs) + tail).0 ==
            ExpectedActions(fs) + if HasClose(fs) then [] else Receive(tail).0
  {
    if fs == [] {
      assert EncodeFrames(fs) + tail == tail;
    } else {
      var more := EncodeFrames(fs[1..]) + tail;
      assert EncodeFrames(fs) + tail == EncodeFrame(fs[0]) + more;
      if fs[0].OpCode() == OP_CLOSE {
        assert (EncodeFrame(fs[0]) + more)[0] == OP_CLOSE;
      } else {
        KeepsInStep(fs[0]);
        ReceiveFrames(fs[1..], tail);
        assert HasClose(fs) <==> HasClose(fs[1..]) by {
          assert forall i :: 0 <= i < |fs[1..]| ==> fs[1..][i] == fs[i + 1];
          assert forall i :: 0 < i < |fs| ==> fs[i] == fs[1..][i - 1];
        }
      }
    }
  }

  /** A frame that has arrived only in part has no effect yet. */
  lemma PartialFrameIsSilent(f: Frame, k: nat)
    requires f.Sendable() && k < |EncodeFrame(f)|
    ensures Receive(EncodeFrame(f)[..k]).0 == []
  {
    var data := EncodeFrame(f)[..k];
    if k >= 5 {
      assert data[..5] == f.header;
      assert data[1..5] == f.header[1..];
    }
  }

  /** For instance, a ping that carries a close makes the loop end there. */
  lemma PingWithBodyDesynchronises(message: Frame)
    requires message.WellFormed()
    ensures var ping := NewFrame(OP_PING, [OP_CLOSE, 0, 0, 0, 0]);
            && ping.WellFormed() && !Silent(Unskipped(ping))
            && Receive(EncodeFrames([ping, message])).0 == [AnswerPing]
  {
    var close := [OP_CLOSE, 0, 0, 0, 0];
    var ping := NewFrame(OP_PING, close);
    NewFrameFields(OP_PING, close);
    var frames := [ping, message];
    assert frames[1..] == [message] && [message][1..] == [];
    assert EncodeFrames(frames) + [] == EncodeFrames(frames);
    ReceiveAnyFrames(frames, []);
    assert (close + (EncodeFrames([message]) + []))[0] == OP_CLOSE;
    assert Seen(frames, []) == [AnswerPing] + [];
  }

  // ----- the methods on readers and writers -----

  /** Header.Decode */
  method DecodeHeader(r: Reader) returns (res: Result<FrameHeader>)
    requires r.Valid()
    modifies r
    ensures r.Valid()
    ensures ParseFull(5, old(r.Remaining())) ==
            Parsed(match res case Ok(h) => Ok(h) case Err(e) => Err(e), r.Remaining())
  {
    var h := new byte[5](_ => 0);
    var err := r.ReadFull(h);
    res := if err == None then Ok(h[..]) else Err(err.value);
  }

  method DecodeFrame(r: Reader) returns (res: Result<Frame>)
    requires r.Valid()
    modifies r
    ensures r.Valid()
    ensures ParseFrame(old(r.Remaining())) == Parsed(res, r.Remaining())
  {
    var header := DecodeHeader(r);
    if header.Err? {
      return Err(header.error);
    }
    var len := Uint32(header.value[1..]);
    if len == 0 {
      return Ok(Frame(header.value, []));
    }
    var payload := ReadFixedBytes(len, r);
    if payload.Err? {
      return Err(payload.error);
    }
    res := Ok(Frame(header.value, payload.value));
  }

  method EncodeFrameTo(f: Frame, w: Writer)
    modifies w
    ensures w.data == old(w.data) + EncodeFrame(f)
  {
    w.Write(f.header);
    w.Write(f.payload);
  }

  /** The loop of Server.readHandler, when its pongs can be written. */
  method ReadHandler(r: Reader) returns (log: seq<Action>)
    requires r.Valid()
    modifies r
    ensures r.Valid()
    ensures Receive(old(r.Remaining())) == (log, r.Remaining())
  {
    log := [];
    ghost var (all, end) := Receive(r.Remaining());
    ghost var later := all;
    var goesOn := true;
    while goesOn
      invariant r.Valid()
      invariant if goesOn then (later, end) == Receive(r.Remaining()) else later == [] && end == r.Remaining()
      invariant all == log + later
      decreases goesOn, |r.Remaining()|
    {
      var actions;
      goesOn, actions := ReadRound(r);
      assert later[..|actions|] == actions;
      assert later == actions + later[|actions|..];
      log, later := log + actions, later[|actions|..];
    }
    assert all == log;
  }

  /** The body of that loop; goesOn is false where the source breaks out of it. */
  method ReadRound(r: Reader) returns (goesOn: bool, actions: seq<Action>)
    requires r.Valid()
    modifies r
    ensures r.Valid()
    ensures ReceiveOne(old(r.Remaining())) == Round(goesOn, actions, r.Remaining())
  {
    var header := DecodeHeader(r);
    if header.Err? {
      return false, [];
    }
    assert header.value[1..] == old(r.Remaining())[1..5];
    var op, len := header.value[0], Uint32(header.value[1..]);
    if op == OP_CLOSE {
      return false, [];
    } else if op == OP_PING {
      return true, [AnswerPing];
    } else if op == OP_PONG {
      return true, [];
    }
    if len == 0 {
      return true, [];
    }
    var payload := ReadFixedBytes(len, r);
    if payload.Err? {
      return false, [];
    }
    return true, [Deliver(payload.value)];
  }
}

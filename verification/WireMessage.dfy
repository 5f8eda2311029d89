/** wire/message.go: the client message and the packet that gateways and logic servers relay. */
module WireMessage {
  import opened Bytes
  import opened Streams
  import opened WireCommon

  /** Protocol id, sequence (2 bytes), acknowledged sequence (2), payload length (2), two spare bytes, ack code. */
  type Header = h: seq<byte> | |h| == 10 witness Zeros(10)

  const PID_KICK_OUT: byte := 0x03
  const PID_PING: byte := 0x05

  datatype Message = Message(header: Header, payload: seq<byte>) {
    function Pid(): byte {
      header[0]
    }

    function PayloadLen(): uint16 {
      Uint16(header[5..7])
    }

    predicate WellFormed() {
      PayloadLen() == |payload|
    }

    /** How many bytes can be missing at the end of the encoding without the decoder noticing. */
    function Slack(): nat {
      if payload == [] then 9 else |payload| - 1
    }

    /** Message.Write: store a marshalled payload and its length, narrowed to 16 bits. */
    function Write(out: seq<byte>): Message {
      Message(header[..5] + PutUint16(Narrow16(|out|)) + header[7..], out)
    }
  }

  datatype RelayPacket = RelayPacket(
    uuid: Ksuid,
    username: seq<byte>,
    device: byte,
    location: Ksuid,
    receivers: seq<Ksuid>,
    payload: Message)
  {
    predicate WellFormed() {
      |username| < 0x1_0000_0000 && |receivers| < 0x1_0000_0000 && payload.WellFormed()
    }
  }

  /** What goes up to the proxy: a packet with a message, or what NewEmptyRelayMessage makes, in which nothing is set
    * but Location, the gateway's own id.  The Payload of the latter is nil. */
  datatype Upward = Full(packet: RelayPacket) | Empty

  /** The packets with a message among those that go up. */
  function Packets(ups: seq<Upward>): seq<RelayPacket> {
    if ups == [] then []
    else (if ups[0].Full? then [ups[0].packet] else []) + Packets(ups[1..])
  }

  lemma {:induction false} PacketsAppend(a: seq<Upward>, b: seq<Upward>)
    ensures Packets(a + b) == Packets(a) + Packets(b)
  {
    hide Packets;
    PacketsOf(a);
    if a == [] {
      assert a + b == b;
    } else {
      var first := if a[0].Full? then [a[0].packet] else [];
      PacketsAppend(a[1..], b);
      PacketsOf(a + b);
      assert (a + b)[1..] == a[1..] + b;
      assert first + (Packets(a[1..]) + Packets(b)) == (first + Packets(a[1..])) + Packets(b);
    }
  }

  lemma PacketsOf(ups: seq<Upward>)
    ensures if ups == [] then Packets(ups) == []
            else Packets(ups) == (if ups[0].Full? then [ups[0].packet] else []) + Packets(ups[1..])
  {
  }

  // ----- encoding -----

  function EncodeMessage(m: Message): seq<byte> {
    m.header + m.payload
  }

  function EncodeIds(ids: seq<Ksuid>): seq<byte> {
    if ids == [] then [] else ids[0] + EncodeIds(ids[1..])
  }

  function EncodeSender(uuid: Ksuid, username: seq<byte>, device: byte): seq<byte> {
    uuid + (EncodeBytes(username) + [device])
  }

  function EncodeRoute(location: Ksuid, receivers: seq<Ksuid>): seq<byte> {
    location + (PutUint32(Narrow32(|receivers|)) + EncodeIds(receivers))
  }

  /** The part of a relay packet in front of its message. */
  function EncodeEnvelope(p: RelayPacket): seq<byte> {
    EncodeSender(p.uuid, p.username, p.device) + EncodeRoute(p.location, p.receivers)
  }

  function EncodeRelay(p: RelayPacket): seq<byte> {
    EncodeEnvelope(p) + EncodeMessage(p.payload)
  }

  // ----- decoding from a bytes.Buffer -----

  function Prefix(n: nat, data: seq<byte>): seq<byte> {
    if n <= |data| then data[..n] else data
  }

  /** Bytes that were read into the front of a zeroed array of n bytes. */
  function Padded(n: nat, got: seq<byte>): (p: seq<byte>)
    requires |got| <= n
    ensures |p| == n
  {
    got + Zeros(n - |got|)
  }

  /** Message.Decode uses plain Read, so a header or a payload that is cut short is padded with zeros. */
  function ParseMessage(data: seq<byte>): Parsed<Message> {
    if data == [] then Parsed(Err(Eof), [])
    else
      var head := Prefix(10, data);
      var tail := data[|head|..];
      var header: Header := Padded(10, head);
      var len := Uint16(header[5..7]);
      if len == 0 then Parsed(Ok(Message(header, [])), tail)
      else if tail == [] then Parsed(Err(Eof), [])
      else
        var body := Prefix(len, tail);
        Parsed(Ok(Message(header, Padded(len, body))), tail[|body|..])
  }

  /** The receiver loop drops errors: an id that cannot be read in full becomes the nil id. */
  function ParseIds(n: nat, data: seq<byte>): (seq<Ksuid>, seq<byte>) {
    if n == 0 then ([], data)
    else
      var (id, rest) := ParseId(data);
      var (ids, end) := ParseIds(n - 1, rest);
      ([id] + ids, end)
  }

  function ParseId(data: seq<byte>): (Ksuid, seq<byte>) {
    match ParseKsuid(data)
    case Parsed(Ok(id), rest) => (id, rest)
    case Parsed(Err(_), rest) => (NIL_KSUID, rest)
  }

  function ParseSender(data: seq<byte>): Parsed<(Ksuid, seq<byte>, byte)> {
    match ParseKsuid(data)
    case Parsed(Err(e), rest) => Parsed(Err(e), rest)
    case Parsed(Ok(uuid), afterUuid) =>
      match ParseBytes(afterUuid)
      case Parsed(Err(e), rest) => Parsed(Err(e), rest)
      case Parsed(Ok(username), afterName) =>
        match ParseUint8(afterName)
        case Parsed(Err(e), rest) => Parsed(Err(e), rest)
        case Parsed(Ok(device), rest) => Parsed(Ok((uuid, username, device)), rest)
  }

  function ParseRoute(data: seq<byte>): Parsed<(Ksuid, seq<Ksuid>)> {
    match ParseKsuid(data)
    case Parsed(Err(e), rest) => Parsed(Err(e), rest)
    case Parsed(Ok(location), afterLocation) =>
      match ParseUint32(afterLocation)
      case Parsed(Err(e), rest) => Parsed(Err(e), rest)
      case Parsed(Ok(n), afterCount) =>
        var (receivers, rest) := ParseIds(n, afterCount);
        Parsed(Ok((location, receivers)), rest)
  }

  function ParseRelay(data: seq<byte>): Parsed<RelayPacket> {
    match ParseSender(data)
    case Parsed(Err(e), rest) => Parsed(Err(e), rest)
    case Parsed(Ok((uuid, username, device)), afterSender) =>
      match ParseRoute(afterSender)
      case Parsed(Err(e), rest) => Parsed(Err(e), rest)
      case Parsed(Ok((location, receivers)), afterRoute) =>
        match ParseMessage(afterRoute)
        case Parsed(Err(e), rest) => Parsed(Err(e), rest)
        case Parsed(Ok(m), rest) =>
          Parsed(Ok(RelayPacket(uuid, username, device, location, receivers, m)), rest)
  }

  // ----- what the decoders accept -----

  /** data is the encoding followed by rest, or it is that encoding with its last cut bytes, all zero, missing. */
  predicate CutBy(cut: nat, data: seq<byte>, encoding: seq<byte>, rest: seq<byte>) {
    data + Zeros(cut) == encoding + rest && (cut > 0 ==> rest == [])
  }

  /** Message.Decode accepts exactly the encodings of well-formed messages, possibly short of trailing zeros. */
  lemma MessageDecodeExact(data: seq<byte>, m: Message, rest: seq<byte>)
    ensures ParseMessage(data) == Parsed(Ok(m), rest) <==>
            m.WellFormed() && exists cut :: 0 <= cut <= m.Slack() && CutBy(cut, data, EncodeMessage(m), rest)
  {
    if ParseMessage(data) == Parsed(Ok(m), rest) {
      MessageDecodeSound(data, m, rest);
    }
    if m.WellFormed() && exists cut :: 0 <= cut <= m.Slack() && CutBy(cut, data, EncodeMessage(m), rest) {
      var cut :| 0 <= cut <= m.Slack() && CutBy(cut, data, EncodeMessage(m), rest);
      MessageDecodeComplete(data, m, rest, cut);
    }
  }

  lemma MessageDecodeSound(data: seq<byte>, m: Message, rest: seq<byte>)
    requires ParseMessage(data) == Parsed(Ok(m), rest)
    ensures m.WellFormed()
    ensures exists cut :: 0 <= cut <= m.Slack() && CutBy(cut, data, EncodeMessage(m), rest)
  {
    var head := Prefix(10, data);
    var tail := data[|head|..];
    if m.payload == [] {
      HeadSound(data, m.header, rest);
      assert EncodeMessage(m) == m.header;
      assert CutBy(10 - |head|, data, EncodeMessage(m), rest);
    } else {
      assert head == m.header && data == m.header + tail;
      var cut := BodySound(tail, m.PayloadLen(), m.payload, rest);
      CutBehind(m.header, cut, tail, m.payload, rest);
      assert CutBy(cut, data, EncodeMessage(m), rest);
    }
  }

  lemma HeadSound(data: seq<byte>, header: Header, rest: seq<byte>)
    requires header == Padded(10, Prefix(10, data)) && rest == data[|Prefix(10, data)|..]
    ensures CutBy(10 - |Prefix(10, data)|, data, header, rest)
  {
    assert data == Prefix(10, data) + rest;
  }

  lemma BodySound(tail: seq<byte>, len: nat, payload: seq<byte>, rest: seq<byte>) returns (cut: nat)
    requires tail != [] && payload == Padded(len, Prefix(len, tail)) && rest == tail[|Prefix(len, tail)|..]
    requires len > 0
    ensures cut < len && CutBy(cut, tail, payload, rest)
  {
    cut := len - |Prefix(len, tail)|;
    assert tail == Prefix(len, tail) + rest;
  }

  lemma MessageDecodeComplete(data: seq<byte>, m: Message, rest: seq<byte>, cut: nat)
    requires m.WellFormed() && cut <= m.Slack() && CutBy(cut, data, EncodeMessage(m), rest)
    ensures ParseMessage(data) == Parsed(Ok(m), rest)
  {
    var whole := m.header + m.payload + rest;
    assert |data| == |whole| - cut;
    assert data == whole[..|data|];
    assert forall i :: |data| <= i < |whole| ==> whole[i] == (data + Zeros(cut))[i] == 0;
    var head := Prefix(10, data);
    assert Padded(10, head) == m.header by {
      assert forall i :: 0 <= i < 10 ==> m.header[i] == whole[i];
    }
    if m.payload != [] {
      var tail := data[10..];
      var body := Prefix(|m.payload|, tail);
      assert Padded(|m.payload|, body) == m.payload by {
        assert forall i :: 0 <= i < |m.payload| ==> m.payload[i] == whole[10 + i];
      }
      assert tail[|body|..] == rest;
    }
  }

  lemma SenderExact(data: seq<byte>, uuid: Ksuid, username: seq<byte>, device: byte, rest: seq<byte>)
    ensures ParseSender(data) == Parsed(Ok((uuid, username, device)), rest) <==>
            |username| < 0x1_0000_0000 && data == EncodeSender(uuid, username, device) + rest
  {
    if |username| < 0x1_0000_0000 && data == EncodeSender(uuid, username, device) + rest {
      var afterName := [device] + rest;
      var afterUuid := EncodeBytes(username) + afterName;
      assert data == uuid + afterUuid;
      FullExact(20, data, uuid, afterUuid);
      BytesExact(afterUuid, username, afterName);
      FullExact(1, afterName, [device], rest);
    }
    if ParseSender(data) == Parsed(Ok((uuid, username, device)), rest) {
      var afterUuid := ParseKsuid(data).rest;
      var afterName := ParseBytes(afterUuid).rest;
      FullExact(20, data, uuid, afterUuid);
      BytesExact(afterUuid, username, afterName);
      FullExact(1, afterName, [device], rest);
      assert data == EncodeSender(uuid, username, device) + rest;
    }
  }

  /** When bytes are left behind the receivers, every one of them was read in full. */
  lemma {:induction false} IdsSound(n: nat, data: seq<byte>)
    requires ParseIds(n, data).1 != []
    ensures var (ids, rest) := ParseIds(n, data); |ids| == n && data == EncodeIds(ids) + rest
  {
    if n > 0 {
      var Parsed(id, tail) := ParseKsuid(data);
      var (ids, rest) := ParseIds(n, data);
      NothingBehindNothing(n - 1, tail);
      IdsSound(n - 1, tail);
      FullExact(20, data, ids[0], tail);
      assert ids[1..] == ParseIds(n - 1, tail).0;
      assert data == EncodeIds(ids) + rest;
    }
  }

  lemma {:induction false} NothingBehindNothing(n: nat, data: seq<byte>)
    ensures data == [] ==> ParseIds(n, data).1 == []
  {
    if n > 0 {
      NothingBehindNothing(n - 1, ParseId(data).1);
    }
  }

  lemma {:induction false} IdsComplete(ids: seq<Ksuid>, rest: seq<byte>)
    ensures ParseIds(|ids|, EncodeIds(ids) + rest) == (ids, rest)
  {
    if ids == [] {
      assert EncodeIds(ids) + rest == rest;
    } else {
      var next := EncodeIds(ids[1..]) + rest;
      assert EncodeIds(ids) + rest == ids[0] + next;
      FullExact(20, ids[0] + next, ids[0], next);
      IdsComplete(ids[1..], rest);
      assert ids == [ids[0]] + ids[1..];
    }
  }

  lemma RouteExact(data: seq<byte>, location: Ksuid, receivers: seq<Ksuid>, rest: seq<byte>)
    requires rest != []
    ensures ParseRoute(data) == Parsed(Ok((location, receivers)), rest) <==>
            |receivers| < 0x1_0000_0000 && data == EncodeRoute(location, receivers) + rest
  {
    if |receivers| < 0x1_0000_0000 && data == EncodeRoute(location, receivers) + rest {
      RouteComplete(location, receivers, rest);
    }
    if ParseRoute(data) == Parsed(Ok((location, receivers)), rest) {
      RouteSound(data, location, receivers, rest);
    }
  }

  lemma RouteComplete(location: Ksuid, receivers: seq<Ksuid>, rest: seq<byte>)
    requires |receivers| < 0x1_0000_0000
    ensures ParseRoute(EncodeRoute(location, receivers) + rest) == Parsed(Ok((location, receivers)), rest)
  {
    var afterCount := EncodeIds(receivers) + rest;
    var afterLocation := PutUint32(|receivers|) + afterCount;
    var data := location + afterLocation;
    assert EncodeRoute(location, receivers) + rest == data;
    FullExact(20, data, location, afterLocation);
    Uint32Exact(afterLocation, |receivers|, afterCount);
    IdsComplete(receivers, rest);
  }

  lemma RouteSound(data: seq<byte>, location: Ksuid, receivers: seq<Ksuid>, rest: seq<byte>)
    requires rest != [] && ParseRoute(data) == Parsed(Ok((location, receivers)), rest)
    ensures |receivers| < 0x1_0000_0000 && data == EncodeRoute(location, receivers) + rest
  {
    hide ParseUint32, ParseIds, PutUint32;
    var afterLocation := ParseKsuid(data).rest;
    var Parsed(Ok(n), afterCount) := ParseUint32(afterLocation);
    FullExact(20, data, location, afterLocation);
    Uint32Exact(afterLocation, n, afterCount);
    IdsSound(n, afterCount);
    assert data == EncodeRoute(location, receivers) + rest;
  }

  /** The bytes in front of the message are read back exactly, whatever follows them. */
  lemma EnvelopeDecodes(p: RelayPacket, tail: seq<byte>)
    requires |p.username| < 0x1_0000_0000 && |p.receivers| < 0x1_0000_0000 && tail != []
    ensures ParseRelay(EncodeEnvelope(p) + tail) ==
            match ParseMessage(tail)
            case Parsed(Err(e), rest) => Parsed(Err(e), rest)
            case Parsed(Ok(m), rest) => Parsed(Ok(p.(payload := m)), rest)
  {
    var afterSender := EncodeRoute(p.location, p.receivers) + tail;
    assert EncodeEnvelope(p) + tail == EncodeSender(p.uuid, p.username, p.device) + afterSender;
    SenderExact(EncodeEnvelope(p) + tail, p.uuid, p.username, p.device, afterSender);
    RouteExact(afterSender, p.location, p.receivers, tail);
  }

  /** A packet is accepted only when everything in front of its message was there. */
  lemma EnvelopeComplete(data: seq<byte>, p: RelayPacket, rest: seq<byte>) returns (tail: seq<byte>)
    requires ParseRelay(data) == Parsed(Ok(p), rest)
    ensures |p.username| < 0x1_0000_0000 && |p.receivers| < 0x1_0000_0000
    ensures data == EncodeEnvelope(p) + tail && ParseMessage(tail) == Parsed(Ok(p.payload), rest)
  {
    var afterSender := ParseSender(data).rest;
    tail := ParseRoute(afterSender).rest;
    assert ParseSender(data) == Parsed(Ok((p.uuid, p.username, p.device)), afterSender);
    assert ParseRoute(afterSender) == Parsed(Ok((p.location, p.receivers)), tail);
    assert tail != [];
    SenderExact(data, p.uuid, p.username, p.device, afterSender);
    RouteExact(afterSender, p.location, p.receivers, tail);
    calc {
      data;
      EncodeSender(p.uuid, p.username, p.device) + (EncodeRoute(p.location, p.receivers) + tail);
      EncodeEnvelope(p) + tail;
    }
  }

  /** RelayPacket.Decode accepts exactly the encodings of well-formed packets, possibly short of trailing zeros
    * of the message.  No receiver is ever made up, although the receiver loop drops its errors. */
  lemma RelayDecodeExact(data: seq<byte>, p: RelayPacket, rest: seq<byte>)
    ensures ParseRelay(data) == Parsed(Ok(p), rest) <==>
            p.WellFormed() && exists cut :: 0 <= cut <= p.payload.Slack() && CutBy(cut, data, EncodeRelay(p), rest)
  {
    if ParseRelay(data) == Parsed(Ok(p), rest) {
      var tail := EnvelopeComplete(data, p, rest);
      MessageDecodeSound(tail, p.payload, rest);
      var cut :| 0 <= cut <= p.payload.Slack() && CutBy(cut, tail, EncodeMessage(p.payload), rest);
      CutBehind(EncodeEnvelope(p), cut, tail, EncodeMessage(p.payload), rest);
      assert CutBy(cut, data, EncodeRelay(p), rest);
    }
    if p.WellFormed() && exists cut :: 0 <= cut <= p.payload.Slack() && CutBy(cut, data, EncodeRelay(p), rest) {
      var cut :| 0 <= cut <= p.payload.Slack() && CutBy(cut, data, EncodeRelay(p), rest);
      var tail := Behind(EncodeEnvelope(p), cut, data, EncodeMessage(p.payload), rest);
      MessageDecodeComplete(tail, p.payload, rest, cut);
      EnvelopeDecodes(p, tail);
    }
  }

  lemma CutBehind(front: seq<byte>, cut: nat, tail: seq<byte>, encoding: seq<byte>, rest: seq<byte>)
    requires CutBy(cut, tail, encoding, rest)
    ensures CutBy(cut, front + tail, front + encoding, rest)
  {
    assert front + tail + Zeros(cut) == front + (tail + Zeros(cut));
    assert front + encoding + rest == front + (encoding + rest);
  }

  lemma Behind(front: seq<byte>, cut: nat, data: seq<byte>, encoding: seq<byte>, rest: seq<byte>)
    returns (tail: seq<byte>)
    requires CutBy(cut, data, front + encoding, rest) && cut < |encoding|
    ensures data == front + tail && tail != [] && CutBy(cut, tail, encoding, rest)
  {
    var whole := data + Zeros(cut);
    assert whole[..|front|] == front && whole[|front|..] == encoding + rest;
    tail := data[|front|..];
    assert data == whole[..|front|] + tail;
    assert tail + Zeros(cut) == whole[|front|..];
  }

  /** A packet comes back from its own encoding, with the bytes behind it untouched, exactly when it is well
    * formed: neither length prefix overflows and the header states the length of the payload. */
  lemma RelayRoundTrip(p: RelayPacket, rest: seq<byte>)
    ensures ParseRelay(EncodeRelay(p) + rest) == Parsed(Ok(p), rest) <==> p.WellFormed()
  {
    RelayDecodeExact(EncodeRelay(p) + rest, p, rest);
    if p.WellFormed() {
      assert CutBy(0, EncodeRelay(p) + rest, EncodeRelay(p), rest);
    }
  }

  lemma MessageRoundTrip(m: Message, rest: seq<byte>)
    ensures ParseMessage(EncodeMessage(m) + rest) == Parsed(Ok(m), rest) <==> m.WellFormed()
  {
    MessageDecodeExact(EncodeMessage(m) + rest, m, rest);
    if m.WellFormed() {
      assert CutBy(0, EncodeMessage(m) + rest, EncodeMessage(m), rest);
    }
  }

  /** Whatever Message.Decode accepts, even from truncated input, survives encoding and decoding unchanged. */
  lemma AcceptedMessagesAreStable(data: seq<byte>)
    requires ParseMessage(data).result.Ok?
    ensures var m := ParseMessage(data).result.value;
            m.WellFormed() && ParseMessage(EncodeMessage(m)) == Parsed(Ok(m), [])
  {
    var Parsed(Ok(m), rest) := ParseMessage(data);
    MessageDecodeExact(data, m, rest);
    MessageRoundTrip(m, []);
    assert EncodeMessage(m) + [] == EncodeMessage(m);
  }

  /** A payload fits behind its header exactly when it has at most 65535 bytes; storing it changes no other field. */
  lemma WriteFits(m: Message, out: seq<byte>)
    ensures m.Write(out).WellFormed() <==> |out| <= 0xFFFF
    ensures m.Write(out).header[..5] == m.header[..5] && m.Write(out).header[7..] == m.header[7..]
    ensures m.Write(out).payload == out
  {
    var len := PutUint16(Narrow16(|out|));
    var h := m.header[..5] + len + m.header[7..];
    assert h[5..7] == len;
    Uint16Bijection(Narrow16(|out|), []);
    assert m.Write(out).PayloadLen() == Narrow16(|out|);
  }

  // ----- where the fields stand -----

  lemma {:induction false} IdAt(ids: seq<Ksuid>, i: nat)
    requires i < |ids|
    ensures |EncodeIds(ids)| == 20 * |ids| && EncodeIds(ids)[20 * i..20 * i + 20] == ids[i]
  {
    IdsLength(ids);
    if i > 0 {
      IdAt(ids[1..], i - 1);
      var later := EncodeIds(ids[1..]);
      assert EncodeIds(ids)[20 * i..20 * i + 20] == later[20 * i - 20..20 * i];
    }
  }

  lemma {:induction false} IdsLength(ids: seq<Ksuid>)
    ensures |EncodeIds(ids)| == 20 * |ids|
  {
    if ids != [] {
      IdsLength(ids[1..]);
    }
  }

  lemma EnvelopeLayout(p: RelayPacket)
    requires p.WellFormed()
    ensures var b, n := EncodeEnvelope(p), |p.username|;
            && |b| == 49 + n + 20 * |p.receivers|
            && b[..20] == p.uuid
            && Uint32(b[20..24]) == n && b[24..24 + n] == p.username
            && b[24 + n] == p.device
            && b[25 + n..45 + n] == p.location
            && Uint32(b[45 + n..49 + n]) == |p.receivers|
            && b[49 + n..] == EncodeIds(p.receivers)
  {
    hide PutUint32, Uint32;
    var b, n := EncodeEnvelope(p), |p.username|;
    var len, count := PutUint32(n), PutUint32(|p.receivers|);
    IdsLength(p.receivers);
    FourBytes(n);
    FourBytes(|p.receivers|);
    assert b == p.uuid + len + p.username + [p.device] + p.location + count + EncodeIds(p.receivers);
    assert b[20..24] == len && b[45 + n..49 + n] == count;
  }

  /** The bytes of a packet, by their places: the sender's id, the length of its name in four bytes, the name, the
    * device, the gateway, the number of receivers in four bytes, their ids, and the message, which states the length of
    * its payload in its bytes 5 and 6; every number with its most significant byte first (see Bytes.BigEndian). */
  lemma RelayLayout(p: RelayPacket)
    requires p.WellFormed()
    ensures var b, n := EncodeRelay(p), |p.username|;
            var message := 49 + n + 20 * |p.receivers|;
            && |b| == message + 10 + |p.payload.payload|
            && b[..20] == p.uuid
            && Uint32(b[20..24]) == n && b[24..24 + n] == p.username
            && b[24 + n] == p.device
            && b[25 + n..45 + n] == p.location
            && Uint32(b[45 + n..49 + n]) == |p.receivers|
            && (forall i :: 0 <= i < |p.receivers| ==> b[49 + n + 20 * i..69 + n + 20 * i] == p.receivers[i])
            && b[message..message + 10] == p.payload.header
            && b[message + 5] as int * 0x100 + b[message + 6] == |p.payload.payload|
            && b[message + 10..] == p.payload.payload
  {
    hide EncodeEnvelope, Uint32;
    EnvelopeLayout(p);
    var b, n, front := EncodeRelay(p), |p.username|, EncodeEnvelope(p);
    assert b[20..24] == front[20..24] && b[45 + n..49 + n] == front[45 + n..49 + n];
    assert b == front + p.payload.header + p.payload.payload;
    forall i | 0 <= i < |p.receivers| ensures b[49 + n + 20 * i..69 + n + 20 * i] == p.receivers[i] {
      IdAt(p.receivers, i);
      var ids := front[49 + n..];
      assert b[49 + n + 20 * i..69 + n + 20 * i] == ids[20 * i..20 * i + 20];
    }
  }

  // ----- the methods on readers and writers -----

  /** Message.Decode into a fresh value.  Its plain Reads rely on the whole message being in one buffer, and a
    * bytes.Buffer is what every caller passes. */
  method DecodeMessage(r: Reader) returns (res: Result<Message>)
    requires r.Buffered()
    modifies r
    ensures r.Buffered()
    ensures ParseMessage(old(r.Remaining())) == Parsed(res, r.Remaining())
  {
    var h := new byte[10](_ => 0);
    var n, err := r.Read(h, 0);
    if err != None {
      return Err(err.value);
    }
    ghost var tail := r.Remaining();
    assert h[..] == Padded(10, Prefix(10, old(r.Remaining()))) by {
      assert h[..] == h[0..n] + h[n..];
    }
    var header: Header := h[..];
    var len := Uint16(header[5..7]);
    if len == 0 {
      return Ok(Message(header, []));
    }
    var body := new byte[len](_ => 0);
    n, err := r.Read(body, 0);
    if err != None {
      return Err(err.value);
    }
    assert body[..] == Padded(len, Prefix(len, tail)) by {
      assert body[..] == body[0..n] + body[n..];
    }
    res := Ok(Message(header, body[..]));
  }

  method DecodeRelay(r: Reader) returns (res: Result<RelayPacket>)
    requires r.Buffered()
    modifies r
    ensures r.Buffered()
    ensures ParseRelay(old(r.Remaining())) == Parsed(res, r.Remaining())
  {
    var uuid := DecodeKsuid(r);
    if uuid.Err? { return Err(uuid.error); }
    var username := ReadBytes(r);
    if username.Err? { return Err(username.error); }
    var device := ReadUint8(r);
    if device.Err? { return Err(device.error); }
    var location := DecodeKsuid(r);
    if location.Err? { return Err(location.error); }
    var length := ReadUint32(r);
    if length.Err? { return Err(length.error); }
    var receivers := DecodeReceivers(length.value, r);
    var payload := DecodeMessage(r);
    if payload.Err? { return Err(payload.error); }
    res := Ok(RelayPacket(uuid.value, username.value, device.value, location.value, receivers, payload.value));
  }

  /** The loop of RelayPacket.Decode that fills Receivers. */
  method DecodeReceivers(length: nat, r: Reader) returns (ids: seq<Ksuid>)
    requires r.Buffered()
    modifies r
    ensures r.Buffered()
    ensures ParseIds(length, old(r.Remaining())) == (ids, r.Remaining())
  {
    hide ParseId, ParseIds;
    var receivers := new Ksuid[length](_ => NIL_KSUID);
    ghost var (all, end) := ParseIds(length, r.Remaining());
    ghost var later := all;
    for i := 0 to length
      invariant r.Buffered()
      invariant (later, end) == ParseIds(length - i, r.Remaining())
      invariant all == receivers[..i] + later
    {
      ghost var before := receivers[..i];
      ParseIdsStep(length - i, r.Remaining());
      var id := DecodeReceiver(r);
      receivers[i] := id;
      assert receivers[..i + 1] == before + [id];
      later := later[1..];
    }
    ParseIdsStep(0, r.Remaining());
    assert receivers[..] == receivers[..length] + later;
    ids := receivers[..];
  }

  lemma ParseIdsStep(n: nat, data: seq<byte>)
    ensures n == 0 ==> ParseIds(n, data) == ([], data)
    ensures n > 0 ==>
              var (id, rest) := ParseId(data);
              var (ids, end) := ParseIds(n, data);
              ids != [] && ids[0] == id && ParseIds(n - 1, rest) == (ids[1..], end)
  {
  }

  /** m.Receivers[i], _ = DecodeKSUID(r) */
  method DecodeReceiver(r: Reader) returns (id: Ksuid)
    requires r.Buffered()
    modifies r
    ensures r.Buffered()
    ensures ParseId(old(r.Remaining())) == (id, r.Remaining())
  {
    var res := DecodeKsuid(r);
    id := if res.Ok? then res.value else NIL_KSUID;
  }

  method EncodeRelayTo(p: RelayPacket, w: Writer)
    modifies w
    ensures w.data == old(w.data) + EncodeRelay(p)
  {
    w.Write(p.uuid);
    WriteBytes(w, p.username);
    w.Write([p.device]);
    assert w.data == old(w.data) + EncodeSender(p.uuid, p.username, p.device);
    w.Write(p.location);
    w.Write(PutUint32(Narrow32(|p.receivers|)));
    EncodeReceivers(p.receivers, w);
    assert w.data == old(w.data) + EncodeEnvelope(p);
    EncodeMessageTo(p.payload, w);
  }

  /** The loop of RelayPacket.Encode over Receivers. */
  method EncodeReceivers(receivers: seq<Ksuid>, w: Writer)
    modifies w
    ensures w.data == old(w.data) + EncodeIds(receivers)
  {
    for i := 0 to |receivers|
      invariant w.data + EncodeIds(receivers[i..]) == old(w.data) + EncodeIds(receivers)
    {
      assert receivers[i..][1..] == receivers[i + 1..];
      assert w.data + EncodeIds(receivers[i..]) == (w.data + receivers[i]) + EncodeIds(receivers[i + 1..]);
      w.Write(receivers[i]);
    }
  }

  method EncodeMessageTo(m: Message, w: Writer)
    modifies w
    ensures w.data == old(w.data) + EncodeMessage(m)
  {
    w.Write(m.header);
    if |m.payload| > 0 {
      w.Write(m.payload);
    }
  }
}

/** The two routes of a client message through the gateway: from the bytes of a WebSocket payload to the logic server,
  * and from a logic server to the clients. */
module Routes {
  import opened Bytes
  import opened Streams
  import opened WireCommon
  import opened WireMessage
  import opened Frames
  import opened FrameWriters
  import opened Pipeline
  import opened Handshakes
  import Clusters
  import Registry
  import WsClients

  predicate IsProtocol(pid: byte) {
    0x01 <= pid <= 0x06 || 0x11 <= pid <= 0x19
  }

  /** The protocol id is one of the keys of wire.ProtocolMap. */
  predicate HasProtocol(m: Message) {
    m.header[0] in {0x01, 0x02, 0x03, 0x04, 0x05, 0x06, 0x11, 0x12, 0x13, 0x14, 0x15, 0x16, 0x17, 0x18, 0x19}
  }

  /** A connected client, and the gateway that holds it. */
  datatype Sender = Sender(id: Ksuid, username: seq<byte>, device: byte, gateway: Ksuid)

  function NewRelayMessage(from: Sender, m: Message): RelayPacket {
    RelayPacket(from.id, from.username, from.device, from.gateway, [], m)
  }

  /** A client message as it comes through the channel OnMsg, which all clients share. */
  datatype ClientMessage = ClientMessage(sender: Sender, message: Message)

  /** What the gateway sends up for the messages that it received. */
  function Uplink(onMsg: seq<ClientMessage>): seq<RelayPacket> {
    if onMsg == [] then []
    else
      var m := onMsg[0];
      (if IsProtocol(m.message.Pid()) then [NewRelayMessage(m.sender, m.message)] else []) + Uplink(onMsg[1..])
  }

  /** idx lists, in order, the numbers of the messages of a known protocol. */
  ghost predicate Numbers(onMsg: seq<ClientMessage>, idx: seq<nat>) {
    && (forall a, b :: 0 <= a < b < |idx| ==> idx[a] < idx[b])
    && (forall i: nat :: i in idx <==> i < |onMsg| && HasProtocol(onMsg[i].message))
  }

  /** ps are the packets for the messages with these numbers, which are all those of a known protocol, in order: each
    * names its sender, and the gateway to which an answer goes, and carries the message. */
  ghost predicate Carries(onMsg: seq<ClientMessage>, idx: seq<nat>, ps: seq<RelayPacket>) {
    && Numbers(onMsg, idx) && |idx| == |ps|
    && forall k :: 0 <= k < |ps| ==>
         idx[k] < |onMsg| && IsFrom(ps[k], onMsg[idx[k]].sender) && ps[k].payload == onMsg[idx[k]].message
  }

  predicate IsFrom(p: RelayPacket, sender: Sender) {
    && p.uuid == sender.id && p.username == sender.username && p.device == sender.device
    && p.location == sender.gateway && p.receivers == []
  }

  lemma {:induction false} UplinkCarries(onMsg: seq<ClientMessage>) returns (idx: seq<nat>)
    ensures Carries(onMsg, idx, Uplink(onMsg))
  {
    if onMsg == [] {
      idx := [];
    } else {
      var later := UplinkCarries(onMsg[1..]);
      idx := CarriesOneMore(onMsg, later, Uplink(onMsg[1..]));
    }
  }

  lemma CarriesOneMore(onMsg: seq<ClientMessage>, later: seq<nat>, ps: seq<RelayPacket>) returns (idx: seq<nat>)
    requires onMsg != [] && Carries(onMsg[1..], later, ps)
    ensures var m := onMsg[0];
            Carries(onMsg, idx,
                    (if IsProtocol(m.message.Pid()) then [NewRelayMessage(m.sender, m.message)] else []) + ps)
  {
    hide IsProtocol, HasProtocol, Numbers, NewRelayMessage, IsFrom;
    var m, first := onMsg[0], if HasProtocol(onMsg[0].message) then [0] else [];
    KeysAreProtocols(m.message);
    PacketNamesSender(m.sender, m.message);
    idx := first + Shifted(later);
    NumbersOneMore(onMsg, later);
    forall k | 0 <= k < |later| ensures onMsg[1..][later[k]] == onMsg[later[k] + 1] {
    }
  }

  lemma KeysAreProtocols(m: Message)
    ensures IsProtocol(m.Pid()) <==> HasProtocol(m)
  {
  }

  lemma PacketNamesSender(sender: Sender, m: Message)
    ensures IsFrom(NewRelayMessage(sender, m), sender) && NewRelayMessage(sender, m).payload == m
  {
  }

  function Shifted(idx: seq<nat>): (shifted: seq<nat>)
    ensures |shifted| == |idx| && forall k :: 0 <= k < |idx| ==> shifted[k] == idx[k] + 1
  {
    seq(|idx|, k requires 0 <= k < |idx| => idx[k] + 1)
  }

  lemma NumbersOneMore(onMsg: seq<ClientMessage>, later: seq<nat>)
    requires onMsg != [] && Numbers(onMsg[1..], later)
    ensures Numbers(onMsg, (if HasProtocol(onMsg[0].message) then [0] else []) + Shifted(later))
  {
    hide HasProtocol;
    var shifted := Shifted(later);
    forall i: nat ensures i in shifted <==> i > 0 && i - 1 in later {
      if i > 0 && i - 1 in later {
        var k :| 0 <= k < |later| && later[k] == i - 1;
        assert shifted[k] == i;
      }
    }
    forall i: nat | 0 < i < |onMsg| ensures onMsg[1..][i - 1] == onMsg[i] {
    }
  }

  /** The Gateway.handleClientEvents case for messages */
  method HandleClientEvents(onMsg: seq<ClientMessage>) returns (sent: seq<RelayPacket>)
    ensures sent == Uplink(onMsg)
    ensures exists idx :: Carries(onMsg, idx, sent)
  {
    sent := [];
    ghost var later := Uplink(onMsg);
    for i := 0 to |onMsg|
      invariant later == Uplink(onMsg[i..]) && Uplink(onMsg) == sent + later
    {
      assert onMsg[i..][1..] == onMsg[i + 1..];
      var recvMsg := onMsg[i];
      if !IsProtocol(recvMsg.message.Pid()) {
        assert later == [] + Uplink(onMsg[i + 1..]);
        continue;
      }
      sent, later := sent + [NewRelayMessage(recvMsg.sender, recvMsg.message)], later[1..];
    }
    ghost var idx := UplinkCarries(onMsg);
  }

  predicate Shippable(p: RelayPacket) {
    p.WellFormed() && |EncodeRelay(p)| < 0x1_0000_0000
  }

  predicate AllShippable(ps: seq<RelayPacket>) {
    forall p :: p in ps ==> Shippable(p)
  }

  /** Whatever bytes the clients send, cut short or not, each packet that the gateway makes of them can be shipped. */
  lemma {:induction false} UplinkIsShippable(onMsg: seq<ClientMessage>)
    requires forall i :: 0 <= i < |onMsg| ==> |onMsg[i].sender.username| < 0x8000_0000 && onMsg[i].message.WellFormed()
    ensures AllShippable(Uplink(onMsg))
  {
    if onMsg != [] {
      UplinkIsShippable(onMsg[1..]);
      assert Shippable(NewRelayMessage(onMsg[0].sender, onMsg[0].message));
    }
  }

  /** The messages that a client's reader passes on when it receives these WebSocket payloads (see
    * WsClients.HandleMessage). */
  function FromPayloads(payloads: seq<seq<byte>>): seq<Message> {
    if payloads == [] then []
    else WsClients.NotPings(WsClients.Decoded(payloads[0])) + FromPayloads(payloads[1..])
  }

  lemma {:induction false} NotPingsAreWellFormed(ms: seq<Message>)
    requires WsClients.AllWellFormed(ms)
    ensures WsClients.AllWellFormed(WsClients.NotPings(ms))
  {
    if ms != [] {
      NotPingsAreWellFormed(ms[1..]);
    }
  }

  lemma {:induction false} PayloadsGiveWellFormed(payloads: seq<seq<byte>>)
    ensures WsClients.AllWellFormed(FromPayloads(payloads))
  {
    if payloads != [] {
      WsClients.AccountsForAllBytes(payloads[0]);
      NotPingsAreWellFormed(WsClients.Decoded(payloads[0]));
      PayloadsGiveWellFormed(payloads[1..]);
    }
  }

  function MessagesFrom(onMsg: seq<ClientMessage>, sender: Sender): seq<Message> {
    if onMsg == [] then []
    else (if onMsg[0].sender == sender then [onMsg[0].message] else []) + MessagesFrom(onMsg[1..], sender)
  }

  /** The messages in the packets that name this sender. */
  function CarriedFrom(ps: seq<RelayPacket>, sender: Sender): seq<Message> {
    if ps == [] then []
    else (if IsFrom(ps[0], sender) then [ps[0].payload] else []) + CarriedFrom(ps[1..], sender)
  }

  /** The messages of a known protocol. */
  function OfProtocol(ms: seq<Message>): seq<Message> {
    if ms == [] then []
    else (if HasProtocol(ms[0]) then [ms[0]] else []) + OfProtocol(ms[1..])
  }

  lemma {:induction false} CarriedFromAppend(a: seq<RelayPacket>, b: seq<RelayPacket>, sender: Sender)
    ensures CarriedFrom(a + b, sender) == CarriedFrom(a, sender) + CarriedFrom(b, sender)
  {
    hide IsFrom;
    if a == [] {
      assert a + b == b;
    } else {
      var first, later := if IsFrom(a[0], sender) then [a[0].payload] else [], CarriedFrom(a[1..], sender);
      CarriedFromAppend(a[1..], b, sender);
      assert (a + b)[1..] == a[1..] + b;
      assert first + (later + CarriedFrom(b, sender)) == (first + later) + CarriedFrom(b, sender);
    }
  }

  lemma {:induction false} OfProtocolAppend(a: seq<Message>, b: seq<Message>)
    ensures OfProtocol(a + b) == OfProtocol(a) + OfProtocol(b)
  {
    if a == [] {
      assert a + b == b;
    } else {
      var first := if HasProtocol(a[0]) then [a[0]] else [];
      OfProtocolAppend(a[1..], b);
      assert (a + b)[1..] == a[1..] + b;
      assert first + (OfProtocol(a[1..]) + OfProtocol(b)) == (first + OfProtocol(a[1..])) + OfProtocol(b);
    }
  }

  /** However the clients' messages are mixed, those of one client go up as if it were alone. */
  lemma {:induction false} UplinkOfEach(onMsg: seq<ClientMessage>, sender: Sender)
    ensures CarriedFrom(Uplink(onMsg), sender) == OfProtocol(MessagesFrom(onMsg, sender))
  {
    if onMsg != [] {
      var m := onMsg[0];
      var first := if IsProtocol(m.message.Pid()) then [NewRelayMessage(m.sender, m.message)] else [];
      UplinkOfEach(onMsg[1..], sender);
      CarriedFromAppend(first, Uplink(onMsg[1..]), sender);
      assert CarriedFrom(first, sender) == OfProtocol(if m.sender == sender then [m.message] else []);
      OfProtocolAppend(if m.sender == sender then [m.message] else [], MessagesFrom(onMsg[1..], sender));
    }
  }

  /** What has come through OnMsg so far: some of what the readers pass on, each reader's messages in its own order. */
  ghost predicate Arrivals(onMsg: seq<ClientMessage>, received: map<Sender, seq<seq<byte>>>) {
    && (forall i :: 0 <= i < |onMsg| ==> onMsg[i].sender in received)
    && (forall sender :: sender in received ==> MessagesFrom(onMsg, sender) <= FromPayloads(received[sender]))
  }

  lemma {:induction false} MessageIsFromSender(onMsg: seq<ClientMessage>, i: nat)
    requires i < |onMsg|
    ensures onMsg[i].message in MessagesFrom(onMsg, onMsg[i].sender)
  {
    if i > 0 {
      MessageIsFromSender(onMsg[1..], i - 1);
    }
  }

  /** The first packets are what goes up for the first messages. */
  lemma {:induction false} UplinkPrefix(onMsg: seq<ClientMessage>, n: nat) returns (k: nat)
    requires n <= |Uplink(onMsg)|
    ensures k <= |onMsg| && Uplink(onMsg[..k]) == Uplink(onMsg)[..n]
    ensures n == |Uplink(onMsg)| ==> k == |onMsg|
  {
    hide IsProtocol, NewRelayMessage;
    if n == |Uplink(onMsg)| {
      k := |onMsg|;
      assert onMsg[..k] == onMsg;
    } else {
      var first := |Uplink(onMsg)| - |Uplink(onMsg[1..])|;
      if n < first {
        k := 0;
      } else {
        var later := UplinkPrefix(onMsg[1..], n - first);
        k := later + 1;
        assert onMsg[..k][1..] == onMsg[1..][..later];
      }
    }
  }

  /** ps are the packets for those of the first k messages that are of a known protocol. */
  ghost predicate CarriesFirst(onMsg: seq<ClientMessage>, k: nat, idx: seq<nat>, ps: seq<RelayPacket>) {
    k <= |onMsg| && Carries(onMsg[..k], idx, ps)
  }

  lemma FirstAreCarried(onMsg: seq<ClientMessage>, n: nat)
    requires n <= |Uplink(onMsg)|
    ensures exists k, idx :: CarriesFirst(onMsg, k, idx, Uplink(onMsg)[..n])
  {
    var k := UplinkPrefix(onMsg, n);
    var idx := UplinkCarries(onMsg[..k]);
    assert CarriesFirst(onMsg, k, idx, Uplink(onMsg)[..n]);
  }

  lemma ArrivalsAreWellFormed(onMsg: seq<ClientMessage>, received: map<Sender, seq<seq<byte>>>)
    requires Arrivals(onMsg, received)
    ensures forall i :: 0 <= i < |onMsg| ==> onMsg[i].message.WellFormed()
  {
    forall i | 0 <= i < |onMsg| ensures onMsg[i].message.WellFormed() {
      var sender := onMsg[i].sender;
      MessageIsFromSender(onMsg, i);
      PayloadsGiveWellFormed(received[sender]);
      var all := FromPayloads(received[sender]);
      var j :| 0 <= j < |MessagesFrom(onMsg, sender)| && MessagesFrom(onMsg, sender)[j] == onMsg[i].message;
      assert all[j] == onMsg[i].message;
    }
  }

  lemma {:induction false} BeforeEmptyIsPrefix(ups: seq<Upward>)
    ensures Clusters.BeforeEmpty(ups) <= Packets(ups)
    ensures Empty !in ups ==> Clusters.BeforeEmpty(ups) == Packets(ups)
  {
    if ups != [] {
      BeforeEmptyIsPrefix(ups[1..]);
      if ups[0].Empty? {
        assert Empty in ups;
      }
    }
  }

  /** Up: whatever WebSocket payloads any number of clients send, however their messages are mixed in the channel of the
    * gateway, and wherever empty packets stand between them in that of the proxy, for every interleaving on the
    * connection to the logic server and at every moment, the logic server has decoded the first packets that stand in
    * front of the first empty one, unchanged and as many as are completely out.  These are one packet for each message
    * of a known protocol among the first ones in the channel, naming its sender.  Among them those of each client carry
    * the first ones of the messages in its own payloads, in order; and when no empty packet was sent, all messages have
    * come through and all packets are out, they carry all of them.  That the channel of the proxy leaves the messages
    * alone is PumpTraffic.MessagesComeThrough. */
  lemma ClientsToLogicServer(received: map<Sender, seq<seq<byte>>>, onMsg: seq<ClientMessage>, ups: seq<Upward>,
                             jobs: map<WriterId, seq<Frame>>, pusher: WriterId, steps: seq<Step>, s: Line)
    requires forall sender :: sender in received ==> |sender.username| < 0x8000_0000
    requires Arrivals(onMsg, received) && Packets(ups) <= Uplink(onMsg)
    requires pusher in jobs && jobs[pusher] == PushFrames(Clusters.BeforeEmpty(ups))
    requires OthersControl(jobs, pusher)
    requires Reaches(Start(jobs), steps, s)
    ensures var n, decoded := Arrived(s, pusher), DecodeUntilError(Payloads(Receive(s.wire).0));
            && n <= |Clusters.BeforeEmpty(ups)| && decoded == Clusters.BeforeEmpty(ups)[..n]
            && (exists k, idx :: CarriesFirst(onMsg, k, idx, decoded))
            && forall sender :: sender in received ==>
                 var messages := OfProtocol(FromPayloads(received[sender]));
                 && CarriedFrom(decoded, sender) <= messages
                 && (&& Empty !in ups && n == |Uplink(onMsg)|
                     && MessagesFrom(onMsg, sender) == FromPayloads(received[sender]) ==>
                       CarriedFrom(decoded, sender) == messages)
  {
    hide OthersControl, Reaches, Receive, Payloads, DecodeUntilError;
    var packets := Clusters.BeforeEmpty(ups);
    BeforeEmptyIsPrefix(ups);
    ArrivalsAreWellFormed(onMsg, received);
    UplinkIsShippable(onMsg);
    PrefixIsShippable(packets, Uplink(onMsg));
    ShippableIsPushable(jobs, pusher, packets);
    EndToEnd(jobs, pusher, packets, steps, s);
    var n := Arrived(s, pusher);
    assert packets[..n] == Uplink(onMsg)[..n];
    FirstAreCarried(onMsg, n);
    forall sender | sender in received
      ensures CarriedFrom(packets[..n], sender) <= OfProtocol(FromPayloads(received[sender]))
      ensures MessagesFrom(onMsg, sender) == FromPayloads(received[sender]) && n == |Uplink(onMsg)| ==>
                CarriedFrom(packets[..n], sender) == OfProtocol(FromPayloads(received[sender]))
    {
      ShareOfClient(onMsg, sender, FromPayloads(received[sender]), n);
    }
  }

  lemma PrefixIsShippable(ps: seq<RelayPacket>, qs: seq<RelayPacket>)
    requires AllShippable(qs) && ps <= qs
    ensures AllShippable(ps)
  {
    hide Shippable;
    forall p | p in ps ensures p in qs {
      var i :| 0 <= i < |ps| && ps[i] == p;
      assert qs[i] == p;
    }
  }

  lemma ShareOfClient(onMsg: seq<ClientMessage>, sender: Sender, all: seq<Message>, n: nat)
    requires MessagesFrom(onMsg, sender) <= all && n <= |Uplink(onMsg)|
    ensures CarriedFrom(Uplink(onMsg)[..n], sender) <= OfProtocol(all)
    ensures MessagesFrom(onMsg, sender) == all && n == |Uplink(onMsg)| ==>
              CarriedFrom(Uplink(onMsg)[..n], sender) == OfProtocol(all)
  {
    var packets, ms := Uplink(onMsg), MessagesFrom(onMsg, sender);
    UplinkOfEach(onMsg, sender);
    CarriedFromAppend(packets[..n], packets[n..], sender);
    assert packets == packets[..n] + packets[n..];
    OfProtocolAppend(ms, all[|ms|..]);
    assert all == ms + all[|ms|..];
    assert n == |packets| ==> packets[..n] == packets;
  }

  lemma {:induction false} ShareIsShippable(targets: seq<Ksuid>, packets: seq<RelayPacket>, id: Ksuid)
    requires |targets| == |packets|
    requires AllShippable(packets)
    ensures AllShippable(Clusters.Share(targets, packets, id))
  {
    hide Shippable;
    if packets != [] {
      ShareIsShippable(targets[1..], packets[1..], id);
    }
  }

  /** Over a whole cluster: when the proxy routes the packets in front of the first empty one, and writes the share of
    * each server to that server's connection, the server decodes exactly its share, in order, as far as it is
    * completely out.  What the shares are to the packets is the subject of Clusters.RoutingDivides. */
  lemma ServerGetsItsShare(ids: seq<Ksuid>, index: nat, ups: seq<Upward>, id: Ksuid,
                           jobs: map<WriterId, seq<Frame>>, pusher: WriterId, steps: seq<Step>, s: Line)
    requires ids != [] && AllShippable(Packets(ups))
    requires pusher in jobs
    requires var packets := Clusters.BeforeEmpty(ups);
             jobs[pusher] == PushFrames(Clusters.Share(Clusters.Served(ids, index, |packets|), packets, id))
    requires OthersControl(jobs, pusher)
    requires Reaches(Start(jobs), steps, s)
    ensures var packets := Clusters.BeforeEmpty(ups);
            var share := Clusters.Share(Clusters.Served(ids, index, |packets|), packets, id);
            && Arrived(s, pusher) <= |share|
            && DecodeUntilError(Payloads(Receive(s.wire).0)) == share[..Arrived(s, pusher)]
  {
    hide AllShippable;
    var packets := Clusters.BeforeEmpty(ups);
    var targets := Clusters.Served(ids, index, |packets|);
    var share := Clusters.Share(targets, packets, id);
    BeforeEmptyIsPrefix(ups);
    PrefixIsShippable(packets, Packets(ups));
    ShareIsShippable(targets, packets, id);
    ShippableIsPushable(jobs, pusher, share);
    EndToEnd(jobs, pusher, share, steps, s);
  }

  lemma ShippableIsPushable(jobs: map<WriterId, seq<Frame>>, pusher: WriterId, packets: seq<RelayPacket>)
    requires pusher in jobs && jobs[pusher] == PushFrames(packets)
    requires AllShippable(packets)
    requires OthersControl(jobs, pusher)
    ensures PushesAndControls(jobs, pusher, packets)
  {
    assert forall i :: 0 <= i < |packets| ==> packets[i] in packets;
  }

  /** LgServer.out carries packets addressed to gateways. */
  datatype LocMessage = LocMessage(serverId: Ksuid, payload: RelayPacket)

  /** What is pushed to whom, when tables[i] is the table of gateways at the time when the i-th message is taken up. */
  function Pushes(tables: seq<Clusters.Table>, out: seq<LocMessage>): seq<(Clusters.Server, seq<byte>)>
    requires |tables| == |out|
  {
    if out == [] then []
    else
      (if out[0].serverId in tables[0] then [(tables[0][out[0].serverId], EncodeRelay(out[0].payload))] else []) +
      Pushes(tables[1..], out[1..])
  }

  /** LgServer.writeHandler: for each message the gateway is looked up anew, under the lock that gatewayHandler takes
    * when it changes the table.  A message for a gateway that is not there is dropped. */
  method WriteHandler(tables: seq<Clusters.Table>, out: seq<LocMessage>)
    returns (pushed: seq<(Clusters.Server, seq<byte>)>)
    requires |tables| == |out|
    ensures pushed == Pushes(tables, out)
  {
    hide EncodeRelay;
    pushed := [];
    ghost var later := Pushes(tables, out);
    for i := 0 to |out|
      invariant later == Pushes(tables[i..], out[i..]) && Pushes(tables, out) == pushed + later
    {
      assert out[i..][1..] == out[i + 1..] && tables[i..][1..] == tables[i + 1..];
      var locMessage := out[i];
      if locMessage.serverId !in tables[i] {
        assert later == [] + Pushes(tables[i + 1..], out[i + 1..]);
        continue;
      }
      var buf := new Writer();
      EncodeRelayTo(locMessage.payload, buf);
      assert buf.data == EncodeRelay(locMessage.payload);
      pushed, later := pushed + [(tables[i][locMessage.serverId], buf.data)], later[1..];
    }
  }

  /** Of the pushes those to one gateway. */
  function PushedTo(pushed: seq<(Clusters.Server, seq<byte>)>, gateway: Clusters.Server): seq<seq<byte>> {
    if pushed == [] then []
    else (if pushed[0].0 == gateway then [pushed[0].1] else []) + PushedTo(pushed[1..], gateway)
  }

  /** Of messages addressed to gateways those for one of them, encoded. */
  function Outbox(out: seq<LocMessage>, id: Ksuid): seq<seq<byte>> {
    if out == [] then []
    else (if out[0].serverId == id then [EncodeRelay(out[0].payload)] else []) + Outbox(out[1..], id)
  }

  ghost predicate KeyedById(tables: seq<Clusters.Table>) {
    forall i, id :: 0 <= i < |tables| && id in tables[i] ==> tables[i][id].id == id
  }

  /** Through whatever changes of the table, a gateway that is in it whenever a message for its id is taken up is pushed
    * exactly these messages, encoded and in order. */
  lemma {:induction false} GatewayGetsItsMessages(tables: seq<Clusters.Table>, out: seq<LocMessage>,
                                                  gateway: Clusters.Server)
    requires |tables| == |out| && KeyedById(tables)
    requires forall i :: 0 <= i < |out| && out[i].serverId == gateway.id ==>
               gateway.id in tables[i] && tables[i][gateway.id] == gateway
    ensures PushedTo(Pushes(tables, out), gateway) == Outbox(out, gateway.id)
  {
    if out != [] {
      hide EncodeRelay;
      GatewayGetsItsMessages(tables[1..], out[1..], gateway);
      if out[0].serverId in tables[0] {
        assert Pushes(tables, out)[1..] == Pushes(tables[1..], out[1..]);
      } else {
        assert Pushes(tables, out) == Pushes(tables[1..], out[1..]);
      }
    }
  }

  /** One that never is, because it has left or has been replaced, is pushed none. */
  lemma {:induction false} NothingForOthers(tables: seq<Clusters.Table>, out: seq<LocMessage>, gateway: Clusters.Server)
    requires |tables| == |out|
    requires forall i :: 0 <= i < |out| && out[i].serverId in tables[i] ==> tables[i][out[i].serverId] != gateway
    ensures PushedTo(Pushes(tables, out), gateway) == []
  {
    if out != [] {
      hide EncodeRelay;
      NothingForOthers(tables[1..], out[1..], gateway);
      if out[0].serverId in tables[0] {
        assert Pushes(tables, out)[1..] == Pushes(tables[1..], out[1..]);
      } else {
        assert Pushes(tables, out) == Pushes(tables[1..], out[1..]);
      }
    }
  }

  /** A whole connection at the accepting side: Upgrade takes the request off the stream, and the reader loop and the
    * decoder take the rest.  However the stream is cut, also across the end of the handshake, the request is
    * recovered and every packet that is completely out is decoded. */
  method ServeConnection(conn: Reader, w: Writer, judge: Judge, ghost req: HandshakeReq,
                         ghost jobs: map<WriterId, seq<Frame>>, ghost pusher: WriterId,
                         ghost packets: seq<RelayPacket>, ghost steps: seq<Step>, ghost s: Line)
    returns (request: Result<HandshakeReq>, handled: seq<RelayPacket>)
    requires conn.Valid() && conn.Remaining() == Hello(req) + s.wire
    requires 24 + |req.meta| < 0x1_0000_0000
    requires PushesAndControls(jobs, pusher, packets)
    requires Reaches(Start(jobs), steps, s)
    modifies conn, w
    ensures request == Ok(req) && w.data == old(w.data) + Reply(judge(req))
    ensures Arrived(s, pusher) <= |packets| && handled == packets[..Arrived(s, pusher)]
  {
    ServerRecovers(req, s.wire, judge);
    EndToEnd(jobs, pusher, packets, steps, s);
    request := Upgrade(conn, w, judge);
    var actions := ReadHandler(conn);
    handled := LogicServerReadHandler(Payloads(actions));
  }

  /** Down: for every connected receiver of a relayed packet Push is called, with bytes that decode to exactly the
    * message in it.  Push writes them when it finds its client Started (see Pump and WsLifecycle). */
  lemma LogicServerToClient(b: Registry.Books, p: RelayPacket, target: Registry.KickTarget, i: nat)
    requires p.WellFormed() && i < |p.receivers| && p.receivers[i] in b.clients
    ensures var e := Registry.Relayed(b, p, target).effects[|b.effects| + i];
            && e.Push? && e.client == b.clients[p.receivers[i]]
            && ParseMessage(e.bytes) == Parsed(Ok(p.payload), [])
            && WsClients.Decoded(e.bytes) == [p.payload]
  {
    Registry.RelayConserves(b, p, target);
    MessageRoundTrip(p.payload, []);
    assert EncodeMessage(p.payload) + [] == EncodeMessage(p.payload);
    assert WsClients.Decoded([]) == [];
  }
}

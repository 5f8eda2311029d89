/** The client registry of the gateway (gateway/wss/hub.go): the packets that its queue carries, and what handling
  * one of them does to the clients map, to clientNum and to the outside. */
module Registry {
  import opened Bytes
  import opened Streams
  import opened WireCommon
  import opened WireMessage

  /** A *peer.WsClient: objects with the same id can still be different. */
  datatype Client = Client(id: Ksuid, serial: nat)

  datatype Packet =
    | Connect(client: Client)
    | Disconnect(client: Client)
    | Relay(message: RelayPacket)
    | OtherUse
    | NilBody

  /** What a handler does to the outside: it sends an empty packet up, where it means to send a LoginReq or a
    * LogoutReq, or it calls Push or Close of a client. */
  datatype Effect =
    | SendEmpty
    | Push(client: Client, bytes: seq<byte>)
    | Close(client: Client)

  datatype Books = Books(clients: map<Ksuid, Client>, clientNum: int, effects: seq<Effect>)

  /** The id that a kick-out payload names, if it can be unmarshalled. */
  type KickTarget = seq<byte> -> Option<Ksuid>

  function Named(m: RelayPacket, target: KickTarget): Ksuid {
    match target(m.payload.payload)
    case Some(id) => id
    case None => NIL_KSUID
  }

  const EMPTY: Books := Books(map[], 0, [])

  /** atomic.AddInt32 wraps around. */
  function Wrap32(n: int): int {
    (n + 0x8000_0000) % 0x1_0000_0000 - 0x8000_0000
  }

  /** It yields the number between -2^31 and 2^31 that differs from the sum by a multiple of 2^32. */
  lemma WrapsAround(n: int)
    ensures -0x8000_0000 <= Wrap32(n) < 0x8000_0000 && (n - Wrap32(n)) % 0x1_0000_0000 == 0
  {
    var q := (n + 0x8000_0000) / 0x1_0000_0000;
    ModShift(0, -q);
  }

  // ----- one packet -----

  function Connected(b: Books, c: Client): Books {
    Books(b.clients[c.id := c], Wrap32(b.clientNum + 1), b.effects + [SendEmpty])
  }

  function Disconnected(b: Books, c: Client): Books {
    if c.id !in b.clients then b
    else Books(b.clients - {c.id}, Wrap32(b.clientNum - 1), b.effects + [SendEmpty])
  }

  /** What happens for one entry of Receivers. */
  function Delivery(clients: map<Ksuid, Client>, recv: Ksuid, bytes: seq<byte>): Effect {
    if recv in clients then Push(clients[recv], bytes) else SendEmpty
  }

  function Deliveries(clients: map<Ksuid, Client>, m: RelayPacket): (es: seq<Effect>)
    ensures |es| == |m.receivers|
  {
    seq(|m.receivers|, i requires 0 <= i < |m.receivers| =>
      Delivery(clients, m.receivers[i], EncodeMessage(m.payload)))
  }

  predicate Affects(clients: map<Ksuid, Client>, m: RelayPacket) {
    exists i :: 0 <= i < |m.receivers| && m.receivers[i] in clients
  }

  /** A relayed message removes a client: it is a kick-out, it reached somebody, and its target is connected. */
  predicate Kicks(b: Books, m: RelayPacket, target: KickTarget) {
    && Affects(b.clients, m) && m.payload.Pid() == PID_KICK_OUT
    && target(m.payload.payload).Some? && Named(m, target) in b.clients
  }

  /** The message carries the protocol id of a kick-out and names a connected receiver. */
  predicate KickOutArrives(clients: map<Ksuid, Client>, m: RelayPacket) {
    m.payload.header[0] == 3 && exists i :: 0 <= i < |m.receivers| && m.receivers[i] in clients
  }

  /** Such a kick-out names this connected client in its payload. */
  predicate Removes(clients: map<Ksuid, Client>, m: RelayPacket, target: KickTarget, id: Ksuid) {
    KickOutArrives(clients, m) && target(m.payload.payload) == Some(id) && id in clients
  }

  /** Such a kick-out cannot be unmarshalled: its handler panics. */
  predicate Poisoned(clients: map<Ksuid, Client>, m: RelayPacket, target: KickTarget) {
    KickOutArrives(clients, m) && target(m.payload.payload) == None
  }

  function Relayed(b: Books, m: RelayPacket, target: KickTarget): Books {
    var delivered := b.effects + Deliveries(b.clients, m);
    if Kicks(b, m, target) then
      var id := Named(m, target);
      Books(b.clients - {id}, b.clientNum, delivered + [Close(b.clients[id])])
    else b.(effects := delivered)
  }

  function Apply(b: Books, p: Packet, target: KickTarget): Books {
    match p
    case Connect(c) => Connected(b, c)
    case Disconnect(c) => Disconnected(b, c)
    case Relay(m) => Relayed(b, m, target)
    case OtherUse => b
    case NilBody => b
  }

  /** The one-at-a-time interpreter: the books after a list of packets. */
  function Fold(ps: seq<Packet>, target: KickTarget): Books {
    if ps == [] then EMPTY
    else Apply(Fold(ps[..|ps| - 1], target), ps[|ps| - 1], target)
  }

  // ----- accounting -----

  /** How often a packet makes the counter and the map part: a connect that overwrites, or a kick-out. */
  function Drift(b: Books, p: Packet, target: KickTarget): nat {
    match p
    case Connect(c) => if c.id in b.clients then 1 else 0
    case Relay(m) => if Kicks(b, m, target) then 1 else 0
    case _ => 0
  }

  function TotalDrift(ps: seq<Packet>, target: KickTarget): nat {
    if ps == [] then 0
    else
      var before := ps[..|ps| - 1];
      TotalDrift(before, target) + Drift(Fold(before, target), ps[|ps| - 1], target)
  }

  ghost predicate Counted(b: Books, drift: nat, packets: nat) {
    && |b.clients| + drift <= packets
    && b.clientNum == Wrap32(|b.clients| + drift)
  }

  /** clientNum counts the clients in the map, the connects that overwrote an entry, and the kick-outs; these never
    * outnumber the packets. */
  lemma {:induction false} ClientNumCounts(ps: seq<Packet>, target: KickTarget)
    ensures Counted(Fold(ps, target), TotalDrift(ps, target), |ps|)
  {
    if ps == [] {
      assert Counted(EMPTY, 0, 0);
    }
    hide Counted, Apply, Drift;
    if ps != [] {
      var before, p := ps[..|ps| - 1], ps[|ps| - 1];
      ClientNumCounts(before, target);
      PacketCounts(Fold(before, target), p, target, TotalDrift(before, target), |before|);
    }
  }

  lemma PacketCounts(b: Books, p: Packet, target: KickTarget, drift: nat, packets: nat)
    requires Counted(b, drift, packets)
    ensures Counted(Apply(b, p, target), drift + Drift(b, p, target), packets + 1)
  {
    hide Connected, Disconnected, Relayed, Kicks;
    match p {
      case Connect(c) => ConnectCounts(b, c, drift, packets);
      case Disconnect(c) => DisconnectCounts(b, c, drift, packets);
      case Relay(m) => RelayCounts(b, m, target, drift, packets);
      case _ =>
    }
  }

  lemma ConnectCounts(b: Books, c: Client, drift: nat, packets: nat)
    requires Counted(b, drift, packets)
    ensures Counted(Connected(b, c), drift + if c.id in b.clients then 1 else 0, packets + 1)
  {
    hide Wrap32;
    SizeAfterPut(b.clients, c.id, c);
    WrapAdds(|b.clients| + drift, 1);
  }

  lemma DisconnectCounts(b: Books, c: Client, drift: nat, packets: nat)
    requires Counted(b, drift, packets)
    ensures Counted(Disconnected(b, c), drift, packets + 1)
  {
    hide Wrap32;
    SizeAfterRemove(b.clients, c.id);
    WrapAdds(|b.clients| + drift, -1);
  }

  lemma RelayCounts(b: Books, m: RelayPacket, target: KickTarget, drift: nat, packets: nat)
    requires Counted(b, drift, packets)
    ensures Counted(Relayed(b, m, target), drift + if Kicks(b, m, target) then 1 else 0, packets + 1)
  {
    hide Wrap32, Deliveries;
    SizeAfterRemove(b.clients, Named(m, target));
  }

  lemma WrapAdds(n: int, d: int)
    ensures Wrap32(Wrap32(n) + d) == Wrap32(n + d)
  {
    var q := (n + 0x8000_0000) / 0x1_0000_0000;
    assert Wrap32(n) + d + 0x8000_0000 == (n + d + 0x8000_0000) - q * 0x1_0000_0000;
    ModShift(n + d + 0x8000_0000, q);
  }

  lemma ModShift(m: int, q: int)
    ensures (m - q * 0x1_0000_0000) % 0x1_0000_0000 == m % 0x1_0000_0000
  {
  }

  lemma SizeAfterPut(m: map<Ksuid, Client>, id: Ksuid, c: Client)
    ensures |m[id := c]| == if id in m then |m| else |m| + 1
  {
    assert m[id := c].Keys == m.Keys + {id};
  }

  lemma SizeAfterRemove(m: map<Ksuid, Client>, id: Ksuid)
    ensures |m - {id}| == if id in m then |m| - 1 else |m|
  {
    assert (m - {id}).Keys == m.Keys - {id};
  }

  /** Below 2^31 packets clientNum never falls short of the map, and it equals the size of the map exactly when no
    * connect overwrote an entry and nobody was kicked out. */
  lemma ClientNumCovers(ps: seq<Packet>, target: KickTarget, b: Books)
    requires |ps| < 0x8000_0000 && b == Fold(ps, target)
    ensures b.clientNum >= |b.clients|
    ensures b.clientNum == |b.clients| <==> TotalDrift(ps, target) == 0
  {
    var drift := TotalDrift(ps, target);
    ClientNumCounts(ps, target);
    NoWrap(|b.clients|, drift, b.clientNum);
  }

  lemma NoWrap(size: nat, drift: nat, num: int)
    requires size + drift < 0x8000_0000 && num == Wrap32(size + drift)
    ensures num >= size && (num == size <==> drift == 0)
  {
  }

  /** Once a client is gone it stays gone until somebody connects with its id, so the disconnect event that its reader
    * may still send, after a kick-out for instance, changes nothing and sends nothing. */
  lemma {:induction false} LateDisconnect(before: seq<Packet>, later: seq<Packet>, c: Client, target: KickTarget)
    requires c.id !in Fold(before, target).clients
    requires forall i :: 0 <= i < |later| && later[i].Connect? ==> later[i].client.id != c.id
    ensures c.id !in Fold(before + later, target).clients
    ensures Fold(before + later + [Disconnect(c)], target) == Fold(before + later, target)
  {
    hide Apply;
    var all := before + later;
    assert (all + [Disconnect(c)])[..|all|] == all;
    if later == [] {
      assert all == before;
    } else {
      var front, last := later[..|later| - 1], later[|later| - 1];
      LateDisconnect(before, front, c, target);
      assert all[..|all| - 1] == before + front;
      AbsentStaysAbsent(Fold(before + front, target), last, c, target);
    }
    DisconnectOfAbsent(Fold(all, target), c, target);
  }

  lemma AbsentStaysAbsent(b: Books, p: Packet, c: Client, target: KickTarget)
    requires c.id !in b.clients && (p.Connect? ==> p.client.id != c.id)
    ensures c.id !in Apply(b, p, target).clients
  {
    hide Deliveries;
  }

  lemma DisconnectOfAbsent(b: Books, c: Client, target: KickTarget)
    requires c.id !in b.clients
    ensures Apply(b, Disconnect(c), target) == b
  {
  }

  // ----- who is registered -----

  /** The j-th packet is a kick-out that removes id. */
  predicate KickedAt(ps: seq<Packet>, target: KickTarget, j: nat, id: Ksuid)
    requires j < |ps|
  {
    && ps[j].Relay?
    && Removes(Fold(ps[..j], target).clients, ps[j].message, target, id)
  }

  predicate ConnectsAt(ps: seq<Packet>, j: nat, id: Ksuid)
    requires j < |ps|
  {
    ps[j].Connect? && ps[j].client.id == id
  }

  predicate DisconnectsAt(ps: seq<Packet>, j: nat, id: Ksuid)
    requires j < |ps|
  {
    ps[j].Disconnect? && ps[j].client.id == id
  }

  /** The i-th packet connects id, and no later one connects or removes it. */
  ghost predicate LastWord(ps: seq<Packet>, target: KickTarget, i: nat, id: Ksuid) {
    && i < |ps| && ConnectsAt(ps, i, id)
    && forall j :: i < j < |ps| ==>
         !ConnectsAt(ps, j, id) && !DisconnectsAt(ps, j, id) && !KickedAt(ps, target, j, id)
  }

  /** An id is in the map exactly when some packet connects it and no later one connects or removes it, and then it is
    * that packet's client that is registered. */
  lemma {:induction false} RegisteredIff(ps: seq<Packet>, target: KickTarget, id: Ksuid)
    ensures id in Fold(ps, target).clients <==> exists i: nat :: LastWord(ps, target, i, id)
    ensures forall i: nat :: LastWord(ps, target, i, id) ==>
              id in Fold(ps, target).clients && Fold(ps, target).clients[id] == ps[i].client
  {
    if ps != [] {
      var n := |ps| - 1;
      var before, p := ps[..n], ps[n];
      RegisteredIff(before, target, id);
      LastPacket(Fold(before, target), p, target, id);
      hide Fold, Apply, Kicks, Removes;
      forall i: nat | i < n
        ensures LastWord(ps, target, i, id) <==>
                LastWord(before, target, i, id) &&
                !ConnectsAt(ps, n, id) && !DisconnectsAt(ps, n, id) && !KickedAt(ps, target, n, id)
      {
        LastWordOf(ps, target, i, id);
      }
      FoldLast(ps, target);
      if ConnectsAt(ps, n, id) {
        assert LastWord(ps, target, n, id);
      } else if i: nat :| LastWord(before, target, i, id) {
        assert id in Fold(ps, target).clients ==> LastWord(ps, target, i, id);
      }
    }
  }

  lemma FoldLast(ps: seq<Packet>, target: KickTarget)
    requires ps != []
    ensures Fold(ps, target) == Apply(Fold(ps[..|ps| - 1], target), ps[|ps| - 1], target)
  {
  }

  /** What one packet does to the entry of one id. */
  lemma LastPacket(b: Books, p: Packet, target: KickTarget, id: Ksuid)
    ensures var after := Apply(b, p, target).clients;
            if p.Connect? && p.client.id == id then id in after && after[id] == p.client
            else if (p.Disconnect? && p.client.id == id) || (p.Relay? && Removes(b.clients, p.message, target, id))
            then id !in after
            else (id in after <==> id in b.clients) && (id in after ==> after[id] == b.clients[id])
  {
    hide Deliveries, Wrap32;
  }

  lemma LastWordOf(ps: seq<Packet>, target: KickTarget, i: nat, id: Ksuid)
    requires i < |ps| - 1
    ensures var n := |ps| - 1;
            LastWord(ps, target, i, id) <==>
            LastWord(ps[..n], target, i, id) &&
            !ConnectsAt(ps, n, id) && !DisconnectsAt(ps, n, id) && !KickedAt(ps, target, n, id)
  {
    hide Fold, Removes;
    var n := |ps| - 1;
    var before := ps[..n];
    forall j: nat | i <= j < n
      ensures ConnectsAt(before, j, id) == ConnectsAt(ps, j, id)
      ensures DisconnectsAt(before, j, id) == DisconnectsAt(ps, j, id)
      ensures KickedAt(before, target, j, id) == KickedAt(ps, target, j, id)
    {
      assert before[..j] == ps[..j];
    }
  }

  /** registClient starts the reader before it queues the connect, so that the disconnect event can overtake it.  A
    * connect behind which no event of its id follows any more leaves a client that stays until a kick-out removes it,
    * exactly. */
  lemma OvertakenConnectStays(ps: seq<Packet>, k: nat, c: Client, target: KickTarget)
    requires k < |ps| && ps[k] == Connect(c)
    requires forall j :: k < j < |ps| ==> !ConnectsAt(ps, j, c.id) && !DisconnectsAt(ps, j, c.id)
    ensures c.id in Fold(ps, target).clients <==>
            forall j :: k < j < |ps| ==> !KickedAt(ps, target, j, c.id)
    ensures c.id in Fold(ps, target).clients ==> Fold(ps, target).clients[c.id] == c
  {
    hide Fold, Removes;
    RegisteredIff(ps, target, c.id);
    assert ConnectsAt(ps, k, c.id);
    if i: nat :| LastWord(ps, target, i, c.id) {
      assert i == k;
    } else {
      assert !LastWord(ps, target, k, c.id);
    }
  }

  /** The keys of the map are the ids of its clients. */
  lemma {:induction false} KeysAreIds(ps: seq<Packet>, target: KickTarget)
    ensures forall id :: id in Fold(ps, target).clients ==> Fold(ps, target).clients[id].id == id
  {
    if ps != [] {
      KeysAreIds(ps[..|ps| - 1], target);
    }
  }

  /** The j-th packet is a kick-out of the client c. */
  predicate ClosesAt(ps: seq<Packet>, target: KickTarget, j: nat, c: Client)
    requires j < |ps|
  {
    KickedAt(ps, target, j, c.id) && Fold(ps[..j], target).clients[c.id] == c
  }

  /** The gateway closes a client exactly when a kick-out removes it. */
  lemma {:induction false} ClosedIff(ps: seq<Packet>, target: KickTarget, c: Client)
    ensures Close(c) in Fold(ps, target).effects <==> exists j :: 0 <= j < |ps| && ClosesAt(ps, target, j, c)
  {
    if ps != [] {
      var n := |ps| - 1;
      var before, b := ps[..n], Fold(ps[..n], target);
      ClosedIff(before, target, c);
      KeysAreIds(before, target);
      FoldLast(ps, target);
      ClosesNow(b, ps[n], target, c);
      hide Fold, Apply, Kicks, Removes;
      forall j | 0 <= j < n ensures ClosesAt(ps, target, j, c) == ClosesAt(before, target, j, c) {
        assert before[..j] == ps[..j];
      }
      if j :| 0 <= j < n && ClosesAt(before, target, j, c) {
        assert ClosesAt(ps, target, j, c);
      } else if Close(c) in Fold(ps, target).effects {
        assert ClosesAt(ps, target, n, c);
      }
    }
  }

  lemma ClosesNow(b: Books, p: Packet, target: KickTarget, c: Client)
    requires forall id :: id in b.clients ==> b.clients[id].id == id
    ensures Close(c) in Apply(b, p, target).effects <==>
            || Close(c) in b.effects
            || (p.Relay? && Removes(b.clients, p.message, target, c.id) && b.clients[c.id] == c)
  {
    hide Wrap32, EncodeMessage;
    if p.Relay? {
      var ds := Deliveries(b.clients, p.message);
      assert forall i :: 0 <= i < |ds| ==> !ds[i].Close?;
      hide Deliveries;
      assert Close(c) !in ds;
    }
  }

  /** When no two connects share an id, nothing but a kick-out makes clientNum and the map part. */
  lemma {:induction false} DriftIff(ps: seq<Packet>, target: KickTarget)
    requires forall i, j :: 0 <= i < j < |ps| && ps[i].Connect? && ps[j].Connect? ==> ps[i].client.id != ps[j].client.id
    ensures TotalDrift(ps, target) == 0 <==> forall c :: Close(c) !in Fold(ps, target).effects
  {
    if ps != [] {
      var n := |ps| - 1;
      var before, p, b := ps[..n], ps[n], Fold(ps[..n], target);
      DriftIff(before, target);
      KeysAreIds(before, target);
      FoldLast(ps, target);
      forall c {
        ClosesNow(b, p, target, c);
      }
      if p.Connect? {
        FirstConnect(before, target, p.client);
      }
      hide Fold, Apply, Kicks, Removes;
      if p.Relay? && Kicks(b, p.message, target) {
        KickCloses(b, p.message, target);
      }
    }
  }

  lemma FirstConnect(ps: seq<Packet>, target: KickTarget, c: Client)
    requires forall i :: 0 <= i < |ps| && ps[i].Connect? ==> ps[i].client.id != c.id
    ensures c.id !in Fold(ps, target).clients
  {
    RegisteredIff(ps, target, c.id);
  }

  lemma KickCloses(b: Books, m: RelayPacket, target: KickTarget)
    requires Kicks(b, m, target)
    ensures Close(b.clients[Named(m, target)]) in Apply(b, Relay(m), target).effects
  {
    hide Affects, Deliveries;
  }

  // ----- what is sent up -----

  /** Handling the packet sends an empty packet up: it connects a client, disconnects a registered one, or names an
    * absent receiver. */
  predicate SendsUp(b: Books, p: Packet) {
    match p
    case Connect(_) => true
    case Disconnect(c) => c.id in b.clients
    case Relay(m) => exists i :: 0 <= i < |m.receivers| && m.receivers[i] !in b.clients
    case _ => false
  }

  lemma SendsUpNow(b: Books, p: Packet, target: KickTarget)
    ensures SendEmpty in Apply(b, p, target).effects <==> SendEmpty in b.effects || SendsUp(b, p)
  {
    hide Affects, Wrap32, EncodeMessage;
    if p.Relay? {
      var m := p.message;
      var ds := Deliveries(b.clients, m);
      assert forall i :: 0 <= i < |ds| ==> (ds[i] == SendEmpty <==> m.receivers[i] !in b.clients);
      assert SendEmpty in ds <==> SendsUp(b, p);
    }
  }

  predicate SendsAt(ps: seq<Packet>, target: KickTarget, i: nat)
    requires i < |ps|
  {
    SendsUp(Fold(ps[..i], target), ps[i])
  }

  /** Something has been sent up exactly when some packet made its handler do so. */
  lemma {:induction false} SentUpIff(ps: seq<Packet>, target: KickTarget)
    ensures SendEmpty in Fold(ps, target).effects <==> exists i :: 0 <= i < |ps| && SendsAt(ps, target, i)
  {
    if ps != [] {
      var n := |ps| - 1;
      var before := ps[..n];
      SentUpIff(before, target);
      FoldLast(ps, target);
      SendsUpNow(Fold(before, target), ps[n], target);
      forall i | 0 <= i < n ensures SendsAt(ps, target, i) == SendsAt(before, target, i) {
        assert before[..i] == ps[..i];
      }
      assert SendsAt(ps, target, n) == SendsUp(Fold(before, target), ps[n]);
      hide Fold, Apply, SendsUp, SendsAt;
    }
  }

  function Arrivals(ps: seq<Packet>): nat {
    if ps == [] then 0
    else Arrivals(ps[..|ps| - 1]) + if ps[|ps| - 1].Connect? then 1 else 0
  }

  /** Each connect that is handled sends an empty packet. */
  lemma {:induction false} ConnectsSend(ps: seq<Packet>, target: KickTarget)
    ensures Arrivals(ps) <= multiset(Fold(ps, target).effects)[SendEmpty]
  {
    if ps != [] {
      var before, p := ps[..|ps| - 1], ps[|ps| - 1];
      ConnectsSend(before, target);
      EffectsGrow(Fold(before, target), p, target);
      hide Apply;
    }
  }

  lemma EffectsGrow(b: Books, p: Packet, target: KickTarget)
    ensures multiset(Apply(b, p, target).effects)[SendEmpty] >=
            multiset(b.effects)[SendEmpty] + if p.Connect? then 1 else 0
  {
    hide Affects, Wrap32, Deliveries;
  }

  // ----- relaying -----

  /** Every entry of Receivers causes exactly one action, in order: a call of Push on the client that was connected
    * under that id when the packet was taken up, or else an empty packet that is sent up.  Then a message whose first
    * byte is 3, if somebody was reached and its payload names a connected client, closes that client and removes it;
    * nothing else changes. */
  lemma RelayConserves(b: Books, m: RelayPacket, target: KickTarget)
    ensures var b' := Apply(b, Relay(m), target);
            var n := |b.effects| + |m.receivers|;
            var reached := exists i :: 0 <= i < |m.receivers| && m.receivers[i] in b.clients;
            && |b'.effects| >= n
            && b'.effects[..|b.effects|] == b.effects
            && (forall i :: 0 <= i < |m.receivers| ==>
                  b'.effects[|b.effects| + i] ==
                    if m.receivers[i] in b.clients
                    then Push(b.clients[m.receivers[i]], EncodeMessage(m.payload))
                    else SendEmpty)
            && b'.clientNum == b.clientNum
            && match target(m.payload.payload)
               case Some(id) =>
                 if m.payload.header[0] == 3 && reached && id in b.clients
                 then b'.clients == b.clients - {id} && b'.effects[n..] == [Close(b.clients[id])]
                 else b'.clients == b.clients && |b'.effects| == n
               case None => b'.clients == b.clients && |b'.effects| == n
  {
    assert (b.effects + Deliveries(b.clients, m))[..|b.effects|] == b.effects;
  }
}

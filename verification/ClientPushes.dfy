/** What one client is sent: in every reachable state of the pump, the calls of Push for a client are those due to it
  * from the relayed messages that were handled while it was registered. */
module ClientPushes {
  import opened Bytes
  import opened WireCommon
  import opened WireMessage
  import opened Registry
  import opened Pump

  /** The arguments of the calls of Push on one client, in order. */
  function PushesTo(es: seq<Effect>, c: Client): seq<seq<byte>> {
    if es == [] then []
    else
      var e := es[|es| - 1];
      PushesTo(es[..|es| - 1], c) + if e.Push? && e.client == c then [e.bytes] else []
  }

  function Times(n: nat, bytes: seq<byte>): seq<seq<byte>> {
    seq(n, i requires 0 <= i < n => bytes)
  }

  predicate IsRegistered(clients: map<Ksuid, Client>, c: Client) {
    c.id in clients && clients[c.id] == c
  }

  /** What the first k receivers of a message make due to a client: its bytes, once for each time that a registered
    * client is named. */
  function Due(clients: map<Ksuid, Client>, m: RelayPacket, k: nat, c: Client): seq<seq<byte>>
    requires k <= |m.receivers|
  {
    if IsRegistered(clients, c) then Times(multiset(m.receivers[..k])[c.id], EncodeMessage(m.payload)) else []
  }

  /** What a list of packets makes due to a client, in order. */
  function AllDue(ps: seq<Packet>, target: KickTarget, c: Client): seq<seq<byte>> {
    if ps == [] then []
    else
      var before, p := ps[..|ps| - 1], ps[|ps| - 1];
      AllDue(before, target, c) +
      if p.Relay? then Due(Fold(before, target).clients, p.message, |p.message.receivers|, c) else []
  }

  lemma {:induction false} PushesAppend(a: seq<Effect>, b: seq<Effect>, c: Client)
    ensures PushesTo(a + b, c) == PushesTo(a, c) + PushesTo(b, c)
  {
    if b == [] {
      assert a + b == a;
    } else {
      PushesAppend(a, b[..|b| - 1], c);
      assert (a + b)[..|a| + |b| - 1] == a + b[..|b| - 1];
    }
  }

  lemma NoPush(e: Effect, c: Client)
    requires !e.Push?
    ensures PushesTo([e], c) == []
  {
  }

  ghost predicate Keyed(clients: map<Ksuid, Client>) {
    forall id :: id in clients ==> clients[id].id == id
  }

  /** One more receiver adds its bytes once when it names the client. */
  lemma OneMoreDue(clients: map<Ksuid, Client>, m: RelayPacket, k: nat, c: Client)
    requires k < |m.receivers|
    ensures Due(clients, m, k + 1, c) ==
            Due(clients, m, k, c) +
            if IsRegistered(clients, c) && m.receivers[k] == c.id then [EncodeMessage(m.payload)] else []
  {
    hide EncodeMessage;
    assert m.receivers[..k + 1] == m.receivers[..k] + [m.receivers[k]];
  }

  lemma {:induction false} DeliveriesAreDue(clients: map<Ksuid, Client>, m: RelayPacket, k: nat, c: Client)
    requires Keyed(clients) && k <= |m.receivers|
    ensures PushesTo(Deliveries(clients, m)[..k], c) == Due(clients, m, k, c)
  {
    hide EncodeMessage, Due, PushesTo, Deliveries, Keyed, IsRegistered;
    if k == 0 {
      NothingDue(clients, m, c);
    } else {
      var front, e := Deliveries(clients, m)[..k - 1], Deliveries(clients, m)[k - 1];
      DeliveriesAreDue(clients, m, k - 1, c);
      OneMoreDue(clients, m, k - 1, c);
      DeliveryIsDue(clients, m, k - 1, c);
      PushesAppend(front, [e], c);
      assert Deliveries(clients, m)[..k] == front + [e];
    }
  }

  lemma NothingDue(clients: map<Ksuid, Client>, m: RelayPacket, c: Client)
    ensures PushesTo(Deliveries(clients, m)[..0], c) == Due(clients, m, 0, c) == []
  {
  }

  lemma DeliveryIsDue(clients: map<Ksuid, Client>, m: RelayPacket, k: nat, c: Client)
    requires Keyed(clients) && k < |m.receivers|
    ensures PushesTo([Deliveries(clients, m)[k]], c) ==
            if IsRegistered(clients, c) && m.receivers[k] == c.id then [EncodeMessage(m.payload)] else []
  {
    hide EncodeMessage;
    var e := Deliveries(clients, m)[k];
    assert [e][..0] == [];
  }

  lemma PacketPushes(b: Books, p: Packet, target: KickTarget, c: Client)
    requires Keyed(b.clients)
    ensures PushesTo(Apply(b, p, target).effects, c) ==
            PushesTo(b.effects, c) + if p.Relay? then Due(b.clients, p.message, |p.message.receivers|, c) else []
  {
    hide Deliveries, Affects, Wrap32, PushesTo, Due, Keyed;
    PushesAppend(b.effects, [SendEmpty], c);
    NoPush(SendEmpty, c);
    if p.Relay? {
      var m := p.message;
      var ds := Deliveries(b.clients, m);
      DeliveriesAreDue(b.clients, m, |m.receivers|, c);
      assert ds[..|m.receivers|] == ds;
      PushesAppend(b.effects, ds, c);
      if Kicks(b, m, target) {
        var close := Close(b.clients[Named(m, target)]);
        PushesAppend(b.effects + ds, [close], c);
        NoPush(close, c);
      }
    }
  }

  /** Over any packets, the calls of Push on a client are those due to it. */
  lemma {:induction false} PushesAreDue(ps: seq<Packet>, target: KickTarget, c: Client)
    ensures PushesTo(Fold(ps, target).effects, c) == AllDue(ps, target, c)
  {
    if ps != [] {
      hide Apply, PushesTo, Due;
      var before := ps[..|ps| - 1];
      PushesAreDue(before, target, c);
      KeysAreIds(before, target);
      PacketPushes(Fold(before, target), ps[|ps| - 1], target, c);
    }
  }

  /** What the packet in hand has made due so far. */
  function DueSoFar(clients: map<Ksuid, Client>, handler: HandlerPc, c: Client): seq<seq<byte>> {
    match handler
    case Delivering(m, i, _) => if i <= |m.receivers| then Due(clients, m, i, c) else []
    case Writing(m, i, _, _) => if i < |m.receivers| then Due(clients, m, i + 1, c) else []
    case ClosingClient(m, _) => Due(clients, m, |m.receivers|, c)
    case _ => []
  }

  /** In every reachable state of the pump, a client has been pushed exactly what was due to it, in order and with
    * multiplicity: the encoded payloads of the relayed messages that named its id while it was registered. */
  lemma PushedExactly(s: System, target: KickTarget, c: Client)
    requires Reachable(s, target)
    ensures PushesTo(s.books.effects, c) ==
            AllDue(s.handled, target, c) + DueSoFar(Fold(s.handled, target).clients, s.handler, c)
  {
    ReachableInv(s, target);
    PushesAreDue(s.handled, target, c);
    KeysAreIds(s.handled, target);
    PartialPushes(Fold(s.handled, target), s.handler, target, c);
    hide Fold, AllDue, PushesTo, DueSoFar, TokenInv, InOrder, UpInv, Partial, HandlerInv;
  }

  lemma PartialPushes(b: Books, handler: HandlerPc, target: KickTarget, c: Client)
    requires HandlerInv(b, handler, target) && Keyed(b.clients)
    ensures PushesTo(Partial(b, handler, target).effects, c) ==
            PushesTo(b.effects, c) + DueSoFar(b.clients, handler, c)
  {
    hide Deliveries, Affects, PushesTo, Due, Keyed, Relayed, AffectsBefore;
    match handler {
      case Counting(_, _) =>
        PushesAppend(b.effects, [SendEmpty], c);
        NoPush(SendEmpty, c);
      case Delivering(m, i, _) =>
        PushesAppend(b.effects, Deliveries(b.clients, m)[..i], c);
        DeliveriesAreDue(b.clients, m, i, c);
      case Writing(m, i, _, _) =>
        PushesAppend(b.effects, Deliveries(b.clients, m)[..i + 1], c);
        DeliveriesAreDue(b.clients, m, i + 1, c);
      case ClosingClient(m, _) =>
        PacketPushes(b, Relay(m), target, c);
      case _ =>
    }
  }
}

/** The notices to the login service (gateway/wss/hub.go), as the calls that mean to send them, balanced for each client
  * id; and what of them leaves the gateway. */
module Sessions {
  import opened WireCommon
  import opened WireMessage
  import opened Registry

  /** The handlers build a LoginReq or a LogoutReq for an id, and then send an empty packet to which it was never
    * attached. */
  datatype Call = Login(id: Ksuid) | Logout(id: Ksuid)

  /** The calls for the receivers that are absent. */
  function MissCalls(clients: map<Ksuid, Client>, receivers: seq<Ksuid>): seq<Call> {
    if receivers == [] then []
    else
      var last := receivers[|receivers| - 1];
      MissCalls(clients, receivers[..|receivers| - 1]) + if last in clients then [] else [Logout(last)]
  }

  function CallsFor(b: Books, p: Packet): seq<Call> {
    match p
    case Connect(c) => [Login(c.id)]
    case Disconnect(c) => if c.id in b.clients then [Logout(c.id)] else []
    case Relay(m) => MissCalls(b.clients, m.receivers)
    case _ => []
  }

  /** All calls that the handling of these packets makes, in order. */
  function Calls(ps: seq<Packet>, target: KickTarget): seq<Call> {
    if ps == [] then []
    else
      var before := ps[..|ps| - 1];
      Calls(before, target) + CallsFor(Fold(before, target), ps[|ps| - 1])
  }

  // ----- the account of one id -----

  /** What can part logins from logouts for one id: messages addressed to it while it was absent, connects that replaced
    * a connected client, and kick-outs. */
  datatype Ledger = Ledger(misses: nat, replaced: nat, kicked: nat)

  function Entry(b: Books, p: Packet, target: KickTarget, id: Ksuid): Ledger {
    match p
    case Connect(c) => Ledger(0, if c.id == id && id in b.clients then 1 else 0, 0)
    case Relay(m) =>
      Ledger(if id in b.clients then 0 else multiset(m.receivers)[id],
             0,
             if Removes(b.clients, m, target, id) then 1 else 0)
    case _ => Ledger(0, 0, 0)
  }

  function LedgerOf(ps: seq<Packet>, target: KickTarget, id: Ksuid): Ledger {
    if ps == [] then Ledger(0, 0, 0)
    else
      var before := ps[..|ps| - 1];
      var l, e := LedgerOf(before, target, id), Entry(Fold(before, target), ps[|ps| - 1], target, id);
      Ledger(l.misses + e.misses, l.replaced + e.replaced, l.kicked + e.kicked)
  }

  predicate Balanced(b: Books, calls: seq<Call>, l: Ledger, id: Ksuid) {
    multiset(calls)[Login(id)] + l.misses ==
    multiset(calls)[Logout(id)] + l.replaced + l.kicked + if id in b.clients then 1 else 0
  }

  /** A relayed message costs an absent receiver one call for each time that it is named, and a connected one none. */
  lemma {:induction false} CountMisses(clients: map<Ksuid, Client>, receivers: seq<Ksuid>, id: Ksuid)
    ensures multiset(MissCalls(clients, receivers))[Login(id)] == 0
    ensures multiset(MissCalls(clients, receivers))[Logout(id)] == if id in clients then 0 else multiset(receivers)[id]
  {
    hide MissCalls;
    MissCallsOf(clients, receivers);
    if receivers != [] {
      var front, last := receivers[..|receivers| - 1], receivers[|receivers| - 1];
      var calls := MissCalls(clients, front);
      CountMisses(clients, front, id);
      OneMore(front, last, id);
      OneMore(calls, Logout(last), Login(id));
      OneMore(calls, Logout(last), Logout(id));
    }
  }

  lemma MissCallsOf(clients: map<Ksuid, Client>, receivers: seq<Ksuid>)
    ensures if receivers == [] then MissCalls(clients, receivers) == []
            else
              var front, last := receivers[..|receivers| - 1], receivers[|receivers| - 1];
              var calls := MissCalls(clients, front);
              && receivers == front + [last]
              && MissCalls(clients, receivers) == if last in clients then calls else calls + [Logout(last)]
  {
  }

  lemma OneMore<T>(s: seq<T>, last: T, x: T)
    ensures multiset(s + [last])[x] == multiset(s)[x] + if x == last then 1 else 0
  {
  }

  lemma PacketBalances(b: Books, calls: seq<Call>, l: Ledger, p: Packet, target: KickTarget, id: Ksuid)
    requires Balanced(b, calls, l, id)
    ensures var e := Entry(b, p, target, id);
            Balanced(Apply(b, p, target), calls + CallsFor(b, p),
                     Ledger(l.misses + e.misses, l.replaced + e.replaced, l.kicked + e.kicked), id)
  {
    hide Deliveries, Wrap32, MissCalls;
    if p.Relay? {
      CountMisses(b.clients, p.message.receivers, id);
    }
  }

  /** For every id the calls for a login are matched by those for a logout and by its being connected, but for the
    * misses, replacements and kick-outs in the ledger. */
  lemma {:induction false} NoticesBalance(ps: seq<Packet>, target: KickTarget, id: Ksuid)
    ensures Balanced(Fold(ps, target), Calls(ps, target), LedgerOf(ps, target, id), id)
  {
    if ps == [] {
      assert Balanced(EMPTY, [], Ledger(0, 0, 0), id);
    }
    hide Balanced, Apply, CallsFor, Entry;
    if ps != [] {
      var before := ps[..|ps| - 1];
      NoticesBalance(before, target, id);
      PacketBalances(Fold(before, target), Calls(before, target), LedgerOf(before, target, id), ps[|ps| - 1], target,
                     id);
    }
  }

  function Connects(ps: seq<Packet>, id: Ksuid): nat {
    if ps == [] then 0
    else
      var p := ps[|ps| - 1];
      Connects(ps[..|ps| - 1], id) + if p.Connect? && p.client.id == id then 1 else 0
  }

  /** A login is called for exactly once for each connect. */
  lemma {:induction false} OneLoginPerConnect(ps: seq<Packet>, target: KickTarget, id: Ksuid)
    ensures multiset(Calls(ps, target))[Login(id)] == Connects(ps, id)
  {
    if ps != [] {
      var before, p := ps[..|ps| - 1], ps[|ps| - 1];
      OneLoginPerConnect(before, target, id);
      if p.Relay? {
        CountMisses(Fold(before, target).clients, p.message.receivers, id);
      }
      hide MissCalls, Fold;
    }
  }

  // ----- what leaves the gateway -----

  /** The packets that the effects send up. */
  function Ups(es: seq<Effect>): seq<Upward> {
    if es == [] then []
    else Ups(es[..|es| - 1]) + if es[|es| - 1].SendEmpty? then [Empty] else []
  }

  function Empties(n: nat): seq<Upward> {
    seq(n, i requires 0 <= i < n => Empty)
  }

  lemma {:induction false} UpsAppend(a: seq<Effect>, b: seq<Effect>)
    ensures Ups(a + b) == Ups(a) + Ups(b)
  {
    if b == [] {
      assert a + b == a;
    } else {
      UpsAppend(a, b[..|b| - 1]);
      assert (a + b)[..|a| + |b| - 1] == a + b[..|b| - 1];
    }
  }

  lemma UpsOne(e: Effect)
    ensures Ups([e]) == if e.SendEmpty? then [Empty] else []
  {
    assert [e][..0] == [];
  }

  lemma {:induction false} DeliveriesSend(clients: map<Ksuid, Client>, m: RelayPacket)
    ensures Ups(Deliveries(clients, m)) == Empties(|MissCalls(clients, m.receivers)|)
    decreases |m.receivers|
  {
    var n := |m.receivers|;
    if n > 0 {
      var front := m.(receivers := m.receivers[..n - 1]);
      DeliveriesSend(clients, front);
      assert Deliveries(clients, m)[..n - 1] == Deliveries(clients, front);
    }
  }

  lemma PacketSends(b: Books, p: Packet, target: KickTarget)
    ensures Ups(Apply(b, p, target).effects) == Ups(b.effects) + Empties(|CallsFor(b, p)|)
  {
    hide Deliveries, Affects, Wrap32, Ups;
    UpsAppend(b.effects, [SendEmpty]);
    UpsOne(SendEmpty);
    if p.Relay? {
      var m := p.message;
      var ds := Deliveries(b.clients, m);
      UpsAppend(b.effects, ds);
      DeliveriesSend(b.clients, m);
      if Kicks(b, m, target) {
        var close := Close(b.clients[Named(m, target)]);
        UpsAppend(b.effects + ds, [close]);
        UpsOne(close);
      }
    }
  }

  /** Each call sends one packet up, an empty one, and nothing else is sent up by the handlers. */
  lemma {:induction false} SendsAreCalls(ps: seq<Packet>, target: KickTarget)
    ensures Ups(Fold(ps, target).effects) == Empties(|Calls(ps, target)|)
  {
    if ps != [] {
      var before := ps[..|ps| - 1];
      SendsAreCalls(before, target);
      PacketSends(Fold(before, target), ps[|ps| - 1], target);
      hide Apply, CallsFor, Ups;
    }
  }

  /** What the calls are for cannot be seen outside: two histories look the same there exactly when they have made
    * equally many calls. */
  lemma OnlyTheNumberShows(ps: seq<Packet>, qs: seq<Packet>, target: KickTarget)
    ensures Ups(Fold(ps, target).effects) == Ups(Fold(qs, target).effects) <==>
            |Calls(ps, target)| == |Calls(qs, target)|
  {
    SendsAreCalls(ps, target);
    SendsAreCalls(qs, target);
    assert |Empties(|Calls(ps, target)|)| == |Calls(ps, target)|;
    assert |Empties(|Calls(qs, target)|)| == |Calls(qs, target)|;
    hide Calls, Fold, Ups, Empties;
  }

  /** A client's login looks like the logout of anybody, itself included. */
  lemma LoginLooksLikeLogout(c: Client, m: RelayPacket, target: KickTarget)
    requires |m.receivers| == 1
    ensures Calls([Connect(c)], target) == [Login(c.id)]
    ensures Calls([Relay(m)], target) == [Logout(m.receivers[0])]
    ensures Ups(Fold([Connect(c)], target).effects) == Ups(Fold([Relay(m)], target).effects)
  {
    assert [Connect(c)][..0] == [] && [Relay(m)][..0] == [] && m.receivers[..0] == [];
    assert Calls([Connect(c)], target) == [] + [Login(c.id)];
    assert MissCalls(map[], m.receivers) == MissCalls(map[], []) + [Logout(m.receivers[0])];
    assert Calls([Relay(m)], target) == [] + MissCalls(map[], m.receivers);
    OnlyTheNumberShows([Connect(c)], [Relay(m)], target);
  }
}

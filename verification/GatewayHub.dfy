/** The Gateway of gateway/wss/hub.go as the object that it is: one method for each atomic step of its goroutines,
  * proved against the step system of Pump, and the handlers, proved against Registry. */
module GatewayHub {
  import opened Streams
  import opened WireCommon
  import opened WireMessage
  import opened Registry
  import opened Pump

  class Gateway {
    const kickTarget: KickTarget

    var clients: map<Ksuid, Client>
    var clientNum: int
    var effects: seq<Effect>

    var enqueue: Option<Packet>
    var dequeue: Option<Packet>
    var next: bool

    // the locals and program counters of the two goroutines, and the goroutines that block on enqueue
    var pump: PumpPc
    var waiting: bool
    var pending: seq<Packet>
    var handler: HandlerPc
    var pushers: map<Pusher, Packet>
    var crashed: bool

    // the channel of lgProxy, and what the loop of the proxy has taken from it
    var up: seq<Upward>
    var proxy: Option<Upward>

    ghost var accepted: seq<Packet>
    ghost var handled: seq<Packet>

    ghost function BooksNow(): Books
      reads this
    {
      Books(clients, clientNum, effects)
    }

    ghost function State(): System
      reads this
    {
      System(pushers, enqueue, pump, waiting, pending, dequeue, handler, next, BooksNow(), up, proxy, crashed, accepted,
             handled)
    }

    constructor NewGateway(kickTarget: KickTarget)
      ensures this.kickTarget == kickTarget && State() == INIT
    {
      this.kickTarget := kickTarget;
      clients, clientNum, effects := map[], 0, [];
      enqueue, dequeue, next := None, None, false;
      pump, waiting, pending, handler, pushers, crashed := Selecting, false, [], Receiving, map[], false;
      up, proxy, accepted, handled := [], None, [], [];
    }

    // ----- Push and packetPushEnqueueHandler -----

    /** Some goroutine calls Push and arrives at the send on enqueue. */
    method Offer(pusher: Pusher, packet: Packet)
      requires !crashed && pusher !in pushers
      modifies this`pushers
      ensures State() == Next(old(State()), Step.Offer(pusher, packet), kickTarget)
    {
      pushers := pushers[pusher := packet];
    }

    method Accept(pusher: Pusher)
      requires !crashed && pusher in pushers && enqueue == None
      modifies this`pushers, this`enqueue, this`accepted
      ensures State() == Next(old(State()), Step.Accept(pusher), kickTarget)
    {
      enqueue := Some(pushers[pusher]);
      accepted := accepted + [pushers[pusher]];
      pushers := pushers - {pusher};
    }

    /** The select takes a packet from enqueue. */
    method TakeEnqueue()
      requires !crashed && pump.Selecting? && enqueue.Some?
      modifies this`enqueue, this`pump, this`pending
      ensures State() == Next(old(State()), Step.TakeEnqueue, kickTarget)
    {
      var packet := enqueue.value;
      enqueue := None;
      if !waiting {
        pump := Sending(packet);
      } else {
        pending := pending + [packet];
      }
    }

    /** The select takes an acknowledgement from next. */
    method TakeNext()
      requires !crashed && pump.Selecting? && next
      modifies this`next, this`pump, this`waiting, this`pending
      ensures State() == Next(old(State()), Step.TakeNext, kickTarget)
    {
      next := false;
      if pending == [] {
        waiting := false;
        return;
      }
      pump, pending := Sending(pending[0]), pending[1..];
    }

    method SendDequeue()
      requires !crashed && pump.Sending? && dequeue == None
      modifies this`dequeue, this`pump, this`waiting
      ensures State() == Next(old(State()), Step.SendDequeue, kickTarget)
    {
      dequeue := Some(pump.packet);
      waiting := true;
      pump := Selecting;
    }

    // ----- packetPushDequeueHandler -----

    method TakeDequeue()
      requires !crashed && handler.Receiving? && dequeue.Some?
      modifies this`dequeue, this`handler
      ensures State() == Next(old(State()), Step.TakeDequeue, kickTarget)
    {
      handler := Handling(dequeue.value);
      dequeue := None;
    }

    /** The range statement hands over a packet: it is skipped, or its handler makes its first step. */
    method Begin()
      requires !crashed && handler.Handling?
      modifies this`clients, this`handler, this`handled
      ensures State() == Next(old(State()), Step.Begin, kickTarget)
    {
      var packet := handler.packet;
      match packet {
        case NilBody =>
          handled, handler := handled + [packet], Receiving;
        case Connect(c) =>
          clients, handler := clients[c.id := c], Announcing(c, ATTRS_READ);
        case Disconnect(c) =>
          if c.id !in clients {
            Return(packet);
            return;
          }
          clients, handler := clients - {c.id}, Notifying(false, c);
        case Relay(m) =>
          handler := Delivering(m, 0, 0);
        case OtherUse =>
          Return(packet);
      }
    }

    /** The handler of a packet is through. */
    method Return(packet: Packet)
      requires !packet.NilBody?
      modifies this`handler, this`handled
      ensures State() == Done(old(State()), packet)
    {
      handled, handler := handled + [packet], Acking;
    }

    // ----- handleClientConnect and handleClientDisconnect -----

    /** One of the fields of client.Attrs is read. */
    method ReadAttrs(found: bool)
      requires !crashed && handler.Announcing?
      modifies this`handler, this`crashed
      ensures State() == Next(old(State()), Step.ReadAttrs(found), kickTarget)
    {
      if !found {
        crashed := true;
      } else if handler.unread > 1 {
        handler := Announcing(handler.client, handler.unread - 1);
      } else {
        handler := Notifying(true, handler.client);
      }
    }

    /** lgProxy.Send of an empty packet, for which there must be room. */
    method Notify()
      requires !crashed && handler.Notifying? && |up| < UP_CAPACITY
      modifies this`effects, this`up, this`handler
      ensures State() == Next(old(State()), Step.Notify, kickTarget)
    {
      SendEmptyPacket();
      handler := Counting(handler.connect, handler.client);
    }

    method Count()
      requires !crashed && handler.Counting?
      modifies this`clientNum, this`handler, this`handled
      ensures State() == Next(old(State()), Step.Count, kickTarget)
    {
      if handler.connect {
        clientNum := Wrap32(clientNum + 1);
        Return(Connect(handler.client));
      } else {
        clientNum := Wrap32(clientNum - 1);
        Return(Disconnect(handler.client));
      }
    }

    /** The LoginReq or LogoutReq is built, and what is sent is a new relay packet without it. */
    method SendEmptyPacket()
      requires |up| < UP_CAPACITY
      modifies this`effects, this`up
      ensures effects == old(effects) + [SendEmpty] && up == old(up) + [Empty]
    {
      effects := effects + [SendEmpty];
      up := up + [Empty];
    }

    // ----- handleMsgRelay -----

    /** The next receiver is looked up, and its client's Push loads the state, or an empty packet is sent. */
    method Deliver(started: bool)
      requires !crashed && handler.Delivering? && handler.i < |handler.message.receivers|
      requires handler.message.receivers[handler.i] in clients || |up| < UP_CAPACITY
      modifies this`effects, this`up, this`handler
      ensures State() == Next(old(State()), Step.Deliver(started), kickTarget)
    {
      var message, i, aff := handler.message, handler.i, handler.aff;
      var recv := message.receivers[i];
      if recv in clients {
        effects := effects + [Push(clients[recv], EncodeMessage(message.payload))];
        handler := if started then Writing(message, i, aff, false) else Delivering(message, i + 1, aff + 1);
      } else {
        SendEmptyPacket();
        handler := Delivering(message, i + 1, aff);
      }
    }

    /** In Push, conn is used to set the deadline or to write. */
    method UseConn(found: bool, ok: bool)
      requires !crashed && handler.Writing?
      modifies this`handler, this`crashed
      ensures State() == Next(old(State()), Step.UseConn(found, ok), kickTarget)
    {
      if !found {
        crashed := true;
      } else if ok && !handler.deadline {
        handler := Writing(handler.message, handler.i, handler.aff, true);
      } else {
        handler := Delivering(handler.message, handler.i + 1, handler.aff + 1);
      }
    }

    /** After the last receiver: a message of protocol id 3 that reached somebody takes the client that its payload
      * names out of the map, if there is one, and goes on to close just this client. */
    method Finish()
      requires !crashed && handler.Delivering? && handler.i >= |handler.message.receivers|
      modifies this`clients, this`effects, this`handler, this`handled, this`crashed
      ensures State() == Next(old(State()), Step.Finish, kickTarget)
      ensures var m, kickOut := old(handler.message), old(handler.aff > 0 && handler.message.payload.header[0] == 3);
              match kickTarget(m.payload.payload)
              case Some(id) =>
                && !crashed
                && (if kickOut && id in old(clients) then
                      var client := old(clients)[id];
                      && clients == old(clients) - {id} && effects == old(effects) + [Close(client)]
                      && handler == ClosingClient(m, client)
                    else clients == old(clients) && effects == old(effects) && handler == Acking)
              case None => clients == old(clients) && effects == old(effects) && (crashed <==> kickOut)
    {
      hide Next;
      FinishIsFinished();
      var message := handler.message;
      if handler.aff == 0 {
        Return(Relay(message));
        return;
      }
      if message.payload.Pid() == PID_KICK_OUT {
        var kickOut := kickTarget(message.payload.payload);
        if kickOut == None {
          crashed := true;
          return;
        }
        var pid := kickOut.value;
        if pid in clients {
          var client := clients[pid];
          clients := clients - {pid};
          effects := effects + [Close(client)];
          handler := ClosingClient(message, client);
          return;
        }
      }
      Return(Relay(message));
    }

    lemma FinishIsFinished()
      requires !crashed && handler.Delivering? && handler.i >= |handler.message.receivers|
      ensures Next(State(), Step.Finish, kickTarget) == Finished(State(), handler.message, handler.aff, kickTarget)
    {
    }

    method CloseReturns()
      requires !crashed && handler.ClosingClient?
      modifies this`handler, this`handled
      ensures State() == Next(old(State()), Step.CloseReturns, kickTarget)
    {
      Return(Relay(handler.message));
    }

    method Acknowledge()
      requires !crashed && handler.Acking? && !next
      modifies this`next, this`handler
      ensures State() == Next(old(State()), Step.Acknowledge, kickTarget)
    {
      next := true;
      handler := Receiving;
    }

    // ----- the way up -----

    /** handleClientEvents sends a message up. */
    method SendUp(message: RelayPacket)
      requires !crashed && |up| < UP_CAPACITY
      modifies this`up
      ensures State() == Next(old(State()), Step.SendUp(message), kickTarget)
    {
      up := up + [Full(message)];
    }

    /** The loop handleClientMessage of the proxy takes a packet. */
    method ProxyTakes()
      requires !crashed && proxy == None && up != []
      modifies this`up, this`proxy
      ensures State() == Next(old(State()), Step.ProxyTakes, kickTarget)
    {
      proxy, up := Some(up[0]), up[1..];
    }

    /** It reads the header of the packet's message, and pushes the packet to a server. */
    method ProxyHandles()
      requires !crashed && proxy.Some?
      modifies this`proxy, this`crashed
      ensures State() == Next(old(State()), Step.ProxyHandles, kickTarget)
    {
      if proxy.value.Empty? {
        crashed := true;
      } else {
        proxy := None;
      }
    }

    /** The handler stands at a send for which there is no room. */
    predicate HandlerBlocked()
      reads this
      ensures HandlerBlocked() <==> Blocked(State())
    {
      |up| >= UP_CAPACITY &&
      (handler.Notifying? ||
       (handler.Delivering? && handler.i < |handler.message.receivers| &&
        handler.message.receivers[handler.i] !in clients))
    }

    // ----- the handlers as a whole, whatever their clients are doing -----

    /** The handler has the packet in hand, after the packets handled before it. */
    ghost predicate AtWork(packet: Packet, before: seq<Packet>)
      reads this
    {
      Inv(State(), kickTarget) && InHand(handler) == [packet] && handled == before
    }

    /** It is through, and its packet was handled as the interpreter handles it. */
    ghost predicate Through(packet: Packet, before: seq<Packet>, books: Books)
      reads this
    {
      && Inv(State(), kickTarget) && handler.Acking? && handled == before + [packet]
      && BooksNow() == Apply(books, packet, kickTarget)
    }

    lemma WorkBegins()
      requires Inv(State(), kickTarget) && handler.Handling?
      ensures BooksNow() == Fold(handled, kickTarget)
    {
    }

    lemma RelayIsApplied(message: RelayPacket)
      ensures Apply(BooksNow(), Relay(message), kickTarget) == Relayed(BooksNow(), message, kickTarget)
    {
    }

    lemma WorkSoFar(message: RelayPacket, before: seq<Packet>)
      requires AtWork(Relay(message), before) && (handler.Writing? || handler.Delivering?)
      ensures handler.message == message
      ensures var b, done := Fold(before, kickTarget), if handler.Writing? then handler.i + 1 else handler.i;
              && done <= |message.receivers|
              && clients == b.clients && effects == b.effects + Deliveries(b.clients, message)[..done]
    {
      hide Fold, TokenInv, InOrder, UpInv;
    }

    lemma WorkDone(packet: Packet, before: seq<Packet>, books: Books)
      requires Inv(State(), kickTarget) && handler.Acking? && handled == before + [packet]
      requires books == Fold(before, kickTarget)
      ensures Through(packet, before, books) && BooksNow() == Apply(books, packet, kickTarget) && !HandlerBlocked()
    {
      FoldOne(before, packet, kickTarget);
    }

    /** The handler finds one of the Attrs nil; or it blocks in lgProxy.Send; or the client is in the map, a packet
      * was sent, and the client is counted. */
    method HandleClientConnect(client: Client)
      requires !crashed && handler == Handling(Connect(client)) && Inv(State(), kickTarget)
      modifies this`clients, this`clientNum, this`effects, this`up, this`handler, this`handled, this`crashed
      ensures if crashed then AtWork(Connect(client), old(handled)) && handler.Announcing?
              else if HandlerBlocked() then AtWork(Connect(client), old(handled)) && handler == Notifying(true, client)
              else
                && Through(Connect(client), old(handled), old(BooksNow()))
                && BooksNow() == Connected(old(BooksNow()), client)
      ensures HandlerBlocked() ==> up == old(up)
    {
      WorkBegins();
      hide Fold, Inv, Apply, Connected;
      StepKeepsInv(State(), Step.Begin, kickTarget);
      Begin();
      ReadAllAttrs(client);
      if crashed || HandlerBlocked() {
        return;
      }
      NotifyAndCount(Connect(client));
      WorkDone(Connect(client), old(handled), old(BooksNow()));
    }

    method ReadAllAttrs(client: Client)
      requires !crashed && handler.Announcing? && handler.client == client
      requires AtWork(Connect(client), handled)
      modifies this`handler, this`crashed
      ensures AtWork(Connect(client), handled)
      ensures crashed ==> handler.Announcing?
      ensures !crashed ==> handler == Notifying(true, client)
    {
      hide Inv;
      while !crashed && handler.Announcing?
        invariant AtWork(Connect(client), handled)
        invariant handler.Announcing? || handler == Notifying(true, client)
        invariant crashed ==> handler.Announcing?
        decreases !crashed, Left(handler)
      {
        var found: bool := *;
        StepKeepsInv(State(), Step.ReadAttrs(found), kickTarget);
        ReadAttrs(found);
      }
    }

    /** The client's id is out of the map, or was not in it; or it is, and the handler blocks in lgProxy.Send. */
    method HandleClientDisconnect(client: Client)
      requires !crashed && handler == Handling(Disconnect(client)) && Inv(State(), kickTarget)
      modifies this`clients, this`clientNum, this`effects, this`up, this`handler, this`handled
      ensures if HandlerBlocked() then AtWork(Disconnect(client), old(handled)) && handler == Notifying(false, client)
              else
                && Through(Disconnect(client), old(handled), old(BooksNow()))
                && BooksNow() == Disconnected(old(BooksNow()), client)
      ensures HandlerBlocked() ==> client.id in old(clients) && up == old(up)
    {
      WorkBegins();
      assert Apply(BooksNow(), Disconnect(client), kickTarget) == Disconnected(BooksNow(), client);
      hide Fold, Inv, Apply, Disconnected;
      StepKeepsInv(State(), Step.Begin, kickTarget);
      Begin();
      if HandlerBlocked() {
        return;
      }
      if handler.Notifying? {
        NotifyAndCount(Disconnect(client));
      }
      WorkDone(Disconnect(client), old(handled), old(BooksNow()));
    }

    method NotifyAndCount(packet: Packet)
      requires !crashed && handler.Notifying? && packet == Subject(handler.connect, handler.client)
      requires Inv(State(), kickTarget) && |up| < UP_CAPACITY
      modifies this`clientNum, this`effects, this`up, this`handler, this`handled
      ensures Inv(State(), kickTarget) && handler.Acking? && handled == old(handled) + [packet]
    {
      hide Inv;
      StepKeepsInv(State(), Step.Notify, kickTarget);
      Notify();
      StepKeepsInv(State(), Step.Count, kickTarget);
      Count();
    }

    /** Each receiver is dealt with once, in order, and then the client that a kick-out names is removed and closed, if
      * somebody was reached; all others stay.  When a client's conn is nil, or the handler blocks in lgProxy.Send for
      * an absent receiver, it has dealt with the receivers in front of that one; when it cannot unmarshal a kick-out,
      * with all. */
    method HandleMsgRelay(message: RelayPacket)
      requires !crashed && handler == Handling(Relay(message)) && Inv(State(), kickTarget)
      modifies this`clients, this`effects, this`up, this`handler, this`handled, this`crashed
      ensures !crashed && !HandlerBlocked() ==>
                && Through(Relay(message), old(handled), old(BooksNow()))
                && BooksNow() == Relayed(old(BooksNow()), message, kickTarget)
                && OnlyKickedOut(old(BooksNow()), message)
      ensures crashed || HandlerBlocked() ==> StoppedAt(message, old(handled), old(BooksNow()))
    {
      hide Fold, Apply, Relayed, Deliveries, Inv, InHand, StoppedAt, Through, Blocked, HandlerBlocked;
      WorkBegins();
      RelayIsApplied(message);
      TakeUp(message);
      DeliverToAll(message);
      if crashed || HandlerBlocked() {
        WorkStopped(message, old(handled), old(BooksNow()));
      } else {
        FinishRelay(message);
        if crashed {
          WorkStopped(message, old(handled), old(BooksNow()));
        } else {
          WorkDone(Relay(message), old(handled), old(BooksNow()));
          RelayConserves(old(BooksNow()), message, kickTarget);
        }
      }
    }

    /** The clients are those of the books but for the one that the message kicks out, which was closed last. */
    ghost predicate OnlyKickedOut(books: Books, message: RelayPacket)
      reads this
    {
      var reached := exists i :: 0 <= i < |message.receivers| && message.receivers[i] in books.clients;
      match kickTarget(message.payload.payload)
      case Some(id) =>
        if message.payload.header[0] == 3 && reached && id in books.clients
        then
          && clients == books.clients - {id}
          && effects != [] && effects[|effects| - 1] == Close(books.clients[id])
        else clients == books.clients
      case None => clients == books.clients
    }

    /** The handler has dealt with the receivers in front of one, and stands in the Push for that one, or in front of
      * the send for it; or it has dealt with all, and with a kick-out that it cannot unmarshal. */
    ghost predicate StoppedAt(message: RelayPacket, before: seq<Packet>, books: Books)
      reads this
    {
      && AtWork(Relay(message), before) && clients == books.clients
      && (handler.Writing? || handler.Delivering?) && handler.message == message
      && handler.i + One(handler.Writing?) <= |message.receivers|
      && effects == books.effects + Deliveries(books.clients, message)[..handler.i + One(handler.Writing?)]
      && if handler.i < |message.receivers|
         then (if crashed then handler.Writing? else handler.Delivering?) &&
              (message.receivers[handler.i] in clients <==> crashed)
         else crashed && Poisoned(clients, message, kickTarget)
    }

    lemma WorkStopped(message: RelayPacket, before: seq<Packet>, books: Books)
      requires AtWork(Relay(message), before) && books == Fold(before, kickTarget)
      requires if crashed then handler.Writing? || AtBadKick(State(), kickTarget)
               else handler.Delivering? && HandlerBlocked()
      ensures StoppedAt(message, before, books)
    {
      WorkSoFar(message, before);
      hide Fold, TokenInv, InOrder, UpInv, Deliveries;
    }

    method DeliverToAll(message: RelayPacket)
      requires !crashed && handler == Delivering(message, 0, 0) && AtWork(Relay(message), handled)
      modifies this`effects, this`up, this`handler, this`crashed
      ensures AtWork(Relay(message), handled)
      ensures crashed ==> handler.Writing?
      ensures !crashed ==> handler.Delivering? && handler.message == message
      ensures !crashed && !HandlerBlocked() ==> handler.i >= |message.receivers|
    {
      hide AtWork;
      while handler.i < |message.receivers|
        invariant AtWork(Relay(message), handled) && !crashed
        invariant handler.Delivering? && handler.message == message
        decreases |message.receivers| - handler.i
      {
        if HandlerBlocked() {
          return;
        }
        DeliverToNext(message);
        if crashed {
          return;
        }
      }
    }

    method TakeUp(message: RelayPacket)
      requires !crashed && handler == Handling(Relay(message)) && Inv(State(), kickTarget)
      modifies this`clients, this`handler, this`handled
      ensures AtWork(Relay(message), old(handled)) && handler == Delivering(message, 0, 0)
    {
      hide Inv;
      StepKeepsInv(State(), Step.Begin, kickTarget);
      Begin();
    }

    method DeliverToNext(message: RelayPacket)
      requires !crashed && handler.Delivering? && handler.message == message && handler.i < |message.receivers|
      requires AtWork(Relay(message), handled) && !HandlerBlocked()
      modifies this`effects, this`up, this`handler, this`crashed
      ensures AtWork(Relay(message), handled)
      ensures crashed ==> handler.Writing?
      ensures !crashed ==> handler.Delivering? && handler.message == message && handler.i == old(handler.i) + 1
    {
      hide Inv, Delivery;
      var started: bool := *;
      StepKeepsInv(State(), Step.Deliver(started), kickTarget);
      Deliver(started);
      if handler.Writing? {
        PushToClient(message, handler.i);
      }
    }

    method FinishRelay(message: RelayPacket)
      requires !crashed && handler.Delivering? && handler.message == message && handler.i >= |message.receivers|
      requires AtWork(Relay(message), handled)
      modifies this`clients, this`effects, this`handler, this`handled, this`crashed
      ensures crashed ==> AtWork(Relay(message), old(handled)) && AtBadKick(State(), kickTarget)
      ensures !crashed ==>
                Inv(State(), kickTarget) && handler.Acking? && handled == old(handled) + [Relay(message)]
    {
      hide Inv;
      StepKeepsInv(State(), Step.Finish, kickTarget);
      Finish();
      if handler.ClosingClient? {
        StepKeepsInv(State(), Step.CloseReturns, kickTarget);
        CloseReturns();
      }
    }

    /** The rest of a Push that has found its client Started. */
    method PushToClient(message: RelayPacket, i: nat)
      requires !crashed && handler.Writing? && handler.message == message && handler.i == i
      requires AtWork(Relay(message), handled)
      modifies this`handler, this`crashed
      ensures AtWork(Relay(message), handled)
      ensures crashed ==> handler.Writing? && handler.message == message && handler.i == i
      ensures !crashed ==> handler.Delivering? && handler.message == message && handler.i == i + 1
    {
      hide Inv;
      while !crashed && handler.Writing?
        invariant AtWork(Relay(message), handled)
        invariant crashed ==> handler.Writing?
        invariant handler.Writing? ==> handler.message == message && handler.i == i
        invariant !handler.Writing? ==> handler.Delivering? && handler.message == message && handler.i == i + 1
        decreases !crashed, Left(handler)
      {
        var found: bool, ok: bool := *, *;
        StepKeepsInv(State(), Step.UseConn(found, ok), kickTarget);
        UseConn(found, ok);
      }
    }

    // ----- every schedule -----

    /** Whatever a scheduler chooses among the steps that are possible, and whatever the handlers find in the clients,
      * the gateway comes to rest, with the proxy running or not.  Then the process has ended, because a handler found
      * nil or the proxy took an empty packet; or every offered packet has been accepted, and the handler is blocked,
      * or all packets were handled one at a time in the order of acceptance, up to the first one without body.  With
      * a running proxy the process lives at rest only if no empty packet was ever sent. */
    method RunUntilQuiet(proxyRuns: bool)
      requires Inv(State(), kickTarget) && !crashed
      modifies this
      ensures Inv(State(), kickTarget) && Quiet(State())
      ensures old(accepted) <= accepted && |accepted| + |pushers| == |old(accepted)| + |old(pushers)|
      ensures crashed ==> HandlerDied(State(), kickTarget) || proxy == Some(Empty)
      ensures !crashed ==> pushers == map[]
      ensures !crashed && !HandlerBlocked() ==>
                handled == ThroughNilBody(accepted) && BooksNow() == Fold(ThroughNilBody(accepted), kickTarget)
      ensures !crashed && proxyRuns ==> !HandlerBlocked() && up == [] && SendEmpty !in effects
    {
      hide Inv, Fold, Measure, Left;
      ghost var start := State();
      while
        invariant Continues(start, State())
        decreases Measure(State())
      {
        case !crashed && pushers != map[] && enqueue == None =>
          var t :| t in pushers;
          StepContinues(start, State(), Step.Accept(t));
          Accept(t);
        case !crashed && pump.Selecting? && enqueue.Some? =>
          StepContinues(start, State(), Step.TakeEnqueue);
          TakeEnqueue();
        case !crashed && pump.Selecting? && next =>
          StepContinues(start, State(), Step.TakeNext);
          TakeNext();
        case !crashed && pump.Sending? && dequeue == None =>
          StepContinues(start, State(), Step.SendDequeue);
          SendDequeue();
        case !crashed && handler.Receiving? && dequeue.Some? =>
          StepContinues(start, State(), Step.TakeDequeue);
          TakeDequeue();
        case !crashed && !handler.Receiving? && !handler.Acking? && !HandlerBlocked() =>
          MoveHandler(start);
        case !crashed && handler.Acking? && !next =>
          StepContinues(start, State(), Step.Acknowledge);
          Acknowledge();
        case !crashed && proxyRuns && proxy == None && up != [] =>
          StepContinues(start, State(), Step.ProxyTakes);
          ProxyTakes();
        case !crashed && proxyRuns && proxy.Some? =>
          StepContinues(start, State(), Step.ProxyHandles);
          ProxyHandles();
      }
      RestOfRun();
    }

    /** The handler makes its next step. */
    method MoveHandler(ghost start: System)
      requires Continues(start, State()) && !crashed && !handler.Receiving? && !handler.Acking? && !HandlerBlocked()
      modifies this`clients, this`clientNum, this`effects, this`up, this`handler, this`handled, this`crashed
      ensures Continues(start, State()) && Measure(State()) < Measure(old(State()))
    {
      hide Inv, Fold, Measure, Left;
      var answer: bool, ok: bool := *, *;
      match handler {
        case Handling(_) =>
          StepContinues(start, State(), Step.Begin);
          Begin();
        case Announcing(_, _) =>
          StepContinues(start, State(), Step.ReadAttrs(answer));
          ReadAttrs(answer);
        case Notifying(_, _) =>
          StepContinues(start, State(), Step.Notify);
          Notify();
        case Counting(_, _) =>
          StepContinues(start, State(), Step.Count);
          Count();
        case Delivering(message, i, _) =>
          if i < |message.receivers| {
            StepContinues(start, State(), Step.Deliver(answer));
            Deliver(answer);
          } else {
            StepContinues(start, State(), Step.Finish);
            Finish();
          }
        case Writing(_, _, _, _) =>
          StepContinues(start, State(), Step.UseConn(answer, ok));
          UseConn(answer, ok);
        case ClosingClient(_, _) =>
          StepContinues(start, State(), Step.CloseReturns);
          CloseReturns();
      }
    }

    lemma RestOfRun()
      requires Inv(State(), kickTarget)
      requires !crashed ==>
                 && (pushers == map[] || enqueue.Some?) && !(pump.Selecting? && (enqueue.Some? || next))
                 && !(pump.Sending? && dequeue == None) && !(handler.Receiving? && dequeue.Some?)
                 && (handler.Receiving? || (handler.Acking? && next) || HandlerBlocked())
      ensures Quiet(State())
      ensures !crashed ==> pushers == map[]
      ensures !crashed && !HandlerBlocked() ==>
                handled == ThroughNilBody(accepted) && BooksNow() == Fold(ThroughNilBody(accepted), kickTarget)
      ensures !crashed && up == [] && proxy == None ==> SendEmpty !in effects
    {
      hide Inv, Fold;
      assert Quiet(State());
      if !crashed {
        QuietInv(State(), kickTarget);
        if up == [] && proxy == None {
          NothingSent(State());
        }
      }
    }

    lemma NothingSent(s: System)
      requires Inv(s, kickTarget) && !s.crashed && s.up == [] && s.proxy == None
      ensures SendEmpty !in s.books.effects
    {
      hide TokenInv, InOrder, Halfway;
    }

    /** s comes from start by steps of the gateway and the proxy alone. */
    ghost predicate Continues(start: System, s: System) {
      && Inv(s, kickTarget)
      && start.accepted <= s.accepted
      && |s.accepted| + |s.pushers| == |start.accepted| + |start.pushers|
      && (s.crashed ==> HandlerDied(s, kickTarget) || s.proxy == Some(Empty))
    }

    lemma StepContinues(start: System, s: System, step: Step)
      requires Continues(start, s) && Enabled(s, step) && Internal(step)
      ensures var s' := Next(s, step, kickTarget);
              Continues(start, s') && Measure(s') < Measure(s)
    {
      StepKeepsInv(s, step, kickTarget);
      StepsDescend(s, step, kickTarget);
      StepAccepts(s, step);
    }

    lemma StepAccepts(s: System, step: Step)
      requires Enabled(s, step) && Internal(step)
      ensures var s' := Next(s, step, kickTarget);
              && s.accepted <= s'.accepted
              && |s'.accepted| + |s'.pushers| == |s.accepted| + |s.pushers|
              && (s'.crashed ==> HandlerDied(s', kickTarget) || s'.proxy == Some(Empty))
    {
      if HandlerStep(step) {
        HandlerMoves(s, step, kickTarget);
        HandlerDies(s, step);
      } else {
        hide Begun, Delivered, Finished, Done;
        if step.Accept? {
          assert (s.pushers - {step.waiter}).Keys == s.pushers.Keys - {step.waiter};
        }
      }
    }

    lemma HandlerDies(s: System, step: Step)
      requires Enabled(s, step) && HandlerStep(step)
      ensures Next(s, step, kickTarget).crashed ==> HandlerDied(Next(s, step, kickTarget), kickTarget)
    {
      hide Wrap32, Delivery;
    }
  }
}

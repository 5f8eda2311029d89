/** The packet pump of the gateway (gateway/wss/hub.go:101-241) as a system of atomic steps.
  *
  * Three kinds of goroutines block on the channel enqueue.  packetPushEnqueueHandler selects between enqueue and
  * next, keeps a pending list and the flag waiting, and sends on dequeue.  packetPushDequeueHandler receives from
  * dequeue, runs a handler, and acknowledges on next.  All three channels have capacity 1.  A handler takes many
  * steps, with those of the other goroutines between them; what it finds in a client is decided by that client's own
  * goroutines, and is a parameter of the step.  When it finds nil where it needs a value the process ends.
  *
  * The handlers and handleClientEvents send packets up, on a channel of capacity 100.  When the proxy runs, its loop
  * handleClientMessage (lgcluster/proxy.go:87-102) takes them one by one and reads the header of their message, of
  * which an empty packet has none: that ends the process too. */
module Pump {
  import opened Streams
  import opened Totals
  import opened WireCommon
  import opened WireMessage
  import opened Registry

  /** Who pushes: registClient for its client, handleClientEvents, handleSeverEvents. */
  datatype Pusher = Registrar(client: Client) | Listener | Relayer

  datatype PumpPc = Selecting | Sending(packet: Packet)

  /** Where packetPushDequeueHandler is.
    * - Announcing: the client is in the map, and this many of its Attrs are still to be read.
    * - Notifying, Counting: of a connect or a disconnect, the notice or clientNum is next.
    * - Delivering: of a relayed message, the i-th receiver is next; aff is the source's counter.
    * - Writing: in c.Push for the i-th receiver, after its load of the state; deadline says that this is set.
    * - ClosingClient: the kicked client is out of the map, and its Close is called. */
  datatype HandlerPc =
    | Receiving
    | Handling(packet: Packet)
    | Announcing(client: Client, unread: nat)
    | Notifying(connect: bool, client: Client)
    | Counting(connect: bool, client: Client)
    | Delivering(message: RelayPacket, i: nat, aff: nat)
    | Writing(message: RelayPacket, i: nat, aff: nat, deadline: bool)
    | ClosingClient(message: RelayPacket, client: Client)
    | Acking

  /** up is the channel of the proxy, and proxy what its loop has taken and is at work on.  accepted and handled
    * record the packets that entered enqueue, and those whose handling is over.  crashed: the process has ended. */
  datatype System = System(
    pushers: map<Pusher, Packet>,
    enqueue: Option<Packet>,
    pump: PumpPc,
    waiting: bool,
    pending: seq<Packet>,
    dequeue: Option<Packet>,
    handler: HandlerPc,
    next: bool,
    books: Books,
    up: seq<Upward>,
    proxy: Option<Upward>,
    crashed: bool,
    accepted: seq<Packet>,
    handled: seq<Packet>)

  datatype Step =
    | Offer(pusher: Pusher, packet: Packet)
    | Accept(waiter: Pusher)
    | TakeEnqueue
    | TakeNext
    | SendDequeue
    | TakeDequeue
    | Begin
    | ReadAttrs(found: bool)
    | Notify
    | Count
    | Deliver(started: bool)
    | UseConn(found: bool, ok: bool)
    | Finish
    | CloseReturns
    | Acknowledge
    | SendUp(message: RelayPacket)
    | ProxyTakes
    | ProxyHandles
    | ProcessDies

  /** Username, Device and RemoteIP. */
  const ATTRS_READ := 3

  const UP_CAPACITY := 100

  const INIT: System :=
    System(map[], None, Selecting, false, [], None, Receiving, false, EMPTY, [], None, false, [], [])

  predicate Room(s: System) {
    |s.up| < UP_CAPACITY
  }

  /** The next receiver of the message is not in the map. */
  predicate NextIsAbsent(s: System) {
    && s.handler.Delivering? && s.handler.i < |s.handler.message.receivers|
    && s.handler.message.receivers[s.handler.i] !in s.books.clients
  }

  predicate Enabled(s: System, step: Step) {
    !s.crashed &&
    match step
    case Offer(t, _) => t !in s.pushers
    case Accept(t) => t in s.pushers && s.enqueue == None
    case TakeEnqueue => s.pump.Selecting? && s.enqueue.Some?
    case TakeNext => s.pump.Selecting? && s.next
    case SendDequeue => s.pump.Sending? && s.dequeue == None
    case TakeDequeue => s.handler.Receiving? && s.dequeue.Some?
    case Begin => s.handler.Handling?
    case ReadAttrs(_) => s.handler.Announcing?
    case Notify => s.handler.Notifying? && Room(s)
    case Count => s.handler.Counting?
    case Deliver(_) =>
      s.handler.Delivering? && s.handler.i < |s.handler.message.receivers| && (NextIsAbsent(s) ==> Room(s))
    case UseConn(_, _) => s.handler.Writing?
    case Finish => s.handler.Delivering? && s.handler.i >= |s.handler.message.receivers|
    case CloseReturns => s.handler.ClosingClient?
    case Acknowledge => s.handler.Acking? && !s.next
    case SendUp(_) => Room(s)
    case ProxyTakes => s.proxy == None && s.up != []
    case ProxyHandles => s.proxy.Some?
    case ProcessDies => true
  }

  /** The handler has returned. */
  function Done(s: System, p: Packet): System {
    s.(handled := s.handled + [p], handler := if p.NilBody? then Receiving else Acking)
  }

  function Put(b: Books, c: Client): Books {
    b.(clients := b.clients[c.id := c])
  }

  function Remove(b: Books, id: Ksuid): Books {
    b.(clients := b.clients - {id})
  }

  function Note(b: Books, e: Effect): Books {
    b.(effects := b.effects + [e])
  }

  function Begun(s: System, p: Packet): System {
    match p
    case Connect(c) => s.(books := Put(s.books, c), handler := Announcing(c, ATTRS_READ))
    case Disconnect(c) =>
      if c.id in s.books.clients then s.(books := Remove(s.books, c.id), handler := Notifying(false, c)) else Done(s, p)
    case Relay(m) => s.(handler := Delivering(m, 0, 0))
    case OtherUse => Done(s, p)
    case NilBody => Done(s, p)
  }

  function Subject(connect: bool, c: Client): Packet {
    if connect then Connect(c) else Disconnect(c)
  }

  function Counted32(b: Books, connect: bool): Books {
    b.(clientNum := Wrap32(b.clientNum + if connect then 1 else -1))
  }

  function Delivered(s: System, m: RelayPacket, i: nat, aff: nat, started: bool): System
    requires i < |m.receivers|
  {
    var recv := m.receivers[i];
    s.(books := Note(s.books, Delivery(s.books.clients, recv, EncodeMessage(m.payload))),
       up := if recv in s.books.clients then s.up else s.up + [Empty],
       handler := if recv !in s.books.clients then Delivering(m, i + 1, aff)
                  else if started then Writing(m, i, aff, false)
                  else Delivering(m, i + 1, aff + 1))
  }

  /** The message is a kick-out that was delivered to somebody. */
  predicate ToKick(m: RelayPacket, aff: nat) {
    aff > 0 && m.payload.Pid() == PID_KICK_OUT
  }

  function Finished(s: System, m: RelayPacket, aff: nat, target: KickTarget): System {
    var id := Named(m, target);
    if ToKick(m, aff) && target(m.payload.payload) == None then s.(crashed := true)
    else if ToKick(m, aff) && id in s.books.clients then
      var c := s.books.clients[id];
      s.(books := Note(Remove(s.books, id), Close(c)), handler := ClosingClient(m, c))
    else Done(s, Relay(m))
  }

  function Next(s: System, step: Step, target: KickTarget): System
    requires Enabled(s, step)
  {
    match step
    case Offer(t, p) => s.(pushers := s.pushers[t := p])
    case Accept(t) =>
      var p := s.pushers[t];
      s.(pushers := s.pushers - {t}, enqueue := Some(p), accepted := s.accepted + [p])
    // packetPushEnqueueHandler
    case TakeEnqueue =>
      var p := s.enqueue.value;
      if s.waiting then s.(enqueue := None, pending := s.pending + [p])
      else s.(enqueue := None, pump := Sending(p))
    case TakeNext =>
      if s.pending == [] then s.(next := false, waiting := false)
      else s.(next := false, pump := Sending(s.pending[0]), pending := s.pending[1..])
    case SendDequeue =>
      s.(pump := Selecting, waiting := true, dequeue := Some(s.pump.packet))
    // packetPushDequeueHandler and its handlers
    case TakeDequeue =>
      s.(dequeue := None, handler := Handling(s.dequeue.value))
    case Begin => Begun(s, s.handler.packet)
    case ReadAttrs(found) =>
      var c := s.handler.client;
      if !found then s.(crashed := true)
      else if s.handler.unread > 1 then s.(handler := Announcing(c, s.handler.unread - 1))
      else s.(handler := Notifying(true, c))
    case Notify =>
      var connect, c := s.handler.connect, s.handler.client;
      s.(books := Note(s.books, SendEmpty), up := s.up + [Empty], handler := Counting(connect, c))
    case Count =>
      Done(s.(books := Counted32(s.books, s.handler.connect)), Subject(s.handler.connect, s.handler.client))
    case Deliver(started) => Delivered(s, s.handler.message, s.handler.i, s.handler.aff, started)
    // p.conn is used to set the deadline, and again to write; an error of either ends the Push
    case UseConn(found, ok) =>
      if !found then s.(crashed := true)
      else if ok && !s.handler.deadline then s.(handler := s.handler.(deadline := true))
      else s.(handler := Delivering(s.handler.message, s.handler.i + 1, s.handler.aff + 1))
    case Finish => Finished(s, s.handler.message, s.handler.aff, target)
    case CloseReturns => Done(s, Relay(s.handler.message))
    case Acknowledge =>
      s.(handler := Receiving, next := true)
    // handleClientEvents
    case SendUp(m) => s.(up := s.up + [Full(m)])
    // handleClientMessage of the proxy
    case ProxyTakes => s.(up := s.up[1..], proxy := Some(s.up[0]))
    case ProxyHandles => if s.proxy.value.Empty? then s.(crashed := true) else s.(proxy := None)
    // some other goroutine has failed
    case ProcessDies => s.(crashed := true)
  }

  ghost predicate Reaches(s: System, steps: seq<Step>, end: System, target: KickTarget)
    decreases |steps|
  {
    if steps == [] then s == end
    else Enabled(s, steps[0]) && Reaches(Next(s, steps[0], target), steps[1..], end, target)
  }

  ghost predicate Reachable(s: System, target: KickTarget) {
    exists steps :: Reaches(INIT, steps, s, target)
  }

  // ----- the invariant -----

  function One(b: bool): nat {
    if b then 1 else 0
  }

  /** The tokens in circulation: a packet that the pump is about to send, one in dequeue, the handler at work, or an
    * acknowledgement in next. */
  function Tokens(s: System): nat {
    One(s.pump.Sending?) + One(s.dequeue.Some?) + One(!s.handler.Receiving?) + One(s.next)
  }

  /** The packet that the handler is at work on. */
  function InHand(handler: HandlerPc): seq<Packet> {
    match handler
    case Receiving => []
    case Handling(p) => [p]
    case Announcing(c, _) => [Connect(c)]
    case Notifying(connect, c) => [Subject(connect, c)]
    case Counting(connect, c) => [Subject(connect, c)]
    case Delivering(m, _, _) => [Relay(m)]
    case Writing(m, _, _, _) => [Relay(m)]
    case ClosingClient(m, _) => [Relay(m)]
    case Acking => []
  }

  function InFlight(s: System): seq<Packet> {
    InHand(s.handler) +
    (if s.dequeue.Some? then [s.dequeue.value] else []) +
    (if s.pump.Sending? then [s.pump.packet] else [])
  }

  function Buffered(s: System): seq<Packet> {
    if s.enqueue.Some? then [s.enqueue.value] else []
  }

  /** A packet without body has been handled.  It is never acknowledged, so the token is lost. */
  predicate Stalled(s: System) {
    s.handled != [] && s.handled[|s.handled| - 1].NilBody?
  }

  /** The accepted packets that are still to be handled, in the order in which that will happen. */
  function Queue(s: System): seq<Packet> {
    InFlight(s) + (s.pending + Buffered(s))
  }

  /** Nothing is lost, duplicated or reordered. */
  predicate InOrder(s: System) {
    s.accepted == s.handled + Queue(s)
  }

  predicate TokenInv(s: System) {
    && (if Stalled(s) then s.waiting && Tokens(s) == 0
        else Tokens(s) == One(s.waiting || s.pump.Sending?))
    && (!s.waiting ==> s.pending == [])
    && (forall i :: 0 <= i < |s.handled| - 1 ==> !s.handled[i].NilBody?)
  }

  // ----- a handler half-way -----

  predicate AffectsBefore(clients: map<Ksuid, Client>, m: RelayPacket, n: nat)
    requires n <= |m.receivers|
  {
    exists i :: 0 <= i < n && m.receivers[i] in clients
  }

  /** What the handler knows at each point, where b is the books before its packet. */
  predicate HandlerInv(b: Books, handler: HandlerPc, target: KickTarget) {
    match handler
    case Notifying(connect, c) => connect || c.id in b.clients
    case Counting(connect, c) => connect || c.id in b.clients
    case Delivering(m, i, aff) => i <= |m.receivers| && (aff > 0 <==> AffectsBefore(b.clients, m, i))
    case Writing(m, i, aff, _) =>
      i < |m.receivers| && (aff > 0 <==> AffectsBefore(b.clients, m, i)) && m.receivers[i] in b.clients
    case ClosingClient(m, c) => Kicks(b, m, target) && b.clients[Named(m, target)] == c
    case _ => true
  }

  /** The books when the handler has come this far, where b is the books before its packet. */
  function Partial(b: Books, handler: HandlerPc, target: KickTarget): Books
    requires HandlerInv(b, handler, target)
  {
    match handler
    case Announcing(c, _) => Put(b, c)
    case Notifying(connect, c) => if connect then Put(b, c) else Remove(b, c.id)
    case Counting(connect, c) => Note(if connect then Put(b, c) else Remove(b, c.id), SendEmpty)
    case Delivering(m, i, _) => b.(effects := b.effects + Deliveries(b.clients, m)[..i])
    case Writing(m, i, _, _) => b.(effects := b.effects + Deliveries(b.clients, m)[..i + 1])
    case ClosingClient(m, _) => Relayed(b, m, target)
    case _ => b
  }

  ghost predicate Halfway(s: System, target: KickTarget) {
    var b := Fold(s.handled, target);
    HandlerInv(b, s.handler, target) && s.books == Partial(b, s.handler, target)
  }

  /** The empty packets that are still on their way.  While the process lives these are all that were ever sent. */
  predicate UpInv(s: System) {
    && |s.up| <= UP_CAPACITY
    && (!s.crashed ==>
          multiset(s.books.effects)[SendEmpty] == multiset(s.up)[Empty] + One(s.proxy == Some(Empty)))
  }

  ghost predicate Inv(s: System, target: KickTarget) {
    TokenInv(s) && InOrder(s) && Halfway(s, target) && UpInv(s)
  }

  /** A step of the handler. */
  predicate HandlerStep(step: Step) {
    match step
    case Begin => true
    case ReadAttrs(_) => true
    case Notify => true
    case Count => true
    case Deliver(_) => true
    case UseConn(_, _) => true
    case Finish => true
    case CloseReturns => true
    case _ => false
  }

  /** The handler keeps its packet in hand, or is through with it; and nothing else moves. */
  predicate Moved(s: System, s': System) {
    && InHand(s.handler) != []
    && s' == s.(handler := s'.handler, books := s'.books, up := s'.up, handled := s'.handled, crashed := s'.crashed)
    && if s'.handled == s.handled then InHand(s'.handler) == InHand(s.handler)
       else
         && s'.handled == s.handled + InHand(s.handler)
         && s'.handler == (if InHand(s.handler)[0].NilBody? then Receiving else Acking)
  }

  lemma HandlerMoves(s: System, step: Step, target: KickTarget)
    requires Enabled(s, step) && HandlerStep(step)
    ensures Moved(s, Next(s, step, target))
  {
    match step
    case Begin => BeginMoves(s, s.handler.packet);
    case Deliver(_) => hide Delivery;
    case Finish => FinishMoves(s, s.handler.message, s.handler.i, s.handler.aff, target);
    case _ => hide Begun, Delivered, Finished, Wrap32;
  }

  lemma BeginMoves(s: System, p: Packet)
    requires s.handler == Handling(p)
    ensures Moved(s, Begun(s, p))
  {
  }

  lemma FinishMoves(s: System, m: RelayPacket, i: nat, aff: nat, target: KickTarget)
    requires s.handler == Delivering(m, i, aff)
    ensures Moved(s, Finished(s, m, aff, target))
  {
  }

  lemma StepKeepsTokens(s: System, step: Step, target: KickTarget)
    requires TokenInv(s) && Enabled(s, step)
    ensures TokenInv(Next(s, step, target))
  {
    hide TokenInv, Next, Enabled, Moved;
    if HandlerStep(step) {
      HandlerMoves(s, step, target);
      HandlerKeepsTokens(s, Next(s, step, target));
    } else {
      OthersKeepTokens(s, step, target);
    }
  }

  lemma HandlerKeepsTokens(s: System, s': System)
    requires TokenInv(s) && Moved(s, s')
    ensures TokenInv(s')
  {
    assert !Stalled(s);
  }

  lemma OthersKeepTokens(s: System, step: Step, target: KickTarget)
    requires TokenInv(s) && Enabled(s, step) && !HandlerStep(step)
    ensures TokenInv(Next(s, step, target))
  {
    hide Delivered, Finished, Begun, Done;
  }

  /** The packet that a step brings into enqueue. */
  function Entering(s: System, step: Step): seq<Packet>
    requires Enabled(s, step)
  {
    if step.Accept? then [s.pushers[step.waiter]] else []
  }

  /** Accept adds to the end of the queue, the end of a handler takes its first packet, and no other step changes it. */
  lemma QueueMoves(s: System, step: Step, target: KickTarget)
    requires TokenInv(s) && Enabled(s, step)
    ensures var s' := Next(s, step, target);
            && s'.accepted == s.accepted + Entering(s, step)
            && s'.handled + Queue(s') == s.handled + Queue(s) + Entering(s, step)
            && (!HandlerStep(step) ==> s'.handled == s.handled)
  {
    if HandlerStep(step) {
      HandlerQueueMoves(s, step, target);
    } else {
      OtherQueueMoves(s, step, target);
      hide Next, Queue, TokenInv, HandlerStep;
      assert s.handled + (Queue(s) + Entering(s, step)) == s.handled + Queue(s) + Entering(s, step);
    }
  }

  lemma HandlerQueueMoves(s: System, step: Step, target: KickTarget)
    requires TokenInv(s) && Enabled(s, step) && HandlerStep(step)
    ensures var s' := Next(s, step, target);
            s'.handled + Queue(s') == s.handled + Queue(s) && s'.accepted == s.accepted
  {
    hide Next, Enabled, HandlerStep, TokenInv, Moved;
    HandlerMoves(s, step, target);
    HandAlone(s, Next(s, step, target));
    HandMoves(s, Next(s, step, target));
  }

  /** While the handler has a packet in hand, no other one is in flight. */
  lemma HandAlone(s: System, s': System)
    requires TokenInv(s) && Moved(s, s')
    ensures s.dequeue == None && s.pump.Selecting?
  {
    assert !s.handler.Receiving?;
  }

  lemma HandMoves(s: System, s': System)
    requires Moved(s, s') && s.dequeue == None && s.pump.Selecting?
    ensures s'.handled + Queue(s') == s.handled + Queue(s) && s'.accepted == s.accepted
  {
    var hand, behind := InHand(s.handler), s.pending + Buffered(s);
    assert Queue(s) == hand + behind && Buffered(s') == Buffered(s);
    if s'.handled == s.handled {
      hide InHand;
      assert Queue(s') == hand + behind;
    } else {
      assert Queue(s') == behind;
      hide InHand;
      assert s.handled + (hand + behind) == s.handled + hand + behind;
    }
  }

  lemma OtherQueueMoves(s: System, step: Step, target: KickTarget)
    requires TokenInv(s) && Enabled(s, step) && !HandlerStep(step)
    ensures var s' := Next(s, step, target);
            && s'.handled == s.handled
            && Queue(s') == Queue(s) + Entering(s, step)
            && s'.accepted == s.accepted + Entering(s, step)
  {
    hide Queue, Delivered, Finished, Begun, Done;
    if step.TakeEnqueue? {
      TakeEnqueueMoves(s, target);
    } else if step.TakeNext? {
      TakeNextMoves(s, target);
    } else {
      FlightStays(s, step, target);
    }
  }

  lemma FlightStays(s: System, step: Step, target: KickTarget)
    requires TokenInv(s) && Enabled(s, step) && !HandlerStep(step) && !step.TakeEnqueue? && !step.TakeNext?
    ensures var s' := Next(s, step, target);
            && s'.handled == s.handled
            && Queue(s') == Queue(s) + Entering(s, step)
            && s'.accepted == s.accepted + Entering(s, step)
  {
    hide InFlight, Next, TokenInv, Enabled, HandlerStep;
    PartsStay(s, step, target);
    if step.SendDequeue? || step.TakeDequeue? {
      PacketPasses(s, step, target);
    } else {
      FlightSame(s, step, target);
    }
    assert InFlight(s) + (s.pending + (Buffered(s) + Entering(s, step))) ==
           InFlight(s) + (s.pending + Buffered(s)) + Entering(s, step);
  }

  lemma PartsStay(s: System, step: Step, target: KickTarget)
    requires Enabled(s, step) && !HandlerStep(step) && !step.TakeEnqueue? && !step.TakeNext?
    ensures var s' := Next(s, step, target);
            && s'.handled == s.handled && s'.pending == s.pending
            && s'.accepted == s.accepted + Entering(s, step)
            && Buffered(s') == Buffered(s) + Entering(s, step)
  {
    hide Delivered, Finished, Begun, Done;
  }

  lemma FlightSame(s: System, step: Step, target: KickTarget)
    requires Enabled(s, step) && !HandlerStep(step) && !step.TakeEnqueue? && !step.TakeNext?
    requires !step.SendDequeue? && !step.TakeDequeue?
    ensures InFlight(Next(s, step, target)) == InFlight(s)
  {
    hide Delivered, Finished, Begun, Done;
    var s' := Next(s, step, target);
    assert s'.dequeue == s.dequeue && s'.pump == s.pump && InHand(s'.handler) == InHand(s.handler);
    hide Next, InHand;
  }

  lemma PacketPasses(s: System, step: Step, target: KickTarget)
    requires TokenInv(s) && Enabled(s, step) && (step.SendDequeue? || step.TakeDequeue?)
    ensures InFlight(Next(s, step, target)) == InFlight(s)
  {
  }

  lemma TakeEnqueueMoves(s: System, target: KickTarget)
    requires TokenInv(s) && Enabled(s, TakeEnqueue)
    ensures Queue(Next(s, TakeEnqueue, target)) == Queue(s)
  {
    var s' := Next(s, TakeEnqueue, target);
    if s.waiting {
      assert s'.pending + Buffered(s') == s.pending + Buffered(s);
    } else {
      assert Queue(s') == Buffered(s) == Queue(s);
    }
  }

  lemma TakeNextMoves(s: System, target: KickTarget)
    requires TokenInv(s) && Enabled(s, TakeNext)
    ensures Queue(Next(s, TakeNext, target)) == Queue(s)
  {
    if s.pending != [] {
      assert Queue(s) == s.pending + Buffered(s);
      assert Queue(Next(s, TakeNext, target)) == [s.pending[0]] + (s.pending[1..] + Buffered(s));
    }
  }

  lemma StepKeepsOrder(s: System, step: Step, target: KickTarget)
    requires TokenInv(s) && InOrder(s) && Enabled(s, step)
    ensures InOrder(Next(s, step, target))
  {
    QueueMoves(s, step, target);
  }

  // ----- the handler computes what the interpreter does -----

  lemma FoldOne(ps: seq<Packet>, p: Packet, target: KickTarget)
    ensures Fold(ps + [p], target) == Apply(Fold(ps, target), p, target)
  {
    assert (ps + [p])[..|ps|] == ps;
  }

  /** A handler is through when the books are what the interpreter makes of its packet. */
  lemma DoneHalfway(s: System, p: Packet, target: KickTarget)
    requires s.books == Apply(Fold(s.handled, target), p, target)
    ensures Halfway(Done(s, p), target)
  {
    FoldOne(s.handled, p, target);
    hide Fold, Apply;
  }

  lemma BeginConnect(s: System, c: Client, target: KickTarget)
    requires Halfway(s, target) && s.handler == Handling(Connect(c))
    ensures Halfway(Begun(s, Connect(c)), target)
  {
    hide Fold;
  }

  lemma BeginDisconnect(s: System, c: Client, target: KickTarget)
    requires Halfway(s, target) && s.handler == Handling(Disconnect(c))
    ensures Halfway(Begun(s, Disconnect(c)), target)
  {
    hide Fold;
    if c.id !in s.books.clients {
      DoneHalfway(s, Disconnect(c), target);
      hide Halfway;
    }
  }

  lemma BeginRelay(s: System, m: RelayPacket, target: KickTarget)
    requires Halfway(s, target) && s.handler == Handling(Relay(m))
    ensures Halfway(Begun(s, Relay(m)), target)
  {
    var ds := Deliveries(s.books.clients, m);
    hide Fold, Deliveries;
    assert s.books.effects + ds[..0] == s.books.effects;
  }

  lemma BeginHalfway(s: System, target: KickTarget)
    requires Halfway(s, target) && Enabled(s, Begin)
    ensures Halfway(Next(s, Begin, target), target)
  {
    match s.handler.packet
    case Connect(c) => BeginConnect(s, c, target);
    case Disconnect(c) => BeginDisconnect(s, c, target);
    case Relay(m) => BeginRelay(s, m, target);
    case p => DoneHalfway(s, p, target);
  }

  lemma CountHalfway(s: System, target: KickTarget)
    requires Halfway(s, target) && Enabled(s, Count)
    ensures Halfway(Next(s, Count, target), target)
  {
    var s' := s.(books := Counted32(s.books, s.handler.connect));
    hide Fold, Wrap32;
    DoneHalfway(s', Subject(s.handler.connect, s.handler.client), target);
    hide Halfway;
  }

  lemma DeliverHalfway(s: System, started: bool, target: KickTarget)
    requires Halfway(s, target) && Enabled(s, Deliver(started))
    ensures Halfway(Next(s, Deliver(started), target), target)
  {
    var b, m, i := Fold(s.handled, target), s.handler.message, s.handler.i;
    var ds := Deliveries(b.clients, m);
    assert ds[i] == Delivery(b.clients, m.receivers[i], EncodeMessage(m.payload));
    AffectsNext(b.clients, m, i);
    hide Fold, Delivery, Deliveries, AffectsBefore, EncodeMessage;
    assert ds[..i + 1] == ds[..i] + [ds[i]];
    assert b.effects + ds[..i + 1] == b.effects + ds[..i] + [ds[i]];
  }

  lemma AffectsNext(clients: map<Ksuid, Client>, m: RelayPacket, i: nat)
    requires i < |m.receivers|
    ensures AffectsBefore(clients, m, i + 1) <==> AffectsBefore(clients, m, i) || m.receivers[i] in clients
  {
  }

  lemma FinishHalfway(s: System, target: KickTarget)
    requires Halfway(s, target) && Enabled(s, Finish)
    ensures Halfway(Next(s, Finish, target), target)
  {
    hide Fold, Wrap32, Apply;
    var b, m := Fold(s.handled, target), s.handler.message;
    AllDelivered(b, m);
    if AtBadKick(s, target) {
      assert Next(s, Finish, target) == s.(crashed := true);
    } else if Kicks(b, m, target) {
      KickHalfway(s, target);
    } else {
      RelayApplied(b, m, target);
      DoneHalfway(s, Relay(m), target);
      hide Halfway;
    }
  }

  lemma AllDelivered(b: Books, m: RelayPacket)
    ensures Deliveries(b.clients, m)[..|m.receivers|] == Deliveries(b.clients, m)
    ensures Affects(b.clients, m) <==> AffectsBefore(b.clients, m, |m.receivers|)
  {
  }

  lemma RelayApplied(b: Books, m: RelayPacket, target: KickTarget)
    ensures Apply(b, Relay(m), target) == Relayed(b, m, target)
  {
  }

  lemma KickHalfway(s: System, target: KickTarget)
    requires Halfway(s, target) && Enabled(s, Finish)
    requires Kicks(Fold(s.handled, target), s.handler.message, target)
    ensures Halfway(Next(s, Finish, target), target)
  {
    hide Fold, Wrap32, Apply, Deliveries;
    AllDelivered(Fold(s.handled, target), s.handler.message);
  }

  lemma CloseHalfway(s: System, target: KickTarget)
    requires Halfway(s, target) && Enabled(s, CloseReturns)
    ensures Halfway(Next(s, CloseReturns, target), target)
  {
    hide Fold, Deliveries, Relayed;
    DoneHalfway(s, Relay(s.handler.message), target);
    hide Halfway;
  }

  lemma ConnectHalfway(s: System, step: Step, target: KickTarget)
    requires Halfway(s, target) && Enabled(s, step) && (step.ReadAttrs? || step.Notify?)
    ensures Halfway(Next(s, step, target), target)
  {
    hide Fold;
  }

  lemma UseConnHalfway(s: System, step: Step, target: KickTarget)
    requires Halfway(s, target) && Enabled(s, step) && step.UseConn?
    ensures Halfway(Next(s, step, target), target)
  {
    var b, m, i := Fold(s.handled, target), s.handler.message, s.handler.i;
    hide Fold, Deliveries;
    assert AffectsBefore(b.clients, m, i + 1);
  }

  lemma OtherHalfway(s: System, step: Step, target: KickTarget)
    requires Halfway(s, target) && Enabled(s, step) && !HandlerStep(step)
    ensures Halfway(Next(s, step, target), target)
  {
    hide Delivered, Finished, Begun, Done, Fold;
  }

  lemma StepKeepsHalfway(s: System, step: Step, target: KickTarget)
    requires Halfway(s, target) && Enabled(s, step)
    ensures Halfway(Next(s, step, target), target)
  {
    hide Halfway, Enabled, Next;
    match step
    case Begin => BeginHalfway(s, target);
    case ReadAttrs(_) => ConnectHalfway(s, step, target);
    case Notify => ConnectHalfway(s, step, target);
    case Count => CountHalfway(s, target);
    case Deliver(started) => DeliverHalfway(s, started, target);
    case UseConn(_, _) => UseConnHalfway(s, step, target);
    case Finish => FinishHalfway(s, target);
    case CloseReturns => CloseHalfway(s, target);
    case _ => OtherHalfway(s, step, target);
  }

  lemma StepKeepsInv(s: System, step: Step, target: KickTarget)
    requires Inv(s, target) && Enabled(s, step)
    ensures Inv(Next(s, step, target), target)
  {
    hide TokenInv, InOrder, Halfway, UpInv, Next, Enabled;
    StepKeepsTokens(s, step, target);
    StepKeepsOrder(s, step, target);
    StepKeepsHalfway(s, step, target);
    StepKeepsUp(s, step, target);
  }

  lemma Added(es: seq<Effect>, e: Effect)
    ensures multiset(es + [e])[SendEmpty] == multiset(es)[SendEmpty] + One(e == SendEmpty)
  {
  }

  lemma AddedUp(up: seq<Upward>, u: Upward)
    ensures multiset(up + [u])[Empty] == multiset(up)[Empty] + One(u == Empty)
  {
  }

  lemma StepKeepsUp(s: System, step: Step, target: KickTarget)
    requires UpInv(s) && Enabled(s, step)
    ensures UpInv(Next(s, step, target))
  {
    if step.Notify? {
      Added(s.books.effects, SendEmpty);
      AddedUp(s.up, Empty);
    } else if step.Deliver? {
      DeliverKeepsUp(s, step, target);
    } else if step.Finish? {
      FinishKeepsUp(s, target);
    } else if step.SendUp? {
      AddedUp(s.up, Full(step.message));
    } else if step.ProxyTakes? {
      TakeKeepsUp(s, target);
    } else if step.Begin? {
      BeginKeepsUp(s, s.handler.packet);
    } else {
      OthersKeepUp(s, step, target);
    }
  }

  lemma OthersKeepUp(s: System, step: Step, target: KickTarget)
    requires UpInv(s) && Enabled(s, step)
    requires !step.Notify? && !step.Deliver? && !step.Finish? && !step.SendUp? && !step.ProxyTakes? && !step.Begin?
    ensures UpInv(Next(s, step, target))
  {
    hide Begun, Delivered, Finished, Wrap32;
    var s' := Next(s, step, target);
    assert s'.up == s.up && s'.books.effects == s.books.effects;
    assert step.ProxyHandles? || s'.proxy == s.proxy;
    assert s'.crashed || (s'.proxy == Some(Empty) <==> s.proxy == Some(Empty));
    hide Next, Enabled;
  }

  lemma BeginKeepsUp(s: System, p: Packet)
    requires UpInv(s)
    ensures UpInv(Begun(s, p))
  {
  }

  lemma DeliverKeepsUp(s: System, step: Step, target: KickTarget)
    requires UpInv(s) && Enabled(s, step) && step.Deliver?
    ensures UpInv(Next(s, step, target))
  {
    var m, i := s.handler.message, s.handler.i;
    hide EncodeMessage;
    Added(s.books.effects, Delivery(s.books.clients, m.receivers[i], EncodeMessage(m.payload)));
    AddedUp(s.up, Empty);
  }

  lemma FinishKeepsWayUp(s: System, target: KickTarget)
    requires Enabled(s, Finish)
    ensures Next(s, Finish, target).up == s.up
  {
  }

  lemma FinishKeepsUp(s: System, target: KickTarget)
    requires UpInv(s) && Enabled(s, Finish)
    ensures UpInv(Next(s, Finish, target))
  {
    var id, s' := Named(s.handler.message, target), Next(s, Finish, target);
    FinishKeepsWayUp(s, target);
    assert s'.proxy == s.proxy && (s'.crashed || !s.crashed);
    if s'.books.effects != s.books.effects {
      Added(s.books.effects, Close(s.books.clients[id]));
    }
    hide Next, Enabled, Named;
  }

  lemma TakeKeepsUp(s: System, target: KickTarget)
    requires UpInv(s) && Enabled(s, ProxyTakes)
    ensures UpInv(Next(s, ProxyTakes, target))
  {
    assert s.up == [s.up[0]] + s.up[1..];
    assert multiset(s.up) == multiset{s.up[0]} + multiset(s.up[1..]);
  }

  lemma {:induction false} ReachesKeepsInv(s: System, steps: seq<Step>, end: System, target: KickTarget)
    requires Inv(s, target) && Reaches(s, steps, end, target)
    ensures Inv(end, target)
    decreases |steps|
  {
    if steps != [] {
      hide Inv, Next;
      StepKeepsInv(s, steps[0], target);
      ReachesKeepsInv(Next(s, steps[0], target), steps[1..], end, target);
    }
  }

  lemma ReachableInv(s: System, target: KickTarget)
    requires Reachable(s, target)
    ensures Inv(s, target)
  {
    var steps :| Reaches(INIT, steps, s, target);
    ReachesKeepsInv(INIT, steps, s, target);
  }

  // ----- what holds in every reachable state -----

  /** There is never more than one token, so at most one packet is in flight; and while no packet without body has
    * been handled, waiting says whether there is one. */
  lemma OneToken(s: System, target: KickTarget)
    requires Reachable(s, target)
    ensures Tokens(s) <= 1 && |InFlight(s)| <= 1
    ensures !Stalled(s) && s.pump.Selecting? ==> (s.waiting <==> Tokens(s) == 1)
    ensures !s.waiting ==> s.pending == []
  {
    ReachableInv(s, target);
  }

  /** Neither goroutine ever blocks on a send: dequeue and next are empty whenever somebody is about to send there. */
  lemma SendsNeverBlock(s: System, target: KickTarget)
    requires Reachable(s, target) && !s.crashed
    ensures s.pump.Sending? ==> Enabled(s, SendDequeue)
    ensures s.handler.Acking? ==> Enabled(s, Acknowledge)
  {
    ReachableInv(s, target);
  }

  /** The packets come through in the order in which they were accepted. */
  lemma Fifo(s: System, target: KickTarget)
    requires Reachable(s, target)
    ensures s.accepted == s.handled + (InFlight(s) + (s.pending + Buffered(s)))
  {
    ReachableInv(s, target);
  }

  /** The goroutines refine the one-at-a-time interpreter: whenever no handler is at work, the registry is what that
    * interpreter makes of the packets that have been handled, a prefix of the accepted ones.  A handler at work has
    * done just so much of what the interpreter does with its packet as its position says. */
  lemma RefinesInterpreter(s: System, target: KickTarget)
    requires Reachable(s, target)
    ensures s.handled + InHand(s.handler) <= s.accepted
    ensures HandlerInv(Fold(s.handled, target), s.handler, target)
    ensures s.books == Partial(Fold(s.handled, target), s.handler, target)
    ensures s.handler.Receiving? || s.handler.Handling? || s.handler.Acking? ==> s.books == Fold(s.handled, target)
  {
    ReachableInv(s, target);
    InAccepted(s);
    hide TokenInv, InOrder, UpInv, Fold, HandlerInv;
  }

  lemma InAccepted(s: System)
    requires TokenInv(s) && InOrder(s)
    ensures s.handled + InHand(s.handler) <= s.accepted
  {
    if InHand(s.handler) != [] {
      assert !Stalled(s) && InFlight(s) == InHand(s.handler);
      assert s.accepted == s.handled + InHand(s.handler) + (s.pending + Buffered(s));
    }
  }

  /** The map of clients needs no lock: whatever the other goroutines do between two receivers of a message, each of
    * them is looked up in the map as it was when the message was taken up. */
  lemma LookupsAgree(s: System, target: KickTarget)
    requires Reachable(s, target) && (s.handler.Delivering? || s.handler.Writing?)
    ensures s.books.clients == Fold(s.handled, target).clients
    ensures var m, i := s.handler.message, s.handler.i;
            var done := if s.handler.Writing? then i + 1 else i;
            && done <= |m.receivers|
            && s.books.effects ==
               Fold(s.handled, target).effects + Deliveries(Fold(s.handled, target).clients, m)[..done]
  {
    ReachableInv(s, target);
  }

  lemma OnlyHandlerWrites(s: System, step: Step, target: KickTarget)
    requires Enabled(s, step) && !HandlerStep(step)
    ensures Next(s, step, target).books == s.books
  {
  }

  // ----- draining -----

  /** A step of the system itself, as opposed to a new Push from outside, a message of a client, or the end of the
    * process. */
  predicate Internal(step: Step) {
    !step.Offer? && !step.SendUp? && !step.ProcessDies?
  }

  /** And a step of the gateway's own goroutines, as opposed to those of the proxy, which may not be running. */
  predicate Own(step: Step) {
    Internal(step) && !step.ProxyTakes? && !step.ProxyHandles?
  }

  /** A bound on the steps that the handler takes for a packet. */
  function Cost(p: Packet): nat {
    match p
    case Connect(_) => ATTRS_READ + 6
    case Disconnect(_) => 5
    case Relay(m) => 3 * |m.receivers| + 3
    case _ => 1
  }

  function Ahead(m: RelayPacket, i: nat): nat {
    if i < |m.receivers| then |m.receivers| - i else 0
  }

  /** And on those that are left when it is at work. */
  function Left(handler: HandlerPc): nat {
    match handler
    case Receiving => 0
    case Handling(p) => Cost(p) + 2
    case Announcing(_, unread) => unread + 7
    case Notifying(_, _) => 6
    case Counting(_, _) => 3
    case Delivering(m, i, _) => 3 * Ahead(m, i) + 4
    case Writing(m, i, _, deadline) => 3 * Ahead(m, i + 1) + if deadline then 5 else 6
    case ClosingClient(_, _) => 3
    case Acking => 2
  }

  /** A bound on the steps that a waiting pusher still causes. */
  function PusherCost(t: Pusher, p: Packet): nat {
    7 + Cost(p)
  }

  function PendingCost(ps: seq<Packet>): nat {
    if ps == [] then 0 else 5 + Cost(ps[0]) + PendingCost(ps[1..])
  }

  lemma {:induction false} PendingAppend(ps: seq<Packet>, p: Packet)
    ensures PendingCost(ps + [p]) == PendingCost(ps) + 5 + Cost(p)
  {
    if ps != [] {
      PendingAppend(ps[1..], p);
      assert (ps + [p])[1..] == ps[1..] + [p];
    }
  }

  ghost function Measure(s: System): nat {
    One(!s.crashed) + Total(s.pushers, PusherCost) + (if s.enqueue.Some? then 6 + Cost(s.enqueue.value) else 0) +
    PendingCost(s.pending) + (if s.pump.Sending? then 4 + Cost(s.pump.packet) else 0) +
    (if s.dequeue.Some? then 3 + Cost(s.dequeue.value) else 0) + Left(s.handler) + One(s.next) +
    2 * |s.up| + One(s.proxy.Some?)
  }

  /** Every internal step makes the measure smaller. */
  lemma StepsDescend(s: System, step: Step, target: KickTarget)
    requires Enabled(s, step) && Internal(step)
    ensures Measure(Next(s, step, target)) < Measure(s)
  {
    if HandlerStep(step) {
      HandlerMoves(s, step, target);
      HandlerDescends(s, step, target);
      hide Next, Enabled, InHand, HandlerStep, Total, Cost, Left;
    } else {
      OthersDescend(s, step, target);
    }
  }

  lemma OthersDescend(s: System, step: Step, target: KickTarget)
    requires Enabled(s, step) && Internal(step) && !HandlerStep(step)
    ensures Measure(Next(s, step, target)) < Measure(s)
  {
    hide Next, Measure;
    if step.Accept? {
      AcceptDescends(s, step.waiter, target);
    } else if step.TakeEnqueue? {
      TakeEnqueueDescends(s, target);
    } else if step.TakeNext? {
      TakeNextDescends(s, target);
    } else if step.ProxyTakes? {
      TakeDescends(s, target);
    } else if step.SendDequeue? {
      SendDescends(s, target);
    } else if step.TakeDequeue? {
      TakeDequeueDescends(s, target);
    } else if step.Acknowledge? {
      AcknowledgeDescends(s, target);
    } else {
      ProxyDescends(s, target);
    }
  }

  lemma SendDescends(s: System, target: KickTarget)
    requires Enabled(s, SendDequeue)
    ensures Measure(Next(s, SendDequeue, target)) < Measure(s)
  {
    hide Total, Cost, Left, PendingCost;
  }

  lemma TakeDequeueDescends(s: System, target: KickTarget)
    requires Enabled(s, TakeDequeue)
    ensures Measure(Next(s, TakeDequeue, target)) < Measure(s)
  {
    hide Total, Cost, PendingCost;
  }

  lemma AcknowledgeDescends(s: System, target: KickTarget)
    requires Enabled(s, Acknowledge)
    ensures Measure(Next(s, Acknowledge, target)) < Measure(s)
  {
    hide Total, Cost, PendingCost;
  }

  lemma ProxyDescends(s: System, target: KickTarget)
    requires Enabled(s, ProxyHandles)
    ensures Measure(Next(s, ProxyHandles, target)) < Measure(s)
  {
    hide Total, Cost, Left, PendingCost;
    var s' := Next(s, ProxyHandles, target);
    assert s' == s.(crashed := true) || s' == s.(proxy := None);
    hide Next, Enabled;
  }

  lemma AcceptDescends(s: System, t: Pusher, target: KickTarget)
    requires Enabled(s, Accept(t))
    ensures Measure(Next(s, Accept(t), target)) < Measure(s)
  {
    hide Total, Cost, Left, PendingCost;
    TotalWithout(s.pushers, PusherCost, t);
  }

  lemma TakeNextDescends(s: System, target: KickTarget)
    requires Enabled(s, TakeNext)
    ensures Measure(Next(s, TakeNext, target)) < Measure(s)
  {
    hide Total, Cost, Left;
  }

  lemma TakeEnqueueDescends(s: System, target: KickTarget)
    requires Enabled(s, TakeEnqueue)
    ensures Measure(Next(s, TakeEnqueue, target)) < Measure(s)
  {
    hide Total, Cost, Left;
    PendingAppend(s.pending, s.enqueue.value);
  }

  lemma TakeDescends(s: System, target: KickTarget)
    requires Enabled(s, ProxyTakes)
    ensures Measure(Next(s, ProxyTakes, target)) < Measure(s)
  {
    hide Total, Cost, Left, PendingCost;
  }

  lemma HandlerDescends(s: System, step: Step, target: KickTarget)
    requires Enabled(s, step) && HandlerStep(step)
    ensures var s' := Next(s, step, target);
            One(!s'.crashed) + Left(s'.handler) + 2 * |s'.up| < One(!s.crashed) + Left(s.handler) + 2 * |s.up|
  {
    match step
    case Begin => BeginDescends(s, s.handler.packet);
    case Deliver(started) => DeliverDescends(s, started, target);
    case Finish =>
    case _ => hide Ahead, Begun, Delivered, Finished;
  }

  lemma BeginDescends(s: System, p: Packet)
    requires s.handler == Handling(p)
    ensures Left(Begun(s, p).handler) < Left(s.handler) && Begun(s, p).crashed == s.crashed && Begun(s, p).up == s.up
  {
  }

  lemma DeliverDescends(s: System, started: bool, target: KickTarget)
    requires Enabled(s, Deliver(started))
    ensures var s' := Next(s, Deliver(started), target);
            Left(s'.handler) + 2 * |s'.up| < Left(s.handler) + 2 * |s.up| && s'.crashed == s.crashed
  {
    hide Delivery;
  }

  /** Without new pushes no run is longer than the measure of the state in which it starts. */
  lemma {:induction false} RunsAreShort(s: System, steps: seq<Step>, end: System, target: KickTarget)
    requires Reaches(s, steps, end, target)
    requires forall i :: 0 <= i < |steps| ==> Internal(steps[i])
    ensures |steps| + Measure(end) <= Measure(s)
    decreases |steps|
  {
    if steps != [] {
      hide Measure, Next;
      StepsDescend(s, steps[0], target);
      RunsAreShort(Next(s, steps[0], target), steps[1..], end, target);
    }
  }

  /** None of the gateway's goroutines can move before somebody pushes again, or the proxy takes a packet. */
  ghost predicate Quiet(s: System) {
    forall step :: Enabled(s, step) ==> !Own(step)
  }

  /** The handler stands at a send on the full channel of the proxy. */
  predicate Blocked(s: System) {
    !Room(s) && (s.handler.Notifying? || NextIsAbsent(s))
  }

  /** The packets up to and including the first one without body. */
  function ThroughNilBody(ps: seq<Packet>): seq<Packet> {
    if ps == [] then []
    else [ps[0]] + if ps[0].NilBody? then [] else ThroughNilBody(ps[1..])
  }

  lemma {:induction false} ThroughNilBodyOf(front: seq<Packet>, back: seq<Packet>)
    requires forall i :: 0 <= i < |front| - 1 ==> !front[i].NilBody?
    requires back == [] || (front != [] && front[|front| - 1].NilBody?)
    ensures ThroughNilBody(front + back) == front
  {
    if front == [] {
      assert front + back == [];
    } else {
      assert (front + back)[1..] == front[1..] + back;
      assert front == [front[0]] + front[1..];
      if !front[0].NilBody? {
        ThroughNilBodyOf(front[1..], back);
      }
    }
  }

  lemma {:induction false} ThroughAll(ps: seq<Packet>)
    ensures ThroughNilBody(ps) == ps <==> forall i :: 0 <= i < |ps| - 1 ==> !ps[i].NilBody?
  {
    if ps != [] {
      ThroughAll(ps[1..]);
      assert ps == [ps[0]] + ps[1..];
      var tail := ps[1..];
      assert forall i :: 0 <= i < |tail| ==> tail[i] == ps[i + 1];
      assert forall i :: 0 < i < |ps| ==> ps[i] == tail[i - 1];
    }
  }

  /** Some step of the handler is possible while it has a packet in hand. */
  function HandlerNext(handler: HandlerPc): Step
    requires InHand(handler) != []
  {
    match handler
    case Handling(_) => Begin
    case Announcing(_, _) => ReadAttrs(true)
    case Notifying(_, _) => Notify
    case Counting(_, _) => Count
    case Delivering(m, i, _) => if i < |m.receivers| then Deliver(true) else Finish
    case Writing(_, _, _, _) => UseConn(true, true)
    case ClosingClient(_, _) => CloseReturns
  }

  lemma HandlerReady(s: System)
    requires InHand(s.handler) != [] && !s.crashed && !Blocked(s)
    ensures Enabled(s, HandlerNext(s.handler)) && Own(HandlerNext(s.handler))
  {
  }

  lemma QuietInv(s: System, target: KickTarget)
    requires Inv(s, target) && Quiet(s) && !s.crashed
    ensures s.pushers == map[]
    ensures if Blocked(s) then s.accepted == s.handled + InHand(s.handler) + s.pending
            else
              && s.handler == Receiving
              && s.handled == ThroughNilBody(s.accepted)
              && s.books == Fold(ThroughNilBody(s.accepted), target)
  {
    hide Fold, UpInv;
    assert !Enabled(s, TakeEnqueue) && !Enabled(s, TakeNext) && !Enabled(s, SendDequeue);
    assert !Enabled(s, TakeDequeue) && !Enabled(s, Acknowledge);
    assert s.enqueue == None by {
      hide InOrder, Halfway;
    }
    forall t ensures t !in s.pushers {
      assert !Enabled(s, Accept(t));
    }
    if Blocked(s) {
      BlockedFlight(s);
    } else {
      if InHand(s.handler) != [] {
        HandlerReady(s);
      }
      assert s.accepted == s.handled + s.pending;
      ThroughNilBodyOf(s.handled, s.pending);
    }
  }

  lemma BlockedFlight(s: System)
    requires TokenInv(s) && InOrder(s) && InHand(s.handler) != [] && s.enqueue == None
    ensures s.accepted == s.handled + InHand(s.handler) + s.pending
  {
    assert !Stalled(s) && InFlight(s) == InHand(s.handler);
  }

  /** When the process lives and the gateway does not move, every offer has been accepted, and the packets have been
    * handled up to the first one without body; unless the handler is blocked, with its packet and those behind it
    * unhandled. */
  lemma QuietMeansDrained(s: System, target: KickTarget)
    requires Reachable(s, target) && Quiet(s) && !s.crashed
    ensures s.pushers == map[]
    ensures !Blocked(s) ==> s.handled == ThroughNilBody(s.accepted)
    ensures !Blocked(s) ==> s.books == Fold(ThroughNilBody(s.accepted), target)
    ensures Blocked(s) ==> InHand(s.handler) != [] && s.accepted == s.handled + InHand(s.handler) + s.pending
  {
    ReachableInv(s, target);
    QuietInv(s, target);
  }

  /** While a packet is unhandled, some goroutine of the gateway can move, unless the handler is blocked, a packet
    * without body has stopped the pump, or the process has ended. */
  lemma Progress(s: System, target: KickTarget) returns (step: Step)
    requires Reachable(s, target) && !Stalled(s) && !s.crashed && !Blocked(s)
    requires s.handled != s.accepted || s.pushers != map[]
    ensures Enabled(s, step) && Own(step)
  {
    ReachableInv(s, target);
    hide Halfway, UpInv, Reachable;
    if InHand(s.handler) != [] {
      HandlerReady(s);
      step := HandlerNext(s.handler);
    } else if !Idle(s) {
      step := BuffersReady(s);
    } else {
      NothingQueued(s);
      var t :| t in s.pushers;
      step := Accept(t);
    }
  }

  /** Nothing is in a buffer, and nobody is about to send. */
  predicate Idle(s: System) {
    s.pump.Selecting? && s.enqueue == None && !s.next && s.handler.Receiving? && s.dequeue == None
  }

  lemma BuffersReady(s: System) returns (step: Step)
    requires TokenInv(s) && !s.crashed && InHand(s.handler) == [] && !Idle(s)
    ensures Enabled(s, step) && Own(step)
  {
    if s.pump.Sending? {
      step := SendDequeue;
    } else if s.enqueue.Some? {
      step := TakeEnqueue;
    } else if s.next {
      step := TakeNext;
    } else if s.handler.Acking? {
      step := Acknowledge;
    } else {
      step := TakeDequeue;
    }
  }

  lemma NothingQueued(s: System)
    requires TokenInv(s) && InOrder(s) && !Stalled(s)
    requires Idle(s)
    ensures s.handled == s.accepted
  {
    assert s.accepted == s.handled + s.pending;
  }

  predicate NoEarlyNilBody(ps: seq<Packet>) {
    forall i :: 0 <= i < |ps| - 1 ==> !ps[i].NilBody?
  }

  /** The handler stands at the kick-out that it could not unmarshal. */
  predicate AtBadKick(s: System, target: KickTarget) {
    && s.handler.Delivering? && s.handler.i >= |s.handler.message.receivers|
    && ToKick(s.handler.message, s.handler.aff) && target(s.handler.message.payload.payload) == None
  }

  /** In every reachable state the message at which it stands there is one that the interpreter calls poisoned. */
  lemma BadKickIff(s: System, target: KickTarget)
    requires Reachable(s, target) && s.handler.Delivering? && s.handler.i >= |s.handler.message.receivers|
    ensures AtBadKick(s, target) <==> Poisoned(Fold(s.handled, target).clients, s.handler.message, target)
  {
    ReachableInv(s, target);
  }

  /** The handler has found nil where it needed a value. */
  predicate HandlerDied(s: System, target: KickTarget) {
    s.crashed && (s.handler.Announcing? || s.handler.Writing? || AtBadKick(s, target))
  }

  /** While the process lives, a gateway at rest has handled all that it accepted exactly when the handler is not
    * blocked and no packet without body came before the last one.  A handler that found nil leaves its own packet
    * unhandled. */
  lemma DrainsCompletely(s: System, target: KickTarget)
    requires Reachable(s, target) && Quiet(s)
    ensures !s.crashed ==> (s.handled == s.accepted <==> !Blocked(s) && NoEarlyNilBody(s.accepted))
    ensures HandlerDied(s, target) ==> |s.handled| < |s.accepted| && s.accepted[|s.handled|] == InHand(s.handler)[0]
  {
    if s.crashed {
      ReachableInv(s, target);
    } else {
      QuietMeansDrained(s, target);
      ThroughAll(s.accepted);
    }
  }

  /** The schedule does not matter: two runs that accepted the same packets and came to rest unblocked agree on the
    * registry and on all effects, in the same order. */
  lemma ScheduleIndependence(s1: System, s2: System, target: KickTarget)
    requires Reachable(s1, target) && Quiet(s1) && !s1.crashed && !Blocked(s1)
    requires Reachable(s2, target) && Quiet(s2) && !s2.crashed && !Blocked(s2)
    requires s1.accepted == s2.accepted
    ensures s1.books == s2.books
  {
    QuietMeansDrained(s1, target);
    QuietMeansDrained(s2, target);
  }

  /** After a packet without body nothing is ever handled again. */
  lemma {:induction false} StallIsForever(s: System, steps: seq<Step>, end: System, target: KickTarget)
    requires Inv(s, target) && Stalled(s)
    requires Reaches(s, steps, end, target)
    ensures end.handled == s.handled && end.books == s.books
    decreases |steps|
  {
    if steps != [] {
      StepKeepsInv(s, steps[0], target);
      StalledStep(s, steps[0], target);
      hide Inv, Next, Enabled;
      StallIsForever(Next(s, steps[0], target), steps[1..], end, target);
    }
  }

  lemma StalledStep(s: System, step: Step, target: KickTarget)
    requires TokenInv(s) && Stalled(s) && Enabled(s, step)
    ensures var s' := Next(s, step, target);
            s'.handled == s.handled && s'.books == s.books && Stalled(s')
  {
    if HandlerStep(step) {
      HandlerMoves(s, step, target);
    }
  }

  // ----- the way up -----

  /** As long as the proxy takes nothing, a blocked handler stays blocked, whatever is pushed and whoever else moves. */
  lemma {:induction false} BlockedIsForever(s: System, steps: seq<Step>, end: System, target: KickTarget)
    requires Blocked(s) && Reaches(s, steps, end, target)
    requires ProxyTakes !in steps
    ensures Blocked(end) && end.handled == s.handled && end.books == s.books
    decreases |steps|
  {
    if steps != [] {
      BlockedStep(s, steps[0], target);
      hide Next, Enabled, Blocked;
      BlockedIsForever(Next(s, steps[0], target), steps[1..], end, target);
    }
  }

  lemma BlockedStep(s: System, step: Step, target: KickTarget)
    requires Blocked(s) && Enabled(s, step) && !step.ProxyTakes?
    ensures var s' := Next(s, step, target);
            Blocked(s') && s'.handled == s.handled && s'.books == s.books
  {
    hide Begun, Delivered, Finished, Done;
  }

  /** A living gateway has never sent more than 101 notices: all of them are still in the channel, but for one that
    * the proxy may have in hand. */
  lemma FewNotices(s: System, target: KickTarget)
    requires Reachable(s, target) && !s.crashed
    ensures multiset(s.books.effects)[SendEmpty] == multiset(s.up)[Empty] + One(s.proxy == Some(Empty))
    ensures multiset(s.books.effects)[SendEmpty] <= 101
  {
    ReachableInv(s, target);
    assert multiset(s.up)[Empty] <= |multiset(s.up)| == |s.up|;
  }

  /** So it has not handled more than 101 connects. */
  lemma FewConnects(s: System, target: KickTarget)
    requires Reachable(s, target) && !s.crashed
    ensures Arrivals(s.handled) <= 101
  {
    ReachableInv(s, target);
    FewNotices(s, target);
    ConnectsSend(s.handled, target);
    PartialGrows(Fold(s.handled, target), s.handler, target);
    hide TokenInv, InOrder, UpInv, Fold, Partial;
  }

  lemma PartialGrows(b: Books, handler: HandlerPc, target: KickTarget)
    requires HandlerInv(b, handler, target)
    ensures multiset(Partial(b, handler, target).effects)[SendEmpty] >= multiset(b.effects)[SendEmpty]
  {
    hide Affects, Deliveries;
  }

  /** When the proxy has dealt with everything and the process lives, no notice was ever sent. */
  lemma ProxySurvives(s: System, target: KickTarget)
    requires Reachable(s, target) && !s.crashed && s.up == [] && s.proxy == None
    ensures SendEmpty !in s.books.effects
  {
    FewNotices(s, target);
  }

  /** The handler has sent a notice for the packet in hand, where b is the books before it. */
  predicate HasSent(b: Books, handler: HandlerPc) {
    match handler
    case Counting(_, _) => true
    case Delivering(m, i, _) => exists j :: 0 <= j < i && j < |m.receivers| && m.receivers[j] !in b.clients
    case Writing(m, i, _, _) => exists j :: 0 <= j < i && j < |m.receivers| && m.receivers[j] !in b.clients
    case ClosingClient(m, _) => SendsUp(b, Relay(m))
    case _ => false
  }

  /** What sends notices: exactly the connects that get past their reads of the Attrs, the disconnects of registered
    * clients, and the absent receivers. */
  lemma NoticesSentIff(s: System, target: KickTarget)
    requires Reachable(s, target)
    ensures SendEmpty in s.books.effects <==>
            || (exists i :: 0 <= i < |s.handled| && SendsAt(s.handled, target, i))
            || HasSent(Fold(s.handled, target), s.handler)
  {
    ReachableInv(s, target);
    NoticesSentInv(s, target);
  }

  lemma NoticesSentInv(s: System, target: KickTarget)
    requires Inv(s, target)
    ensures SendEmpty in s.books.effects <==>
            || (exists i :: 0 <= i < |s.handled| && SendsAt(s.handled, target, i))
            || HasSent(Fold(s.handled, target), s.handler)
  {
    SentUpIff(s.handled, target);
    HasSentIff(Fold(s.handled, target), s.handler, target);
    hide Fold, SendsAt, TokenInv, InOrder, UpInv, HasSent, Partial, HandlerInv;
  }

  lemma HasSentIff(b: Books, handler: HandlerPc, target: KickTarget)
    requires HandlerInv(b, handler, target)
    ensures SendEmpty in Partial(b, handler, target).effects <==> SendEmpty in b.effects || HasSent(b, handler)
  {
    hide Deliveries, Affects, Relayed, SendsUp;
    match handler {
      case Delivering(m, i, _) => SomeSent(b.clients, m, i);
      case Writing(m, i, _, _) => WritingSent(b, m, i);
      case ClosingClient(m, _) => SendsUpNow(b, Relay(m), target);
      case _ =>
    }
  }

  lemma WritingSent(b: Books, m: RelayPacket, i: nat)
    requires i < |m.receivers| && m.receivers[i] in b.clients
    ensures SendEmpty in Deliveries(b.clients, m)[..i + 1] <==>
            exists j :: 0 <= j < i && j < |m.receivers| && m.receivers[j] !in b.clients
  {
    SomeSent(b.clients, m, i + 1);
  }

  lemma SomeSent(clients: map<Ksuid, Client>, m: RelayPacket, n: nat)
    requires n <= |m.receivers|
    ensures SendEmpty in Deliveries(clients, m)[..n] <==> exists j :: 0 <= j < n && m.receivers[j] !in clients
  {
    var ds := Deliveries(clients, m);
    forall j | 0 <= j < n ensures ds[..n][j] == SendEmpty <==> m.receivers[j] !in clients {
    }
  }

  // ----- a run that blocks -----

  lemma {:induction false} ReachesThen(s: System, steps: seq<Step>, mid: System, step: Step, target: KickTarget)
    requires Reaches(s, steps, mid, target) && Enabled(mid, step)
    ensures Reaches(s, steps + [step], Next(mid, step, target), target)
    decreases |steps|
  {
    hide Enabled, Next;
    if steps != [] {
      ReachesThen(Next(s, steps[0], target), steps[1..], mid, step, target);
      assert (steps + [step])[1..] == steps[1..] + [step];
    } else {
      assert [step][1..] == [];
    }
  }

  lemma Then(mid: System, step: Step, target: KickTarget) returns (s: System)
    requires Reachable(mid, target) && Enabled(mid, step)
    ensures Reachable(s, target) && s == Next(mid, step, target)
  {
    var steps :| Reaches(INIT, steps, mid, target);
    ReachesThen(INIT, steps, mid, step, target);
    s := Next(mid, step, target);
  }

  /** As many messages sent up as the channel holds. */
  lemma FullChannel(m: RelayPacket, target: KickTarget) returns (s: System)
    ensures Reachable(s, target) && s == INIT.(up := s.up) && |s.up| == UP_CAPACITY
  {
    assert Reaches(INIT, [], INIT, target);
    hide Reachable;
    s := INIT;
    while Room(s)
      invariant Reachable(s, target) && s == INIT.(up := s.up) && |s.up| <= UP_CAPACITY
      decreases UP_CAPACITY - |s.up|
    {
      s := Then(s, SendUp(m), target);
    }
  }

  /** With a proxy that takes nothing, 100 messages of clients are enough to block the handler of a connect. */
  lemma HandlerCanBlock(m: RelayPacket, c: Client, target: KickTarget) returns (s: System)
    ensures Reachable(s, target) && !s.crashed && Blocked(s) && s.handled == [] && s.accepted == [Connect(c)]
    ensures |s.up| == 100
  {
    hide Reachable;
    s := FullChannel(m, target);
    s := Then(s, Offer(Registrar(c), Connect(c)), target);
    s := Then(s, Accept(Registrar(c)), target);
    s := Then(s, TakeEnqueue, target);
    s := Then(s, SendDequeue, target);
    s := Then(s, TakeDequeue, target);
    s := Then(s, Begin, target);
    s := Then(s, ReadAttrs(true), target);
    s := Then(s, ReadAttrs(true), target);
    s := Then(s, ReadAttrs(true), target);
  }
}

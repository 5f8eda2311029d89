/** The gateway together with its clients: the step system of Pump, one step system of WsLifecycle for each client,
  * and the goroutines between them.  registClient starts a client and then pushes its connect; a client's reader
  * reports on onDisconnect; handleClientEvents turns the reports into disconnect packets, and between them sends the
  * clients' messages up, where it can block; the handlers use the fields of the clients, and call Close on the target
  * of a kick-out; and the proxy may take what was sent up. */
module ClientHub {
  import opened Streams
  import opened WireCommon
  import opened WireMessage
  import opened Registry
  import P = Pump
  import W = WsLifecycle

  /** offered: the clients whose connect was pushed.  onDisconnect has capacity 1.  listener: the message that
    * handleClientEvents is about to send up. */
  datatype Hub = Hub(
    pump: P.System,
    lives: map<Client, W.Life>,
    offered: set<Client>,
    onDisconnect: Option<Client>,
    listener: Option<RelayPacket>)

  datatype Step =
    | NewClient(c: Client)
    | LogStart(c: Client)
    | Register(c: Client)
    | Report(c: Client)
    | Listen
    | RelayIn(m: RelayPacket)
    | MessageIn(m: RelayPacket)
    | SendMessage
    | ProxyTakes
    | ProxyHandles
    | LifeMove(c: Client, move: W.Step)
    | PumpMove(act: P.Step)
    | ReadAttrs
    | Deliver
    | UseConn(ok: bool)
    | Finish
    | CloseReturns

  const INIT: Hub := Hub(P.INIT, map[], {}, None, None)

  /** The steps of a client's goroutines that concern nobody else.  A Push is called by the handler only, whose own
    * position stands for it. */
  predicate OwnLife(move: W.Step) {
    match move
    case Claim => true
    case Spawn => true
    case ReaderStops => true
    case ReaderSwaps => true
    case ReaderClosesConn => true
    case ReaderClearsConn => true
    case ReaderClearsAttrs => true
    case ReaderResets => true
    case CloserSwaps(_) => true
    case CloserWrites(_, _) => true
    case CloserClosesConn(_) => true
    case CloserResets(_) => true
    case _ => false
  }

  /** The steps of the pump that touch no client. */
  predicate OwnPump(act: P.Step) {
    match act
    case Accept(_) => true
    case TakeEnqueue => true
    case TakeNext => true
    case SendDequeue => true
    case TakeDequeue => true
    case Begin => true
    case Notify => true
    case Count => true
    case Acknowledge => true
    case _ => false
  }

  predicate LifeEnabled(h: Hub, c: Client, move: W.Step) {
    c in h.lives && W.Enabled(h.lives[c], move)
  }

  /** The client under the id of the i-th receiver. */
  predicate HasReceiver(h: Hub, m: RelayPacket, i: nat) {
    i < |m.receivers| && m.receivers[i] in h.pump.books.clients
  }

  function Receiver(h: Hub, m: RelayPacket, i: nat): Client
    requires HasReceiver(h, m, i)
  {
    h.pump.books.clients[m.receivers[i]]
  }

  /** The client that the handler is about to kick out. */
  function Target(h: Hub, target: KickTarget): Option<Client>
    requires P.Enabled(h.pump, P.Finish)
  {
    var s := P.Next(h.pump, P.Finish, target);
    if s.handler.ClosingClient? then Some(s.handler.client) else None
  }

  /** The name of the goroutine in its call of Close: each packet causes at most one. */
  function CloserOf(h: Hub): W.Tid {
    |h.pump.handled|
  }

  predicate Enabled(h: Hub, step: Step, target: KickTarget) {
    !h.pump.crashed &&
    match step
    case NewClient(c) => c !in h.lives
    case LogStart(c) => LifeEnabled(h, c, W.LogStart)
    case Register(c) =>
      && c in h.lives && h.lives[c].starter == W.StartReturned && c !in h.offered
      && P.Enabled(h.pump, P.Offer(P.Registrar(c), Connect(c)))
    case Report(c) => LifeEnabled(h, c, W.ReaderReports) && h.onDisconnect == None
    // handleClientEvents is one goroutine: it pushes, or sends a message, or waits for either
    case Listen =>
      && h.onDisconnect.Some? && h.listener == None
      && P.Enabled(h.pump, P.Offer(P.Listener, Disconnect(h.onDisconnect.value)))
    case RelayIn(m) => P.Enabled(h.pump, P.Offer(P.Relayer, Relay(m)))
    case MessageIn(_) => h.listener == None && P.Listener !in h.pump.pushers
    case SendMessage => h.listener.Some? && P.Enabled(h.pump, P.SendUp(h.listener.value))
    case ProxyTakes => P.Enabled(h.pump, P.ProxyTakes)
    case ProxyHandles => P.Enabled(h.pump, P.ProxyHandles)
    case LifeMove(c, move) => OwnLife(move) && LifeEnabled(h, c, move)
    case PumpMove(act) => OwnPump(act) && P.Enabled(h.pump, act)
    case ReadAttrs => h.pump.handler.Announcing? && h.pump.handler.client in h.lives
    case Deliver =>
      && P.Enabled(h.pump, P.Deliver(true))
      && (HasReceiver(h, h.pump.handler.message, h.pump.handler.i) ==>
            Receiver(h, h.pump.handler.message, h.pump.handler.i) in h.lives)
    case UseConn(_) =>
      && h.pump.handler.Writing?
      && HasReceiver(h, h.pump.handler.message, h.pump.handler.i)
      && Receiver(h, h.pump.handler.message, h.pump.handler.i) in h.lives
    case Finish =>
      && P.Enabled(h.pump, P.Finish)
      && (Target(h, target).Some? ==> LifeEnabled(h, Target(h, target).value, W.CloserArrives(CloserOf(h))))
    case CloseReturns =>
      && h.pump.handler.ClosingClient? && h.pump.handler.client in h.lives
      && W.CloserAt(h.lives[h.pump.handler.client], CloserOf(h), W.Returned)
  }

  /** What a step is for the pump. */
  function PumpPart(h: Hub, step: Step, target: KickTarget): (part: Option<P.Step>)
    requires Enabled(h, step, target)
    ensures part.Some? ==> P.Enabled(h.pump, part.value)
  {
    match step
    case LogStart(c) => if h.lives[c].hasAttrs then None else Some(P.ProcessDies)
    case Register(c) => Some(P.Offer(P.Registrar(c), Connect(c)))
    case Listen => Some(P.Offer(P.Listener, Disconnect(h.onDisconnect.value)))
    case RelayIn(m) => Some(P.Offer(P.Relayer, Relay(m)))
    case SendMessage => Some(P.SendUp(h.listener.value))
    case ProxyTakes => Some(P.ProxyTakes)
    case ProxyHandles => Some(P.ProxyHandles)
    case PumpMove(act) => Some(act)
    case ReadAttrs => Some(P.ReadAttrs(h.lives[h.pump.handler.client].hasAttrs))
    case Deliver =>
      var m, i := h.pump.handler.message, h.pump.handler.i;
      Some(P.Deliver(HasReceiver(h, m, i) && h.lives[Receiver(h, m, i)].state == W.Started))
    case UseConn(ok) =>
      Some(P.UseConn(h.lives[Receiver(h, h.pump.handler.message, h.pump.handler.i)].hasConn, ok))
    case Finish => Some(P.Finish)
    case CloseReturns => Some(P.CloseReturns)
    case _ => None
  }

  /** What a step is for the client that it concerns. */
  function LifePart(h: Hub, step: Step, target: KickTarget): (part: Option<(Client, W.Step)>)
    requires Enabled(h, step, target)
    ensures part.Some? ==> LifeEnabled(h, part.value.0, part.value.1)
  {
    match step
    case LogStart(c) => if h.lives[c].hasAttrs then Some((c, W.LogStart)) else None
    case Report(c) => Some((c, W.ReaderReports))
    case LifeMove(c, move) => Some((c, move))
    case Finish =>
      if Target(h, target).Some? then Some((Target(h, target).value, W.CloserArrives(CloserOf(h)))) else None
    case _ => None
  }

  function NextPump(h: Hub, step: Step, target: KickTarget): P.System
    requires Enabled(h, step, target)
  {
    match PumpPart(h, step, target)
    case Some(act) => P.Next(h.pump, act, target)
    case None => h.pump
  }

  function NextLives(h: Hub, step: Step, target: KickTarget): map<Client, W.Life>
    requires Enabled(h, step, target)
  {
    match LifePart(h, step, target)
    case Some((c, move)) => h.lives[c := W.Next(h.lives[c], move)]
    case None => if step.NewClient? then h.lives[step.c := W.INIT] else h.lives
  }

  function Next(h: Hub, step: Step, target: KickTarget): Hub
    requires Enabled(h, step, target)
  {
    Hub(NextPump(h, step, target),
        NextLives(h, step, target),
        if step.Register? then h.offered + {step.c} else h.offered,
        if step.Report? then Some(step.c) else if step.Listen? then None else h.onDisconnect,
        if step.MessageIn? then Some(step.m) else if step.SendMessage? then None else h.listener)
  }

  ghost predicate Reaches(h: Hub, steps: seq<Step>, end: Hub, target: KickTarget)
    decreases |steps|
  {
    if steps == [] then h == end
    else Enabled(h, steps[0], target) && Reaches(Next(h, steps[0], target), steps[1..], end, target)
  }

  ghost predicate Reachable(h: Hub, target: KickTarget) {
    exists steps :: Reaches(INIT, steps, h, target)
  }

  // ----- the invariant -----

  ghost predicate LivesInv(lives: map<Client, W.Life>) {
    forall c :: c in lives ==> W.Inv(lives[c])
  }

  /** What the three kinds of producers push, and of which clients. */
  predicate Posted(t: P.Pusher, p: Packet, lives: map<Client, W.Life>) {
    match t
    case Registrar(c) => p == Connect(c) && c in lives
    case Listener => p.Disconnect? && p.client in lives
    case Relayer => p.Relay?
  }

  predicate Known(p: Packet, lives: map<Client, W.Life>) {
    match p
    case Connect(c) => c in lives
    case Disconnect(c) => c in lives
    case Relay(_) => true
    case _ => false
  }

  ghost predicate PostInv(h: Hub) {
    && (forall t :: t in h.pump.pushers ==> Posted(t, h.pump.pushers[t], h.lives))
    && (forall i :: 0 <= i < |h.pump.accepted| ==> Known(h.pump.accepted[i], h.lives))
    && (h.onDisconnect.Some? ==> h.onDisconnect.value in h.lives)
  }

  /** The connect of a client is in one place, once it was pushed. */
  function Connects(h: Hub, c: Client): nat {
    multiset(h.pump.accepted)[Connect(c)] + P.One(P.Registrar(c) in h.pump.pushers)
  }

  /** The disconnect event of a client is in one place, once its reader sent it. */
  function Disconnects(h: Hub, c: Client): nat {
    multiset(h.pump.accepted)[Disconnect(c)] +
    P.One(P.Listener in h.pump.pushers && h.pump.pushers[P.Listener] == Disconnect(c)) +
    P.One(h.onDisconnect == Some(c))
  }

  ghost predicate MailInv(h: Hub) {
    forall c ::
      && Connects(h, c) == P.One(c in h.offered)
      && Disconnects(h, c) == (if c in h.lives then h.lives[c].events else 0)
      && (c in h.offered ==> c in h.lives && h.lives[c].starter == W.StartReturned)
  }

  /** Close is called on the clients that were kicked out, and on no others. */
  ghost predicate KickInv(h: Hub) {
    && (forall c :: Close(c) in h.pump.books.effects <==> c in h.lives && h.lives[c].closers != map[])
    && (forall c, t :: c in h.lives && t in h.lives[c].closers ==>
          && h.lives[c].starter == W.StartReturned
          && (t < CloserOf(h) || (t == CloserOf(h) && h.pump.handler.ClosingClient?))
          && (h.lives[c].closers[t] != W.CloserSwapping ==> h.lives[c].winner != None))
    && (h.pump.handler.ClosingClient? ==>
          h.pump.handler.client in h.lives && CloserOf(h) in h.lives[h.pump.handler.client].closers)
  }

  ghost predicate Inv(h: Hub, target: KickTarget) {
    P.Inv(h.pump, target) && LivesInv(h.lives) && PostInv(h) && MailInv(h) && KickInv(h)
  }

  // ----- what the parts of a step do -----

  lemma PumpFrame(s: P.System, act: P.Step, target: KickTarget)
    requires P.Enabled(s, act)
    ensures var s' := P.Next(s, act, target);
            match act
            case Offer(t, p) => s'.pushers == s.pushers[t := p] && s'.accepted == s.accepted
            case Accept(t) => s'.pushers == s.pushers - {t} && s'.accepted == s.accepted + [s.pushers[t]]
            case _ => s'.pushers == s.pushers && s'.accepted == s.accepted
  {
    hide Wrap32, Delivery;
  }

  /** No Close begins; and once Start has returned, a Close that is past its swap leaves a winner. */
  ghost predicate ClosersStay(l: W.Life, l': W.Life) {
    && l'.closers.Keys == l.closers.Keys
    && (l.starter == W.StartReturned ==>
          && l'.starter == W.StartReturned
          && forall t :: t in l.closers && (l.closers[t] != W.CloserSwapping ==> l.winner != None) ==>
               (l'.closers[t] != W.CloserSwapping ==> l'.winner != None))
  }

  lemma LifeFrame(l: W.Life, move: W.Step)
    requires W.Enabled(l, move) && W.Inv(l)
    ensures var l' := W.Next(l, move);
            && l'.events == l.events + P.One(move.ReaderReports?)
            && (l.starter == W.StartReturned ==> l'.starter == W.StartReturned)
            && (l.winner != None ==> l'.winner == l.winner)
            && (l'.hasAttrs ==> l.hasAttrs)
  {
  }

  lemma CloserFrame(l: W.Life, move: W.Step)
    requires W.Enabled(l, move) && W.Inv(l) && !move.CloserArrives?
    ensures ClosersStay(l, W.Next(l, move))
  {
    if !move.CloserSwaps? && !move.CloserWrites? && !move.CloserClosesConn? && !move.CloserResets? {
      assert W.Next(l, move).closers == l.closers;
    }
  }

  /** The effects grow by a Close exactly when the handler goes on to call it. */
  predicate Grown(s: P.System, act: P.Step, s': P.System) {
    && (if act.Finish? && s'.handler.ClosingClient? then
          s'.books.effects == s.books.effects + [Close(s'.handler.client)] && s'.handled == s.handled
        else
          && SameCloses(s.books.effects, s'.books.effects)
          && (s'.handler.ClosingClient? ==> s'.handler == s.handler && s'.handled == s.handled))
    && |s.handled| <= |s'.handled| <= |s.handled| + 1
    && (act.CloseReturns? ==> |s'.handled| == |s.handled| + 1)
    && (s.handler.ClosingClient? && !act.CloseReturns? ==> s'.handler == s.handler)
  }

  predicate SameCloses(es: seq<Effect>, es': seq<Effect>) {
    es' == es || (es < es' && |es'| == |es| + 1 && !es'[|es|].Close?)
  }

  lemma EffectsFrame(s: P.System, act: P.Step, target: KickTarget)
    requires P.Enabled(s, act)
    ensures Grown(s, act, P.Next(s, act, target))
  {
    match act
    case Begin => BeginFrame(s, s.handler.packet);
    case Deliver(_) => hide EncodeMessage;
    case Finish =>
    case _ => hide P.Begun, P.Delivered, P.Finished, Wrap32;
  }

  lemma BeginFrame(s: P.System, p: Packet)
    requires s.handler == P.Handling(p)
    ensures Grown(s, P.Begin, P.Begun(s, p))
  {
  }

  lemma SameClosesMeans(es: seq<Effect>, es': seq<Effect>)
    requires SameCloses(es, es')
    ensures forall c :: Close(c) in es' <==> Close(c) in es
  {
    if es' != es {
      assert es' == es + [es'[|es|]];
    }
  }

  // ----- every step keeps the invariant -----

  lemma LivesKept(h: Hub, step: Step, target: KickTarget)
    requires LivesInv(h.lives) && Enabled(h, step, target)
    ensures LivesInv(Next(h, step, target).lives)
  {
    assert W.Inv(W.INIT);
    var part := LifePart(h, step, target);
    if part.Some? {
      W.StepKeepsInv(h.lives[part.value.0], part.value.1);
    }
    hide Enabled, LifePart, W.Inv, W.Next;
  }

  lemma PostKept(h: Hub, step: Step, target: KickTarget)
    requires PostInv(h) && Enabled(h, step, target)
    ensures PostInv(Next(h, step, target))
  {
    hide Enabled, PumpPart, NextLives, P.Next, P.Enabled, Posted;
    LivesGrow(h, step, target);
    StillPosted(h, step, target);
    var act := PumpPart(h, step, target);
    if act.Some? {
      PumpFrame(h.pump, act.value, target);
      if act.value.Offer? {
        WhatIsPosted(h, step, target);
      } else if act.value.Accept? {
        WhatIsAccepted(h.pump, act.value.waiter, h.lives);
      }
    }
  }

  lemma LivesGrow(h: Hub, step: Step, target: KickTarget)
    requires Enabled(h, step, target)
    ensures h.lives.Keys <= NextLives(h, step, target).Keys
    ensures step.Report? ==> step.c in h.lives
  {
    hide P.Enabled, W.Enabled, W.Next, Target;
  }

  lemma StillPosted(h: Hub, step: Step, target: KickTarget)
    requires PostInv(h) && Enabled(h, step, target)
    requires h.lives.Keys <= NextLives(h, step, target).Keys
    ensures forall t :: t in h.pump.pushers ==> Posted(t, h.pump.pushers[t], NextLives(h, step, target))
  {
    hide Enabled, NextLives;
  }

  lemma WhatIsPosted(h: Hub, step: Step, target: KickTarget)
    requires PostInv(h) && Enabled(h, step, target)
    requires PumpPart(h, step, target).Some? && PumpPart(h, step, target).value.Offer?
    ensures var act := PumpPart(h, step, target).value;
            Posted(act.pusher, act.packet, NextLives(h, step, target))
  {
    hide P.Enabled, W.Enabled, W.Next, Target;
  }

  lemma WhatIsAccepted(s: P.System, t: P.Pusher, lives: map<Client, W.Life>)
    requires P.Enabled(s, P.Accept(t))
    requires forall u :: u in s.pushers ==> Posted(u, s.pushers[u], lives)
    ensures t in s.pushers && Known(s.pushers[t], lives)
  {
  }

  /** Nothing moves in the mail. */
  predicate SameMail(h: Hub, h': Hub) {
    && h'.pump.accepted == h.pump.accepted && h'.pump.pushers == h.pump.pushers
    && h'.offered == h.offered && h'.onDisconnect == h.onDisconnect
  }

  /** The clients live on, none of them reporting. */
  ghost predicate QuietLives(h: Hub, h': Hub) {
    && h'.lives.Keys == h.lives.Keys
    && forall c :: c in h.lives ==>
         && h'.lives[c].events == h.lives[c].events
         && (h.lives[c].starter == W.StartReturned ==> h'.lives[c].starter == W.StartReturned)
  }

  predicate MovesMail(step: Step) {
    step.NewClient? || step.Register? || step.Report? || step.Listen? || step.RelayIn? ||
    (step.PumpMove? && step.act.Accept?)
  }

  lemma OnlyMailPosts(h: Hub, step: Step, target: KickTarget)
    requires Enabled(h, step, target) && !MovesMail(step)
    ensures var act, part := PumpPart(h, step, target), LifePart(h, step, target);
            && (act.Some? ==> !act.value.Offer? && !act.value.Accept?)
            && (part.Some? ==> !part.value.1.ReaderReports?)
  {
    hide P.Enabled, W.Enabled, Target;
  }

  lemma OthersMoveNoMail(h: Hub, step: Step, target: KickTarget)
    requires Enabled(h, step, target) && !MovesMail(step) && LivesInv(h.lives)
    ensures SameMail(h, Next(h, step, target)) && QuietLives(h, Next(h, step, target))
  {
    hide Enabled, PumpPart, LifePart, NextPump, NextLives, SameMail, QuietLives;
    PumpMovesNoMail(h, step, target);
    LivesMoveNoMail(h, step, target);
  }

  lemma PumpMovesNoMail(h: Hub, step: Step, target: KickTarget)
    requires Enabled(h, step, target) && !MovesMail(step)
    ensures SameMail(h, Next(h, step, target))
  {
    hide Enabled, PumpPart, NextLives, P.Next, P.Enabled;
    OnlyMailPosts(h, step, target);
    var act := PumpPart(h, step, target);
    if act.Some? {
      PumpFrame(h.pump, act.value, target);
    }
  }

  lemma LivesMoveNoMail(h: Hub, step: Step, target: KickTarget)
    requires Enabled(h, step, target) && !MovesMail(step) && LivesInv(h.lives)
    ensures QuietLives(h, Next(h, step, target))
  {
    hide Enabled, LifePart, NextPump, W.Next, W.Enabled, W.Inv;
    OnlyMailPosts(h, step, target);
    var part := LifePart(h, step, target);
    if part.Some? {
      LifeFrame(h.lives[part.value.0], part.value.1);
    }
  }

  lemma MailStays(h: Hub, h': Hub)
    requires MailInv(h) && SameMail(h, h') && QuietLives(h, h')
    ensures MailInv(h')
  {
  }

  lemma NewClientKeepsMail(h: Hub, c: Client, target: KickTarget)
    requires MailInv(h) && Enabled(h, NewClient(c), target)
    ensures MailInv(Next(h, NewClient(c), target))
  {
  }

  lemma RegisterKeepsMail(h: Hub, c: Client, target: KickTarget)
    requires MailInv(h) && Enabled(h, Register(c), target)
    ensures MailInv(Next(h, Register(c), target))
  {
  }

  lemma ReportKeepsMail(h: Hub, c: Client, target: KickTarget)
    requires MailInv(h) && LivesInv(h.lives) && Enabled(h, Report(c), target)
    ensures MailInv(Next(h, Report(c), target))
  {
    hide W.Inv, W.Next, W.Enabled, P.Next, P.Enabled;
    LifeFrame(h.lives[c], W.ReaderReports);
  }

  lemma ListenKeepsMail(h: Hub, target: KickTarget)
    requires MailInv(h) && Enabled(h, Listen, target)
    ensures MailInv(Next(h, Listen, target))
  {
  }

  lemma RelayInKeepsMail(h: Hub, m: RelayPacket, target: KickTarget)
    requires MailInv(h) && Enabled(h, RelayIn(m), target)
    ensures MailInv(Next(h, RelayIn(m), target))
  {
  }

  lemma AcceptKeepsMail(h: Hub, t: P.Pusher, target: KickTarget)
    requires MailInv(h) && PostInv(h) && Enabled(h, PumpMove(P.Accept(t)), target)
    ensures MailInv(Next(h, PumpMove(P.Accept(t)), target))
  {
    hide MailInv, PostInv, P.Next;
    assert P.Enabled(h.pump, P.Accept(t)) && t in h.pump.pushers;
    PumpFrame(h.pump, P.Accept(t), target);
    QueuedMailKept(h, Next(h, PumpMove(P.Accept(t)), target), t);
  }

  /** What t has pushed is now in the queue. */
  lemma QueuedMailKept(h: Hub, h': Hub, t: P.Pusher)
    requires MailInv(h) && PostInv(h) && t in h.pump.pushers
    requires h'.pump.pushers == h.pump.pushers - {t}
    requires h'.pump.accepted == h.pump.accepted + [h.pump.pushers[t]]
    requires h'.lives == h.lives && h'.offered == h.offered && h'.onDisconnect == h.onDisconnect
    ensures MailInv(h')
  {
    var p := h.pump.pushers[t];
    assert multiset(h.pump.accepted + [p]) == multiset(h.pump.accepted) + multiset{p};
    assert Posted(t, p, h.lives);
    forall c
      ensures Connects(h', c) == Connects(h, c)
      ensures Disconnects(h', c) == Disconnects(h, c)
    {
    }
  }

  lemma MailKept(h: Hub, step: Step, target: KickTarget)
    requires MailInv(h) && PostInv(h) && LivesInv(h.lives) && Enabled(h, step, target)
    ensures MailInv(Next(h, step, target))
  {
    hide MailInv, PostInv, LivesInv, Enabled, Next;
    if !MovesMail(step) {
      OthersMoveNoMail(h, step, target);
      MailStays(h, Next(h, step, target));
    } else if step.NewClient? {
      NewClientKeepsMail(h, step.c, target);
    } else if step.Register? {
      RegisterKeepsMail(h, step.c, target);
    } else if step.Report? {
      ReportKeepsMail(h, step.c, target);
    } else if step.Listen? {
      ListenKeepsMail(h, target);
    } else if step.RelayIn? {
      RelayInKeepsMail(h, step.m, target);
    } else {
      AcceptKeepsMail(h, step.act.waiter, target);
    }
  }

  // ----- who is in the map -----

  /** While a message is delivered, the clients in the map are clients that have pushed their connect. */
  lemma RegisteredWereOffered(h: Hub, target: KickTarget, id: Ksuid)
    requires P.Inv(h.pump, target) && MailInv(h)
    requires h.pump.handler.Delivering? || h.pump.handler.Writing?
    requires id in h.pump.books.clients
    ensures h.pump.books.clients[id] in h.offered
  {
    var ps := h.pump.handled;
    assert h.pump.books.clients == Fold(ps, target).clients;
    P.InAccepted(h.pump);
    RegisteredIff(ps, target, id);
    hide P.Inv;
    var i: nat :| LastWord(ps, target, i, id);
    var c := ps[i].client;
    assert h.pump.accepted[i] == Connect(c);
    assert multiset(h.pump.accepted)[Connect(c)] > 0;
    assert Connects(h, c) > 0;
  }

  // ----- kick-outs -----

  lemma TargetWasOffered(h: Hub, target: KickTarget)
    requires P.Inv(h.pump, target) && MailInv(h)
    requires P.Enabled(h.pump, P.Finish) && Target(h, target).Some?
    ensures Target(h, target).value in h.offered
  {
    hide P.Inv, P.Next, Target, MailInv;
    TargetIsNamed(h, target);
    RegisteredWereOffered(h, target, Named(h.pump.handler.message, target));
  }

  lemma TargetIsNamed(h: Hub, target: KickTarget)
    requires P.Enabled(h.pump, P.Finish) && Target(h, target).Some?
    ensures var id := Named(h.pump.handler.message, target);
            id in h.pump.books.clients && Target(h, target).value == h.pump.books.clients[id]
  {
  }

  /** The handler goes on to call Close on c. */
  ghost predicate KickStarts(h: Hub, h': Hub, c: Client) {
    && c in h.lives
    && h'.lives == h.lives[c := h.lives[c].(closers := h.lives[c].closers[CloserOf(h) := W.CloserSwapping])]
    && h'.pump.books.effects == h.pump.books.effects + [Close(c)] && h'.pump.handled == h.pump.handled
    && !h.pump.handler.ClosingClient? && h'.pump.handler.ClosingClient? && h'.pump.handler.client == c
  }

  lemma KickStartKeepsKicks(h: Hub, h': Hub, c: Client)
    requires KickInv(h) && c in h.lives && KickStarts(h, h', c)
    requires h.lives[c].starter == W.StartReturned
    ensures KickInv(h')
  {
    assert CloserOf(h) in h'.lives[c].closers;
  }

  lemma FinishParts(h: Hub, target: KickTarget)
    requires Enabled(h, Finish, target) && Target(h, target).Some?
    ensures var c, h' := Target(h, target).value, Next(h, Finish, target);
            && c in h.lives
            && h'.lives == h.lives[c := h.lives[c].(closers := h.lives[c].closers[CloserOf(h) := W.CloserSwapping])]
            && h'.pump == P.Next(h.pump, P.Finish, target)
            && h'.pump.handler.ClosingClient? && h'.pump.handler.client == c
    ensures P.Enabled(h.pump, P.Finish) && !h.pump.handler.ClosingClient?
  {
    hide P.Next;
  }

  lemma FinishKeepsKicks(h: Hub, target: KickTarget)
    requires P.Inv(h.pump, target) && MailInv(h) && KickInv(h) && Enabled(h, Finish, target)
    requires P.Enabled(h.pump, P.Finish) && Target(h, target).Some?
    ensures KickInv(Next(h, Finish, target))
  {
    hide P.Inv, KickInv, P.Next, P.Enabled, Enabled, Next, Target;
    FinishParts(h, target);
    TargetWasOffered(h, target);
    EffectsFrame(h.pump, P.Finish, target);
    KickStartKeepsKicks(h, Next(h, Finish, target), Target(h, target).value);
  }

  /** The clients live on, and Close is called on none of them. */
  ghost predicate NoNewClosers(lives: map<Client, W.Life>, lives': map<Client, W.Life>) {
    && lives.Keys <= lives'.Keys
    && (forall c :: c in lives' && c !in lives ==> lives'[c].closers == map[])
    && (forall c :: c in lives ==> ClosersStay(lives[c], lives'[c]))
  }

  lemma NobodyMoves(lives: map<Client, W.Life>)
    ensures NoNewClosers(lives, lives)
  {
  }

  lemma OneMoves(lives: map<Client, W.Life>, c: Client, move: W.Step)
    requires c in lives && W.Enabled(lives[c], move) && W.Inv(lives[c]) && !move.CloserArrives?
    ensures NoNewClosers(lives, lives[c := W.Next(lives[c], move)])
  {
    NobodyMoves(lives);
    hide W.Inv, W.Next, W.Enabled;
    CloserFrame(lives[c], move);
  }

  lemma OneJoins(lives: map<Client, W.Life>, c: Client)
    requires c !in lives
    ensures NoNewClosers(lives, lives[c := W.INIT])
  {
    NobodyMoves(lives);
  }

  lemma OnlyFinishCloses(h: Hub, step: Step, target: KickTarget)
    requires Enabled(h, step, target)
    requires step.Finish? ==> P.Enabled(h.pump, P.Finish) && Target(h, target) == None
    ensures var part := LifePart(h, step, target);
            part.Some? ==> !part.value.1.CloserArrives?
    ensures var act := PumpPart(h, step, target);
            && (act == Some(P.Finish) ==> !P.Next(h.pump, P.Finish, target).handler.ClosingClient?)
            && (act == Some(P.CloseReturns) <==> step.CloseReturns?)
    ensures step.NewClient? ==> step.c !in h.lives
  {
    hide P.Enabled, W.Enabled, P.Next;
  }

  lemma OthersCloseNothing(h: Hub, step: Step, target: KickTarget)
    requires Enabled(h, step, target) && LivesInv(h.lives)
    requires step.Finish? ==> P.Enabled(h.pump, P.Finish) && Target(h, target) == None
    ensures NoNewClosers(h.lives, Next(h, step, target).lives)
  {
    hide NoNewClosers, LifePart, Enabled, W.Next, W.Enabled, W.Inv, Target, NextPump;
    OnlyFinishCloses(h, step, target);
    NobodyMoves(h.lives);
    var part := LifePart(h, step, target);
    if part.Some? {
      OneMoves(h.lives, part.value.0, part.value.1);
    } else if step.NewClient? {
      OneJoins(h.lives, step.c);
    }
  }

  ghost predicate NoNewKicks(h: Hub, h': Hub) {
    && (forall c :: Close(c) in h'.pump.books.effects <==> Close(c) in h.pump.books.effects)
    && (h'.pump.handler.ClosingClient? ==> h'.pump.handler == h.pump.handler && h'.pump.handled == h.pump.handled)
    && CloserOf(h') >= CloserOf(h) + P.One(h.pump.handler.ClosingClient? && !h'.pump.handler.ClosingClient?)
  }

  lemma KicksStay(h: Hub, h': Hub)
    requires KickInv(h) && NoNewClosers(h.lives, h'.lives) && NoNewKicks(h, h')
    ensures KickInv(h')
  {
    forall c ensures Close(c) in h'.pump.books.effects <==> c in h'.lives && h'.lives[c].closers != map[] {
      if c in h.lives {
        assert h.lives[c].closers == map[] <==> h.lives[c].closers.Keys == {};
        assert h'.lives[c].closers == map[] <==> h'.lives[c].closers.Keys == {};
      }
    }
  }

  lemma OthersKickNobody(h: Hub, step: Step, target: KickTarget)
    requires Enabled(h, step, target)
    requires step.Finish? ==> P.Enabled(h.pump, P.Finish) && Target(h, target) == None
    ensures NoNewKicks(h, Next(h, step, target))
  {
    hide PumpPart, NextLives, Enabled, P.Next, P.Enabled, Target;
    OnlyFinishCloses(h, step, target);
    var act, s' := PumpPart(h, step, target), NextPump(h, step, target);
    if act.Some? {
      EffectsFrame(h.pump, act.value, target);
    }
    SameClosesMeans(h.pump.books.effects, s'.books.effects);
  }

  lemma FinishEnabled(h: Hub, step: Step, target: KickTarget)
    requires Enabled(h, step, target)
    ensures step.Finish? ==> P.Enabled(h.pump, P.Finish)
  {
  }

  lemma KicksKept(h: Hub, step: Step, target: KickTarget)
    requires Inv(h, target) && Enabled(h, step, target)
    ensures KickInv(Next(h, step, target))
  {
    FinishEnabled(h, step, target);
    hide LivesInv, KickInv, MailInv, PostInv, P.Inv, P.Enabled, Enabled, Next, Target;
    if step.Finish? && Target(h, target).Some? {
      FinishKeepsKicks(h, target);
    } else {
      OthersCloseNothing(h, step, target);
      OthersKickNobody(h, step, target);
      KicksStay(h, Next(h, step, target));
    }
  }

  lemma StepKeepsInv(h: Hub, step: Step, target: KickTarget)
    requires Inv(h, target) && Enabled(h, step, target)
    ensures Inv(Next(h, step, target), target)
  {
    hide LivesInv, KickInv, MailInv, PostInv, P.Inv, Enabled, PumpPart, NextLives, P.Next;
    LivesKept(h, step, target);
    PostKept(h, step, target);
    MailKept(h, step, target);
    KicksKept(h, step, target);
    var act := PumpPart(h, step, target);
    if act.Some? {
      P.StepKeepsInv(h.pump, act.value, target);
    }
  }

  lemma {:induction false} ReachesKeepsInv(h: Hub, steps: seq<Step>, end: Hub, target: KickTarget)
    requires Inv(h, target) && Reaches(h, steps, end, target)
    ensures Inv(end, target)
    decreases |steps|
  {
    if steps != [] {
      hide Inv, Next;
      StepKeepsInv(h, steps[0], target);
      ReachesKeepsInv(Next(h, steps[0], target), steps[1..], end, target);
    }
  }

  lemma InitInv(target: KickTarget)
    ensures Inv(INIT, target)
  {
    assert MailInv(INIT);
  }

  lemma ReachableInv(h: Hub, target: KickTarget)
    requires Reachable(h, target)
    ensures Inv(h, target)
  {
    InitInv(target);
    var steps :| Reaches(INIT, steps, h, target);
    ReachesKeepsInv(INIT, steps, h, target);
  }
}

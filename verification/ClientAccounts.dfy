/** What the step system of ClientHub comes to: when the process ends, that it comes to rest otherwise, and who is
  * then in the map of clients. */
module ClientAccounts {
  import opened Streams
  import opened Totals
  import opened WireCommon
  import opened WireMessage
  import opened Registry
  import opened ClientHub
  import P = Pump
  import W = WsLifecycle

  // ----- what holds in every reachable state -----

  /** Every client comes through the queue at most once as a connect, and at most once as a disconnect; and that only
    * when its reader won its connection. */
  lemma OneOfEach(h: Hub, target: KickTarget, c: Client)
    requires Reachable(h, target)
    ensures multiset(h.pump.accepted)[Connect(c)] <= 1 && multiset(h.pump.accepted)[Disconnect(c)] <= 1
    ensures Disconnect(c) in h.pump.accepted ==> c in h.lives && h.lives[c].winner == Some(W.ByReader)
    ensures Connect(c) in h.pump.accepted ==> c in h.lives && h.lives[c].starter == W.StartReturned
  {
    ReachableInv(h, target);
    hide P.Inv;
    assert Connects(h, c) <= 1;
    assert Disconnects(h, c) <= 1;
  }

  /** Somebody uses a field that clean has set to nil: Start logs, or the connect handler reads, the Attrs of a client
    * whose reader won and has cleaned up, or a Push uses such a client's conn. */
  predicate UsesCleared(h: Hub, step: Step, target: KickTarget)
    requires Enabled(h, step, target)
  {
    match step
    case LogStart(c) => W.AttrsCleared(h.lives[c])
    case ReadAttrs => W.AttrsCleared(h.lives[h.pump.handler.client])
    case UseConn(_) => W.ConnCleared(h.lives[Receiver(h, h.pump.handler.message, h.pump.handler.i)])
    case _ => false
  }

  /** The proxy reads the header of the message in an empty packet. */
  predicate ReadsEmpty(h: Hub, step: Step) {
    step.ProxyHandles? && h.pump.proxy == Some(Empty)
  }

  /** The handler meets a kick-out that it cannot unmarshal. */
  predicate MeetsBadKick(h: Hub, step: Step, target: KickTarget) {
    step.Finish? && P.AtBadKick(h.pump, target)
  }

  /** These are exactly the steps that end the process. */
  lemma CrashesIff(h: Hub, step: Step, target: KickTarget)
    requires Reachable(h, target) && Enabled(h, step, target)
    ensures Next(h, step, target).pump.crashed <==>
            UsesCleared(h, step, target) || MeetsBadKick(h, step, target) || ReadsEmpty(h, step)
  {
    ReachableInv(h, target);
    StepCrashesIff(h, step, target);
  }

  lemma StepCrashesIff(h: Hub, step: Step, target: KickTarget)
    requires LivesInv(h.lives) && Enabled(h, step, target)
    ensures Next(h, step, target).pump.crashed <==>
            UsesCleared(h, step, target) || MeetsBadKick(h, step, target) || ReadsEmpty(h, step)
  {
    hide LivesInv, PumpPart, Enabled, NextLives, UsesCleared, MeetsBadKick, ReadsEmpty, P.Next, P.Enabled,
      P.AtBadKick;
    LivesClear(h);
    var act := PumpPart(h, step, target);
    if act.Some? {
      PumpCrashes(h.pump, act.value, target);
    }
    if !step.LogStart? && !step.ReadAttrs? && !step.UseConn? {
      OthersFindValues(h, step, target);
    } else {
      UsersFind(h, step, target);
    }
  }

  lemma OthersFindValues(h: Hub, step: Step, target: KickTarget)
    requires Enabled(h, step, target) && !step.LogStart? && !step.ReadAttrs? && !step.UseConn?
    ensures var act := PumpPart(h, step, target);
            && (act.Some? ==> !act.value.ProcessDies? && !act.value.ReadAttrs? && !act.value.UseConn?)
            && (ReadsEmpty(h, step) <==> act == Some(P.ProxyHandles) && h.pump.proxy == Some(Empty))
            && (MeetsBadKick(h, step, target) <==> act == Some(P.Finish) && P.AtBadKick(h.pump, target))
    ensures !UsesCleared(h, step, target) && !h.pump.crashed
  {
    hide P.Enabled, W.Enabled, Target;
  }

  lemma UsersFind(h: Hub, step: Step, target: KickTarget)
    requires Enabled(h, step, target) && (step.LogStart? || step.ReadAttrs? || step.UseConn?)
    requires forall c :: c in h.lives ==>
               && (h.lives[c].hasAttrs <==> !W.AttrsCleared(h.lives[c]))
               && (h.lives[c].hasConn <==> !W.ConnCleared(h.lives[c]))
    ensures var act := PumpPart(h, step, target);
            && (act.Some? ==> !act.value.ProxyHandles? && !act.value.Finish?)
            && (UsesCleared(h, step, target) <==>
                  act.Some? && (act.value.ProcessDies? || (act.value.ReadAttrs? && !act.value.found) ||
                                (act.value.UseConn? && !act.value.found)))
    ensures !h.pump.crashed && !ReadsEmpty(h, step) && !MeetsBadKick(h, step, target)
  {
    hide P.Enabled, W.Enabled, W.AttrsCleared, W.ConnCleared, Target;
  }

  lemma LivesClear(h: Hub)
    requires LivesInv(h.lives)
    ensures forall c :: c in h.lives ==>
              && (h.lives[c].hasAttrs <==> !W.AttrsCleared(h.lives[c]))
              && (h.lives[c].hasConn <==> !W.ConnCleared(h.lives[c]))
  {
    forall c | c in h.lives
      ensures h.lives[c].hasAttrs <==> !W.AttrsCleared(h.lives[c])
      ensures h.lives[c].hasConn <==> !W.ConnCleared(h.lives[c])
    {
      assert W.Inv(h.lives[c]);
    }
  }

  lemma PumpCrashes(s: P.System, act: P.Step, target: KickTarget)
    requires P.Enabled(s, act)
    ensures P.Next(s, act, target).crashed <==>
            || act.ProcessDies? || (act.ReadAttrs? && !act.found) || (act.UseConn? && !act.found)
            || (act.ProxyHandles? && s.proxy == Some(Empty)) || (act.Finish? && P.AtBadKick(s, target))
  {
    hide Wrap32, Delivery;
  }

  /** The Push for a registered receiver goes on to use that client's connection exactly when the client is Started at
    * that moment; and the handler goes on with the next receiver otherwise. */
  lemma PushFollowsState(h: Hub, target: KickTarget)
    requires Enabled(h, Deliver, target)
    requires HasReceiver(h, h.pump.handler.message, h.pump.handler.i)
    ensures var before, after := h.pump.handler, Next(h, Deliver, target).pump.handler;
            if h.lives[Receiver(h, before.message, before.i)].state == W.Started
            then after.Writing? && after.message == before.message && after.i == before.i && !after.deadline
            else after.Delivering? && after.message == before.message && after.i == before.i + 1
  {
    hide Delivery;
  }

  predicate FindsNil(h: Hub, step: Step, target: KickTarget)
    requires Enabled(h, step, target)
  {
    UsesCleared(h, step, target) || MeetsBadKick(h, step, target)
  }

  /** In some step of the run a goroutine of the gateway finds nil: in a cleared field, or for a kick-out. */
  ghost predicate RunFindsNil(h: Hub, steps: seq<Step>, target: KickTarget)
    decreases |steps|
  {
    steps != [] && Enabled(h, steps[0], target) &&
    (FindsNil(h, steps[0], target) || RunFindsNil(Next(h, steps[0], target), steps[1..], target))
  }

  lemma {:induction false} EndOfRun(h: Hub, steps: seq<Step>, end: Hub, target: KickTarget)
    requires Inv(h, target) && !h.pump.crashed && Reaches(h, steps, end, target)
    ensures RunFindsNil(h, steps, target) ==> end.pump.crashed
    ensures end.pump.crashed ==> RunFindsNil(h, steps, target) || SendEmpty in end.pump.books.effects
    decreases |steps|
  {
    if steps != [] {
      hide Inv, Enabled, Next, FindsNil;
      var h' := Next(h, steps[0], target);
      StepKeepsInv(h, steps[0], target);
      CrashIsLast(h, steps[0], target);
      if h'.pump.crashed {
        DeadEnd(h', steps[1..], end, target);
      } else {
        EndOfRun(h', steps[1..], end, target);
      }
    }
  }

  lemma CrashIsLast(h: Hub, step: Step, target: KickTarget)
    requires Inv(h, target) && !h.pump.crashed && Enabled(h, step, target)
    ensures FindsNil(h, step, target) ==> Next(h, step, target).pump.crashed
    ensures Next(h, step, target).pump.crashed ==>
              FindsNil(h, step, target) || SendEmpty in Next(h, step, target).pump.books.effects
  {
    hide UsesCleared, MeetsBadKick, P.TokenInv, P.InOrder, P.Halfway, LivesInv, PostInv, MailInv, KickInv;
    StepCrashesIff(h, step, target);
    if ReadsEmpty(h, step) {
      assert multiset(h.pump.books.effects)[SendEmpty] > 0;
    }
  }

  lemma DeadEnd(h: Hub, steps: seq<Step>, end: Hub, target: KickTarget)
    requires h.pump.crashed && Reaches(h, steps, end, target)
    ensures end == h && !RunFindsNil(h, steps, target)
  {
  }

  /** The law of survival: when the proxy has dealt with all that was sent up, the process has ended if and only if a
    * cleared field was used, a kick-out could not be unmarshalled, or a notice was sent. */
  lemma SurvivalLaw(steps: seq<Step>, h: Hub, target: KickTarget)
    requires Reaches(INIT, steps, h, target)
    requires h.pump.crashed || (h.pump.up == [] && h.pump.proxy == None)
    ensures h.pump.crashed <==> RunFindsNil(INIT, steps, target) || SendEmpty in h.pump.books.effects
  {
    assert Reachable(h, target);
    ReachableInv(h, target);
    InitInv(target);
    EndOfRun(INIT, steps, h, target);
    hide RunFindsNil, Reaches, P.TokenInv, P.InOrder, P.Halfway, LivesInv, PostInv, MailInv, KickInv;
    assert !h.pump.crashed ==> multiset(h.pump.books.effects)[SendEmpty] == 0;
  }

  /** What sends notices: exactly the connects that get past their reads of the Attrs, the disconnects of registered
    * clients, and the absent receivers. */
  lemma NoticesSentIff(h: Hub, target: KickTarget)
    requires Reachable(h, target)
    ensures SendEmpty in h.pump.books.effects <==>
            || (exists i :: 0 <= i < |h.pump.handled| && SendsAt(h.pump.handled, target, i))
            || P.HasSent(Fold(h.pump.handled, target), h.pump.handler)
  {
    hide P.Inv, P.HasSent, Fold, SendsAt;
    ReachableInv(h, target);
    P.NoticesSentInv(h.pump, target);
  }

  // ----- a connect whose client has cleaned up -----

  /** The client has cleaned up, and the connect handler is not yet past its reads of the Attrs. */
  predicate Doomed(h: Hub, c: Client) {
    && c in h.lives && !h.lives[c].hasAttrs
    && Unannounced(h.pump, c)
  }

  predicate Unannounced(s: P.System, c: Client) {
    Connect(c) !in s.handled && s.handler != P.Notifying(true, c) && s.handler != P.Counting(true, c)
  }

  lemma StaysUnannounced(s: P.System, act: P.Step, target: KickTarget, c: Client)
    requires P.Enabled(s, act) && Unannounced(s, c)
    requires act == P.ReadAttrs(true) ==> s.handler.client != c
    ensures Unannounced(P.Next(s, act, target), c)
  {
    hide Wrap32, Delivery;
  }

  lemma StaysDoomed(h: Hub, step: Step, target: KickTarget, c: Client)
    requires LivesInv(h.lives) && Enabled(h, step, target) && Doomed(h, c)
    ensures Doomed(Next(h, step, target), c)
  {
    hide P.Next, P.Enabled, W.Next, W.Enabled, W.Inv, Unannounced, Target;
    var act, part := PumpPart(h, step, target), LifePart(h, step, target);
    if act.Some? {
      StaysUnannounced(h.pump, act.value, target, c);
    }
    if part.Some? {
      LifeFrame(h.lives[part.value.0], part.value.1);
    }
  }

  lemma {:induction false} DoomedForGood(h: Hub, steps: seq<Step>, end: Hub, target: KickTarget, c: Client)
    requires Inv(h, target) && Doomed(h, c) && Reaches(h, steps, end, target)
    ensures Doomed(end, c)
    decreases |steps|
  {
    if steps != [] {
      StaysDoomed(h, steps[0], target, c);
      StepKeepsInv(h, steps[0], target);
      hide Inv, Next, Doomed;
      DoomedForGood(Next(h, steps[0], target), steps[1..], end, target, c);
    }
  }

  // ----- at rest -----

  /** What comes from outside: a new connection, a message from a logic server or a client, the loss of a connection. */
  predicate External(step: Step) {
    step.NewClient? || step.RelayIn? || step.MessageIn? || (step.LifeMove? && step.move.ReaderStops?)
  }

  /** A step of the proxy, which may not be running. */
  predicate OfProxy(step: Step) {
    step.ProxyTakes? || step.ProxyHandles?
  }

  /** The gateway and its clients can do nothing by themselves. */
  ghost predicate Quiet(h: Hub, target: KickTarget) {
    forall step :: Enabled(h, step, target) ==> External(step) || OfProxy(step)
  }

  predicate Inner(step: Step) {
    !External(step) && !OfProxy(step)
  }

  /** The channel of the proxy is not full. */
  predicate Room(h: Hub) {
    P.Room(h.pump)
  }

  predicate ClosersThrough(h: Hub) {
    forall c, t :: c in h.lives && t in h.lives[c].closers ==> h.lives[c].closers[t] == W.Returned
  }

  lemma CloserCanMove(h: Hub, target: KickTarget, c: Client, t: W.Tid) returns (step: Step)
    requires !h.pump.crashed && c in h.lives && t in h.lives[c].closers && h.lives[c].closers[t] != W.Returned
    ensures Enabled(h, step, target) && Inner(step)
  {
    match h.lives[c].closers[t] {
      case CloserSwapping => step := LifeMove(c, W.CloserSwaps(t));
      case WritingClose => step := LifeMove(c, W.CloserWrites(t, true));
      case CloserClosingConn => step := LifeMove(c, W.CloserClosesConn(t));
      case CloserResetting => step := LifeMove(c, W.CloserResets(t));
    }
  }

  lemma ClosersAtRest(h: Hub, target: KickTarget)
    requires Quiet(h, target) && !h.pump.crashed
    ensures ClosersThrough(h)
  {
    forall c, t | c in h.lives && t in h.lives[c].closers ensures h.lives[c].closers[t] == W.Returned {
      if h.lives[c].closers[t] != W.Returned {
        var step := CloserCanMove(h, target, c, t);
      }
    }
  }

  /** The handler's use of a client finds that client. */
  lemma HandlerKnowsClients(h: Hub, target: KickTarget)
    requires Inv(h, target)
    ensures h.pump.handler.Announcing? ==> h.pump.handler.client in h.lives
    ensures h.pump.handler.Writing? ==> HasReceiver(h, h.pump.handler.message, h.pump.handler.i)
    ensures (h.pump.handler.Delivering? || h.pump.handler.Writing?) &&
            HasReceiver(h, h.pump.handler.message, h.pump.handler.i) ==>
              Receiver(h, h.pump.handler.message, h.pump.handler.i) in h.lives
  {
    P.InAccepted(h.pump);
    if h.pump.handler.Announcing? {
      assert Known(h.pump.accepted[|h.pump.handled|], h.lives);
    } else if h.pump.handler.Delivering? || h.pump.handler.Writing? {
      var m, i := h.pump.handler.message, h.pump.handler.i;
      if HasReceiver(h, m, i) {
        RegisteredWereOffered(h, target, m.receivers[i]);
      }
    }
  }

  lemma HandlerCanFinish(h: Hub, target: KickTarget)
    requires Inv(h, target) && P.Enabled(h.pump, P.Finish)
    ensures Enabled(h, Finish, target)
  {
    hide P.Inv, P.Next, LivesInv, PostInv, MailInv, KickInv, Target;
    assert h.pump.handler.Delivering? && !h.pump.crashed;
    if Target(h, target).Some? {
      TargetWasOffered(h, target);
      FreshCloser(h, Target(h, target).value);
    }
  }

  lemma FreshCloser(h: Hub, c: Client)
    requires MailInv(h) && KickInv(h) && c in h.offered && h.pump.handler.Delivering?
    ensures LifeEnabled(h, c, W.CloserArrives(CloserOf(h)))
  {
  }

  /** The handler's other steps that concern a client. */
  lemma HandlerCanMove(h: Hub, target: KickTarget, act: P.Step) returns (step: Step)
    requires Inv(h, target) && P.Enabled(h.pump, act) && (act.ReadAttrs? || act.Deliver? || act.UseConn?)
    ensures Enabled(h, step, target) && Inner(step)
  {
    hide P.Inv, P.Next, LivesInv, PostInv, MailInv, KickInv, Target;
    HandlerKnowsClients(h, target);
    step := if act.ReadAttrs? then ReadAttrs else if act.Deliver? then Deliver else UseConn(true);
  }

  lemma CloseCanReturn(h: Hub, target: KickTarget)
    requires KickInv(h) && ClosersThrough(h) && P.Enabled(h.pump, P.CloseReturns)
    ensures Enabled(h, CloseReturns, target)
  {
  }

  /** Whatever the pump can do by itself is a step of the whole. */
  lemma PumpCanMove(h: Hub, target: KickTarget, act: P.Step) returns (step: Step)
    requires Inv(h, target) && ClosersThrough(h) && P.Enabled(h.pump, act) && P.Own(act)
    ensures Enabled(h, step, target) && Inner(step)
  {
    hide P.Inv, PostInv, MailInv, LivesInv, KickInv, P.Next, Target;
    if act.Finish? {
      HandlerCanFinish(h, target);
      step := Finish;
    } else if act.CloseReturns? {
      CloseCanReturn(h, target);
      step := CloseReturns;
    } else if act.ReadAttrs? || act.Deliver? || act.UseConn? {
      step := HandlerCanMove(h, target, act);
    } else {
      step := PumpMove(act);
    }
  }

  lemma NothingWithoutBody(h: Hub)
    requires PostInv(h)
    ensures forall i :: 0 <= i < |h.pump.accepted| ==> !h.pump.accepted[i].NilBody?
  {
    forall i | 0 <= i < |h.pump.accepted| ensures !h.pump.accepted[i].NilBody? {
      assert Known(h.pump.accepted[i], h.lives);
    }
  }

  lemma PumpAtRest(h: Hub, target: KickTarget)
    requires Inv(h, target) && Quiet(h, target) && !h.pump.crashed && Room(h)
    ensures h.pump.pushers == map[]
    ensures h.pump.handled == h.pump.accepted && h.pump.books == Fold(h.pump.accepted, target)
  {
    hide Enabled, P.Inv, P.Enabled, PostInv, LivesInv, MailInv, KickInv, Fold;
    ClosersAtRest(h, target);
    forall act | P.Enabled(h.pump, act) ensures !P.Own(act) {
      if P.Own(act) {
        var step := PumpCanMove(h, target, act);
      }
    }
    P.QuietInv(h.pump, target);
    NothingWithoutBody(h);
    P.ThroughAll(h.pump.accepted);
  }

  /** Start has returned, the connect was pushed, and the reader is reading or gone. */
  predicate Settled(h: Hub, c: Client)
    requires c in h.lives
  {
    h.lives[c].starter == W.StartReturned && c in h.offered && h.lives[c].reader in {W.Reading, W.Exited}
  }

  lemma LifeCanMove(h: Hub, target: KickTarget, c: Client) returns (step: Step)
    requires MailInv(h) && LivesInv(h.lives) && !h.pump.crashed
    requires h.onDisconnect == None && h.pump.pushers == map[]
    requires c in h.lives && !Settled(h, c)
    ensures Enabled(h, step, target) && Inner(step)
  {
    var l := h.lives[c];
    assert W.Inv(l);
    match l.starter {
      case Claiming => step := LifeMove(c, W.Claim);
      case Spawning => step := LifeMove(c, W.Spawn);
      case Logging => step := LogStart(c);
      case StartReturned =>
        if c !in h.offered {
          step := Register(c);
        } else {
          match l.reader {
            case Swapping => step := LifeMove(c, W.ReaderSwaps);
            case ClosingConn => step := LifeMove(c, W.ReaderClosesConn);
            case Reporting => step := Report(c);
            case ClearingConn => step := LifeMove(c, W.ReaderClearsConn);
            case ClearingAttrs => step := LifeMove(c, W.ReaderClearsAttrs);
            case Resetting => step := LifeMove(c, W.ReaderResets);
          }
        }
    }
  }

  lemma AllAtRest(h: Hub, target: KickTarget)
    requires Inv(h, target) && Quiet(h, target) && !h.pump.crashed && Room(h)
    ensures h.onDisconnect == None && h.listener == None && ClosersThrough(h)
    ensures forall c :: c in h.lives ==> Settled(h, c)
  {
    hide P.Inv, PostInv, LivesInv, MailInv, KickInv;
    ClosersAtRest(h, target);
    PumpAtRest(h, target);
    assert h.listener == None by {
      assert !Enabled(h, SendMessage, target);
    }
    assert h.onDisconnect == None by {
      assert !Enabled(h, Listen, target);
    }
    hide Enabled;
    forall c | c in h.lives ensures Settled(h, c) {
      if !Settled(h, c) {
        var step := LifeCanMove(h, target, c);
      }
    }
  }

  // ----- the way to rest -----

  function CloserCost(t: W.Tid, pc: W.CloserPc): nat {
    match pc
    case CloserSwapping => 4
    case WritingClose => 3
    case CloserClosingConn => 2
    case CloserResetting => 1
    case Returned => 0
  }

  function StarterCost(pc: W.StarterPc): nat {
    match pc
    case Claiming => 3
    case Spawning => 2
    case Logging => 1
    case _ => 0
  }

  /** A reader that reads waits for the outside.  REPORT pays for what a report sets off. */
  function ReaderCost(pc: W.ReaderPc): nat {
    match pc
    case Swapping => REPORT + 7
    case ClosingConn => REPORT + 6
    case Reporting => REPORT + 5
    case ClearingConn => 3
    case ClearingAttrs => 2
    case Resetting => 1
    case _ => 0
  }

  /** A step of the pump weighs PUMP, which pays for the Close that it may begin. */
  const PUMP := 8
  const REPORT := PUMP * 12 + 1
  const REGISTER := PUMP * 16 + 1
  const MESSAGE := PUMP * 2 + 1

  ghost function LifeCost(c: Client, l: W.Life): nat {
    StarterCost(l.starter) + ReaderCost(l.reader) + Total(l.closers, CloserCost)
  }

  ghost function Measure(h: Hub): nat {
    PUMP * P.Measure(h.pump) + Total(h.lives, LifeCost) + REGISTER * |h.lives.Keys - h.offered| +
    (if h.onDisconnect.Some? then REPORT else 0) + if h.listener.Some? then MESSAGE else 0
  }

  lemma LifeDescends(c: Client, l: W.Life, move: W.Step)
    requires W.Enabled(l, move) && (move.ReaderReports? || move.LogStart? || (OwnLife(move) && !move.ReaderStops?))
    ensures LifeCost(c, W.Next(l, move)) + (if move.ReaderReports? then REPORT else 0) < LifeCost(c, l)
  {
    hide Total;
    match move {
      case CloserSwaps(t) => CloserDescends(l, t, W.Next(l, move).closers[t]);
      case CloserWrites(t, _) => CloserDescends(l, t, W.Next(l, move).closers[t]);
      case CloserClosesConn(t) => CloserDescends(l, t, W.Next(l, move).closers[t]);
      case CloserResets(t) => CloserDescends(l, t, W.Next(l, move).closers[t]);
      case _ =>
    }
  }

  lemma CloserDescends(l: W.Life, t: W.Tid, pc: W.CloserPc)
    requires t in l.closers && CloserCost(t, pc) < CloserCost(t, l.closers[t])
    ensures Total(l.closers[t := pc], CloserCost) < Total(l.closers, CloserCost)
  {
    TotalWithout(l.closers, CloserCost, t);
    TotalPut(l.closers, CloserCost, t, pc);
  }

  lemma CloserCosts(c: Client, l: W.Life, t: W.Tid)
    requires W.Enabled(l, W.CloserArrives(t))
    ensures LifeCost(c, W.Next(l, W.CloserArrives(t))) == LifeCost(c, l) + 4
  {
    TotalPut(l.closers, CloserCost, t, W.CloserSwapping);
  }

  lemma PumpDescends(s: P.System, act: P.Step, target: KickTarget)
    requires P.Enabled(s, act)
    ensures P.Measure(P.Next(s, act, target)) <
            P.Measure(s) + if act.Offer? then 8 + P.Cost(act.packet) else if act.SendUp? then 3 else 0
  {
    if act.Offer? {
      TotalPut(s.pushers, P.PusherCost, act.pusher, act.packet);
    } else if act.ProcessDies? || act.SendUp? {
    } else {
      hide P.Next, P.Enabled, P.Measure;
      P.StepsDescend(s, act, target);
    }
  }

  lemma OneLifeDescends(lives: map<Client, W.Life>, c: Client, move: W.Step)
    requires c in lives && W.Enabled(lives[c], move)
    requires move.ReaderReports? || move.LogStart? || move.CloserArrives? || (OwnLife(move) && !move.ReaderStops?)
    ensures var lives' := lives[c := W.Next(lives[c], move)];
            && lives'.Keys == lives.Keys
            && Total(lives', LifeCost) + (if move.ReaderReports? then REPORT else 0) <
               Total(lives, LifeCost) + if move.CloserArrives? then 5 else 0
  {
    hide W.Next, W.Enabled, Total, LifeCost;
    TotalWithout(lives, LifeCost, c);
    TotalPut(lives, LifeCost, c, W.Next(lives[c], move));
    if move.CloserArrives? {
      CloserCosts(c, lives[c], move.t);
    } else {
      LifeDescends(c, lives[c], move);
    }
  }

  /** What is added to the mail, and what a kick-out adds to the work of its target. */
  function Added(step: Step): nat {
    match step
    case Register(_) => 16
    case Listen => 12
    case SendMessage => 2
    case _ => 0
  }

  lemma PumpPartDescends(h: Hub, step: Step, target: KickTarget)
    requires Enabled(h, step, target) && !External(step)
    ensures P.Measure(NextPump(h, step, target)) + P.One(PumpPart(h, step, target).Some?) <=
            P.Measure(h.pump) + if Added(step) > 0 then Added(step) + 1 else 0
  {
    hide P.Next, P.Enabled, P.Measure, W.Next, W.Enabled, Target;
    var act := PumpPart(h, step, target);
    if act.Some? {
      PumpDescends(h.pump, act.value, target);
    }
  }

  lemma LifePartDescends(h: Hub, step: Step, target: KickTarget)
    requires Enabled(h, step, target) && !External(step)
    ensures NextLives(h, step, target).Keys == h.lives.Keys
    ensures Total(NextLives(h, step, target), LifeCost) + (if step.Report? then REPORT else 0) +
            P.One(LifePart(h, step, target).Some?) <=
            Total(h.lives, LifeCost) + if step.Finish? then 5 else 0
  {
    hide P.Next, P.Enabled, W.Next, W.Enabled, Total, LifeCost, Target;
    var part := LifePart(h, step, target);
    if part.Some? {
      OneLifeDescends(h.lives, part.value.0, part.value.1);
    }
  }

  /** Every step moves the pump or a client; Finish always moves the pump. */
  lemma SomebodyMoves(h: Hub, step: Step, target: KickTarget)
    requires Enabled(h, step, target) && !External(step)
    ensures PumpPart(h, step, target).Some? || LifePart(h, step, target).Some?
    ensures step.Finish? || Added(step) > 0 ==> PumpPart(h, step, target).Some?
    ensures step.Register? ==> step.c in h.lives.Keys - h.offered
    ensures step.Listen? ==> h.onDisconnect.Some?
    ensures step.Report? ==> h.onDisconnect == None
    ensures step.SendMessage? ==> h.listener.Some?
  {
    hide P.Enabled, W.Enabled, Target;
  }

  /** Every step that does not come from outside makes the measure smaller. */
  lemma StepsDescend(h: Hub, step: Step, target: KickTarget)
    requires Enabled(h, step, target) && !External(step)
    ensures Measure(Next(h, step, target)) < Measure(h)
  {
    hide Enabled, PumpPart, LifePart, NextPump, NextLives, P.Measure, Total, Target;
    SomebodyMoves(h, step, target);
    PumpPartDescends(h, step, target);
    LifePartDescends(h, step, target);
    if step.Register? {
      assert h.lives.Keys - (h.offered + {step.c}) == (h.lives.Keys - h.offered) - {step.c};
    }
  }

  /** While nothing comes from outside, no run of the gateway, its clients and the proxy is longer than the measure of
    * the state in which it starts: they come to rest. */
  lemma {:induction false} RunsAreShort(h: Hub, steps: seq<Step>, end: Hub, target: KickTarget)
    requires Reaches(h, steps, end, target)
    requires forall i :: 0 <= i < |steps| ==> !External(steps[i])
    ensures |steps| + Measure(end) <= Measure(h)
    decreases |steps|
  {
    if steps != [] {
      hide Measure, Next, Enabled;
      StepsDescend(h, steps[0], target);
      RunsAreShort(Next(h, steps[0], target), steps[1..], end, target);
    }
  }

  // ----- what rest means for a client -----

  lemma Twice(ps: seq<Packet>, p: Packet, i: nat, j: nat)
    requires i < j < |ps| && ps[i] == p && ps[j] == p
    ensures multiset(ps)[p] >= 2
  {
    assert ps == ps[..j] + ps[j..];
    assert ps[..j][i] == p && ps[j..][0] == p;
    assert multiset(ps) == multiset(ps[..j]) + multiset(ps[j..]);
  }

  lemma AtMostOnce(ps: seq<Packet>, p: Packet, i: nat, j: nat)
    requires multiset(ps)[p] <= 1 && i < |ps| && j < |ps| && ps[i] == p && ps[j] == p
    ensures i == j
  {
    if i < j {
      Twice(ps, p, i, j);
    } else if j < i {
      Twice(ps, p, j, i);
    }
  }

  /** At rest, with room in the channel of the proxy, a client has its connect in the queue's history once; its
    * disconnect is there exactly when it was reported; and it is Started exactly when it was neither reported nor
    * kicked out. */
  lemma ClientAtRest(h: Hub, target: KickTarget, c: Client)
    requires Inv(h, target) && Quiet(h, target) && !h.pump.crashed && Room(h) && c in h.lives
    ensures multiset(h.pump.accepted)[Connect(c)] == 1 && Connect(c) in h.pump.handled
    ensures multiset(h.pump.accepted)[Disconnect(c)] == h.lives[c].events <= 1
    ensures h.lives[c].state == W.Started <==> h.lives[c].events == 0 && Close(c) !in h.pump.books.effects
  {
    PumpAtRest(h, target);
    AllAtRest(h, target);
    hide P.Inv, PostInv, Enabled, Quiet, Fold;
    assert Settled(h, c) && W.Inv(h.lives[c]);
    assert Connects(h, c) == 1 && Disconnects(h, c) == h.lives[c].events;
    ClosersAtRestHaveWinner(h, c);
  }

  lemma ClosersAtRestHaveWinner(h: Hub, c: Client)
    requires KickInv(h) && ClosersThrough(h) && c in h.lives && W.Inv(h.lives[c])
    ensures Close(c) in h.pump.books.effects ==> h.lives[c].winner != None
    ensures Close(c) !in h.pump.books.effects ==> h.lives[c].winner in {None, Some(W.ByReader)}
  {
    var closers := h.lives[c].closers;
    if closers != map[] {
      var t :| t in closers.Keys;
      assert closers[t] == W.Returned;
    }
  }

  /** The disconnect came through the queue before the connect. */
  ghost predicate Overtaken(ps: seq<Packet>, c: Client) {
    exists i, j :: 0 <= i < j < |ps| && ps[i] == Disconnect(c) && ps[j] == Connect(c)
  }

  /** KSUIDs are drawn at random; these are the runs in which no two clients drew the same one. */
  ghost predicate DistinctIds(h: Hub) {
    forall c, d :: c in h.lives && d in h.lives && c.id == d.id ==> c == d
  }

  /** The packets after the k-th that concern the id of c, when that one is its connect. */
  lemma AfterConnect(h: Hub, target: KickTarget, c: Client, k: nat)
    requires PostInv(h) && DistinctIds(h) && c in h.lives
    requires multiset(h.pump.accepted)[Connect(c)] == 1 && multiset(h.pump.accepted)[Disconnect(c)] <= 1
    requires k < |h.pump.accepted| && h.pump.accepted[k] == Connect(c)
    ensures forall j :: 0 <= j < |h.pump.accepted| && j != k ==> !ConnectsAt(h.pump.accepted, j, c.id)
    ensures Disconnect(c) in h.pump.accepted && !Overtaken(h.pump.accepted, c) <==>
            exists j :: k < j < |h.pump.accepted| && DisconnectsAt(h.pump.accepted, j, c.id)
  {
    var ps := h.pump.accepted;
    forall j | 0 <= j < |ps| && ConnectsAt(ps, j, c.id) ensures j == k {
      assert Known(ps[j], h.lives);
      AtMostOnce(ps, Connect(c), j, k);
    }
    forall j | 0 <= j < |ps| && DisconnectsAt(ps, j, c.id) ensures ps[j] == Disconnect(c) {
      assert Known(ps[j], h.lives);
    }
    if Disconnect(c) in ps {
      var d :| 0 <= d < |ps| && ps[d] == Disconnect(c);
      forall j | 0 <= j < |ps| && ps[j] == Disconnect(c) ensures j == d {
        AtMostOnce(ps, Disconnect(c), j, d);
      }
      assert DisconnectsAt(ps, d, c.id);
      if Overtaken(ps, c) {
        var i: nat, j: nat :| i < j < |ps| && ps[i] == Disconnect(c) && ps[j] == Connect(c);
        assert ConnectsAt(ps, j, c.id) && i == d;
      }
    }
  }

  /** A client that is kicked out was registered before. */
  lemma KickedAfterConnect(ps: seq<Packet>, target: KickTarget, c: Client, k: nat)
    requires k < |ps| && ps[k] == Connect(c)
    requires forall j :: 0 <= j < |ps| && j != k ==> !ConnectsAt(ps, j, c.id)
    ensures Close(c) in Fold(ps, target).effects <==> exists j :: k < j < |ps| && KickedAt(ps, target, j, c.id)
  {
    ClosedIff(ps, target, c);
    forall j: nat | j < |ps| && KickedAt(ps, target, j, c.id) ensures k < j && ClosesAt(ps, target, j, c) {
      RegisteredIff(ps[..j], target, c.id);
      hide Fold, Kicks;
      var i: nat :| LastWord(ps[..j], target, i, c.id);
      assert ConnectsAt(ps, i, c.id);
    }
    hide Fold, KickedAt;
  }

  /** With one connect of an id, its client is in the map unless a later packet disconnects it or kicks it out. */
  lemma InMapAfterConnect(ps: seq<Packet>, target: KickTarget, c: Client, k: nat)
    requires k < |ps| && ps[k] == Connect(c)
    requires forall j :: 0 <= j < |ps| && j != k ==> !ConnectsAt(ps, j, c.id)
    ensures var b := Fold(ps, target);
            && (c.id in b.clients <==>
                  Close(c) !in b.effects && !exists j :: k < j < |ps| && DisconnectsAt(ps, j, c.id))
            && (c.id in b.clients ==> b.clients[c.id] == c)
  {
    KickedAfterConnect(ps, target, c, k);
    RegisteredIff(ps, target, c.id);
    hide Fold, KickedAt;
    assert ConnectsAt(ps, k, c.id);
    assert LastWord(ps, target, k, c.id) <==> exists i: nat :: LastWord(ps, target, i, c.id);
  }

  /** When the gateway and its clients have come to rest, with room in the channel of the proxy, the map holds a
    * client exactly when it is still Started, neither reported nor kicked out; or when its disconnect overtook its
    * connect, and no kick-out has removed it since. */
  lemma AtRest(h: Hub, target: KickTarget, c: Client)
    requires Reachable(h, target) && Quiet(h, target) && !h.pump.crashed && Room(h)
    requires DistinctIds(h) && c in h.lives
    ensures var clients, effects := h.pump.books.clients, h.pump.books.effects;
            && (c.id in clients <==>
                  || h.lives[c].state == W.Started
                  || (Overtaken(h.pump.accepted, c) && Close(c) !in effects))
            && (c.id in clients ==> clients[c.id] == c)
    ensures h.lives[c].state == W.Started <==> h.lives[c].events == 0 && Close(c) !in h.pump.books.effects
  {
    ReachableInv(h, target);
    PumpAtRest(h, target);
    ClientAtRest(h, target, c);
    hide Reachable, Quiet, Enabled, P.Inv, MailInv, KickInv, LivesInv;
    var ps := h.pump.accepted;
    assert Connect(c) in ps;
    var k: nat :| k < |ps| && ps[k] == Connect(c);
    AfterConnect(h, target, c, k);
    InMapAfterConnect(ps, target, c, k);
    assert Overtaken(ps, c) ==> Disconnect(c) in ps;
    hide Fold, PostInv, Overtaken, DistinctIds, DisconnectsAt;
  }

  /** And it holds nobody else. */
  lemma NobodyElse(h: Hub, target: KickTarget, id: Ksuid)
    requires Reachable(h, target) && Quiet(h, target) && !h.pump.crashed && Room(h)
    requires id in h.pump.books.clients
    ensures h.pump.books.clients[id] in h.lives && h.pump.books.clients[id].id == id
  {
    ReachableInv(h, target);
    PumpAtRest(h, target);
    hide P.Inv, Quiet, Fold;
    RegisteredIff(h.pump.accepted, target, id);
    var i: nat :| LastWord(h.pump.accepted, target, i, id);
    assert Known(h.pump.accepted[i], h.lives);
  }

  /** With a running proxy the gateway never rests alive once it has had a client. */
  lemma NobodySurvives(h: Hub, target: KickTarget)
    requires Reachable(h, target) && Quiet(h, target)
    requires h.pump.up == [] && h.pump.proxy == None && !h.pump.crashed
    ensures h.lives == map[] && h.pump.books.clients == map[]
  {
    ReachableInv(h, target);
    PumpAtRest(h, target);
    SentUpIff(h.pump.accepted, target);
    hide Fold, Reachable, Quiet, Enabled, P.TokenInv, P.InOrder, P.Halfway, LivesInv, PostInv, MailInv, KickInv;
    assert multiset(h.pump.books.effects)[SendEmpty] == 0;
    forall c ensures c !in h.lives {
      if c in h.lives {
        ClientAtRest(h, target, c);
        var i :| 0 <= i < |h.pump.accepted| && h.pump.accepted[i] == Connect(c);
        ConnectSends(h.pump.accepted, target, i);
      }
    }
    forall id ensures id !in h.pump.books.clients {
      if id in h.pump.books.clients {
        NobodyElse(h, target, id);
      }
    }
  }

  lemma ConnectSends(ps: seq<Packet>, target: KickTarget, i: nat)
    requires i < |ps| && ps[i].Connect?
    ensures SendsAt(ps, target, i)
  {
  }

  /** When clean has run before the connect handler has read the Attrs, the connect is never handled, whatever
    * happens; and there is no rest before the process has ended, but with a full channel of the proxy. */
  lemma CleanedConnectIsFatal(h: Hub, target: KickTarget, c: Client, later: seq<Step>, end: Hub)
    requires Reachable(h, target) && Doomed(h, c) && Reaches(h, later, end, target)
    ensures Connect(c) !in end.pump.handled
    ensures Quiet(end, target) && Room(end) ==> end.pump.crashed
  {
    ReachableInv(h, target);
    ReachesKeepsInv(h, later, end, target);
    DoomedForGood(h, later, end, target, c);
    hide Inv, Reachable, Enabled, Reaches;
    if Quiet(end, target) && Room(end) && !end.pump.crashed {
      ClientAtRest(end, target, c);
    }
  }

  /** Between two packets clientNum is never short of the map, and it is the size of the map exactly when nobody has
    * been kicked out. */
  lemma ClientNumExact(h: Hub, target: KickTarget)
    requires Reachable(h, target) && DistinctIds(h) && h.pump.handler.Receiving?
    requires |h.pump.handled| < 0x8000_0000
    ensures h.pump.books.clientNum >= |h.pump.books.clients|
    ensures h.pump.books.clientNum == |h.pump.books.clients| <==> forall c :: Close(c) !in h.pump.books.effects
  {
    ReachableInv(h, target);
    var ps := h.pump.handled;
    P.InAccepted(h.pump);
    assert h.pump.books == Fold(ps, target);
    hide P.Inv, Fold, LivesInv, KickInv;
    forall i, j | 0 <= i < j < |ps| && ps[i].Connect? && ps[j].Connect?
      ensures ps[i].client.id != ps[j].client.id
    {
      OneConnect(h, i, j);
    }
    DriftIff(ps, target);
    ClientNumCovers(ps, target, h.pump.books);
  }

  lemma OneConnect(h: Hub, i: nat, j: nat)
    requires PostInv(h) && MailInv(h) && DistinctIds(h)
    requires i < j < |h.pump.accepted| && h.pump.accepted[i].Connect? && h.pump.accepted[j].Connect?
    ensures h.pump.accepted[i].client.id != h.pump.accepted[j].client.id
  {
    var c, d := h.pump.accepted[i].client, h.pump.accepted[j].client;
    assert Known(h.pump.accepted[i], h.lives) && Known(h.pump.accepted[j], h.lives);
    if c == d {
      assert Connects(h, c) <= 1;
      Twice(h.pump.accepted, Connect(c), i, j);
    }
  }
}

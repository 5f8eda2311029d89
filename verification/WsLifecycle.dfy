/** The life of a *peer.WsClient under interleaving (peer/ws_client.go): one Start, its reader, any number of goroutines
  * that call Close or Push, and the gateway's connect handler, which reads Attrs.  Every compare-and-swap, load, store,
  * channel send and use of conn or Attrs is a step.  A use that finds nil ends the process, and with it the run. */
module WsLifecycle {
  import opened Streams

  type Tid = nat

  datatype ClientState = Closed | Started | Closing

  datatype Winner = ByReader | ByCloser(closer: Tid)

  /** Start: its swap, the go statement, the log line that reads Attrs. */
  datatype StarterPc = Claiming | Spawning | Logging | StartReturned | StartFailed

  /** readHandler: not spawned, reading, then its deferred function, where clean has two stores. */
  datatype ReaderPc =
    | Idle
    | Reading
    | Swapping
    | ClosingConn
    | Reporting
    | ClearingConn
    | ClearingAttrs
    | Resetting
    | Exited

  datatype CloserPc = CloserSwapping | WritingClose | CloserClosingConn | CloserResetting | Returned

  /** Push loads the state, and then uses p.conn twice. */
  datatype PusherPc = Loading | SettingDeadline | Writing | Pushed

  /** hasConn, hasAttrs: the field is not nil.  events counts the sends on onDisconnect; winner is set by the swap from
    * Started to Closing, and wins counts these swaps. */
  datatype Life = Life(
    state: ClientState,
    hasConn: bool,
    hasAttrs: bool,
    connOpen: bool,
    starter: StarterPc,
    reader: ReaderPc,
    closers: map<Tid, CloserPc>,
    pushers: map<Tid, PusherPc>,
    events: nat,
    wins: nat,
    winner: Option<Winner>)

  datatype Step =
    | Claim
    | Spawn
    | LogStart
    | ReaderStops
    | ReaderSwaps
    | ReaderClosesConn
    | ReaderReports
    | ReaderClearsConn
    | ReaderClearsAttrs
    | ReaderResets
    | CloserArrives(t: Tid)
    | CloserSwaps(t: Tid)
    | CloserWrites(t: Tid, ok: bool)
    | CloserClosesConn(t: Tid)
    | CloserResets(t: Tid)
    | PusherArrives(t: Tid)
    | PusherLoads(t: Tid)
    | PusherSets(t: Tid, ok: bool)
    | PusherWrites(t: Tid)
    | HandlerReadsAttrs

  const INIT: Life := Life(Closed, true, true, true, Claiming, Idle, map[], map[], 0, 0, None)

  predicate CloserAt(s: Life, t: Tid, pc: CloserPc) {
    t in s.closers && s.closers[t] == pc
  }

  predicate PusherAt(s: Life, t: Tid, pc: PusherPc) {
    t in s.pushers && s.pushers[t] == pc
  }

  /** A goroutine is about to use p.conn. */
  predicate UsesConn(s: Life, step: Step) {
    match step
    case ReaderClosesConn => true
    case CloserWrites(_, _) => true
    case CloserClosesConn(_) => true
    case PusherSets(_, _) => true
    case PusherWrites(_) => true
    case _ => false
  }

  /** A goroutine is about to read a field of p.Attrs. */
  predicate UsesAttrs(s: Life, step: Step) {
    step.LogStart? || step.HandlerReadsAttrs?
  }

  predicate Enabled(s: Life, step: Step) {
    match step
    case Claim => s.starter == Claiming
    case Spawn => s.starter == Spawning
    case LogStart => s.starter == Logging
    case ReaderStops => s.reader == Reading
    case ReaderSwaps => s.reader == Swapping
    case ReaderClosesConn => s.reader == ClosingConn
    case ReaderReports => s.reader == Reporting
    case ReaderClearsConn => s.reader == ClearingConn
    case ReaderClearsAttrs => s.reader == ClearingAttrs
    case ReaderResets => s.reader == Resetting
    case CloserArrives(t) => t !in s.closers
    case CloserSwaps(t) => CloserAt(s, t, CloserSwapping)
    case CloserWrites(t, _) => CloserAt(s, t, WritingClose)
    case CloserClosesConn(t) => CloserAt(s, t, CloserClosingConn)
    case CloserResets(t) => CloserAt(s, t, CloserResetting)
    case PusherArrives(t) => t !in s.pushers
    case PusherLoads(t) => PusherAt(s, t, Loading)
    case PusherSets(t, _) => PusherAt(s, t, SettingDeadline)
    case PusherWrites(t) => PusherAt(s, t, Writing)
    // registClient queues the client once Start has returned
    case HandlerReadsAttrs => s.starter == StartReturned
  }

  function Win(s: Life, w: Winner): Life {
    s.(state := Closing, wins := s.wins + 1, winner := Some(w))
  }

  function Reset(s: Life): Life {
    s.(state := if s.state == Closing then Closed else s.state)
  }

  function Next(s: Life, step: Step): Life
    requires Enabled(s, step)
  {
    match step
    case Claim =>
      if s.state == Closed then s.(state := Started, starter := Spawning) else s.(starter := StartFailed)
    case Spawn => s.(reader := Reading, starter := Logging)
    case LogStart => s.(starter := StartReturned)
    case ReaderStops => s.(reader := Swapping)
    case ReaderSwaps =>
      if s.state == Started then Win(s, ByReader).(reader := ClosingConn) else s.(reader := Exited)
    case ReaderClosesConn => s.(connOpen := false, reader := Reporting)
    case ReaderReports => s.(events := s.events + 1, reader := ClearingConn)
    case ReaderClearsConn => s.(hasConn := false, reader := ClearingAttrs)
    case ReaderClearsAttrs => s.(hasAttrs := false, reader := Resetting)
    case ReaderResets => Reset(s).(reader := Exited)
    case CloserArrives(t) => s.(closers := s.closers[t := CloserSwapping])
    case CloserSwaps(t) =>
      if s.state == Started then Win(s, ByCloser(t)).(closers := s.closers[t := WritingClose])
      else s.(closers := s.closers[t := Returned])
    // when the close message cannot be written, Close returns without closing the connection
    case CloserWrites(t, ok) => s.(closers := s.closers[t := if ok then CloserClosingConn else CloserResetting])
    case CloserClosesConn(t) => s.(connOpen := false, closers := s.closers[t := CloserResetting])
    case CloserResets(t) => Reset(s).(closers := s.closers[t := Returned])
    case PusherArrives(t) => s.(pushers := s.pushers[t := Loading])
    case PusherLoads(t) => s.(pushers := s.pushers[t := if s.state == Started then SettingDeadline else Pushed])
    case PusherSets(t, ok) => s.(pushers := s.pushers[t := if ok then Writing else Pushed])
    case PusherWrites(t) => s.(pushers := s.pushers[t := Pushed])
    case HandlerReadsAttrs => s
  }

  ghost predicate Reaches(s: Life, steps: seq<Step>, end: Life)
    decreases |steps|
  {
    if steps == [] then s == end
    else Enabled(s, steps[0]) && Reaches(Next(s, steps[0]), steps[1..], end)
  }

  predicate ReaderWon(s: Life) {
    s.winner == Some(ByReader)
  }

  /** The reader won, and clean has stored nil in conn. */
  predicate ConnCleared(s: Life) {
    ReaderWon(s) && s.reader in {ClearingAttrs, Resetting, Exited}
  }

  /** The reader won, and clean has stored nil in Attrs as well. */
  predicate AttrsCleared(s: Life) {
    ReaderWon(s) && s.reader in {Resetting, Exited}
  }

  predicate Inv(s: Life) {
    && s.wins == (if s.winner == None then 0 else 1)
    && s.starter != StartFailed
    && (s.state == Started <==> s.winner == None && s.starter != Claiming)
    && (s.starter == Claiming ==> s.state == Closed && s.winner == None)
    && (s.reader == Idle <==> s.starter in {Claiming, Spawning})
    && (s.reader in {ClosingConn, Reporting, ClearingConn, ClearingAttrs, Resetting} ==> ReaderWon(s))
    && (ReaderWon(s) ==> s.reader !in {Idle, Reading, Swapping})
    && s.events == (if ReaderWon(s) && s.reader in {ClearingConn, ClearingAttrs, Resetting, Exited} then 1 else 0)
    && (s.hasConn <==> !ConnCleared(s))
    && (s.hasAttrs <==> !AttrsCleared(s))
    && (forall t :: t in s.closers && s.closers[t] in {WritingClose, CloserClosingConn, CloserResetting} ==>
          s.winner == Some(ByCloser(t)))
    && (match s.winner
        case None => s.connOpen && s.state != Closing
        case Some(ByReader) =>
          (s.connOpen <==> s.reader == ClosingConn) && (s.state == Closing ==> s.reader != Exited)
        case Some(ByCloser(t)) =>
          && t in s.closers && s.closers[t] != CloserSwapping
          && (s.closers[t] in {WritingClose, CloserClosingConn} ==> s.connOpen)
          && (s.state == Closing ==> s.closers[t] != Returned))
  }

  lemma StarterKeepsInv(s: Life, step: Step)
    requires Inv(s) && Enabled(s, step)
    requires step.Claim? || step.Spawn? || step.LogStart? || step.HandlerReadsAttrs?
    ensures Inv(Next(s, step))
  {
  }

  lemma ReaderKeepsInv(s: Life, step: Step)
    requires Inv(s) && Enabled(s, step)
    requires step.ReaderStops? || step.ReaderSwaps? || step.ReaderClosesConn? || step.ReaderReports? ||
             step.ReaderClearsConn? || step.ReaderClearsAttrs? || step.ReaderResets?
    ensures Inv(Next(s, step))
  {
  }

  lemma CloserKeepsInv(s: Life, step: Step)
    requires Inv(s) && Enabled(s, step)
    requires step.CloserArrives? || step.CloserSwaps? || step.CloserWrites? || step.CloserClosesConn? ||
             step.CloserResets?
    ensures Inv(Next(s, step))
  {
  }

  lemma PusherKeepsInv(s: Life, step: Step)
    requires Inv(s) && Enabled(s, step)
    requires step.PusherArrives? || step.PusherLoads? || step.PusherSets? || step.PusherWrites?
    ensures Inv(Next(s, step))
  {
  }

  lemma StepKeepsInv(s: Life, step: Step)
    requires Inv(s) && Enabled(s, step)
    ensures Inv(Next(s, step))
  {
    hide Inv;
    match step
    case Claim => StarterKeepsInv(s, step);
    case Spawn => StarterKeepsInv(s, step);
    case LogStart => StarterKeepsInv(s, step);
    case HandlerReadsAttrs => StarterKeepsInv(s, step);
    case CloserArrives(_) => CloserKeepsInv(s, step);
    case CloserSwaps(_) => CloserKeepsInv(s, step);
    case CloserWrites(_, _) => CloserKeepsInv(s, step);
    case CloserClosesConn(_) => CloserKeepsInv(s, step);
    case CloserResets(_) => CloserKeepsInv(s, step);
    case PusherArrives(_) => PusherKeepsInv(s, step);
    case PusherLoads(_) => PusherKeepsInv(s, step);
    case PusherSets(_, _) => PusherKeepsInv(s, step);
    case PusherWrites(_) => PusherKeepsInv(s, step);
    case _ => ReaderKeepsInv(s, step);
  }

  lemma {:induction false} ReachesKeepsInv(s: Life, steps: seq<Step>, end: Life)
    requires Inv(s) && Reaches(s, steps, end)
    ensures Inv(end)
    decreases |steps|
  {
    if steps != [] {
      hide Inv;
      StepKeepsInv(s, steps[0]);
      ReachesKeepsInv(Next(s, steps[0]), steps[1..], end);
    }
  }

  // ----- what holds in every reachable state -----

  /** At most one goroutine ever wins the connection.  There is at most one disconnect event, it is the reader's, and
    * there is none when a Close won. */
  lemma AtMostOneEvent(steps: seq<Step>, s: Life)
    requires Reaches(INIT, steps, s)
    ensures s.wins <= 1 && s.events <= 1
    ensures s.events == 1 ==> s.winner == Some(ByReader)
    ensures forall t :: s.winner == Some(ByCloser(t)) ==> s.events == 0
  {
    ReachesKeepsInv(INIT, steps, s);
  }

  /** A winner that is through leaves the client Closed. */
  lemma WinnerLeavesClosed(steps: seq<Step>, s: Life, t: Tid)
    requires Reaches(INIT, steps, s)
    requires (s.winner == Some(ByReader) && s.reader == Exited) ||
             (s.winner == Some(ByCloser(t)) && CloserAt(s, t, Returned))
    ensures s.state == Closed
  {
    ReachesKeepsInv(INIT, steps, s);
  }

  /** Exactly one event comes of a client whose reader won and is through. */
  lemma ReaderReportsOnce(steps: seq<Step>, s: Life)
    requires Reaches(INIT, steps, s) && s.reader == Exited
    ensures s.events == 1 <==> s.winner == Some(ByReader)
    ensures s.events == 1 ==> !s.connOpen
  {
    ReachesKeepsInv(INIT, steps, s);
  }

  /** Whoever is to close the connection finds it: clean never takes p.conn away from a Close, or from the reader's own
    * conn.Close.  A Push can come too late, and then p.conn is nil exactly when the reader has cleared it. */
  lemma WhoFindsTheConn(steps: seq<Step>, s: Life, step: Step)
    requires Reaches(INIT, steps, s) && Enabled(s, step) && UsesConn(s, step)
    ensures !step.PusherSets? && !step.PusherWrites? ==> s.hasConn
    ensures !s.hasConn <==> s.winner == Some(ByReader) && s.reader in {ClearingAttrs, Resetting, Exited}
  {
    ReachesKeepsInv(INIT, steps, s);
  }

  /** The log line of Start and the connect handler find p.Attrs nil exactly when the reader won and has cleaned up. */
  lemma WhoFindsTheAttrs(steps: seq<Step>, s: Life, step: Step)
    requires Reaches(INIT, steps, s) && Enabled(s, step) && UsesAttrs(s, step)
    ensures !s.hasAttrs <==> s.winner == Some(ByReader) && s.reader in {Resetting, Exited}
    ensures !s.hasAttrs ==> s.events == 1
  {
    ReachesKeepsInv(INIT, steps, s);
  }

  lemma {:induction false} ReachesThen(s: Life, steps: seq<Step>, mid: Life, step: Step)
    requires Reaches(s, steps, mid) && Enabled(mid, step)
    ensures Reaches(s, steps + [step], Next(mid, step))
    decreases |steps|
  {
    if steps != [] {
      ReachesThen(Next(s, steps[0]), steps[1..], mid, step);
      assert (steps + [step])[1..] == steps[1..] + [step];
    }
  }

  lemma Then(before: seq<Step>, mid: Life, step: Step) returns (steps: seq<Step>, s: Life)
    requires Reaches(INIT, before, mid) && Enabled(mid, step)
    ensures Reaches(INIT, steps, s) && s == Next(mid, step)
  {
    ReachesThen(INIT, before, mid, step);
    steps, s := before + [step], Next(mid, step);
  }

  lemma StartingPoint()
    ensures Reaches(INIT, [], INIT)
  {
  }

  /** From any state in which it is reading a Started connection, the reader can run until it has cleaned up. */
  lemma ReaderRunsOut(before: seq<Step>, mid: Life) returns (steps: seq<Step>, s: Life)
    requires Reaches(INIT, before, mid) && mid.reader == Reading && mid.state == Started
    ensures Reaches(INIT, steps, s)
    ensures s.starter == mid.starter && s.pushers == mid.pushers && !s.hasConn && !s.hasAttrs
  {
    hide Reaches;
    steps, s := Then(before, mid, ReaderStops);
    steps, s := Then(steps, s, ReaderSwaps);
    steps, s := Then(steps, s, ReaderClosesConn);
    steps, s := Then(steps, s, ReaderReports);
    steps, s := Then(steps, s, ReaderClearsConn);
    steps, s := Then(steps, s, ReaderClearsAttrs);
  }

  /** Such a late Push does occur: between its load and its write the reader can run out. */
  lemma PushCanComeTooLate(t: Tid) returns (steps: seq<Step>, s: Life)
    ensures Reaches(INIT, steps, s)
    ensures Enabled(s, PusherSets(t, true)) && !s.hasConn
  {
    StartingPoint();
    hide Reaches;
    steps, s := Then([], INIT, Claim);
    steps, s := Then(steps, s, Spawn);
    steps, s := Then(steps, s, PusherArrives(t));
    steps, s := Then(steps, s, PusherLoads(t));
    steps, s := ReaderRunsOut(steps, s);
  }

  /** So do late reads of Attrs, in Start itself or, when Start is through first, in the connect handler. */
  lemma AttrsCanBeReadTooLate(inStart: bool) returns (steps: seq<Step>, s: Life)
    ensures Reaches(INIT, steps, s)
    ensures Enabled(s, if inStart then LogStart else HandlerReadsAttrs) && !s.hasAttrs
  {
    StartingPoint();
    hide Reaches;
    steps, s := Then([], INIT, Claim);
    steps, s := Then(steps, s, Spawn);
    if !inStart {
      steps, s := Then(steps, s, LogStart);
    }
    steps, s := ReaderRunsOut(steps, s);
  }

  /** A client comes to life once: after the connection has been won it is never Started again, and the winner stays
    * the same. */
  lemma {:induction false} ClosedForGood(s: Life, steps: seq<Step>, end: Life)
    requires Inv(s) && s.winner != None
    requires Reaches(s, steps, end)
    ensures end.winner == s.winner && end.state != Started
    decreases |steps|
  {
    if steps != [] {
      StepKeepsInv(s, steps[0]);
      ClosedForGood(Next(s, steps[0]), steps[1..], end);
    }
  }

  // ----- what becomes of a Push -----

  lemma {:induction false} RunPushes(s: Life, t: Tid, steps: seq<Step>, end: Life)
    requires Reaches(s, steps, end)
    ensures PusherWrites(t) in steps <==>
            PusherAt(end, t, Pushed) && (PusherAt(s, t, Writing) || PusherSets(t, true) in steps)
    ensures PusherAt(s, t, Pushed) ==> PusherAt(end, t, Pushed) && PusherSets(t, true) !in steps
    decreases |steps|
  {
    if steps != [] {
      RunPushes(Next(s, steps[0]), t, steps[1..], end);
      PushStep(s, t, steps[0]);
      hide Next, Enabled;
      assert steps == [steps[0]] + steps[1..];
    }
  }

  lemma PushStep(s: Life, t: Tid, step: Step)
    requires Enabled(s, step)
    ensures PusherAt(Next(s, step), t, Writing) <==>
            step == PusherSets(t, true) || (PusherAt(s, t, Writing) && step != PusherWrites(t))
    ensures step == PusherWrites(t) ==> PusherAt(s, t, Writing) && PusherAt(Next(s, step), t, Pushed)
    ensures PusherAt(s, t, Pushed) ==> PusherAt(Next(s, step), t, Pushed) && step != PusherSets(t, true)
  {
  }

  /** This Push tries to set its deadline. */
  predicate Sets(steps: seq<Step>, t: Tid) {
    PusherSets(t, true) in steps || PusherSets(t, false) in steps
  }

  lemma {:induction false} RunSets(s: Life, t: Tid, steps: seq<Step>, end: Life)
    requires Reaches(s, steps, end) && t in s.pushers && s.pushers[t] != Loading && PusherAt(end, t, Pushed)
    ensures Sets(steps, t) <==> s.pushers[t] == SettingDeadline
    decreases |steps|
  {
    if steps != [] {
      PastLoad(s, t, steps[0]);
      RunSets(Next(s, steps[0]), t, steps[1..], end);
      hide Next, Enabled;
      assert steps == [steps[0]] + steps[1..];
    }
  }

  lemma PastLoad(s: Life, t: Tid, step: Step)
    requires Enabled(s, step) && t in s.pushers && s.pushers[t] != Loading
    ensures var s' := Next(s, step);
            && t in s'.pushers && s'.pushers[t] != Loading
            && (step == PusherSets(t, true) || step == PusherSets(t, false)
                <==> s.pushers[t] == SettingDeadline && s'.pushers[t] != SettingDeadline)
            && (s'.pushers[t] == SettingDeadline ==> s.pushers[t] == SettingDeadline)
  {
    if !step.PusherArrives? && !step.PusherLoads? && !step.PusherSets? && !step.PusherWrites? {
      assert Next(s, step).pushers == s.pushers;
    }
  }

  /** Over all runs, a Push goes on to use the connection exactly when it has loaded Started; and when it has returned,
    * it has written exactly when it could set its deadline. */
  lemma PushWritesIff(before: seq<Step>, s: Life, t: Tid, later: seq<Step>, end: Life)
    requires Reaches(INIT, before, s) && Enabled(s, PusherLoads(t))
    requires Reaches(Next(s, PusherLoads(t)), later, end) && PusherAt(end, t, Pushed)
    ensures PusherSets(t, true) in later || PusherSets(t, false) in later <==> s.state == Started
    ensures PusherWrites(t) in later <==> PusherSets(t, true) in later
  {
    RunSets(Next(s, PusherLoads(t)), t, later, end);
    RunPushes(Next(s, PusherLoads(t)), t, later, end);
  }

  // ----- what becomes of the connection when a Close wins -----

  /** Closer t won and is past the point where it closes the connection, which is still open. */
  predicate LeftOpen(s: Life, t: Tid) {
    && s.winner == Some(ByCloser(t)) && s.connOpen
    && t in s.closers && s.closers[t] in {CloserResetting, Returned}
  }

  lemma StepLeavesOpen(s: Life, t: Tid, step: Step)
    requires Inv(s) && Enabled(s, step)
    ensures LeftOpen(Next(s, step), t) <==> LeftOpen(s, t) || step == CloserWrites(t, false)
  {
  }

  lemma {:induction false} RunLeavesOpen(s: Life, t: Tid, steps: seq<Step>, end: Life)
    requires Inv(s) && Reaches(s, steps, end)
    ensures LeftOpen(end, t) <==> LeftOpen(s, t) || CloserWrites(t, false) in steps
    decreases |steps|
  {
    if steps != [] {
      hide Inv, LeftOpen;
      StepKeepsInv(s, steps[0]);
      StepLeavesOpen(s, t, steps[0]);
      RunLeavesOpen(Next(s, steps[0]), t, steps[1..], end);
      assert steps == [steps[0]] + steps[1..];
    }
  }

  /** What a Close that is past its swap still does until it has returned. */
  lemma {:induction false} CloseGoesOn(s: Life, t: Tid, steps: seq<Step>, end: Life)
    requires Reaches(s, steps, end) && t in s.closers && s.closers[t] != CloserSwapping && CloserAt(end, t, Returned)
    ensures CloserWrites(t, true) in steps || CloserWrites(t, false) in steps <==> s.closers[t] == WritingClose
    ensures CloserClosesConn(t) in steps <==> s.closers[t] == CloserClosingConn || CloserWrites(t, true) in steps
    decreases |steps|
  {
    if steps != [] {
      CloserGoesOn(s, steps[0], t);
      CloseGoesOn(Next(s, steps[0]), t, steps[1..], end);
      hide Next, Enabled;
      assert steps == [steps[0]] + steps[1..];
    }
  }

  lemma CloserGoesOn(s: Life, step: Step, t: Tid)
    requires Enabled(s, step) && t in s.closers && s.closers[t] != CloserSwapping
    ensures var s', pc := Next(s, step), s.closers[t];
            && t in s'.closers && s'.closers[t] != CloserSwapping
            && (step == CloserWrites(t, true) || step == CloserWrites(t, false)
                <==> pc == WritingClose && s'.closers[t] != WritingClose)
            && (step == CloserWrites(t, true) <==> pc == WritingClose && s'.closers[t] == CloserClosingConn)
            && (step == CloserClosesConn(t) <==> pc == CloserClosingConn && s'.closers[t] != CloserClosingConn)
            && (s'.closers[t] == WritingClose ==> pc == WritingClose)
            && (s'.closers[t] == CloserClosingConn ==> pc == WritingClose || pc == CloserClosingConn)
  {
    if !step.CloserArrives? && !step.CloserSwaps? && !step.CloserWrites? && !step.CloserClosesConn? &&
       !step.CloserResets? {
      assert Next(s, step).closers == s.closers;
    }
  }

  /** Over all runs, a Close that has returned has tried to write its close message exactly when it found the client
    * Started; and it has closed the connection exactly when that worked. */
  lemma CloseActsIff(before: seq<Step>, s: Life, t: Tid, later: seq<Step>, end: Life)
    requires Reaches(INIT, before, s) && Enabled(s, CloserSwaps(t))
    requires Reaches(Next(s, CloserSwaps(t)), later, end) && CloserAt(end, t, Returned)
    ensures CloserWrites(t, true) in later || CloserWrites(t, false) in later <==> s.state == Started
    ensures CloserClosesConn(t) in later <==> CloserWrites(t, true) in later
  {
    CloseGoesOn(Next(s, CloserSwaps(t)), t, later, end);
  }

  /** A Close that won and has returned leaves the connection open exactly when it could not write its close message. */
  lemma CloseLeaksIffWriteFailed(steps: seq<Step>, s: Life, t: Tid)
    requires Reaches(INIT, steps, s)
    requires s.winner == Some(ByCloser(t)) && CloserAt(s, t, Returned)
    ensures s.connOpen <==> CloserWrites(t, false) in steps
  {
    RunLeavesOpen(INIT, t, steps, s);
  }

  /** Then it stays open for ever: no continuation closes it. */
  lemma FailedCloseLeaksConn(before: seq<Step>, s: Life, t: Tid, later: seq<Step>, end: Life)
    requires Reaches(INIT, before, s) && CloserWrites(t, false) in before
    requires Reaches(s, later, end)
    ensures end.connOpen && end.winner == Some(ByCloser(t))
  {
    RunLeavesOpen(INIT, t, before, s);
    ReachesKeepsInv(INIT, before, s);
    RunLeavesOpen(s, t, later, end);
  }
}

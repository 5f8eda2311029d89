/** The life of a *peer.Server under interleaving (peer/tcp_peer.go with lgcluster/cluster.go).
  *
  * One goroutine, the manager, starts the first connection and then, in handleConnectionClose, restarts the server
  * after each disconnect event that it consumes.  Each start makes a new generation with its own connection and its
  * own reader.  Any number of other goroutines call Close.  Every compare-and-swap, load, store and channel operation
  * is a step of its own. */
module TcpLifecycle {
  import opened Streams

  type Generation = nat
  type Tid = nat

  datatype ServerState = Closed | Starting | Started | Closing

  datatype Winner = ByReader | ByCloser(closer: Tid)

  /** readHandler: reading, the deferred swap, conn.Close, the send on onDisconnect, the last swap. */
  datatype ReaderPc = Reading | Swapping | ClosingConn | Reporting | Resetting | Exited

  /** Close, where a winner remembers its generation. */
  datatype CloserPc =
    | CloserSwapping
    | WritingClose(won: Generation)
    | CloserClosingConn(won: Generation)
    | CloserResetting(won: Generation)
    | Returned

  /** Start in its four stages; waiting for an event; Restart's store and dial. */
  datatype ManagerPc = Claiming | SettingConn | Spawning | Confirming | Waiting | Storing | Dialing

  datatype DialOutcome = DialOk | DialRetry | DialGiveUp

  /** conn is the generation whose connection the field p.conn holds.  The last four fields record what happened:
    * who won the swap from Started to Closing in which generation, which connection each winner closed, and for
    * which generations an event was sent. */
  datatype Server = Server(
    state: ServerState,
    conn: Option<Generation>,
    gen: Generation,
    manager: ManagerPc,
    readers: map<Generation, ReaderPc>,
    closers: map<Tid, CloserPc>,
    channel: seq<Generation>,
    wins: seq<(Generation, Winner)>,
    closes: seq<(Generation, Option<Generation>)>,
    sent: seq<Generation>)

  datatype Step =
    | Claim
    | SetConn
    | Spawn
    | Confirm
    | Consume(restart: bool)
    | StoreClosed
    | Dial(outcome: DialOutcome)
    | ReaderStops(g: Generation)
    | ReaderSwaps(g: Generation)
    | ReaderClosesConn(g: Generation)
    | ReaderReports(g: Generation)
    | ReaderResets(g: Generation)
    | CloserArrives(t: Tid)
    | CloserSwaps(t: Tid)
    | CloserWrites(t: Tid)
    | CloserClosesConn(t: Tid)
    | CloserResets(t: Tid)

  const INIT: Server := Server(Closed, None, 0, Claiming, map[], map[], [], [], [], [])

  predicate ReaderAt(s: Server, g: Generation, pc: ReaderPc) {
    g in s.readers && s.readers[g] == pc
  }

  predicate Enabled(s: Server, step: Step) {
    match step
    case Claim => s.manager == Claiming
    case SetConn => s.manager == SettingConn
    case Spawn => s.manager == Spawning
    case Confirm => s.manager == Confirming
    case Consume(_) => s.manager == Waiting && s.channel != []
    case StoreClosed => s.manager == Storing
    case Dial(_) => s.manager == Dialing
    case ReaderStops(g) => ReaderAt(s, g, Reading)
    case ReaderSwaps(g) => ReaderAt(s, g, Swapping)
    case ReaderClosesConn(g) => ReaderAt(s, g, ClosingConn)
    case ReaderReports(g) => ReaderAt(s, g, Reporting)
    case ReaderResets(g) => ReaderAt(s, g, Resetting)
    case CloserArrives(t) => t !in s.closers
    case CloserSwaps(t) => t in s.closers && s.closers[t] == CloserSwapping
    case CloserWrites(t) => t in s.closers && s.closers[t].WritingClose?
    case CloserClosesConn(t) => t in s.closers && s.closers[t].CloserClosingConn?
    case CloserResets(t) => t in s.closers && s.closers[t].CloserResetting?
  }

  function Next(s: Server, step: Step): Server
    requires Enabled(s, step)
  {
    match step
    // Start: a failed claim or confirmation is an error, after which reconnect tries Restart again
    case Claim =>
      if s.state == Closed then s.(state := Starting, manager := SettingConn) else s.(manager := Storing)
    case SetConn => s.(conn := Some(s.gen), manager := Spawning)
    case Spawn => s.(readers := s.readers[s.gen := Reading], manager := Confirming)
    case Confirm =>
      if s.state == Starting then s.(state := Started, manager := Waiting) else s.(manager := Storing)
    // handleConnectionClose; the server may already be in the table again, and then there is no restart
    case Consume(restart) =>
      s.(channel := s.channel[1..], manager := if restart then Storing else Waiting)
    // Restart
    case StoreClosed => s.(state := Closed, manager := Dialing)
    case Dial(DialOk) => s.(gen := s.gen + 1, manager := Claiming)
    case Dial(DialRetry) => s.(manager := Storing)
    case Dial(DialGiveUp) => s.(manager := Waiting)
    // readHandler
    case ReaderStops(g) => s.(readers := s.readers[g := Swapping])
    case ReaderSwaps(g) =>
      if s.state == Started
      then s.(state := Closing, wins := s.wins + [(s.gen, ByReader)], readers := s.readers[g := ClosingConn])
      else s.(readers := s.readers[g := Exited])
    case ReaderClosesConn(g) => s.(closes := s.closes + [(g, s.conn)], readers := s.readers[g := Reporting])
    case ReaderReports(g) =>
      s.(channel := s.channel + [g], sent := s.sent + [g], readers := s.readers[g := Resetting])
    case ReaderResets(g) =>
      s.(state := if s.state == Closing then Closed else s.state, readers := s.readers[g := Exited])
    // Close
    case CloserArrives(t) => s.(closers := s.closers[t := CloserSwapping])
    case CloserSwaps(t) =>
      if s.state == Started
      then s.(state := Closing, wins := s.wins + [(s.gen, ByCloser(t))], closers := s.closers[t := WritingClose(s.gen)])
      else s.(closers := s.closers[t := Returned])
    case CloserWrites(t) => s.(closers := s.closers[t := CloserClosingConn(s.closers[t].won)])
    case CloserClosesConn(t) =>
      var g := s.closers[t].won;
      s.(closes := s.closes + [(g, s.conn)], closers := s.closers[t := CloserResetting(g)])
    case CloserResets(t) =>
      s.(state := if s.state == Closing then Closed else s.state, closers := s.closers[t := Returned])
  }

  ghost predicate Reaches(s: Server, steps: seq<Step>, end: Server)
    decreases |steps|
  {
    if steps == [] then s == end
    else Enabled(s, steps[0]) && Reaches(Next(s, steps[0]), steps[1..], end)
  }

  // ----- the invariant -----

  predicate Won(s: Server) { |s.wins| == s.gen + 1 }
  predicate ConnClosed(s: Server) { |s.closes| == s.gen + 1 }
  predicate Sent(s: Server) { |s.sent| == s.gen + 1 }

  /** All generations but the current one were won and reported by their readers, each in its turn. */
  predicate Histories(s: Server) {
    && s.gen <= |s.sent| <= |s.closes| <= |s.wins| <= s.gen + 1
    && (forall i :: 0 <= i < |s.wins| ==> s.wins[i].0 == i && (i < s.gen ==> s.wins[i].1 == ByReader))
    && (forall i :: 0 <= i < |s.closes| ==> s.closes[i] == (i, Some(i)))
    && (forall i :: 0 <= i < |s.sent| ==> s.sent[i] == i)
    && (Sent(s) ==> s.wins[s.gen].1 == ByReader)
  }

  /** Readers of earlier generations have at most their last swap left to do. */
  predicate OldReaders(s: Server) {
    && (forall g :: g in s.readers ==> g <= s.gen)
    && (forall g :: 0 <= g < s.gen ==> g in s.readers && s.readers[g] in {Resetting, Exited})
  }

  /** The current reader before anybody has won, or after a closer has won. */
  predicate ReaderIdle(s: Server) {
    s.gen in s.readers && s.readers[s.gen] in {Reading, Swapping, Exited}
  }

  predicate Phase(s: Server) {
    match s.manager
    case Claiming => s.state == Closed && !Won(s) && s.gen !in s.readers && s.channel == []
    case SettingConn => s.state == Starting && !Won(s) && s.gen !in s.readers && s.channel == []
    case Spawning => s.state == Starting && !Won(s) && s.gen !in s.readers && s.channel == [] && s.conn == Some(s.gen)
    case Confirming => s.state == Starting && !Won(s) && ReaderIdle(s) && s.channel == [] && s.conn == Some(s.gen)
    case Waiting => Running(s)
    case Storing => Running(s) && Sent(s) && s.channel == []
    case Dialing => Running(s) && Sent(s) && s.channel == [] && s.state == Closed
  }

  /** The current generation was started. */
  predicate Running(s: Server) {
    && s.conn == Some(s.gen)
    && (s.channel == [] || (s.channel == [s.gen] && Sent(s)))
    && (if !Won(s) then s.state == Started && ReaderIdle(s)
        else
          && s.state in {Closing, Closed}
          && s.gen in s.readers
          && (s.state == Closing ==> WinnerAtWork(s))
          && (if s.wins[s.gen].1 == ByReader
              then
                match s.readers[s.gen]
                case ClosingConn => !ConnClosed(s) && !Sent(s)
                case Reporting => ConnClosed(s) && !Sent(s)
                case Resetting => Sent(s)
                case Exited => Sent(s)
                case _ => false
              else ReaderIdle(s)))
  }

  /** The winner of the current generation has not yet made its last swap. */
  predicate WinnerAtWork(s: Server)
    requires Won(s)
  {
    match s.wins[s.gen].1
    case ByReader => s.gen in s.readers && s.readers[s.gen] != Exited
    case ByCloser(t) => t in s.closers && s.closers[t] !in {CloserSwapping, Returned}
  }

  /** A closer is at work only when it won the current generation, and then it closes the connection. */
  predicate Closers(s: Server) {
    && (forall t :: t in s.closers ==>
          match s.closers[t]
          case WritingClose(g) => g == s.gen && Won(s) && s.wins[g].1 == ByCloser(t) && !ConnClosed(s)
          case CloserClosingConn(g) => g == s.gen && Won(s) && s.wins[g].1 == ByCloser(t) && !ConnClosed(s)
          case CloserResetting(g) => g == s.gen && Won(s) && s.wins[g].1 == ByCloser(t)
          case _ => true)
    && (Won(s) && s.wins[s.gen].1.ByCloser? ==> CloserCloses(s, s.wins[s.gen].1.closer))
  }

  predicate CloserCloses(s: Server, t: Tid) {
    && t in s.closers && s.closers[t] != CloserSwapping
    && (s.closers[t].CloserResetting? || s.closers[t].Returned? ==> ConnClosed(s))
  }

  predicate Inv(s: Server) {
    Histories(s) && OldReaders(s) && Phase(s) && Closers(s)
  }

  lemma StartKeepsInv(s: Server, step: Step)
    requires Inv(s) && Enabled(s, step) && (step.Claim? || step.SetConn? || step.Spawn? || step.Confirm?)
    ensures Inv(Next(s, step))
  {
  }

  lemma RestartKeepsInv(s: Server, step: Step)
    requires Inv(s) && Enabled(s, step) && (step.Consume? || step.StoreClosed? || step.Dial?)
    ensures Inv(Next(s, step))
  {
  }

  lemma ReaderKeepsInv(s: Server, step: Step)
    requires Inv(s) && Enabled(s, step) && (step.ReaderStops? || step.ReaderResets?)
    ensures Inv(Next(s, step))
  {
  }

  lemma ReaderSwapKeepsInv(s: Server, g: Generation)
    requires Inv(s) && Enabled(s, ReaderSwaps(g))
    ensures Inv(Next(s, ReaderSwaps(g)))
  {
    assert g == s.gen;
  }

  lemma ReaderWinnerKeepsInv(s: Server, step: Step)
    requires Inv(s) && Enabled(s, step) && (step.ReaderClosesConn? || step.ReaderReports?)
    ensures Inv(Next(s, step))
  {
  }

  lemma CloserKeepsInv(s: Server, step: Step)
    requires Inv(s) && Enabled(s, step) && step.CloserArrives?
    ensures Inv(Next(s, step))
  {
  }

  lemma CloserSwapKeepsInv(s: Server, step: Step)
    requires Inv(s) && Enabled(s, step) && step.CloserSwaps?
    ensures Inv(Next(s, step))
  {
  }

  lemma CloserWinnerKeepsInv(s: Server, step: Step)
    requires Inv(s) && Enabled(s, step) && (step.CloserWrites? || step.CloserClosesConn? || step.CloserResets?)
    ensures Inv(Next(s, step))
  {
  }

  lemma StepKeepsInv(s: Server, step: Step)
    requires Inv(s) && Enabled(s, step)
    ensures Inv(Next(s, step))
  {
    if step.Claim? || step.SetConn? || step.Spawn? || step.Confirm? {
      StartKeepsInv(s, step);
    } else if step.Consume? || step.StoreClosed? || step.Dial? {
      RestartKeepsInv(s, step);
    } else if step.ReaderStops? || step.ReaderResets? {
      ReaderKeepsInv(s, step);
    } else if step.ReaderSwaps? {
      ReaderSwapKeepsInv(s, step.g);
    } else if step.ReaderClosesConn? || step.ReaderReports? {
      ReaderWinnerKeepsInv(s, step);
    } else if step.CloserArrives? {
      CloserKeepsInv(s, step);
    } else if step.CloserSwaps? {
      CloserSwapKeepsInv(s, step);
    } else {
      CloserWinnerKeepsInv(s, step);
    }
  }

  lemma {:induction false} ReachesKeepsInv(s: Server, steps: seq<Step>, end: Server)
    requires Inv(s) && Reaches(s, steps, end)
    ensures Inv(end)
    decreases |steps|
  {
    if steps != [] {
      StepKeepsInv(s, steps[0]);
      ReachesKeepsInv(Next(s, steps[0]), steps[1..], end);
    }
  }

  lemma ReachableInv(steps: seq<Step>, s: Server)
    requires Reaches(INIT, steps, s)
    ensures Inv(s)
  {
    ReachesKeepsInv(INIT, steps, s);
  }

  // ----- what holds in every reachable state -----

  /** No generation is won twice; each connection that is closed belongs to the generation of the winner that closes
    * it, and a Close that won and has returned has closed it; and a disconnect event is sent at most once in a
    * generation, and only when its reader won. */
  lemma OneWinnerPerGeneration(steps: seq<Step>, s: Server)
    requires Reaches(INIT, steps, s)
    ensures forall i, j :: 0 <= i < j < |s.wins| ==> s.wins[i].0 != s.wins[j].0
    ensures forall i :: 0 <= i < |s.closes| ==> s.closes[i].1 == Some(s.closes[i].0)
    ensures forall i, j :: 0 <= i < j < |s.sent| ==> s.sent[i] != s.sent[j]
    ensures forall g :: g in s.sent ==> (g, ByReader) in s.wins
    ensures forall g, t :: (g, ByCloser(t)) in s.wins && t in s.closers && s.closers[t] == Returned ==>
              (g, Some(g)) in s.closes
  {
    hide Reaches;
    ReachableInv(steps, s);
    forall g, t | (g, ByCloser(t)) in s.wins && t in s.closers && s.closers[t] == Returned
      ensures (g, Some(g)) in s.closes
    {
      CloserHasClosed(s, g, t);
    }
    forall g | g in s.sent ensures (g, ByReader) in s.wins {
      assert s.wins[g] == (g, ByReader);
    }
  }

  /** Whoever wins a generation closes its connection: a Close has done so before it returns, and a reader before it
    * reports, which it has done before it ends. */
  lemma WinnersClose(steps: seq<Step>, s: Server)
    requires Reaches(INIT, steps, s)
    ensures forall g, t :: (g, ByCloser(t)) in s.wins ==>
              && t in s.closers && s.closers[t] != CloserSwapping
              && (s.closers[t].CloserResetting? || s.closers[t] == Returned ==> (g, Some(g)) in s.closes)
    ensures forall g :: (g, ByReader) in s.wins ==>
              && g in s.readers && s.readers[g] in {ClosingConn, Reporting, Resetting, Exited}
              && (s.readers[g] != ClosingConn ==> (g, Some(g)) in s.closes)
              && (s.readers[g] in {Resetting, Exited} ==> g in s.sent)
  {
    hide Reaches;
    ReachableInv(steps, s);
    forall g, t | (g, ByCloser(t)) in s.wins
      ensures t in s.closers && s.closers[t] != CloserSwapping
      ensures s.closers[t].CloserResetting? || s.closers[t] == Returned ==> (g, Some(g)) in s.closes
    {
      CloserHasClosed(s, g, t);
    }
    forall g | (g, ByReader) in s.wins
      ensures g in s.readers && s.readers[g] in {ClosingConn, Reporting, Resetting, Exited}
      ensures s.readers[g] != ClosingConn ==> (g, Some(g)) in s.closes
      ensures s.readers[g] in {Resetting, Exited} ==> g in s.sent
    {
      ReaderHasClosed(s, g);
    }
  }

  lemma CloserHasClosed(s: Server, g: Generation, t: Tid)
    requires Inv(s) && (g, ByCloser(t)) in s.wins
    ensures t in s.closers && s.closers[t] != CloserSwapping
    ensures s.closers[t].CloserResetting? || s.closers[t] == Returned ==> (g, Some(g)) in s.closes
  {
    assert s.wins[g] == (g, ByCloser(t)) && g == s.gen;
    if ConnClosed(s) {
      assert s.closes[g] == (g, Some(g));
    }
  }

  lemma ReaderHasClosed(s: Server, g: Generation)
    requires Inv(s) && (g, ByReader) in s.wins
    ensures g in s.readers && s.readers[g] in {ClosingConn, Reporting, Resetting, Exited}
    ensures s.readers[g] != ClosingConn ==> (g, Some(g)) in s.closes
    ensures s.readers[g] in {Resetting, Exited} ==> g in s.sent
  {
    assert s.wins[g] == (g, ByReader);
    if g < |s.closes| {
      assert s.closes[g] == (g, Some(g));
    }
    if g < |s.sent| {
      assert s.sent[g] == g;
    }
  }

  /** What a Close that is past its swap still does until it has returned. */
  lemma {:induction false} CloseGoesOn(s: Server, steps: seq<Step>, end: Server, t: Tid)
    requires Reaches(s, steps, end) && t in s.closers && s.closers[t] != CloserSwapping
    requires t in end.closers && end.closers[t] == Returned
    ensures CloserWrites(t) in steps <==> s.closers[t].WritingClose?
    ensures CloserClosesConn(t) in steps <==> s.closers[t].WritingClose? || s.closers[t].CloserClosingConn?
    decreases |steps|
  {
    if steps != [] {
      CloserGoesOn(s, steps[0], t);
      CloseGoesOn(Next(s, steps[0]), steps[1..], end, t);
      hide Next, Enabled;
      assert steps == [steps[0]] + steps[1..];
    }
  }

  lemma CloserGoesOn(s: Server, step: Step, t: Tid)
    requires Enabled(s, step) && t in s.closers && s.closers[t] != CloserSwapping
    ensures var s' := Next(s, step);
            && t in s'.closers && s'.closers[t] != CloserSwapping
            && (step == CloserWrites(t) <==> s.closers[t].WritingClose? && !s'.closers[t].WritingClose?)
            && (step == CloserClosesConn(t) <==> s.closers[t].CloserClosingConn? && !s'.closers[t].CloserClosingConn?)
            && (s.closers[t].WritingClose? ==> s'.closers[t].WritingClose? || s'.closers[t].CloserClosingConn?)
            && (!s.closers[t].WritingClose? ==> !s'.closers[t].WritingClose?)
            && (!s.closers[t].WritingClose? && !s.closers[t].CloserClosingConn? ==> !s'.closers[t].CloserClosingConn?)
  {
  }

  /** Over all runs, a Close that has returned has written its close message and closed the connection exactly when it
    * found the server Started. */
  lemma CloseActsIff(before: seq<Step>, s: Server, t: Tid, later: seq<Step>, end: Server)
    requires Reaches(INIT, before, s) && Enabled(s, CloserSwaps(t))
    requires Reaches(Next(s, CloserSwaps(t)), later, end) && t in end.closers && end.closers[t] == Returned
    ensures CloserWrites(t) in later <==> s.state == Started
    ensures CloserClosesConn(t) in later <==> s.state == Started
  {
    CloseGoesOn(Next(s, CloserSwaps(t)), later, end, t);
  }

  /** A later generation exists only because the readers of all earlier ones won and reported. */
  lemma RestartsFollowReports(steps: seq<Step>, s: Server, g: Generation)
    requires Reaches(INIT, steps, s) && g < s.gen
    ensures (g, ByReader) in s.wins && g in s.sent
    ensures forall t :: (g, ByCloser(t)) !in s.wins
  {
    ReachesKeepsInv(INIT, steps, s);
    assert s.wins[g] == (g, ByReader) && s.sent[g] == g;
  }

  /** A winner leaves the server Closed, ready for the next start. */
  lemma WinnerLeavesClosed(steps: seq<Step>, s: Server)
    requires Reaches(INIT, steps, s)
    requires s.manager == Waiting && Won(s) && !WinnerAtWork(s)
    ensures s.state == Closed
  {
    ReachesKeepsInv(INIT, steps, s);
  }

  /** While a connection is in use, the field p.conn holds the connection of the current generation. */
  lemma StartedOwnsConn(steps: seq<Step>, s: Server)
    requires Reaches(INIT, steps, s) && s.state == Started
    ensures s.conn == Some(s.gen) && s.gen in s.readers && forall w :: (s.gen, w) !in s.wins
  {
    ReachesKeepsInv(INIT, steps, s);
  }

  // ----- the end of the line -----

  /** Nobody is left who could report the current generation: a closer won it, or its reader ended before the server
    * was started. */
  predicate Unreportable(s: Server) {
    && s.manager == Waiting && s.channel == [] && !Sent(s)
    && (ReaderAt(s, s.gen, Exited) || (Won(s) && s.wins[s.gen].1.ByCloser?))
  }

  lemma UnreportableStays(s: Server, step: Step)
    requires Inv(s) && Unreportable(s) && Enabled(s, step)
    ensures Unreportable(Next(s, step)) && Next(s, step).gen == s.gen && Next(s, step).sent == s.sent
  {
  }

  lemma {:induction false} NeverReconnects(s: Server, steps: seq<Step>, end: Server)
    requires Inv(s) && Unreportable(s) && Reaches(s, steps, end)
    ensures end.gen == s.gen && end.sent == s.sent && Unreportable(end)
    decreases |steps|
  {
    if steps != [] {
      StepKeepsInv(s, steps[0]);
      UnreportableStays(s, steps[0]);
      NeverReconnects(Next(s, steps[0]), steps[1..], end);
    }
  }

  /** A deliberate Close that wins is final: no event is sent for its generation, there is no later generation, and
    * the server is never started again. */
  lemma CloseIsFinal(before: seq<Step>, s: Server, t: Tid, later: seq<Step>, end: Server)
    requires Reaches(INIT, before, s) && (s.gen, ByCloser(t)) in s.wins
    requires Reaches(s, later, end)
    ensures end.gen == s.gen && s.gen !in end.sent
    ensures end.state != Started && end.state != Starting
  {
    ReachesKeepsInv(INIT, before, s);
    NeverReconnects(s, later, end);
    ReachesKeepsInv(s, later, end);
    ReachesKeepWins(s, later, end);
  }

  lemma {:induction false} ReachesKeepWins(s: Server, steps: seq<Step>, end: Server)
    requires Reaches(s, steps, end)
    ensures s.wins <= end.wins
    decreases |steps|
  {
    if steps != [] {
      ReachesKeepWins(Next(s, steps[0]), steps[1..], end);
    }
  }

  // ----- when a started server can still report -----

  /** Confirming a start leaves a server that nobody can report exactly when its reader has already ended. */
  lemma ConfirmMeetsReader(steps: seq<Step>, s: Server)
    requires Reaches(INIT, steps, s) && Enabled(s, Confirm)
    ensures Unreportable(Next(s, Confirm)) <==> ReaderAt(s, s.gen, Exited)
    ensures Next(s, Confirm).state == Started
  {
    ReachesKeepsInv(INIT, steps, s);
  }

  lemma {:induction false} ReachesThen(s: Server, steps: seq<Step>, mid: Server, step: Step)
    requires Reaches(s, steps, mid) && Enabled(mid, step)
    ensures Reaches(s, steps + [step], Next(mid, step))
    decreases |steps|
  {
    if steps != [] {
      ReachesThen(Next(s, steps[0]), steps[1..], mid, step);
      assert (steps + [step])[1..] == steps[1..] + [step];
    }
  }

  /** From every running server that is not yet reported and not unreportable, the reader can go on to its report. */
  lemma ReaderCanReport(s: Server) returns (steps: seq<Step>, end: Server)
    requires Inv(s) && s.manager == Waiting && !Sent(s) && !Unreportable(s)
    ensures Reaches(s, steps, end) && s.gen in end.sent
  {
    var g := s.gen;
    steps, end := [], s;
    if ReaderAt(end, g, Reading) {
      steps, end := Onward(s, steps, end, ReaderStops(g));
    }
    if ReaderAt(end, g, Swapping) {
      steps, end := Onward(s, steps, end, ReaderSwaps(g));
    }
    if ReaderAt(end, g, ClosingConn) {
      steps, end := Onward(s, steps, end, ReaderClosesConn(g));
    }
    steps, end := Onward(s, steps, end, ReaderReports(g));
  }

  lemma Onward(s: Server, before: seq<Step>, mid: Server, step: Step) returns (steps: seq<Step>, end: Server)
    requires Reaches(s, before, mid) && Enabled(mid, step)
    ensures Reaches(s, steps, end) && end == Next(mid, step)
  {
    ReachesThen(s, before, mid, step);
    steps, end := before + [step], Next(mid, step);
  }

  /** This continuation sends the event of the current generation. */
  ghost predicate Reports(s: Server, steps: seq<Step>, end: Server) {
    Reaches(s, steps, end) && s.gen in end.sent
  }

  /** While the manager waits for news of the current generation, they can still come exactly when no closer won it and
    * its reader had not ended too early. */
  lemma ReportPossibleIff(before: seq<Step>, s: Server)
    requires Reaches(INIT, before, s) && s.manager == Waiting && !Sent(s)
    ensures (exists steps, end :: Reports(s, steps, end)) <==> !Unreportable(s)
  {
    ReachesKeepsInv(INIT, before, s);
    hide Reaches;
    if Unreportable(s) {
      forall steps, end ensures !Reports(s, steps, end) {
        if Reaches(s, steps, end) {
          NeverReconnects(s, steps, end);
          ReachesKeepsInv(s, steps, end);
        }
      }
    } else {
      var steps, end := ReaderCanReport(s);
      assert Reports(s, steps, end);
    }
  }

  /** A reader that ends before Starting has become Started cleans nothing up: the server can be Started with nobody
    * reading, and then it is never reconnected. */
  lemma StartedWithoutReader() returns (steps: seq<Step>, s: Server)
    ensures Reaches(INIT, steps, s)
    ensures s.state == Started && ReaderAt(s, s.gen, Exited)
    ensures forall later, end :: Reaches(s, later, end) ==> end.gen == s.gen && end.sent == []
  {
    steps, s := FirstStart(true);
    steps, s := Then(steps, s, Confirm);
    ReachesKeepsInv(INIT, steps, s);
    forall later, end | Reaches(s, later, end) ensures end.gen == s.gen && end.sent == [] {
      NeverReconnects(s, later, end);
    }
  }

  lemma Then(before: seq<Step>, mid: Server, step: Step) returns (steps: seq<Step>, s: Server)
    requires Reaches(INIT, before, mid) && Enabled(mid, step)
    ensures Reaches(INIT, steps, s) && s == Next(mid, step)
  {
    ReachesThen(INIT, before, mid, step);
    steps, s := before + [step], Next(mid, step);
  }

  lemma StartingPoint()
    ensures Reaches(INIT, [], INIT)
  {
  }

  /** The first start up to its confirmation, in which the reader may already have ended. */
  lemma FirstStart(readerEnds: bool) returns (steps: seq<Step>, s: Server)
    ensures Reaches(INIT, steps, s)
    ensures s == Server(Starting, Some(0), 0, Confirming, map[0 := if readerEnds then Exited else Reading],
                        map[], [], [], [], [])
  {
    StartingPoint();
    hide Reaches;
    steps, s := Then([], INIT, Claim);
    steps, s := Then(steps, s, SetConn);
    steps, s := Then(steps, s, Spawn);
    if readerEnds {
      steps, s := Then(steps, s, ReaderStops(0));
      steps, s := Then(steps, s, ReaderSwaps(0));
    }
  }

  /** The first reader has won. */
  lemma Lost() returns (steps: seq<Step>, s: Server)
    ensures Reaches(INIT, steps, s)
    ensures s == Server(Closing, Some(0), 0, Waiting, map[0 := ClosingConn], map[], [], [(0, ByReader)], [], [])
  {
    hide Reaches;
    steps, s := FirstStart(false);
    steps, s := Then(steps, s, Confirm);
    steps, s := Then(steps, s, ReaderStops(0));
    steps, s := Then(steps, s, ReaderSwaps(0));
  }

  /** It has reported, and the manager is about to restart the server. */
  lemma Reported() returns (steps: seq<Step>, s: Server)
    ensures Reaches(INIT, steps, s)
    ensures s == Server(Closing, Some(0), 0, Storing, map[0 := Resetting],
                        map[], [], [(0, ByReader)], [(0, Some(0))], [0])
  {
    hide Reaches;
    steps, s := Lost();
    steps, s := Then(steps, s, ReaderClosesConn(0));
    steps, s := Then(steps, s, ReaderReports(0));
    steps, s := Then(steps, s, Consume(true));
  }

  /** A reconnected server, whose first reader still has its last swap to do. */
  lemma Reconnected() returns (steps: seq<Step>, s: Server)
    ensures Reaches(INIT, steps, s)
    ensures s == Server(Started, Some(1), 1, Waiting, map[0 := Resetting, 1 := Reading],
                        map[], [], [(0, ByReader)], [(0, Some(0))], [0])
  {
    hide Reaches;
    steps, s := Reported();
    steps, s := Then(steps, s, StoreClosed);
    steps, s := Then(steps, s, Dial(DialOk));
    steps, s := Then(steps, s, Claim);
    steps, s := Then(steps, s, SetConn);
    steps, s := Then(steps, s, Spawn);
    steps, s := Then(steps, s, Confirm);
  }

  // ----- the last swap of an earlier reader -----

  /** Closer t won the current generation and has not finished. */
  predicate CloserAtWork(s: Server, t: Tid) {
    && Won(s) && s.wins[s.gen] == (s.gen, ByCloser(t))
    && t in s.closers && s.closers[t] !in {CloserSwapping, Returned}
  }

  ghost predicate ResetIn(steps: seq<Step>) {
    exists g: Generation :: ReaderResets(g) in steps
  }

  lemma {:induction false} OnlyResetsClose(s: Server, steps: seq<Step>, end: Server, t: Tid)
    requires Inv(s) && CloserAtWork(s, t)
    requires Reaches(s, steps, end) && CloserAtWork(end, t)
    ensures end.gen == s.gen
    ensures end.state == Closed <==> s.state == Closed || ResetIn(steps)
    ensures forall g: Generation :: ReaderResets(g) in steps ==> g < s.gen
    decreases |steps|
  {
    if steps != [] {
      var step, s' := steps[0], Next(s, steps[0]);
      StepKeepsInv(s, step);
      if CloserAtWork(s', t) {
        OnlyResetsClose(s', steps[1..], end, t);
        FirstReset(steps);
      } else {
        FinishedStays(s', steps[1..], end, t);
      }
    }
  }

  lemma FirstReset(steps: seq<Step>)
    requires steps != []
    ensures ResetIn(steps) <==> steps[0].ReaderResets? || ResetIn(steps[1..])
  {
    assert steps == [steps[0]] + steps[1..];
    if steps[0].ReaderResets? {
      assert ReaderResets(steps[0].g) in steps;
    } else if ResetIn(steps) {
      var g: Generation :| ReaderResets(g) in steps;
      assert ReaderResets(g) in steps[1..];
    }
  }

  /** A closer that has returned does not come back to work. */
  lemma {:induction false} FinishedStays(s: Server, steps: seq<Step>, end: Server, t: Tid)
    requires Reaches(s, steps, end)
    requires t in s.closers && s.closers[t] == Returned
    ensures t in end.closers && end.closers[t] == Returned
    decreases |steps|
  {
    if steps != [] {
      FinishedStays(Next(s, steps[0]), steps[1..], end, t);
    }
  }

  /** The last swap of a reader is not tied to its generation.  While the Close that won a generation is at work, the
    * server is Closed instead of Closing exactly when the reader of an earlier generation has made its last swap since
    * the win. */
  lemma LateResetIff(before: seq<Step>, s: Server, t: Tid, later: seq<Step>, end: Server)
    requires Reaches(INIT, before, s) && Enabled(s, CloserSwaps(t)) && s.state == Started
    requires Reaches(Next(s, CloserSwaps(t)), later, end) && CloserAtWork(end, t)
    ensures end.state == Closed <==> exists g: Generation :: g < end.gen && ReaderResets(g) in later
    ensures end.state == Closed || end.state == Closing
  {
    var won := Next(s, CloserSwaps(t));
    ReachesKeepsInv(INIT, before, s);
    StepKeepsInv(s, CloserSwaps(t));
    WinStartsWork(s, t);
    hide Reaches, Inv, Next, Enabled;
    OnlyResetsClose(won, later, end, t);
    ReachesKeepsInv(won, later, end);
    WorkerLeavesTwo(end, t);
    if ResetIn(later) {
      var g: Generation :| ReaderResets(g) in later;
      assert g < end.gen;
    }
  }

  lemma WinStartsWork(s: Server, t: Tid)
    requires Inv(s) && Enabled(s, CloserSwaps(t)) && s.state == Started
    ensures var won := Next(s, CloserSwaps(t));
            CloserAtWork(won, t) && won.gen == s.gen && won.state == Closing
  {
  }

  lemma WorkerLeavesTwo(s: Server, t: Tid)
    requires Inv(s) && CloserAtWork(s, t)
    ensures s.state == Closed || s.state == Closing
  {
  }

  /** It does happen. */
  lemma LateResetHitsNextGeneration(t: Tid) returns (steps: seq<Step>, s: Server)
    ensures Reaches(INIT, steps, s)
    ensures s.gen == 1 && t in s.closers && s.closers[t] == WritingClose(1)
    ensures s.state == Closing && Enabled(s, ReaderResets(0)) && Next(s, ReaderResets(0)).state == Closed
  {
    hide Reaches;
    steps, s := Reconnected();
    steps, s := Then(steps, s, CloserArrives(t));
    steps, s := Then(steps, s, CloserSwaps(t));
  }
}

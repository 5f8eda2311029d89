/** The logic servers of a gateway (lgcluster/cluster.go with peer/tcp_peer.go): one step system of TcpLifecycle for
  * each *peer.Server, the table in which the proxy looks them up, and the one goroutine that fills it.  That
  * goroutine first connects the servers of the naming service, one after the other, and then, in
  * handleConnectionClose, takes one disconnect event after the other: it removes the server from the table, restarts
  * it, and adds it again. */
module LogicServers {
  import opened WireCommon
  import opened Clusters
  import T = TcpLifecycle

  /** Where that goroutine is: between two connects; in Start of a server; in front of addServer; waiting for an
    * event; in front of delServer; in reconnect. */
  datatype At =
    | Connecting
    | Starting(p: Server)
    | Adding(p: Server, connecting: bool)
    | Listening
    | Deleting(p: Server)
    | Restarting(p: Server)

  datatype Hub = Hub(lives: map<Server, T.Server>, table: Table, at: At)

  datatype Step =
    | Connected(p: Server)
    | AllConnected
    | Manage(p: Server, move: T.Step)
    | Add
    | Consume(p: Server)
    | Delete
    | LifeMove(p: Server, move: T.Step)

  const INIT: Hub := Hub(map[], map[], Connecting)

  /** The steps of Start, and of reconnect with its Restart. */
  predicate OfStart(move: T.Step) {
    move.Claim? || move.SetConn? || move.Spawn? || move.Confirm?
  }

  predicate OfRestart(move: T.Step) {
    move.StoreClosed? || move.Dial?
  }

  /** The steps of the readers, and of goroutines that call Close. */
  predicate OfOthers(move: T.Step) {
    !OfStart(move) && !OfRestart(move) && !move.Consume?
  }

  predicate LifeEnabled(h: Hub, p: Server, move: T.Step) {
    p in h.lives && T.Enabled(h.lives[p], move)
  }

  /** OnDisconnect is shared by all servers and has capacity 1. */
  ghost predicate NoEvent(h: Hub) {
    forall p :: p in h.lives ==> h.lives[p].channel == []
  }

  ghost predicate Enabled(h: Hub, step: Step) {
    match step
    // the naming service lists each id once
    case Connected(p) => h.at.Connecting? && forall q :: q in h.lives ==> q.id != p.id
    case AllConnected => h.at.Connecting?
    case Manage(p, move) =>
      && LifeEnabled(h, p, move)
      && (match h.at
          case Starting(q) => p == q && OfStart(move)
          case Restarting(q) => p == q && (OfStart(move) || OfRestart(move))
          case _ => false)
    case Add => h.at.Adding?
    case Consume(p) => h.at.Listening? && LifeEnabled(h, p, T.Consume(true))
    case Delete => h.at.Deleting?
    case LifeMove(p, move) =>
      OfOthers(move) && LifeEnabled(h, p, move) && (move.ReaderReports? ==> NoEvent(h))
  }

  /** Start or reconnect has returned: a started server is added, one that was given up is not. */
  function Returned(at: At, l: T.Server, move: T.Step): At {
    if l.manager != T.Waiting then at
    else if move.Confirm? && at.Starting? then Adding(at.p, true)
    else if move.Confirm? && at.Restarting? then Adding(at.p, false)
    else Listening
  }

  function Next(h: Hub, step: Step): Hub
    requires Enabled(h, step)
  {
    match step
    case Connected(p) => h.(lives := h.lives[p := T.INIT], at := Starting(p))
    case AllConnected => h.(at := Listening)
    case Manage(p, move) =>
      var l := T.Next(h.lives[p], move);
      h.(lives := h.lives[p := l], at := Returned(h.at, l, move))
    case Add =>
      h.(table := h.table[h.at.p.id := h.at.p], at := if h.at.connecting then Connecting else Listening)
    case Consume(p) => h.(lives := h.lives[p := T.Next(h.lives[p], T.Consume(true))], at := Deleting(p))
    case Delete => h.(table := h.table - {h.at.p.id}, at := Restarting(h.at.p))
    case LifeMove(p, move) => h.(lives := h.lives[p := T.Next(h.lives[p], move)])
  }

  ghost predicate Reaches(h: Hub, steps: seq<Step>, end: Hub)
    decreases |steps|
  {
    if steps == [] then h == end
    else Enabled(h, steps[0]) && Reaches(Next(h, steps[0]), steps[1..], end)
  }

  // ----- the invariant -----

  /** The event of the current generation was sent and has been taken from the channel. */
  predicate Consumed(l: T.Server) {
    T.Sent(l) && l.channel == []
  }

  predicate Listed(table: Table, p: Server) {
    p.id in table && table[p.id] == p
  }

  /** The server was started and entered, and its event was not taken, or the goroutine is about to remove it. */
  predicate InTable(at: At, p: Server, l: T.Server) {
    at == Deleting(p) || (l.manager == T.Waiting && !Consumed(l) && !(at.Adding? && at.p == p))
  }

  /** The position of the goroutine fits the servers: it manages one at a time. */
  predicate ManagerFits(at: At, p: Server, l: T.Server) {
    match at
    case Starting(q) => if p == q then OfStartPhase(l) else l.manager == T.Waiting
    case Restarting(q) => if p == q then l.manager != T.Waiting else l.manager == T.Waiting
    case Deleting(q) => if p == q then l.manager == T.Storing && Consumed(l) else l.manager == T.Waiting
    case Adding(q, _) => l.manager == T.Waiting && (p == q ==> !Consumed(l))
    case _ => l.manager == T.Waiting
  }

  predicate OfStartPhase(l: T.Server) {
    l.manager in {T.Claiming, T.SettingConn, T.Spawning, T.Confirming}
  }

  predicate Ok(at: At, table: Table, p: Server, l: T.Server) {
    T.Inv(l) && ManagerFits(at, p, l) && (Listed(table, p) <==> InTable(at, p, l))
  }

  ghost predicate Shape(h: Hub) {
    && (forall p, q :: p in h.lives && q in h.lives && p.id == q.id ==> p == q)
    && (forall id :: id in h.table ==> h.table[id] in h.lives && h.table[id].id == id)
    && (h.at.Starting? || h.at.Adding? || h.at.Deleting? || h.at.Restarting? ==> h.at.p in h.lives)
  }

  ghost predicate Inv(h: Hub) {
    Shape(h) && forall p :: p in h.lives ==> Ok(h.at, h.table, p, h.lives[p])
  }

  /** The steps of others leave the manager alone, and consume nothing. */
  lemma OthersFrame(l: T.Server, move: T.Step)
    requires T.Inv(l) && T.Enabled(l, move) && OfOthers(move)
    ensures var l' := T.Next(l, move);
            l'.manager == l.manager && (Consumed(l') <==> Consumed(l)) && l'.gen == l.gen
  {
  }

  lemma StartFrame(l: T.Server, move: T.Step)
    requires T.Inv(l) && T.Enabled(l, move) && OfStart(move)
    ensures var l' := T.Next(l, move);
            if move.Confirm? then l'.manager == T.Waiting && !Consumed(l') else OfStartPhase(l')
  {
  }

  lemma RestartFrame(l: T.Server, move: T.Step)
    requires T.Inv(l) && T.Enabled(l, move) && OfRestart(move)
    ensures var l' := T.Next(l, move);
            if l'.manager == T.Waiting then Consumed(l') else true
  {
  }

  lemma ConsumeFrame(l: T.Server)
    requires T.Inv(l) && T.Enabled(l, T.Consume(true))
    ensures var l' := T.Next(l, T.Consume(true));
            l'.manager == T.Storing && Consumed(l') && !Consumed(l)
  {
  }

  lemma LifeMoveOk(at: At, table: Table, p: Server, l: T.Server, move: T.Step)
    requires Ok(at, table, p, l) && OfOthers(move) && T.Enabled(l, move)
    ensures Ok(at, table, p, T.Next(l, move))
  {
    hide T.Inv, T.Enabled, T.Next, Consumed;
    T.StepKeepsInv(l, move);
    OthersFrame(l, move);
  }

  lemma ManageOk(at: At, table: Table, p: Server, l: T.Server, move: T.Step)
    requires Ok(at, table, p, l) && T.Enabled(l, move)
    requires (at == Starting(p) && OfStart(move)) || (at == Restarting(p) && (OfStart(move) || OfRestart(move)))
    ensures Ok(Returned(at, T.Next(l, move), move), table, p, T.Next(l, move))
  {
    hide T.Inv, T.Enabled, T.Next, Consumed;
    T.StepKeepsInv(l, move);
    if OfStart(move) {
      StartFrame(l, move);
    } else {
      RestartFrame(l, move);
    }
  }

  lemma OtherServerOk(at: At, at': At, table: Table, q: Server, l: T.Server)
    requires Ok(at, table, q, l)
    requires at.Starting? || at.Restarting?
    requires at.p != q && (at' == at || at' == Listening || (at'.Adding? && at'.p == at.p))
    ensures Ok(at', table, q, l)
  {
    hide T.Inv, Consumed;
  }

  lemma ConsumeOk(table: Table, p: Server, q: Server, l: T.Server)
    requires Ok(Listening, table, q, l)
    requires p == q ==> T.Enabled(l, T.Consume(true))
    ensures Ok(Deleting(p), table, q, if p == q then T.Next(l, T.Consume(true)) else l)
  {
    hide T.Inv, T.Enabled, T.Next, Consumed;
    if p == q {
      T.StepKeepsInv(l, T.Consume(true));
      ConsumeFrame(l);
    }
  }

  lemma AddOk(table: Table, p: Server, connecting: bool, q: Server, l: T.Server)
    requires Ok(Adding(p, connecting), table, q, l)
    requires p.id == q.id ==> p == q
    ensures Ok(if connecting then Connecting else Listening, table[p.id := p], q, l)
  {
    hide T.Inv, Consumed;
  }

  lemma DeleteOk(table: Table, p: Server, q: Server, l: T.Server)
    requires Ok(Deleting(p), table, q, l)
    requires p.id == q.id ==> p == q
    ensures Ok(Restarting(p), table - {p.id}, q, l)
  {
    hide T.Inv, Consumed;
  }

  lemma ManageKeepsInv(h: Hub, p: Server, move: T.Step)
    requires Inv(h) && Enabled(h, Manage(p, move))
    ensures Inv(Next(h, Manage(p, move)))
  {
    hide Ok, T.Enabled, T.Next;
    var h' := Next(h, Manage(p, move));
    ManageOk(h.at, h.table, p, h.lives[p], move);
    forall q | q in h'.lives ensures Ok(h'.at, h'.table, q, h'.lives[q]) {
      if q != p {
        OtherServerOk(h.at, h'.at, h.table, q, h.lives[q]);
      }
    }
  }

  lemma LifeMoveKeepsInv(h: Hub, p: Server, move: T.Step)
    requires Inv(h) && Enabled(h, LifeMove(p, move))
    ensures Inv(Next(h, LifeMove(p, move)))
  {
    hide Ok, T.Enabled, T.Next;
    LifeMoveOk(h.at, h.table, p, h.lives[p], move);
  }

  lemma ConsumeKeepsInv(h: Hub, p: Server)
    requires Inv(h) && Enabled(h, Consume(p))
    ensures Inv(Next(h, Consume(p)))
  {
    hide Ok, T.Enabled, T.Next;
    var h' := Next(h, Consume(p));
    forall q | q in h'.lives ensures Ok(h'.at, h'.table, q, h'.lives[q]) {
      ConsumeOk(h.table, p, q, h.lives[q]);
    }
  }

  lemma AddKeepsInv(h: Hub)
    requires Inv(h) && Enabled(h, Add)
    ensures Inv(Next(h, Add))
  {
    hide Ok;
    var h' := Next(h, Add);
    forall q | q in h'.lives ensures Ok(h'.at, h'.table, q, h'.lives[q]) {
      AddOk(h.table, h.at.p, h.at.connecting, q, h.lives[q]);
    }
  }

  lemma DeleteKeepsInv(h: Hub)
    requires Inv(h) && Enabled(h, Delete)
    ensures Inv(Next(h, Delete))
  {
    hide Ok;
    var h' := Next(h, Delete);
    forall q | q in h'.lives ensures Ok(h'.at, h'.table, q, h'.lives[q]) {
      DeleteOk(h.table, h.at.p, q, h.lives[q]);
    }
  }

  lemma ConnectedKeepsInv(h: Hub, p: Server)
    requires Inv(h) && Enabled(h, Connected(p))
    ensures Inv(Next(h, Connected(p)))
  {
    hide Ok;
    var h' := Next(h, Connected(p));
    NewOk(h.table, p);
    forall q | q in h.lives ensures Ok(h'.at, h'.table, q, h'.lives[q]) {
      StillOk(h.table, p, q, h.lives[q]);
    }
  }

  lemma NewOk(table: Table, p: Server)
    requires p.id in table ==> table[p.id] != p
    ensures Ok(Starting(p), table, p, T.INIT)
  {
  }

  lemma StillOk(table: Table, p: Server, q: Server, l: T.Server)
    requires Ok(Connecting, table, q, l) && p != q
    ensures Ok(Starting(p), table, q, l)
  {
    hide T.Inv, Consumed;
  }

  lemma AllConnectedKeepsInv(h: Hub)
    requires Inv(h) && Enabled(h, AllConnected)
    ensures Inv(Next(h, AllConnected))
  {
    hide T.Inv, Consumed;
  }

  lemma StepKeepsInv(h: Hub, step: Step)
    requires Inv(h) && Enabled(h, step)
    ensures Inv(Next(h, step))
  {
    hide Inv, Enabled, Next;
    match step
    case Manage(p, move) => ManageKeepsInv(h, p, move);
    case Consume(p) => ConsumeKeepsInv(h, p);
    case LifeMove(p, move) => LifeMoveKeepsInv(h, p, move);
    case Add => AddKeepsInv(h);
    case Delete => DeleteKeepsInv(h);
    case Connected(p) => ConnectedKeepsInv(h, p);
    case AllConnected => AllConnectedKeepsInv(h);
  }

  lemma {:induction false} ReachesKeepsInv(h: Hub, steps: seq<Step>, end: Hub)
    requires Inv(h) && Reaches(h, steps, end)
    ensures Inv(end)
    decreases |steps|
  {
    if steps != [] {
      hide Inv, Enabled, Next;
      StepKeepsInv(h, steps[0]);
      ReachesKeepsInv(Next(h, steps[0]), steps[1..], end);
    }
  }

  // ----- who is in the table -----

  /** In every reachable state a server is in the table exactly when its last start is over and was entered, and the
    * event of its current generation has not been taken, or has only just been. */
  lemma ListedIff(steps: seq<Step>, h: Hub, p: Server)
    requires Reaches(INIT, steps, h) && p in h.lives
    ensures Listed(h.table, p) <==> InTable(h.at, p, h.lives[p])
    ensures forall id :: id in h.table ==> h.table[id] in h.lives && h.table[id].id == id
  {
    ReachesKeepsInv(INIT, steps, h);
  }

  /** What comes from outside: the loss of a connection, a call of Close, an outcome of dialing, and the servers of
    * the naming service. */
  predicate External(step: Step) {
    step.Connected? || (step.LifeMove? && (step.move.ReaderStops? || step.move.CloserArrives?)) ||
    (step.Manage? && step.move.Dial?)
  }

  ghost predicate Quiet(h: Hub) {
    forall step :: Enabled(h, step) ==> External(step)
  }

  /** When nothing moves and nobody is being dialled, a server is in the table exactly when no event of its current
    * generation was ever sent. */
  lemma ListedAtRest(steps: seq<Step>, h: Hub, p: Server)
    requires Reaches(INIT, steps, h) && Quiet(h) && p in h.lives && !h.at.Restarting?
    ensures Listed(h.table, p) <==> h.lives[p].gen !in h.lives[p].sent
  {
    hide T.Inv, Quiet;
    ReachesKeepsInv(INIT, steps, h);
    AtRest(h);
    NoEventAtRest(h, p);
    assert Ok(h.at, h.table, p, h.lives[p]);
    SentIff(h.lives[p]);
  }

  lemma NoEventAtRest(h: Hub, p: Server)
    requires Inv(h) && Quiet(h) && h.at == Listening && p in h.lives
    ensures h.lives[p].channel == []
  {
    hide T.Inv;
    assert !Enabled(h, Consume(p));
    assert Ok(h.at, h.table, p, h.lives[p]);
  }

  lemma SentIff(l: T.Server)
    requires T.Inv(l)
    ensures T.Sent(l) <==> l.gen in l.sent
  {
    if T.Sent(l) {
      assert l.sent[l.gen] == l.gen;
    }
  }

  lemma AtRest(h: Hub)
    requires Inv(h) && Quiet(h) && !h.at.Restarting?
    ensures h.at == Listening
  {
    hide T.Inv;
    assert !Enabled(h, AllConnected) && !Enabled(h, Add) && !Enabled(h, Delete);
    if h.at.Starting? {
      StartCanGoOn(h);
    }
  }

  lemma StartCanGoOn(h: Hub)
    requires Inv(h) && h.at.Starting?
    ensures var move := NextOfStart(h.lives[h.at.p]);
            Enabled(h, Manage(h.at.p, move)) && !move.Dial?
  {
    hide T.Inv;
    assert Ok(h.at, h.table, h.at.p, h.lives[h.at.p]);
  }

  function NextOfStart(l: T.Server): T.Step {
    match l.manager
    case Claiming => T.Claim
    case SettingConn => T.SetConn
    case Spawning => T.Spawn
    case _ => T.Confirm
  }

  /** A server that nobody can report, because its reader ended before it was started, or a Close won, stays in the
    * table for good; and in every round of calls of Get that follows it is returned once. */
  lemma DeadServerIsServed(before: seq<Step>, h: Hub, p: Server, later: seq<Step>, end: Hub,
                           ids: seq<Ksuid>, index: nat)
    requires Reaches(INIT, before, h) && p in h.lives && Listed(h.table, p) && T.Unreportable(h.lives[p])
    requires Reaches(h, later, end) && Lists(ids, end.table)
    ensures Listed(end.table, p) && p in end.lives && T.Unreportable(end.lives[p])
    ensures Count(Served(ids, index, |ids|), p.id) == 1
  {
    ReachesKeepsInv(INIT, before, h);
    StaysListed(h, p, later, end);
    assert p.id in Elements(ids);
    var t :| 0 <= t < |ids| && ids[t] == p.id;
    EachServerOncePerRound(ids, index, t);
  }

  lemma {:induction false} StaysListed(h: Hub, p: Server, steps: seq<Step>, end: Hub)
    requires Inv(h) && p in h.lives && Listed(h.table, p) && T.Unreportable(h.lives[p]) && Reaches(h, steps, end)
    ensures p in end.lives && Listed(end.table, p) && T.Unreportable(end.lives[p])
    decreases |steps|
  {
    if steps != [] {
      StepKeepsInv(h, steps[0]);
      StepLeavesUnreportable(h, p, steps[0]);
      hide Inv, Enabled, Next, T.Unreportable, Listed;
      StaysListed(Next(h, steps[0]), p, steps[1..], end);
    }
  }

  lemma StepLeavesUnreportable(h: Hub, p: Server, step: Step)
    requires Inv(h) && p in h.lives && Listed(h.table, p) && T.Unreportable(h.lives[p]) && Enabled(h, step)
    ensures var h' := Next(h, step);
            p in h'.lives && Listed(h'.table, p) && T.Unreportable(h'.lives[p])
  {
    hide T.Inv, T.Next, T.Enabled, T.Unreportable, Enabled, Next;
    var h', l := Next(h, step), h.lives[p];
    StepKeepsInv(h, step);
    assert Ok(h.at, h.table, p, l);
    NotConsumed(l);
    OnlyOthersMove(h, p, step);
    if step.LifeMove? && step.p == p {
      UnreportableMoves(l, step.move);
    }
    assert Ok(h'.at, h'.table, p, h'.lives[p]);
  }

  lemma NotConsumed(l: T.Server)
    requires T.Unreportable(l)
    ensures l.manager == T.Waiting && !Consumed(l) && l.channel == []
  {
  }

  lemma UnreportableMoves(l: T.Server, move: T.Step)
    requires T.Inv(l) && T.Unreportable(l) && T.Enabled(l, move)
    ensures T.Unreportable(T.Next(l, move))
    ensures T.Next(l, move).manager == T.Waiting && !Consumed(T.Next(l, move))
  {
    hide T.Inv, T.Next, T.Enabled;
    T.UnreportableStays(l, move);
  }

  /** A server that waits in the table with no event is not the one that the goroutine is about. */
  lemma OnlyOthersMove(h: Hub, p: Server, step: Step)
    requires Inv(h) && p in h.lives && Enabled(h, step) && Listed(h.table, p)
    requires h.lives[p].manager == T.Waiting && !Consumed(h.lives[p]) && h.lives[p].channel == []
    ensures var h' := Next(h, step);
            && p in h'.lives
            && (if step.LifeMove? && step.p == p
                then T.Enabled(h.lives[p], step.move) && h'.lives[p] == T.Next(h.lives[p], step.move)
                else h'.lives[p] == h.lives[p])
            && h'.at != Deleting(p) && !(h'.at.Adding? && h'.at.p == p)
  {
    hide T.Inv, T.Next;
    assert Ok(h.at, h.table, p, h.lives[p]);
  }

  // ----- a server that comes back -----

  lemma {:induction false} ReachesThen(h: Hub, steps: seq<Step>, mid: Hub, step: Step)
    requires Reaches(h, steps, mid) && Enabled(mid, step)
    ensures Reaches(h, steps + [step], Next(mid, step))
    decreases |steps|
  {
    hide Enabled, Next;
    if steps != [] {
      ReachesThen(Next(h, steps[0]), steps[1..], mid, step);
      assert (steps + [step])[1..] == steps[1..] + [step];
    } else {
      assert [step][1..] == [];
    }
  }

  lemma Onward(h: Hub, before: seq<Step>, mid: Hub, step: Step) returns (steps: seq<Step>, end: Hub)
    requires Reaches(h, before, mid) && Enabled(mid, step)
    ensures Reaches(h, steps, end) && end == Next(mid, step)
  {
    ReachesThen(h, before, mid, step);
    steps, end := before + [step], Next(mid, step);
  }

  /** The goroutine makes one step of Start or Restart for p. */
  lemma Manages(h: Hub, before: seq<Step>, mid: Hub, p: Server, move: T.Step) returns (steps: seq<Step>, end: Hub)
    requires Reaches(h, before, mid) && mid.at == Restarting(p) && (OfStart(move) || OfRestart(move))
    requires LifeEnabled(mid, p, move)
    ensures Reaches(h, steps, end)
    ensures var l := T.Next(mid.lives[p], move);
            p in end.lives && end.lives[p] == l && end.table == mid.table && end.at == Returned(mid.at, l, move)
  {
    hide Reaches, T.Next, T.Enabled;
    steps, end := Onward(h, before, mid, Manage(p, move));
  }

  lemma Taken(h: Hub, p: Server) returns (steps: seq<Step>, end: Hub)
    requires Inv(h) && h.at == Listening && p in h.lives && h.lives[p].channel != []
    ensures Reaches(h, steps, end) && end.at == Restarting(p) && end.table == h.table - {p.id}
    ensures p in end.lives && end.lives[p].gen == h.lives[p].gen && end.lives[p].manager == T.Storing
  {
    hide T.Inv;
    assert Ok(h.at, h.table, p, h.lives[p]);
    assert Reaches(h, [], h);
    hide Reaches, Inv, Ok;
    steps, end := Onward(h, [], h, Consume(p));
    steps, end := Onward(h, steps, end, Delete);
  }

  lemma Redialled(h: Hub, before: seq<Step>, mid: Hub, p: Server) returns (steps: seq<Step>, end: Hub)
    requires Reaches(h, before, mid) && mid.at == Restarting(p) && p in mid.lives
    requires mid.lives[p].manager == T.Storing
    ensures Reaches(h, steps, end) && end.at == Restarting(p) && end.table == mid.table && p in end.lives
    ensures var l := end.lives[p];
            l.gen == mid.lives[p].gen + 1 && l.manager == T.Claiming && l.state == T.Closed
  {
    hide Reaches;
    steps, end := Manages(h, before, mid, p, T.StoreClosed);
    steps, end := Manages(h, steps, end, p, T.Dial(T.DialOk));
  }

  lemma StartedAgain(h: Hub, before: seq<Step>, mid: Hub, p: Server) returns (steps: seq<Step>, end: Hub)
    requires Reaches(h, before, mid) && mid.at == Restarting(p) && p in mid.lives
    requires mid.lives[p].manager == T.Claiming && mid.lives[p].state == T.Closed
    ensures Reaches(h, steps, end) && end.at == Adding(p, false) && end.table == mid.table && p in end.lives
    ensures end.lives[p].gen == mid.lives[p].gen && end.lives[p].state == T.Started
  {
    hide Reaches;
    steps, end := Manages(h, before, mid, p, T.Claim);
    steps, end := Manages(h, steps, end, p, T.SetConn);
    steps, end := Manages(h, steps, end, p, T.Spawn);
    steps, end := Manages(h, steps, end, p, T.Confirm);
  }

  /** Whatever has happened, a logic server whose loss has been reported comes back when it can be dialled: taken out of
    * the table, restarted with a new connection, and entered again, while all others stay where they are. */
  lemma LostServerComesBack(before: seq<Step>, h: Hub, p: Server) returns (later: seq<Step>, end: Hub)
    requires Reaches(INIT, before, h) && h.at == Listening && p in h.lives && h.lives[p].channel != []
    ensures Reaches(h, later, end)
    ensures p in end.lives && end.lives[p].gen == h.lives[p].gen + 1 && end.lives[p].state == T.Started
    ensures end.at == Listening && Listed(end.table, p)
    ensures forall q :: Listed(h.table, q) && q.id != p.id ==> Listed(end.table, q)
  {
    hide Reaches, T.Inv;
    ReachesKeepsInv(INIT, before, h);
    later, end := Taken(h, p);
    later, end := Redialled(h, later, end, p);
    later, end := StartedAgain(h, later, end, p);
    later, end := Onward(h, later, end, Add);
  }
}

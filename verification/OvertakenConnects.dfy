/** Two runs of the step system of ClientHub in which the disconnect of a client overtakes its connect, with the two
  * ends that this can have. */
module OvertakenConnects {
  import opened Streams
  import opened WireMessage
  import opened Registry
  import opened ClientHub
  import opened ClientAccounts
  import P = Pump
  import W = WsLifecycle

  lemma {:induction false} ReachesThen(h: Hub, steps: seq<Step>, mid: Hub, step: Step, target: KickTarget)
    requires Reaches(h, steps, mid, target) && Enabled(mid, step, target)
    ensures Reaches(h, steps + [step], Next(mid, step, target), target)
    decreases |steps|
  {
    hide Enabled, Next;
    if steps != [] {
      ReachesThen(Next(h, steps[0], target), steps[1..], mid, step, target);
      assert (steps + [step])[1..] == steps[1..] + [step];
    } else {
      assert [step][1..] == [];
    }
  }

  lemma Then(mid: Hub, step: Step, target: KickTarget) returns (h: Hub)
    requires Reachable(mid, target) && Enabled(mid, step, target)
    ensures Reachable(h, target) && h == Next(mid, step, target)
  {
    var steps :| Reaches(INIT, steps, mid, target);
    ReachesThen(INIT, steps, mid, step, target);
    h := Next(mid, step, target);
  }

  lemma ThenLife(mid: Hub, c: Client, move: W.Step, target: KickTarget) returns (h: Hub)
    requires Reachable(mid, target) && !mid.pump.crashed && OwnLife(move) && LifeEnabled(mid, c, move)
    ensures Reachable(h, target) && h == mid.(lives := mid.lives[c := W.Next(mid.lives[c], move)])
  {
    hide Reachable, W.Next, W.Enabled;
    h := Then(mid, LifeMove(c, move), target);
  }

  lemma ThenPump(mid: Hub, act: P.Step, target: KickTarget) returns (h: Hub)
    requires Reachable(mid, target) && OwnPump(act) && P.Enabled(mid.pump, act)
    ensures Reachable(h, target) && h == mid.(pump := P.Next(mid.pump, act, target))
  {
    hide Reachable, P.Next, P.Enabled;
    assert !mid.pump.crashed by {
      PumpLives(mid.pump, act);
    }
    h := Then(mid, PumpMove(act), target);
  }

  lemma PumpLives(s: P.System, act: P.Step)
    requires P.Enabled(s, act)
    ensures !s.crashed
  {
  }

  /** A client that was started, and one that has lost its connection and sent its event. */
  const STARTED: W.Life := W.INIT.(state := W.Started, starter := W.StartReturned, reader := W.Reading)

  const REPORTED: W.Life :=
    STARTED.(state := W.Closing, connOpen := false, reader := W.ClearingConn, events := 1, wins := 1,
             winner := Some(W.ByReader))

  lemma Started(c: Client, target: KickTarget) returns (h: Hub)
    ensures Reachable(h, target) && h == Hub(P.INIT, map[c := STARTED], {}, None, None)
  {
    assert Reaches(INIT, [], INIT, target);
    hide Reachable;
    h := Then(INIT, NewClient(c), target);
    h := ThenLife(h, c, W.Claim, target);
    h := ThenLife(h, c, W.Spawn, target);
    h := Then(h, LogStart(c), target);
  }

  /** The connection is lost before registClient has pushed the connect, and the reader has just sent its event. */
  lemma EarlyReport(c: Client, target: KickTarget) returns (h: Hub)
    ensures Reachable(h, target) && h == Hub(P.INIT, map[c := REPORTED], {}, Some(c), None)
  {
    hide Reachable;
    h := Started(c, target);
    h := ThenLife(h, c, W.ReaderStops, target);
    h := ThenLife(h, c, W.ReaderSwaps, target);
    h := ThenLife(h, c, W.ReaderClosesConn, target);
    h := Then(h, Report(c), target);
  }

  /** A packet in enqueue comes to the handler of an idle pump. */
  lemma ComesThrough(mid: Hub, t: P.Pusher, target: KickTarget) returns (h: Hub)
    requires Reachable(mid, target) && t in mid.pump.pushers
    requires mid.pump == P.INIT.(pushers := mid.pump.pushers, books := mid.pump.books, up := mid.pump.up,
                                 accepted := mid.pump.accepted, handled := mid.pump.handled)
    ensures Reachable(h, target)
    ensures h == mid.(pump := mid.pump.(pushers := mid.pump.pushers - {t}, waiting := true,
                                        accepted := mid.pump.accepted + [mid.pump.pushers[t]],
                                        handler := P.Handling(mid.pump.pushers[t])))
  {
    hide Reachable;
    h := ThenPump(mid, P.Accept(t), target);
    h := ThenPump(h, P.TakeEnqueue, target);
    h := ThenPump(h, P.SendDequeue, target);
    h := ThenPump(h, P.TakeDequeue, target);
  }

  /** The handler is through, and the pump is idle again. */
  lemma ComesBack(mid: Hub, target: KickTarget) returns (h: Hub)
    requires Reachable(mid, target)
    requires mid.pump == P.INIT.(waiting := true, handler := P.Acking, books := mid.pump.books, up := mid.pump.up,
                                 accepted := mid.pump.accepted, handled := mid.pump.handled)
    ensures Reachable(h, target)
    ensures h == mid.(pump := mid.pump.(waiting := false, handler := P.Receiving))
  {
    hide Reachable;
    h := ThenPump(mid, P.Acknowledge, target);
    h := ThenPump(h, P.TakeNext, target);
  }

  /** The disconnect has been handled, and the connect is in the handler's hands. */
  lemma ConnectBegins(c: Client, target: KickTarget) returns (h: Hub)
    ensures Reachable(h, target)
    ensures h.pump == P.INIT.(waiting := true, handler := P.Announcing(c, P.ATTRS_READ),
                              books := Books(map[c.id := c], 0, []),
                              accepted := [Disconnect(c), Connect(c)], handled := [Disconnect(c)])
    ensures h == Hub(h.pump, map[c := REPORTED], {c}, None, None)
  {
    hide Reachable;
    h := EarlyReport(c, target);
    h := Then(h, Listen, target);
    assert h.pump.pushers - {P.Listener} == map[];
    h := ComesThrough(h, P.Listener, target);
    h := ThenPump(h, P.Begin, target);
    h := ComesBack(h, target);
    h := ConnectComes(h, c, target);
    h := ThenPump(h, P.Begin, target);
  }

  lemma ConnectComes(mid: Hub, c: Client, target: KickTarget) returns (h: Hub)
    requires Reachable(mid, target)
    requires mid == Hub(P.INIT.(accepted := [Disconnect(c)], handled := [Disconnect(c)]), map[c := REPORTED], {}, None,
                        None)
    ensures Reachable(h, target)
    ensures h == Hub(P.INIT.(waiting := true, handler := P.Handling(Connect(c)),
                             accepted := [Disconnect(c), Connect(c)], handled := [Disconnect(c)]),
                     map[c := REPORTED], {c}, None, None)
  {
    hide Reachable;
    h := Then(mid, Register(c), target);
    assert h.pump.pushers - {P.Registrar(c)} == map[];
    h := ComesThrough(h, P.Registrar(c), target);
  }

  lemma Cleaned(mid: Hub, c: Client, target: KickTarget) returns (h: Hub)
    requires Reachable(mid, target) && !mid.pump.crashed && mid.lives == map[c := REPORTED]
    ensures Reachable(h, target)
    ensures h == mid.(lives := map[c := REPORTED.(hasConn := false, hasAttrs := false, reader := W.Resetting)])
  {
    hide Reachable;
    h := ThenLife(mid, c, W.ReaderClearsConn, target);
    h := ThenLife(h, c, W.ReaderClearsAttrs, target);
  }

  /** When clean runs before the connect handler has read the Attrs, the handler takes the process with it. */
  lemma OvertakenAndFatal(c: Client, target: KickTarget) returns (h: Hub)
    ensures Reachable(h, target)
    ensures Overtaken(h.pump.accepted, c) && Doomed(h, c)
    ensures Enabled(h, ReadAttrs, target) && Next(h, ReadAttrs, target).pump.crashed
  {
    hide Reachable;
    h := ConnectBegins(c, target);
    h := Cleaned(h, c, target);
    assert h.pump.accepted[0] == Disconnect(c) && h.pump.accepted[1] == Connect(c);
  }

  /** When the reader is slower, the gateway comes to rest with a dead client in its map; unless the proxy runs, which
    * then has an empty packet to take. */
  lemma OvertakenAndRegistered(c: Client, target: KickTarget) returns (h: Hub)
    ensures Reachable(h, target) && Quiet(h, target) && !h.pump.crashed
    ensures Overtaken(h.pump.accepted, c) && h.pump.up == [Empty]
    ensures c.id in h.pump.books.clients && c in h.lives && h.lives[c].state == W.Closed && !h.lives[c].hasAttrs
  {
    hide Reachable;
    h := ConnectBegins(c, target);
    h := Announced(h, c, target);
    h := ComesBack(h, target);
    h := Cleaned(h, c, target);
    h := ThenLife(h, c, W.ReaderResets, target);
    assert h.pump.accepted[0] == Disconnect(c) && h.pump.accepted[1] == Connect(c);
  }

  lemma Announced(mid: Hub, c: Client, target: KickTarget) returns (h: Hub)
    requires Reachable(mid, target) && mid.lives == map[c := REPORTED]
    requires mid.pump == P.INIT.(waiting := true, handler := P.Announcing(c, P.ATTRS_READ),
                                 books := Books(map[c.id := c], 0, []),
                                 accepted := mid.pump.accepted, handled := mid.pump.handled)
    ensures Reachable(h, target)
    ensures h == mid.(pump := mid.pump.(handler := P.Acking, books := Books(map[c.id := c], 1, [SendEmpty]),
                                        up := [Empty], handled := mid.pump.handled + [Connect(c)]))
  {
    hide Reachable;
    h := Then(mid, ReadAttrs, target);
    h := Then(h, ReadAttrs, target);
    h := Then(h, ReadAttrs, target);
    h := ThenPump(h, P.Notify, target);
    h := ThenPump(h, P.Count, target);
  }
}

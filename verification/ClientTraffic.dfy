/** The messages that pass through the system of ClientHub: those of the clients on their way to the proxy, and those of
  * the logic servers on their way into the queue. */
module ClientTraffic {
  import opened Streams
  import opened WireMessage
  import opened Registry
  import opened ClientHub
  import P = Pump
  import PumpTraffic
  import W = WsLifecycle

  // ----- up -----

  /** What the steps of a run are for the pump. */
  ghost function PumpRun(h: Hub, steps: seq<Step>, target: KickTarget): seq<P.Step>
    decreases |steps|
  {
    if steps == [] || !Enabled(h, steps[0], target) then []
    else
      var part := PumpPart(h, steps[0], target);
      (if part.Some? then [part.value] else []) + PumpRun(Next(h, steps[0], target), steps[1..], target)
  }

  /** The messages of the clients that handleClientEvents receives in a run. */
  function MessagesIn(steps: seq<Step>): seq<RelayPacket> {
    if steps == [] then [] else (if steps[0].MessageIn? then [steps[0].m] else []) + MessagesIn(steps[1..])
  }

  /** The message that it is about to send up. */
  function Held(h: Hub): seq<RelayPacket> {
    if h.listener.Some? then [h.listener.value] else []
  }

  lemma StepHolds(h: Hub, step: Step, target: KickTarget)
    requires Enabled(h, step, target)
    ensures var part := PumpPart(h, step, target);
            Held(h) + (if step.MessageIn? then [step.m] else []) ==
            (if part.Some? && part.value.SendUp? then [part.value.message] else []) + Held(Next(h, step, target))
  {
    hide P.Next, P.Enabled, NextPump, NextLives, LifeEnabled, OwnLife, Target;
  }

  /** Every run of the whole is a run of the pump, in which those messages are sent up that were received and are not
    * held any more. */
  lemma {:induction false} PumpRuns(h: Hub, steps: seq<Step>, end: Hub, target: KickTarget)
    requires Reaches(h, steps, end, target)
    ensures P.Reaches(h.pump, PumpRun(h, steps, target), end.pump, target)
    ensures Held(h) + MessagesIn(steps) == PumpTraffic.SentUp(PumpRun(h, steps, target)) + Held(end)
    decreases |steps|
  {
    hide Enabled, Next, Held, PumpPart, P.Next, P.Enabled;
    if steps != [] {
      var step, h' := steps[0], Next(h, steps[0], target);
      var run, part := PumpRun(h', steps[1..], target), PumpPart(h, step, target);
      PumpRuns(h', steps[1..], end, target);
      StepHolds(h, step, target);
      PumpStep(h, step, target);
      if part.Some? {
        assert PumpRun(h, steps, target) == [part.value] + run;
        assert ([part.value] + run)[1..] == run;
      } else {
        assert PumpRun(h, steps, target) == [] + run == run;
      }
      HeldInRun(Held(h), if step.MessageIn? then [step.m] else [],
                if part.Some? && part.value.SendUp? then [part.value.message] else [], Held(h'),
                MessagesIn(steps[1..]), PumpTraffic.SentUp(run), Held(end));
      assert PumpTraffic.SentUp(PumpRun(h, steps, target)) ==
             (if part.Some? && part.value.SendUp? then [part.value.message] else []) + PumpTraffic.SentUp(run);
    }
  }

  lemma PumpStep(h: Hub, step: Step, target: KickTarget)
    requires Enabled(h, step, target)
    ensures var part, h' := PumpPart(h, step, target), Next(h, step, target);
            if part.Some? then P.Enabled(h.pump, part.value) && h'.pump == P.Next(h.pump, part.value, target)
            else h'.pump == h.pump
  {
    hide Enabled, PumpPart, NextLives, P.Next, P.Enabled;
  }

  lemma HeldInRun<T>(held: seq<T>, arrived: seq<T>, sent: seq<T>, held': seq<T>, later: seq<T>, sentLater: seq<T>,
                     end: seq<T>)
    requires held + arrived == sent + held' && held' + later == sentLater + end
    ensures held + (arrived + later) == (sent + sentLater) + end
  {
    assert held + (arrived + later) == (held + arrived) + later;
    assert (sent + held') + later == sent + (held' + later);
    assert sent + (sentLater + end) == (sent + sentLater) + end;
  }

  /** In every run, the messages of the clients that handleClientEvents has received are, unchanged and in order, those
    * that the proxy has taken, then those in its channel, and then the one that is about to be sent. */
  lemma MessagesGoUp(steps: seq<Step>, h: Hub, target: KickTarget)
    requires Reaches(INIT, steps, h, target)
    ensures MessagesIn(steps) ==
            Packets(PumpTraffic.Taken(P.INIT, PumpRun(INIT, steps, target), target)) + Packets(h.pump.up) + Held(h)
  {
    hide Reaches, PumpRun, P.Reaches;
    PumpRuns(INIT, steps, h, target);
    PumpTraffic.MessagesComeThrough(P.INIT, PumpRun(INIT, steps, target), h.pump, target);
    assert Held(INIT) + MessagesIn(steps) == MessagesIn(steps);
    var sent := PumpTraffic.SentUp(PumpRun(INIT, steps, target));
    assert Packets(P.INIT.up) + sent == sent;
  }

  // ----- down -----

  /** The packets of the logic servers that handleSeverEvents receives in a run. */
  function RelaysIn(steps: seq<Step>): seq<RelayPacket> {
    if steps == [] then [] else (if steps[0].RelayIn? then [steps[0].m] else []) + RelaysIn(steps[1..])
  }

  /** The relayed packets among those of the queue. */
  function RelaysOf(ps: seq<Packet>): seq<RelayPacket> {
    if ps == [] then []
    else RelaysOf(ps[..|ps| - 1]) + if ps[|ps| - 1].Relay? then [ps[|ps| - 1].message] else []
  }

  /** The one that handleSeverEvents is about to queue. */
  function Waiting(s: P.System): seq<RelayPacket> {
    if P.Relayer in s.pushers && s.pushers[P.Relayer].Relay? then [s.pushers[P.Relayer].message] else []
  }

  lemma RelayStep(h: Hub, step: Step, target: KickTarget)
    requires PostInv(h) && Enabled(h, step, target)
    ensures var s, s' := h.pump, Next(h, step, target).pump;
            (if step.RelayIn? then Waiting(s) == [] && Waiting(s') == [step.m] && s'.accepted == s.accepted
             else RelaysOf(s'.accepted) + Waiting(s') == RelaysOf(s.accepted) + Waiting(s))
  {
    hide Enabled, PumpPart, NextLives, P.Next, P.Enabled, RelaysOf;
    PumpStep(h, step, target);
    var act := PumpPart(h, step, target);
    if act.Some? {
      PumpFrame(h.pump, act.value, target);
      WhoOffers(h, step, target);
      if act.value.Accept? {
        AcceptedRelay(h.pump, act.value.waiter, h.lives);
      }
    } else {
      WhoRelays(h, step, target);
    }
  }

  lemma WhoOffers(h: Hub, step: Step, target: KickTarget)
    requires Enabled(h, step, target) && PumpPart(h, step, target).Some?
    ensures var act := PumpPart(h, step, target).value;
            && (step.RelayIn? <==> act.Offer? && act.pusher == P.Relayer)
            && (step.RelayIn? ==> act.packet == Relay(step.m) && P.Relayer !in h.pump.pushers)
            && (act.Accept? ==> act.waiter in h.pump.pushers)
  {
    hide P.Next, LifeEnabled, OwnLife, Target;
  }

  lemma WhoRelays(h: Hub, step: Step, target: KickTarget)
    requires Enabled(h, step, target) && PumpPart(h, step, target) == None
    ensures !step.RelayIn?
  {
    hide P.Next, P.Enabled, LifeEnabled, OwnLife, Target;
  }

  lemma AcceptedRelay(s: P.System, t: P.Pusher, lives: map<Client, W.Life>)
    requires t in s.pushers && Posted(t, s.pushers[t], lives)
    ensures RelaysOf(s.accepted + [s.pushers[t]]) ==
            RelaysOf(s.accepted) + if t == P.Relayer then [s.pushers[t].message] else []
  {
    var p := s.pushers[t];
    assert (s.accepted + [p])[..|s.accepted|] == s.accepted;
  }

  lemma {:induction false} RunRelays(h: Hub, steps: seq<Step>, end: Hub, target: KickTarget)
    requires Inv(h, target) && Reaches(h, steps, end, target)
    ensures RelaysOf(h.pump.accepted) + Waiting(h.pump) + RelaysIn(steps) ==
            RelaysOf(end.pump.accepted) + Waiting(end.pump)
    decreases |steps|
  {
    hide Enabled, Next, RelaysOf, Waiting, P.Inv, LivesInv, PostInv, MailInv, KickInv;
    if steps == [] {
      assert RelaysOf(h.pump.accepted) + Waiting(h.pump) + [] == RelaysOf(h.pump.accepted) + Waiting(h.pump);
    } else {
      var h' := Next(h, steps[0], target);
      StepKeepsInv(h, steps[0], target);
      RunRelays(h', steps[1..], end, target);
      RelayStep(h, steps[0], target);
      var relays, later := RelaysOf(h.pump.accepted), RelaysIn(steps[1..]);
      if steps[0].RelayIn? {
        assert relays + [] + ([steps[0].m] + later) == relays + [steps[0].m] + later;
      } else {
        assert [] + later == later;
      }
    }
  }

  /** In every run, the packets of the logic servers that handleSeverEvents has received are, unchanged and in order,
    * the relayed ones among those that entered the queue, and then the one that waits to enter. */
  lemma RelaysComeIn(steps: seq<Step>, h: Hub, target: KickTarget)
    requires Reaches(INIT, steps, h, target)
    ensures RelaysIn(steps) == RelaysOf(h.pump.accepted) + Waiting(h.pump)
  {
    hide Reaches, Inv;
    InitInv(target);
    RunRelays(INIT, steps, h, target);
    assert [] + [] + RelaysIn(steps) == RelaysIn(steps);
  }
}

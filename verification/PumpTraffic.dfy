/** What passes through the pump in a run: the messages of the clients on the channel of the proxy, and the uses of a
  * client's connection in a Push. */
module PumpTraffic {
  import opened WireMessage
  import opened Registry
  import opened Pump

  // ----- the way up -----

  /** What the loop of the proxy has in hand after each of its receipts in a run. */
  ghost function Taken(s: System, steps: seq<Step>, target: KickTarget): seq<Upward>
    decreases |steps|
  {
    if steps == [] || !Enabled(s, steps[0]) then []
    else
      var s' := Next(s, steps[0], target);
      (if steps[0].ProxyTakes? && s'.proxy.Some? then [s'.proxy.value] else []) + Taken(s', steps[1..], target)
  }

  /** The messages of clients that are sent up in a run. */
  function SentUp(steps: seq<Step>): seq<RelayPacket> {
    if steps == [] then []
    else (if steps[0].SendUp? then [steps[0].message] else []) + SentUp(steps[1..])
  }

  lemma UpStep(s: System, step: Step, target: KickTarget)
    requires Enabled(s, step)
    ensures var s' := Next(s, step, target);
            if step.ProxyTakes? then s'.proxy.Some? && s.up == [s'.proxy.value] + s'.up
            else if step.SendUp? then s'.up == s.up + [Full(step.message)]
            else s'.up == s.up || s'.up == s.up + [Empty]
  {
    hide Begun, Finished, Delivery;
    if step.Begin? {
      BeginKeepsWayUp(s, s.handler.packet);
    } else if step.Finish? {
      FinishKeepsWayUp(s, target);
    }
  }

  lemma BeginKeepsWayUp(s: System, p: Packet)
    ensures Begun(s, p).up == s.up
  {
  }

  lemma Prepended<T>(p: seq<T>, a: seq<T>, b: seq<T>, c: seq<T>, d: seq<T>)
    requires a + b == c + d
    ensures (p + a) + b == (p + c) + d
  {
    assert (p + a) + b == p + (a + b);
    assert (p + c) + d == p + (c + d);
  }

  lemma TakenFirst(up: seq<Upward>, first: Upward, later: seq<Upward>, end: seq<Upward>, sent: seq<RelayPacket>)
    requires Packets(up) + sent == Packets(later) + Packets(end)
    ensures Packets([first] + up) + sent == Packets([first] + later) + Packets(end)
  {
    hide Packets;
    PacketsAppend([first], up);
    PacketsAppend([first], later);
    Prepended(Packets([first]), Packets(up), sent, Packets(later), Packets(end));
  }

  lemma EnteredLast(up: seq<Upward>, last: Upward, sent: seq<RelayPacket>)
    ensures Packets(up + [last]) + sent == Packets(up) + ((if last.Full? then [last.packet] else []) + sent)
  {
    PacketsAppend(up, [last]);
    PacketsOf([last]);
  }

  /** The messages of the clients come through the channel unchanged and in order, wherever the handlers' empty packets
    * come to stand between them: those that the proxy has taken, and then those that are still in the channel, are
    * those that were there and those that were sent since. */
  lemma {:induction false} MessagesComeThrough(s: System, steps: seq<Step>, end: System, target: KickTarget)
    requires Reaches(s, steps, end, target)
    ensures Packets(s.up) + SentUp(steps) == Packets(Taken(s, steps, target)) + Packets(end.up)
    decreases |steps|
  {
    hide Enabled, Next, Packets;
    if steps != [] {
      var s' := Next(s, steps[0], target);
      UpStep(s, steps[0], target);
      MessagesComeThrough(s', steps[1..], end, target);
      var taken, sent := Taken(s', steps[1..], target), SentUp(steps[1..]);
      assert [] + taken == taken && [] + sent == sent;
      if steps[0].ProxyTakes? {
        TakenFirst(s'.up, s'.proxy.value, taken, end.up, sent);
      } else if s'.up != s.up {
        EnteredLast(s.up, s'.up[|s.up|], sent);
      }
    } else {
      NoPackets(end.up);
    }
  }

  lemma NoPackets(up: seq<Upward>)
    ensures Packets([]) + Packets(up) == Packets(up) + []
  {
  }

  // ----- the Push of a Started client -----

  /** How many steps of a run are of one kind. */
  ghost function Tally(s: System, steps: seq<Step>, target: KickTarget, kind: (System, Step) -> bool): nat
    decreases |steps|
  {
    if steps == [] || !Enabled(s, steps[0]) then 0
    else One(kind(s, steps[0])) + Tally(Next(s, steps[0], target), steps[1..], target, kind)
  }

  /** A Push sets its deadline without an error. */
  predicate SetsDeadline(s: System, step: Step) {
    step == UseConn(true, true) && s.handler.Writing? && !s.handler.deadline
  }

  /** A Push with a deadline writes its bytes, or fails to. */
  predicate WritesBytes(s: System, step: Step) {
    step.UseConn? && step.found && s.handler.Writing? && s.handler.deadline
  }

  predicate MustWrite(s: System) {
    s.handler.Writing? && s.handler.deadline
  }

  /** In every run each Push that has set its deadline goes on to write, but for one that is about to. */
  lemma {:induction false} DeadlinesAreUsed(s: System, steps: seq<Step>, end: System, target: KickTarget)
    requires Reaches(s, steps, end, target)
    ensures Tally(s, steps, target, SetsDeadline) + One(MustWrite(s)) ==
            Tally(s, steps, target, WritesBytes) + One(MustWrite(end))
    decreases |steps|
  {
    if steps != [] {
      DeadlinesAreUsed(Next(s, steps[0], target), steps[1..], end, target);
      DeadlineStep(s, steps[0], target);
      hide Enabled, Next;
    }
  }

  lemma DeadlineStep(s: System, step: Step, target: KickTarget)
    requires Enabled(s, step)
    ensures One(SetsDeadline(s, step)) + One(MustWrite(s)) ==
            One(WritesBytes(s, step)) + One(MustWrite(Next(s, step, target)))
  {
    hide Delivery, Wrap32;
  }
}

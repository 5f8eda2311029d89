/** The relay pipeline between a gateway and a logic server: packets are pushed as frames, share the connection
  * with pings, pongs and a possible close, cross a stream that is cut anywhere, and are decoded at the far end. */
module Pipeline {
  import opened Bytes
  import opened Streams
  import opened WireMessage
  import opened Frames
  import opened FrameWriters

  /** The frames of a sequence of Push calls, one for each packet. */
  function PushFrames(packets: seq<RelayPacket>): (fs: seq<Frame>)
    ensures |fs| == |packets|
  {
    seq(|packets|, i requires 0 <= i < |packets| => NewFrame(OP_MESSAGE, EncodeRelay(packets[i])))
  }

  /** The bytes of a push, by their places: op code 5, and the encoded packet behind its length. */
  lemma PushLayout(packets: seq<RelayPacket>, i: nat)
    requires i < |packets| && |EncodeRelay(packets[i])| < 0x1_0000_0000
    ensures var b, packet := EncodeFrame(PushFrames(packets)[i]), EncodeRelay(packets[i]);
            |b| == 5 + |packet| && b[0] == 5 && Uint32(b[1..5]) == |packet| && b[5..] == packet
  {
    hide EncodeRelay, PutUint32, Uint32;
    var packet := EncodeRelay(packets[i]);
    FourBytes(|packet|);
    assert EncodeFrame(PushFrames(packets)[i])[1..5] == PutUint32(|packet|);
  }

  /** The payloads that reach onMsg. */
  function Payloads(actions: seq<Action>): seq<seq<byte>> {
    if actions == [] then []
    else (if actions[0].Deliver? then [actions[0].payload] else []) + Payloads(actions[1..])
  }

  /** The logic server stops at the first payload that it cannot decode (server/hub/hub.go). */
  function DecodeUntilError(payloads: seq<seq<byte>>): seq<RelayPacket> {
    if payloads == [] || ParseRelay(payloads[0]).result.Err? then []
    else [ParseRelay(payloads[0]).result.value] + DecodeUntilError(payloads[1..])
  }

  /** The gateway skips what it cannot decode (lgcluster/proxy.go). */
  function DecodeSkipping(payloads: seq<seq<byte>>): seq<RelayPacket> {
    if payloads == [] then []
    else
      var res := ParseRelay(payloads[0]).result;
      (if res.Ok? then [res.value] else []) + DecodeSkipping(payloads[1..])
  }

  /** The frames in front of the first close frame. */
  function BeforeClose(out: seq<(WriterId, Frame)>): seq<(WriterId, Frame)> {
    if out == [] || out[0].1.OpCode() == OP_CLOSE then []
    else [out[0]] + BeforeClose(out[1..])
  }

  // ----- lists -----

  lemma {:induction false} SentByAppend(a: seq<(WriterId, Frame)>, b: seq<(WriterId, Frame)>, t: WriterId)
    ensures SentBy(a + b, t) == SentBy(a, t) + SentBy(b, t)
  {
    if b == [] {
      assert a + b == a;
    } else {
      var n := |b| - 1;
      SentByAppend(a, b[..n], t);
      assert (a + b)[..|a| + n] == a + b[..n];
    }
  }

  lemma {:induction false} BeforeCloseIsPrefix(out: seq<(WriterId, Frame)>)
    ensures BeforeClose(out) <= out
    ensures !HasClose(FramesOf(out)) ==> BeforeClose(out) == out
  {
    if out != [] && out[0].1.OpCode() != OP_CLOSE {
      BeforeCloseIsPrefix(out[1..]);
      assert out == [out[0]] + out[1..];
      if !HasClose(FramesOf(out)) {
        forall i | 0 <= i < |out[1..]| ensures FramesOf(out[1..])[i].OpCode() != OP_CLOSE {
          assert FramesOf(out[1..])[i] == FramesOf(out)[i + 1];
        }
      }
    } else if out != [] {
      assert FramesOf(out)[0].OpCode() == OP_CLOSE;
    }
  }

  lemma {:induction false} PayloadsAppend(a: seq<Action>, b: seq<Action>)
    ensures Payloads(a + b) == Payloads(a) + Payloads(b)
  {
    if a == [] {
      assert a + b == b;
    } else {
      PayloadsAppend(a[1..], b);
      assert (a + b)[1..] == a[1..] + b;
    }
  }

  function PayloadsOf(fs: seq<Frame>): (ps: seq<seq<byte>>)
    ensures |ps| == |fs| && forall i :: 0 <= i < |ps| ==> ps[i] == fs[i].payload
  {
    seq(|fs|, i requires 0 <= i < |fs| => fs[i].payload)
  }

  /** Only the pusher sends frames that carry a payload. */
  ghost predicate OnlyPushesCarry(out: seq<(WriterId, Frame)>, pusher: WriterId) {
    forall i :: 0 <= i < |out| ==>
      var (t, f) := out[i];
      if t == pusher then f.OpCode() == OP_MESSAGE && f.payload != [] else f.payload == []
  }

  /** The reader hands over exactly the pushed payloads that precede a close frame. */
  lemma {:induction false} PayloadsAreThePushes(out: seq<(WriterId, Frame)>, pusher: WriterId)
    requires OnlyPushesCarry(out, pusher)
    ensures Payloads(ExpectedActions(FramesOf(out))) == PayloadsOf(SentBy(BeforeClose(out), pusher))
  {
    if out != [] && out[0].1.OpCode() != OP_CLOSE {
      var (t, f) := out[0];
      PayloadsAreThePushes(out[1..], pusher);
      assert FramesOf(out)[1..] == FramesOf(out[1..]);
      PayloadsAppend(ActionsOf(f), ExpectedActions(FramesOf(out[1..])));
      SentByAppend([out[0]], BeforeClose(out[1..]), pusher);
      assert SentBy([out[0]][..0], pusher) == [];
      assert SentBy([out[0]], pusher) == if t == pusher then [f] else [];
      assert Payloads(ActionsOf(f)) == if t == pusher then [f.payload] else [];
    }
  }

  /** Both far ends decode a list of encodings of well-formed packets to that list. */
  lemma {:induction false} DecodeAll(packets: seq<RelayPacket>, payloads: seq<seq<byte>>)
    requires |payloads| == |packets|
    requires forall i :: 0 <= i < |packets| ==> packets[i].WellFormed() && payloads[i] == EncodeRelay(packets[i])
    ensures DecodeUntilError(payloads) == packets && DecodeSkipping(payloads) == packets
  {
    hide ParseRelay, EncodeRelay;
    if packets != [] {
      RelayRoundTrip(packets[0], []);
      assert EncodeRelay(packets[0]) + [] == payloads[0];
      DecodeAll(packets[1..], payloads[1..]);
      assert packets == [packets[0]] + packets[1..];
    }
  }

  // ----- the whole pipeline -----

  /** Every writer but the pusher sends bare pings, pongs and closes. */
  ghost predicate OthersControl(jobs: map<WriterId, seq<Frame>>, pusher: WriterId) {
    forall t, f :: t in jobs && t != pusher && f in jobs[t] ==>
      f in {NewFrame(OP_PING, []), NewFrame(OP_PONG, []), NewFrame(OP_CLOSE, [])}
  }

  /** One writer pushes the packets, and the others send control frames. */
  ghost predicate PushesAndControls(jobs: map<WriterId, seq<Frame>>, pusher: WriterId, packets: seq<RelayPacket>) {
    && pusher in jobs && jobs[pusher] == PushFrames(packets)
    && (forall i :: 0 <= i < |packets| ==> packets[i].WellFormed() && |EncodeRelay(packets[i])| < 0x1_0000_0000)
    && OthersControl(jobs, pusher)
  }

  lemma JobsAreSendable(jobs: map<WriterId, seq<Frame>>, pusher: WriterId, packets: seq<RelayPacket>)
    requires PushesAndControls(jobs, pusher, packets)
    ensures AllSendable(jobs)
    ensures forall t, f :: t in jobs && f in jobs[t] ==>
              if t == pusher then f.OpCode() == OP_MESSAGE && f.payload != [] else f.payload == []
  {
    NewFrameFields(OP_PING, []);
    NewFrameFields(OP_PONG, []);
    NewFrameFields(OP_CLOSE, []);
    forall f | f in jobs[pusher] ensures f.Sendable() && f.OpCode() == OP_MESSAGE && f.payload != [] {
      var i :| 0 <= i < |packets| && f == PushFrames(packets)[i];
      NewFrameFields(OP_MESSAGE, EncodeRelay(packets[i]));
    }
  }

  /** How many of the pusher's frames are completely out and not behind a close frame. */
  function Arrived(s: Line, pusher: WriterId): nat {
    |SentBy(BeforeClose(CompletelyOut(s)), pusher)|
  }

  /** At every moment of every interleaving, the far end has decoded exactly the packets whose frames are completely
    * out: the first ones of the list, in order, each once and unchanged. */
  lemma EndToEnd(jobs: map<WriterId, seq<Frame>>, pusher: WriterId, packets: seq<RelayPacket>,
                 steps: seq<Step>, s: Line)
    requires PushesAndControls(jobs, pusher, packets)
    requires Reaches(Start(jobs), steps, s)
    ensures Arrived(s, pusher) <= |packets|
    ensures DecodeUntilError(Payloads(Receive(s.wire).0)) == packets[..Arrived(s, pusher)]
    ensures DecodeSkipping(Payloads(Receive(s.wire).0)) == packets[..Arrived(s, pusher)]
  {
    var out := CompletelyOut(s);
    var sent := SentBy(BeforeClose(out), pusher);
    OutIsPushed(jobs, pusher, packets, steps, s);
    JobsAreSendable(jobs, pusher, packets);
    ReaderFollowsWriters(jobs, steps, s);
    PayloadsAreThePushes(out, pusher);
    DecodeAll(packets[..|sent|], PayloadsOf(sent));
  }

  lemma OutIsPushed(jobs: map<WriterId, seq<Frame>>, pusher: WriterId, packets: seq<RelayPacket>,
                    steps: seq<Step>, s: Line)
    requires PushesAndControls(jobs, pusher, packets)
    requires Reaches(Start(jobs), steps, s)
    ensures OnlyPushesCarry(CompletelyOut(s), pusher)
    ensures SentBy(BeforeClose(CompletelyOut(s)), pusher) <= PushFrames(packets)
  {
    JobsAreSendable(jobs, pusher, packets);
    ReachesKeepsInv(jobs, Start(jobs), steps, s);
    OutFacts(jobs, s);
    PrefixSentBy(CompletelyOut(s), pusher);
  }

  lemma PrefixSentBy(out: seq<(WriterId, Frame)>, t: WriterId)
    ensures SentBy(BeforeClose(out), t) <= SentBy(out, t)
  {
    BeforeCloseIsPrefix(out);
    var front := BeforeClose(out);
    var back := out[|front|..];
    assert out == front + back;
    SentByAppend(front, back, t);
  }

  /** Once all pushes have returned, and nobody has closed the connection, every packet has arrived. */
  lemma AllArrive(jobs: map<WriterId, seq<Frame>>, pusher: WriterId, packets: seq<RelayPacket>,
                  steps: seq<Step>, s: Line)
    requires PushesAndControls(jobs, pusher, packets)
    requires Reaches(Start(jobs), steps, s)
    requires pusher in s.jobs && s.jobs[pusher] == [] && !HasClose(FramesOf(CompletelyOut(s)))
    ensures Arrived(s, pusher) == |packets|
  {
    WireHoldsWholeFrames(jobs, steps, s);
    BeforeCloseIsPrefix(CompletelyOut(s));
    assert SentBy(s.done, pusher) == jobs[pusher];
    if CompletelyOut(s) != s.done {
      SentByAppend(s.done, [(s.lock.owner, Current(s))], pusher);
      EndToEnd(jobs, pusher, packets, steps, s);
    }
  }

  function Pongs(actions: seq<Action>): nat {
    if actions == [] then 0 else (if actions[0].AnswerPing? then 1 else 0) + Pongs(actions[1..])
  }

  function Pings(out: seq<(WriterId, Frame)>): nat {
    if out == [] then 0 else (if out[0].1.OpCode() == OP_PING then 1 else 0) + Pings(out[1..])
  }

  lemma {:induction false} PongsAppend(a: seq<Action>, b: seq<Action>)
    ensures Pongs(a + b) == Pongs(a) + Pongs(b)
  {
    if a == [] {
      assert a + b == b;
    } else {
      PongsAppend(a[1..], b);
      assert (a + b)[1..] == a[1..] + b;
    }
  }

  lemma {:induction false} ExpectedPongs(out: seq<(WriterId, Frame)>)
    ensures Pongs(ExpectedActions(FramesOf(out))) == Pings(BeforeClose(out))
  {
    if out != [] && out[0].1.OpCode() != OP_CLOSE {
      ExpectedPongs(out[1..]);
      assert FramesOf(out)[1..] == FramesOf(out[1..]);
      PongsAppend(ActionsOf(out[0].1), ExpectedActions(FramesOf(out[1..])));
    }
  }

  /** At every moment of every interleaving, for any number of pushers, the reader has answered one pong for each ping
    * that is completely out and not behind a close frame. */
  lemma OnePongPerPing(jobs: map<WriterId, seq<Frame>>, steps: seq<Step>, s: Line)
    requires AllSendable(jobs)
    requires Reaches(Start(jobs), steps, s)
    ensures Pongs(Receive(s.wire).0) == Pings(BeforeClose(CompletelyOut(s)))
  {
    ReaderFollowsWriters(jobs, steps, s);
    ExpectedPongs(CompletelyOut(s));
  }

  // ----- the loops at the two far ends -----

  /** RelayPacket.Decode on a buffer of its own */
  method DecodePayload(payload: seq<byte>) returns (res: Result<RelayPacket>)
    ensures res == ParseRelay(payload).result
  {
    var buf := new Reader.Buffer(payload);
    res := DecodeRelay(buf);
  }

  /** LgServer.readHandler: every payload is decoded in its turn, up to the first one that cannot be. */
  method LogicServerReadHandler(onMsg: seq<seq<byte>>) returns (handled: seq<RelayPacket>)
    ensures handled == DecodeUntilError(onMsg)
    ensures |handled| <= |onMsg| && forall i :: 0 <= i < |handled| ==> ParseRelay(onMsg[i]).result == Ok(handled[i])
    ensures |handled| < |onMsg| ==> ParseRelay(onMsg[|handled|]).result.Err?
  {
    hide ParseRelay;
    handled := [];
    ghost var later := DecodeUntilError(onMsg);
    for i := 0 to |onMsg|
      invariant later == DecodeUntilError(onMsg[i..]) && DecodeUntilError(onMsg) == handled + later
      invariant |handled| == i && forall j :: 0 <= j < i ==> ParseRelay(onMsg[j]).result == Ok(handled[j])
    {
      var relayMsg := DecodePayload(onMsg[i]);
      if relayMsg.Err? {
        return;
      }
      assert onMsg[i..][1..] == onMsg[i + 1..];
      assert later == [relayMsg.value] + later[1..];
      handled, later := handled + [relayMsg.value], later[1..];
    }
  }

  /** idx lists, in order, the numbers of the payloads that can be decoded, and ps what they are decoded to. */
  ghost predicate Decodes(payloads: seq<seq<byte>>, idx: seq<nat>, ps: seq<RelayPacket>) {
    && |idx| == |ps|
    && (forall a, b :: 0 <= a < b < |idx| ==> idx[a] < idx[b])
    && (forall i: nat :: i in idx <==> i < |payloads| && ParseRelay(payloads[i]).result.Ok?)
    && (forall k :: 0 <= k < |ps| ==> idx[k] < |payloads| && ParseRelay(payloads[idx[k]]).result == Ok(ps[k]))
  }

  lemma NothingDecoded()
    ensures Decodes([], [], [])
  {
  }

  lemma DecodesOneMore(payloads: seq<seq<byte>>, idx: seq<nat>, ps: seq<RelayPacket>, next: seq<byte>)
    requires Decodes(payloads, idx, ps)
    ensures var res := ParseRelay(next).result;
            if res.Ok? then Decodes(payloads + [next], idx + [|payloads|], ps + [res.value])
            else Decodes(payloads + [next], idx, ps)
  {
    hide ParseRelay;
    if ParseRelay(next).result.Ok? {
      assert forall i :: i in idx + [|payloads|] <==> i in idx || i == |payloads|;
    }
  }

  /** LgClusterProxy.handleLogicServerMsg: every payload that can be decoded is, also behind others that cannot be. */
  method HandleLogicServerMsg(msgs: seq<seq<byte>>) returns (received: seq<RelayPacket>)
    ensures received == DecodeSkipping(msgs)
    ensures exists idx :: Decodes(msgs, idx, received)
  {
    hide ParseRelay, Decodes;
    received := [];
    ghost var idx: seq<nat> := [];
    NothingDecoded();
    ghost var later := DecodeSkipping(msgs);
    for i := 0 to |msgs|
      invariant later == DecodeSkipping(msgs[i..]) && DecodeSkipping(msgs) == received + later
      invariant Decodes(msgs[..i], idx, received)
    {
      var pkt := DecodePayload(msgs[i]);
      assert msgs[i..][1..] == msgs[i + 1..] && msgs[..i + 1] == msgs[..i] + [msgs[i]];
      DecodesOneMore(msgs[..i], idx, received, msgs[i]);
      if pkt.Err? {
        assert later == [] + DecodeSkipping(msgs[i + 1..]);
        continue;
      }
      assert later == [pkt.value] + later[1..];
      received, later, idx := received + [pkt.value], later[1..], idx + [i];
    }
    assert msgs[..|msgs|] == msgs;
  }

  /** The far end run on the wire of any interleaving, cut into any chunks. */
  method ReceiveWire(chunks: seq<seq<byte>>, ghost jobs: map<WriterId, seq<Frame>>, ghost pusher: WriterId,
                     ghost packets: seq<RelayPacket>, ghost steps: seq<Step>, ghost s: Line)
    returns (handled: seq<RelayPacket>)
    requires forall i :: 0 <= i < |chunks| ==> chunks[i] != []
    requires Flatten(chunks) == s.wire
    requires PushesAndControls(jobs, pusher, packets)
    requires Reaches(Start(jobs), steps, s)
    ensures Arrived(s, pusher) <= |packets| && handled == packets[..Arrived(s, pusher)]
  {
    var conn := new Reader.Stream(chunks);
    var actions := ReadHandler(conn);
    EndToEnd(jobs, pusher, packets, steps, s);
    handled := LogicServerReadHandler(Payloads(actions));
  }
}

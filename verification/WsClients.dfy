/** peer/ws_client.go: the loop that takes client messages out of one WebSocket payload. */
module WsClients {
  import opened Bytes
  import opened Streams
  import opened WireMessage

  /** What handleMessage does: pass a message on to onMsg, or answer a ping with wire.Pong. */
  datatype Action = Forward(message: Message) | WritePong

  lemma ParseConsumes(data: seq<byte>)
    requires ParseMessage(data).result.Ok?
    ensures data != []
    ensures |ParseMessage(data).rest| <= |data| - if |data| < 10 then |data| else 10
  {
  }

  /** The messages that the loop decodes, pings included. */
  function Decoded(data: seq<byte>): seq<Message>
    decreases |data|
  {
    match ParseMessage(data)
    case Parsed(Err(_), _) => []
    case Parsed(Ok(m), rest) =>
      ParseConsumes(data);
      [m] + Decoded(rest)
  }

  /** One Pong for each message whose first byte is 5, and every other message passed on. */
  ghost predicate Answers(log: seq<Action>, ms: seq<Message>) {
    && |log| == |ms|
    && forall i :: 0 <= i < |ms| ==> log[i] == if ms[i].header[0] == 5 then WritePong else Forward(ms[i])
  }

  /** The messages that the actions pass on. */
  function Forwarded(log: seq<Action>): seq<Message> {
    if log == [] then []
    else (if log[0].Forward? then [log[0].message] else []) + Forwarded(log[1..])
  }

  /** The messages whose first byte is not 5. */
  function NotPings(ms: seq<Message>): seq<Message> {
    if ms == [] then []
    else (if ms[0].header[0] != 5 then [ms[0]] else []) + NotPings(ms[1..])
  }

  /** What is not a ping is passed on, in order, and the rest is answered. */
  lemma {:induction false} AnswersCount(log: seq<Action>, ms: seq<Message>)
    requires Answers(log, ms)
    ensures Forwarded(log) == NotPings(ms)
    ensures multiset(log)[WritePong] == |ms| - |NotPings(ms)|
  {
    if ms != [] {
      AnswersCount(log[1..], ms[1..]);
      assert log == [log[0]] + log[1..];
      assert multiset(log) == multiset{log[0]} + multiset(log[1..]);
    }
  }

  function EncodeMessages(ms: seq<Message>): seq<byte> {
    if ms == [] then [] else EncodeMessage(ms[0]) + EncodeMessages(ms[1..])
  }

  predicate AllWellFormed(ms: seq<Message>) {
    forall i :: 0 <= i < |ms| ==> ms[i].WellFormed()
  }

  /** n bytes never yield more than n/10 messages, rounded up. */
  lemma {:induction false} FewMessages(data: seq<byte>)
    ensures |Decoded(data)| <= (|data| + 9) / 10
    decreases |data|
  {
    if ParseMessage(data).result.Ok? {
      ParseConsumes(data);
      FewMessages(ParseMessage(data).rest);
    }
  }

  /** A payload that holds well-formed messages one after the other is taken apart into exactly these. */
  lemma {:induction false} TakesApart(ms: seq<Message>)
    requires AllWellFormed(ms)
    ensures Decoded(EncodeMessages(ms)) == ms
  {
    if ms != [] {
      var data := EncodeMessages(ms);
      MessageRoundTrip(ms[0], EncodeMessages(ms[1..]));
      TakesApart(ms[1..]);
      assert ms == [ms[0]] + ms[1..];
    }
  }

  /** On any bytes at all: what is decoded is well formed, and together with at most one lost header it accounts for
    * every byte, except that trailing zeros may have been filled in. */
  lemma {:induction false} AccountsForAllBytes(data: seq<byte>)
    ensures forall i :: 0 <= i < |Decoded(data)| ==> Decoded(data)[i].WellFormed()
    ensures exists cut, lost :: |lost| <= 10 && 0 <= cut && Accounted(data, cut, lost)
    decreases |data|
  {
    if data == [] {
      assert Accounted(data, 0, []);
    } else if ParseMessage(data).result.Err? {
      LostHeader(data);
      assert Accounted(data, 0, data);
    } else {
      var Parsed(Ok(m), rest) := ParseMessage(data);
      ParseConsumes(data);
      MessageDecodeSound(data, m, rest);
      var k :| 0 <= k <= m.Slack() && CutBy(k, data, EncodeMessage(m), rest);
      AccountsForAllBytes(rest);
      var cut, lost :| |lost| <= 10 && 0 <= cut && Accounted(rest, cut, lost);
      AccountedFirst(data, m, rest, k, cut, lost);
    }
  }

  predicate Accounted(data: seq<byte>, cut: nat, lost: seq<byte>) {
    data + Zeros(cut) == EncodeMessages(Decoded(data)) + lost
  }

  lemma LostHeader(data: seq<byte>)
    requires data != [] && ParseMessage(data).result.Err?
    ensures |data| <= 10
  {
  }

  lemma AccountedFirst(data: seq<byte>, m: Message, rest: seq<byte>, k: nat, cut: nat, lost: seq<byte>)
    requires ParseMessage(data) == Parsed(Ok(m), rest)
    requires CutBy(k, data, EncodeMessage(m), rest)
    requires |lost| <= 10 && Accounted(rest, cut, lost)
    ensures exists cut', lost' :: |lost'| <= 10 && 0 <= cut' && Accounted(data, cut', lost')
  {
    assert Decoded(data)[0] == m && Decoded(data)[1..] == Decoded(rest);
    var first, others := EncodeMessage(m), EncodeMessages(Decoded(rest));
    assert EncodeMessages(Decoded(data)) == first + others;
    if k == 0 {
      assert data + Zeros(0) == data;
      Regroup(data, first, rest, Zeros(cut), others, lost);
      assert Accounted(data, cut, lost);
    } else {
      assert others == [];
      assert Accounted(data, k, []);
    }
  }

  lemma Regroup(data: seq<byte>, first: seq<byte>, rest: seq<byte>, fill: seq<byte>, others: seq<byte>, lost: seq<byte>)
    requires data == first + rest && rest + fill == others + lost
    ensures data + fill == (first + others) + lost
  {
    assert data + fill == first + (rest + fill);
  }

  /** handleMessage: on every payload it ends, with one Pong for each ping, and every other message passed on.  On
    * well-formed messages one after the other it does this with exactly these. */
  method HandleMessage(payload: seq<byte>) returns (log: seq<Action>)
    ensures Answers(log, Decoded(payload))
    ensures Forwarded(log) == NotPings(Decoded(payload))
    ensures multiset(log)[WritePong] == |Decoded(payload)| - |NotPings(Decoded(payload))|
    ensures forall ms :: AllWellFormed(ms) && payload == EncodeMessages(ms) ==>
              Answers(log, ms) && Forwarded(log) == NotPings(ms)
  {
    hide ParseMessage, EncodeMessages;
    log := [];
    var buf := new Reader.Buffer(payload);
    ghost var done, later := [], Decoded(payload);
    while true
      invariant buf.Buffered() && fresh(buf)
      invariant later == Decoded(buf.Remaining()) && Decoded(payload) == done + later
      invariant Answers(log, done)
      decreases |buf.Remaining()|
    {
      ghost var data := buf.Remaining();
      var msg := DecodeMessage(buf);
      if msg.Err? {
        break;
      }
      DecodedFirst(data, msg.value, buf.Remaining());
      done, later := done + [msg.value], later[1..];
      if msg.value.Pid() == PID_PING {
        log := log + [WritePong];
        continue;
      }
      log := log + [Forward(msg.value)];
    }
    assert done == Decoded(payload);
    AnswersCount(log, done);
    forall ms | AllWellFormed(ms) && payload == EncodeMessages(ms) ensures Decoded(payload) == ms {
      TakesApart(ms);
    }
  }

  lemma DecodedFirst(data: seq<byte>, m: Message, rest: seq<byte>)
    requires ParseMessage(data) == Parsed(Ok(m), rest)
    ensures Decoded(data) == [m] + Decoded(rest) && |rest| < |data|
  {
    hide ParseMessage;
    ParseConsumes(data);
  }
}

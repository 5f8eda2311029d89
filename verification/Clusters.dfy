/** lgcluster: the table of logic servers with its round-robin cursor (cluster.go), and the loop that distributes
  * client messages over the servers (proxy.go). */
module Clusters {
  import opened Bytes
  import opened Streams
  import opened WireCommon
  import opened WireMessage

  /** A *peer.Server: a reconnected server can be a different object with the same id. */
  datatype Server = Server(id: Ksuid, serial: nat)

  type Table = map<Ksuid, Server>

  ghost predicate NoDuplicates(ids: seq<Ksuid>) {
    forall i, j :: 0 <= i < j < |ids| ==> ids[i] != ids[j]
  }

  ghost function Elements(ids: seq<Ksuid>): set<Ksuid> {
    set id | id in ids
  }

  /** ids lists the keys of the table, each once, in any order. */
  ghost predicate Lists(ids: seq<Ksuid>, servers: Table) {
    NoDuplicates(ids) && Elements(ids) == servers.Keys
  }

  lemma ListsNil()
    ensures NoDuplicates([]) && Elements([]) == {}
  {
  }

  lemma ListsSnoc(ids: seq<Ksuid>, id: Ksuid)
    requires NoDuplicates(ids) && id !in Elements(ids)
    ensures NoDuplicates(ids + [id]) && Elements(ids + [id]) == Elements(ids) + {id}
  {
  }

  lemma {:induction false} ListsSize(ids: seq<Ksuid>, keys: set<Ksuid>)
    requires NoDuplicates(ids) && Elements(ids) == keys
    ensures |ids| == |keys|
  {
    if ids != [] {
      var front, last := ids[..|ids| - 1], ids[|ids| - 1];
      assert ids == front + [last];
      ListsSize(front, keys - {last});
    }
  }

  // ----- the order of service -----

  /** The ids that k calls of Get return while the table stays as it is.  The cursor may be stale: it can lie behind
    * the end of a table that has shrunk. */
  function Served(ids: seq<Ksuid>, index: nat, k: nat): (served: seq<Ksuid>)
    requires ids != []
    ensures |served| == k
    decreases k
  {
    if k == 0 then []
    else
      var next := (index + 1) % |ids|;
      [ids[next]] + Served(ids, next, k - 1)
  }

  function Count(s: seq<Ksuid>, id: Ksuid): nat {
    if s == [] then 0 else (if s[0] == id then 1 else 0) + Count(s[1..], id)
  }

  lemma {:induction false} CountCounts(s: seq<Ksuid>, id: Ksuid)
    ensures Count(s, id) == multiset(s)[id]
  {
    if s != [] {
      CountCounts(s[1..], id);
      assert s == [s[0]] + s[1..];
    }
  }

  /** The number of calls until the one that returns entry t. */
  function CallsUntil(n: nat, index: nat, t: nat): (d: nat)
    requires t < n
    ensures 1 <= d <= n
  {
    var next := (index + 1) % n;
    if t >= next then t - next + 1 else t - next + 1 + n
  }

  lemma CallsUntilNext(n: nat, index: nat, t: nat)
    requires t < n
    ensures t == (index + 1) % n ==> CallsUntil(n, index, t) == 1
    ensures var next := (index + 1) % n;
            CallsUntil(n, next, t) == if t == next then n else CallsUntil(n, index, t) - 1
  {
    StepRound(n, (index + 1) % n);
  }

  lemma StepRound(n: nat, i: nat)
    requires i < n
    ensures (i + 1) % n == if i + 1 == n then 0 else i + 1
  {
  }

  /** Entry t is returned by the calls number d, d + n, d + 2n and so on. */
  lemma {:induction false} ServiceCount(ids: seq<Ksuid>, index: nat, k: nat, t: nat)
    requires NoDuplicates(ids) && t < |ids|
    ensures var n := |ids|;
            var d := CallsUntil(n, index, t);
            var c := Count(Served(ids, index, k), ids[t]);
            n * c + d - n <= k < n * c + d
    decreases k
  {
    if k > 0 {
      var n := |ids|;
      var next := (index + 1) % n;
      var c := Count(Served(ids, next, k - 1), ids[t]);
      ServiceCount(ids, next, k - 1, t);
      CallsUntilNext(n, index, t);
      assert Served(ids, index, k)[1..] == Served(ids, next, k - 1);
      OneMoreCall(n, c, k, CallsUntil(n, index, t), CallsUntil(n, next, t), t == next);
    } else {
      NoCallYet(|ids|, CallsUntil(|ids|, index, t));
    }
  }

  lemma NoCallYet(n: nat, d: nat)
    requires 1 <= d <= n
    ensures n * 0 + d - n <= 0 < n * 0 + d
  {
  }

  lemma OneMoreCall(n: nat, c: nat, k: nat, d: nat, later: nat, hit: bool)
    requires k > 0 && n * c + later - n <= k - 1 < n * c + later
    requires if hit then later == n && d == 1 else later == d - 1
    ensures var total := c + if hit then 1 else 0;
            n * total + d - n <= k < n * total + d
  {
    assert n * (c + 1) == n * c + n;
  }

  /** Any k calls between two membership changes serve no two servers with counts more than one apart. */
  lemma RoundRobinIsFair(ids: seq<Ksuid>, index: nat, k: nat, a: nat, b: nat)
    requires NoDuplicates(ids) && a < |ids| && b < |ids|
    ensures Count(Served(ids, index, k), ids[a]) <= Count(Served(ids, index, k), ids[b]) + 1
  {
    ServiceCount(ids, index, k, a);
    ServiceCount(ids, index, k, b);
    CountsClose(|ids|, k,
                Count(Served(ids, index, k), ids[a]), CallsUntil(|ids|, index, a),
                Count(Served(ids, index, k), ids[b]), CallsUntil(|ids|, index, b));
  }

  lemma CountsClose(n: nat, k: nat, ca: nat, da: nat, cb: nat, db: nat)
    requires 1 <= da && db <= n
    requires n * ca + da - n <= k < n * cb + db
    ensures ca <= cb + 1
  {
    assert n * (cb + 2) == n * cb + 2 * n;
    if ca >= cb + 2 {
      MulMonotone(n, cb + 2, ca);
    }
  }

  /** As many calls as there are servers return each of them exactly once, wherever the cursor stands. */
  lemma EachServerOncePerRound(ids: seq<Ksuid>, index: nat, t: nat)
    requires NoDuplicates(ids) && t < |ids|
    ensures Count(Served(ids, index, |ids|), ids[t]) == 1
  {
    var n := |ids|;
    ServiceCount(ids, index, n, t);
    var c := Count(Served(ids, index, n), ids[t]);
    if c >= 2 {
      MulMonotone(n, 2, c);
    }
  }

  lemma MulMonotone(n: nat, a: nat, b: nat)
    requires a <= b
    ensures n * a <= n * b
  {
  }

  // ----- the share of each server -----

  /** Of items that were sent to targets, one by one, those that went to id. */
  function Share<T>(targets: seq<Ksuid>, items: seq<T>, id: Ksuid): seq<T>
    requires |targets| == |items|
  {
    if items == [] then []
    else (if targets[0] == id then [items[0]] else []) + Share(targets[1..], items[1..], id)
  }

  lemma {:induction false} ShareSize<T>(targets: seq<Ksuid>, items: seq<T>, id: Ksuid)
    requires |targets| == |items|
    ensures |Share(targets, items, id)| == Count(targets, id)
  {
    if items != [] {
      ShareSize(targets[1..], items[1..], id);
    }
  }

  /** Each item that was sent to id stands in its share behind as many others as were sent there before it. */
  lemma {:induction false} ShareAt<T>(targets: seq<Ksuid>, items: seq<T>, i: nat)
    requires |targets| == |items| && i < |items|
    ensures var id := targets[i];
            var place := multiset(targets[..i])[id];
            && |Share(targets, items, id)| == multiset(targets)[id] > place
            && Share(targets, items, id)[place] == items[i]
  {
    var id := targets[i];
    ShareSize(targets, items, id);
    CountCounts(targets, id);
    assert targets == [targets[0]] + targets[1..];
    if i == 0 {
      assert targets[..0] == [];
    } else {
      ShareAt(targets[1..], items[1..], i - 1);
      assert targets[..i] == [targets[0]] + targets[1..][..i - 1];
    }
  }

  function Shares<T>(targets: seq<Ksuid>, items: seq<T>, ids: seq<Ksuid>): seq<T>
    requires |targets| == |items|
  {
    if ids == [] then [] else Share(targets, items, ids[0]) + Shares(targets, items, ids[1..])
  }

  predicate AllListed(targets: seq<Ksuid>, ids: seq<Ksuid>) {
    forall t :: t in targets ==> t in ids
  }

  /** The first item goes into exactly one of the shares. */
  lemma {:induction false} FirstItemOnce<T>(targets: seq<Ksuid>, items: seq<T>, ids: seq<Ksuid>)
    requires |targets| == |items| && items != [] && NoDuplicates(ids)
    ensures multiset(Shares(targets, items, ids)) ==
            (if targets[0] in ids then multiset{items[0]} else multiset{}) +
            multiset(Shares(targets[1..], items[1..], ids))
  {
    hide Share, Shares;
    FirstShare(targets, items, ids);
    FirstShare(targets[1..], items[1..], ids);
    if ids != [] {
      ShareOfFirst(targets, items, ids[0]);
      FirstItemOnce(targets, items, ids[1..]);
      assert ids == [ids[0]] + ids[1..];
      assert ids[0] !in ids[1..];
    }
  }

  lemma ShareOfFirst<T>(targets: seq<Ksuid>, items: seq<T>, id: Ksuid)
    requires |targets| == |items| && items != []
    ensures multiset(Share(targets, items, id)) ==
            (if targets[0] == id then multiset{items[0]} else multiset{}) +
            multiset(Share(targets[1..], items[1..], id))
  {
  }

  lemma FirstShare<T>(targets: seq<Ksuid>, items: seq<T>, ids: seq<Ksuid>)
    requires |targets| == |items|
    ensures multiset(Shares(targets, items, ids)) ==
            if ids == [] then multiset{}
            else multiset(Share(targets, items, ids[0])) + multiset(Shares(targets, items, ids[1..]))
  {
  }

  /** The shares of all servers make up what was sent: no item is lost, and none goes to two servers. */
  lemma {:induction false} SharesPartition<T>(targets: seq<Ksuid>, items: seq<T>, ids: seq<Ksuid>)
    requires |targets| == |items| && NoDuplicates(ids)
    requires AllListed(targets, ids)
    ensures multiset(Shares(targets, items, ids)) == multiset(items)
    decreases |items|
  {
    if items == [] {
      NoShares(targets, items, ids);
    } else {
      hide Share, Shares, NoDuplicates;
      assert targets[0] in ids;
      FirstItemOnce(targets, items, ids);
      SharesPartition(targets[1..], items[1..], ids);
      FirstOf(items);
    }
  }

  lemma FirstOf<T>(items: seq<T>)
    requires items != []
    ensures multiset(items) == multiset{items[0]} + multiset(items[1..])
  {
    assert items == [items[0]] + items[1..];
  }

  lemma {:induction false} NoShares<T>(targets: seq<Ksuid>, items: seq<T>, ids: seq<Ksuid>)
    requires |targets| == |items| == 0
    ensures Shares(targets, items, ids) == []
  {
    if ids != [] {
      NoShares(targets, items, ids[1..]);
    }
  }

  lemma {:induction false} ServedAreListed(ids: seq<Ksuid>, index: nat, k: nat)
    requires ids != []
    ensures AllListed(Served(ids, index, k), ids)
    decreases k
  {
    if k > 0 {
      ServedAreListed(ids, (index + 1) % |ids|, k - 1);
    }
  }

  /** Messages that are routed between two membership changes are divided among the servers: together the shares are
    * the messages, and no two shares differ in size by more than one. */
  lemma RoutingDivides<T>(ids: seq<Ksuid>, index: nat, messages: seq<T>, a: nat, b: nat)
    requires NoDuplicates(ids) && a < |ids| && b < |ids|
    ensures var targets := Served(ids, index, |messages|);
            && multiset(Shares(targets, messages, ids)) == multiset(messages)
            && |Share(targets, messages, ids[a])| <= |Share(targets, messages, ids[b])| + 1
  {
    var targets := Served(ids, index, |messages|);
    ServedAreListed(ids, index, |messages|);
    SharesPartition(targets, messages, ids);
    ShareSize(targets, messages, ids[a]);
    ShareSize(targets, messages, ids[b]);
    RoundRobinIsFair(ids, index, |messages|, a, b);
  }

  // ----- the table under its lock -----

  class Cluster {
    var servers: Table
    var ids: seq<Ksuid>
    var index: nat

    ghost predicate Valid()
      reads this
    {
      && Lists(ids, servers)
      && (forall id :: id in servers ==> servers[id].id == id)
    }

    constructor ()
      ensures Valid() && servers == map[] && index == 0
    {
      servers, ids, index := map[], [], 0;
    }

    method AddServer(p: Server)
      requires Valid()
      modifies this`servers, this`ids
      ensures Valid() && servers == old(servers)[p.id := p]
    {
      servers := servers[p.id := p];
      RebuildIds();
    }

    method DelServer(id: Ksuid) returns (server: Option<Server>)
      requires Valid()
      modifies this`servers, this`ids
      ensures Valid() && servers == old(servers) - {id}
      ensures server == if id in old(servers) then Some(old(servers)[id]) else None
      ensures id !in old(servers) ==> ids == old(ids)
    {
      if id !in servers {
        assert servers - {id} == servers;
        return None;
      }
      server := Some(servers[id]);
      servers := servers - {id};
      RebuildIds();
    }

    /** A loop over a Go map visits its keys in any order. */
    method RebuildIds()
      modifies this`ids
      ensures Lists(ids, servers)
    {
      hide NoDuplicates, Elements;
      ids := seq(|servers|, _ => NIL_KSUID);
      var i := 0;
      var left := servers.Keys;
      ghost var front: seq<Ksuid> := [];
      ListsNil();
      while left != {}
        invariant |ids| == |servers| && i + |left| == |servers|
        invariant left <= servers.Keys
        invariant front == ids[..i] && NoDuplicates(front)
        invariant Elements(front) == servers.Keys - left
        decreases |left|
      {
        var key :| key in left;
        ids := ids[i := key];
        assert ids[..i + 1] == front + [key];
        ListsSnoc(front, key);
        front := front + [key];
        i := i + 1;
        left := left - {key};
      }
      assert front == ids;
    }

    /** Get never leaves the bounds of ids, even right after the table has shrunk below the cursor. */
    method Get() returns (server: Option<Server>)
      requires Valid()
      modifies this`index
      ensures Valid()
      ensures server == None <==> servers == map[]
      ensures servers != map[] ==>
                && ids != []
                && index == (old(index) + 1) % |ids|
                && Served(ids, old(index), 1)[0] in servers
                && server == Some(servers[Served(ids, old(index), 1)[0]])
      ensures servers == map[] ==> index == old(index)
    {
      ListsSize(ids, servers.Keys);
      var slen := |servers|;
      if slen == 0 {
        return None;
      }
      index := index + 1;
      index := index % slen;
      assert ids[index] in servers.Keys;
      server := Some(servers[ids[index]]);
    }
  }

  // ----- distributing messages -----

  /** The operations on a cluster, in the order in which its lock admits them, with the packets that the loop of the
    * proxy takes from its channel. */
  datatype Event = Taken(up: Upward) | Added(server: Server) | Removed(id: Ksuid)

  function Change(table: Table, event: Event): Table {
    match event
    case Taken(_) => table
    case Added(p) => table[p.id := p]
    case Removed(id) => table - {id}
  }

  function TableAfter(start: Table, events: seq<Event>): Table {
    if events == [] then start else Change(TableAfter(start, events[..|events| - 1]), events[|events| - 1])
  }

  /** The event puts a server into the table under this id, or takes it out. */
  predicate Concerns(event: Event, id: Ksuid) {
    (event.Added? && event.server.id == id) || event == Removed(id)
  }

  /** The last event that concerns an id decides whether it is in the table, and with which server. */
  lemma {:induction false} TableIff(start: Table, events: seq<Event>, id: Ksuid, i: nat)
    requires i <= |events| && forall j :: i <= j < |events| ==> !Concerns(events[j], id)
    ensures var table := TableAfter(start, events);
            if i == 0 then (id in table <==> id in start) && (id in table ==> table[id] == start[id])
            else if events[i - 1].Added? && events[i - 1].server.id == id
            then id in table && table[id] == events[i - 1].server
            else events[i - 1] == Removed(id) ==> id !in table
    decreases |events|
  {
    if events != [] {
      var n := |events| - 1;
      if i <= n {
        TableIff(start, events[..n], id, i);
      }
    }
  }

  /** A message pushed to a server, or thrown away because there was none. */
  datatype Delivery = NotAMessage | Thrown | Pushed(server: Server, bytes: seq<byte>)

  /** What becomes of an event when the table is the given one.  An empty packet is not handled at all: the loop reads
    * the header of a message that is not there, which ends the process. */
  ghost predicate Handled(table: Table, event: Event, d: Delivery) {
    if !event.Taken? then d == NotAMessage
    else if event.up.Empty? then false
    else if table == map[] then d == Thrown
    else
      && d.Pushed?
      && d.server.id in table && table[d.server.id] == d.server
      && d.bytes == EncodeRelay(event.up.packet)
  }

  /** How many of these messages were pushed to the server with this id. */
  function PushesTo(log: seq<Delivery>, id: Ksuid): nat {
    if log == [] then 0
    else (if log[0].Pushed? && log[0].server.id == id then 1 else 0) + PushesTo(log[1..], id)
  }

  /** No two servers of the table get numbers of messages that are more than one apart, and in a round each gets one. */
  ghost predicate Fair(table: Table, log: seq<Delivery>) {
    && (forall a, b :: a in table && b in table ==> PushesTo(log, a) <= PushesTo(log, b) + 1)
    && (|log| == |table| ==> forall a :: a in table ==> PushesTo(log, a) == 1)
  }

  predicate OnlyTaken(events: seq<Event>) {
    forall i :: 0 <= i < |events| ==> events[i].Taken?
  }

  /** ids and the cursor between two events */
  datatype Stage = Stage(ids: seq<Ksuid>, index: nat)

  /** A message moves the cursor on by one, around the end, and goes to the server on which it comes to stand. */
  predicate MovesOn(before: Stage, event: Event, d: Delivery, after: Stage) {
    event.Taken? ==>
      && after.ids == before.ids
      && (before.ids != [] ==>
            && after.index == (before.index + 1) % |before.ids|
            && d.Pushed? && d.server.id == before.ids[after.index])
  }

  ghost predicate Staged(start: Table, events: seq<Event>, log: seq<Delivery>, stages: seq<Stage>) {
    && |stages| == |log| + 1 && |log| <= |events|
    && (forall k :: 0 <= k <= |log| ==> Lists(stages[k].ids, TableAfter(start, events[..k])))
    && (forall k :: 0 <= k < |log| ==> MovesOn(stages[k], events[k], log[k], stages[k + 1]))
  }

  /** While the table stays as it is, the messages go to the servers that Served says. */
  lemma {:induction false} StretchIsServed(events: seq<Event>, log: seq<Delivery>, stages: seq<Stage>, i: nat, j: nat,
                                           id: Ksuid)
    requires |stages| == |log| + 1 && |log| <= |events| && i <= j <= |log|
    requires forall k :: 0 <= k < |log| ==> MovesOn(stages[k], events[k], log[k], stages[k + 1])
    requires OnlyTaken(events[i..j]) && stages[i].ids != []
    ensures PushesTo(log[i..j], id) == Count(Served(stages[i].ids, stages[i].index, j - i), id)
    decreases j - i
  {
    if i < j {
      assert events[i..j][0] == events[i];
      assert events[i..j][1..] == events[i + 1..j] && log[i..j][1..] == log[i + 1..j];
      assert MovesOn(stages[i], events[i], log[i], stages[i + 1]);
      StretchIsServed(events, log, stages, i + 1, j, id);
      var ids, index := stages[i].ids, stages[i].index;
      assert Served(ids, index, j - i)[1..] == Served(ids, (index + 1) % |ids|, j - i - 1);
    }
  }

  lemma StretchIsFair(start: Table, events: seq<Event>, log: seq<Delivery>, stages: seq<Stage>, i: nat, j: nat)
    requires Staged(start, events, log, stages) && i <= j <= |log| && OnlyTaken(events[i..j])
    ensures Fair(TableAfter(start, events[..i]), log[i..j])
  {
    hide MovesOn, PushesTo, Served, Count, NoDuplicates, TableAfter, OnlyTaken;
    var table, ids, index := TableAfter(start, events[..i]), stages[i].ids, stages[i].index;
    assert Lists(ids, table);
    ListsSize(ids, table.Keys);
    forall a, b | a in table && b in table
      ensures PushesTo(log[i..j], a) <= PushesTo(log[i..j], b) + 1
      ensures j - i == |table| ==> PushesTo(log[i..j], a) == 1
    {
      var x := Find(ids, a);
      var y := Find(ids, b);
      StretchIsServed(events, log, stages, i, j, a);
      StretchIsServed(events, log, stages, i, j, b);
      RoundRobinIsFair(ids, index, j - i, x, y);
      EachServerOncePerRound(ids, index, x);
    }
  }

  lemma Find(ids: seq<Ksuid>, id: Ksuid) returns (x: nat)
    requires id in Elements(ids)
    ensures x < |ids| && ids[x] == id
  {
    x :| x < |ids| && ids[x] == id;
  }

  /** LgClusterProxy.handleClientMessage, while other goroutines add and remove servers: every message goes to exactly
    * one server that is in the table at that moment, and it is thrown away exactly when the table is empty; until the
    * first empty packet, if there is one.  In every stretch between two changes of the table the messages go round. */
  method HandleClientMessages(bu: Cluster, events: seq<Event>) returns (log: seq<Delivery>, crashed: bool)
    requires bu.Valid()
    modifies bu
    ensures |log| <= |events| && (crashed <==> |log| < |events|)
    ensures crashed ==> events[|log|] == Taken(Empty)
    ensures bu.Valid() && bu.servers == TableAfter(old(bu.servers), events[..|log|])
    ensures forall i :: 0 <= i < |log| ==> Handled(TableAfter(old(bu.servers), events[..i]), events[i], log[i])
    ensures forall i, j :: 0 <= i <= j <= |log| && OnlyTaken(events[i..j]) ==>
              Fair(TableAfter(old(bu.servers), events[..i]), log[i..j])
  {
    hide EncodeRelay, Fair, Staged, OnlyTaken, TableAfter, Change, Handled, MovesOn, NoDuplicates, Elements;
    log, crashed := [], false;
    ghost var start := bu.servers;
    ghost var stages := [Stage(bu.ids, bu.index)];
    FirstStage(bu, events);
    assert TableAfter(start, events[..0]) == start by {
      NoEvents(start);
    }
    for i := 0 to |events|
      invariant bu.Valid() && bu.servers == TableAfter(start, events[..i])
      invariant |log| == i && !crashed
      invariant forall j :: 0 <= j < i ==> Handled(TableAfter(start, events[..j]), events[j], log[j])
      invariant Staged(start, events, log, stages) && |stages| == i + 1 && stages[i] == Stage(bu.ids, bu.index)
    {
      if events[i] == Taken(Empty) {
        crashed := true;
        break;
      }
      TableNext(start, events, i);
      var d := HandleEvent(bu, events[i]);
      NextStage(bu, start, events, log, stages, d);
      log, stages := log + [d], stages + [Stage(bu.ids, bu.index)];
    }
    assert events[..|events|] == events;
    forall i, j | 0 <= i <= j <= |log| && OnlyTaken(events[i..j])
      ensures Fair(TableAfter(start, events[..i]), log[i..j])
    {
      StretchIsFair(start, events, log, stages, i, j);
    }
  }

  lemma NoEvents(start: Table)
    ensures TableAfter(start, []) == start
  {
  }

  lemma TableNext(start: Table, events: seq<Event>, i: nat)
    requires i < |events|
    ensures TableAfter(start, events[..i + 1]) == Change(TableAfter(start, events[..i]), events[i])
  {
    assert events[..i + 1][..i] == events[..i];
  }

  lemma FirstStage(bu: Cluster, events: seq<Event>)
    requires bu.Valid()
    ensures Staged(bu.servers, events, [], [Stage(bu.ids, bu.index)])
  {
  }

  lemma NextStage(bu: Cluster, start: Table, events: seq<Event>, log: seq<Delivery>, stages: seq<Stage>, d: Delivery)
    requires Staged(start, events, log, stages) && |log| < |events|
    requires bu.Valid() && bu.servers == TableAfter(start, events[..|log| + 1])
    requires MovesOn(stages[|log|], events[|log|], d, Stage(bu.ids, bu.index))
    ensures Staged(start, events, log + [d], stages + [Stage(bu.ids, bu.index)])
  {
    hide MovesOn, TableAfter, NoDuplicates;
  }

  method HandleEvent(bu: Cluster, event: Event) returns (d: Delivery)
    requires bu.Valid() && event != Taken(Empty)
    modifies bu
    ensures bu.Valid() && bu.servers == Change(old(bu.servers), event)
    ensures Handled(old(bu.servers), event, d)
    ensures MovesOn(Stage(old(bu.ids), old(bu.index)), event, d, Stage(bu.ids, bu.index))
  {
    hide EncodeRelay, NoDuplicates, Elements;
    d := NotAMessage;
    match event {
      case Taken(up) =>
        ListsSize(bu.ids, bu.servers.Keys);
        var server := bu.Get();
        if server == None {
          d := Thrown;
        } else {
          var bytes := RelayBytes(up.packet);
          d := Pushed(server.value, bytes);
        }
      case Added(p) =>
        bu.AddServer(p);
      case Removed(id) =>
        var _ := bu.DelServer(id);
    }
  }

  /** RelayPacket.Bytes */
  method RelayBytes(packet: RelayPacket) returns (bytes: seq<byte>)
    ensures bytes == EncodeRelay(packet)
  {
    var buf := new Writer();
    EncodeRelayTo(packet, buf);
    bytes := buf.data;
  }

  /** The packets in front of the first empty one. */
  function BeforeEmpty(ups: seq<Upward>): seq<RelayPacket> {
    if ups == [] || ups[0].Empty? then [] else [ups[0].packet] + BeforeEmpty(ups[1..])
  }

  function Encodings(packets: seq<RelayPacket>): (bs: seq<seq<byte>>)
    ensures |bs| == |packets|
  {
    seq(|packets|, i requires 0 <= i < |packets| => EncodeRelay(packets[i]))
  }

  /** The same loop between two membership changes: the messages in front of the first empty packet go round, each to
    * one server, in order.  The result pairs each message that was pushed with the id of its server. */
  method HandleClientMessage(bu: Cluster, ups: seq<Upward>) returns (pushed: seq<(Ksuid, seq<byte>)>, crashed: bool)
    requires bu.Valid()
    modifies bu`index
    ensures bu.Valid()
    ensures crashed <==> Empty in ups
    ensures bu.ids == [] ==> pushed == []
    ensures bu.ids != [] ==>
              var messages := BeforeEmpty(ups);
              pushed == Paired(Served(bu.ids, old(bu.index), |messages|), Encodings(messages))
  {
    hide Served, Paired, NoDuplicates, Elements, EncodeRelay, Encodings;
    pushed, crashed := [], false;
    ghost var messages := BeforeEmpty(ups);
    ghost var later := messages;
    for i := 0 to |ups|
      invariant bu.Valid() && !crashed
      invariant later == BeforeEmpty(ups[i..]) && Empty !in ups[..i]
      invariant bu.ids == [] ==> pushed == []
      invariant bu.ids != [] ==>
                  Paired(Served(bu.ids, old(bu.index), |messages|), Encodings(messages)) ==
                  pushed + Paired(Served(bu.ids, bu.index, |later|), Encodings(later))
    {
      assert ups[i..][1..] == ups[i + 1..] && ups[..i + 1] == ups[..i] + [ups[i]];
      if ups[i].Empty? {
        crashed := true;
        NothingPaired(bu.ids, bu.index);
        return;
      }
      ghost var index := bu.index;
      var server := bu.Get();
      ListsSize(bu.ids, bu.servers.Keys);
      if server == None {
        later := later[1..];
        continue;
      }
      PairedStep(bu.ids, index, later);
      var bytes := RelayBytes(ups[i].packet);
      pushed, later := pushed + [(server.value.id, bytes)], later[1..];
    }
    NothingPaired(bu.ids, bu.index);
    assert ups[..|ups|] == ups;
  }

  function Paired(ids: seq<Ksuid>, messages: seq<seq<byte>>): (ps: seq<(Ksuid, seq<byte>)>)
    requires |ids| == |messages|
    ensures |ps| == |ids|
  {
    seq(|ids|, i requires 0 <= i < |ids| => (ids[i], messages[i]))
  }

  /** Of the pushes those to one server. */
  function PushedTo(pushed: seq<(Ksuid, seq<byte>)>, id: Ksuid): seq<seq<byte>> {
    if pushed == [] then [] else (if pushed[0].0 == id then [pushed[0].1] else []) + PushedTo(pushed[1..], id)
  }

  /** What HandleClientMessage pushes to a server is its share of the messages, encoded. */
  lemma {:induction false} PushesAreShares(targets: seq<Ksuid>, messages: seq<RelayPacket>, id: Ksuid)
    requires |targets| == |messages|
    ensures PushedTo(Paired(targets, Encodings(messages)), id) == Encodings(Share(targets, messages, id))
  {
    hide EncodeRelay;
    if messages != [] {
      var pushed := Paired(targets, Encodings(messages));
      PushesAreShares(targets[1..], messages[1..], id);
      assert pushed[1..] == Paired(targets[1..], Encodings(messages[1..]));
    }
  }

  lemma NothingPaired(ids: seq<Ksuid>, index: nat)
    ensures ids != [] ==> Paired(Served(ids, index, 0), Encodings([])) == []
  {
  }

  lemma PairedStep(ids: seq<Ksuid>, index: nat, messages: seq<RelayPacket>)
    requires ids != [] && messages != []
    ensures Paired(Served(ids, index, |messages|), Encodings(messages)) ==
            [(Served(ids, index, 1)[0], EncodeRelay(messages[0]))] +
            Paired(Served(ids, (index + 1) % |ids|, |messages| - 1), Encodings(messages[1..]))
  {
    hide EncodeRelay;
  }
}

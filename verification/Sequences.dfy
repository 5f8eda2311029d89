/** peer/seq.go: the lock-free allocator of 16-bit message ids. */
module Sequences {
  import opened Bytes

  const MAX_UINT16: uint16 := 0xFFFF
  const PERIOD := 65534

  type Tid = nat

  /** num is the shared counter, resetting the set of threads between their atomic add, which gave MaxUint16, and
    * their compare-and-swap; ids are the results of Next in linearisation order. */
  datatype State = State(num: uint32, resetting: set<Tid>, ids: seq<uint16>)

  /** The two atomic steps of Next.  A thread whose swap fails starts again with an add. */
  datatype Step = Add(thread: Tid) | Swap(thread: Tid)

  const INIT: State := State(1, {}, [])

  function Incremented(num: uint32): uint32 {
    (num + 1) % 0x1_0000_0000
  }

  predicate Enabled(s: State, step: Step) {
    match step
    case Add(t) => t !in s.resetting
    case Swap(t) => t in s.resetting
  }

  function Next(s: State, step: Step): State
    requires Enabled(s, step)
  {
    match step
    case Add(t) =>
      var next := Incremented(s.num);
      if next == MAX_UINT16 then s.(num := next, resetting := s.resetting + {t})
      else s.(num := next, ids := s.ids + [next % 0x1_0000])
    case Swap(t) =>
      if s.num == MAX_UINT16 then State(1, s.resetting - {t}, s.ids + [1])
      else s.(resetting := s.resetting - {t})
  }

  ghost predicate Reaches(s: State, steps: seq<Step>, end: State)
    decreases |steps|
  {
    if steps == [] then s == end
    else Enabled(s, steps[0]) && Reaches(Next(s, steps[0]), steps[1..], end)
  }

  /** b can follow a: one more, or behind 65534 either 1 (the reset won) or 0 (the reset lost). */
  predicate Follows(a: uint16, b: uint16) {
    b == (a + 1) % 0x1_0000 || (a == 65534 && b <= 1)
  }

  predicate Chain(ids: seq<uint16>) {
    forall i :: 0 < i < |ids| ==> Follows(ids[i - 1], ids[i])
  }

  ghost predicate Inv(s: State) {
    && Chain(s.ids)
    && (s.ids != [] ==>
          var last := s.ids[|s.ids| - 1];
          if s.num == MAX_UINT16 then last == 65534 else last == s.num % 0x1_0000)
  }

  /** What an add returns follows the last id. */
  lemma AddFollows(num: uint32, last: uint16)
    requires if num == MAX_UINT16 then last == 65534 else last == num % 0x1_0000
    ensures Incremented(num) == MAX_UINT16 ==> last == 65534
    ensures Incremented(num) != MAX_UINT16 ==> Follows(last, Incremented(num) % 0x1_0000)
  {
  }

  lemma StepKeepsInv(s: State, step: Step)
    requires Inv(s) && Enabled(s, step)
    ensures Inv(Next(s, step))
  {
    if step.Add? && s.ids != [] {
      AddFollows(s.num, s.ids[|s.ids| - 1]);
    }
    hide Incremented;
  }

  lemma {:induction false} ReachesKeepsInv(s: State, steps: seq<Step>, end: State)
    requires Inv(s) && Reaches(s, steps, end)
    ensures Inv(end)
    decreases |steps|
  {
    if steps != [] {
      StepKeepsInv(s, steps[0]);
      ReachesKeepsInv(Next(s, steps[0]), steps[1..], end);
    }
  }

  /** How often the ids i+1..j pass from a larger value to a smaller one. */
  function Laps(ids: seq<uint16>, i: nat, j: nat): nat
    requires i <= j < |ids|
    decreases j - i
  {
    if i == j then 0 else Laps(ids, i, j - 1) + if ids[j] < ids[j - 1] then 1 else 0
  }

  /** Each lap skips at most two of its 65536 values. */
  lemma {:induction false} LapsAreLong(ids: seq<uint16>, i: nat, j: nat)
    requires Chain(ids) && i <= j < |ids|
    ensures ids[j] - ids[i] + PERIOD * Laps(ids, i, j) <= j - i
    ensures j > i && ids[j] <= ids[i] ==> Laps(ids, i, j) > 0
    decreases j - i
  {
    if i < j {
      LapsAreLong(ids, i, j - 1);
      assert Follows(ids[j - 1], ids[j]);
    }
  }

  /** Any 65534 consecutive ids are pairwise distinct, for any number of threads and under every interleaving, from
    * whatever value the counter starts and across its 32-bit wrap. */
  lemma IdsDistinct(start: uint32, steps: seq<Step>, s: State, i: nat, j: nat)
    requires Reaches(State(start, {}, []), steps, s)
    requires i < j < |s.ids| && j - i < PERIOD
    ensures s.ids[i] != s.ids[j]
  {
    ReachesKeepsInv(State(start, {}, []), steps, s);
    LapsAreLong(s.ids, i, j);
  }

  // ----- lost resets -----

  /** Some thread added while another one was about to reset the counter. */
  ghost predicate LosesReset(s: State, steps: seq<Step>)
    decreases |steps|
  {
    steps != [] && Enabled(s, steps[0]) &&
    ((steps[0].Add? && s.num == MAX_UINT16) || LosesReset(Next(s, steps[0]), steps[1..]))
  }

  predicate InRange(ids: seq<uint16>) {
    forall i :: 0 <= i < |ids| ==> 1 <= ids[i] <= PERIOD
  }

  lemma {:induction false} IdsOnlyGrow(s: State, steps: seq<Step>, end: State)
    requires Reaches(s, steps, end)
    ensures s.ids <= end.ids
    decreases |steps|
  {
    if steps != [] {
      IdsOnlyGrow(Next(s, steps[0]), steps[1..], end);
    }
  }

  /** Started at 1, the allocator stays within 1..65534 exactly as long as no reset is lost; the add that makes a
    * reset fail returns 0. */
  lemma InRangeIffNoResetLost(steps: seq<Step>, s: State)
    requires Reaches(INIT, steps, s)
    ensures InRange(s.ids) <==> !LosesReset(INIT, steps)
  {
    RangeFollows(INIT, steps, s);
  }

  lemma {:induction false} RangeFollows(s: State, steps: seq<Step>, end: State)
    requires Reaches(s, steps, end)
    requires InRange(s.ids) && 1 <= s.num <= MAX_UINT16
    ensures InRange(end.ids) <==> !LosesReset(s, steps)
    decreases |steps|
  {
    if steps != [] {
      var s' := Next(s, steps[0]);
      if steps[0].Add? && s.num == MAX_UINT16 {
        IdsOnlyGrow(s', steps[1..], end);
        assert s'.ids[|s.ids|] == 0;
        assert end.ids[|s.ids|] == 0;
      } else {
        RangeFollows(s', steps[1..], end);
      }
    }
  }

  // ----- one caller at a time -----

  /** What an undisturbed call returns, and the counter that it leaves. */
  function NextAlone(num: uint32): (uint16, uint32) {
    var next := Incremented(num);
    if next == MAX_UINT16 then (1, 1) else (next % 0x1_0000, next)
  }

  function CounterAfter(calls: nat): uint32 {
    if calls == 0 then 1 else NextAlone(CounterAfter(calls - 1)).1
  }

  /** The id that the k-th call returns. */
  function IdOfCall(k: nat): uint16
    requires k > 0
  {
    NextAlone(CounterAfter(k - 1)).0
  }

  lemma {:induction false} KthCall(k: nat)
    ensures CounterAfter(k) == k % PERIOD + 1
    ensures k > 0 ==> IdOfCall(k) == k % PERIOD + 1
  {
    if k > 0 {
      KthCall(k - 1);
      NextResidue(k - 1);
    }
  }

  lemma Residue(q: nat, r: nat)
    requires r < PERIOD
    ensures (q * PERIOD + r) % PERIOD == r
  {
  }

  lemma SameResidue(a: nat, b: nat)
    requires a % PERIOD == b % PERIOD && -PERIOD < a - b < PERIOD
    ensures a == b
  {
    assert a == a / PERIOD * PERIOD + a % PERIOD;
    assert b == b / PERIOD * PERIOD + b % PERIOD;
  }

  lemma NextResidue(k: nat)
    ensures (k + 1) % PERIOD == if k % PERIOD + 1 == PERIOD then 0 else k % PERIOD + 1
  {
    var q, r := k / PERIOD, k % PERIOD;
    if r + 1 == PERIOD {
      Residue(q + 1, 0);
    } else {
      Residue(q, r + 1);
    }
  }

  /** In each full period of calls every id from 1 to 65534 comes up exactly once. */
  lemma PeriodIsPermutation(k: nat, id: uint16) returns (call: nat)
    requires k > 0 && 1 <= id <= PERIOD
    ensures k <= call < k + PERIOD && IdOfCall(call) == id
    ensures forall other :: k <= other < k + PERIOD && IdOfCall(other) == id ==> other == call
  {
    var q, r := k / PERIOD, k % PERIOD;
    call := if r < id then q * PERIOD + id - 1 else (q + 1) * PERIOD + id - 1;
    Residue(if r < id then q else q + 1, id - 1);
    KthCall(call);
    forall other | k <= other < k + PERIOD && IdOfCall(other) == id ensures other == call {
      KthCall(other);
      SameResidue(call, other);
    }
  }

  lemma {:induction false} ReachesThen(s: State, steps: seq<Step>, mid: State, step: Step)
    requires Reaches(s, steps, mid) && Enabled(mid, step)
    ensures Reaches(s, steps + [step], Next(mid, step))
    decreases |steps|
  {
    if steps == [] {
      assert [step][1..] == [];
    } else {
      ReachesThen(Next(s, steps[0]), steps[1..], mid, step);
      assert (steps + [step])[1..] == steps[1..] + [step];
    }
  }

  /** A single thread takes the concurrent system through the ids of the sequential one. */
  lemma {:induction false} AloneRun(k: nat) returns (steps: seq<Step>, s: State)
    ensures Reaches(INIT, steps, s)
    ensures s.num == CounterAfter(k) && s.resetting == {}
    ensures |s.ids| == k && forall i :: 0 <= i < k ==> s.ids[i] == IdOfCall(i + 1)
  {
    if k == 0 {
      return [], INIT;
    }
    steps, s := AloneRun(k - 1);
    ReachesThen(INIT, steps, s, Add(0));
    steps, s := steps + [Add(0)], Next(s, Add(0));
    if s.resetting != {} {
      ReachesThen(INIT, steps, s, Swap(0));
      steps, s := steps + [Swap(0)], Next(s, Swap(0));
    }
  }

  /** The bound of IdsDistinct cannot be raised: there is a run in which an id comes back after 65534 others. */
  lemma PeriodIsTight() returns (steps: seq<Step>, s: State)
    ensures Reaches(INIT, steps, s) && |s.ids| == PERIOD + 1 && s.ids[0] == s.ids[PERIOD]
  {
    hide CounterAfter, NextAlone, Reaches;
    steps, s := AloneRun(PERIOD + 1);
    KthCall(1);
    KthCall(PERIOD + 1);
  }

  /** The allocator as the source declares it, called by one goroutine. */
  class Sequence {
    var num: uint32

    constructor ()
      ensures num == CounterAfter(0)
    {
      num := 1;
    }

    method AddUint32() returns (next: uint32)
      modifies this
      ensures next == num == Incremented(old(num))
    {
      num := (num + 1) % 0x1_0000_0000;
      next := num;
    }

    method CompareAndSwapUint32(expected: uint32, replacement: uint32) returns (swapped: bool)
      modifies this
      ensures swapped <==> old(num) == expected
      ensures num == if swapped then replacement else old(num)
    {
      swapped := num == expected;
      if swapped {
        num := replacement;
      }
    }

    /** With no other thread in between, the swap cannot fail. */
    method Next() returns (id: uint16)
      modifies this
      ensures (id, num) == NextAlone(old(num))
    {
      var next := AddUint32();
      if next == MAX_UINT16 {
        var swapped := CompareAndSwapUint32(next, 1);
        if swapped {
          return 1;
        }
        assert false;
      }
      id := next % 0x1_0000;
    }
  }
}

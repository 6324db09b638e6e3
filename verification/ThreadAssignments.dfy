/** The stage-claim table (wield/schedulers/utils/ThreadAssignments.hpp) as one thread at a time sees it.

    Stages are numbered 0 .. N-1; the number N (`NumberOfEntries`) in a thread's slot means "no stage".
    ClaimProtocol.dfy treats the same code as a concurrent protocol. */
module Assignments {
  import opened Counting

  const SIZE: int := 0x1_0000_0000_0000_0000  // size_t has 64 bits
  const INT_SIZE: int := 0x1_0000_0000        // int has 32 bits

  // ----- what the table means: `slots` holds the stage each thread visits -----

  predicate WellAssigned(max: seq<nat>, slots: seq<nat>)
  {
    && (forall t | 0 <= t < |slots| :: slots[t] <= |max|)
    && (forall s | 0 <= s < |max| :: Count(slots, s) <= max[s])
  }

  /** Stage `s` has room for another visitor. */
  predicate Room(max: seq<nat>, slots: seq<nat>, s: nat)
  {
    s < |max| && Count(slots, s) < max[s]
  }

  predicate SomeRoom(max: seq<nat>, slots: seq<nat>)
  {
    exists s: nat | s < |max| :: Room(max, slots, s)
  }

  /** The table once thread `t` holds no stage. */
  function Released(max: seq<nat>, slots: seq<nat>, t: nat): seq<nat>
    requires t < |slots|
  {
    slots[t := |max|]
  }

  lemma AssignedTwice(slots: seq<nat>, t: nat, a: nat, b: nat)
    requires t < |slots|
    ensures slots[t := a][t := b] == slots[t := b]
  {
  }

  lemma ReleasedWellAssigned(max: seq<nat>, slots: seq<nat>, t: nat)
    requires WellAssigned(max, slots) && t < |slots|
    ensures WellAssigned(max, Released(max, slots, t))
  {
  }

  // ----- how many threads the constructors allow -----

  /** The value of the `int` accumulator that adds up the concurrency map: after each addition the sum is cut
      back to 32 bits. */
  function AccumulateInt(max: seq<nat>): (total: int)
    ensures -INT_SIZE / 2 <= total < INT_SIZE / 2
  {
    if max == [] then 0 else ToInt(AccumulateInt(max[..|max| - 1]) + max[|max| - 1])
  }

  function ToInt(x: int): int
  {
    (x + INT_SIZE / 2) % INT_SIZE - INT_SIZE / 2
  }

  lemma ToIntShift(x: int, y: int)
    ensures ToInt(ToInt(x) + y) == ToInt(x + y)
  {
  }

  lemma {:induction false} AccumulateIntWraps(max: seq<nat>)
    ensures AccumulateInt(max) == ToInt(Sum(max))
  {
    if max != [] {
      AccumulateIntWraps(max[..|max| - 1]);
      ToIntShift(Sum(max[..|max| - 1]), max[|max| - 1]);
    }
  }

  /** The map-only constructor makes one thread slot per unit of concurrency exactly when the sum fits an `int`.
      It always differs from the sum by a multiple of 2^32; for larger sums the slot count is smaller than the sum, or
      the conversion to a size goes negative. */
  lemma {:induction false} ThreadsFromConcurrency(max: seq<nat>)
    ensures (Sum(max) - AccumulateInt(max)) % INT_SIZE == 0 && -INT_SIZE / 2 <= AccumulateInt(max) < INT_SIZE / 2
    ensures AccumulateInt(max) == Sum(max) <==> Sum(max) < INT_SIZE / 2
    ensures AccumulateInt(max) <= Sum(max)
  {
    AccumulateIntWraps(max);
  }

  /** The worker count: as many as the slots of the table and the cores both allow, and at least one if there is a
      slot. */
  function NumberOfThreads(hardwareConcurrency: nat, slots: nat): (n: nat)
    ensures n <= slots && (n <= hardwareConcurrency || n <= 1) && (slots > 0 ==> n > 0)
    ensures n == slots || n >= hardwareConcurrency
  {
    var numCores := if hardwareConcurrency > 1 then hardwareConcurrency else 1;
    if numCores <= slots then numCores else slots
  }

  // ----- pigeonhole -----

  /** Some stage has room exactly while fewer threads are assigned than there are units of concurrency. */
  lemma RoomExactly(max: seq<nat>, slots: seq<nat>)
    requires WellAssigned(max, slots)
    ensures SomeRoom(max, slots) <==> |slots| - Count(slots, |max|) < Sum(max)
  {
    CountsPartition(slots, |max|);
    var counts := Counts(slots, |max|);
    if s: nat :| s < |max| && Room(max, slots, s) {
      SumStrictlyMonotone(counts, max, s);
    } else {
      forall s: nat | s < |max|
        ensures max[s] <= counts[s]
      {
        assert !Room(max, slots, s);
      }
      SumMonotone(max, counts);
    }
  }

  /** With no more threads than units of concurrency, an unassigned thread always finds a stage with room. */
  lemma Pigeonhole(max: seq<nat>, slots: seq<nat>, t: nat)
    requires WellAssigned(max, slots)
    requires t < |slots| && slots[t] == |max|
    requires |slots| <= Sum(max)
    ensures SomeRoom(max, slots)
  {
    CountPositive(slots, t);
    RoomExactly(max, slots);
  }

  /** The default constructor makes as many threads as there are units of concurrency. */
  lemma {:induction false} OnePerStageFits(n: nat)
    ensures Sum(seq(n, _ => 1)) == n
  {
    if n != 0 {
      OnePerStageFits(n - 1);
      assert seq(n, _ => 1)[..n - 1] == seq(n - 1, _ => 1);
    }
  }

  /** A table in which every stage is full. */
  function Full(max: seq<nat>, stages: nat): (slots: seq<nat>)
    requires stages <= |max|
  {
    if stages == 0 then [] else Full(max, stages - 1) + seq(max[stages - 1], _ => stages - 1)
  }

  lemma {:induction false} CountRepeat(k: nat, x: nat, y: nat)
    ensures Count(seq(k, _ => x), y) == if x == y then k else 0
  {
    if k != 0 {
      CountRepeat(k - 1, x, y);
      assert seq(k, _ => x) == seq(k - 1, _ => x) + [x];
    }
  }

  lemma {:induction false} FullCounts(max: seq<nat>, stages: nat, s: nat)
    requires stages <= |max|
    ensures |Full(max, stages)| == Sum(max[..stages])
    ensures Count(Full(max, stages), s) == if s < stages then max[s] else 0
    ensures forall t | 0 <= t < |Full(max, stages)| :: Full(max, stages)[t] < stages
  {
    if stages != 0 {
      hide Count;
      FullCounts(max, stages - 1, s);
      CountRepeat(max[stages - 1], stages - 1, s);
      CountAppend(Full(max, stages - 1), seq(max[stages - 1], _ => stages - 1), s);
      SumTake(max, stages);
    }
  }

  lemma SumTake(max: seq<nat>, stages: nat)
    requires 0 < stages <= |max|
    ensures Sum(max[..stages]) == Sum(max[..stages - 1]) + max[stages - 1]
  {
    assert max[..stages][..stages - 1] == max[..stages - 1];
  }

  /** The condition of the pigeonhole argument is exact: with one thread too many, all stages can be full while a
      thread has none, and that thread's search never ends. */
  lemma PigeonholeIsTight(max: seq<nat>, threads: nat)
    ensures threads <= Sum(max) <==>
            forall slots, t | |slots| == threads && WellAssigned(max, slots) && 0 <= t < threads && slots[t] == |max| ::
              SomeRoom(max, slots)
  {
    if threads <= Sum(max) {
      forall slots, t | |slots| == threads && WellAssigned(max, slots) && 0 <= t < threads && slots[t] == |max|
        ensures SomeRoom(max, slots)
      {
        Pigeonhole(max, slots, t);
      }
    } else {
      var slots := TooManyThreads(max, threads);
    }
  }

  /** Every stage full, and the other threads without one. */
  lemma TooManyThreads(max: seq<nat>, threads: nat) returns (slots: seq<nat>)
    requires threads > Sum(max)
    ensures |slots| == threads && WellAssigned(max, slots) && slots[threads - 1] == |max| && !SomeRoom(max, slots)
  {
    var n := |max|;
    slots := Full(max, n) + seq(threads - Sum(max), _ => n);
    assert max[..n] == max;
    FullCounts(max, n, 0);
    forall s: nat | s < n
      ensures Count(slots, s) == max[s]
    {
      FullCounts(max, n, s);
      CountRepeat(threads - Sum(max), n, s);
    }
  }

  // ----- the table itself -----

  class ThreadAssignments {
    const maximumConcurrency: seq<nat>
    const threadAssignment: array<nat>
    const threadsPerStage: array<nat>

    ghost predicate Valid()
      reads threadAssignment, threadsPerStage
    {
      && threadAssignment != threadsPerStage
      && threadsPerStage.Length == |maximumConcurrency|
      && (forall s | 0 <= s < |maximumConcurrency| :: maximumConcurrency[s] < SIZE)
      && WellAssigned(maximumConcurrency, threadAssignment[..])
      && forall s | 0 <= s < |maximumConcurrency| :: threadsPerStage[s] == Count(threadAssignment[..], s)
    }

    ghost function Slots(): seq<nat>
      reads threadAssignment
    {
      threadAssignment[..]
    }

    /** Once the thread has left its stage, some stage has room for it. */
    ghost predicate CanPlace(threadId: nat)
      reads threadAssignment, threadsPerStage
    {
      && Valid()
      && threadId < threadAssignment.Length
      && SomeRoom(maximumConcurrency, Released(maximumConcurrency, Slots(), threadId))
    }

    /** One visitor per stage. */
    constructor OnePerStage(numberOfStages: nat, numberOfThreads: nat)
      ensures Valid() && fresh(threadAssignment) && fresh(threadsPerStage)
      ensures maximumConcurrency == seq(numberOfStages, _ => 1)
      ensures Slots() == seq(numberOfThreads, _ => numberOfStages)
    {
      maximumConcurrency := seq(numberOfStages, _ => 1);
      threadAssignment := new nat[numberOfThreads](_ => numberOfStages);
      threadsPerStage := new nat[numberOfStages];
      new;
      Init();
      assert Slots() == seq(numberOfThreads, _ => numberOfStages);
    }

    constructor WithThreads(concurrency: seq<nat>, numberOfThreads: nat)
      requires forall s | 0 <= s < |concurrency| :: concurrency[s] < SIZE
      ensures Valid() && fresh(threadAssignment) && fresh(threadsPerStage)
      ensures maximumConcurrency == concurrency
      ensures Slots() == seq(numberOfThreads, _ => |concurrency|)
    {
      maximumConcurrency := concurrency;
      threadAssignment := new nat[numberOfThreads](_ => |concurrency|);
      threadsPerStage := new nat[|concurrency|];
      new;
      Init();
      assert Slots() == seq(numberOfThreads, _ => |concurrency|);
    }

    /** The thread count comes from the map. A negative accumulator would ask the vector for an impossible size. */
    constructor FromConcurrency(concurrency: seq<nat>)
      requires forall s | 0 <= s < |concurrency| :: concurrency[s] < SIZE
      requires AccumulateInt(concurrency) >= 0
      ensures Valid() && fresh(threadAssignment) && fresh(threadsPerStage)
      ensures maximumConcurrency == concurrency
      ensures Slots() == seq(AccumulateInt(concurrency), _ => |concurrency|)
      ensures |Slots()| <= Sum(concurrency)
    {
      maximumConcurrency := concurrency;
      threadAssignment := new nat[AccumulateInt(concurrency)](_ => |concurrency|);
      threadsPerStage := new nat[|concurrency|];
      new;
      Init();
      ThreadsFromConcurrency(concurrency);
      assert Slots() == seq(AccumulateInt(concurrency), _ => |concurrency|);
    }

    /** Zero every visitor count. */
    method Init()
      requires threadAssignment != threadsPerStage
      requires threadsPerStage.Length == |maximumConcurrency|
      requires forall s | 0 <= s < |maximumConcurrency| :: maximumConcurrency[s] < SIZE
      requires forall t | 0 <= t < threadAssignment.Length :: threadAssignment[t] == |maximumConcurrency|
      modifies threadsPerStage
      ensures Valid()
    {
      for i := 0 to threadsPerStage.Length
        invariant forall s | 0 <= s < i :: threadsPerStage[s] == 0
      {
        threadsPerStage[i] := 0;
      }
      assert threadAssignment[..] == seq(threadAssignment.Length, _ => |maximumConcurrency|);
      forall s | 0 <= s < |maximumConcurrency|
        ensures Count(threadAssignment[..], s) == 0
      {
        CountRepeat(threadAssignment.Length, |maximumConcurrency|, s);
      }
    }

    method CurrentAssignment(threadId: nat) returns (stage: nat)
      requires Valid() && threadId < threadAssignment.Length
      ensures stage == Slots()[threadId]
    {
      stage := threadAssignment[threadId];
    }

    method RemoveCurrentAssignment(threadId: nat) returns (previous: nat)
      requires Valid() && threadId < threadAssignment.Length
      modifies threadAssignment, threadsPerStage
      ensures Valid()
      ensures previous == old(Slots()[threadId]) <= |maximumConcurrency|
      ensures Slots() == Released(maximumConcurrency, old(Slots()), threadId)
    {
      previous := threadAssignment[threadId];
      if previous != |maximumConcurrency| {
        assert Count(threadAssignment[..], previous) > 0;
        threadsPerStage[previous] := (threadsPerStage[previous] - 1) % SIZE;
        threadAssignment[threadId] := |maximumConcurrency|;
      }
      assert Slots() == Released(maximumConcurrency, old(Slots()), threadId);
      ReleasedWellAssigned(maximumConcurrency, old(Slots()), threadId);
    }

    /** Claim `next` for a thread that holds no stage. */
    method TryAssign(threadId: nat, next: nat) returns (success: bool)
      requires Valid() && threadId < threadAssignment.Length && next < |maximumConcurrency|
      requires Slots()[threadId] == |maximumConcurrency|
      modifies threadAssignment, threadsPerStage
      ensures Valid()
      ensures success == Room(maximumConcurrency, old(Slots()), next)
      ensures Slots() == if success then old(Slots())[threadId := next] else old(Slots())
    {
      var maxVisitors := maximumConcurrency[next];
      var currentVisitors := threadsPerStage[next];
      success := false;
      if currentVisitors < maxVisitors {
        // compare_exchange_strong: alone, nothing came between the load and the exchange
        if threadsPerStage[next] == currentVisitors {
          threadsPerStage[next] := (currentVisitors + 1) % SIZE;
          threadAssignment[threadId] := next;
          assert Slots() == old(Slots())[threadId := next];
          success := true;
        }
      }
    }
  }
}

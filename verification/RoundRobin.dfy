/** The round-robin policy (wield/schedulers/RoundRobin.hpp). */
module RoundRobin {
  import opened Assignments
  import opened StageSearch

  function IncrementStage(n: nat, stage: nat): nat
    requires stage <= n
  {
    var stageIndex := stage + 1;
    if stageIndex >= n then 0 else stageIndex
  }

  /** All stages, cyclically upward, from the one after `previous`. */
  function UpFrom(n: nat, previous: nat): (order: seq<nat>)
    requires previous <= n
    ensures |order| == n
    ensures forall k | 0 <= k < n :: order[k] < n
  {
    var first := IncrementStage(n, previous);
    seq(n, (k: nat) requires k < n => if first + k < n then first + k else first + k - n)
  }

  /** Counting on from any stage of the order gives the one after it. */
  lemma UpFromIsIncrement(n: nat, previous: nat, k: nat)
    requires previous <= n && k < n
    ensures UpFrom(n, previous)[k] == IncrementStage(n, if k == 0 then previous else UpFrom(n, previous)[k - 1])
  {
  }

  /** Where a stage stands in that order. */
  function UpPosition(n: nat, previous: nat, s: nat): (k: nat)
    requires previous <= n && s < n
    ensures k < n && UpFrom(n, previous)[k] == s
    ensures forall j | 0 <= j < n && UpFrom(n, previous)[j] == s :: j == k
  {
    var first := IncrementStage(n, previous);
    if s >= first then s - first else s + n - first
  }

  lemma RoomInUpFrom(max: seq<nat>, slots: seq<nat>, previous: nat)
    requires previous <= |max|
    ensures FirstRoom(max, slots, UpFrom(|max|, previous)) < |max| <==> SomeRoom(max, slots)
  {
    if SomeRoom(max, slots) {
      var s: nat :| s < |max| && Room(max, slots, s);
      assert Room(max, slots, UpFrom(|max|, previous)[UpPosition(|max|, previous, s)]);
    }
  }

  // ----- the policy on values -----

  /** The stage `nextStage` gives to thread `t`: the first with room, counting on from the stage it leaves. */
  function Next(max: seq<nat>, slots: seq<nat>, t: nat): (s: nat)
    requires t < |slots| && slots[t] <= |max| && SomeRoom(max, Released(max, slots, t))
    ensures Room(max, Released(max, slots, t), s)
  {
    RoomInUpFrom(max, Released(max, slots, t), slots[t]);
    var order := UpFrom(|max|, slots[t]);
    order[FirstRoom(max, Released(max, slots, t), order)]
  }

  function Step(max: seq<nat>, slots: seq<nat>, t: nat): (slots': seq<nat>)
    requires t < |slots| && slots[t] <= |max| && SomeRoom(max, Released(max, slots, t))
    ensures |slots'| == |slots|
    ensures WellAssigned(max, slots) ==> WellAssigned(max, slots')
  {
    slots[t := Next(max, slots, t)]
  }

  /** Declaratively: the smallest stage with room above the one it leaves, or else the smallest with room. */
  lemma NextIsCyclicallyFirst(max: seq<nat>, slots: seq<nat>, t: nat, s: nat)
    requires t < |slots| && slots[t] <= |max| && Room(max, Released(max, slots, t), s)
    ensures SomeRoom(max, Released(max, slots, t))
    ensures var next, previous := Next(max, slots, t), slots[t];
            if previous < next < |max| && previous < |max| then s <= previous || next <= s
            else next <= s && (previous < |max| ==> s <= previous)
  {
    var released, order := Released(max, slots, t), UpFrom(|max|, slots[t]);
    RoomInUpFrom(max, released, slots[t]);
    assert FirstRoom(max, released, order) <= UpPosition(|max|, slots[t], s);
  }

  class RoundRobin {
    const assignments: ThreadAssignments

    constructor (assignments: ThreadAssignments)
      ensures this.assignments == assignments
    {
      this.assignments := assignments;
    }

    /** Running alone, if some stage has room once the thread has left its own, the search takes the first such stage
        in cyclic order, in at most as many tries as there are stages. */
    method NextStage(threadId: nat) returns (next: nat, ghost tries: nat)
      requires assignments.CanPlace(threadId)
      modifies assignments.threadAssignment, assignments.threadsPerStage
      ensures assignments.Valid()
      ensures next == Next(assignments.maximumConcurrency, old(assignments.Slots()), threadId)
      ensures assignments.Slots() == Step(assignments.maximumConcurrency, old(assignments.Slots()), threadId)
      ensures tries <= |assignments.maximumConcurrency|
    {
      next := assignments.RemoveCurrentAssignment(threadId);
      next, tries := Search(threadId, next);
      AssignedTwice(old(assignments.Slots()), threadId, |assignments.maximumConcurrency|, next);
    }

    /** The do-while loop of `nextStage`. */
    method Search(threadId: nat, previous: nat) returns (next: nat, ghost tries: nat)
      requires assignments.Valid() && threadId < assignments.threadAssignment.Length
      requires previous <= |assignments.maximumConcurrency| == assignments.Slots()[threadId]
      requires SomeRoom(assignments.maximumConcurrency, assignments.Slots())
      modifies assignments.threadAssignment, assignments.threadsPerStage
      ensures assignments.Valid()
      ensures 0 < tries <= |assignments.maximumConcurrency|
      ensures tries == FirstRoom(assignments.maximumConcurrency, old(assignments.Slots()),
                                 UpFrom(|assignments.maximumConcurrency|, previous)) + 1
      ensures next == UpFrom(|assignments.maximumConcurrency|, previous)[tries - 1]
      ensures assignments.Slots() == old(assignments.Slots())[threadId := next]
    {
      var n := |assignments.maximumConcurrency|;
      ghost var order := UpFrom(n, previous);
      RoomInUpFrom(assignments.maximumConcurrency, assignments.Slots(), previous);
      ghost var target := FirstRoom(assignments.maximumConcurrency, assignments.Slots(), order);
      var hasAssignment := false;
      next, tries := previous, 0;
      while !hasAssignment
        invariant assignments.Valid() && next <= n && tries <= target + 1
        invariant next == if tries == 0 then previous else order[tries - 1]
        invariant if hasAssignment then
                    tries == target + 1 && assignments.Slots() == old(assignments.Slots())[threadId := next]
                  else tries <= target && assignments.Slots() == old(assignments.Slots())
        decreases target + 1 - tries
      {
        UpFromIsIncrement(n, previous, tries);
        next := IncrementStage(n, next);
        hasAssignment := assignments.TryAssign(threadId, next);
        tries := tries + 1;
      }
    }
  }

  // ----- a lone worker is fair -----

  /** `stages` lists the stages that may be visited at all, in order. */
  ghost predicate Enumerates(max: seq<nat>, stages: seq<nat>)
  {
    && (forall s: nat | s < |max| && max[s] > 0 :: s in stages)
    && (forall i | 0 <= i < |stages| :: stages[i] < |max| && max[stages[i]] > 0)
    && (forall i, j | 0 <= i < j < |stages| :: stages[i] < stages[j])
  }

  function Unmasked(max: seq<nat>): (stages: seq<nat>)
    ensures Enumerates(max, stages)
  {
    if max == [] then [] else
    var n := |max| - 1;
    var front := Unmasked(max[..n]);
    if max[n] > 0 then front + [n] else front
  }

  predicate AnyUnmasked(max: seq<nat>)
  {
    exists s | 0 <= s < |max| :: max[s] > 0
  }

  lemma AloneHasRoom(max: seq<nat>, at: nat)
    requires at <= |max|
    ensures Released(max, [at], 0) == [|max|]
    ensures forall s: nat :: Room(max, [|max|], s) <==> s < |max| && max[s] > 0
    ensures SomeRoom(max, [|max|]) <==> AnyUnmasked(max)
  {
    if AnyUnmasked(max) {
      var s :| 0 <= s < |max| && max[s] > 0;
      assert Room(max, [|max|], s);
    }
  }

  /** The stage given to a worker that is the only thread and leaves `at`. */
  function AloneNext(max: seq<nat>, at: nat): (next: nat)
    requires at <= |max| && AnyUnmasked(max)
    ensures next < |max| && max[next] > 0
  {
    AloneHasRoom(max, at);
    Next(max, [at], 0)
  }

  /** The stage given to it by its `call`-th call, starting from nowhere. */
  function LoneVisit(max: seq<nat>, call: nat): (s: nat)
    requires AnyUnmasked(max)
    ensures s < |max| && max[s] > 0
  {
    AloneNext(max, if call == 0 then |max| else LoneVisit(max, call - 1))
  }

  /** The list, read cyclically from its `i`-th stage. */
  function Rotated(list: seq<nat>, i: nat): seq<nat>
    requires i <= |list|
  {
    list[i..] + list[..i]
  }

  function CyclicNext(size: nat, i: nat): nat
  {
    if i + 1 == size then 0 else i + 1
  }

  /** `call` modulo `size`. */
  function CyclicIndex(size: nat, call: nat): (i: nat)
    requires size > 0
    ensures i < size
  {
    if call == 0 then 0 else CyclicNext(size, CyclicIndex(size, call - 1))
  }

  /** The `call`-th stage of an endless walk around the list. */
  function Walk(list: seq<nat>, call: nat): nat
    requires |list| > 0
  {
    list[CyclicIndex(|list|, call)]
  }

  lemma {:induction false} CyclicIndexShift(size: nat, from: nat, k: nat)
    requires k < size
    ensures CyclicIndex(size, from + k) ==
            var i := CyclicIndex(size, from) + k; if i < size then i else i - size
  {
    if k != 0 {
      CyclicIndexShift(size, from, k - 1);
    }
  }

  lemma WalkWindow(list: seq<nat>, from: nat, k: nat)
    requires k < |list|
    ensures Walk(list, from + k) == Rotated(list, CyclicIndex(|list|, from))[k]
  {
    CyclicIndexShift(|list|, from, k);
  }

  /** The lone worker goes from nowhere to the first stage of the list. */
  lemma FirstInList(max: seq<nat>, list: seq<nat>)
    requires Enumerates(max, list) && list != []
    ensures AnyUnmasked(max)
    ensures AloneNext(max, |max|) == list[0]
  {
    assert list[0] < |max| && max[list[0]] > 0;
    AloneHasRoom(max, |max|);
    NextIsCyclicallyFirst(max, [|max|], 0, list[0]);
    assert AloneNext(max, |max|) in list;
  }

  /** From each stage of the list it goes to the one after it, and from the last to the first. */
  lemma NextInList(max: seq<nat>, list: seq<nat>, j: nat)
    requires Enumerates(max, list) && j < |list|
    ensures list[j] < |max| && AnyUnmasked(max)
    ensures AloneNext(max, list[j]) == list[CyclicNext(|list|, j)]
  {
    var i := CyclicNext(|list|, j);
    assert list[i] < |max| && max[list[i]] > 0;
    assert list[j] < |max|;
    AloneHasRoom(max, list[j]);
    NextIsCyclicallyFirst(max, [list[j]], 0, list[i]);
    var next := AloneNext(max, list[j]);
    assert next in list;
    var p :| 0 <= p < |list| && list[p] == next;
    assert p == i;
  }

  /** A lone worker walks its list of unmasked stages over and over. */
  lemma {:induction false} LoneVisitIsWalk(max: seq<nat>, list: seq<nat>, call: nat)
    requires AnyUnmasked(max) && Enumerates(max, list)
    ensures |list| > 0
    ensures LoneVisit(max, call) == Walk(list, call)
  {
    hide AloneNext;
    var s :| 0 <= s < |max| && max[s] > 0;
    assert s in list;
    if call == 0 {
      FirstInList(max, list);
    } else {
      LoneVisitIsWalk(max, list, call - 1);
      var j := CyclicIndex(|list|, call - 1);
      NextInList(max, list, j);
    }
  }

  /** Any |list| consecutive stages of the walk are the list, rotated. */
  lemma WindowIsRotation(list: seq<nat>, from: nat, visits: seq<nat>)
    requires |visits| == |list| > 0
    requires forall k | 0 <= k < |list| :: visits[k] == Walk(list, from + k)
    ensures multiset(visits) == multiset(list)
  {
    var i := CyclicIndex(|list|, from);
    forall k | 0 <= k < |list|
      ensures visits[k] == Rotated(list, i)[k]
    {
      WalkWindow(list, from, k);
    }
    assert visits == Rotated(list, i);
    assert list == list[..i] + list[i..];
  }

  /** Fairness: whenever E is the number of unmasked stages, any E consecutive stages given to a lone worker are
      exactly those stages, each once. */
  lemma LoneWorkerIsFair(max: seq<nat>, list: seq<nat>, from: nat, visits: seq<nat>)
    requires AnyUnmasked(max) && Enumerates(max, list) && |visits| == |list|
    requires forall k | 0 <= k < |list| :: visits[k] == LoneVisit(max, from + k)
    ensures multiset(visits) == multiset(list)
  {
    hide LoneVisit, Walk, Enumerates, AnyUnmasked;
    forall k | 0 <= k < |list|
      ensures visits[k] == Walk(list, from + k)
    {
      LoneVisitIsWalk(max, list, from + k);
    }
    LoneVisitIsWalk(max, list, from);
    WindowIsRotation(list, from, visits);
  }
}

/** The shortest-remaining-processing-time policy (wield/schedulers/SRPT.hpp). */
module Srpt {
  import opened Counting
  import opened Assignments
  import opened StageSearch
  import opened Worker
  import RR = RoundRobin

  /** `size_t` subtraction: below zero it wraps to a number no smaller than any stage count. */
  function DecrementStage(n: nat, stage: nat): (s: nat)
    requires stage <= n < SIZE
  {
    var stageIndex := (stage - 1) % SIZE;
    if stageIndex >= n then if n == 0 then 0 else n - 1 else stageIndex
  }

  /** All stages, cyclically downward, from the one before `start`. */
  function DownFrom(n: nat, start: nat): (order: seq<nat>)
    requires start <= n < SIZE
    ensures |order| == n
    ensures forall k | 0 <= k < n :: order[k] < n
  {
    var first := DecrementStage(n, start);
    seq(n, (k: nat) requires k < n => if k <= first then first - k else first + n - k)
  }

  lemma DownFromIsDecrement(n: nat, start: nat, k: nat)
    requires start <= n < SIZE && k < n
    ensures DownFrom(n, start)[k] == DecrementStage(n, if k == 0 then start else DownFrom(n, start)[k - 1])
  {
  }

  function DownPosition(n: nat, start: nat, s: nat): (k: nat)
    requires start <= n < SIZE && s < n
    ensures k < n && DownFrom(n, start)[k] == s
  {
    var first := DecrementStage(n, start);
    if s <= first then first - s else first + n - s
  }

  lemma RoomInDownFrom(max: seq<nat>, slots: seq<nat>, start: nat)
    requires start <= |max| < SIZE
    ensures FirstRoom(max, slots, DownFrom(|max|, start)) < |max| <==> SomeRoom(max, slots)
  {
    if SomeRoom(max, slots) {
      var s: nat :| s < |max| && Room(max, slots, s);
      assert Room(max, slots, DownFrom(|max|, start)[DownPosition(|max|, start, s)]);
    }
  }

  /** Where the search starts: above the last stage after a visit with messages to any other stage, and otherwise at
      the stage the thread leaves. */
  function Start(n: nat, original: nat, hadMessages: bool): (start: nat)
    requires original <= n
    ensures start <= n
  {
    var last := if original + 1 == n then original else n;
    if hadMessages then last else original
  }

  // ----- the policy on values -----

  function Next(max: seq<nat>, slots: seq<nat>, hadMessages: bool, t: nat): (s: nat)
    requires |max| < SIZE && t < |slots| && slots[t] <= |max| && SomeRoom(max, Released(max, slots, t))
    ensures Room(max, Released(max, slots, t), s)
  {
    var start := Start(|max|, slots[t], hadMessages);
    RoomInDownFrom(max, Released(max, slots, t), start);
    DownFrom(|max|, start)[FirstRoom(max, Released(max, slots, t), DownFrom(|max|, start))]
  }

  /** After a visit with messages to a stage other than the last, the thread gets the highest-numbered stage with
      room. Otherwise it gets the largest stage with room below the one it leaves, or else the largest with room. */
  lemma NextIsCyclicallyLast(max: seq<nat>, slots: seq<nat>, hadMessages: bool, t: nat, s: nat)
    requires |max| < SIZE && t < |slots| && slots[t] <= |max| && Room(max, Released(max, slots, t), s)
    ensures SomeRoom(max, Released(max, slots, t))
    ensures var next, original := Next(max, slots, hadMessages, t), slots[t];
            if hadMessages && original + 1 != |max| then s <= next
            else if next < original < |max| then original <= s || s <= next
            else s <= next && (original < |max| ==> original <= s)
  {
    var start := Start(|max|, slots[t], hadMessages);
    RoomInDownFrom(max, Released(max, slots, t), start);
    var k := FirstRoom(max, Released(max, slots, t), DownFrom(|max|, start));
    assert k <= DownPosition(|max|, start, s);
    EarlierInDownFrom(|max|, start, k, s);
  }

  /** What it means to come no later than `s` in the downward order. */
  lemma EarlierInDownFrom(n: nat, start: nat, k: nat, s: nat)
    requires start <= n < SIZE && s < n && k <= DownPosition(n, start, s)
    ensures var next := DownFrom(n, start)[k];
            if start == n then s <= next
            else if next < start then start <= s || s <= next
            else s <= next && start <= s
  {
  }

  class Srpt {
    const assignments: ThreadAssignments
    var hadMessages: bool

    constructor (assignments: ThreadAssignments)
      ensures this.assignments == assignments && !hadMessages
    {
      this.assignments := assignments;
      hadMessages := false;
    }

    method BatchEnd(info: PollingInformation)
      modifies this`hadMessages
      ensures hadMessages == info.hadMessage
    {
      hadMessages := info.hadMessage;
    }

    /** Running alone, the search ends if some stage has room once the thread has left its own. */
    method NextStage(threadId: nat) returns (next: nat, ghost tries: nat)
      requires assignments.CanPlace(threadId) && |assignments.maximumConcurrency| < SIZE
      modifies assignments.threadAssignment, assignments.threadsPerStage
      ensures assignments.Valid()
      ensures next == Next(assignments.maximumConcurrency, old(assignments.Slots()), hadMessages, threadId)
      ensures assignments.Slots() == old(assignments.Slots())[threadId := next]
      ensures tries <= |assignments.maximumConcurrency|
    {
      var original := assignments.RemoveCurrentAssignment(threadId);
      next, tries := Search(threadId, Start(|assignments.maximumConcurrency|, original, hadMessages));
      AssignedTwice(old(assignments.Slots()), threadId, |assignments.maximumConcurrency|, next);
    }

    /** The do-while loop of `nextStage`. */
    method Search(threadId: nat, start: nat) returns (next: nat, ghost tries: nat)
      requires assignments.Valid() && threadId < assignments.threadAssignment.Length
      requires start <= |assignments.maximumConcurrency| == assignments.Slots()[threadId] < SIZE
      requires SomeRoom(assignments.maximumConcurrency, assignments.Slots())
      modifies assignments.threadAssignment, assignments.threadsPerStage
      ensures assignments.Valid()
      ensures 0 < tries <= |assignments.maximumConcurrency|
      ensures tries == FirstRoom(assignments.maximumConcurrency, old(assignments.Slots()),
                                 DownFrom(|assignments.maximumConcurrency|, start)) + 1
      ensures next == DownFrom(|assignments.maximumConcurrency|, start)[tries - 1]
      ensures assignments.Slots() == old(assignments.Slots())[threadId := next]
    {
      var n := |assignments.maximumConcurrency|;
      ghost var order := DownFrom(n, start);
      RoomInDownFrom(assignments.maximumConcurrency, assignments.Slots(), start);
      ghost var target := FirstRoom(assignments.maximumConcurrency, assignments.Slots(), order);
      var hasAssignment := false;
      next, tries := start, 0;
      while !hasAssignment
        invariant assignments.Valid() && next <= n && tries <= target + 1
        invariant next == if tries == 0 then start else order[tries - 1]
        invariant if hasAssignment then
                    tries == target + 1 && assignments.Slots() == old(assignments.Slots())[threadId := next]
                  else tries <= target && assignments.Slots() == old(assignments.Slots())
        decreases target + 1 - tries
      {
        DownFromIsDecrement(n, start, tries);
        next := DecrementStage(n, next);
        hasAssignment := assignments.TryAssign(threadId, next);
        tries := tries + 1;
      }
    }
  }

  /** One turn of a worker, as `SchedulerBase::process`: claim a stage, drain it, report the batch. The policy never
      hears of a batch that ended with a message. */
  method Process<M>(policy: Srpt, queues: seq<StageQueue<M>>, threadId: nat, arrivals: seq<seq<M>>)
    returns (stage: nat, handled: seq<M>)
    requires policy.assignments.CanPlace(threadId) && |policy.assignments.maximumConcurrency| == |queues| < SIZE
    modifies policy`hadMessages, policy.assignments.threadAssignment, policy.assignments.threadsPerStage, queues
    ensures policy.assignments.Valid() && !policy.hadMessages
    ensures stage == Next(policy.assignments.maximumConcurrency, old(policy.assignments.Slots()),
                          old(policy.hadMessages), threadId)
    ensures policy.assignments.Slots() == old(policy.assignments.Slots())[threadId := stage]
    ensures stage < |queues| && queues[stage].messages == []
    ensures handled == old(queues[stage].messages) + Arrived(arrivals, |handled| + 1)
    ensures forall q | q in queues && q != queues[stage] :: q.messages == old(q.messages)
  {
    ghost var tries;
    stage, tries := policy.NextStage(threadId);
    handled := Visit(policy, queues[stage], arrivals);
  }

  method Visit<M>(policy: Srpt, queue: StageQueue<M>, arrivals: seq<seq<M>>) returns (handled: seq<M>)
    modifies policy`hadMessages, queue
    ensures !policy.hadMessages
    ensures queue.messages == []
    ensures handled == old(queue.messages) + Arrived(arrivals, |handled| + 1)
  {
    var info, polls;
    ghost var outcomes;
    info, handled, polls, outcomes := DrainBatch(queue, arrivals);
    policy.BatchEnd(info);
  }

  // ----- under exhaustive polling the policy is round robin on reversed stage numbers -----

  function Mirror(n: nat, s: nat): (m: nat)
  {
    if s < n then n - 1 - s else s
  }

  function MirrorSlots(n: nat, slots: seq<nat>): (mirrored: seq<nat>)
    ensures |mirrored| == |slots| && forall t | 0 <= t < |slots| :: mirrored[t] == Mirror(n, slots[t])
  {
    seq(|slots|, t requires 0 <= t < |slots| => Mirror(n, slots[t]))
  }

  function MirrorMax(max: seq<nat>): (mirrored: seq<nat>)
    ensures |mirrored| == |max| && forall s | 0 <= s < |max| :: mirrored[s] == max[Mirror(|max|, s)]
  {
    seq(|max|, s requires 0 <= s < |max| => max[|max| - 1 - s])
  }

  lemma {:induction false} MirrorCount(n: nat, slots: seq<nat>, s: nat)
    requires s < n && forall t | 0 <= t < |slots| :: slots[t] <= n
    ensures Count(MirrorSlots(n, slots), Mirror(n, s)) == Count(slots, s)
  {
    if slots != [] {
      var front, last := slots[..|slots| - 1], slots[|slots| - 1];
      MirrorCount(n, front, s);
      assert slots == front + [last];
      assert MirrorSlots(n, slots) == MirrorSlots(n, front) + [Mirror(n, last)];
    }
  }

  lemma MirrorRoom(max: seq<nat>, slots: seq<nat>, s: nat)
    requires s < |max| && forall t | 0 <= t < |slots| :: slots[t] <= |max|
    ensures Room(MirrorMax(max), MirrorSlots(|max|, slots), Mirror(|max|, s)) == Room(max, slots, s)
  {
    MirrorCount(|max|, slots, s);
  }

  lemma MirrorOrder(n: nat, start: nat, k: nat)
    requires start <= n < SIZE && k < n
    ensures RR.UpFrom(n, Mirror(n, start))[k] == Mirror(n, DownFrom(n, start)[k])
  {
  }

  /** Without messages, one call of `nextStage` is the mirror image of round robin's. */
  lemma MirrorNext(max: seq<nat>, slots: seq<nat>, t: nat)
    requires |max| < SIZE && t < |slots| && SomeRoom(max, Released(max, slots, t))
    requires forall u | 0 <= u < |slots| :: slots[u] <= |max|
    ensures SomeRoom(MirrorMax(max), Released(MirrorMax(max), MirrorSlots(|max|, slots), t))
    ensures RR.Next(MirrorMax(max), MirrorSlots(|max|, slots), t) == Mirror(|max|, Next(max, slots, false, t))
    ensures MirrorSlots(|max|, slots[t := Next(max, slots, false, t)])
         == MirrorSlots(|max|, slots)[t := RR.Next(MirrorMax(max), MirrorSlots(|max|, slots), t)]
  {
    var n := |max|;
    var released := Released(max, slots, t);
    var max', slots' := MirrorMax(max), MirrorSlots(n, slots);
    assert Released(max', slots', t) == MirrorSlots(n, released);
    RoomInDownFrom(max, released, slots[t]);
    var order, order' := DownFrom(n, slots[t]), RR.UpFrom(n, slots'[t]);
    var k := FirstRoom(max, released, order);
    forall j | 0 <= j <= k
      ensures order'[j] == Mirror(n, order[j])
      ensures Room(max', MirrorSlots(n, released), order'[j]) == Room(max, released, order[j])
    {
      MirrorOrder(n, slots[t], j);
      MirrorRoom(max, released, order[j]);
    }
    FirstRoomUnique(max', MirrorSlots(n, released), order', k);
  }

  /** What the workers do to a policy: one of them gets a stage, or one ends a batch after the given polls. */
  datatype Event = Visit(t: nat) | BatchEnd(polls: seq<bool>)

  predicate WellFormed(e: Event, threads: nat)
  {
    match e case Visit(t) => t < threads case BatchEnd(polls) => IsBatch(polls)
  }

  datatype State = State(slots: seq<nat>, hadMessages: bool)

  /** The threads are placed, and none too many. */
  predicate Fits(max: seq<nat>, slots: seq<nat>)
  {
    |max| < SIZE && WellAssigned(max, slots) && |slots| <= Sum(max)
  }

  lemma FitsHasRoom(max: seq<nat>, slots: seq<nat>, t: nat)
    requires Fits(max, slots) && t < |slots|
    ensures SomeRoom(max, Released(max, slots, t))
  {
    Pigeonhole(max, Released(max, slots, t), t);
  }

  function Step(max: seq<nat>, st: State, e: Event): (st': State)
    requires Fits(max, st.slots) && WellFormed(e, |st.slots|)
    ensures Fits(max, st'.slots) && |st'.slots| == |st.slots|
  {
    match e
    case Visit(t) =>
      FitsHasRoom(max, st.slots, t);
      st.(slots := st.slots[t := Next(max, st.slots, st.hadMessages, t)])
    case BatchEnd(polls) => st.(hadMessages := polls[|polls| - 1])
  }

  /** Round robin takes no notice of batches. */
  function RoundRobinStep(max: seq<nat>, slots: seq<nat>, e: Event): (slots': seq<nat>)
    requires Fits(max, slots) && WellFormed(e, |slots|)
    ensures Fits(max, slots') && |slots'| == |slots|
  {
    match e
    case Visit(t) =>
      FitsHasRoom(max, slots, t);
      RR.Step(max, slots, t)
    case BatchEnd(_) => slots
  }

  function Run(max: seq<nat>, slots: seq<nat>, es: seq<Event>): (st: State)
    requires Fits(max, slots) && forall i | 0 <= i < |es| :: WellFormed(es[i], |slots|)
    ensures Fits(max, st.slots) && |st.slots| == |slots|
  {
    if es == [] then State(slots, false) else Step(max, Run(max, slots, es[..|es| - 1]), es[|es| - 1])
  }

  function RoundRobinRun(max: seq<nat>, slots: seq<nat>, es: seq<Event>): (slots': seq<nat>)
    requires Fits(max, slots) && forall i | 0 <= i < |es| :: WellFormed(es[i], |slots|)
    ensures Fits(max, slots') && |slots'| == |slots|
  {
    if es == [] then slots else RoundRobinStep(max, RoundRobinRun(max, slots, es[..|es| - 1]), es[|es| - 1])
  }

  lemma {:induction false} MirrorSum(max: seq<nat>)
    ensures Sum(MirrorMax(max)) == Sum(max)
  {
    if max != [] {
      var front, last := max[..|max| - 1], max[|max| - 1];
      MirrorSum(front);
      assert MirrorMax(max) == [last] + MirrorMax(front);
      SumAppend([last], MirrorMax(front));
      assert [last][..0] == [];
      assert Sum([last]) == last;
    }
  }

  lemma MirrorFits(max: seq<nat>, slots: seq<nat>)
    requires Fits(max, slots)
    ensures Fits(MirrorMax(max), MirrorSlots(|max|, slots))
  {
    MirrorSum(max);
    forall s | 0 <= s < |max|
      ensures Count(MirrorSlots(|max|, slots), s) <= MirrorMax(max)[s]
    {
      MirrorCount(|max|, slots, Mirror(|max|, s));
    }
  }

  /** The end of a batch wipes out any memory of messages; nothing else touches it, or the threads. */
  lemma BatchForgets(max: seq<nat>, st: State, e: Event)
    requires Fits(max, st.slots) && WellFormed(e, |st.slots|)
    ensures Step(max, st, e).hadMessages == (st.hadMessages && e.Visit?)
    ensures e.BatchEnd? ==> Step(max, st, e).slots == st.slots
  {
  }

  lemma MirrorStep(max: seq<nat>, st: State, e: Event)
    requires Fits(max, st.slots) && WellFormed(e, |st.slots|) && !st.hadMessages
    ensures !Step(max, st, e).hadMessages
    ensures Fits(MirrorMax(max), MirrorSlots(|max|, st.slots))
    ensures MirrorSlots(|max|, Step(max, st, e).slots)
         == RoundRobinStep(MirrorMax(max), MirrorSlots(|max|, st.slots), e)
  {
    MirrorFits(max, st.slots);
    if e.Visit? {
      FitsHasRoom(max, st.slots, e.t);
      MirrorNext(max, st.slots, e.t);
    }
  }

  /** In every run under exhaustive polling the policy never remembers messages, and it places the threads exactly as
      round robin places them on the reversed stages. */
  lemma {:induction false} SimulatesRoundRobin(max: seq<nat>, slots: seq<nat>, es: seq<Event>)
    requires Fits(max, slots) && forall i | 0 <= i < |es| :: WellFormed(es[i], |slots|)
    ensures !Run(max, slots, es).hadMessages
    ensures Fits(MirrorMax(max), MirrorSlots(|max|, slots))
    ensures MirrorSlots(|max|, Run(max, slots, es).slots)
         == RoundRobinRun(MirrorMax(max), MirrorSlots(|max|, slots), es)
  {
    MirrorFits(max, slots);
    if es != [] {
      SimulatesRoundRobin(max, slots, es[..|es| - 1]);
      MirrorStep(max, Run(max, slots, es[..|es| - 1]), es[|es| - 1]);
    }
  }
}

/** The Color policy (wield/schedulers/color/Color.hpp): stage names wait in a shared work queue. */
module Color {
  import opened Assignments
  import opened StageSearch
  import opened Worker

  /** What `nextStage` comes to. `OutOfRange`: the work queue ran empty, so `dequeNextStage` yields `NumberOfEntries`
      and `tryAssign` indexes past its arrays; nothing after that point is modelled. */
  datatype Outcome = Visit(stage: nat) | OutOfRange

  class Color {
    const workQueue: StageQueue<nat>
    const assignments: ThreadAssignments

    constructor (workQueue: StageQueue<nat>, assignments: ThreadAssignments)
      ensures this.workQueue == workQueue && this.assignments == assignments
    {
      this.workQueue, this.assignments := workQueue, assignments;
    }

    /** The head of the work queue, or `NumberOfEntries`. */
    method DequeNextStage() returns (next: nat)
      modifies workQueue
      ensures if old(workQueue.messages) == [] then next == |assignments.maximumConcurrency| && workQueue.messages == []
              else next == old(workQueue.messages[0]) && workQueue.messages == old(workQueue.messages[1..])
    {
      next := |assignments.maximumConcurrency|;
      var success, token := workQueue.TryPop();
      if success {
        assert token == old(workQueue.messages)[..1];
        next := token[0];
      }
    }

    /** Running alone: the thread gets the first queued stage with room, and the tokens before it are gone with it.
        If no queued stage has room, every token is dropped and the search leaves the arrays. */
    method NextStage(threadId: nat) returns (outcome: Outcome)
      requires assignments.Valid() && threadId < assignments.threadAssignment.Length
      requires forall i | 0 <= i < |workQueue.messages| :: workQueue.messages[i] < |assignments.maximumConcurrency|
      modifies workQueue, assignments.threadAssignment, assignments.threadsPerStage
      ensures assignments.Valid()
      ensures var max, tokens := assignments.maximumConcurrency, old(workQueue.messages);
              var released := Released(max, old(assignments.Slots()), threadId);
              var k := FirstRoom(max, released, tokens);
              if k < |tokens| then
                && outcome == Visit(tokens[k]) && workQueue.messages == tokens[k + 1..]
                && assignments.Slots() == old(assignments.Slots())[threadId := tokens[k]]
              else
                && outcome == OutOfRange && workQueue.messages == []
                && assignments.Slots() == released
    {
      var previous := assignments.RemoveCurrentAssignment(threadId);
      outcome := Search(threadId);
      if outcome.Visit? {
        AssignedTwice(old(assignments.Slots()), threadId, |assignments.maximumConcurrency|, outcome.stage);
      }
    }

    /** The do-while loop of `nextStage`. */
    method Search(threadId: nat) returns (outcome: Outcome)
      requires assignments.Valid() && threadId < assignments.threadAssignment.Length
      requires assignments.Slots()[threadId] == |assignments.maximumConcurrency|
      requires forall i | 0 <= i < |workQueue.messages| :: workQueue.messages[i] < |assignments.maximumConcurrency|
      modifies workQueue, assignments.threadAssignment, assignments.threadsPerStage
      ensures assignments.Valid()
      ensures var tokens := old(workQueue.messages);
              var k := FirstRoom(assignments.maximumConcurrency, old(assignments.Slots()), tokens);
              if k < |tokens| then
                && outcome == Visit(tokens[k]) && workQueue.messages == tokens[k + 1..]
                && assignments.Slots() == old(assignments.Slots())[threadId := tokens[k]]
              else
                && outcome == OutOfRange && workQueue.messages == []
                && assignments.Slots() == old(assignments.Slots())
    {
      ghost var tokens := workQueue.messages;
      ghost var k := FirstRoom(assignments.maximumConcurrency, assignments.Slots(), tokens);
      ghost var tries := 0;
      var next := |assignments.maximumConcurrency|;
      while next == |assignments.maximumConcurrency|
        invariant assignments.Valid() && tries <= |tokens|
        invariant workQueue.messages == tokens[tries..]
        invariant if next == |assignments.maximumConcurrency| then
                    tries <= k && assignments.Slots() == old(assignments.Slots())
                  else
                    && tries == k + 1 && next == tokens[k]
                    && assignments.Slots() == old(assignments.Slots())[threadId := next]
        decreases next == |assignments.maximumConcurrency|, |tokens| - tries
      {
        next := DequeNextStage();
        if next == |assignments.maximumConcurrency| {
          return OutOfRange;
        }
        var success := assignments.TryAssign(threadId, next);
        if !success {
          next := |assignments.maximumConcurrency|;
        }
        tries := tries + 1;
      }
      return Visit(next);
    }
  }
}

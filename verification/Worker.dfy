/** The worker's drain loop (wield/SchedulerBase.hpp) under exhaustive polling
    (wield/polling_policies/ExhaustivePollingPolicy.hpp). */
module Worker {

  class PollingInformation {
    var hadMessage: bool

    constructor ()
      ensures hadMessage
    {
      hadMessage := true;
    }

    method IncrementMessageCount(hadMessage: bool)
      modifies this
      ensures this.hadMessage == hadMessage
    {
      this.hadMessage := hadMessage;
    }
  }

  predicate ContinueProcessing(hadMessage: bool)
  {
    hadMessage
  }

  /** The first-in first-out queue of one stage. */
  class StageQueue<M> {
    var messages: seq<M>

    constructor ()
      ensures messages == []
    {
      messages := [];
    }

    method Push(ms: seq<M>)
      modifies this
      ensures messages == old(messages) + ms
    {
      messages := messages + ms;
    }

    method TryPop() returns (success: bool, m: seq<M>)
      modifies this
      ensures success == (old(messages) != [])
      ensures m + messages == old(messages) && |m| == if success then 1 else 0
    {
      success := messages != [];
      m := if success then messages[..1] else [];
      messages := messages[|m|..];
    }
  }

  /** What other threads push just before the `i`-th poll. */
  function ArrivalsBefore<M>(arrivals: seq<seq<M>>, i: nat): seq<M>
  {
    if i < |arrivals| then arrivals[i] else []
  }

  function Arrived<M>(arrivals: seq<seq<M>>, polls: nat): seq<M>
  {
    if polls == 0 then [] else Arrived(arrivals, polls - 1) + ArrivalsBefore(arrivals, polls - 1)
  }

  /** Everything that others push before a poll has arrived by then, in order. */
  lemma ArrivedInOrder<M>(arrivals: seq<seq<M>>, polls: nat)
    ensures Arrived(arrivals, 0) == []
    ensures Arrived(arrivals, polls + 1)
         == Arrived(arrivals, polls) + if polls < |arrivals| then arrivals[polls] else []
  {
  }

  /** The outcomes of the polls of a complete batch: it goes on as long as the polling policy says so. */
  predicate IsBatch(polls: seq<bool>)
  {
    && polls != []
    && (forall i | 0 <= i < |polls| - 1 :: ContinueProcessing(polls[i]))
    && !ContinueProcessing(polls[|polls| - 1])
  }

  /** What is handled and queued after a poll, if `head` is what it took and `rest` what it left. */
  lemma PollMovesHead<M>(handled: seq<M>, pending: seq<M>, start: seq<M>, arrivals: seq<seq<M>>, polls: nat,
                         head: seq<M>, rest: seq<M>)
    requires handled + pending == start + Arrived(arrivals, polls)
    requires head + rest == pending + ArrivalsBefore(arrivals, polls)
    ensures (handled + head) + rest == start + Arrived(arrivals, polls + 1)
  {
    var before, arriving := Arrived(arrivals, polls), ArrivalsBefore(arrivals, polls);
    assert Arrived(arrivals, polls + 1) == before + arriving;
    hide Arrived, ArrivalsBefore;
    Regroup(handled, head, rest);
    Regroup(handled, pending, arriving);
    Regroup(start, before, arriving);
  }

  lemma Regroup<M>(a: seq<M>, b: seq<M>, c: seq<M>)
    ensures (a + b) + c == a + (b + c)
  {
  }

  lemma EmptyStart<M>(start: seq<M>, arrivals: seq<seq<M>>)
    ensures [] + start == start + Arrived(arrivals, 0)
  {
  }

  /** `StageBase::process` on the queue, after others have pushed. */
  method PollOnce<M>(queue: StageQueue<M>, arriving: seq<M>) returns (messageProcessed: bool, m: seq<M>)
    modifies queue
    ensures messageProcessed == (old(queue.messages) + arriving != [])
    ensures m + queue.messages == old(queue.messages) + arriving && |m| == if messageProcessed then 1 else 0
  {
    queue.Push(arriving);
    messageProcessed, m := queue.TryPop();
  }

  /** One visit to a stage: poll until a poll finds nothing. Whatever arrives in between, the visit handles, in order,
      everything that was queued or arrived before its last poll, leaves the queue empty at that poll, and ends with
      the polling information of an empty poll. */
  method DrainBatch<M>(queue: StageQueue<M>, arrivals: seq<seq<M>>)
    returns (info: PollingInformation, handled: seq<M>, polls: nat, ghost outcomes: seq<bool>)
    modifies queue
    ensures fresh(info) && !info.hadMessage
    ensures |outcomes| == polls && IsBatch(outcomes) && info.hadMessage == outcomes[polls - 1]
    ensures handled == old(queue.messages) + Arrived(arrivals, polls)
    ensures queue.messages == []
    ensures polls == |handled| + 1
  {
    hide Arrived;
    EmptyStart(queue.messages, arrivals);
    info := new PollingInformation();
    handled, polls, outcomes := [], 0, [];
    var again := true;
    while again
      invariant fresh(info)
      invariant handled + queue.messages == old(queue.messages) + Arrived(arrivals, polls)
      invariant polls == |handled| + if again then 0 else 1
      invariant !again ==> !info.hadMessage && queue.messages == []
      invariant |outcomes| == polls && forall i | 0 <= i < |outcomes| - 1 :: outcomes[i]
      invariant if again then polls > 0 ==> outcomes[polls - 1] else polls > 0 && !outcomes[polls - 1]
      decreases again, if polls < |arrivals| then |arrivals| - polls else 0, |queue.messages|
    {
      ghost var pending := queue.messages;
      var messageProcessed, m := PollOnce(queue, ArrivalsBefore(arrivals, polls));
      PollMovesHead(handled, pending, old(queue.messages), arrivals, polls, m, queue.messages);
      handled := handled + m;
      polls, outcomes := polls + 1, outcomes + [messageProcessed];
      info.IncrementMessageCount(messageProcessed);
      again := ContinueProcessing(info.hadMessage);
    }
  }
}

/** Reading several input queues in turn (wield/adapters/polymorphic/MultipleInputQueueAdapter.hpp). */
module MultipleInputQueue {
  import opened Counting

  // ----- polls and pushes, as values -----

  /** The queues, and the one to poll next. */
  datatype Inputs<M> = Inputs(queues: seq<seq<M>>, which: nat)
  {
    predicate Valid() {
      which < |queues| || (|queues| == 0 && which == 0)
    }
  }

  function UpdateNextQueue(n: nat, which: nat): nat
  {
    if which + 1 >= n then 0 else which + 1
  }

  function Poll<M>(inputs: Inputs<M>): (inputs': Inputs<M>)
    requires inputs.Valid() && |inputs.queues| > 0
    ensures inputs'.Valid() && |inputs'.queues| == |inputs.queues|
  {
    var i, q := inputs.which, inputs.queues[inputs.which];
    Inputs(if q == [] then inputs.queues else inputs.queues[i := q[1..]], UpdateNextQueue(|inputs.queues|, i))
  }

  function Polls<M>(inputs: Inputs<M>, count: nat): (inputs': Inputs<M>)
    requires inputs.Valid() && (count > 0 ==> |inputs.queues| > 0)
    ensures inputs'.Valid() && |inputs'.queues| == |inputs.queues|
  {
    if count == 0 then inputs else Poll(Polls(inputs, count - 1))
  }

  /** The queue polled `k` polls from now. */
  function Ahead(n: nat, which: nat, k: nat): nat
    requires which < n && k <= n
  {
    if which + k < n then which + k else which + k - n
  }

  function Lengths<M>(queues: seq<seq<M>>): (lengths: seq<nat>)
    ensures |lengths| == |queues| && forall i | 0 <= i < |queues| :: lengths[i] == |queues[i]|
  {
    seq(|queues|, i requires 0 <= i < |queues| => |queues[i]|)
  }

  function TotalSize<M>(queues: seq<seq<M>>): nat
  {
    Sum(Lengths(queues))
  }

  lemma TotalAfterUpdate<M>(queues: seq<seq<M>>, i: nat, q: seq<M>)
    requires i < |queues|
    ensures TotalSize(queues[i := q]) + |queues[i]| == TotalSize(queues) + |q|
  {
    assert Lengths(queues[i := q]) == Lengths(queues)[i := |q|];
    SumUpdate(Lengths(queues), i, |q|);
  }

  /** One by one: each queue adds its length. */
  lemma TotalOneMore<M>(queues: seq<seq<M>>, q: seq<M>)
    ensures TotalSize<M>([]) == 0 && TotalSize(queues + [q]) == TotalSize(queues) + |q|
  {
    assert Lengths(queues + [q])[..|queues|] == Lengths(queues);
    assert Lengths<M>([]) == [];
  }

  lemma {:induction false} TotalIsZero<M>(queues: seq<seq<M>>)
    ensures TotalSize(queues) == 0 <==> !SomeMessage(queues)
  {
    if queues == [] {
      TotalOneMore<M>([], []);
    } else {
      var front, last := queues[..|queues| - 1], queues[|queues| - 1];
      assert queues == front + [last];
      TotalIsZero(front);
      TotalOneMore(front, last);
      if i :| 0 <= i < |front| && front[i] != [] {
        assert queues[i] != [];
      }
    }
  }

  class MultipleInputQueueAdapter<M> {
    var queues: seq<seq<M>>
    var which: nat
    var numberOfQueues: nat

    ghost predicate Valid()
      reads this
    {
      numberOfQueues == |queues| && Value().Valid()
    }

    ghost function Value(): Inputs<M>
      reads this
    {
      Inputs(queues, which)
    }

    constructor ()
      ensures Valid() && Value() == Inputs([], 0)
    {
      queues, which, numberOfQueues := [], 0, 0;
    }

    method AddQueue()
      requires Valid()
      modifies this
      ensures Valid() && Value() == Inputs(old(queues) + [[]], old(which))
    {
      queues := queues + [[]];
      numberOfQueues := numberOfQueues + 1;
    }

    /** A message dispatched to the stage of the `i`-th input queue. */
    method PushTo(i: nat, m: M)
      requires Valid() && i < |queues|
      modifies this
      ensures Valid() && Value() == Inputs(old(queues)[i := old(queues)[i] + [m]], old(which))
    {
      queues := queues[i := queues[i] + [m]];
    }

    method UnsafeSize() returns (total: nat)
      requires Valid()
      ensures total == TotalSize(queues)
      ensures total == 0 <==> !SomeMessage(queues)
    {
      TotalIsZero(queues);
      total := 0;
      for i := 0 to |queues|
        invariant total == TotalSize(queues[..i])
      {
        assert Lengths(queues[..i + 1])[..i] == Lengths(queues[..i]);
        total := total + |queues[i]|;
      }
      assert queues[..|queues|] == queues;
    }

    /** Undisturbed, a call succeeds exactly when some queue holds a message. */
    method TryPop() returns (hasMessage: bool, message: seq<M>, ghost polls: nat)
      requires Valid()
      modifies this
      ensures Valid() && polls <= |old(queues)| && Value() == Polls(old(Value()), polls)
      ensures hasMessage <==> SomeMessage(old(queues))
      ensures hasMessage ==> Served(old(Value()), Value(), polls, message)
      ensures !hasMessage ==> message == [] && polls == |old(queues)| && Value() == old(Value())
    {
      ghost var inputs := Value();
      hasMessage, message, polls := false, [], 0;
      var queuesPolled := 0;
      while !hasMessage && queuesPolled < numberOfQueues
        invariant Valid() && |queues| == |inputs.queues| && queuesPolled == polls <= |queues|
        invariant Value() == Polls(inputs, polls)
        invariant if hasMessage then
                    polls > 0 && EmptyFor(inputs, polls - 1) && message == Answer(inputs, polls - 1) != []
                  else EmptyFor(inputs, polls) && message == []
        decreases |inputs.queues| - polls
      {
        EmptyPolls(inputs, polls);
        hasMessage, message := PollOne();
        queuesPolled := queuesPolled + 1;
        polls := polls + 1;
      }
      if hasMessage {
        LastPollServes(inputs, polls);
      } else {
        EmptyPolls(inputs, polls);
        EmptyAllRound(inputs);
      }
    }

    /** Try the queue whose turn it is, and pass the turn on. */
    method PollOne() returns (hasMessage: bool, message: seq<M>)
      requires Valid() && |queues| > 0
      modifies this
      ensures Valid() && Value() == Poll(old(Value()))
      ensures message == Answer(old(Value()), 0) && hasMessage == (message != [])
    {
      hasMessage := queues[which] != [];
      message := [];
      if hasMessage {
        message := queues[which][..1];
        queues := queues[which := queues[which][1..]];
      }
      which := UpdateNextQueue(numberOfQueues, which);
    }
  }

  /** The next `k` queues in turn are empty. */
  predicate EmptyFor<M>(inputs: Inputs<M>, k: nat)
    requires inputs.Valid() && k <= |inputs.queues|
  {
    forall j | 0 <= j < k :: inputs.queues[Ahead(|inputs.queues|, inputs.which, j)] == []
  }

  /** The message, if any, at the head of the queue `k` polls ahead. */
  function Answer<M>(inputs: Inputs<M>, k: nat): seq<M>
    requires inputs.Valid() && k < |inputs.queues|
  {
    var q := inputs.queues[Ahead(|inputs.queues|, inputs.which, k)];
    if q == [] then [] else q[..1]
  }

  predicate SomeMessage<M>(queues: seq<seq<M>>)
  {
    exists i | 0 <= i < |queues| :: queues[i] != []
  }

  /** A successful call of `polls` polls: it took the head of the first non-empty queue in turn, made the total one
      smaller, and moved on past that queue. */
  ghost predicate Served<M>(before: Inputs<M>, after: Inputs<M>, polls: nat, message: seq<M>)
    requires before.Valid()
  {
    && 0 < polls <= |before.queues| && EmptyFor(before, polls - 1)
    && var i := Ahead(|before.queues|, before.which, polls - 1);
    && before.queues[i] != [] && message == before.queues[i][..1]
    && after.queues == before.queues[i := before.queues[i][1..]]
    && after.which == UpdateNextQueue(|before.queues|, i)
    && TotalSize(after.queues) + 1 == TotalSize(before.queues)
  }

  lemma LastPollServes<M>(inputs: Inputs<M>, polls: nat)
    requires inputs.Valid() && 0 < polls <= |inputs.queues| && EmptyFor(inputs, polls - 1)
    requires Answer(inputs, polls - 1) != []
    ensures Served(inputs, Polls(inputs, polls), polls, Answer(inputs, polls - 1))
    ensures SomeMessage(inputs.queues)
  {
    EmptyPolls(inputs, polls - 1);
    var i := Ahead(|inputs.queues|, inputs.which, polls - 1);
    TotalAfterUpdate(inputs.queues, i, inputs.queues[i][1..]);
  }

  /** Polls that find nothing only pass the turn on. */
  lemma {:induction false} EmptyPolls<M>(inputs: Inputs<M>, k: nat)
    requires inputs.Valid() && k <= |inputs.queues| && EmptyFor(inputs, k)
    ensures Polls(inputs, k)
         == if k == 0 then inputs else Inputs(inputs.queues, Ahead(|inputs.queues|, inputs.which, k))
  {
    if k > 0 {
      EmptyPolls(inputs, k - 1);
    }
  }

  lemma EmptyAllRound<M>(inputs: Inputs<M>)
    requires inputs.Valid() && EmptyFor(inputs, |inputs.queues|)
    ensures !SomeMessage(inputs.queues)
  {
    forall i | 0 <= i < |inputs.queues|
      ensures inputs.queues[i] == []
    {
      assert inputs.queues[Ahead(|inputs.queues|, inputs.which, Distance(|inputs.queues|, inputs.which, i))] == [];
    }
  }

  // ----- any interleaving of polls and pushes -----

  datatype Event<M> = PollNext | Push(i: nat, m: M)

  /** The queues with everything ever pushed to and delivered from each. */
  datatype State<M> = State(inputs: Inputs<M>, pushed: seq<seq<M>>, delivered: seq<seq<M>>)

  predicate Shaped<M>(st: State<M>)
  {
    && st.inputs.which < |st.inputs.queues|
    && |st.pushed| == |st.delivered| == |st.inputs.queues|
  }

  function Next<M>(st: State<M>, e: Event<M>): (st': State<M>)
    requires Shaped(st) && (e.Push? ==> e.i < |st.inputs.queues|)
    ensures Shaped(st') && |st'.inputs.queues| == |st.inputs.queues|
  {
    match e
    case PollNext =>
      var i, q := st.inputs.which, st.inputs.queues[st.inputs.which];
      State(Poll(st.inputs), st.pushed, if q == [] then st.delivered else st.delivered[i := st.delivered[i] + [q[0]]])
    case Push(i, m) =>
      var queues := st.inputs.queues;
      State(Inputs(queues[i := queues[i] + [m]], st.inputs.which), st.pushed[i := st.pushed[i] + [m]], st.delivered)
  }

  predicate EventsOk<M>(n: nat, es: seq<Event<M>>)
  {
    forall k | 0 <= k < |es| :: es[k].Push? ==> es[k].i < n
  }

  function Run<M>(st: State<M>, es: seq<Event<M>>): (st': State<M>)
    requires Shaped(st) && EventsOk(|st.inputs.queues|, es)
    ensures Shaped(st') && |st'.inputs.queues| == |st.inputs.queues|
    decreases |es|
  {
    if es == [] then st else
    EventsOkTail(|st.inputs.queues|, es);
    Run(Next(st, es[0]), es[1..])
  }

  lemma EventsOkTail<M>(n: nat, es: seq<Event<M>>)
    requires es != [] && EventsOk(n, es)
    ensures (es[0].Push? ==> es[0].i < n) && EventsOk(n, es[1..])
  {
    assert es[0].Push? ==> es[0].i < n;
  }

  function Start<M>(n: nat): (st: State<M>)
    requires n > 0
    ensures Shaped(st) && |st.inputs.queues| == n
  {
    State(Inputs(seq(n, _ => []), 0), seq(n, _ => []), seq(n, _ => []))
  }

  ghost predicate Fifo<M>(st: State<M>)
  {
    Shaped(st) && forall i | 0 <= i < |st.pushed| :: st.pushed[i] == st.delivered[i] + st.inputs.queues[i]
  }

  lemma NextKeepsFifo<M>(st: State<M>, e: Event<M>)
    requires Fifo(st) && (e.Push? ==> e.i < |st.inputs.queues|)
    ensures Fifo(Next(st, e))
  {
    var st' := Next(st, e);
    forall i | 0 <= i < |st'.pushed|
      ensures st'.pushed[i] == st'.delivered[i] + st'.inputs.queues[i]
    {
      assert st.pushed[i] == st.delivered[i] + st.inputs.queues[i];
    }
  }

  lemma {:induction false} RunKeepsFifo<M>(st: State<M>, es: seq<Event<M>>)
    requires Fifo(st) && EventsOk(|st.inputs.queues|, es)
    ensures Fifo(Run(st, es))
    decreases |es|
  {
    if es != [] {
      EventsOkTail(|st.inputs.queues|, es);
      NextKeepsFifo(st, es[0]);
      RunKeepsFifo(Next(st, es[0]), es[1..]);
    }
  }

  /** In every run the messages delivered from each queue are a prefix of those pushed to it. */
  lemma DeliveredIsPrefix<M>(n: nat, es: seq<Event<M>>, i: nat)
    requires n > 0 && EventsOk(n, es) && i < n
    ensures Run(Start(n), es).delivered[i] <= Run(Start(n), es).pushed[i]
  {
    RunKeepsFifo(Start(n), es);
  }

  /** The adapter itself, set up with `n` queues and driven through the events, makes the run. */
  method Drive<M>(n: nat, es: seq<Event<M>>) returns (adapter: MultipleInputQueueAdapter<M>, delivered: seq<seq<M>>)
    requires n > 0 && EventsOk(n, es)
    ensures fresh(adapter) && adapter.Valid()
    ensures adapter.Value() == Run(Start(n), es).inputs && delivered == Run(Start<M>(n), es).delivered
  {
    adapter := SetUp(n);
    delivered := seq(n, _ => []);
    ghost var st := Start<M>(n);
    assert es[0..] == es;
    for i := 0 to |es|
      invariant fresh(adapter) && adapter.Valid() && Shaped(st) && |st.inputs.queues| == n
      invariant adapter.Value() == st.inputs && delivered == st.delivered
      invariant EventsOk(n, es[i..]) && Run(st, es[i..]) == Run(Start(n), es)
    {
      assert es[i..][0] == es[i] && es[i..][1..] == es[i + 1..];
      EventsOkTail(n, es[i..]);
      st := Next(st, es[i]);
      match es[i] {
        case PollNext =>
          var which := adapter.which;
          ghost var q := adapter.queues[which];
          var hasMessage, message := adapter.PollOne();
          if hasMessage {
            assert message == q[..1] == [q[0]];
            delivered := delivered[which := delivered[which] + message];
          }
        case Push(q, m) => adapter.PushTo(q, m);
      }
    }
    assert es[|es|..] == [];
  }

  method SetUp<M>(n: nat) returns (adapter: MultipleInputQueueAdapter<M>)
    ensures fresh(adapter) && adapter.Valid() && adapter.Value() == Inputs(seq(n, _ => []), 0)
  {
    adapter := new MultipleInputQueueAdapter<M>();
    for i := 0 to n
      invariant fresh(adapter) && adapter.Valid() && adapter.Value() == Inputs(seq(i, _ => []), 0)
    {
      adapter.AddQueue();
    }
  }

  // ----- bounded waiting -----

  function CountPolls<M>(es: seq<Event<M>>): nat
  {
    if es == [] then 0 else CountPolls(es[1..]) + if es[0].PollNext? then 1 else 0
  }

  /** Polls that find a message; each of them ends a successful `try_pop`. */
  function Successes<M>(st: State<M>, es: seq<Event<M>>): (count: nat)
    requires Shaped(st) && EventsOk(|st.inputs.queues|, es)
    ensures count <= CountPolls(es)
    decreases |es|
  {
    if es == [] then 0 else
    EventsOkTail(|st.inputs.queues|, es);
    Successes(Next(st, es[0]), es[1..])
    + if es[0].PollNext? && st.inputs.queues[st.inputs.which] != [] then 1 else 0
  }

  function CountPushes<M>(es: seq<Event<M>>): nat
  {
    if es == [] then 0 else CountPushes(es[1..]) + if es[0].Push? then 1 else 0
  }

  lemma SizeAfter<M>(st: State<M>, e: Event<M>)
    requires Shaped(st) && (e.Push? ==> e.i < |st.inputs.queues|)
    ensures TotalSize(Next(st, e).inputs.queues)
            + (if e.PollNext? && st.inputs.queues[st.inputs.which] != [] then 1 else 0)
         == TotalSize(st.inputs.queues) + if e.Push? then 1 else 0
  {
    var queues, which := st.inputs.queues, st.inputs.which;
    match e
    case PollNext =>
      if queues[which] != [] {
        TotalAfterUpdate(queues, which, queues[which][1..]);
      }
    case Push(i, m) => TotalAfterUpdate(queues, i, queues[i] + [m]);
  }

  /** Over every run the total size is what it was, and a message more for each push and one less for each success. */
  lemma {:induction false} SizeIsPushesLessSuccesses<M>(st: State<M>, es: seq<Event<M>>)
    requires Shaped(st) && EventsOk(|st.inputs.queues|, es)
    ensures TotalSize(Run(st, es).inputs.queues) + Successes(st, es) == TotalSize(st.inputs.queues) + CountPushes(es)
    decreases |es|
  {
    if es != [] {
      EventsOkTail(|st.inputs.queues|, es);
      SizeAfter(st, es[0]);
      SizeIsPushesLessSuccesses(Next(st, es[0]), es[1..]);
    }
  }

  /** Every event is a poll or a push. */
  lemma {:induction false} PollsAndPushes<M>(es: seq<Event<M>>)
    ensures CountPolls(es) + CountPushes(es) == |es|
  {
    if es != [] {
      PollsAndPushes(es[1..]);
    }
  }

  /** Polls until queue `i` is polled. */
  function Distance(n: nat, which: nat, i: nat): (d: nat)
    requires which < n && i < n
    ensures d < n && Ahead(n, which, d) == i
  {
    if i >= which then i - which else i + n - which
  }

  /** Polls until the message with `p` messages ahead of it in queue `i` is delivered. */
  function Needed(n: nat, which: nat, i: nat, p: nat): nat
    requires which < n && i < n
  {
    if p == 0 then Distance(n, which, i) + 1 else Needed(n, which, i, p - 1) + n
  }

  lemma {:induction false} NeededStep(n: nat, which: nat, i: nat, p: nat)
    requires which < n && i < n
    ensures var next := UpdateNextQueue(n, which);
            if which != i then Needed(n, next, i, p) + 1 == Needed(n, which, i, p)
            else p > 0 ==> Needed(n, next, i, p - 1) + 1 == Needed(n, which, i, p)
  {
    if p > 0 {
      NeededStep(n, which, i, p - 1);
    }
  }

  lemma {:induction false} NeededBound(n: nat, which: nat, i: nat, p: nat)
    requires which < n && i < n
    ensures Needed(n, which, i, p) <= (p + 1) * n
  {
    if p > 0 {
      NeededBound(n, which, i, p - 1);
      assert (p + 1) * n == p * n + n;
    }
  }

  /** Whatever is pushed in between, the message with `p` messages ahead of it in queue `i` is delivered by exactly the
      `Needed`-th poll and no earlier. */
  lemma {:induction false} DeliveredByPolls<M>(st: State<M>, es: seq<Event<M>>, i: nat, p: nat)
    requires Shaped(st) && EventsOk(|st.inputs.queues|, es)
    requires i < |st.inputs.queues| && p < |st.inputs.queues[i]|
    ensures CountPolls(es) >= Needed(|st.inputs.queues|, st.inputs.which, i, p)
            <==> |Run(st, es).delivered[i]| > |st.delivered[i]| + p
    decreases |es|
  {
    var n, which := |st.inputs.queues|, st.inputs.which;
    NeededPositive(n, which, i, p);
    if es != [] {
      EventsOkTail(n, es);
      NeededStep(n, which, i, p);
      var st' := Next(st, es[0]);
      if es[0].PollNext? && which == i {
        if p > 0 {
          DeliveredByPolls(st', es[1..], i, p - 1);
        } else {
          DeliveredGrows(st', es[1..], i);
          assert Needed(n, which, i, 0) == 1;
        }
      } else {
        DeliveredByPolls(st', es[1..], i, p);
      }
    }
  }

  lemma NeededPositive(n: nat, which: nat, i: nat, p: nat)
    requires which < n && i < n
    ensures Needed(n, which, i, p) > 0
  {
  }

  lemma {:induction false} DeliveredGrows<M>(st: State<M>, es: seq<Event<M>>, i: nat)
    requires Shaped(st) && EventsOk(|st.inputs.queues|, es) && i < |st.delivered|
    ensures |Run(st, es).delivered[i]| >= |st.delivered[i]|
    decreases |es|
  {
    if es != [] {
      EventsOkTail(|st.inputs.queues|, es);
      DeliveredGrows(Next(st, es[0]), es[1..], i);
    }
  }

  /** Bounded waiting: within (p + 1) * n successful calls the message is delivered, and it is the message that was at
      position `p` of its queue. */
  lemma BoundedWaiting<M>(st: State<M>, es: seq<Event<M>>, i: nat, p: nat)
    requires Fifo(st) && EventsOk(|st.inputs.queues|, es)
    requires i < |st.inputs.queues| && p < |st.inputs.queues[i]|
    requires Successes(st, es) >= (p + 1) * |st.inputs.queues|
    ensures var delivered := Run(st, es).delivered[i];
            |delivered| > |st.delivered[i]| + p && delivered[|st.delivered[i]| + p] == st.inputs.queues[i][p]
  {
    NeededBound(|st.inputs.queues|, st.inputs.which, i, p);
    DeliveredByPolls(st, es, i, p);
    RunKeepsFifo(st, es);
    PushedGrows(st, es, i);
    var st' := Run(st, es);
    assert st'.delivered[i] <= st'.pushed[i];
    assert st.pushed[i][|st.delivered[i]| + p] == st.inputs.queues[i][p];
  }

  lemma {:induction false} PushedGrows<M>(st: State<M>, es: seq<Event<M>>, i: nat)
    requires Shaped(st) && EventsOk(|st.inputs.queues|, es) && i < |st.pushed|
    ensures st.pushed[i] <= Run(st, es).pushed[i]
    decreases |es|
  {
    if es != [] {
      EventsOkTail(|st.inputs.queues|, es);
      PushedGrows(Next(st, es[0]), es[1..], i);
    }
  }
}

/** Dispatch, fanout, stage processing and inline pushes as code that updates queues and counts in place. Each step is
    one of the transition system of RefCount.dfy, and each object remembers the run it has made. */
module Dispatching {
  import opened Counting
  import opened RefCount

  // ----- which queues a dispatch ends in -----

  /** `targets[s]`: for each functor of the inline stage `s`, the stages it dispatches its message to. Inline stages
      reach only inline stages of lower rank: around a circle of them a push would never return. */
  datatype Graph = Graph(kinds: seq<StageKind>, targets: seq<seq<seq<nat>>>, rank: seq<nat>)
  {
    predicate Valid() {
      && |targets| == |rank| == |kinds|
      && forall s | 0 <= s < |kinds| && kinds[s].Inline? ::
           |targets[s]| == kinds[s].functors && RunsInRange(targets[s]) && MaxRunLevel(targets[s]) <= rank[s]
    }

    predicate InRange(stages: seq<nat>) {
      forall k | 0 <= k < |stages| :: stages[k] < |kinds|
    }

    predicate RunsInRange(functors: seq<seq<nat>>) {
      forall j | 0 <= j < |functors| :: InRange(functors[j])
    }

    function Level(s: nat): nat
      requires |rank| == |kinds| && s < |kinds|
    {
      if kinds[s].Inline? then rank[s] + 1 else 0
    }

    function MaxLevel(stages: seq<nat>): (level: nat)
      requires |rank| == |kinds| && InRange(stages)
    {
      if stages == [] then 0 else
      var front, last := MaxLevel(stages[..|stages| - 1]), Level(stages[|stages| - 1]);
      if front <= last then last else front
    }

    function MaxRunLevel(functors: seq<seq<nat>>): (level: nat)
      requires |rank| == |kinds| && RunsInRange(functors)
    {
      if functors == [] then 0 else
      var front, last := MaxRunLevel(functors[..|functors| - 1]), MaxLevel(functors[|functors| - 1]);
      if front <= last then last else front
    }

    lemma {:induction false} LevelBelowMax(stages: seq<nat>, k: nat)
      requires |rank| == |kinds| && InRange(stages) && k < |stages|
      ensures Level(stages[k]) <= MaxLevel(stages)
    {
      if k + 1 != |stages| {
        LevelBelowMax(stages[..|stages| - 1], k);
      }
    }

    lemma {:induction false} RunBelowMax(functors: seq<seq<nat>>, j: nat)
      requires |rank| == |kinds| && RunsInRange(functors) && j < |functors|
      ensures MaxLevel(functors[j]) <= MaxRunLevel(functors)
    {
      if j + 1 != |functors| {
        RunBelowMax(functors[..|functors| - 1], j);
      }
    }

    /** The queued stages that a message dispatched to `s` is queued at, in order. */
    function Reach(s: nat): (reached: seq<nat>)
      requires Valid() && s < |kinds|
      ensures InRange(reached)
      decreases Level(s), 0, 0
    {
      match kinds[s]
      case Queued => [s]
      case Inline(_) => ReachRuns(targets[s])
    }

    function ReachAll(stages: seq<nat>): (reached: seq<nat>)
      requires Valid() && InRange(stages)
      ensures InRange(reached)
      decreases MaxLevel(stages), 1, |stages|
    {
      if stages == [] then [] else ReachAll(stages[..|stages| - 1]) + Reach(stages[|stages| - 1])
    }

    function ReachRuns(functors: seq<seq<nat>>): (reached: seq<nat>)
      requires Valid() && RunsInRange(functors)
      ensures InRange(reached)
      decreases MaxRunLevel(functors), 2, |functors|
    {
      if functors == [] then [] else
      ReachRuns(functors[..|functors| - 1]) + ReachAll(functors[|functors| - 1])
    }
  }

  // ----- in how many ways a queue is reached -----

  /** How often the functors list `t`, all together. */
  function Listings(functors: seq<seq<nat>>, t: nat): nat
  {
    Sum(ListingsEach(functors, t))
  }

  function ListingsEach(functors: seq<seq<nat>>, t: nat): (counts: seq<nat>)
    ensures |counts| == |functors| && forall j | 0 <= j < |functors| :: counts[j] == Count(functors[j], t)
  {
    seq(|functors|, j requires 0 <= j < |functors| => Count(functors[j], t))
  }

  lemma {:induction false} ListedSomewhere(functors: seq<seq<nat>>, t: nat) returns (j: nat)
    requires Listings(functors, t) > 0
    ensures j < |functors| && t in functors[j]
  {
    var n := |functors| - 1;
    if t in functors[n] {
      j := n;
    } else {
      assert ListingsEach(functors, t)[..n] == ListingsEach(functors[..n], t);
      j := ListedSomewhere(functors[..n], t);
    }
  }

  lemma ListedIsLower(g: Graph, s: nat, t: nat)
    requires g.Valid() && s < |g.kinds| && g.kinds[s].Inline? && Listings(g.targets[s], t) > 0
    ensures t < |g.kinds| && g.Level(t) < g.Level(s)
  {
    var j := ListedSomewhere(g.targets[s], t);
    var k :| 0 <= k < |g.targets[s][j]| && g.targets[s][j][k] == t;
    g.RunBelowMax(g.targets[s], j);
    g.LevelBelowMax(g.targets[s][j], k);
  }

  /** In how many ways a message dispatched to `s` comes to the queue of `q`: the number of paths that start at `s`, go
      on from an inline stage along any listing of any of its functors, and end at `q`. */
  function Ways(g: Graph, s: nat, q: nat): nat
    requires g.Valid() && s < |g.kinds|
    decreases g.Level(s)
  {
    if g.kinds[s].Queued? then if s == q then 1 else 0
    else
      Sum(seq(|g.kinds|, t requires 0 <= t < |g.kinds| =>
        if Listings(g.targets[s], t) == 0 then 0
        else ListedIsLower(g, s, t); Times(Listings(g.targets[s], t), Ways(g, t, q))))
  }

  /** For each stage, the ways from it, as often as `counts` says. */
  function WaysEach(g: Graph, counts: seq<nat>, q: nat): (ways: seq<nat>)
    requires g.Valid() && |counts| == |g.kinds|
    ensures |ways| == |counts| && forall t | 0 <= t < |counts| :: ways[t] == Times(counts[t], Ways(g, t, q))
  {
    seq(|counts|, t requires 0 <= t < |counts| => Times(counts[t], Ways(g, t, q)))
  }

  function AllListings(g: Graph, functors: seq<seq<nat>>): (counts: seq<nat>)
    ensures |counts| == |g.kinds| && forall t | 0 <= t < |g.kinds| :: counts[t] == Listings(functors, t)
  {
    seq(|g.kinds|, t requires 0 <= t < |g.kinds| => Listings(functors, t))
  }

  lemma WaysOfInline(g: Graph, s: nat, q: nat)
    requires g.Valid() && s < |g.kinds| && g.kinds[s].Inline?
    ensures Ways(g, s, q) == Sum(WaysEach(g, AllListings(g, g.targets[s]), q))
  {
    hide Times;
    var each := seq(|g.kinds|, t requires 0 <= t < |g.kinds| =>
      if Listings(g.targets[s], t) == 0 then 0 else Times(Listings(g.targets[s], t), Ways(g, t, q)));
    forall t | 0 <= t < |g.kinds|
      ensures each[t] == WaysEach(g, AllListings(g, g.targets[s]), q)[t]
    {
      OneMoreTime(0, Ways(g, t, q));
    }
    assert each == WaysEach(g, AllListings(g, g.targets[s]), q);
  }

  lemma WaysOfNothing(g: Graph, counts: seq<nat>, q: nat)
    requires g.Valid() && |counts| == |g.kinds| && forall t | 0 <= t < |counts| :: counts[t] == 0
    ensures Sum(WaysEach(g, counts, q)) == 0
  {
    hide Times, Ways;
    forall t | 0 <= t < |counts|
      ensures WaysEach(g, counts, q)[t] == 0
    {
      OneMoreTime(0, Ways(g, t, q));
    }
    assert WaysEach(g, counts, q) == seq(|counts|, _ => 0);
    SumZero(|counts|);
  }

  lemma WaysOfOneMore(g: Graph, counts: seq<nat>, s: nat, q: nat)
    requires g.Valid() && s < |counts| == |g.kinds|
    ensures Sum(WaysEach(g, counts[s := counts[s] + 1], q)) == Sum(WaysEach(g, counts, q)) + Ways(g, s, q)
  {
    hide Times, Ways;
    var ways := WaysEach(g, counts, q);
    OneMoreTime(counts[s], Ways(g, s, q));
    assert WaysEach(g, counts[s := counts[s] + 1], q) == ways[s := ways[s] + Ways(g, s, q)];
    SumUpdate(ways, s, ways[s] + Ways(g, s, q));
  }

  lemma WaysOfBoth(g: Graph, a: seq<nat>, b: seq<nat>, c: seq<nat>, q: nat)
    requires g.Valid() && |a| == |b| == |c| == |g.kinds| && forall t | 0 <= t < |c| :: c[t] == a[t] + b[t]
    ensures Sum(WaysEach(g, c, q)) == Sum(WaysEach(g, a, q)) + Sum(WaysEach(g, b, q))
  {
    hide Times, Ways;
    forall t | 0 <= t < |c|
      ensures WaysEach(g, c, q)[t] == WaysEach(g, a, q)[t] + WaysEach(g, b, q)[t]
    {
      TimesSum(a[t], b[t], Ways(g, t, q));
    }
    SumPointwise(WaysEach(g, a, q), WaysEach(g, b, q), WaysEach(g, c, q));
  }

  /** A dispatch to `s` comes to the queue of `q` once for each way. */
  lemma {:induction false} ReachedInAllWays(g: Graph, s: nat, q: nat)
    requires g.Valid() && s < |g.kinds|
    ensures Count(g.Reach(s), q) == Ways(g, s, q)
    decreases g.Level(s), 0, 0
  {
    if g.kinds[s].Inline? {
      RunsReachInAllWays(g, g.targets[s], q);
      WaysOfInline(g, s, q);
    }
  }

  /** And so does a list of dispatches: for every stage, as often as it is listed, in each way from it. */
  lemma {:induction false} AllReachedInAllWays(g: Graph, stages: seq<nat>, q: nat)
    requires g.Valid() && g.InRange(stages)
    ensures Count(g.ReachAll(stages), q) == Sum(WaysEach(g, Counts(stages, |g.kinds|), q))
    decreases g.MaxLevel(stages), 1, |stages|
  {
    hide Ways, WaysEach, Count;
    var n := |g.kinds|;
    if stages == [] {
      NoneCounted(stages, n);
      NoneCounted(g.ReachAll(stages), |g.kinds|);
      WaysOfNothing(g, Counts(stages, n), q);
      EmptyCount(q);
    } else {
      var front, last := stages[..|stages| - 1], stages[|stages| - 1];
      AllReachedInAllWays(g, front, q);
      ReachedInAllWays(g, last, q);
      CountAppend(g.ReachAll(front), g.Reach(last), q);
      CountsOneMore(front, last, n);
      assert stages == front + [last];
      WaysOfOneMore(g, Counts(front, n), last, q);
    }
  }

  lemma EmptyCount(q: nat)
    ensures Count([], q) == 0
  {
  }

  lemma NoneCounted(s: seq<nat>, n: nat)
    requires s == []
    ensures forall t | 0 <= t < n :: Counts(s, n)[t] == 0
  {
  }

  lemma {:induction false} RunsReachInAllWays(g: Graph, functors: seq<seq<nat>>, q: nat)
    requires g.Valid() && g.RunsInRange(functors)
    ensures Count(g.ReachRuns(functors), q) == Sum(WaysEach(g, AllListings(g, functors), q))
    decreases g.MaxRunLevel(functors), 2, |functors|
  {
    hide Ways, WaysEach, Count;
    var n := |g.kinds|;
    if functors == [] {
      WaysOfNothing(g, AllListings(g, functors), q);
      EmptyCount(q);
    } else {
      var front, last := functors[..|functors| - 1], functors[|functors| - 1];
      RunsReachInAllWays(g, front, q);
      AllReachedInAllWays(g, last, q);
      CountAppend(g.ReachRuns(front), g.ReachAll(last), q);
      forall t | 0 <= t < n
        ensures AllListings(g, functors)[t] == AllListings(g, front)[t] + Counts(last, n)[t]
      {
        assert ListingsEach(functors, t)[..|front|] == ListingsEach(front, t);
      }
      WaysOfBoth(g, AllListings(g, front), Counts(last, n), AllListings(g, functors), q);
    }
  }

  lemma ReachOfLast(g: Graph, stages: seq<nat>, s: nat)
    requires g.Valid() && g.InRange(stages) && s < |g.kinds|
    ensures g.InRange(stages + [s]) && g.ReachAll(stages + [s]) == g.ReachAll(stages) + g.Reach(s)
    ensures g.ReachAll([]) == [] && g.InRange([s]) && g.ReachAll([s]) == g.Reach(s)
  {
    var one := [s];
    assert one[..|one| - 1] == [];
    assert g.ReachAll(one) == [] + g.Reach(s);
    assert (stages + [s])[..|stages + [s]| - 1] == stages;
  }

  /** The order in which queues are reached is that of the list, stage by stage. */
  lemma {:induction false} ReachedInOrder(g: Graph, xs: seq<nat>, ys: seq<nat>)
    requires g.Valid() && g.InRange(xs) && g.InRange(ys)
    ensures g.InRange(xs + ys) && g.ReachAll(xs + ys) == g.ReachAll(xs) + g.ReachAll(ys)
  {
    hide Graph.ReachAll, Graph.Reach, Graph.Valid;
    if ys == [] {
      assert xs + ys == xs;
      ReachOfNone(g);
    } else {
      var front, s := ys[..|ys| - 1], ys[|ys| - 1];
      ReachedInOrder(g, xs, front);
      ReachOfLast(g, xs + front, s);
      ReachOfLast(g, front, s);
      assert xs + ys == xs + front + [s] && ys == front + [s];
    }
  }

  lemma ReachOfNone(g: Graph)
    requires g.Valid()
    ensures g.ReachAll([]) == [] && g.ReachRuns([]) == []
  {
  }

  lemma ReachOfLastRun(g: Graph, functors: seq<seq<nat>>, f: seq<nat>)
    requires g.Valid() && g.RunsInRange(functors) && g.InRange(f)
    ensures g.RunsInRange(functors + [f]) && g.ReachRuns(functors + [f]) == g.ReachRuns(functors) + g.ReachAll(f)
    ensures g.RunsInRange([f]) && g.ReachRuns([f]) == g.ReachAll(f)
  {
    var one: seq<seq<nat>> := [f];
    assert one[..|one| - 1] == [];
    assert g.ReachRuns(one) == [] + g.ReachAll(f);
    assert (functors + [f])[..|functors + [f]| - 1] == functors;
  }

  /** At an inline stage it is the order of the functors. */
  lemma {:induction false} FunctorsInOrder(g: Graph, fs: seq<seq<nat>>, hs: seq<seq<nat>>)
    requires g.Valid() && g.RunsInRange(fs) && g.RunsInRange(hs)
    ensures g.RunsInRange(fs + hs) && g.ReachRuns(fs + hs) == g.ReachRuns(fs) + g.ReachRuns(hs)
  {
    hide Graph.ReachRuns, Graph.ReachAll, Graph.Valid, Graph.InRange;
    if hs == [] {
      assert fs + hs == fs;
      ReachOfNone(g);
    } else {
      var front, f := hs[..|hs| - 1], hs[|hs| - 1];
      FunctorsInOrder(g, fs, front);
      ReachOfLastRun(g, fs + front, f);
      ReachOfLastRun(g, front, f);
      assert fs + hs == fs + front + [f] && hs == front + [f];
    }
  }

  /** The functors of an inline stage, one by one. */
  lemma RunOfInline(g: Graph, s: nat, j: nat)
    requires g.Valid() && s < |g.kinds| && g.kinds[s].Inline? && j < g.kinds[s].functors
    ensures |g.targets[s]| == g.kinds[s].functors && g.RunsInRange(g.targets[s]) && g.InRange(g.targets[s][j])
    ensures g.MaxLevel(g.targets[s][j]) < g.Level(s)
    ensures var functors := g.targets[s];
            g.ReachRuns(functors[..j + 1]) == g.ReachRuns(functors[..j]) + g.ReachAll(functors[j])
  {
    g.RunBelowMax(g.targets[s], j);
    assert g.targets[s][..j + 1][..j] == g.targets[s][..j];
  }

  lemma RunsOfInline(g: Graph, s: nat)
    requires g.Valid() && s < |g.kinds| && g.kinds[s].Inline?
    ensures |g.targets| == |g.rank| == |g.kinds|
    ensures |g.targets[s]| == g.kinds[s].functors && g.RunsInRange(g.targets[s])
    ensures g.ReachRuns(g.targets[s][..0]) == []
    ensures g.ReachRuns(g.targets[s][..g.kinds[s].functors]) == g.Reach(s)
  {
    assert g.targets[s][..|g.targets[s]|] == g.targets[s];
  }

  /** The message at the end of each of these queues, as often as it is listed. */
  function Enqueue(queues: seq<seq<nat>>, m: nat, reached: seq<nat>): (queues': seq<seq<nat>>)
    requires forall k | 0 <= k < |reached| :: reached[k] < |queues|
    ensures |queues'| == |queues|
  {
    if reached == [] then queues else
    var s, front := reached[|reached| - 1], Enqueue(queues, m, reached[..|reached| - 1]);
    front[s := front[s] + [m]]
  }

  lemma EnqueueOne(queues: seq<seq<nat>>, m: nat, s: nat)
    requires s < |queues|
    ensures Enqueue(queues, m, [s]) == queues[s := queues[s] + [m]]
  {
    var one := [s];
    assert one[..|one| - 1] == [];
  }

  lemma {:induction false} EnqueueMore(queues: seq<seq<nat>>, m: nat, xs: seq<nat>, ys: seq<nat>)
    requires forall k | 0 <= k < |xs| :: xs[k] < |queues|
    requires forall k | 0 <= k < |ys| :: ys[k] < |queues|
    ensures forall k | 0 <= k < |xs + ys| :: (xs + ys)[k] < |queues|
    ensures Enqueue(Enqueue(queues, m, xs), m, ys) == Enqueue(queues, m, xs + ys)
  {
    if ys == [] {
      assert xs + ys == xs;
    } else {
      EnqueueMore(queues, m, xs, ys[..|ys| - 1]);
      assert (xs + ys)[..|xs + ys| - 1] == xs + ys[..|ys| - 1];
    }
  }

  lemma {:induction false} Enqueued(queues: seq<seq<nat>>, m: nat, reached: seq<nat>, s: nat)
    requires s < |queues| && forall k | 0 <= k < |reached| :: reached[k] < |queues|
    ensures Enqueue(queues, m, reached)[s] == queues[s] + seq(Count(reached, s), _ => m)
  {
    if reached != [] {
      var front, last := reached[..|reached| - 1], reached[|reached| - 1];
      Enqueued(queues, m, front, s);
      assert reached == front + [last];
      if last == s {
        assert seq(Count(reached, s), _ => m) == seq(Count(front, s), _ => m) + [m];
      }
    }
  }

  /** The net effect of dispatching `m` so that it reaches these queues. */
  function Delivered(st: State, m: nat, reached: seq<nat>): (st': State)
    requires m < |st.count| && forall k | 0 <= k < |reached| :: reached[k] < |st.queues|
    ensures |st'.count| == |st.count| && |st'.queues| == |st.queues| && st'.stacks == st.stacks
  {
    st.(count := st.count[m := st.count[m] + |reached|], queues := Enqueue(st.queues, m, reached))
  }

  /** The same as a relation. */
  predicate IsDelivered(now: State, st: State, m: nat, reached: seq<nat>)
  {
    m < |st.count| && (forall k | 0 <= k < |reached| :: reached[k] < |st.queues|) && now == Delivered(st, m, reached)
  }

  lemma IsDeliveredMore(st: State, m: nat, xs: seq<nat>, mid: State, ys: seq<nat>, now: State)
    requires IsDelivered(mid, st, m, xs) && IsDelivered(now, mid, m, ys)
    ensures IsDelivered(now, st, m, xs + ys)
  {
    DeliveredMore(st, m, xs, ys);
  }

  lemma DeliveredToNone(st: State, m: nat)
    requires m < |st.count|
    ensures Delivered(st, m, []) == st && IsDelivered(st, st, m, [])
  {
    assert st.count[m := st.count[m]] == st.count;
  }

  lemma DeliveredToOne(st: State, m: nat, s: nat)
    requires m < |st.count| && s < |st.queues|
    ensures Delivered(st, m, [s])
         == st.(count := st.count[m := st.count[m] + 1], queues := st.queues[s := st.queues[s] + [m]])
  {
    EnqueueOne(st.queues, m, s);
  }

  lemma DeliveredMore(st: State, m: nat, xs: seq<nat>, ys: seq<nat>)
    requires m < |st.count|
    requires forall k | 0 <= k < |xs| :: xs[k] < |st.queues|
    requires forall k | 0 <= k < |ys| :: ys[k] < |st.queues|
    ensures forall k | 0 <= k < |xs + ys| :: (xs + ys)[k] < |st.queues|
    ensures Delivered(Delivered(st, m, xs), m, ys) == Delivered(st, m, xs + ys)
  {
    EnqueueMore(st.queues, m, xs, ys);
  }

  /** The net effect of dispatching a copy: a new message, referenced by the queues it reaches, or freed again by the
      end of an inline push that reaches none. */
  function DeliveredCopy(st: State, reached: seq<nat>): (st': State)
    requires forall k | 0 <= k < |reached| :: reached[k] < |st.queues|
    ensures |st'.count| == |st.count| + 1 && |st'.queues| == |st.queues|
  {
    State(st.count + [|reached|], st.freed + [reached == []], Enqueue(st.queues, |st.count|, reached), st.stacks)
  }

  lemma DeliveredCopyToOne(st: State, s: nat)
    requires s < |st.queues|
    ensures DeliveredCopy(st, [s])
         == State(st.count + [1], st.freed + [false], st.queues[s := st.queues[s] + [|st.count|]], st.stacks)
  {
    EnqueueOne(st.queues, |st.count|, s);
  }

  function DeliveredCopies(g: Graph, st: State, stages: seq<nat>): (st': State)
    requires g.Valid() && g.InRange(stages) && |st.queues| == |g.kinds|
    ensures |st'.queues| == |st.queues| && |st'.count| == |st.count| + |stages|
  {
    if stages == [] then st else
    DeliveredCopy(DeliveredCopies(g, st, stages[..|stages| - 1]), g.Reach(stages[|stages| - 1]))
  }

  // ----- what fan-out comes to -----

  /** Dispatching to a list of stages puts the message at the end of the queue of `s` once for every way the list
      reaches `s`, raises its count by the number of queues reached, and changes nothing else. */
  lemma FanoutReaches(g: Graph, st: State, m: nat, stages: seq<nat>, s: nat)
    requires g.Valid() && g.InRange(stages) && |st.queues| == |g.kinds| && m < |st.count| && s < |g.kinds|
    ensures var st', reached := Delivered(st, m, g.ReachAll(stages)), g.ReachAll(stages);
            && st'.queues[s] == st.queues[s] + seq(Count(reached, s), _ => m)
            && st'.count == st.count[m := st.count[m] + |reached|]
            && st'.freed == st.freed && st'.stacks == st.stacks
  {
    hide Enqueue, Graph.ReachAll, Graph.Valid, Graph.InRange;
    var reached := g.ReachAll(stages);
    assert g.InRange(reached);
    ReachedInRange(g, reached);
    Enqueued(st.queues, m, reached, s);
  }

  lemma ReachedInRange(g: Graph, reached: seq<nat>)
    requires g.InRange(reached)
    ensures forall k | 0 <= k < |reached| :: reached[k] < |g.kinds|
  {
  }

  /** Where no listed stage is inline, that is once for every time it is listed. */
  lemma {:induction false} ReachOfQueued(g: Graph, stages: seq<nat>)
    requires g.Valid() && g.InRange(stages) && forall k | 0 <= k < |stages| :: g.kinds[stages[k]].Queued?
    ensures g.ReachAll(stages) == stages
  {
    if stages != [] {
      ReachOfQueued(g, stages[..|stages| - 1]);
    }
  }

  lemma {:induction false} ReachesOnlyQueued(g: Graph, s: nat, k: nat)
    requires g.Valid() && s < |g.kinds| && k < |g.Reach(s)|
    ensures g.kinds[g.Reach(s)[k]].Queued?
    decreases g.Level(s), 0, 0
  {
    if g.kinds[s].Inline? {
      RunsReachOnlyQueued(g, g.targets[s], k);
    }
  }

  lemma {:induction false} AllReachOnlyQueued(g: Graph, stages: seq<nat>, k: nat)
    requires g.Valid() && g.InRange(stages) && k < |g.ReachAll(stages)|
    ensures g.kinds[g.ReachAll(stages)[k]].Queued?
    decreases g.MaxLevel(stages), 1, |stages|
  {
    var n := |stages| - 1;
    var front := |g.ReachAll(stages[..n])|;
    if k < front {
      AllReachOnlyQueued(g, stages[..n], k);
    } else {
      ReachesOnlyQueued(g, stages[n], k - front);
    }
  }

  lemma {:induction false} RunsReachOnlyQueued(g: Graph, functors: seq<seq<nat>>, k: nat)
    requires g.Valid() && g.RunsInRange(functors) && k < |g.ReachRuns(functors)|
    ensures g.kinds[g.ReachRuns(functors)[k]].Queued?
    decreases g.MaxRunLevel(functors), 2, |functors|
  {
    var n := |functors| - 1;
    var front := |g.ReachRuns(functors[..n])|;
    if k < front {
      RunsReachOnlyQueued(g, functors[..n], k);
    } else {
      AllReachOnlyQueued(g, functors[n], k - front);
    }
  }

  /** The queues each listed stage reaches, counted. */
  function ReachCounts(g: Graph, stages: seq<nat>): (counts: seq<nat>)
    requires g.Valid() && g.InRange(stages)
    ensures |counts| == |stages| && forall k | 0 <= k < |stages| :: counts[k] == |g.Reach(stages[k])|
  {
    seq(|stages|, k requires 0 <= k < |stages| => |g.Reach(stages[k])|)
  }

  function AreZero(counts: seq<nat>): (zero: seq<bool>)
    ensures |zero| == |counts| && forall k | 0 <= k < |counts| :: zero[k] == (counts[k] == 0)
  {
    seq(|counts|, k requires 0 <= k < |counts| => counts[k] == 0)
  }

  lemma OneMoreCopy(count: seq<nat>, freed: seq<bool>, counts: seq<nat>, last: nat)
    ensures (count + counts) + [last] == count + (counts + [last])
    ensures (freed + AreZero(counts)) + [last == 0] == freed + AreZero(counts + [last])
  {
  }

  /** Every message that was there is left alone. There is one new message for each listed stage, with one reference for
      each queue it reaches, and freed again if it reaches none. */
  lemma {:induction false} FanoutCopies(g: Graph, st: State, stages: seq<nat>)
    requires g.Valid() && g.InRange(stages) && |st.queues| == |g.kinds|
    ensures var st', counts := DeliveredCopies(g, st, stages), ReachCounts(g, stages);
            st'.count == st.count + counts && st'.freed == st.freed + AreZero(counts) && st'.stacks == st.stacks
  {
    if stages != [] {
      var front, last := stages[..|stages| - 1], stages[|stages| - 1];
      FanoutCopies(g, st, front);
      OneMoreCopy(st.count, st.freed, ReachCounts(g, front), |g.Reach(last)|);
      assert ReachCounts(g, stages) == ReachCounts(g, front) + [|g.Reach(last)|];
    }
  }

  /** The copies for the queue of `s`, if the copies are numbered from `first` on. */
  function CopiesFor(g: Graph, stages: seq<nat>, s: nat, first: nat): (copies: seq<nat>)
    requires g.Valid() && g.InRange(stages)
  {
    if stages == [] then [] else
    var n := |stages| - 1;
    CopiesFor(g, stages[..n], s, first) + seq(Count(g.Reach(stages[n]), s), _ => first + n)
  }

  /** And the copies are in the queues they reach, in the order of the list. */
  lemma {:induction false} CopiesReach(g: Graph, st: State, stages: seq<nat>, s: nat)
    requires g.Valid() && g.InRange(stages) && |st.queues| == |g.kinds| && s < |g.kinds|
    ensures DeliveredCopies(g, st, stages).queues[s] == st.queues[s] + CopiesFor(g, stages, s, |st.count|)
  {
    if stages != [] {
      hide Enqueue;
      var front, last := stages[..|stages| - 1], stages[|stages| - 1];
      CopiesReach(g, st, front, s);
      var before := DeliveredCopies(g, st, front);
      Enqueued(before.queues, |before.count|, g.Reach(last), s);
    }
  }

  // ----- frames -----

  /** The state with `left` functors to go in the agent's innermost frame. */
  ghost function WithLeft(st: State, a: nat, left: nat): (st': State)
    requires a < |st.stacks| && st.stacks[a] != []
    ensures |st'.stacks| == |st.stacks| && |st'.stacks[a]| == |st.stacks[a]|
    ensures var n := |st.stacks[a]| - 1; st'.stacks[a][n] == InlinePush(st.stacks[a][n].m, left)
    ensures WithoutTop(st', a) == WithoutTop(st, a)
    ensures st.stacks[a][|st.stacks[a]| - 1] == st'.stacks[a][|st.stacks[a]| - 1] ==> st' == st
  {
    var n := |st.stacks[a]| - 1;
    var stack := st.stacks[a][n := InlinePush(st.stacks[a][n].m, left)];
    assert stack[..n] == st.stacks[a][..n];
    assert st.stacks[a := stack][a := stack[..n]] == st.stacks[a := stack[..n]];
    assert stack[n] == st.stacks[a][n] ==> stack == st.stacks[a] && st.stacks[a := stack] == st.stacks;
    st.(stacks := st.stacks[a := stack])
  }

  lemma OneFewer(kinds: seq<StageKind>, st: State, a: nat, left: nat)
    requires a < |st.stacks| && st.stacks[a] != [] && left > 0
    requires Enabled(CountFirst, kinds, WithLeft(st, a, left), RunFunctor(a))
    ensures Next(CountFirst, kinds, WithLeft(st, a, left), RunFunctor(a)) == WithLeft(st, a, left - 1)
  {
    var n := |st.stacks[a]| - 1;
    var m := st.stacks[a][n].m;
    assert st.stacks[a][n := InlinePush(m, left)][n := InlinePush(m, left - 1)]
        == st.stacks[a][n := InlinePush(m, left - 1)];
  }

  lemma FramePopped(st: State, a: nat, f: Frame)
    requires a < |st.stacks|
    ensures WithoutTop(WithFrame(st, a, f), a) == st
  {
    assert (st.stacks[a] + [f])[..|st.stacks[a]|] == st.stacks[a];
  }

  /** A counted reference that an inline push releases at its end makes no difference. */
  lemma DeliveredInline(st: State, a: nat, m: nat, k: nat, reached: seq<nat>)
    requires a < |st.stacks| && m < |st.count| == |st.freed| && st.count[m] > 0 && !st.freed[m]
    requires forall k | 0 <= k < |reached| :: reached[k] < |st.queues|
    ensures var pushed := WithFrame(st.(count := st.count[m := st.count[m] + 1]), a, InlinePush(m, k));
            Release(Delivered(pushed, m, reached), a) == Delivered(st, m, reached)
  {
    FramePopped(st, a, InlinePush(m, k));
  }

  lemma DeliveredInlineCopy(st: State, a: nat, k: nat, reached: seq<nat>)
    requires a < |st.stacks| && |st.count| == |st.freed|
    requires forall k | 0 <= k < |reached| :: reached[k] < |st.queues|
    ensures var m := |st.count|;
            var pushed := WithFrame(st.(count := st.count + [1], freed := st.freed + [false]), a, InlinePush(m, k));
            Release(Delivered(pushed, m, reached), a) == DeliveredCopy(st, reached)
  {
    var m := |st.count|;
    FramePopped(st, a, InlinePush(m, k));
    assert (st.count + [1])[m := |reached| + 1][m := |reached|] == st.count + [|reached|];
    assert (st.freed + [false])[m := |reached| == 0] == st.freed + [reached == []];
  }

  /** In the middle of an inline push: `left` functors to go, and these queues reached. */
  ghost predicate Midway(now: State, st: State, a: nat, m: nat, left: nat, reached: seq<nat>)
  {
    && a < |st.stacks| && st.stacks[a] != [] && st.stacks[a][|st.stacks[a]| - 1].m == m
    && IsDelivered(now, WithLeft(st, a, left), m, reached)
  }

  lemma MidwayStart(st: State, a: nat, m: nat, left: nat)
    requires a < |st.stacks| && st.stacks[a] != [] && m < |st.count|
    requires st.stacks[a][|st.stacks[a]| - 1] == InlinePush(m, left)
    ensures Midway(st, st, a, m, left, [])
  {
    DeliveredToNone(st, m);
  }

  lemma MidwayEnd(now: State, st: State, a: nat, m: nat, reached: seq<nat>)
    requires Midway(now, st, a, m, 0, reached) && |st.count| == |st.freed|
    ensures now.stacks[a] != [] && now.stacks[a][|now.stacks[a]| - 1] == InlinePush(m, 0)
    ensures m < |st.count| == |now.count| == |now.freed| && IsDelivered(Delivered(st, m, reached), st, m, reached)
    ensures Release(now, a) == Release(Delivered(st, m, reached), a)
  {
    assert WithoutTop(WithLeft(st, a, 0), a) == WithoutTop(st, a);
  }

  lemma MidwayMore(kinds: seq<StageKind>, before: State, st: State, a: nat, m: nat, left: nat, xs: seq<nat>,
                   ys: seq<nat>, now: State)
    requires Midway(before, st, a, m, left, xs) && left > 0 && Enabled(CountFirst, kinds, before, RunFunctor(a))
    requires IsDelivered(now, Next(CountFirst, kinds, before, RunFunctor(a)), m, ys)
    ensures Midway(now, st, a, m, left - 1, xs + ys)
  {
    OneFewer(kinds, Delivered(st, m, xs), a, left);
    IsDeliveredMore(WithLeft(st, a, left - 1), m, xs, Next(CountFirst, kinds, before, RunFunctor(a)), ys, now);
  }

  // ----- the code -----

  /** A run so far and where it has come to. */
  ghost predicate Ran(kinds: seq<StageKind>, agents: nat, trace: seq<Event>, st: State)
  {
    Inv(kinds, st) && |st.freed| == |st.count| && Exec(CountFirst, kinds, agents, trace) == Some(st)
  }

  lemma RanNothing(kinds: seq<StageKind>, agents: nat)
    ensures Ran(kinds, agents, [], Init(kinds, agents))
  {
    CountsAreOccurrences(kinds, agents, []);
  }

  lemma RanOneMore(kinds: seq<StageKind>, agents: nat, trace: seq<Event>, st: State, e: Event)
    requires Ran(kinds, agents, trace, st) && Enabled(CountFirst, kinds, st, e)
    ensures Ran(kinds, agents, trace + [e], Next(CountFirst, kinds, st, e))
  {
    NextKeepsInv(kinds, st, e);
    ExecOneMore(CountFirst, kinds, agents, trace, e);
  }

  lemma RanFrame(kinds: seq<StageKind>, agents: nat, trace: seq<Event>, st: State, a: nat, i: nat)
    requires Ran(kinds, agents, trace, st) && a < |st.stacks| && i < |st.stacks[a]|
    ensures st.stacks[a][i].m < |st.count|
  {
    FrameIsLive(kinds, st, a, i);
  }

  lemma RanRaise(kinds: seq<StageKind>, agents: nat, trace: seq<Event>, st: State, a: nat, i: nat, s: nat)
    requires Ran(kinds, agents, trace, st) && a < |st.stacks| && MayDispatch(st.stacks[a], i) && s < |kinds|
    ensures var m := st.stacks[a][i].m;
            && m < |st.count| && st.count[m] > 0 && !st.freed[m]
            && Ran(kinds, agents, trace + [Raise(a, i, s)],
                   WithFrame(st.(count := st.count[m := st.count[m] + 1]), a, Raised(m, s)))
  {
    hide Exec, Conserved;
    FrameIsLive(kinds, st, a, i);
    RanOneMore(kinds, agents, trace, st, Raise(a, i, s));
  }

  lemma RanRelease(kinds: seq<StageKind>, agents: nat, trace: seq<Event>, st: State, a: nat, e: Event)
    requires Ran(kinds, agents, trace, st) && a < |st.stacks| && st.stacks[a] != []
    requires var f := st.stacks[a][|st.stacks[a]| - 1];
             if f.Handle? then e == DropHandle(a) else f.InlinePush? && f.left == 0 && e == EndPush(a)
    ensures var m := st.stacks[a][|st.stacks[a]| - 1].m;
            && m < |st.count| == |st.freed| && st.count[m] > 0 && !st.freed[m]
            && Ran(kinds, agents, trace + [e], Release(st, a))
  {
    hide Exec, Conserved;
    FrameIsLive(kinds, st, a, |st.stacks[a]| - 1);
    RanOneMore(kinds, agents, trace, st, e);
  }

  /** The messages, the stages' queues, and what each agent is in the middle of. */
  class Application {
    const graph: Graph
    ghost const agents: nat
    var count: seq<nat>
    var freed: seq<bool>
    var queues: seq<seq<nat>>
    var stacks: seq<seq<Frame>>
    ghost var trace: seq<Event>

    ghost function Value(): State
      reads this
    {
      State(count, freed, queues, stacks)
    }

    ghost predicate Valid()
      reads this
    {
      && graph.Valid() && |freed| == |count| && |queues| == |graph.kinds|
      && Ran(graph.kinds, agents, trace, Value())
    }

    constructor (graph: Graph, agents: nat)
      requires graph.Valid()
      ensures Valid() && this.graph == graph && this.agents == agents && trace == []
    {
      this.graph, this.agents := graph, agents;
      count, freed := [], [];
      queues, stacks := seq(|graph.kinds|, _ => []), seq(agents, _ => []);
      trace := [];
      new;
      RanNothing(graph.kinds, agents);
    }

    /** `new` and the smart pointer around it. */
    method NewMessage(a: nat) returns (m: nat)
      requires Valid() && a < |stacks| && Free(stacks[a])
      modifies this
      ensures Valid() && trace == old(trace) + [RefCount.NewMessage(a)]
      ensures m == |old(count)| && |count| == m + 1
      ensures var st := old(Value());
              Value() == WithFrame(st.(count := st.count + [1], freed := st.freed + [false]), a, Handle(m))
    {
      hide Ran, Graph.Valid;
      RanOneMore(graph.kinds, agents, trace, Value(), RefCount.NewMessage(a));
      m := |count|;
      count, freed := count + [1], freed + [false];
      stacks := stacks[a := stacks[a] + [Handle(m)]];
      trace := trace + [RefCount.NewMessage(a)];
    }

    method Raise(a: nat, i: nat, s: nat)
      requires Valid() && a < |stacks| && MayDispatch(stacks[a], i) && s < |graph.kinds|
      modifies this
      ensures Valid() && trace == old(trace) + [RefCount.Raise(a, i, s)]
      ensures var st, m := old(Value()), old(stacks)[a][i].m;
              && m < |st.count| && st.count[m] > 0 && !st.freed[m]
              && Value() == WithFrame(st.(count := st.count[m := st.count[m] + 1]), a, Raised(m, s))
    {
      hide Ran, Graph.Valid;
      RanRaise(graph.kinds, agents, trace, Value(), a, i, s);
      var m := stacks[a][i].m;
      count := count[m := count[m] + 1];
      stacks := stacks[a := stacks[a] + [Raised(m, s)]];
      trace := trace + [RefCount.Raise(a, i, s)];
    }

    /** `new` on a copy, and its count raised. */
    method RaiseClone(a: nat, i: nat, s: nat)
      requires Valid() && a < |stacks| && MayDispatch(stacks[a], i) && s < |graph.kinds|
      modifies this
      ensures Valid() && trace == old(trace) + [RefCount.RaiseClone(a, i, s)]
      ensures var st := old(Value());
              Value() == WithFrame(st.(count := st.count + [1], freed := st.freed + [false]), a, Raised(|st.count|, s))
    {
      hide Ran, Graph.Valid;
      RanOneMore(graph.kinds, agents, trace, Value(), RefCount.RaiseClone(a, i, s));
      stacks := stacks[a := stacks[a] + [Raised(|count|, s)]];
      count, freed := count + [1], freed + [false];
      trace := trace + [RefCount.RaiseClone(a, i, s)];
    }

    /** `StageBase::push`, on a queue or inline. */
    method PushRaised(a: nat)
      requires Valid() && a < |stacks| && stacks[a] != []
      requires var f := stacks[a][|stacks[a]| - 1]; f.Raised? && f.s < |graph.kinds|
      modifies this
      ensures Valid() && trace == old(trace) + [RefCount.PushRaised(a)]
      ensures var f := old(stacks)[a][|old(stacks)[a]| - 1];
              Value() == Push(graph.kinds, WithoutTop(old(Value()), a), a, f.s, f.m)
    {
      hide Ran, Graph.Valid;
      RanOneMore(graph.kinds, agents, trace, Value(), RefCount.PushRaised(a));
      var f := stacks[a][|stacks[a]| - 1];
      stacks := stacks[a := stacks[a][..|stacks[a]| - 1]];
      match graph.kinds[f.s] {
        case Queued => queues := queues[f.s := queues[f.s] + [f.m]];
        case Inline(k) => stacks := stacks[a := stacks[a] + [InlinePush(f.m, k)]];
      }
      trace := trace + [RefCount.PushRaised(a)];
    }

    /** `DispatcherBase::dispatch` up to where an inline push starts to run: the count goes up, then the push. */
    method Dispatch(a: nat, i: nat, s: nat)
      requires Valid() && a < |stacks| && MayDispatch(stacks[a], i) && s < |graph.kinds|
      modifies this
      ensures Valid() && trace == old(trace) + [RefCount.Raise(a, i, s), RefCount.PushRaised(a)]
      ensures var st, m := old(Value()), old(stacks)[a][i].m;
              && m < |st.count| && st.count[m] > 0 && !st.freed[m]
              && Value() == Push(graph.kinds, st.(count := st.count[m := st.count[m] + 1]), a, s, m)
    {
      hide Ran, Graph.Valid;
      var m := stacks[a][i].m;
      ghost var st := Value();
      Raise(a, i, s);
      FramePopped(st.(count := st.count[m := st.count[m] + 1]), a, Raised(m, s));
      PushRaised(a);
    }

    /** The clone-tagged overload: a copy of the message with a count of its own. */
    method DispatchClone(a: nat, i: nat, s: nat)
      requires Valid() && a < |stacks| && MayDispatch(stacks[a], i) && s < |graph.kinds|
      modifies this
      ensures Valid() && trace == old(trace) + [RefCount.RaiseClone(a, i, s), RefCount.PushRaised(a)]
      ensures var st := old(Value());
              Value() == Push(graph.kinds, st.(count := st.count + [1], freed := st.freed + [false]), a, s, |st.count|)
    {
      hide Ran, Graph.Valid;
      ghost var st := Value();
      RaiseClone(a, i, s);
      FramePopped(st.(count := st.count + [1], freed := st.freed + [false]), a, Raised(|st.count|, s));
      PushRaised(a);
    }

    /** `StageBase::process` up to the functor: the popped reference becomes the worker's handle, uncounted. An inline
        stage has nothing to pop. */
    method Process(a: nat, s: nat) returns (processed: bool)
      requires Valid() && a < |stacks| && stacks[a] == [] && s < |graph.kinds|
      modifies this
      ensures Valid() && processed == (graph.kinds[s].Queued? && old(queues)[s] != [])
      ensures Value() == if processed then
                WithFrame(old(Value()).(queues := old(queues)[s := old(queues)[s][1..]]), a, Handle(old(queues)[s][0]))
              else
                old(Value())
      ensures trace == if processed then old(trace) + [RefCount.Process(a, s)] else old(trace)
    {
      hide Ran, Graph.Valid;
      processed := graph.kinds[s].Queued? && queues[s] != [];
      if processed {
        RanOneMore(graph.kinds, agents, trace, Value(), RefCount.Process(a, s));
        var m := queues[s][0];
        queues := queues[s := queues[s][1..]];
        stacks := stacks[a := stacks[a] + [Handle(m)]];
        trace := trace + [RefCount.Process(a, s)];
      }
    }

    /** The innermost frame gives up its reference; the last reference frees the message. */
    method ReleaseLast(a: nat)
      requires Valid() && a < |stacks| && stacks[a] != []
      requires var f := stacks[a][|stacks[a]| - 1]; f.Handle? || (f.InlinePush? && f.left == 0)
      modifies this
      ensures Valid() && |trace| == |old(trace)| + 1
      ensures old(stacks)[a][|old(stacks)[a]| - 1].m < |old(count)| == |old(freed)|
      ensures Value() == Release(old(Value()), a)
    {
      hide Ran, Graph.Valid;
      var n := |stacks[a]| - 1;
      ghost var e := if stacks[a][n].Handle? then DropHandle(a) else EndPush(a);
      RanRelease(graph.kinds, agents, trace, Value(), a, e);
      var m := stacks[a][n].m;
      count := count[m := count[m] - 1];
      if count[m] == 0 {
        freed := freed[m := true];
      }
      assert freed == old(freed)[m := count[m] == 0];
      stacks := stacks[a := stacks[a][..n]];
      trace := trace + [e];
    }

    /** One functor of an inline push starts. */
    method StartFunctor(a: nat)
      requires Valid() && a < |stacks| && stacks[a] != []
      requires stacks[a][|stacks[a]| - 1].InlinePush? && stacks[a][|stacks[a]| - 1].left > 0
      modifies this
      ensures Valid() && Enabled(CountFirst, graph.kinds, old(Value()), RunFunctor(a))
      ensures Value() == Next(CountFirst, graph.kinds, old(Value()), RunFunctor(a))
      ensures trace == old(trace) + [RunFunctor(a)]
    {
      hide Ran, Graph.Valid;
      RanOneMore(graph.kinds, agents, trace, Value(), RunFunctor(a));
      var n := |stacks[a]| - 1;
      stacks := stacks[a := stacks[a][n := InlinePush(stacks[a][n].m, stacks[a][n].left - 1)]];
      trace := trace + [RunFunctor(a)];
    }

    /** A dispatch together with the inline pushes it starts. */
    method DispatchWhole(a: nat, i: nat, s: nat)
      requires Valid() && a < |stacks| && MayDispatch(stacks[a], i) && s < |graph.kinds|
      modifies this
      ensures Valid() && stacks == old(stacks)
      ensures IsDelivered(Value(), old(Value()), stacks[a][i].m, graph.Reach(s))
      decreases graph.Level(s), 2
    {
      hide Ran, Graph.Valid;
      var m := stacks[a][i].m;
      Dispatch(a, i, s);
      if graph.kinds[s].Inline? {
        RunInline(a, s, m);
        DeliveredInline(old(Value()), a, m, graph.kinds[s].functors, graph.Reach(s));
      } else {
        DeliveredToOne(old(Value()), m, s);
      }
    }

    /** A clone dispatch together with the inline pushes it starts. */
    method DispatchCopyWhole(a: nat, i: nat, s: nat)
      requires Valid() && a < |stacks| && MayDispatch(stacks[a], i) && s < |graph.kinds|
      modifies this
      ensures Valid() && Value() == DeliveredCopy(old(Value()), graph.Reach(s))
    {
      hide Ran, Graph.Valid;
      DispatchClone(a, i, s);
      if graph.kinds[s].Inline? {
        RunInline(a, s, |old(count)|);
        DeliveredInlineCopy(old(Value()), a, graph.kinds[s].functors, graph.Reach(s));
      } else {
        DeliveredCopyToOne(old(Value()), s);
      }
    }

    /** The loop of a fan-out: dispatch the message of the agent's frame `i` to each of these stages. */
    method DispatchAll(a: nat, i: nat, stages: seq<nat>)
      requires Valid() && a < |stacks| && MayDispatch(stacks[a], i) && graph.InRange(stages)
      modifies this
      ensures Valid() && stacks == old(stacks)
      ensures IsDelivered(Value(), old(Value()), stacks[a][i].m, graph.ReachAll(stages))
      decreases graph.MaxLevel(stages), 3
    {
      hide Ran, IsDelivered;
      RanFrame(graph.kinds, agents, trace, Value(), a, i);
      ghost var st, m := Value(), stacks[a][i].m;
      DeliveredToNone(st, m);
      for k := 0 to |stages|
        invariant Valid() && stacks == old(stacks)
        invariant IsDelivered(Value(), st, m, graph.ReachAll(stages[..k]))
      {
        ghost var mid := Value();
        assert stages[..k + 1][..k] == stages[..k];
        graph.LevelBelowMax(stages, k);
        DispatchWhole(a, i, stages[k]);
        IsDeliveredMore(st, m, graph.ReachAll(stages[..k]), mid, graph.Reach(stages[k]), Value());
      }
      assert stages[..|stages|] == stages;
    }

    /** The inline `push` of PassThroughStageQueue and ProcessingFunctorChain: run each functor, then release once. */
    method RunInline(a: nat, s: nat, ghost m: nat)
      requires Valid() && a < |stacks| && stacks[a] != [] && s < |graph.kinds| && graph.kinds[s].Inline?
      requires stacks[a][|stacks[a]| - 1] == InlinePush(m, graph.kinds[s].functors)
      modifies this
      ensures Valid() && m < |old(count)| == |old(freed)|
      ensures Value() == Release(Delivered(old(Value()), m, graph.Reach(s)), a)
      decreases graph.Level(s), 1
    {
      hide Ran, Midway, Graph.Valid;
      RunFunctors(a, s, m);
      MidwayEnd(Value(), old(Value()), a, m, graph.Reach(s));
      ReleaseLast(a);
    }

    /** The loop over the functors. */
    method RunFunctors(a: nat, s: nat, ghost m: nat)
      requires Valid() && a < |stacks| && stacks[a] != [] && s < |graph.kinds| && graph.kinds[s].Inline?
      requires stacks[a][|stacks[a]| - 1] == InlinePush(m, graph.kinds[s].functors)
      modifies this
      ensures Valid() && |stacks| == |old(stacks)| && Midway(Value(), old(Value()), a, m, 0, graph.Reach(s))
      decreases graph.Level(s), 0
    {
      hide Ran, Midway, Graph.Valid, Graph.InRange, Graph.Level;
      hide Graph.Reach, Graph.ReachRuns, Graph.ReachAll, Graph.MaxLevel, Graph.MaxRunLevel;
      RanFrame(graph.kinds, agents, trace, Value(), a, |stacks[a]| - 1);
      RunsOfInline(graph, s);
      var functors := graph.targets[s];
      ghost var st := Value();
      MidwayStart(st, a, m, |functors|);
      for j := 0 to |functors|
        invariant Valid() && |stacks| == |st.stacks|
        invariant Midway(Value(), st, a, m, |functors| - j, graph.ReachRuns(functors[..j]))
      {
        RunOfInline(graph, s, j);
        RunOne(a, st, m, |functors| - j, functors[j], graph.ReachRuns(functors[..j]));
      }
    }

    /** One functor of an inline push, which dispatches the message to these stages. */
    method RunOne(a: nat, ghost st: State, ghost m: nat, ghost left: nat, stages: seq<nat>, ghost reached: seq<nat>)
      requires Valid() && graph.InRange(stages) && left > 0 && Midway(Value(), st, a, m, left, reached)
      modifies this
      ensures Valid() && |stacks| == |old(stacks)|
      ensures Midway(Value(), st, a, m, left - 1, reached + graph.ReachAll(stages))
      decreases graph.MaxLevel(stages), 4
    {
      hide Ran, Graph.Valid;
      StartFunctor(a);
      DispatchAll(a, |stacks[a]| - 1, stages);
      MidwayMore(graph.kinds, old(Value()), st, a, m, left, reached, graph.ReachAll(stages), Value());
    }
  }

  /** `dynamic::FanoutProcessingFunctor`. */
  class Fanout {
    var stages: seq<nat>

    constructor (stages: seq<nat>)
      ensures this.stages == stages
    {
      this.stages := stages;
    }

    method UpdateStages(stages: seq<nat>)
      modifies this
      ensures this.stages == stages
    {
      this.stages := stages;
    }

    /** Dispatch the message of the agent's frame `i` to every configured stage. */
    method Dispatch(app: Application, a: nat, i: nat)
      requires app.Valid() && a < |app.stacks| && MayDispatch(app.stacks[a], i) && app.graph.InRange(stages)
      modifies app
      ensures app.Valid() && app.stacks == old(app.stacks)
      ensures IsDelivered(app.Value(), old(app.Value()), app.stacks[a][i].m, app.graph.ReachAll(stages))
    {
      app.DispatchAll(a, i, stages);
    }

    /** Dispatch a copy of that message to every configured stage. */
    method DispatchClones(app: Application, a: nat, i: nat)
      requires app.Valid() && a < |app.stacks| && MayDispatch(app.stacks[a], i) && app.graph.InRange(stages)
      modifies app
      ensures app.Valid() && app.stacks == old(app.stacks)
      ensures app.Value() == DeliveredCopies(app.graph, old(app.Value()), stages)
    {
      hide Ran, Graph.Valid;
      ghost var st := app.Value();
      for k := 0 to |stages|
        invariant app.Valid() && app.stacks == old(app.stacks)
        invariant app.Value() == DeliveredCopies(app.graph, st, stages[..k])
      {
        assert stages[..k + 1][..k] == stages[..k];
        app.DispatchCopyWhole(a, i, stages[k]);
      }
      assert stages[..|stages|] == stages;
    }
  }
}

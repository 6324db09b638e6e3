/** Shutting down a tree of stages with a poison pill (wield/tests/unit_test/poison_pill/). */
module PoisonPill {
  import opened Counting
  import opened PillFlow

  /** A tree of stages: `place` is a stage's position among the children of its parent, `depth` its distance from the
      root. */
  datatype Pipeline = Pipeline(graph: Graph, parent: seq<nat>, place: seq<nat>, depth: seq<nat>)
  {
    predicate Valid() {
      && graph.Wired() && |parent| == |place| == |depth| == |graph.children|
      && (forall s | 0 <= s < |parent| :: s == graph.root || HasParent(s))
      && (forall s, i | 0 <= s < |parent| && 0 <= i < |graph.children[s]| :: IsChild(s, i))
    }

    predicate HasParent(s: nat)
      requires s < |parent| == |place| == |graph.children| == |depth|
    {
      && parent[s] < |parent| && depth[parent[s]] < depth[s]
      && place[s] < |graph.children[parent[s]]| && graph.children[parent[s]][place[s]] == s
    }

    predicate IsChild(s: nat, i: nat)
      requires s < |parent| == |place| == |graph.children| && i < |graph.children[s]|
    {
      var c := graph.children[s][i];
      c < |parent| && c != graph.root && parent[c] == s && place[c] == i
    }

    function Size(): nat { |parent| }
  }

  // ----- every stage sees what its parent saw, in order -----

  /** What has been dispatched to stage `c` so far: what its parent has begun to handle, less a message that has not
      been forwarded this far yet. */
  function Received(p: Pipeline, inputs: seq<Message>, st: State, c: nat): seq<Message>
    requires p.Valid() && Shaped(p.graph, st) && c < p.Size() && st.injected <= |inputs|
  {
    if c == p.graph.root then inputs[..st.injected] else
    assert p.HasParent(c);
    Forwarded(st, p.parent[c], p.place[c])
  }

  ghost predicate Flowing(p: Pipeline, inputs: seq<Message>, st: State)
    requires p.Valid()
  {
    && Shaped(p.graph, st) && st.injected <= |inputs|
    && forall c | 0 <= c < p.Size() :: st.handled[c] + st.queue[c] == Received(p, inputs, st, c)
  }

  /** Only a dispatch adds to what a stage has received: to the root from outside, and else, when the fan-out of its
      parent comes to it, the message that the parent is at. */
  lemma ReceivedNext(p: Pipeline, inputs: seq<Message>, st: State, e: Event, c: nat)
    requires p.Valid() && Shaped(p.graph, st) && st.injected <= |inputs| && c < p.Size()
    requires Enabled(p.graph, inputs, st, e)
    ensures Next(p.graph, inputs, st, e).injected <= |inputs|
    ensures Received(p, inputs, Next(p.graph, inputs, st, e), c) == Received(p, inputs, st, c)
            + match e
              case Inject => if c == p.graph.root then [inputs[st.injected]] else []
              case Forward(s) => if c == p.graph.children[s][st.busy[s].k] then [st.busy[s].m] else []
              case _ => []
  {
    if e.Forward? {
      assert p.IsChild(e.s, st.busy[e.s].k);
    }
    if c != p.graph.root {
      assert p.HasParent(c);
      ForwardedNext(p.graph, inputs, st, e, p.parent[c], p.place[c]);
    }
  }

  lemma NextKeepsFlowing(p: Pipeline, inputs: seq<Message>, st: State, e: Event)
    requires p.Valid() && Flowing(p, inputs, st) && Enabled(p.graph, inputs, st, e)
    ensures Flowing(p, inputs, Next(p.graph, inputs, st, e))
  {
    hide Received, Next;
    var st' := Next(p.graph, inputs, st, e);
    ReceivedNext(p, inputs, st, e, p.graph.root);
    forall c | 0 <= c < p.Size()
      ensures st'.handled[c] + st'.queue[c] == Received(p, inputs, st', c)
    {
      assert st.handled[c] + st.queue[c] == Received(p, inputs, st, c);
      ReceivedNext(p, inputs, st, e, c);
      ArrivesNext(p.graph, inputs, st, e, c);
    }
  }

  /** What a stage has handled is a prefix of the inputs. */
  lemma {:induction false} HandledIsPrefix(p: Pipeline, inputs: seq<Message>, st: State, c: nat)
    requires p.Valid() && Flowing(p, inputs, st) && c < p.Size()
    ensures st.handled[c] + st.queue[c] <= inputs
    decreases p.depth[c]
  {
    assert st.handled[c] + st.queue[c] == Received(p, inputs, st, c);
    if c != p.graph.root {
      assert p.HasParent(c);
      HandledIsPrefix(p, inputs, st, p.parent[c]);
      assert st.handled[p.parent[c]] <= inputs;
    }
  }

  /** Each stage's handled messages followed by its queue are a prefix of what its parent handled. */
  lemma ChildFollowsParent(p: Pipeline, inputs: seq<Message>, es: seq<Event>, c: nat)
    requires p.Valid() && Exec(p.graph, inputs, es).Some? && c < p.Size() && c != p.graph.root
    ensures p.HasParent(c)
    ensures var st := Exec(p.graph, inputs, es).value; st.handled[c] + st.queue[c] <= st.handled[p.parent[c]]
  {
    RunKeepsInv(p, inputs, es);
    var st := Exec(p.graph, inputs, es).value;
    assert st.handled[c] + st.queue[c] == Received(p, inputs, st, c);
  }

  ghost predicate Inv(p: Pipeline, inputs: seq<Message>, st: State)
    requires p.Valid()
  {
    Flowing(p, inputs, st) && Counted(p.graph, st)
  }

  lemma {:induction false} RunKeepsInv(p: Pipeline, inputs: seq<Message>, es: seq<Event>)
    requires p.Valid() && Exec(p.graph, inputs, es).Some?
    ensures Inv(p, inputs, Exec(p.graph, inputs, es).value)
  {
    if es == [] {
      forall c | 0 <= c < p.Size()
        ensures Init(p.graph).handled[c] + Init(p.graph).queue[c] == Received(p, inputs, Init(p.graph), c)
      {
        assert c == p.graph.root || p.HasParent(c);
      }
      CountedAtFirst(p.graph);
    } else {
      var front, e := es[..|es| - 1], es[|es| - 1];
      RunKeepsInv(p, inputs, front);
      var st := Exec(p.graph, inputs, front).value;
      NextKeepsFlowing(p, inputs, st, e);
      NextKeepsCounted(p.graph, inputs, st, e);
    }
  }

  // ----- a pill that is dispatched once -----

  ghost predicate OnlyPillAt(inputs: seq<Message>, i: nat, id: nat)
  {
    i < |inputs| && inputs[i] == Pill(id) && forall j | 0 <= j < |inputs| && inputs[j] == Pill(id) :: j == i
  }

  /** A prefix of the inputs holds the pill at most once. */
  lemma {:induction false} AtMostOnePill(inputs: seq<Message>, ms: seq<Message>, i: nat, id: nat)
    requires OnlyPillAt(inputs, i, id) && ms <= inputs
    ensures Pills(ms, id) == if Pill(id) in ms then 1 else 0
    ensures Pill(id) in ms <==> i < |ms|
  {
    if ms != [] {
      AtMostOnePill(inputs, ms[..|ms| - 1], i, id);
      assert ms == ms[..|ms| - 1] + [ms[|ms| - 1]];
    }
  }

  /** In every run the callback of the pill has fired at most once, and it has fired exactly if every stage has begun to
      handle the pill; by then every stage has handled everything dispatched before the pill, in order. */
  lemma StopsOnceAfterEverything(p: Pipeline, inputs: seq<Message>, es: seq<Event>, i: nat, id: nat)
    requires p.Valid() && Exec(p.graph, inputs, es).Some? && OnlyPillAt(inputs, i, id)
    ensures var st := Exec(p.graph, inputs, es).value;
            && Count(st.fired, id) <= 1
            && (id in st.fired <==> forall s | 0 <= s < p.Size() :: Pill(id) in st.handled[s])
            && (id in st.fired ==> forall s | 0 <= s < p.Size() :: inputs[..i + 1] <= st.handled[s])
  {
    hide Pills;
    RunKeepsInv(p, inputs, es);
    var st := Exec(p.graph, inputs, es).value;
    forall s | 0 <= s < p.Size()
      ensures PillCounts(st.handled, id)[s] == if Pill(id) in st.handled[s] then 1 else 0
      ensures Pill(id) in st.handled[s] <==> i < |st.handled[s]|
      ensures Pill(id) in st.handled[s] ==> inputs[..i + 1] <= st.handled[s]
    {
      HandledIsPrefix(p, inputs, st, s);
      AtMostOnePill(inputs, st.handled[s], i, id);
    }
    SumOfBits(PillCounts(st.handled, id));
    assert Count(st.fired, id) == 1 <==> CountOf(st.count, id) == p.Size();
  }

  /** The callbacks of different pills fire in the order the pills were dispatched. */
  lemma FiredInOrder(p: Pipeline, inputs: seq<Message>, es: seq<Event>, i: nat, a: nat, j: nat, b: nat)
    requires p.Valid() && Exec(p.graph, inputs, es).Some?
    requires OnlyPillAt(inputs, i, a) && OnlyPillAt(inputs, j, b) && i < j
    requires b in Exec(p.graph, inputs, es).value.fired
    ensures a in Exec(p.graph, inputs, es).value.fired
  {
    var st := Exec(p.graph, inputs, es).value;
    StopsOnceAfterEverything(p, inputs, es, i, a);
    StopsOnceAfterEverything(p, inputs, es, j, b);
    forall s | 0 <= s < p.Size()
      ensures Pill(a) in st.handled[s]
    {
      assert inputs[..j + 1][i] == Pill(a);
      assert st.handled[s][i] == inputs[..j + 1][i];
    }
  }

  lemma FiredNext(g: Graph, inputs: seq<Message>, st: State, e: Event)
    requires g.Wired() && Shaped(g, st) && Enabled(g, inputs, st, e)
    ensures var st' := Next(g, inputs, st, e); st'.fired == st.fired || exists id :: st'.fired == st.fired + [id]
  {
  }

  /** In the record of callbacks, too, a pill dispatched earlier comes earlier. */
  lemma {:induction false} FiredEarlier(p: Pipeline, inputs: seq<Message>, es: seq<Event>,
                                        i: nat, a: nat, j: nat, b: nat, y: nat)
    requires p.Valid() && Exec(p.graph, inputs, es).Some?
    requires OnlyPillAt(inputs, i, a) && OnlyPillAt(inputs, j, b) && i < j
    requires var fired := Exec(p.graph, inputs, es).value.fired; y < |fired| && fired[y] == b
    ensures exists x :: 0 <= x < y && Exec(p.graph, inputs, es).value.fired[x] == a
  {
    var fired := Exec(p.graph, inputs, es).value.fired;
    var front := es[..|es| - 1];
    var st := Exec(p.graph, inputs, front).value;
    FiredNext(p.graph, inputs, st, es[|es| - 1]);
    if y < |st.fired| {
      FiredEarlier(p, inputs, front, i, a, j, b, y);
      var x :| 0 <= x < y && st.fired[x] == a;
      assert fired[x] == a;
    } else {
      FiredInOrder(p, inputs, es, i, a, j, b);
      var x :| 0 <= x < |fired| && fired[x] == a;
    }
  }

  // ----- every run ends, and not before the callback has fired -----

  /** Steps stage `s` has taken: a pop, a forward per child and a finish for each message, less those the current
      message still needs. */
  function StepsOf(p: Pipeline, st: State, s: nat): int
    requires p.Valid() && Shaped(p.graph, st) && s < p.Size()
  {
    Times(|st.handled[s]|, 2 + |p.graph.children[s]|)
    - if st.busy[s].Forwarding? then 1 + |p.graph.children[s]| - st.busy[s].k else 0
  }

  lemma StepsOfNonNegative(p: Pipeline, st: State, s: nat)
    requires p.Valid() && Shaped(p.graph, st) && s < p.Size()
    ensures StepsOf(p, st, s) >= 0
  {
    OneMoreTime(0, 2 + |p.graph.children[s]|);
    TimesMonotone(if st.handled[s] == [] then 0 else 1, |st.handled[s]|, 2 + |p.graph.children[s]|);
  }

  function StepCounts(p: Pipeline, st: State): (steps: seq<nat>)
    requires p.Valid() && Shaped(p.graph, st)
    ensures |steps| == p.Size() && forall s | 0 <= s < p.Size() :: steps[s] == StepsOf(p, st, s)
  {
    seq(p.Size(), s requires 0 <= s < p.Size() => StepsOfNonNegative(p, st, s); StepsOf(p, st, s))
  }

  lemma OneStepAt(p: Pipeline, inputs: seq<Message>, st: State, e: Event)
    requires p.Valid() && Shaped(p.graph, st) && Enabled(p.graph, inputs, st, e) && !e.Inject?
    ensures Next(p.graph, inputs, st, e).injected == st.injected
    ensures StepsOf(p, Next(p.graph, inputs, st, e), e.s) == StepsOf(p, st, e.s) + 1
    ensures forall s | 0 <= s < p.Size() && s != e.s :: StepsOf(p, Next(p.graph, inputs, st, e), s) == StepsOf(p, st, s)
  {
    hide Times;
    if e.Pop? {
      OneMoreTime(|st.handled[e.s]|, 2 + |p.graph.children[e.s]|);
    }
  }

  lemma InjectIsNoStep(p: Pipeline, inputs: seq<Message>, st: State)
    requires p.Valid() && Shaped(p.graph, st) && Enabled(p.graph, inputs, st, Inject)
    ensures var st' := Next(p.graph, inputs, st, Inject);
            st'.injected == st.injected + 1 && forall s | 0 <= s < p.Size() :: StepsOf(p, st', s) == StepsOf(p, st, s)
  {
  }

  lemma OneStep(p: Pipeline, inputs: seq<Message>, st: State, e: Event)
    requires p.Valid() && Shaped(p.graph, st) && Enabled(p.graph, inputs, st, e)
    ensures var st' := Next(p.graph, inputs, st, e);
            st'.injected + Sum(StepCounts(p, st')) == st.injected + Sum(StepCounts(p, st)) + 1
  {
    hide StepsOf, Next;
    var st' := Next(p.graph, inputs, st, e);
    var steps, steps' := StepCounts(p, st), StepCounts(p, st');
    if e.Inject? {
      InjectIsNoStep(p, inputs, st);
      assert steps' == steps;
    } else {
      OneStepAt(p, inputs, st, e);
      assert steps' == steps[e.s := steps[e.s] + 1];
      SumUpdate(steps, e.s, steps[e.s] + 1);
    }
  }

  lemma {:induction false} RunLengthIsSteps(p: Pipeline, inputs: seq<Message>, es: seq<Event>)
    requires p.Valid() && Exec(p.graph, inputs, es).Some?
    ensures |es| == Exec(p.graph, inputs, es).value.injected + Sum(StepCounts(p, Exec(p.graph, inputs, es).value))
  {
    hide Times;
    if es == [] {
      forall s | 0 <= s < p.Size()
        ensures StepCounts(p, Init(p.graph))[s] == 0
      {
        OneMoreTime(0, 2 + |p.graph.children[s]|);
      }
      assert StepCounts(p, Init(p.graph)) == seq(p.Size(), _ => 0);
      SumZero(p.Size());
    } else {
      RunLengthIsSteps(p, inputs, es[..|es| - 1]);
      OneStep(p, inputs, Exec(p.graph, inputs, es[..|es| - 1]).value, es[|es| - 1]);
    }
  }

  /** The steps each stage takes for all inputs. */
  function FullSteps(p: Pipeline, inputs: seq<Message>): (steps: seq<nat>)
    requires p.Valid()
    ensures |steps| == p.Size()
    ensures forall s | 0 <= s < p.Size() :: steps[s] == Times(|inputs|, 2 + |p.graph.children[s]|)
  {
    seq(p.Size(), s requires 0 <= s < p.Size() => Times(|inputs|, 2 + |p.graph.children[s]|))
  }

  predicate Stuck(p: Pipeline, inputs: seq<Message>, st: State)
    requires p.Valid() && Shaped(p.graph, st)
  {
    && !Enabled(p.graph, inputs, st, Inject)
    && forall s: nat | s < p.Size() ::
         && !Enabled(p.graph, inputs, st, Pop(s)) && !Enabled(p.graph, inputs, st, Forward(s))
         && !Enabled(p.graph, inputs, st, Finish(s))
  }

  lemma {:induction false} StuckHasHandledAll(p: Pipeline, inputs: seq<Message>, st: State, c: nat)
    requires p.Valid() && Flowing(p, inputs, st) && Stuck(p, inputs, st) && c < p.Size()
    ensures st.handled[c] == inputs && st.busy[c].Waiting?
    decreases p.depth[c]
  {
    assert st.handled[c] + st.queue[c] == Received(p, inputs, st, c);
    assert !Enabled(p.graph, inputs, st, Pop(c)) && !Enabled(p.graph, inputs, st, Forward(c));
    assert !Enabled(p.graph, inputs, st, Finish(c));
    assert st.queue[c] == [];
    if c != p.graph.root {
      assert p.HasParent(c);
      StuckHasHandledAll(p, inputs, st, p.parent[c]);
    }
  }

  /** What a run comes to that cannot go on: every stage has handled every input, every leaf has counted every line and
      no other stage has counted any, and the callback of each pill among the inputs has fired, once, and no other. */
  ghost predicate AllDone(p: Pipeline, inputs: seq<Message>, st: State)
    requires p.Valid() && Shaped(p.graph, st)
  {
    && (forall s | 0 <= s < p.Size() ::
          st.handled[s] == inputs && st.lineCount[s] == if p.graph.children[s] == [] then Lines(inputs) else 0)
    && forall id: nat :: Count(st.fired, id) == if Pill(id) in inputs then 1 else 0
  }

  /** Whatever the inputs, every run takes at most three steps per stage and input; a run that cannot go on has taken
      exactly that many, and all is done. */
  lemma EveryRunEndsStopped(p: Pipeline, inputs: seq<Message>, es: seq<Event>)
    requires p.Valid() && Exec(p.graph, inputs, es).Some?
    ensures |es| <= 3 * p.Size() * |inputs|
    ensures var st := Exec(p.graph, inputs, es).value;
            Stuck(p, inputs, st) ==> |es| == 3 * p.Size() * |inputs| && AllDone(p, inputs, st)
  {
    hide Times, StepsOf, Stuck, Counted, Flowing, AllDone, Exec, FullSteps, StepCounts;
    TimesIsProduct(|inputs|, 3 * p.Size());
    var st := Exec(p.graph, inputs, es).value;
    RunKeepsInv(p, inputs, es);
    RunLengthIsSteps(p, inputs, es);
    StepsPerInput(p, inputs);
    StepsBounded(p, inputs, st);
    if Stuck(p, inputs, st) {
      StuckIsDone(p, inputs, st);
    }
  }

  lemma StepsBounded(p: Pipeline, inputs: seq<Message>, st: State)
    requires p.Valid() && Flowing(p, inputs, st)
    ensures st.injected <= |inputs| && Sum(StepCounts(p, st)) <= Sum(FullSteps(p, inputs))
  {
    hide Times;
    forall s | 0 <= s < p.Size()
      ensures StepCounts(p, st)[s] <= FullSteps(p, inputs)[s]
    {
      HandledIsPrefix(p, inputs, st, s);
      TimesMonotone(|st.handled[s]|, |inputs|, 2 + |p.graph.children[s]|);
    }
    SumMonotone(StepCounts(p, st), FullSteps(p, inputs));
  }

  lemma StuckIsDone(p: Pipeline, inputs: seq<Message>, st: State)
    requires p.Valid() && Inv(p, inputs, st) && Stuck(p, inputs, st)
    ensures st.injected == |inputs| && StepCounts(p, st) == FullSteps(p, inputs) && AllDone(p, inputs, st)
  {
    hide Times, Pills;
    forall s | 0 <= s < p.Size()
      ensures st.handled[s] == inputs && st.busy[s].Waiting?
    {
      StuckHasHandledAll(p, inputs, st, s);
    }
    forall id: nat
      ensures Count(st.fired, id) == if Pill(id) in inputs then 1 else 0
    {
      AllPillsCounted(p, inputs, st, id);
    }
  }

  lemma AllPillsCounted(p: Pipeline, inputs: seq<Message>, st: State, id: nat)
    requires p.Valid() && Shaped(p.graph, st) && PillsCounted(p.graph, st)
    requires forall s | 0 <= s < p.Size() :: st.handled[s] == inputs
    ensures Count(st.fired, id) == if Pill(id) in inputs then 1 else 0
  {
    if Pill(id) in inputs {
      AllBegun(p.graph, st, id);
    } else {
      NoPills(inputs, id);
      assert PillCounts(st.handled, id) == seq(p.Size(), _ => 0);
      SumZero(p.Size());
      assert CountOf(st.count, id) == 0;
    }
  }

  // ----- how many steps that is -----

  /** Each stage's parent; `Size()` for the root. */
  function Parents(p: Pipeline): (parents: seq<nat>)
    requires p.Valid()
    ensures |parents| == p.Size()
    ensures forall s | 0 <= s < p.Size() :: parents[s] == if s == p.graph.root then p.Size() else p.parent[s]
  {
    seq(p.Size(), s requires 0 <= s < p.Size() => if s == p.graph.root then p.Size() else p.parent[s])
  }

  /** Where `x` occurs in `s`. */
  function Positions(s: seq<nat>, x: nat): set<nat>
  {
    set i: nat | i < |s| && s[i] == x
  }

  lemma {:induction false} CountIsPositions(s: seq<nat>, x: nat)
    ensures Count(s, x) == |Positions(s, x)|
  {
    if s != [] {
      var n := |s| - 1;
      CountIsPositions(s[..n], x);
      assert s == s[..n] + [s[n]];
      assert Positions(s, x) == Positions(s[..n], x) + if s[n] == x then {n} else {};
    }
  }

  lemma {:induction false} DistinctElements(s: seq<nat>, elements: set<nat>)
    requires forall i, j | 0 <= i < j < |s| :: s[i] != s[j]
    requires forall x :: x in elements <==> x in s
    ensures |elements| == |s|
  {
    if s == [] {
      assert elements == {};
    } else {
      var n := |s| - 1;
      DistinctElements(s[..n], elements - {s[n]});
    }
  }

  lemma ChildrenAreCounted(p: Pipeline, s: nat)
    requires p.Valid() && s < p.Size()
    ensures Count(Parents(p), s) == |p.graph.children[s]|
  {
    CountIsPositions(Parents(p), s);
    var elements := Positions(Parents(p), s);
    forall c
      ensures c in elements <==> c in p.graph.children[s]
    {
      if c in elements {
        assert p.HasParent(c);
      }
      if c in p.graph.children[s] {
        var i :| 0 <= i < |p.graph.children[s]| && p.graph.children[s][i] == c;
        assert p.IsChild(s, i);
      }
    }
    forall i, j | 0 <= i < j < |p.graph.children[s]|
      ensures p.graph.children[s][i] != p.graph.children[s][j]
    {
      assert p.IsChild(s, i) && p.IsChild(s, j);
    }
    DistinctElements(p.graph.children[s], elements);
  }

  function ChildCounts(p: Pipeline): (counts: seq<nat>)
    requires p.Valid()
    ensures |counts| == p.Size() && forall s | 0 <= s < p.Size() :: counts[s] == |p.graph.children[s]|
  {
    seq(p.Size(), s requires 0 <= s < p.Size() => |p.graph.children[s]|)
  }

  /** A tree has one edge fewer than stages. */
  lemma EdgesOfTree(p: Pipeline)
    requires p.Valid()
    ensures Sum(ChildCounts(p)) == p.Size() - 1
  {
    var parents, n := Parents(p), p.Size();
    forall s | 0 <= s < n
      ensures s == p.graph.root || parents[s] < n
    {
      assert s == p.graph.root || p.HasParent(s);
    }
    CountIsPositions(parents, n);
    assert Positions(parents, n) == {p.graph.root};
    forall s: nat | s < n
      ensures Counts(parents, n)[s] == ChildCounts(p)[s]
    {
      ChildrenAreCounted(p, s);
    }
    assert Counts(parents, n) == ChildCounts(p);
    CountsPartition(parents, n);
  }

  /** The sum of k * (2 + c) over the counts c. */
  lemma {:induction false} SumOfProducts(counts: seq<nat>, products: seq<nat>, k: nat)
    requires |products| == |counts| && forall i | 0 <= i < |counts| :: products[i] == Times(k, 2 + counts[i])
    ensures Sum(products) == Times(k, 2 * |counts| + Sum(counts))
  {
    if counts != [] {
      hide Times;
      var n := |counts| - 1;
      SumOfProducts(counts[..n], products[..n], k);
      TimesAdd(k, 2 * n + Sum(counts[..n]), 2 + counts[n]);
    }
  }

  /** Three steps per stage and input: every run has at most so many, and a run that cannot go on exactly so many. */
  lemma StepsPerInput(p: Pipeline, inputs: seq<Message>)
    requires p.Valid()
    ensures |inputs| + Sum(FullSteps(p, inputs)) == Times(|inputs|, 3 * p.Size())
  {
    hide Times;
    EdgesOfTree(p);
    SumOfProducts(ChildCounts(p), FullSteps(p, inputs), |inputs|);
    TimesAdd(|inputs|, 3 * p.Size() - 1, 1);
  }
}

/** Where branches of a pipeline join, the pill comes to a stage more than once and is counted each time. When does the
    callback still come after everything? */
module PillOnGraphs {
  import opened Counting
  import opened PillFlow

  predicate HasEdge(g: Graph, s: nat, i: nat, c: nat)
  {
    s < |g.children| && i < |g.children[s]| && g.children[s][i] == c
  }

  predicate HasSource(g: Graph, c: nat)
  {
    exists s, i :: 0 <= s < |g.children| && 0 <= i < |g.children[s]| && HasEdge(g, s, i, c)
  }

  /** No circles, and every stage but the root has somewhere its messages come from. `depth`: a topological order. */
  ghost predicate Acyclic(g: Graph, depth: seq<nat>)
  {
    && g.Wired() && |depth| == g.Size()
    && (forall s | 0 <= s < g.Size() :: depth[s] < g.Size())
    && (forall s: nat, i: nat, c: nat | HasEdge(g, s, i, c) :: depth[s] < depth[c])
    && (forall c | 0 <= c < g.Size() && c != g.root :: HasSource(g, c))
  }

  /** Messages come to `c` in more than one way: from two stages, or twice from one. */
  ghost predicate Joined(g: Graph, c: nat)
  {
    exists s: nat, i: nat, t: nat, j: nat :: HasEdge(g, s, i, c) && HasEdge(g, t, j, c) && !(s == t && i == j)
  }

  ghost predicate OnlyLeaf(g: Graph, c: nat)
  {
    forall z | 0 <= z < g.Size() && g.children[z] == [] :: z == c
  }

  ghost predicate OneParent(g: Graph)
  {
    forall s: nat, i: nat, t: nat, j: nat, c: nat | HasEdge(g, s, i, c) && HasEdge(g, t, j, c) :: s == t
  }

  /** No two stages forward to the same one, and if a stage forwards twice to the same one, the pipeline is a chain that
      ends there. */
  ghost predicate Orderly(g: Graph)
  {
    OneParent(g) && forall c | 0 <= c < g.Size() && Joined(g, c) :: OnlyLeaf(g, c)
  }

  lemma {:induction false} RootIsFirst(g: Graph, depth: seq<nat>, s: nat)
    requires Acyclic(g, depth) && s < g.Size() && s != g.root
    ensures depth[g.root] < depth[s]
    decreases depth[s]
  {
    assert HasSource(g, s);
    var t: nat, i: nat :| HasEdge(g, t, i, s);
    if t != g.root {
      RootIsFirst(g, depth, t);
    }
  }

  // ----- the property -----

  /** Lines, and then one pill. */
  predicate PillLast(inputs: seq<Message>)
  {
    inputs != [] && inputs[|inputs| - 1].Pill? && forall i | 0 <= i < |inputs| - 1 :: inputs[i].Line?
  }

  /** The callback of that pill has run. */
  predicate Stopped(inputs: seq<Message>, st: State)
    requires PillLast(inputs)
  {
    inputs[|inputs| - 1].id in st.fired
  }

  /** A line is queued, or a stage is at work on one. */
  predicate LinePending(g: Graph, st: State)
    requires g.Wired() && Shaped(g, st)
  {
    exists s | 0 <= s < g.Size() ::
      (exists k | 0 <= k < |st.queue[s]| :: st.queue[s][k].Line?) || (st.busy[s].Forwarding? && st.busy[s].m.Line?)
  }

  /** When the callback fires, every line dispatched before the pill is done with, at every stage it ever comes to. */
  ghost predicate StopsAfterAllLines(g: Graph)
    requires g.Wired()
  {
    forall inputs, es | PillLast(inputs) && Exec(g, inputs, es).Some? && Stopped(inputs, Exec(g, inputs, es).value) ::
      !LinePending(g, Exec(g, inputs, es).value)
  }

  // ----- every run comes to a stop -----

  /** Steps that a message at `s` makes here and further down. */
  function Work(g: Graph, depth: seq<nat>, s: nat): nat
    requires Acyclic(g, depth) && s < g.Size()
    decreases g.Size() - depth[s], |g.children[s]| + 1
  {
    2 + WorkLeft(g, depth, s, 0)
  }

  function WorkLeft(g: Graph, depth: seq<nat>, s: nat, k: nat): nat
    requires Acyclic(g, depth) && s < g.Size() && k <= |g.children[s]|
    decreases g.Size() - depth[s], |g.children[s]| - k
  {
    if k == |g.children[s]| then 0 else
    assert HasEdge(g, s, k, g.children[s][k]);
    1 + Work(g, depth, g.children[s][k]) + WorkLeft(g, depth, s, k + 1)
  }

  function BusyWork(g: Graph, depth: seq<nat>, st: State, s: nat): nat
    requires Acyclic(g, depth) && Shaped(g, st) && s < g.Size()
  {
    if st.busy[s].Forwarding? then 1 + WorkLeft(g, depth, s, st.busy[s].k) else 0
  }

  /** Steps that the messages at `s` have before them. */
  function StageWork(g: Graph, depth: seq<nat>, st: State, s: nat): nat
    requires Acyclic(g, depth) && Shaped(g, st) && s < g.Size()
  {
    Times(|st.queue[s]|, Work(g, depth, s)) + BusyWork(g, depth, st, s)
  }

  function Works(g: Graph, depth: seq<nat>, st: State): (works: seq<nat>)
    requires Acyclic(g, depth) && Shaped(g, st)
    ensures |works| == g.Size() && forall s | 0 <= s < g.Size() :: works[s] == StageWork(g, depth, st, s)
  {
    seq(g.Size(), s requires 0 <= s < g.Size() => StageWork(g, depth, st, s))
  }

  function InputWork(g: Graph, depth: seq<nat>, inputs: seq<Message>, st: State): nat
    requires Acyclic(g, depth)
  {
    if st.injected < |inputs| then Times(|inputs| - st.injected, 1 + Work(g, depth, g.root)) else 0
  }

  lemma InjectAt(g: Graph, depth: seq<nat>, inputs: seq<Message>, st: State)
    requires Acyclic(g, depth) && Shaped(g, st) && Enabled(g, inputs, st, Inject)
    ensures var st' := Next(g, inputs, st, Inject);
            && StageWork(g, depth, st', g.root) == StageWork(g, depth, st, g.root) + Work(g, depth, g.root)
            && (forall u | 0 <= u < g.Size() && u != g.root ::
                  StageWork(g, depth, st', u) == StageWork(g, depth, st, u))
            && InputWork(g, depth, inputs, st) == InputWork(g, depth, inputs, st') + 1 + Work(g, depth, g.root)
  {
    hide Times, Work, WorkLeft;
    OneMoreTime(|st.queue[g.root]|, Work(g, depth, g.root));
    OneMoreTime(|inputs| - st.injected - 1, 1 + Work(g, depth, g.root));
  }

  lemma PopAt(g: Graph, depth: seq<nat>, inputs: seq<Message>, st: State, s: nat)
    requires Acyclic(g, depth) && Shaped(g, st) && Enabled(g, inputs, st, Pop(s))
    ensures var st' := Next(g, inputs, st, Pop(s));
            && StageWork(g, depth, st', s) < StageWork(g, depth, st, s)
            && forall u | 0 <= u < g.Size() && u != s :: StageWork(g, depth, st', u) == StageWork(g, depth, st, u)
  {
    hide Times, WorkLeft;
    OneMoreTime(|st.queue[s]| - 1, Work(g, depth, s));
  }

  lemma ForwardAt(g: Graph, depth: seq<nat>, inputs: seq<Message>, st: State, s: nat)
    requires Acyclic(g, depth) && Shaped(g, st) && Enabled(g, inputs, st, Forward(s))
    ensures var st', c := Next(g, inputs, st, Forward(s)), g.children[s][st.busy[s].k];
            && s != c && StageWork(g, depth, st, s) == StageWork(g, depth, st', s) + 1 + Work(g, depth, c)
            && StageWork(g, depth, st', c) == StageWork(g, depth, st, c) + Work(g, depth, c)
            && forall u | 0 <= u < g.Size() && u != s && u != c ::
                 StageWork(g, depth, st', u) == StageWork(g, depth, st, u)
  {
    hide Times, Work;
    var c := g.children[s][st.busy[s].k];
    assert HasEdge(g, s, st.busy[s].k, c);
    OneMoreTime(|st.queue[c]|, Work(g, depth, c));
  }

  lemma FinishAt(g: Graph, depth: seq<nat>, inputs: seq<Message>, st: State, s: nat)
    requires Acyclic(g, depth) && Shaped(g, st) && Enabled(g, inputs, st, Finish(s))
    ensures var st' := Next(g, inputs, st, Finish(s));
            && StageWork(g, depth, st', s) < StageWork(g, depth, st, s)
            && forall u | 0 <= u < g.Size() && u != s :: StageWork(g, depth, st', u) == StageWork(g, depth, st, u)
  {
    hide Times, Work;
  }

  lemma OneStageLess(works: seq<nat>, works': seq<nat>, s: nat)
    requires |works'| == |works| && s < |works| && works'[s] < works[s]
    requires forall u | 0 <= u < |works| && u != s :: works'[u] == works[u]
    ensures Sum(works') < Sum(works)
  {
    assert works' == works[s := works'[s]];
    SumUpdate(works, s, works'[s]);
  }

  lemma InjectWorks(g: Graph, depth: seq<nat>, inputs: seq<Message>, st: State)
    requires Acyclic(g, depth) && Shaped(g, st) && Enabled(g, inputs, st, Inject)
    ensures var st' := Next(g, inputs, st, Inject);
            InputWork(g, depth, inputs, st') + Sum(Works(g, depth, st'))
            < InputWork(g, depth, inputs, st) + Sum(Works(g, depth, st))
  {
    hide StageWork, InputWork, Next, Work;
    InjectAt(g, depth, inputs, st);
    var works := Works(g, depth, st);
    assert Works(g, depth, Next(g, inputs, st, Inject)) == works[g.root := works[g.root] + Work(g, depth, g.root)];
    SumUpdate(works, g.root, works[g.root] + Work(g, depth, g.root));
  }

  lemma ForwardWorks(g: Graph, depth: seq<nat>, inputs: seq<Message>, st: State, s: nat)
    requires Acyclic(g, depth) && Shaped(g, st) && Enabled(g, inputs, st, Forward(s))
    ensures Sum(Works(g, depth, Next(g, inputs, st, Forward(s)))) < Sum(Works(g, depth, st))
  {
    hide StageWork, Work, Next;
    ForwardAt(g, depth, inputs, st, s);
    var works, works' := Works(g, depth, st), Works(g, depth, Next(g, inputs, st, Forward(s)));
    var c := g.children[s][st.busy[s].k];
    assert works' == works[s := works'[s]][c := works'[c]];
    SumUpdate(works, s, works'[s]);
    SumUpdate(works[s := works'[s]], c, works'[c]);
  }

  lemma EveryStepWorks(g: Graph, depth: seq<nat>, inputs: seq<Message>, st: State, e: Event)
    requires Acyclic(g, depth) && Shaped(g, st) && Enabled(g, inputs, st, e)
    ensures var st' := Next(g, inputs, st, e);
            InputWork(g, depth, inputs, st') + Sum(Works(g, depth, st'))
            < InputWork(g, depth, inputs, st) + Sum(Works(g, depth, st))
  {
    hide Works, StageWork, Work;
    var works, works' := Works(g, depth, st), Works(g, depth, Next(g, inputs, st, e));
    match e
    case Inject => InjectWorks(g, depth, inputs, st);
    case Pop(s) =>
      PopAt(g, depth, inputs, st, s);
      OneStageLess(works, works', s);
    case Forward(s) => ForwardWorks(g, depth, inputs, st, s);
    case Finish(s) =>
      FinishAt(g, depth, inputs, st, s);
      OneStageLess(works, works', s);
  }

  /** Nothing can happen, except perhaps that `x` takes a message. */
  predicate StuckBut(g: Graph, inputs: seq<Message>, st: State, x: nat)
    requires g.Wired() && Shaped(g, st)
  {
    && !Enabled(g, inputs, st, Inject)
    && forall s: nat | s < g.Size() ::
         && !Enabled(g, inputs, st, Forward(s)) && !Enabled(g, inputs, st, Finish(s))
         && (s != x ==> !Enabled(g, inputs, st, Pop(s)))
  }

  lemma StepBut(g: Graph, inputs: seq<Message>, st: State, x: nat) returns (e: Event)
    requires g.Wired() && Shaped(g, st) && !StuckBut(g, inputs, st, x)
    ensures Enabled(g, inputs, st, e) && e != Pop(x)
  {
    if Enabled(g, inputs, st, Inject) {
      e := Inject;
    } else {
      var s: nat :| s < g.Size() && (Enabled(g, inputs, st, Forward(s)) || Enabled(g, inputs, st, Finish(s))
                                     || (s != x && Enabled(g, inputs, st, Pop(s))));
      e := if Enabled(g, inputs, st, Forward(s)) then Forward(s)
           else if Enabled(g, inputs, st, Finish(s)) then Finish(s) else Pop(s);
    }
  }

  /** From any point a run goes on, without `x` taking a message, until nothing else can happen. */
  lemma {:induction false} RunOn(g: Graph, depth: seq<nat>, inputs: seq<Message>, start: seq<Event>, es: seq<Event>,
                                 x: nat)
    returns (es': seq<Event>)
    requires Acyclic(g, depth) && Exec(g, inputs, start + es).Some? && Pop(x) !in es
    ensures Exec(g, inputs, start + es').Some? && Pop(x) !in es'
    ensures StuckBut(g, inputs, Exec(g, inputs, start + es').value, x)
    decreases InputWork(g, depth, inputs, Exec(g, inputs, start + es).value)
              + Sum(Works(g, depth, Exec(g, inputs, start + es).value))
  {
    hide Work, Works, InputWork, Next, Enabled, StuckBut;
    var st := Exec(g, inputs, start + es).value;
    if StuckBut(g, inputs, st, x) {
      es' := es;
    } else {
      var e := StepBut(g, inputs, st, x);
      assert (start + (es + [e]))[..|start + es|] == start + es;
      EveryStepWorks(g, depth, inputs, st, e);
      es' := RunOn(g, depth, inputs, start, es + [e], x);
    }
  }

  // ----- what gets where -----

  /** What is forwarded to a stage is handled there or waits in its queue. */
  ghost predicate Arrived(g: Graph, inputs: seq<Message>, st: State)
    requires g.Wired() && Shaped(g, st)
  {
    && (forall s: nat, i: nat, c: nat, m | HasEdge(g, s, i, c) && m in Forwarded(st, s, i) ::
          m in st.handled[c] || m in st.queue[c])
    && st.injected <= |inputs|
    && forall m | m in inputs[..st.injected] :: m in st.handled[g.root] || m in st.queue[g.root]
  }

  /** What is forwarded after a step: one more message to one child, if the step is that; else the same. */
  lemma ForwardedAfter(g: Graph, inputs: seq<Message>, st: State, e: Event, s: nat, i: nat, m: Message)
    requires g.Wired() && Shaped(g, st) && Enabled(g, inputs, st, e) && s < g.Size() && i < |g.children[s]|
    requires m in Forwarded(Next(g, inputs, st, e), s, i)
    ensures m in Forwarded(st, s, i) || (e == Forward(s) && i == st.busy[s].k && m == st.busy[s].m)
  {
    if e == Pop(s) {
      MoveHead(st.handled[s], st.queue[s]);
    } else if e == Forward(s) {
      assert st.handled[s] == st.handled[s][..|st.handled[s]| - 1] + [st.busy[s].m];
    }
  }

  /** A message at a stage stays there, queued or handled. */
  lemma StaysThere(g: Graph, inputs: seq<Message>, st: State, e: Event, c: nat, m: Message)
    requires g.Wired() && Shaped(g, st) && Enabled(g, inputs, st, e) && c < g.Size()
    ensures var st' := Next(g, inputs, st, e);
            && (m in st.handled[c] ==> m in st'.handled[c])
            && (m in st.queue[c] ==> m in st'.queue[c] || (e == Pop(c) && m in st'.handled[c]))
  {
    if e == Pop(c) {
      assert st.queue[c] == [st.queue[c][0]] + st.queue[c][1..];
    }
  }

  lemma NextKeepsArrived(g: Graph, inputs: seq<Message>, st: State, e: Event)
    requires g.Wired() && Shaped(g, st) && Arrived(g, inputs, st) && Enabled(g, inputs, st, e)
    ensures Arrived(g, inputs, Next(g, inputs, st, e))
  {
    var st' := Next(g, inputs, st, e);
    forall s: nat, i: nat, c: nat, m | HasEdge(g, s, i, c) && m in Forwarded(st', s, i)
      ensures m in st'.handled[c] || m in st'.queue[c]
    {
      ForwardedAfter(g, inputs, st, e, s, i, m);
      StaysThere(g, inputs, st, e, c, m);
    }
    forall m | m in inputs[..st'.injected]
      ensures m in st'.handled[g.root] || m in st'.queue[g.root]
    {
      StaysThere(g, inputs, st, e, g.root, m);
      if e.Inject? {
        assert inputs[..st'.injected] == inputs[..st.injected] + [inputs[st.injected]];
      }
    }
  }

  lemma {:induction false} RunKeepsArrived(g: Graph, inputs: seq<Message>, es: seq<Event>)
    requires g.Wired() && Exec(g, inputs, es).Some?
    ensures Arrived(g, inputs, Exec(g, inputs, es).value) && Counted(g, Exec(g, inputs, es).value)
  {
    if es == [] {
      CountedAtFirst(g);
    } else {
      var front, e := es[..|es| - 1], es[|es| - 1];
      RunKeepsArrived(g, inputs, front);
      NextKeepsArrived(g, inputs, Exec(g, inputs, front).value, e);
      NextKeepsCounted(g, inputs, Exec(g, inputs, front).value, e);
    }
  }

  /** Once nothing else can happen, an input has been handled by every stage it can reach without passing through `x`;
      and by all others if `x` has handled it or forwards nothing. */
  lemma {:induction false} HandledBy(g: Graph, depth: seq<nat>, inputs: seq<Message>, st: State, x: nat, m: Message,
                                     s: nat)
    requires Acyclic(g, depth) && Shaped(g, st) && Arrived(g, inputs, st) && StuckBut(g, inputs, st, x)
    requires m in inputs && s < g.Size() && x < g.Size() && s != x
    requires depth[s] <= depth[x] || m in st.handled[x] || g.children[x] == []
    ensures m in st.handled[s]
    decreases depth[s]
  {
    assert !Enabled(g, inputs, st, Pop(s)) && !Enabled(g, inputs, st, Forward(s)) && !Enabled(g, inputs, st, Finish(s));
    if s == g.root {
      assert inputs[..st.injected] == inputs;
    } else {
      assert HasSource(g, s);
      var t: nat, i: nat :| HasEdge(g, t, i, s);
      assert !Enabled(g, inputs, st, Forward(t)) && !Enabled(g, inputs, st, Finish(t));
      if t != x {
        HandledBy(g, depth, inputs, st, x, m, t);
      }
      assert m in Forwarded(st, t, i);
    }
  }

  /** And what it has handled it has forwarded. */
  lemma ForwardedBy(g: Graph, depth: seq<nat>, inputs: seq<Message>, st: State, x: nat, m: Message,
                    s: nat, i: nat, c: nat)
    requires Acyclic(g, depth) && Shaped(g, st) && Arrived(g, inputs, st) && StuckBut(g, inputs, st, x)
    requires m in inputs && x < g.Size() && s != x && HasEdge(g, s, i, c)
    requires depth[s] <= depth[x] || m in st.handled[x] || g.children[x] == []
    ensures m in Forwarded(st, s, i)
    ensures if c == x then m in st.handled[c] || m in st.queue[c] else m in st.handled[c]
  {
    HandledBy(g, depth, inputs, st, x, m, s);
    assert !Enabled(g, inputs, st, Forward(s)) && !Enabled(g, inputs, st, Finish(s)) && !Enabled(g, inputs, st, Pop(s));
    assert !Enabled(g, inputs, st, Forward(c)) && !Enabled(g, inputs, st, Finish(c));
    assert c != x ==> !Enabled(g, inputs, st, Pop(c));
  }

  lemma LastStep(g: Graph, inputs: seq<Message>, start: seq<Event>, es: seq<Event>)
    requires g.Wired() && es != [] && Exec(g, inputs, start + es).Some?
    ensures var front, e := start + es[..|es| - 1], es[|es| - 1];
            && e in es && Exec(g, inputs, front).Some? && Enabled(g, inputs, Exec(g, inputs, front).value, e)
            && Exec(g, inputs, start + es) == Some(Next(g, inputs, Exec(g, inputs, front).value, e))
  {
    assert (start + es)[..|start + es| - 1] == start + es[..|es| - 1];
  }

  /** While `x` takes no message it handles nothing new, and what it is given stays in its queue. */
  lemma {:induction false} Untaken(g: Graph, inputs: seq<Message>, start: seq<Event>, es: seq<Event>, x: nat)
    requires g.Wired() && x < g.Size() && Exec(g, inputs, start).Some? && Pop(x) !in es
    requires Exec(g, inputs, start + es).Some?
    ensures var st0, st := Exec(g, inputs, start).value, Exec(g, inputs, start + es).value;
            && st.handled[x] == st0.handled[x]
            && forall s, m | 0 <= s < g.Size() && m in st0.handled[s] :: m in st.handled[s]
  {
    if es == [] {
      assert start + es == start;
    } else {
      var front := es[..|es| - 1];
      LastStep(g, inputs, start, es);
      Untaken(g, inputs, start, front, x);
    }
  }

  lemma NothingTaken(g: Graph, inputs: seq<Message>, es: seq<Event>, x: nat)
    requires g.Wired() && x < g.Size() && Pop(x) !in es && Exec(g, inputs, es).Some?
    ensures Exec(g, inputs, es).value.handled[x] == []
  {
    assert [] + es == es;
    assert Exec(g, inputs, []) == Some(Init(g));
    Untaken(g, inputs, [], es, x);
  }

  /** If meanwhile another stage starts from nothing, whatever that one forwards to `x` waits in the queue of `x`. */
  lemma {:induction false} PilesUp(g: Graph, inputs: seq<Message>, start: seq<Event>, es: seq<Event>,
                                   x: nat, s: nat, i: nat)
    requires g.Wired() && x < g.Size() && HasEdge(g, s, i, x) && Pop(x) !in es
    requires Exec(g, inputs, start).Some? && Exec(g, inputs, start + es).Some?
    requires Exec(g, inputs, start).value.handled[s] == []
    ensures AllQueued(Exec(g, inputs, start + es).value, s, i, x)
  {
    hide Exec, Next, Enabled;
    if es == [] {
      assert start + es == start;
    } else {
      var front, e := es[..|es| - 1], es[|es| - 1];
      LastStep(g, inputs, start, es);
      PilesUp(g, inputs, start, front, x, s, i);
      QueuedNext(g, inputs, Exec(g, inputs, start + front).value, e, s, i, x);
    }
  }

  ghost predicate AllQueued(st: State, s: nat, i: nat, x: nat)
    requires s < |st.handled| == |st.busy| && x < |st.queue|
    requires st.busy[s].Forwarding? ==> st.handled[s] != []
  {
    forall m | m in Forwarded(st, s, i) :: m in st.queue[x]
  }

  lemma QueuedNext(g: Graph, inputs: seq<Message>, st: State, e: Event, s: nat, i: nat, x: nat)
    requires g.Wired() && Shaped(g, st) && Enabled(g, inputs, st, e) && e != Pop(x)
    requires x < g.Size() && HasEdge(g, s, i, x)
    requires AllQueued(st, s, i, x)
    ensures AllQueued(Next(g, inputs, st, e), s, i, x)
  {
    var st' := Next(g, inputs, st, e);
    forall m | m in Forwarded(st', s, i)
      ensures m in st'.queue[x]
    {
      ForwardedAfter(g, inputs, st, e, s, i, m);
      StaysThere(g, inputs, st, e, x, m);
    }
  }

  // ----- joins -----

  lemma PendingInQueue(g: Graph, st: State, s: nat)
    requires g.Wired() && Shaped(g, st) && s < g.Size() && Line(0) in st.queue[s]
    ensures LinePending(g, st)
  {
    var k :| 0 <= k < |st.queue[s]| && st.queue[s][k] == Line(0);
    assert st.queue[s][k].Line?;
  }

  /** Everything but the later parent has run dry: the join has handled the pill, and the later parent has a line
      waiting. */
  lemma EarlyBranch(g: Graph, depth: seq<nat>, st: State, s: nat, i: nat, t: nat, c: nat)
    requires Acyclic(g, depth) && HasEdge(g, s, i, c) && s != t && t < g.Size() && depth[s] <= depth[t] < depth[c]
    requires Shaped(g, st) && Arrived(g, [Line(0), Pill(0)], st) && StuckBut(g, [Line(0), Pill(0)], st, t)
    requires st.handled[t] == []
    ensures Line(0) in st.queue[t] && Pill(0) in st.handled[c]
  {
    hide StuckBut, Arrived;
    var inputs := [Line(0), Pill(0)];
    ForwardedBy(g, depth, inputs, st, t, Pill(0), s, i, c);
    if t == g.root {
      RootIsFirst(g, depth, s);
    } else {
      assert HasSource(g, t);
      var u: nat, j: nat :| HasEdge(g, u, j, t);
      ForwardedBy(g, depth, inputs, st, t, Line(0), u, j, t);
    }
  }

  /** Then the later parent and everything but the join run dry: every stage has counted the pill, and the join has yet
      to take the line of the later parent. */
  lemma LateBranch(g: Graph, depth: seq<nat>, st: State, t: nat, j: nat, c: nat)
    requires Acyclic(g, depth) && HasEdge(g, t, j, c) && c < g.Size()
    requires Shaped(g, st) && Arrived(g, [Line(0), Pill(0)], st) && Counted(g, st)
    requires StuckBut(g, [Line(0), Pill(0)], st, c)
    requires Pill(0) in st.handled[c] && AllQueued(st, t, j, c)
    ensures Stopped([Line(0), Pill(0)], st) && LinePending(g, st)
  {
    hide StuckBut, Arrived;
    var inputs := [Line(0), Pill(0)];
    forall s | 0 <= s < g.Size()
      ensures Pill(0) in st.handled[s]
    {
      if s != c {
        HandledBy(g, depth, inputs, st, c, Pill(0), s);
      }
    }
    AllBegun(g, st, 0);
    ForwardedBy(g, depth, inputs, st, c, Line(0), t, j, c);
    PendingInQueue(g, st, c);
  }

  /** Where two branches join, a run in which the callback fires too early. */
  lemma JoinStopsEarly(g: Graph, depth: seq<nat>, s: nat, i: nat, t: nat, j: nat, c: nat)
    requires Acyclic(g, depth) && HasEdge(g, s, i, c) && HasEdge(g, t, j, c) && s != t && depth[s] <= depth[t]
    ensures !StopsAfterAllLines(g)
  {
    var inputs := [Line(0), Pill(0)];
    assert PillLast(inputs);
    assert Exec(g, inputs, [] + []).Some?;
    var early := RunOn(g, depth, inputs, [], [], t);
    assert [] + early == early;
    RunKeepsArrived(g, inputs, early);
    NothingTaken(g, inputs, early, t);
    var st := Exec(g, inputs, early).value;
    EarlyBranch(g, depth, st, s, i, t, c);
    PendingInQueue(g, st, t);
    if !Stopped(inputs, st) {
      LaterStop(g, depth, inputs, early, t, j, c);
    }
  }

  lemma LaterStop(g: Graph, depth: seq<nat>, inputs: seq<Message>, early: seq<Event>, t: nat, j: nat, c: nat)
    requires Acyclic(g, depth) && HasEdge(g, t, j, c) && inputs == [Line(0), Pill(0)] && Exec(g, inputs, early).Some?
    requires var st := Exec(g, inputs, early).value; st.handled[t] == [] && Pill(0) in st.handled[c]
    ensures !StopsAfterAllLines(g)
  {
    assert early + [] == early;
    var late := RunOn(g, depth, inputs, early, [], c);
    Untaken(g, inputs, early, late, c);
    PilesUp(g, inputs, early, late, c, t, j);
    RunKeepsArrived(g, inputs, early + late);
    LateBranch(g, depth, Exec(g, inputs, early + late).value, t, j, c);
    assert PillLast(inputs) && Exec(g, inputs, early + late).Some?;
  }

  // ----- two ways from the same stage -----

  lemma PillsAppend(a: seq<Message>, b: seq<Message>, id: nat)
    ensures Pills(a + b, id) == Pills(a, id) + Pills(b, id)
  {
  }

  /** As many pills have come to `c` as were sent there in both ways. */
  ghost predicate BothArrived(g: Graph, st: State, s: nat, i: nat, j: nat, c: nat)
    requires g.Wired() && Shaped(g, st) && s < g.Size() && c < g.Size()
  {
    Pills(st.handled[c] + st.queue[c], 0) >= Pills(Forwarded(st, s, i), 0) + Pills(Forwarded(st, s, j), 0)
  }

  lemma NextKeepsBoth(g: Graph, inputs: seq<Message>, st: State, e: Event, s: nat, i: nat, j: nat, c: nat)
    requires g.Wired() && Shaped(g, st) && Enabled(g, inputs, st, e) && c < g.Size()
    requires HasEdge(g, s, i, c) && HasEdge(g, s, j, c) && i != j && BothArrived(g, st, s, i, j, c)
    ensures BothArrived(g, Next(g, inputs, st, e), s, i, j, c)
  {
    hide Forwarded, Pills;
    ArrivesNext(g, inputs, st, e, c);
    ForwardedNext(g, inputs, st, e, s, i);
    ForwardedNext(g, inputs, st, e, s, j);
    var at := st.handled[c] + st.queue[c];
    if e == Forward(s) {
      var m := [st.busy[s].m];
      PillsAppend(at, m, 0);
      PillsAppend(Forwarded(st, s, i), m, 0);
      PillsAppend(Forwarded(st, s, j), m, 0);
    } else {
      var st' := Next(g, inputs, st, e);
      var more := (st'.handled[c] + st'.queue[c])[|at|..];
      assert st'.handled[c] + st'.queue[c] == at + more;
      PillsAppend(at, more, 0);
    }
    assert Forwarded(st, s, i) + [] == Forwarded(st, s, i) && Forwarded(st, s, j) + [] == Forwarded(st, s, j);
  }

  lemma {:induction false} RunKeepsBoth(g: Graph, inputs: seq<Message>, es: seq<Event>, s: nat, i: nat, j: nat, c: nat)
    requires g.Wired() && Exec(g, inputs, es).Some? && c < g.Size()
    requires HasEdge(g, s, i, c) && HasEdge(g, s, j, c) && i != j
    ensures BothArrived(g, Exec(g, inputs, es).value, s, i, j, c)
  {
    if es != [] {
      hide BothArrived;
      RunKeepsBoth(g, inputs, es[..|es| - 1], s, i, j, c);
      NextKeepsBoth(g, inputs, Exec(g, inputs, es[..|es| - 1]).value, es[|es| - 1], s, i, j, c);
    }
  }

  /** A stage with two pills makes up for one with none. */
  lemma CountedTwice(g: Graph, st: State, c: nat, z: nat)
    requires g.Wired() && Shaped(g, st) && PillsCounted(g, st) && c < g.Size() && z < g.Size() && c != z
    requires Pills(st.handled[c], 0) >= 2
    requires forall s | 0 <= s < g.Size() && s != z :: Pill(0) in st.handled[s]
    ensures Count(st.fired, 0) == 1
  {
    hide Pills;
    var ones := seq(g.Size(), _ => 1);
    forall s | 0 <= s < g.Size()
      ensures PillCounts(st.handled, 0)[s] >= ones[z := 0][c := 2][s]
    {
      NoPills(st.handled[s], 0);
    }
    SumOfBits(ones);
    SumUpdate(ones, z, 0);
    SumUpdate(ones[z := 0], c, 2);
    SumMonotone(ones[z := 0][c := 2], PillCounts(st.handled, 0));
    assert CountOf(st.count, 0) >= g.Size();
  }

  lemma {:induction false} RootFeeds(g: Graph, depth: seq<nat>, c: nat)
    requires Acyclic(g, depth) && c < g.Size() && c != g.root
    ensures g.children[g.root] != []
    decreases depth[c]
  {
    assert HasSource(g, c);
    var s: nat, i: nat :| HasEdge(g, s, i, c);
    if s != g.root {
      RootFeeds(g, depth, s);
    }
  }

  lemma NoEdgeToRoot(g: Graph, depth: seq<nat>, s: nat, i: nat, c: nat)
    requires Acyclic(g, depth) && HasEdge(g, s, i, c)
    ensures c < g.Size() && c != g.root
  {
    if s != g.root {
      RootIsFirst(g, depth, s);
    }
  }

  /** A leaf is held up; all others have run dry, and one of them has counted the pill twice. */
  lemma TwiceAndNever(g: Graph, depth: seq<nat>, st: State, s: nat, i: nat, j: nat, c: nat, z: nat)
    requires Acyclic(g, depth) && HasEdge(g, s, i, c) && HasEdge(g, s, j, c) && c < g.Size()
    requires z < g.Size() && g.children[z] == [] && z != c && z != g.root
    requires Shaped(g, st) && Arrived(g, [Line(0), Pill(0)], st) && PillsCounted(g, st)
    requires StuckBut(g, [Line(0), Pill(0)], st, z) && st.handled[z] == [] && BothArrived(g, st, s, i, j, c)
    ensures Stopped([Line(0), Pill(0)], st) && LinePending(g, st)
  {
    hide StuckBut, Arrived, Pills;
    var inputs := [Line(0), Pill(0)];
    forall u | 0 <= u < g.Size() && u != z
      ensures Pill(0) in st.handled[u]
    {
      HandledBy(g, depth, inputs, st, z, Pill(0), u);
    }
    ForwardedBy(g, depth, inputs, st, z, Pill(0), s, i, c);
    ForwardedBy(g, depth, inputs, st, z, Pill(0), s, j, c);
    NoPills(Forwarded(st, s, i), 0);
    NoPills(Forwarded(st, s, j), 0);
    QueueEmpty(g, inputs, st, z, c);
    assert st.handled[c] + st.queue[c] == st.handled[c];
    CountedTwice(g, st, c, z);
    assert HasSource(g, z);
    var u: nat, k: nat :| HasEdge(g, u, k, z);
    ForwardedBy(g, depth, inputs, st, z, Line(0), u, k, z);
    PendingInQueue(g, st, z);
  }

  lemma QueueEmpty(g: Graph, inputs: seq<Message>, st: State, x: nat, c: nat)
    requires g.Wired() && Shaped(g, st) && StuckBut(g, inputs, st, x) && c < g.Size() && c != x
    ensures st.queue[c] == []
  {
    assert !Enabled(g, inputs, st, Pop(c)) && !Enabled(g, inputs, st, Forward(c)) && !Enabled(g, inputs, st, Finish(c));
  }

  /** Where a stage forwards twice to the same one and there is a leaf elsewhere, a run in which the callback fires too
      early. */
  lemma DoubleStopsEarly(g: Graph, depth: seq<nat>, s: nat, i: nat, j: nat, c: nat, z: nat)
    requires Acyclic(g, depth) && HasEdge(g, s, i, c) && HasEdge(g, s, j, c) && i != j
    requires z < g.Size() && g.children[z] == [] && z != c
    ensures !StopsAfterAllLines(g)
  {
    var inputs := [Line(0), Pill(0)];
    NoEdgeToRoot(g, depth, s, i, c);
    RootFeeds(g, depth, c);
    assert PillLast(inputs);
    assert Exec(g, inputs, [] + []).Some?;
    var es := RunOn(g, depth, inputs, [], [], z);
    assert [] + es == es;
    RunKeepsArrived(g, inputs, es);
    NothingTaken(g, inputs, es, z);
    RunKeepsBoth(g, inputs, es, s, i, j, c);
    TwiceAndNever(g, depth, Exec(g, inputs, es).value, s, i, j, c, z);
  }

  // ----- orderly graphs -----

  /** No line comes after a pill. */
  predicate LinesFirst(ms: seq<Message>)
  {
    forall a, b | 0 <= a < b < |ms| && ms[a].Pill? :: ms[b].Pill?
  }

  /** All that is at a stage has been handled by the one stage it comes from, and at the root it is the inputs. */
  ghost predicate FromAbove(g: Graph, inputs: seq<Message>, st: State)
    requires g.Wired() && Shaped(g, st)
  {
    && st.injected <= |inputs| && st.handled[g.root] + st.queue[g.root] == inputs[..st.injected]
    && forall s: nat, i: nat, c: nat, m | HasEdge(g, s, i, c) && m in st.handled[c] + st.queue[c] :: m in st.handled[s]
  }

  ghost predicate AllLinesFirst(g: Graph, st: State)
    requires g.Wired() && Shaped(g, st)
  {
    forall c | 0 <= c < g.Size() :: LinesFirst(st.handled[c] + st.queue[c])
  }

  /** What comes in one way only is what is forwarded that way. */
  ghost predicate ExactlyForwarded(g: Graph, st: State)
    requires g.Wired() && Shaped(g, st)
  {
    forall s: nat, i: nat, c: nat | HasEdge(g, s, i, c) && !Joined(g, c) ::
      st.handled[c] + st.queue[c] == Forwarded(st, s, i)
  }

  lemma NextKeepsFromAbove(g: Graph, depth: seq<nat>, inputs: seq<Message>, st: State, e: Event)
    requires Acyclic(g, depth) && OneParent(g) && Shaped(g, st) && FromAbove(g, inputs, st) && Enabled(g, inputs, st, e)
    ensures FromAbove(g, inputs, Next(g, inputs, st, e))
  {
    var st' := Next(g, inputs, st, e);
    forall s: nat, i: nat, c: nat, m | HasEdge(g, s, i, c) && m in st'.handled[c] + st'.queue[c]
      ensures m in st'.handled[s]
    {
      NoEdgeToRoot(g, depth, s, i, c);
      ArrivesNext(g, inputs, st, e, c);
      StaysThere(g, inputs, st, e, s, m);
      if e.Forward? && c == g.children[e.s][st.busy[e.s].k] {
        assert HasEdge(g, e.s, st.busy[e.s].k, c);
      }
    }
    ArrivesNext(g, inputs, st, e, g.root);
    if e.Forward? {
      assert HasEdge(g, e.s, st.busy[e.s].k, g.children[e.s][st.busy[e.s].k]);
      NoEdgeToRoot(g, depth, e.s, st.busy[e.s].k, g.children[e.s][st.busy[e.s].k]);
    }
  }

  lemma LinesFirstPrefix(a: seq<Message>, b: seq<Message>)
    requires LinesFirst(a + b)
    ensures LinesFirst(a)
  {
    forall i, j | 0 <= i < j < |a| && a[i].Pill?
      ensures a[j].Pill?
    {
      assert (a + b)[i] == a[i] && (a + b)[j] == a[j];
    }
  }

  lemma ForwardKeepsLinesFirst(g: Graph, inputs: seq<Message>, st: State, s: nat)
    requires g.Wired() && Shaped(g, st) && FromAbove(g, inputs, st) && AllLinesFirst(g, st)
    requires Enabled(g, inputs, st, Forward(s))
    ensures var c := g.children[s][st.busy[s].k]; LinesFirst(st.handled[c] + st.queue[c] + [st.busy[s].m])
  {
    var k, m := st.busy[s].k, st.busy[s].m;
    var c := g.children[s][k];
    assert HasEdge(g, s, k, c);
    LinesFirstPrefix(st.handled[s], st.queue[s]);
    var at := st.handled[c] + st.queue[c];
    assert LinesFirst(at);
    forall a | 0 <= a < |at| && at[a].Pill?
      ensures m.Pill?
    {
      assert at[a] in at;
      var b :| 0 <= b < |st.handled[s]| && st.handled[s][b] == at[a];
    }
  }

  lemma NextKeepsLinesFirst(g: Graph, depth: seq<nat>, inputs: seq<Message>, st: State, e: Event)
    requires Acyclic(g, depth) && OneParent(g) && PillLast(inputs) && Shaped(g, st) && Enabled(g, inputs, st, e)
    requires FromAbove(g, inputs, st) && AllLinesFirst(g, st)
    ensures AllLinesFirst(g, Next(g, inputs, st, e))
  {
    NextKeepsFromAbove(g, depth, inputs, st, e);
    var st' := Next(g, inputs, st, e);
    forall c | 0 <= c < g.Size()
      ensures LinesFirst(st'.handled[c] + st'.queue[c])
    {
      ArrivesNext(g, inputs, st, e, c);
      assert LinesFirst(st.handled[c] + st.queue[c]);
      if e.Forward? && c == g.children[e.s][st.busy[e.s].k] {
        ForwardKeepsLinesFirst(g, inputs, st, e.s);
      }
    }
  }

  lemma NextKeepsExactly(g: Graph, depth: seq<nat>, inputs: seq<Message>, st: State, e: Event)
    requires Acyclic(g, depth) && Shaped(g, st) && ExactlyForwarded(g, st) && Enabled(g, inputs, st, e)
    ensures ExactlyForwarded(g, Next(g, inputs, st, e))
  {
    hide Forwarded;
    var st' := Next(g, inputs, st, e);
    forall s: nat, i: nat, c: nat | HasEdge(g, s, i, c) && !Joined(g, c)
      ensures st'.handled[c] + st'.queue[c] == Forwarded(st', s, i)
    {
      NoEdgeToRoot(g, depth, s, i, c);
      ArrivesNext(g, inputs, st, e, c);
      ForwardedNext(g, inputs, st, e, s, i);
      if e.Forward? && c == g.children[e.s][st.busy[e.s].k] {
        assert HasEdge(g, e.s, st.busy[e.s].k, c);
      }
    }
  }

  lemma {:induction false} RunKeepsOrderly(g: Graph, depth: seq<nat>, inputs: seq<Message>, es: seq<Event>)
    requires Acyclic(g, depth) && OneParent(g) && PillLast(inputs) && Exec(g, inputs, es).Some?
    ensures var st := Exec(g, inputs, es).value;
            FromAbove(g, inputs, st) && AllLinesFirst(g, st) && ExactlyForwarded(g, st) && Counted(g, st)
  {
    if es == [] {
      CountedAtFirst(g);
    } else {
      hide FromAbove, AllLinesFirst, ExactlyForwarded, Counted, Acyclic, OneParent;
      var front, e := es[..|es| - 1], es[|es| - 1];
      RunKeepsOrderly(g, depth, inputs, front);
      var st := Exec(g, inputs, front).value;
      NextKeepsFromAbove(g, depth, inputs, st, e);
      NextKeepsLinesFirst(g, depth, inputs, st, e);
      NextKeepsExactly(g, depth, inputs, st, e);
      NextKeepsCounted(g, inputs, st, e);
    }
  }

  /** Some leaf lies below every stage. */
  lemma {:induction false} LeafBelow(g: Graph, depth: seq<nat>, s: nat) returns (z: nat)
    requires Acyclic(g, depth) && s < g.Size()
    ensures z < g.Size() && g.children[z] == [] && depth[s] <= depth[z]
    decreases g.Size() - depth[s]
  {
    if g.children[s] == [] {
      z := s;
    } else {
      assert HasEdge(g, s, 0, g.children[s][0]);
      z := LeafBelow(g, depth, g.children[s][0]);
    }
  }

  lemma JoinedIsLeaf(g: Graph, depth: seq<nat>, c: nat)
    requires Acyclic(g, depth) && Orderly(g) && c < g.Size() && Joined(g, c)
    ensures g.children[c] == []
  {
    if g.children[c] != [] {
      assert HasEdge(g, c, 0, g.children[c][0]);
      var z := LeafBelow(g, depth, g.children[c][0]);
    }
  }

  lemma {:induction false} PillsOfInputs(inputs: seq<Message>, n: nat)
    requires PillLast(inputs) && n <= |inputs|
    ensures Pills(inputs[..n], inputs[|inputs| - 1].id) <= if n == |inputs| then 1 else 0
  {
    if n != 0 {
      PillsOfInputs(inputs, n - 1);
      assert inputs[..n] == inputs[..n - 1] + [inputs[n - 1]];
    }
  }

  lemma PillsOfPrefix(a: seq<Message>, b: seq<Message>, id: nat)
    ensures Pills(a, id) <= Pills(a + b, id)
  {
    PillsAppend(a, b, id);
  }

  /** A stage to which there is but one way gets the pill once. */
  lemma {:induction false} AtMostOnce(g: Graph, depth: seq<nat>, inputs: seq<Message>, st: State, c: nat)
    requires Acyclic(g, depth) && Orderly(g) && PillLast(inputs) && Shaped(g, st) && c < g.Size() && !Joined(g, c)
    requires FromAbove(g, inputs, st) && ExactlyForwarded(g, st)
    ensures Pills(st.handled[c] + st.queue[c], inputs[|inputs| - 1].id) <= 1
    decreases depth[c]
  {
    var id := inputs[|inputs| - 1].id;
    if c == g.root {
      PillsOfInputs(inputs, st.injected);
    } else {
      assert HasSource(g, c);
      var s: nat, i: nat :| HasEdge(g, s, i, c);
      if Joined(g, s) {
        JoinedIsLeaf(g, depth, s);
      }
      AtMostOnce(g, depth, inputs, st, s);
      PillsOfPrefix(st.handled[s], st.queue[s], id);
      ForwardedIsPrefix(st, s, i, id);
    }
  }

  lemma ForwardedIsPrefix(st: State, s: nat, i: nat, id: nat)
    requires s < |st.handled| == |st.busy| && (st.busy[s].Forwarding? ==> st.handled[s] != [])
    ensures Pills(Forwarded(st, s, i), id) <= Pills(st.handled[s], id)
  {
    var h := st.handled[s];
    if h != [] {
      assert h == h[..|h| - 1] + [h[|h| - 1]];
      PillsOfPrefix(h[..|h| - 1], [h[|h| - 1]], id);
    }
  }

  /** If the only leaf has begun the pill, every stage has. */
  lemma {:induction false} AboveTheLeaf(g: Graph, depth: seq<nat>, inputs: seq<Message>, st: State, c: nat, z: nat,
                                        m: Message)
    requires Acyclic(g, depth) && OnlyLeaf(g, c) && Shaped(g, st) && FromAbove(g, inputs, st)
    requires c < g.Size() && z < g.Size() && m in st.handled[c]
    ensures m in st.handled[z]
    decreases g.Size() - depth[z]
  {
    if g.children[z] != [] {
      var d := g.children[z][0];
      assert HasEdge(g, z, 0, d);
      AboveTheLeaf(g, depth, inputs, st, c, d, m);
      assert m in st.handled[d] + st.queue[d];
    }
  }

  /** The callback has not run before every stage has begun the pill. */
  lemma StoppedMeansBegun(g: Graph, depth: seq<nat>, inputs: seq<Message>, st: State, z: nat)
    requires Acyclic(g, depth) && Orderly(g) && PillLast(inputs) && Shaped(g, st) && PillsCounted(g, st)
    requires FromAbove(g, inputs, st) && ExactlyForwarded(g, st) && Stopped(inputs, st) && z < g.Size()
    ensures inputs[|inputs| - 1] in st.handled[z]
  {
    hide Pills;
    var id := inputs[|inputs| - 1].id;
    if Pill(id) !in st.handled[z] {
      forall c | 0 <= c < g.Size()
        ensures PillCounts(st.handled, id)[c] <= 1
      {
        if Joined(g, c) {
          if Pill(id) in st.handled[c] {
            AboveTheLeaf(g, depth, inputs, st, c, z, Pill(id));
          }
          NoPills(st.handled[c], id);
        } else {
          AtMostOnce(g, depth, inputs, st, c);
          PillsOfPrefix(st.handled[c], st.queue[c], id);
        }
      }
      NoPills(st.handled[z], id);
      SumOfBits(PillCounts(st.handled, id));
    }
  }

  lemma OrderlyStopsAfterAllLines(g: Graph, depth: seq<nat>, inputs: seq<Message>, es: seq<Event>)
    requires Acyclic(g, depth) && Orderly(g) && PillLast(inputs) && Exec(g, inputs, es).Some?
    requires Stopped(inputs, Exec(g, inputs, es).value)
    ensures !LinePending(g, Exec(g, inputs, es).value)
  {
    hide Pills, Orderly, OneParent, ExactlyForwarded, FromAbove, PillsCounted, LinesFirst, Exec;
    OrderlyHasOneParent(g);
    var st := Exec(g, inputs, es).value;
    RunKeepsOrderly(g, depth, inputs, es);
    forall s | 0 <= s < g.Size()
      ensures !(st.busy[s].Forwarding? && st.busy[s].m.Line?)
      ensures forall k | 0 <= k < |st.queue[s]| :: st.queue[s][k].Pill?
    {
      StoppedMeansBegun(g, depth, inputs, st, s);
      OnlyPillsLeft(st.handled[s], st.queue[s], inputs[|inputs| - 1]);
    }
  }

  lemma OrderlyHasOneParent(g: Graph)
    requires Orderly(g)
    ensures OneParent(g)
  {
  }

  lemma OnlyPillsLeft(h: seq<Message>, q: seq<Message>, pill: Message)
    requires LinesFirst(h + q) && pill in h && pill.Pill?
    ensures h[|h| - 1].Pill? && forall k | 0 <= k < |q| :: q[k].Pill?
  {
    var a :| 0 <= a < |h| && h[a] == pill;
    assert (h + q)[a] == pill && (h + q)[|h| - 1] == h[|h| - 1];
    forall k | 0 <= k < |q|
      ensures q[k].Pill?
    {
      assert (h + q)[|h| + k] == q[k];
    }
  }

  // ----- the exact condition -----

  /** On any graph without circles, the callback always comes after all lines are done with exactly if no two stages
      forward to the same one, and none forwards twice to the same one, except at the end of a pipeline that is a single
      chain. */
  lemma StopsAfterAllLinesExactly(g: Graph, depth: seq<nat>)
    requires Acyclic(g, depth)
    ensures StopsAfterAllLines(g) <==> Orderly(g)
  {
    if Orderly(g) {
      forall inputs, es |
        PillLast(inputs) && Exec(g, inputs, es).Some? && Stopped(inputs, Exec(g, inputs, es).value)
        ensures !LinePending(g, Exec(g, inputs, es).value)
      {
        OrderlyStopsAfterAllLines(g, depth, inputs, es);
      }
    } else if !OneParent(g) {
      var s: nat, i: nat, t: nat, j: nat, c: nat :| HasEdge(g, s, i, c) && HasEdge(g, t, j, c) && s != t;
      if depth[s] <= depth[t] {
        JoinStopsEarly(g, depth, s, i, t, j, c);
      } else {
        JoinStopsEarly(g, depth, t, j, s, i, c);
      }
    } else {
      var c :| 0 <= c < g.Size() && Joined(g, c) && !OnlyLeaf(g, c);
      var s: nat, i: nat, t: nat, j: nat :| HasEdge(g, s, i, c) && HasEdge(g, t, j, c) && !(s == t && i == j);
      var z :| 0 <= z < g.Size() && g.children[z] == [] && z != c;
      DoubleStopsEarly(g, depth, s, i, j, c, z);
    }
  }

  /** In particular the property holds on every tree. */
  lemma TreesAreOrderly(g: Graph)
    requires g.Wired() && forall c: nat :: !Joined(g, c)
    ensures Orderly(g)
  {
    forall s: nat, i: nat, t: nat, j: nat, c: nat | HasEdge(g, s, i, c) && HasEdge(g, t, j, c)
      ensures s == t
    {
      assert s != t ==> Joined(g, c);
    }
  }
}

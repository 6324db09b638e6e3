/** The shutdown protocol of wield/tests/unit_test/poison_pill/ on any graph of stages (with the fanout of
    wield/adapters/dynamic/FanoutProcessingFunctor.hpp): every stage counts the pill and passes it on, and the count
    that reaches the number of stages stops the application. One thread per stage; queues are first-in first-out. */
module PillFlow {
  import opened Counting

  /** A stage forwards each message to its children one after the other. A stage without children is a leaf. */
  datatype Graph = Graph(root: nat, children: seq<seq<nat>>)
  {
    predicate Wired() {
      && root < |children|
      && forall s, i | 0 <= s < |children| && 0 <= i < |children[s]| :: children[s][i] < |children|
    }

    function Size(): nat { |children| }
  }

  /** A pill is an object with a count and a callback of its own; `id` says which. */
  datatype Message = Line(text: nat) | Pill(id: nat)

  /** `Forwarding(m, k)`: the functor runs on `m` and has dispatched it to the first `k` children. */
  datatype Busy = Waiting | Forwarding(m: Message, k: nat)

  /** `handled`: the messages whose handling a stage has begun. `count`: the count of each pill that has one. `fired`:
      the pills whose callback has run, in that order. */
  datatype State = State(injected: nat, queue: seq<seq<Message>>, handled: seq<seq<Message>>, busy: seq<Busy>,
                         lineCount: seq<nat>, count: map<nat, nat>, fired: seq<nat>)

  datatype Event = Inject | Pop(s: nat) | Forward(s: nat) | Finish(s: nat)

  function Init(g: Graph): State
  {
    var n := g.Size();
    State(0, seq(n, _ => []), seq(n, _ => []), seq(n, _ => Waiting), seq(n, _ => 0), map[], [])
  }

  predicate Shaped(g: Graph, st: State)
    requires g.Wired()
  {
    && |st.queue| == |st.handled| == |st.busy| == |st.lineCount| == g.Size()
    && forall s | 0 <= s < g.Size() && st.busy[s].Forwarding? ::
         st.handled[s] != [] && st.handled[s][|st.handled[s]| - 1] == st.busy[s].m && st.busy[s].k <= |g.children[s]|
  }

  predicate Enabled(g: Graph, inputs: seq<Message>, st: State, e: Event)
    requires g.Wired() && Shaped(g, st)
  {
    match e
    case Inject => st.injected < |inputs|
    case Pop(s) => s < g.Size() && st.busy[s].Waiting? && st.queue[s] != []
    case Forward(s) => s < g.Size() && st.busy[s].Forwarding? && st.busy[s].k < |g.children[s]|
    case Finish(s) => s < g.Size() && st.busy[s].Forwarding? && st.busy[s].k == |g.children[s]|
  }

  function CountOf(count: map<nat, nat>, id: nat): nat
  {
    if id in count then count[id] else 0
  }

  /** `PoisonPill::done`. */
  function Done(g: Graph, st: State, id: nat): (st': State)
    ensures st' == st.(count := st'.count, fired := st'.fired)
  {
    var n := CountOf(st.count, id) + 1;
    st.(count := st.count[id := n], fired := if n == g.Size() then st.fired + [id] else st.fired)
  }

  /** The functor starts on a message: a pill is counted first, and a leaf counts lines. */
  function Begin(g: Graph, st: State, s: nat, m: Message): (st': State)
    requires g.Wired() && Shaped(g, st) && s < g.Size() && st.queue[s] != []
    ensures Shaped(g, st')
  {
    var popped := st.(queue := st.queue[s := st.queue[s][1..]], handled := st.handled[s := st.handled[s] + [m]],
                      busy := st.busy[s := Forwarding(m, 0)]);
    match m
    case Line(_) => if g.children[s] == [] then popped.(lineCount := st.lineCount[s := st.lineCount[s] + 1]) else popped
    case Pill(id) => Done(g, popped, id)
  }

  function Next(g: Graph, inputs: seq<Message>, st: State, e: Event): (st': State)
    requires g.Wired() && Shaped(g, st) && Enabled(g, inputs, st, e)
    ensures Shaped(g, st')
  {
    match e
    case Inject =>
      st.(injected := st.injected + 1, queue := st.queue[g.root := st.queue[g.root] + [inputs[st.injected]]])
    case Pop(s) => Begin(g, st, s, st.queue[s][0])
    case Forward(s) =>
      var c := g.children[s][st.busy[s].k];
      st.(queue := st.queue[c := st.queue[c] + [st.busy[s].m]],
          busy := st.busy[s := Forwarding(st.busy[s].m, st.busy[s].k + 1)])
    case Finish(s) => st.(busy := st.busy[s := Waiting])
  }

  function Exec(g: Graph, inputs: seq<Message>, es: seq<Event>): (r: Option<State>)
    requires g.Wired()
    ensures r.Some? ==> Shaped(g, r.value)
  {
    if es == [] then Some(Init(g)) else
    match Exec(g, inputs, es[..|es| - 1])
    case None => None
    case Some(st) =>
      if Enabled(g, inputs, st, es[|es| - 1]) then Some(Next(g, inputs, st, es[|es| - 1])) else None
  }

  lemma MoveHead(h: seq<Message>, q: seq<Message>)
    requires q != []
    ensures (h + [q[0]]) + q[1..] == h + q
    ensures (h + [q[0]])[..|h|] == h
  {
    assert [q[0]] + q[1..] == q;
  }

  // ----- what gets where -----

  /** What `s` has forwarded to its child in place `i`. */
  function Forwarded(st: State, s: nat, i: nat): seq<Message>
    requires s < |st.handled| == |st.busy|
    requires st.busy[s].Forwarding? ==> st.handled[s] != []
  {
    if st.busy[s].Forwarding? && i >= st.busy[s].k then st.handled[s][..|st.handled[s]| - 1] else st.handled[s]
  }

  /** What is at a stage, in order, and what a step adds to it. */
  lemma ArrivesNext(g: Graph, inputs: seq<Message>, st: State, e: Event, c: nat)
    requires g.Wired() && Shaped(g, st) && Enabled(g, inputs, st, e) && c < g.Size()
    ensures var st' := Next(g, inputs, st, e);
            st'.handled[c] + st'.queue[c] == st.handled[c] + st.queue[c]
            + match e
              case Inject => if c == g.root then [inputs[st.injected]] else []
              case Forward(s) => if c == g.children[s][st.busy[s].k] then [st.busy[s].m] else []
              case _ => []
  {
    if e == Pop(c) {
      MoveHead(st.handled[c], st.queue[c]);
    }
  }

  lemma ForwardedNext(g: Graph, inputs: seq<Message>, st: State, e: Event, s: nat, i: nat)
    requires g.Wired() && Shaped(g, st) && Enabled(g, inputs, st, e) && s < g.Size() && i < |g.children[s]|
    ensures Forwarded(Next(g, inputs, st, e), s, i)
         == Forwarded(st, s, i) + if e == Forward(s) && i == st.busy[s].k then [st.busy[s].m] else []
  {
    if e == Pop(s) {
      BeginsToForward(g, st, s, i);
    } else if e == Forward(s) {
      assert st.handled[s] == st.handled[s][..|st.handled[s]| - 1] + [st.busy[s].m];
    } else {
      NothingForwarded(g, inputs, st, e, s, i);
    }
  }

  /** A message begun is forwarded to nobody yet. */
  lemma BeginsToForward(g: Graph, st: State, s: nat, i: nat)
    requires g.Wired() && Shaped(g, st) && s < g.Size() && i < |g.children[s]|
    requires st.busy[s].Waiting? && st.queue[s] != []
    ensures Forwarded(Begin(g, st, s, st.queue[s][0]), s, i) == Forwarded(st, s, i)
  {
    hide Done;
    MoveHead(st.handled[s], st.queue[s]);
  }

  lemma NothingForwarded(g: Graph, inputs: seq<Message>, st: State, e: Event, s: nat, i: nat)
    requires g.Wired() && Shaped(g, st) && Enabled(g, inputs, st, e) && s < g.Size() && i < |g.children[s]|
    requires e != Pop(s) && e != Forward(s)
    ensures Forwarded(Next(g, inputs, st, e), s, i) == Forwarded(st, s, i)
  {
    hide Done;
  }

  // ----- one message at one stage -----

  function RunFrom(g: Graph, inputs: seq<Message>, st: State, es: seq<Event>): (r: Option<State>)
    requires g.Wired() && Shaped(g, st)
    ensures r.Some? ==> Shaped(g, r.value)
  {
    if es == [] then Some(st) else
    match RunFrom(g, inputs, st, es[..|es| - 1])
    case None => None
    case Some(mid) =>
      if Enabled(g, inputs, mid, es[|es| - 1]) then Some(Next(g, inputs, mid, es[|es| - 1])) else None
  }

  lemma RunOneMore(g: Graph, inputs: seq<Message>, st: State, es: seq<Event>, e: Event)
    requires g.Wired() && Shaped(g, st) && RunFrom(g, inputs, st, es).Some?
    requires Enabled(g, inputs, RunFrom(g, inputs, st, es).value, e)
    ensures RunFrom(g, inputs, st, es + [e]) == Some(Next(g, inputs, RunFrom(g, inputs, st, es).value, e))
  {
    assert (es + [e])[..|es|] == es;
  }

  /** The queues with `m` at the end of each of these, as often as it is listed. */
  ghost predicate Given(before: seq<seq<Message>>, after: seq<seq<Message>>, m: Message, stages: seq<nat>)
  {
    |after| == |before| && forall c | 0 <= c < |before| :: after[c] == before[c] + seq(Count(stages, c), _ => m)
  }

  lemma GivenOneMore(before: seq<seq<Message>>, after: seq<seq<Message>>, m: Message, stages: seq<nat>, c: nat)
    requires Given(before, after, m, stages) && c < |before|
    ensures Given(before, after[c := after[c] + [m]], m, stages + [c])
  {
    forall d | 0 <= d < |before|
      ensures after[c := after[c] + [m]][d] == before[d] + seq(Count(stages + [c], d), _ => m)
    {
      if d == c {
        assert seq(Count(stages, c) + 1, _ => m) == seq(Count(stages, c), _ => m) + [m];
      }
    }
  }

  /** The fan-out goes through the children in order: after `j` dispatches the first `j` have the message. */
  lemma {:induction false} ForwardsInOrder(g: Graph, inputs: seq<Message>, st: State, s: nat, m: Message, j: nat)
    requires g.Wired() && Shaped(g, st) && s < g.Size() && st.busy[s] == Forwarding(m, 0) && j <= |g.children[s]|
    ensures var r := RunFrom(g, inputs, st, seq(j, _ => Forward(s)));
            && r.Some? && Given(st.queue, r.value.queue, m, g.children[s][..j])
            && r.value == st.(queue := r.value.queue, busy := st.busy[s := Forwarding(m, j)])
  {
    if j == 0 {
      assert st.busy[s := Forwarding(m, 0)] == st.busy;
    } else {
      ForwardsInOrder(g, inputs, st, s, m, j - 1);
      var es := seq(j - 1, _ => Forward(s));
      var mid := RunFrom(g, inputs, st, es).value;
      RunOneMore(g, inputs, st, es, Forward(s));
      assert es + [Forward(s)] == seq(j, _ => Forward(s));
      GivenOneMore(st.queue, mid.queue, m, g.children[s][..j - 1], g.children[s][j - 1]);
      assert g.children[s][..j] == g.children[s][..j - 1] + [g.children[s][j - 1]];
    }
  }

  /** A stage that begins a message can go on to its end by itself: then it waits again, every child has the message,
      and nothing else has changed but what the functor counts. */
  lemma OneMessageHandled(g: Graph, inputs: seq<Message>, st: State, s: nat)
    requires g.Wired() && Shaped(g, st) && Enabled(g, inputs, st, Pop(s))
    ensures var m, begun := st.queue[s][0], Next(g, inputs, st, Pop(s));
            var r := RunFrom(g, inputs, begun, seq(|g.children[s]|, _ => Forward(s)) + [Finish(s)]);
            && begun.handled == st.handled[s := st.handled[s] + [m]] && begun.queue == st.queue[s := st.queue[s][1..]]
            && r.Some? && Given(begun.queue, r.value.queue, m, g.children[s])
            && r.value == begun.(queue := r.value.queue, busy := st.busy[s := Waiting])
  {
    var m, begun := st.queue[s][0], Next(g, inputs, st, Pop(s));
    ForwardsInOrder(g, inputs, begun, s, m, |g.children[s]|);
    RunOneMore(g, inputs, begun, seq(|g.children[s]|, _ => Forward(s)), Finish(s));
    assert g.children[s][..|g.children[s]|] == g.children[s];
    assert begun.busy[s := Forwarding(m, |g.children[s]|)][s := Waiting] == st.busy[s := Waiting];
  }

  // ----- every stage counts every pill once -----

  function Pills(ms: seq<Message>, id: nat): nat
  {
    multiset(ms)[Pill(id)]
  }

  function Lines(ms: seq<Message>): nat
  {
    |LinesAt(ms)|
  }

  /** The positions of the lines. */
  function LinesAt(ms: seq<Message>): set<nat>
  {
    set i: nat | i < |ms| && ms[i].Line?
  }

  function PillCounts(handled: seq<seq<Message>>, id: nat): (counts: seq<nat>)
    ensures |counts| == |handled| && forall s | 0 <= s < |handled| :: counts[s] == Pills(handled[s], id)
  {
    seq(|handled|, s requires 0 <= s < |handled| => Pills(handled[s], id))
  }

  /** Each pill's count is how often the stages have begun it, and its callback has run, and just once, if that has
      reached the number of stages. */
  ghost predicate PillsCounted(g: Graph, st: State)
  {
    forall id: nat ::
      && CountOf(st.count, id) == Sum(PillCounts(st.handled, id))
      && Count(st.fired, id) == if CountOf(st.count, id) >= g.Size() then 1 else 0
  }

  ghost predicate Counted(g: Graph, st: State)
    requires g.Wired() && Shaped(g, st)
  {
    && PillsCounted(g, st)
    && forall s | 0 <= s < g.Size() :: st.lineCount[s] == if g.children[s] == [] then Lines(st.handled[s]) else 0
  }

  lemma CountedAtFirst(g: Graph)
    requires g.Wired()
    ensures Counted(g, Init(g))
  {
    SumZero(g.Size());
    forall id: nat
      ensures PillCounts(Init(g).handled, id) == seq(g.Size(), _ => 0)
    {
    }
  }

  lemma OneMoreHandled(h: seq<Message>, m: Message, id: nat)
    ensures Pills(h + [m], id) == Pills(h, id) + if m == Pill(id) then 1 else 0
    ensures Lines(h + [m]) == Lines(h) + if m.Line? then 1 else 0
  {
    assert LinesAt(h + [m]) == LinesAt(h) + if m.Line? then {|h|} else {};
  }

  lemma PillCountsAfterBegin(handled: seq<seq<Message>>, s: nat, m: Message, id: nat)
    requires s < |handled|
    ensures Sum(PillCounts(handled[s := handled[s] + [m]], id))
         == Sum(PillCounts(handled, id)) + if m == Pill(id) then 1 else 0
  {
    hide Pills, PillCounts;
    OneMoreHandled(handled[s], m, id);
    PillCountsUpdate(handled, s, handled[s] + [m], id);
    SumUpdate(PillCounts(handled, id), s, Pills(handled[s] + [m], id));
  }

  lemma PillCountsUpdate(handled: seq<seq<Message>>, s: nat, h: seq<Message>, id: nat)
    requires s < |handled|
    ensures PillCounts(handled[s := h], id) == PillCounts(handled, id)[s := Pills(h, id)]
  {
    hide Pills;
  }

  lemma DoneCounts(g: Graph, st: State, done: nat, id: nat)
    requires g.Size() > 0
    requires Count(st.fired, id) == if CountOf(st.count, id) >= g.Size() then 1 else 0
    ensures var st' := Done(g, st, done);
            && CountOf(st'.count, id) == CountOf(st.count, id) + (if id == done then 1 else 0)
            && Count(st'.fired, id) == if CountOf(st'.count, id) >= g.Size() then 1 else 0
  {
  }

  lemma BeginKeepsPillsCounted(g: Graph, st: State, s: nat, m: Message)
    requires g.Wired() && Shaped(g, st) && PillsCounted(g, st) && s < g.Size() && st.queue[s] != []
    ensures PillsCounted(g, Begin(g, st, s, m))
  {
    hide Pills, Done, CountOf;
    forall id: nat
      ensures var st' := Begin(g, st, s, m);
              && CountOf(st'.count, id) == Sum(PillCounts(st'.handled, id))
              && Count(st'.fired, id) == if CountOf(st'.count, id) >= g.Size() then 1 else 0
    {
      PillCountsAfterBegin(st.handled, s, m, id);
      if m.Pill? {
        DoneCounts(g, st.(queue := st.queue[s := st.queue[s][1..]], handled := st.handled[s := st.handled[s] + [m]],
                          busy := st.busy[s := Forwarding(m, 0)]), m.id, id);
      }
    }
  }

  lemma BeginKeepsCounted(g: Graph, st: State, s: nat, m: Message)
    requires g.Wired() && Shaped(g, st) && Counted(g, st) && s < g.Size() && st.queue[s] != []
    ensures Counted(g, Begin(g, st, s, m))
  {
    hide PillsCounted, Lines, Pills;
    BeginKeepsPillsCounted(g, st, s, m);
    OneMoreHandled(st.handled[s], m, 0);
  }

  lemma OthersKeepCounted(g: Graph, inputs: seq<Message>, st: State, e: Event)
    requires g.Wired() && Shaped(g, st) && Counted(g, st) && Enabled(g, inputs, st, e) && !e.Pop?
    ensures Counted(g, Next(g, inputs, st, e))
  {
    assert Next(g, inputs, st, e).handled == st.handled;
  }

  lemma NextKeepsCounted(g: Graph, inputs: seq<Message>, st: State, e: Event)
    requires g.Wired() && Shaped(g, st) && Counted(g, st) && Enabled(g, inputs, st, e)
    ensures Counted(g, Next(g, inputs, st, e))
  {
    hide Counted;
    if e.Pop? {
      BeginKeepsCounted(g, st, e.s, st.queue[e.s][0]);
    } else {
      OthersKeepCounted(g, inputs, st, e);
    }
  }

  lemma NoPills(ms: seq<Message>, id: nat)
    ensures Pills(ms, id) == 0 <==> Pill(id) !in ms
  {
  }

  /** Once every stage has begun a pill, its callback has run. */
  lemma AllBegun(g: Graph, st: State, id: nat)
    requires g.Wired() && Shaped(g, st) && PillsCounted(g, st)
    requires forall s | 0 <= s < g.Size() :: Pill(id) in st.handled[s]
    ensures Count(st.fired, id) == 1
  {
    hide Pills;
    forall s | 0 <= s < g.Size()
      ensures PillCounts(st.handled, id)[s] >= 1
    {
      NoPills(st.handled[s], id);
    }
    SumOfBits(seq(g.Size(), _ => 1));
    SumMonotone(seq(g.Size(), _ => 1), PillCounts(st.handled, id));
    assert CountOf(st.count, id) >= g.Size();
  }
}

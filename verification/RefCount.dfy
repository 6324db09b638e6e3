/** Reference counts of messages (wield/DispatcherBase.hpp, wield/StageBase.hpp,
    wield/adapters/dynamic/FanoutProcessingFunctor.hpp, wield/adapters/polymorphic/PassThroughStageQueue.hpp,
    wield/adapters/ProcessingFunctorChain.hpp). Functors do not throw. */
module RefCount {
  import opened Counting

  // ----- where the references are -----

  /** How often `m` occurs in all the places together. */
  function Occurrences(places: seq<seq<nat>>, m: nat): nat
  {
    Sum(CountsIn(places, m))
  }

  function CountsIn(places: seq<seq<nat>>, m: nat): (counts: seq<nat>)
    ensures |counts| == |places| && forall i | 0 <= i < |places| :: counts[i] == Count(places[i], m)
  {
    seq(|places|, i requires 0 <= i < |places| => Count(places[i], m))
  }

  lemma OccurrencesUpdate(places: seq<seq<nat>>, i: nat, p: seq<nat>, m: nat)
    requires i < |places|
    ensures Occurrences(places[i := p], m) + Count(places[i], m) == Occurrences(places, m) + Count(p, m)
  {
    assert CountsIn(places[i := p], m) == CountsIn(places, m)[i := Count(p, m)];
    SumUpdate(CountsIn(places, m), i, Count(p, m));
  }

  /** The count of each message is the number of its occurrences, and exactly the messages that occur nowhere are
      freed. */
  ghost predicate Conserved(places: seq<seq<nat>>, count: seq<nat>, freed: seq<bool>)
  {
    && |freed| == |count|
    && (forall i, k | 0 <= i < |places| && 0 <= k < |places[i]| :: places[i][k] < |count|)
    && (forall m | 0 <= m < |count| :: count[m] == Occurrences(places, m) && (freed[m] <==> count[m] == 0))
  }

  lemma PlacedIsLive(places: seq<seq<nat>>, count: seq<nat>, freed: seq<bool>, i: nat, k: nat)
    requires Conserved(places, count, freed) && i < |places| && k < |places[i]|
    ensures places[i][k] < |count| && count[places[i][k]] > 0 && !freed[places[i][k]]
  {
    var m := places[i][k];
    CountPositive(places[i], k);
    SumAtLeast(CountsIn(places, m), i);
  }

  /** One more reference to a live message. */
  lemma AddConserves(places: seq<seq<nat>>, count: seq<nat>, freed: seq<bool>, i: nat, m: nat)
    requires Conserved(places, count, freed) && i < |places| && m < |count| && !freed[m]
    ensures Conserved(places[i := places[i] + [m]], count[m := count[m] + 1], freed)
  {
    var places' := places[i := places[i] + [m]];
    forall x | 0 <= x < |count|
      ensures Occurrences(places', x) == count[m := count[m] + 1][x]
    {
      OccurrencesUpdate(places, i, places[i] + [m], x);
    }
  }

  /** The first reference to a new message. */
  lemma NewConserves(places: seq<seq<nat>>, count: seq<nat>, freed: seq<bool>, i: nat)
    requires Conserved(places, count, freed) && i < |places|
    ensures Conserved(places[i := places[i] + [|count|]], count + [1], freed + [false])
  {
    var n := |count|;
    Unplaced(places, n);
    forall x | 0 <= x <= n
      ensures (count + [1])[x] == Occurrences(places[i := places[i] + [n]], x)
    {
      OccurrencesUpdate(places, i, places[i] + [n], x);
    }
  }

  lemma Unplaced(places: seq<seq<nat>>, n: nat)
    requires forall i, k | 0 <= i < |places| && 0 <= k < |places[i]| :: places[i][k] < n
    ensures Occurrences(places, n) == 0
  {
    SumZero(|places|);
    forall i | 0 <= i < |places|
      ensures Count(places[i], n) == 0
    {
      assert n !in places[i];
    }
    assert CountsIn(places, n) == seq(|places|, _ => 0);
  }

  /** The last reference of a place goes; if it was the last of all, the message is freed. */
  lemma DropConserves(places: seq<seq<nat>>, count: seq<nat>, freed: seq<bool>, i: nat)
    requires Conserved(places, count, freed) && i < |places| && places[i] != []
    ensures var m := places[i][|places[i]| - 1];
            && m < |count| == |freed| && count[m] > 0
            && Conserved(places[i := places[i][..|places[i]| - 1]], count[m := count[m] - 1], freed[m := count[m] == 1])
  {
    var p := places[i];
    var m := p[|p| - 1];
    PlacedIsLive(places, count, freed, i, |p| - 1);
    assert p == p[..|p| - 1] + [m];
    var places' := places[i := p[..|p| - 1]];
    forall x | 0 <= x < |count|
      ensures Occurrences(places', x) == count[m := count[m] - 1][x]
    {
      OccurrencesUpdate(places, i, p[..|p| - 1], x);
    }
  }

  /** A reference moves from the front of one place to the end of another. */
  lemma MoveConserves(places: seq<seq<nat>>, count: seq<nat>, freed: seq<bool>, i: nat, j: nat)
    requires Conserved(places, count, freed) && i < |places| && j < |places| && i != j && places[i] != []
    ensures Conserved(places[i := places[i][1..]][j := places[j] + [places[i][0]]], count, freed)
  {
    var p, m := places[i], places[i][0];
    assert p == [m] + p[1..];
    var places' := places[i := p[1..]];
    assert p[0] < |count|;
    forall x | 0 <= x < |count|
      ensures count[x] == Occurrences(places'[j := places[j] + [m]], x)
    {
      OccurrencesUpdate(places, i, p[1..], x);
      OccurrencesUpdate(places', j, places[j] + [m], x);
    }
  }

  /** A reference moves from the end of one place to the end of another. */
  lemma MoveLastConserves(places: seq<seq<nat>>, count: seq<nat>, freed: seq<bool>, i: nat, j: nat)
    requires Conserved(places, count, freed) && i < |places| && j < |places| && i != j && places[i] != []
    ensures var n := |places[i]| - 1;
            Conserved(places[i := places[i][..n]][j := places[j] + [places[i][n]]], count, freed)
  {
    var p, n := places[i], |places[i]| - 1;
    var m := p[n];
    assert p == p[..n] + [m];
    var places' := places[i := p[..n]];
    assert p[n] < |count|;
    forall x | 0 <= x < |count|
      ensures count[x] == Occurrences(places'[j := places[j] + [m]], x)
    {
      OccurrencesUpdate(places, i, p[..n], x);
      OccurrencesUpdate(places', j, places[j] + [m], x);
    }
  }

  // ----- the message flow -----

  /** `Inline(k)`: pushing runs `k` functors at once (one: PassThroughStageQueue, several: ProcessingFunctorChain). */
  datatype StageKind = Queued | Inline(functors: nat)

  /** What an agent is in the middle of: it holds a smart pointer, runs an inline push with so many functors to go, or
      has raised the count of a message it is about to push to `s`. `Owed`: it has pushed a message whose count it has
      yet to raise, which only happens in the reversed order. */
  datatype Frame = Handle(m: nat) | InlinePush(m: nat, left: nat) | Raised(m: nat, s: nat) | Owed(m: nat)

  datatype State = State(count: seq<nat>, freed: seq<bool>, queues: seq<seq<nat>>, stacks: seq<seq<Frame>>)

  /** `dispatch` raises the count and then pushes. `PushFirst` is what it must not do. */
  datatype Order = CountFirst | PushFirst

  datatype Event =
    | NewMessage(agent: nat)                           // a smart pointer to a new message
    | Raise(agent: nat, frame: nat, s: nat)            // the count of the message of one of the agent's frames
    | RaiseClone(agent: nat, frame: nat, s: nat)       // the count of a new copy of it
    | PushRaised(agent: nat)
    | PushUncounted(agent: nat, frame: nat, s: nat)    // in the reversed order
    | CountLate(agent: nat)                            // in the reversed order
    | Process(agent: nat, s: nat)                      // a worker pops a message; the pointer it makes is not counted
    | RunFunctor(agent: nat)                           // the innermost inline push runs its next functor
    | EndPush(agent: nat)                              // and releases the message after the last one
    | DropHandle(agent: nat)

  function Ids(stack: seq<Frame>): (ids: seq<nat>)
    ensures |ids| == |stack| && forall k | 0 <= k < |stack| :: ids[k] == stack[k].m
  {
    seq(|stack|, k requires 0 <= k < |stack| => stack[k].m)
  }

  /** Every queue and every agent's frames. */
  function Places(queues: seq<seq<nat>>, stacks: seq<seq<Frame>>): (places: seq<seq<nat>>)
    ensures |places| == |queues| + |stacks|
  {
    queues + seq(|stacks|, a requires 0 <= a < |stacks| => Ids(stacks[a]))
  }

  lemma QueuePlace(queues: seq<seq<nat>>, stacks: seq<seq<Frame>>, s: nat, q: seq<nat>)
    requires s < |queues|
    ensures Places(queues, stacks)[s] == queues[s]
    ensures Places(queues[s := q], stacks) == Places(queues, stacks)[s := q]
  {
  }

  lemma StackPlace(queues: seq<seq<nat>>, stacks: seq<seq<Frame>>, a: nat, stack: seq<Frame>)
    requires a < |stacks|
    ensures Places(queues, stacks)[|queues| + a] == Ids(stacks[a])
    ensures Places(queues, stacks[a := stack]) == Places(queues, stacks)[|queues| + a := Ids(stack)]
  {
  }

  lemma PushFrame(queues: seq<seq<nat>>, stacks: seq<seq<Frame>>, a: nat, f: Frame)
    requires a < |stacks|
    ensures var places, i := Places(queues, stacks), |queues| + a;
            Places(queues, stacks[a := stacks[a] + [f]]) == places[i := places[i] + [f.m]]
  {
    StackPlace(queues, stacks, a, stacks[a] + [f]);
    assert Ids(stacks[a] + [f]) == Ids(stacks[a]) + [f.m];
  }

  lemma PopFrame(queues: seq<seq<nat>>, stacks: seq<seq<Frame>>, a: nat)
    requires a < |stacks| && stacks[a] != []
    ensures var places, i, n := Places(queues, stacks), |queues| + a, |stacks[a]| - 1;
            && |places[i]| == n + 1 && places[i][n] == stacks[a][n].m
            && Places(queues, stacks[a := stacks[a][..n]]) == places[i := places[i][..n]]
  {
    var n := |stacks[a]| - 1;
    StackPlace(queues, stacks, a, stacks[a][..n]);
    assert Ids(stacks[a][..n]) == Ids(stacks[a])[..n];
  }

  /** Frames about the same messages are the same place. */
  lemma ReplaceFrame(queues: seq<seq<nat>>, stacks: seq<seq<Frame>>, a: nat, i: nat, f: Frame)
    requires a < |stacks| && i < |stacks[a]| && f.m == stacks[a][i].m
    ensures Places(queues, stacks[a := stacks[a][i := f]]) == Places(queues, stacks)
  {
    StackPlace(queues, stacks, a, stacks[a][i := f]);
    assert Ids(stacks[a][i := f]) == Ids(stacks[a]);
  }

  /** The agent is not between the two halves of a dispatch. */
  predicate Free(stack: seq<Frame>)
  {
    stack != [] ==> stack[|stack| - 1].Handle? || stack[|stack| - 1].InlinePush?
  }

  /** The agent may dispatch the message of its frame `i`. */
  predicate MayDispatch(stack: seq<Frame>, i: nat)
  {
    Free(stack) && i < |stack| && (stack[i].Handle? || stack[i].InlinePush?)
  }

  predicate Enabled(order: Order, kinds: seq<StageKind>, st: State, e: Event)
  {
    && |st.queues| == |kinds| && |st.freed| == |st.count| && e.agent < |st.stacks|
    && var stack := st.stacks[e.agent];
    var top := if stack == [] then None else Some(stack[|stack| - 1]);
    match e
    case NewMessage(_) => Free(stack)
    case Raise(_, i, s) => order.CountFirst? && MayDispatch(stack, i) && stack[i].m < |st.count| && s < |kinds|
    case RaiseClone(_, i, s) => MayDispatch(stack, i) && s < |kinds|
    case PushRaised(_) => top.Some? && top.value.Raised? && top.value.s < |kinds|
    case PushUncounted(_, i, s) => order.PushFirst? && MayDispatch(stack, i) && stack[i].m < |st.count| && s < |kinds|
    case CountLate(_) => order.PushFirst? && top.Some? && top.value.Owed? && top.value.m < |st.count|
    case Process(_, s) => stack == [] && s < |kinds| && kinds[s].Queued? && st.queues[s] != []
    case RunFunctor(_) => top.Some? && top.value.InlinePush? && top.value.left > 0
    case EndPush(_) => top.Some? && top.value.InlinePush? && top.value.left == 0 && top.value.m < |st.count|
    case DropHandle(_) => top.Some? && top.value.Handle? && top.value.m < |st.count|
  }

  /** `push` of a message whose count is already raised. */
  function Push(kinds: seq<StageKind>, st: State, a: nat, s: nat, m: nat): State
    requires |st.queues| == |kinds| && a < |st.stacks| && s < |kinds|
  {
    match kinds[s]
    case Queued => st.(queues := st.queues[s := st.queues[s] + [m]])
    case Inline(k) => st.(stacks := st.stacks[a := st.stacks[a] + [InlinePush(m, k)]])
  }

  /** The agent's innermost frame ends, and with it one reference. */
  function Release(st: State, a: nat): State
    requires a < |st.stacks| && st.stacks[a] != [] && st.stacks[a][|st.stacks[a]| - 1].m < |st.count| == |st.freed|
  {
    var n := |st.stacks[a]| - 1;
    var m := st.stacks[a][n].m;
    var left := if st.count[m] > 0 then st.count[m] - 1 else 0;
    State(st.count[m := left], st.freed[m := left == 0], st.queues, st.stacks[a := st.stacks[a][..n]])
  }

  function WithFrame(st: State, a: nat, f: Frame): (st': State)
    requires a < |st.stacks|
    ensures |st'.stacks| == |st.stacks|
  {
    st.(stacks := st.stacks[a := st.stacks[a] + [f]])
  }

  function WithoutTop(st: State, a: nat): (st': State)
    requires a < |st.stacks| && st.stacks[a] != []
    ensures |st'.stacks| == |st.stacks|
  {
    st.(stacks := st.stacks[a := st.stacks[a][..|st.stacks[a]| - 1]])
  }

  function Next(order: Order, kinds: seq<StageKind>, st: State, e: Event): (st': State)
    requires Enabled(order, kinds, st, e)
  {
    var a, stack := e.agent, st.stacks[e.agent];
    var n := |stack| - 1;
    match e
    case NewMessage(_) =>
      WithFrame(st.(count := st.count + [1], freed := st.freed + [false]), a, Handle(|st.count|))
    case Raise(_, i, s) =>
      var m := stack[i].m;
      WithFrame(st.(count := st.count[m := st.count[m] + 1]), a, Raised(m, s))
    case RaiseClone(_, i, s) =>
      WithFrame(st.(count := st.count + [1], freed := st.freed + [false]), a, Raised(|st.count|, s))
    case PushRaised(_) => Push(kinds, WithoutTop(st, a), a, stack[n].s, stack[n].m)
    case PushUncounted(_, i, s) => Push(kinds, WithFrame(st, a, Owed(stack[i].m)), a, s, stack[i].m)
    case CountLate(_) =>
      var m := stack[n].m;
      WithoutTop(st.(count := st.count[m := st.count[m] + 1]), a)
    case Process(_, s) =>
      WithFrame(st.(queues := st.queues[s := st.queues[s][1..]]), a, Handle(st.queues[s][0]))
    case RunFunctor(_) =>
      st.(stacks := st.stacks[a := stack[n := InlinePush(stack[n].m, stack[n].left - 1)]])
    case EndPush(_) => Release(st, a)
    case DropHandle(_) => Release(st, a)
  }

  ghost predicate Inv(kinds: seq<StageKind>, st: State)
  {
    |st.queues| == |kinds| && Conserved(Places(st.queues, st.stacks), st.count, st.freed)
  }

  lemma FrameIsLive(kinds: seq<StageKind>, st: State, a: nat, i: nat)
    requires Inv(kinds, st) && a < |st.stacks| && i < |st.stacks[a]|
    ensures st.stacks[a][i].m < |st.count| && st.count[st.stacks[a][i].m] > 0 && !st.freed[st.stacks[a][i].m]
  {
    StackPlace(st.queues, st.stacks, a, []);
    PlacedIsLive(Places(st.queues, st.stacks), st.count, st.freed, |kinds| + a, i);
  }

  lemma NewKeepsInv(kinds: seq<StageKind>, st: State, a: nat, f: Frame)
    requires Inv(kinds, st) && a < |st.stacks| && f.m == |st.count|
    ensures Inv(kinds, WithFrame(st.(count := st.count + [1], freed := st.freed + [false]), a, f))
  {
    hide Conserved;
    PushFrame(st.queues, st.stacks, a, f);
    NewConserves(Places(st.queues, st.stacks), st.count, st.freed, |kinds| + a);
  }

  lemma RaiseKeepsInv(kinds: seq<StageKind>, st: State, a: nat, i: nat, s: nat)
    requires Inv(kinds, st) && Enabled(CountFirst, kinds, st, Raise(a, i, s))
    ensures Inv(kinds, Next(CountFirst, kinds, st, Raise(a, i, s)))
  {
    hide Conserved;
    var m := st.stacks[a][i].m;
    FrameIsLive(kinds, st, a, i);
    PushFrame(st.queues, st.stacks, a, Raised(m, s));
    AddConserves(Places(st.queues, st.stacks), st.count, st.freed, |kinds| + a, m);
  }

  /** The raised reference moves to the queue, or becomes that of the inline push. */
  lemma PushRaisedKeepsInv(kinds: seq<StageKind>, st: State, a: nat)
    requires Inv(kinds, st) && Enabled(CountFirst, kinds, st, PushRaised(a))
    ensures Inv(kinds, Next(CountFirst, kinds, st, PushRaised(a)))
  {
    hide Conserved;
    var n := |st.stacks[a]| - 1;
    var f := st.stacks[a][n];
    match kinds[f.s]
    case Queued =>
      RaisedMoves(st.queues, st.stacks, a, f.s);
      MoveLastConserves(Places(st.queues, st.stacks), st.count, st.freed, |kinds| + a, f.s);
    case Inline(k) =>
      ReplaceFrame(st.queues, st.stacks, a, n, InlinePush(f.m, k));
      assert st.stacks[a][..n] + [InlinePush(f.m, k)] == st.stacks[a][n := InlinePush(f.m, k)];
      assert st.stacks[a := st.stacks[a][..n]][a := st.stacks[a][n := InlinePush(f.m, k)]]
          == st.stacks[a := st.stacks[a][n := InlinePush(f.m, k)]];
  }

  lemma RaisedMoves(queues: seq<seq<nat>>, stacks: seq<seq<Frame>>, a: nat, s: nat)
    requires a < |stacks| && s < |queues| && stacks[a] != []
    ensures var places, i, n := Places(queues, stacks), |queues| + a, |stacks[a]| - 1;
            && |places[i]| == n + 1 && places[s] == queues[s]
            && Places(queues[s := queues[s] + [stacks[a][n].m]], stacks[a := stacks[a][..n]])
               == places[i := places[i][..n]][s := places[s] + [places[i][n]]]
  {
    var n := |stacks[a]| - 1;
    PopFrame(queues, stacks, a);
    QueuePlace(queues, stacks, s, queues[s]);
    QueuePlace(queues, stacks[a := stacks[a][..n]], s, queues[s] + [stacks[a][n].m]);
  }

  lemma ProcessKeepsInv(kinds: seq<StageKind>, st: State, a: nat, s: nat)
    requires Inv(kinds, st) && Enabled(CountFirst, kinds, st, Process(a, s))
    ensures Inv(kinds, Next(CountFirst, kinds, st, Process(a, s)))
  {
    hide Conserved;
    ProcessMoves(st.queues, st.stacks, a, s);
    MoveConserves(Places(st.queues, st.stacks), st.count, st.freed, s, |kinds| + a);
  }

  lemma ProcessMoves(queues: seq<seq<nat>>, stacks: seq<seq<Frame>>, a: nat, s: nat)
    requires a < |stacks| && s < |queues| && queues[s] != []
    ensures var places, j := Places(queues, stacks), |queues| + a;
            && places[s] == queues[s]
            && Places(queues[s := queues[s][1..]], stacks[a := stacks[a] + [Handle(queues[s][0])]])
               == places[s := places[s][1..]][j := places[j] + [places[s][0]]]
  {
    var rest := queues[s][1..];
    QueuePlace(queues, stacks, s, rest);
    PushFrame(queues[s := rest], stacks, a, Handle(queues[s][0]));
    assert Places(queues[s := rest], stacks)[|queues| + a] == Places(queues, stacks)[|queues| + a];
  }

  lemma RunFunctorKeepsInv(kinds: seq<StageKind>, st: State, a: nat)
    requires Inv(kinds, st) && Enabled(CountFirst, kinds, st, RunFunctor(a))
    ensures Inv(kinds, Next(CountFirst, kinds, st, RunFunctor(a)))
  {
    hide Conserved;
    var n := |st.stacks[a]| - 1;
    var f := st.stacks[a][n];
    ReplaceFrame(st.queues, st.stacks, a, n, InlinePush(f.m, f.left - 1));
  }

  lemma ReleaseKeepsInv(kinds: seq<StageKind>, st: State, a: nat)
    requires Inv(kinds, st) && a < |st.stacks| && st.stacks[a] != []
    ensures st.stacks[a][|st.stacks[a]| - 1].m < |st.count| == |st.freed|
    ensures Inv(kinds, Release(st, a))
  {
    hide Conserved;
    PopFrame(st.queues, st.stacks, a);
    DropConserves(Places(st.queues, st.stacks), st.count, st.freed, |kinds| + a);
  }

  lemma NextKeepsInv(kinds: seq<StageKind>, st: State, e: Event)
    requires Inv(kinds, st) && Enabled(CountFirst, kinds, st, e)
    ensures Inv(kinds, Next(CountFirst, kinds, st, e))
  {
    match e
    case NewMessage(a) => NewKeepsInv(kinds, st, a, Handle(|st.count|));
    case Raise(a, i, s) => RaiseKeepsInv(kinds, st, a, i, s);
    case RaiseClone(a, i, s) => NewKeepsInv(kinds, st, a, Raised(|st.count|, s));
    case PushRaised(a) => PushRaisedKeepsInv(kinds, st, a);
    case Process(a, s) => ProcessKeepsInv(kinds, st, a, s);
    case RunFunctor(a) => RunFunctorKeepsInv(kinds, st, a);
    case EndPush(a) => ReleaseKeepsInv(kinds, st, a);
    case DropHandle(a) => ReleaseKeepsInv(kinds, st, a);
  }

  function Init(kinds: seq<StageKind>, agents: nat): State
  {
    State([], [], seq(|kinds|, _ => []), seq(agents, _ => []))
  }

  function Exec(order: Order, kinds: seq<StageKind>, agents: nat, es: seq<Event>): Option<State>
  {
    if es == [] then Some(Init(kinds, agents)) else
    match Exec(order, kinds, agents, es[..|es| - 1])
    case None => None
    case Some(st) =>
      if Enabled(order, kinds, st, es[|es| - 1]) then Some(Next(order, kinds, st, es[|es| - 1])) else None
  }

  lemma ExecOneMore(order: Order, kinds: seq<StageKind>, agents: nat, es: seq<Event>, e: Event)
    requires var r := Exec(order, kinds, agents, es); r.Some? && Enabled(order, kinds, r.value, e)
    ensures Exec(order, kinds, agents, es + [e])
         == Some(Next(order, kinds, Exec(order, kinds, agents, es).value, e))
  {
    assert (es + [e])[..|es|] == es;
  }

  /** In every run of any number of agents each message's count is the number of its occurrences in queues, handles and
      inline pushes, and a message is freed exactly when none is left. */
  lemma {:induction false} CountsAreOccurrences(kinds: seq<StageKind>, agents: nat, es: seq<Event>)
    requires Exec(CountFirst, kinds, agents, es).Some?
    ensures Inv(kinds, Exec(CountFirst, kinds, agents, es).value)
  {
    if es == [] {
    } else {
      CountsAreOccurrences(kinds, agents, es[..|es| - 1]);
      NextKeepsInv(kinds, Exec(CountFirst, kinds, agents, es[..|es| - 1]).value, es[|es| - 1]);
    }
  }

  /** No message is freed while it is queued, held, or in the middle of a dispatch. */
  ghost predicate NothingFreedInUse(st: State)
  {
    && (forall s, k | 0 <= s < |st.queues| && 0 <= k < |st.queues[s]| ::
          st.queues[s][k] < |st.freed| && !st.freed[st.queues[s][k]])
    && (forall a, k | 0 <= a < |st.stacks| && 0 <= k < |st.stacks[a]| ::
          st.stacks[a][k].m < |st.freed| && !st.freed[st.stacks[a][k].m])
  }

  predicate Quiet(st: State)
  {
    && (forall s | 0 <= s < |st.queues| :: st.queues[s] == [])
    && (forall a | 0 <= a < |st.stacks| :: st.stacks[a] == [])
  }

  /** No message is used or queued after it is freed, and once all queues and frames are gone every message ever made
      is freed. */
  lemma NoUseAfterFreeNoLeak(kinds: seq<StageKind>, agents: nat, es: seq<Event>)
    requires Exec(CountFirst, kinds, agents, es).Some?
    ensures var st := Exec(CountFirst, kinds, agents, es).value;
            && |st.freed| == |st.count| && NothingFreedInUse(st)
            && (Quiet(st) ==> forall m | 0 <= m < |st.freed| :: st.freed[m])
  {
    CountsAreOccurrences(kinds, agents, es);
    var st := Exec(CountFirst, kinds, agents, es).value;
    forall s, k | 0 <= s < |st.queues| && 0 <= k < |st.queues[s]|
      ensures st.queues[s][k] < |st.freed| && !st.freed[st.queues[s][k]]
    {
      QueuePlace(st.queues, st.stacks, s, []);
      PlacedIsLive(Places(st.queues, st.stacks), st.count, st.freed, s, k);
    }
    forall a, k | 0 <= a < |st.stacks| && 0 <= k < |st.stacks[a]|
      ensures st.stacks[a][k].m < |st.freed| && !st.freed[st.stacks[a][k].m]
    {
      FrameIsLive(kinds, st, a, k);
    }
    if Quiet(st) {
      var places := Places(st.queues, st.stacks);
      assert forall i | 0 <= i < |places| :: places[i] == [];
      forall m | 0 <= m < |st.freed|
        ensures st.freed[m]
      {
        Unplaced(places, m);
      }
    }
  }

  // ----- every functor runs -----

  function LeftOf(f: Frame): nat
  {
    if f.InlinePush? then f.left else 0
  }

  function LeftsIn(stack: seq<Frame>): (lefts: seq<nat>)
    ensures |lefts| == |stack| && forall i | 0 <= i < |stack| :: lefts[i] == LeftOf(stack[i])
  {
    seq(|stack|, i requires 0 <= i < |stack| => LeftOf(stack[i]))
  }

  function Lefts(stacks: seq<seq<Frame>>): (lefts: seq<nat>)
    ensures |lefts| == |stacks| && forall a | 0 <= a < |stacks| :: lefts[a] == Sum(LeftsIn(stacks[a]))
  {
    seq(|stacks|, a requires 0 <= a < |stacks| => Sum(LeftsIn(stacks[a])))
  }

  lemma LeftsAfter(stacks: seq<seq<Frame>>, a: nat, stack: seq<Frame>)
    requires a < |stacks|
    ensures Sum(Lefts(stacks[a := stack])) + Sum(LeftsIn(stacks[a])) == Sum(Lefts(stacks)) + Sum(LeftsIn(stack))
  {
    assert Lefts(stacks[a := stack]) == Lefts(stacks)[a := Sum(LeftsIn(stack))];
    SumUpdate(Lefts(stacks), a, Sum(LeftsIn(stack)));
  }

  lemma LeftsPushed(stack: seq<Frame>, f: Frame)
    ensures Sum(LeftsIn(stack + [f])) == Sum(LeftsIn(stack)) + LeftOf(f)
  {
    assert LeftsIn(stack + [f])[..|stack|] == LeftsIn(stack);
  }

  /** The functors an event makes due: those of the inline push it starts. */
  function DueBy(kinds: seq<StageKind>, st: State, e: Event): nat
    requires Enabled(CountFirst, kinds, st, e)
  {
    if e.PushRaised? then
      var stack := st.stacks[e.agent];
      var kind := kinds[stack[|stack| - 1].s];
      if kind.Inline? then kind.functors else 0
    else 0
  }

  lemma FunctorStep(kinds: seq<StageKind>, st: State, e: Event)
    requires Enabled(CountFirst, kinds, st, e)
    ensures Sum(Lefts(Next(CountFirst, kinds, st, e).stacks)) + (if e.RunFunctor? then 1 else 0)
         == Sum(Lefts(st.stacks)) + DueBy(kinds, st, e)
  {
    var stack, stack' := st.stacks[e.agent], Next(CountFirst, kinds, st, e).stacks[e.agent];
    FunctorsOfStack(kinds, st, e);
    LeftsAfter(st.stacks, e.agent, stack');
    OneStackMoves(kinds, st, e);
  }

  lemma OneStackMoves(kinds: seq<StageKind>, st: State, e: Event)
    requires Enabled(CountFirst, kinds, st, e)
    ensures var stacks' := Next(CountFirst, kinds, st, e).stacks; stacks' == st.stacks[e.agent := stacks'[e.agent]]
  {
  }

  lemma FunctorsOfStack(kinds: seq<StageKind>, st: State, e: Event)
    requires Enabled(CountFirst, kinds, st, e)
    ensures Sum(LeftsIn(Next(CountFirst, kinds, st, e).stacks[e.agent])) + (if e.RunFunctor? then 1 else 0)
         == Sum(LeftsIn(st.stacks[e.agent])) + DueBy(kinds, st, e)
  {
    hide LeftsIn;
    var stack := st.stacks[e.agent];
    var n := |stack| - 1;
    if stack != [] {
      LeftsTop(stack);
    }
    match e
    case NewMessage(_) => LeftsPushed(stack, Handle(|st.count|));
    case Raise(_, i, s) => LeftsPushed(stack, Raised(stack[i].m, s));
    case RaiseClone(_, _, s) => LeftsPushed(stack, Raised(|st.count|, s));
    case PushRaised(a) => PushedFunctors(kinds, st, a);
    case Process(_, s) => LeftsPushed(stack, Handle(st.queues[s][0]));
    case RunFunctor(a) => RunFunctors(kinds, st, a);
    case EndPush(_) =>
    case DropHandle(_) =>
  }

  lemma LeftsTop(stack: seq<Frame>)
    requires stack != []
    ensures var n := |stack| - 1; Sum(LeftsIn(stack)) == Sum(LeftsIn(stack[..n])) + LeftOf(stack[n])
  {
    LeftsPushed(stack[..|stack| - 1], stack[|stack| - 1]);
    assert stack == stack[..|stack| - 1] + [stack[|stack| - 1]];
  }

  lemma PushedFunctors(kinds: seq<StageKind>, st: State, a: nat)
    requires Enabled(CountFirst, kinds, st, PushRaised(a))
    ensures Sum(LeftsIn(Next(CountFirst, kinds, st, PushRaised(a)).stacks[a]))
         == Sum(LeftsIn(st.stacks[a])) + DueBy(kinds, st, PushRaised(a))
  {
    hide LeftsIn;
    var stack := st.stacks[a];
    var n := |stack| - 1;
    LeftsTop(stack);
    if kinds[stack[n].s].Inline? {
      LeftsPushed(stack[..n], InlinePush(stack[n].m, kinds[stack[n].s].functors));
    }
  }

  lemma RunFunctors(kinds: seq<StageKind>, st: State, a: nat)
    requires Enabled(CountFirst, kinds, st, RunFunctor(a))
    ensures Sum(LeftsIn(Next(CountFirst, kinds, st, RunFunctor(a)).stacks[a])) + 1 == Sum(LeftsIn(st.stacks[a]))
  {
    hide LeftsIn;
    var stack := st.stacks[a];
    var n := |stack| - 1;
    var f := InlinePush(stack[n].m, stack[n].left - 1);
    LeftsTop(stack);
    LeftsPushed(stack[..n], f);
    assert stack[n := f] == stack[..n] + [f];
  }

  function FunctorsRun(es: seq<Event>): nat
  {
    if es == [] then 0 else FunctorsRun(es[..|es| - 1]) + if es[|es| - 1].RunFunctor? then 1 else 0
  }

  function FunctorsDue(kinds: seq<StageKind>, agents: nat, es: seq<Event>): nat
    requires Exec(CountFirst, kinds, agents, es).Some?
  {
    if es == [] then 0 else
    FunctorsDue(kinds, agents, es[..|es| - 1])
    + DueBy(kinds, Exec(CountFirst, kinds, agents, es[..|es| - 1]).value, es[|es| - 1])
  }

  /** In every run the functors that have run, and those that inline pushes under way have left, are the functors of all
      inline pushes so far: none is skipped and none runs twice. */
  lemma {:induction false} EveryFunctorRuns(kinds: seq<StageKind>, agents: nat, es: seq<Event>)
    requires Exec(CountFirst, kinds, agents, es).Some?
    ensures FunctorsRun(es) + Sum(Lefts(Exec(CountFirst, kinds, agents, es).value.stacks))
         == FunctorsDue(kinds, agents, es)
  {
    if es == [] {
      SumZero(agents);
      forall a | 0 <= a < agents
        ensures Lefts(Init(kinds, agents).stacks)[a] == 0
      {
        assert LeftsIn([]) == [];
      }
      assert Lefts(Init(kinds, agents).stacks) == seq(agents, _ => 0);
    } else {
      hide Next, Enabled, Lefts;
      EveryFunctorRuns(kinds, agents, es[..|es| - 1]);
      FunctorStep(kinds, Exec(CountFirst, kinds, agents, es[..|es| - 1]).value, es[|es| - 1]);
    }
  }

  // ----- the order of the two halves matters -----

  ghost predicate NeverFreesInUse(order: Order, kinds: seq<StageKind>, agents: nat)
  {
    forall es | Exec(order, kinds, agents, es).Some? :: NothingFreedInUse(Exec(order, kinds, agents, es).value)
  }

  ghost predicate Reachable(kinds: seq<StageKind>, agents: nat, st: State)
  {
    exists es :: Exec(PushFirst, kinds, agents, es) == Some(st)
  }

  predicate Leads(kinds: seq<StageKind>, st: State, e: Event, st': State)
  {
    Enabled(PushFirst, kinds, st, e) && Next(PushFirst, kinds, st, e) == st'
  }

  lemma ReachNext(kinds: seq<StageKind>, agents: nat, st: State, e: Event, st': State)
    requires Reachable(kinds, agents, st) && Leads(kinds, st, e, st')
    ensures Reachable(kinds, agents, st')
  {
    var es :| Exec(PushFirst, kinds, agents, es) == Some(st);
    ExecOneMore(PushFirst, kinds, agents, es, e);
  }

  /** One message, in the queue of stage 0 or in the frames of the first two agents. */
  function Scene(kinds: seq<StageKind>, agents: nat, count: nat, queue: seq<nat>, mine: seq<Frame>, other: seq<Frame>):
    State
    requires |kinds| > 0 && agents >= 2
  {
    State([count], [count == 0], seq(|kinds|, _ => [])[0 := queue],
          seq(agents, _ => [])[0 := mine][1 := other])
  }

  lemma SceneNew(kinds: seq<StageKind>, agents: nat)
    requires |kinds| > 0 && agents >= 2
    ensures Leads(kinds, Init(kinds, agents), NewMessage(0), Scene(kinds, agents, 1, [], [Handle(0)], []))
  {
    var st' := Next(PushFirst, kinds, Init(kinds, agents), NewMessage(0));
    var st := Scene(kinds, agents, 1, [], [Handle(0)], []);
    assert [] + [Handle(0)] == [Handle(0)];
    assert st'.queues == st.queues && st'.stacks == st.stacks && st'.count == st.count && st'.freed == st.freed;
  }

  lemma ScenePush(kinds: seq<StageKind>, agents: nat)
    requires |kinds| > 0 && agents >= 2
    ensures Leads(kinds, Scene(kinds, agents, 1, [], [Handle(0)], []), PushUncounted(0, 0, 0),
                  match kinds[0]
                  case Queued => Scene(kinds, agents, 1, [0], [Handle(0), Owed(0)], [])
                  case Inline(k) => Scene(kinds, agents, 1, [], [Handle(0), Owed(0), InlinePush(0, k)], []))
  {
    var st, e := Scene(kinds, agents, 1, [], [Handle(0)], []), PushUncounted(0, 0, 0);
    assert st.stacks[0] == [Handle(0)];
    assert Enabled(PushFirst, kinds, st, e);
    assert [Handle(0)] + [Owed(0)] == [Handle(0), Owed(0)] && [] + [0] == [0];
    var st' := Next(PushFirst, kinds, st, e);
    match kinds[0]
    case Queued =>
      assert st'.stacks == Scene(kinds, agents, 1, [0], [Handle(0), Owed(0)], []).stacks;
    case Inline(k) =>
      assert [Handle(0), Owed(0)] + [InlinePush(0, k)] == [Handle(0), Owed(0), InlinePush(0, k)];
      assert st'.stacks == Scene(kinds, agents, 1, [], [Handle(0), Owed(0), InlinePush(0, k)], []).stacks;
  }

  lemma SceneTake(kinds: seq<StageKind>, agents: nat)
    requires |kinds| > 0 && agents >= 2 && kinds[0].Queued?
    ensures Leads(kinds, Scene(kinds, agents, 1, [0], [Handle(0), Owed(0)], []), Process(1, 0),
                  Scene(kinds, agents, 1, [], [Handle(0), Owed(0)], [Handle(0)]))
  {
    var st := Scene(kinds, agents, 1, [0], [Handle(0), Owed(0)], []);
    assert [0][1..] == [] && [] + [Handle(0)] == [Handle(0)];
    assert Next(PushFirst, kinds, st, Process(1, 0)).stacks
        == Scene(kinds, agents, 1, [], [Handle(0), Owed(0)], [Handle(0)]).stacks;
  }

  lemma SceneDrop(kinds: seq<StageKind>, agents: nat)
    requires |kinds| > 0 && agents >= 2
    ensures Leads(kinds, Scene(kinds, agents, 1, [], [Handle(0), Owed(0)], [Handle(0)]), DropHandle(1),
                  Scene(kinds, agents, 0, [], [Handle(0), Owed(0)], []))
  {
    var st := Scene(kinds, agents, 1, [], [Handle(0), Owed(0)], [Handle(0)]);
    assert [Handle(0)][..0] == [];
    assert Release(st, 1).stacks == Scene(kinds, agents, 0, [], [Handle(0), Owed(0)], []).stacks;
  }

  lemma SceneRun(kinds: seq<StageKind>, agents: nat, left: nat)
    requires |kinds| > 0 && agents >= 2
    ensures Leads(kinds, Scene(kinds, agents, 1, [], [Handle(0), Owed(0), InlinePush(0, left + 1)], []), RunFunctor(0),
                  Scene(kinds, agents, 1, [], [Handle(0), Owed(0), InlinePush(0, left)], []))
  {
    var st := Scene(kinds, agents, 1, [], [Handle(0), Owed(0), InlinePush(0, left + 1)], []);
    assert st.stacks[0][2 := InlinePush(0, left)] == [Handle(0), Owed(0), InlinePush(0, left)];
    assert Next(PushFirst, kinds, st, RunFunctor(0)).stacks
        == Scene(kinds, agents, 1, [], [Handle(0), Owed(0), InlinePush(0, left)], []).stacks;
  }

  lemma SceneEnd(kinds: seq<StageKind>, agents: nat)
    requires |kinds| > 0 && agents >= 2
    ensures Leads(kinds, Scene(kinds, agents, 1, [], [Handle(0), Owed(0), InlinePush(0, 0)], []), EndPush(0),
                  Scene(kinds, agents, 0, [], [Handle(0), Owed(0)], []))
  {
    var st := Scene(kinds, agents, 1, [], [Handle(0), Owed(0), InlinePush(0, 0)], []);
    assert st.stacks[0][..2] == [Handle(0), Owed(0)];
    assert Release(st, 0).stacks == Scene(kinds, agents, 0, [], [Handle(0), Owed(0)], []).stacks;
  }

  /** Another agent takes the message off the queue, handles it and frees it. */
  lemma ConsumerFrees(kinds: seq<StageKind>, agents: nat)
    requires agents >= 2 && |kinds| > 0 && kinds[0].Queued?
    ensures Reachable(kinds, agents, Scene(kinds, agents, 0, [], [Handle(0), Owed(0)], []))
  {
    hide Leads, Scene;
    assert Exec(PushFirst, kinds, agents, []) == Some(Init(kinds, agents));
    SceneNew(kinds, agents);
    ScenePush(kinds, agents);
    SceneTake(kinds, agents);
    SceneDrop(kinds, agents);
    var mine := [Handle(0), Owed(0)];
    var st1, st2 := Scene(kinds, agents, 1, [], [Handle(0)], []), Scene(kinds, agents, 1, [0], mine, []);
    var st3, st4 := Scene(kinds, agents, 1, [], mine, [Handle(0)]), Scene(kinds, agents, 0, [], mine, []);
    ReachNext(kinds, agents, Init(kinds, agents), NewMessage(0), st1);
    ReachNext(kinds, agents, st1, PushUncounted(0, 0, 0), st2);
    ReachNext(kinds, agents, st2, Process(1, 0), st3);
    ReachNext(kinds, agents, st3, DropHandle(1), st4);
  }

  lemma {:induction false} InlinePushRuns(kinds: seq<StageKind>, agents: nat, left: nat)
    requires agents >= 2 && |kinds| > 0 && kinds[0].Inline? && left <= kinds[0].functors
    ensures Reachable(kinds, agents, Scene(kinds, agents, 1, [], [Handle(0), Owed(0), InlinePush(0, left)], []))
    decreases kinds[0].functors - left
  {
    hide Leads, Scene;
    var st := Scene(kinds, agents, 1, [], [Handle(0), Owed(0), InlinePush(0, left)], []);
    if left == kinds[0].functors {
      assert Exec(PushFirst, kinds, agents, []) == Some(Init(kinds, agents));
      SceneNew(kinds, agents);
      ScenePush(kinds, agents);
      ReachNext(kinds, agents, Init(kinds, agents), NewMessage(0), Scene(kinds, agents, 1, [], [Handle(0)], []));
      ReachNext(kinds, agents, Scene(kinds, agents, 1, [], [Handle(0)], []), PushUncounted(0, 0, 0), st);
    } else {
      InlinePushRuns(kinds, agents, left + 1);
      SceneRun(kinds, agents, left);
      var before := Scene(kinds, agents, 1, [], [Handle(0), Owed(0), InlinePush(0, left + 1)], []);
      ReachNext(kinds, agents, before, RunFunctor(0), st);
    }
  }

  /** An inline push does it alone: it releases the message before the dispatcher has raised its count. */
  lemma InlinePushFrees(kinds: seq<StageKind>, agents: nat)
    requires agents >= 2 && |kinds| > 0 && kinds[0].Inline?
    ensures Reachable(kinds, agents, Scene(kinds, agents, 0, [], [Handle(0), Owed(0)], []))
  {
    hide Leads, Scene;
    InlinePushRuns(kinds, agents, 0);
    SceneEnd(kinds, agents);
    ReachNext(kinds, agents, Scene(kinds, agents, 1, [], [Handle(0), Owed(0), InlinePush(0, 0)], []), EndPush(0),
              Scene(kinds, agents, 0, [], [Handle(0), Owed(0)], []));
  }

  /** No run frees a message in use exactly if `dispatch` raises the count before it pushes: in the other order the
      message can be freed before it is counted. */
  lemma SafeExactlyIfCountFirst(order: Order, kinds: seq<StageKind>, agents: nat)
    requires agents >= 2 && |kinds| > 0
    ensures NeverFreesInUse(order, kinds, agents) <==> order == CountFirst
  {
    match order
    case CountFirst =>
      forall es | Exec(order, kinds, agents, es).Some?
        ensures NothingFreedInUse(Exec(order, kinds, agents, es).value)
      {
        NoUseAfterFreeNoLeak(kinds, agents, es);
      }
    case PushFirst =>
      if kinds[0].Queued? {
        ConsumerFrees(kinds, agents);
      } else {
        InlinePushFrees(kinds, agents);
      }
      var st := Scene(kinds, agents, 0, [], [Handle(0), Owed(0)], []);
      assert st.stacks[0][0] == Handle(0) && st.freed[0];
      var es :| Exec(PushFirst, kinds, agents, es) == Some(st);
  }
}

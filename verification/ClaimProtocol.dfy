/** The claim and release code of wield/schedulers/utils/ThreadAssignments.hpp as a concurrent protocol.

    Every load, compare-and-exchange, decrement and slot write is a step of its own, and a run is any interleaving
    of the steps of any number of threads. Steps are sequentially consistent. */
module ClaimProtocol {
  import opened Counting
  import opened Assignments

  datatype Config = Config(threads: nat, max: seq<nat>)
  {
    ghost predicate Valid() {
      forall s | 0 <= s < |max| :: max[s] < SIZE
    }
  }

  /** Where a thread is inside `tryAssign` or `removeCurrentAssignment`. */
  datatype Pc =
    | Ready
    | Loaded(stage: nat, seen: nat)  // read `seen`, below the maximum, not yet exchanged
    | Claimed(stage: nat)            // exchanged, slot not yet written
    | Released(stage: nat)           // decremented, slot not yet cleared

  datatype State = State(visitors: seq<nat>, slot: seq<nat>, pc: seq<Pc>)

  datatype Event =
    | Load(t: nat, s: nat)
    | Exchange(t: nat)
    | WriteSlot(t: nat)
    | Decrement(t: nat)
    | ClearSlot(t: nat)

  function Init(cfg: Config): State
  {
    State(seq(|cfg.max|, _ => 0), seq(cfg.threads, _ => |cfg.max|), seq(cfg.threads, _ => Ready))
  }

  predicate Shaped(cfg: Config, st: State)
  {
    && |st.visitors| == |cfg.max|
    && |st.slot| == |st.pc| == cfg.threads
    && (forall t | 0 <= t < cfg.threads :: st.slot[t] <= |cfg.max|)
    && (forall t | 0 <= t < cfg.threads :: st.pc[t].Ready? || st.pc[t].stage < |cfg.max|)
  }

  /** A thread loads only with an empty slot: every `nextStage` releases before it claims. */
  predicate Enabled(cfg: Config, st: State, e: Event)
    requires Shaped(cfg, st)
  {
    && e.t < cfg.threads
    && match e
       case Load(t, s) => st.pc[t].Ready? && st.slot[t] == |cfg.max| && s < |cfg.max|
       case Exchange(t) => st.pc[t].Loaded?
       case WriteSlot(t) => st.pc[t].Claimed?
       case Decrement(t) => st.pc[t].Ready? && st.slot[t] != |cfg.max|
       case ClearSlot(t) => st.pc[t].Released?
  }

  function Next(cfg: Config, st: State, e: Event): (st': State)
    requires Shaped(cfg, st) && Enabled(cfg, st, e)
    ensures Shaped(cfg, st')
  {
    match e
    case Load(t, s) =>
      if st.visitors[s] < cfg.max[s] then st.(pc := st.pc[t := Loaded(s, st.visitors[s])]) else st
    case Exchange(t) =>
      var s := st.pc[t].stage;
      if st.visitors[s] == st.pc[t].seen then
        st.(visitors := st.visitors[s := (st.visitors[s] + 1) % SIZE], pc := st.pc[t := Claimed(s)])
      else
        st.(pc := st.pc[t := Ready])
    case WriteSlot(t) =>
      st.(slot := st.slot[t := st.pc[t].stage], pc := st.pc[t := Ready])
    case Decrement(t) =>
      var s := st.slot[t];
      st.(visitors := st.visitors[s := (st.visitors[s] - 1) % SIZE], pc := st.pc[t := Released(s)])
    case ClearSlot(t) =>
      st.(slot := st.slot[t := |cfg.max|], pc := st.pc[t := Ready])
  }

  predicate Fails(cfg: Config, st: State, e: Event)
    requires Shaped(cfg, st) && Enabled(cfg, st, e)
  {
    e.Exchange? && st.visitors[st.pc[e.t].stage] != st.pc[e.t].seen
  }

  /** The event changes the counter of some stage. */
  predicate Changes(cfg: Config, st: State, e: Event)
    requires Shaped(cfg, st) && Enabled(cfg, st, e)
  {
    e.Decrement? || (e.Exchange? && !Fails(cfg, st, e))
  }

  /** The stage whose counter an exchange or decrement is about. */
  function StageOf(cfg: Config, st: State, e: Event): nat
    requires Shaped(cfg, st) && Enabled(cfg, st, e)
  {
    match e
    case Load(_, s) => s
    case Decrement(t) => st.slot[t]
    case _ => st.pc[e.t].stage
  }

  /** The state after the events `es`, if each was enabled in its turn. */
  function ExecFrom(cfg: Config, st: State, es: seq<Event>): (r: Option<State>)
    requires Shaped(cfg, st)
    ensures r.Some? ==> Shaped(cfg, r.value)
  {
    if es == [] then Some(st) else
    match ExecFrom(cfg, st, es[..|es| - 1])
    case None => None
    case Some(mid) =>
      if Enabled(cfg, mid, es[|es| - 1]) then Some(Next(cfg, mid, es[|es| - 1])) else None
  }

  function Exec(cfg: Config, es: seq<Event>): (r: Option<State>)
    ensures r.Some? ==> Shaped(cfg, r.value)
  {
    ExecFrom(cfg, Init(cfg), es)
  }

  // ----- safety -----

  /** The stage a thread counts as visiting: between exchange and slot write it already does, between decrement and
      slot clear it no longer does. */
  function HeldBy(cfg: Config, st: State, t: nat): nat
    requires Shaped(cfg, st) && t < cfg.threads
  {
    match st.pc[t]
    case Claimed(s) => s
    case Released(_) => |cfg.max|
    case _ => st.slot[t]
  }

  function Held(cfg: Config, st: State): (h: seq<nat>)
    requires Shaped(cfg, st)
    ensures |h| == cfg.threads && forall t | 0 <= t < cfg.threads :: h[t] == HeldBy(cfg, st, t)
  {
    seq(cfg.threads, t requires 0 <= t < cfg.threads => HeldBy(cfg, st, t))
  }

  predicate ThreadOk(cfg: Config, st: State, t: nat)
    requires Shaped(cfg, st) && t < cfg.threads
  {
    match st.pc[t]
    case Ready => true
    case Loaded(s, v) => st.slot[t] == |cfg.max| && v < cfg.max[s]
    case Claimed(s) => st.slot[t] == |cfg.max|
    case Released(s) => st.slot[t] == s
  }

  ghost predicate Inv(cfg: Config, st: State)
  {
    && Shaped(cfg, st)
    && (forall t | 0 <= t < cfg.threads :: ThreadOk(cfg, st, t))
    && CountersOk(cfg.max, st.visitors, Held(cfg, st))
  }

  /** Each counter is the number of holders, and within bounds. */
  ghost predicate CountersOk(max: seq<nat>, visitors: seq<nat>, held: seq<nat>)
  {
    |visitors| == |max| && forall s | 0 <= s < |max| :: visitors[s] == Count(held, s) <= max[s]
  }

  lemma ClaimCounts(max: seq<nat>, visitors: seq<nat>, held: seq<nat>, t: nat, s: nat)
    requires CountersOk(max, visitors, held) && t < |held| && held[t] == |max|
    requires s < |max| && visitors[s] < max[s] < SIZE
    ensures CountersOk(max, visitors[s := (visitors[s] + 1) % SIZE], held[t := s])
  {
    forall x | 0 <= x < |max|
      ensures visitors[s := (visitors[s] + 1) % SIZE][x] == Count(held[t := s], x) <= max[x]
    {
      CountUpdate(held, t, s, x);
    }
  }

  lemma ReleaseCounts(max: seq<nat>, visitors: seq<nat>, held: seq<nat>, t: nat, s: nat)
    requires CountersOk(max, visitors, held) && t < |held| && held[t] == s < |max| && max[s] < SIZE
    ensures visitors[s] > 0
    ensures CountersOk(max, visitors[s := (visitors[s] - 1) % SIZE], held[t := |max|])
  {
    CountPositive(held, t);
    forall x | 0 <= x < |max|
      ensures visitors[s := (visitors[s] - 1) % SIZE][x] == Count(held[t := |max|], x) <= max[x]
    {
      CountUpdate(held, t, |max|, x);
    }
  }

  lemma ThreadsStayOk(cfg: Config, st: State, e: Event)
    requires Shaped(cfg, st) && Enabled(cfg, st, e)
    requires forall t | 0 <= t < cfg.threads :: ThreadOk(cfg, st, t)
    ensures forall t | 0 <= t < cfg.threads :: ThreadOk(cfg, Next(cfg, st, e), t)
  {
    forall u | 0 <= u < cfg.threads
      ensures ThreadOk(cfg, Next(cfg, st, e), u)
    {
      assert ThreadOk(cfg, st, u);
    }
  }

  /** The only steps that change who visits what are a successful exchange and a decrement. */
  lemma HeldAfterStep(cfg: Config, st: State, e: Event)
    requires Shaped(cfg, st) && Enabled(cfg, st, e) && ThreadOk(cfg, st, e.t)
    ensures Held(cfg, Next(cfg, st, e)) ==
            if Changes(cfg, st, e) then
              Held(cfg, st)[e.t := if e.Decrement? then |cfg.max| else st.pc[e.t].stage]
            else
              Held(cfg, st)
  {
  }

  /** A step keeps the invariant. A successful exchange is one atomic claim of a stage that has room at that moment,
      whatever happened to the counter since the load; a decrement is one atomic release of a counted visitor. */
  lemma StepKeepsInv(cfg: Config, st: State, e: Event)
    requires cfg.Valid() && Inv(cfg, st) && Enabled(cfg, st, e)
    ensures Inv(cfg, Next(cfg, st, e))
    ensures Changes(cfg, st, e) && e.Exchange? ==>
              Held(cfg, st)[e.t] == |cfg.max| && Room(cfg.max, Held(cfg, st), st.pc[e.t].stage)
    ensures e.Decrement? ==> Held(cfg, st)[e.t] < |cfg.max| && st.visitors[Held(cfg, st)[e.t]] > 0
  {
    ThreadsStayOk(cfg, st, e);
    assert ThreadOk(cfg, st, e.t);
    HeldAfterStep(cfg, st, e);
    if e.Decrement? {
      ReleaseCounts(cfg.max, st.visitors, Held(cfg, st), e.t, st.slot[e.t]);
    } else if Changes(cfg, st, e) {
      ClaimCounts(cfg.max, st.visitors, Held(cfg, st), e.t, st.pc[e.t].stage);
    }
  }

  /** In every interleaving each counter equals the number of threads holding the stage and never exceeds its
      maximum; and no decrement finds a counter at zero. */
  lemma {:induction false} CountersAreHolders(cfg: Config, es: seq<Event>)
    requires cfg.Valid() && Exec(cfg, es).Some?
    ensures Inv(cfg, Exec(cfg, es).value)
    ensures forall t: nat | Enabled(cfg, Exec(cfg, es).value, Decrement(t)) ::
              Exec(cfg, es).value.visitors[Exec(cfg, es).value.slot[t]] > 0
  {
    if es == [] {
      var st := Init(cfg);
      assert Held(cfg, st) == seq(cfg.threads, _ => |cfg.max|);
      forall s | 0 <= s < |cfg.max|
        ensures Count(Held(cfg, st), s) == 0
      {
        CountRepeat(cfg.threads, |cfg.max|, s);
      }
    } else {
      CountersAreHolders(cfg, es[..|es| - 1]);
      StepKeepsInv(cfg, Exec(cfg, es[..|es| - 1]).value, es[|es| - 1]);
    }
    var st := Exec(cfg, es).value;
    forall t: nat | Enabled(cfg, st, Decrement(t))
      ensures st.visitors[st.slot[t]] > 0
    {
      StepKeepsInv(cfg, st, Decrement(t));
    }
  }

  /** In every reachable state a thread that holds nothing has a stage to go to, if the threads are not too many. */
  lemma UnassignedThreadHasRoom(cfg: Config, es: seq<Event>, t: nat)
    requires cfg.Valid() && Exec(cfg, es).Some? && cfg.threads <= Sum(cfg.max)
    requires t < cfg.threads && HeldBy(cfg, Exec(cfg, es).value, t) == |cfg.max|
    ensures exists s: nat | s < |cfg.max| :: Exec(cfg, es).value.visitors[s] < cfg.max[s]
  {
    CountersAreHolders(cfg, es);
    var held := Held(cfg, Exec(cfg, es).value);
    Pigeonhole(cfg.max, held, t);
    var s: nat :| s < |cfg.max| && Room(cfg.max, held, s);
  }

  // ----- refinement: every run is a run of atomic claims and releases -----

  datatype Action = Claim(t: nat, s: nat) | Release(t: nat)

  predicate Allowed(cfg: Config, held: seq<nat>, a: Action)
  {
    && a.t < |held|
    && match a
       case Claim(t, s) => held[t] == |cfg.max| && Room(cfg.max, held, s)
       case Release(t) => held[t] < |cfg.max|
  }

  /** The simple system: a claim checks for room and takes the place in one step. */
  function AtomicExec(cfg: Config, actions: seq<Action>): Option<seq<nat>>
  {
    if actions == [] then Some(seq(cfg.threads, _ => |cfg.max|)) else
    match AtomicExec(cfg, actions[..|actions| - 1])
    case None => None
    case Some(held) =>
      var a := actions[|actions| - 1];
      if !Allowed(cfg, held, a) then None else
      Some(held[a.t := if a.Claim? then a.s else |cfg.max|])
  }

  /** The action an event performs, if any. */
  function ActionOf(cfg: Config, st: State, e: Event): seq<Action>
    requires Shaped(cfg, st) && Enabled(cfg, st, e)
  {
    match e
    case Exchange(t) => if Fails(cfg, st, e) then [] else [Claim(t, st.pc[t].stage)]
    case Decrement(t) => [Release(t)]
    case _ => []
  }

  function Actions(cfg: Config, es: seq<Event>): seq<Action>
    requires Exec(cfg, es).Some?
  {
    if es == [] then [] else
    Actions(cfg, es[..|es| - 1]) + ActionOf(cfg, Exec(cfg, es[..|es| - 1]).value, es[|es| - 1])
  }

  lemma {:induction false} RunRefinesAtomic(cfg: Config, es: seq<Event>)
    requires cfg.Valid() && Exec(cfg, es).Some?
    ensures AtomicExec(cfg, Actions(cfg, es)) == Some(Held(cfg, Exec(cfg, es).value))
  {
    if es == [] {
      assert Held(cfg, Init(cfg)) == seq(cfg.threads, _ => |cfg.max|);
    } else {
      var front, e := es[..|es| - 1], es[|es| - 1];
      var st := Exec(cfg, front).value;
      RunRefinesAtomic(cfg, front);
      CountersAreHolders(cfg, front);
      StepIsAtomic(cfg, st, e, Actions(cfg, front));
    }
  }

  lemma StepIsAtomic(cfg: Config, st: State, e: Event, actions: seq<Action>)
    requires cfg.Valid() && Inv(cfg, st) && Enabled(cfg, st, e)
    requires AtomicExec(cfg, actions) == Some(Held(cfg, st))
    ensures AtomicExec(cfg, actions + ActionOf(cfg, st, e)) == Some(Held(cfg, Next(cfg, st, e)))
  {
    StepKeepsInv(cfg, st, e);
    assert ThreadOk(cfg, st, e.t);
    HeldAfterStep(cfg, st, e);
    var more := ActionOf(cfg, st, e);
    if more == [] {
      assert actions + more == actions;
    } else {
      assert (actions + more)[..|actions|] == actions;
      assert Allowed(cfg, Held(cfg, st), more[0]);
    }
  }

  /** Undisturbed, the claim steps of one thread do what `ThreadAssignments.TryAssign` says. */
  lemma UndisturbedTryAssign(cfg: Config, st: State, t: nat, s: nat)
    requires cfg.Valid() && Inv(cfg, st) && Enabled(cfg, st, Load(t, s))
    ensures if Room(cfg.max, Held(cfg, st), s) then
              var r := ExecFrom(cfg, st, [Load(t, s), Exchange(t), WriteSlot(t)]);
              r.Some? && Inv(cfg, r.value) && r.value.pc == st.pc && r.value.slot == st.slot[t := s]
            else
              ExecFrom(cfg, st, [Load(t, s)]) == Some(st)
  {
    var e1, e2, e3 := Load(t, s), Exchange(t), WriteSlot(t);
    assert [e1][..0] == [] && [e1, e2][..1] == [e1] && [e1, e2, e3][..2] == [e1, e2];
    assert ExecFrom(cfg, st, []) == Some(st);
    if Room(cfg.max, Held(cfg, st), s) {
      var st1 := Next(cfg, st, e1);
      assert ExecFrom(cfg, st, [e1]) == Some(st1);
      var st2 := Next(cfg, st1, e2);
      assert ExecFrom(cfg, st, [e1, e2]) == Some(st2);
      var st3 := Next(cfg, st2, e3);
      assert ExecFrom(cfg, st, [e1, e2, e3]) == Some(st3);
      StepKeepsInv(cfg, st, e1);
      StepKeepsInv(cfg, st1, e2);
      StepKeepsInv(cfg, st2, e3);
      assert st3.pc == st.pc;
    }
  }

  /** Likewise for `ThreadAssignments.RemoveCurrentAssignment`. */
  lemma UndisturbedRelease(cfg: Config, st: State, t: nat)
    requires cfg.Valid() && Inv(cfg, st) && Enabled(cfg, st, Decrement(t))
    ensures var r := ExecFrom(cfg, st, [Decrement(t), ClearSlot(t)]);
            r.Some? && Inv(cfg, r.value) && r.value.pc == st.pc && r.value.slot == st.slot[t := |cfg.max|]
  {
    var e1, e2 := Decrement(t), ClearSlot(t);
    assert [e1][..0] == [] && [e1, e2][..1] == [e1];
    assert ExecFrom(cfg, st, []) == Some(st);
    var st1 := Next(cfg, st, e1);
    assert ExecFrom(cfg, st, [e1]) == Some(st1);
    var st2 := Next(cfg, st1, e2);
    assert ExecFrom(cfg, st, [e1, e2]) == Some(st2);
    StepKeepsInv(cfg, st, e1);
    StepKeepsInv(cfg, st1, e2);
    assert st2.pc == st.pc;
  }

  // ----- lock-freedom -----

  function FailedExchanges(cfg: Config, es: seq<Event>): nat
    requires Exec(cfg, es).Some?
  {
    if es == [] then 0 else
    FailedExchanges(cfg, es[..|es| - 1]) + if Fails(cfg, Exec(cfg, es[..|es| - 1]).value, es[|es| - 1]) then 1 else 0
  }

  function CounterChanges(cfg: Config, es: seq<Event>): nat
    requires Exec(cfg, es).Some?
  {
    if es == [] then 0 else
    CounterChanges(cfg, es[..|es| - 1]) + if Changes(cfg, Exec(cfg, es[..|es| - 1]).value, es[|es| - 1]) then 1 else 0
  }

  function FailuresOf(cfg: Config, es: seq<Event>, t: nat, s: nat): nat
    requires Exec(cfg, es).Some?
  {
    if es == [] then 0 else
    var st, e := Exec(cfg, es[..|es| - 1]).value, es[|es| - 1];
    FailuresOf(cfg, es[..|es| - 1], t, s) + if Fails(cfg, st, e) && e.t == t && StageOf(cfg, st, e) == s then 1 else 0
  }

  function ChangesByOthers(cfg: Config, es: seq<Event>, t: nat, s: nat): nat
    requires Exec(cfg, es).Some?
  {
    if es == [] then 0 else
    var st, e := Exec(cfg, es[..|es| - 1]).value, es[|es| - 1];
    ChangesByOthers(cfg, es[..|es| - 1], t, s)
    + if Changes(cfg, st, e) && e.t != t && StageOf(cfg, st, e) == s then 1 else 0
  }

  /** Thread `t` is about to fail: the counter it loaded has moved away. */
  predicate Doomed(cfg: Config, st: State, t: nat)
    requires Shaped(cfg, st) && t < cfg.threads
  {
    st.pc[t].Loaded? && st.visitors[st.pc[t].stage] != st.pc[t].seen
  }

  /** One thread fails on a stage at most as often as other threads change that stage's counter: each failure has a
      change of its own inside the window from load to exchange. */
  lemma {:induction false} FailuresHaveCauses(cfg: Config, es: seq<Event>, t: nat, s: nat)
    requires Exec(cfg, es).Some? && t < cfg.threads
    ensures var st := Exec(cfg, es).value;
            FailuresOf(cfg, es, t, s) + (if Doomed(cfg, st, t) && st.pc[t].stage == s then 1 else 0)
            <= ChangesByOthers(cfg, es, t, s)
  {
    if es != [] {
      FailuresHaveCauses(cfg, es[..|es| - 1], t, s);
    }
  }

  function DoomedBits(cfg: Config, st: State): (bits: seq<nat>)
    requires Shaped(cfg, st)
    ensures |bits| == cfg.threads
  {
    seq(cfg.threads, t requires 0 <= t < cfg.threads => if Doomed(cfg, st, t) then 1 else 0)
  }

  /** A change dooms at most the other threads; a failure uses up one doomed thread; nothing else dooms any. */
  lemma DoomedStep(cfg: Config, st: State, e: Event)
    requires Shaped(cfg, st) && Enabled(cfg, st, e)
    ensures var sum, sum' := Sum(DoomedBits(cfg, st)), Sum(DoomedBits(cfg, Next(cfg, st, e)));
            if Changes(cfg, st, e) then sum' <= cfg.threads - 1
            else if Fails(cfg, st, e) then sum' + 1 == sum
            else sum' == sum
  {
    var bits, bits' := DoomedBits(cfg, st), DoomedBits(cfg, Next(cfg, st, e));
    if Changes(cfg, st, e) {
      assert bits'[e.t] == 0;
      SumOfBits(bits');
    } else if Fails(cfg, st, e) {
      assert bits' == bits[e.t := 0];
      SumUpdate(bits, e.t, 0);
    } else {
      assert bits' == bits;
    }
  }

  /** T - 1 failures allowed for every change. */
  function Budget(cfg: Config, es: seq<Event>): nat
    requires Exec(cfg, es).Some? && cfg.threads > 0
  {
    if es == [] then 0 else
    Budget(cfg, es[..|es| - 1])
    + if Changes(cfg, Exec(cfg, es[..|es| - 1]).value, es[|es| - 1]) then cfg.threads - 1 else 0
  }

  lemma {:induction false} BudgetIsProduct(cfg: Config, es: seq<Event>)
    requires Exec(cfg, es).Some? && cfg.threads > 0
    ensures Budget(cfg, es) == Times(CounterChanges(cfg, es), cfg.threads - 1)
  {
    hide Times, Next, Enabled, Changes;
    OneMoreTime(if es == [] then 0 else CounterChanges(cfg, es[..|es| - 1]), cfg.threads - 1);
    if es != [] {
      BudgetIsProduct(cfg, es[..|es| - 1]);
    }
  }

  lemma {:induction false} FailuresWithinBudget(cfg: Config, es: seq<Event>)
    requires Exec(cfg, es).Some? && cfg.threads > 0
    ensures FailedExchanges(cfg, es) + Sum(DoomedBits(cfg, Exec(cfg, es).value)) <= Budget(cfg, es)
  {
    if es == [] {
      assert DoomedBits(cfg, Init(cfg)) == seq(cfg.threads, _ => 0);
      SumZero(cfg.threads);
    } else {
      FailuresWithinBudget(cfg, es[..|es| - 1]);
      DoomedStep(cfg, Exec(cfg, es[..|es| - 1]).value, es[|es| - 1]);
    }
  }

  /** Lock-freedom with a number: in every run there are at most T - 1 failed exchanges per counter change. */
  lemma LockFreedom(cfg: Config, es: seq<Event>)
    requires Exec(cfg, es).Some? && cfg.threads > 0
    ensures FailedExchanges(cfg, es) <= (cfg.threads - 1) * CounterChanges(cfg, es)
  {
    hide *;
    FailuresWithinBudget(cfg, es);
    BudgetIsProduct(cfg, es);
    TimesIsProduct(CounterChanges(cfg, es), cfg.threads - 1);
  }

  // ----- the number is right: one change can make all other threads fail -----

  /** Threads below `loaded` have loaded 0 for stage `s`; if `changed`, thread 0 has exchanged since and the threads
      from 1 to below `failed` have failed. */
  function RaceState(cfg: Config, s: nat, loaded: nat, changed: bool, failed: nat): (st: State)
    requires s < |cfg.max|
    ensures Shaped(cfg, st)
  {
    var init := Init(cfg);
    State(if changed then init.visitors[s := 1] else init.visitors, init.slot,
          seq(cfg.threads, (t: nat) =>
            if changed && t == 0 then Claimed(s) else
            if t < loaded && !(changed && t < failed) then Loaded(s, 0) else Ready))
  }

  lemma ExecOneMore(cfg: Config, es: seq<Event>, e: Event)
    requires Exec(cfg, es).Some? && Enabled(cfg, Exec(cfg, es).value, e)
    ensures Exec(cfg, es + [e]) == Some(Next(cfg, Exec(cfg, es).value, e))
    ensures var st := Exec(cfg, es).value;
            && FailedExchanges(cfg, es + [e]) == FailedExchanges(cfg, es) + (if Fails(cfg, st, e) then 1 else 0)
            && CounterChanges(cfg, es + [e]) == CounterChanges(cfg, es) + (if Changes(cfg, st, e) then 1 else 0)
  {
    assert (es + [e])[..|es|] == es;
  }

  lemma EarlyLoad(cfg: Config, s: nat, k: nat)
    requires s < |cfg.max| && cfg.max[s] > 0 && k < cfg.threads
    ensures var st := RaceState(cfg, s, k, false, 0);
            && Enabled(cfg, st, Load(k, s)) && Next(cfg, st, Load(k, s)) == RaceState(cfg, s, k + 1, false, 0)
  {
    var st' := Next(cfg, RaceState(cfg, s, k, false, 0), Load(k, s));
    assert st'.pc == RaceState(cfg, s, k + 1, false, 0).pc;
  }

  lemma {:induction false} AllLoad(cfg: Config, s: nat, k: nat) returns (es: seq<Event>)
    requires s < |cfg.max| && cfg.max[s] > 0 && k <= cfg.threads
    ensures Exec(cfg, es) == Some(RaceState(cfg, s, k, false, 0))
    ensures FailedExchanges(cfg, es) == 0 && CounterChanges(cfg, es) == 0
  {
    assert RaceState(cfg, s, 0, false, 0) == Init(cfg);
    hide RaceState, Next;
    if k == 0 {
      es := [];
    } else {
      es := AllLoad(cfg, s, k - 1);
      EarlyLoad(cfg, s, k - 1);
      ExecOneMore(cfg, es, Load(k - 1, s));
      es := es + [Load(k - 1, s)];
    }
  }

  lemma FirstExchange(cfg: Config, s: nat)
    requires s < |cfg.max| && cfg.max[s] > 0 && cfg.threads > 0
    ensures var st := RaceState(cfg, s, cfg.threads, false, 0);
            && Enabled(cfg, st, Exchange(0)) && Changes(cfg, st, Exchange(0)) && !Fails(cfg, st, Exchange(0))
            && Next(cfg, st, Exchange(0)) == RaceState(cfg, s, cfg.threads, true, 1)
  {
    var st' := Next(cfg, RaceState(cfg, s, cfg.threads, false, 0), Exchange(0));
    assert st'.pc == RaceState(cfg, s, cfg.threads, true, 1).pc;
  }

  lemma LateExchange(cfg: Config, s: nat, k: nat)
    requires s < |cfg.max| && 1 <= k < cfg.threads
    ensures var st := RaceState(cfg, s, cfg.threads, true, k);
            && Enabled(cfg, st, Exchange(k)) && Fails(cfg, st, Exchange(k)) && !Changes(cfg, st, Exchange(k))
            && Next(cfg, st, Exchange(k)) == RaceState(cfg, s, cfg.threads, true, k + 1)
  {
    var st' := Next(cfg, RaceState(cfg, s, cfg.threads, true, k), Exchange(k));
    assert st'.pc == RaceState(cfg, s, cfg.threads, true, k + 1).pc;
  }

  lemma {:induction false} OthersFail(cfg: Config, s: nat, k: nat) returns (es: seq<Event>)
    requires s < |cfg.max| && cfg.max[s] > 0 && 1 <= k <= cfg.threads
    ensures Exec(cfg, es) == Some(RaceState(cfg, s, cfg.threads, true, k))
    ensures FailedExchanges(cfg, es) == k - 1 && CounterChanges(cfg, es) == 1
  {
    hide RaceState, Next;
    if k == 1 {
      es := AllLoad(cfg, s, cfg.threads);
      FirstExchange(cfg, s);
      ExecOneMore(cfg, es, Exchange(0));
      es := es + [Exchange(0)];
    } else {
      es := OthersFail(cfg, s, k - 1);
      LateExchange(cfg, s, k - 1);
      ExecOneMore(cfg, es, Exchange(k - 1));
      es := es + [Exchange(k - 1)];
    }
  }

  /** For any number of threads some run has one counter change and T - 1 failed exchanges. */
  lemma LockFreedomIsTight(cfg: Config)
    requires cfg.threads > 0 && exists s | 0 <= s < |cfg.max| :: cfg.max[s] > 0
    ensures exists es :: Exec(cfg, es).Some? && CounterChanges(cfg, es) == 1
                         && FailedExchanges(cfg, es) == cfg.threads - 1
  {
    var s :| 0 <= s < |cfg.max| && cfg.max[s] > 0;
    var es := OthersFail(cfg, s, cfg.threads);
  }

  // ----- when does an exchange fail although there is room? -----

  /** The thread's exchange on `s` is due and fails, in a state in which `s` has room. */
  predicate FailsWithRoom(cfg: Config, st: State, t: nat, s: nat)
    requires Shaped(cfg, st)
  {
    && Enabled(cfg, st, Exchange(t)) && Fails(cfg, st, Exchange(t))
    && st.pc[t].stage == s && Room(cfg.max, Held(cfg, st), s)
  }

  ghost predicate FailsOnlyWhenFull(cfg: Config, s: nat)
  {
    forall es, t: nat | Exec(cfg, es).Some? :: !FailsWithRoom(cfg, Exec(cfg, es).value, t, s)
  }

  /** One thread loads, another claims, and the first one's exchange fails; the stage has taken one of its two or more
      visitors. */
  lemma FailureWithRoom(cfg: Config, s: nat)
    requires cfg.Valid() && s < |cfg.max| && cfg.max[s] >= 2 && cfg.threads >= 2
    ensures exists es :: Exec(cfg, es).Some? && var st := Exec(cfg, es).value;
              FailsWithRoom(cfg, st, 1, s) && st.visitors[s] == 1 && st.pc[1] == Loaded(s, 0)
  {
    var es := OthersFail(cfg, s, 1);
    var st := RaceState(cfg, s, cfg.threads, true, 1);
    CountersAreHolders(cfg, es);
    assert st.pc[1] == Loaded(s, 0) && st.visitors[s] == 1;
  }

  lemma {:induction false} NoOthers(cfg: Config, es: seq<Event>, t: nat, s: nat)
    requires Exec(cfg, es).Some? && t < cfg.threads <= 1
    ensures ChangesByOthers(cfg, es, t, s) == 0
  {
    if es != [] {
      NoOthers(cfg, es[..|es| - 1], t, s);
    }
  }

  /** "Success if there is room" is kept, in every run, exactly by the stages that take one visitor at most, and by
      every stage if there is no second thread. */
  lemma FailsOnlyWhenFullExactly(cfg: Config, s: nat)
    requires cfg.Valid() && s < |cfg.max|
    ensures FailsOnlyWhenFull(cfg, s) <==> cfg.max[s] <= 1 || cfg.threads <= 1
  {
    if cfg.max[s] >= 2 && cfg.threads >= 2 {
      FailureWithRoom(cfg, s);
    } else {
      forall es, t: nat | Exec(cfg, es).Some?
        ensures !FailsWithRoom(cfg, Exec(cfg, es).value, t, s)
      {
        var st := Exec(cfg, es).value;
        CountersAreHolders(cfg, es);
        if t < cfg.threads && Doomed(cfg, st, t) && st.pc[t].stage == s {
          assert ThreadOk(cfg, st, t);
          if cfg.threads <= 1 {
            FailuresHaveCauses(cfg, es, t, s);
            NoOthers(cfg, es, t, s);
          }
        }
      }
    }
  }
}

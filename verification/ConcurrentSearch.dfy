/** Any number of searches at once (wield/schedulers/RoundRobin.hpp and wield/schedulers/SRPT.hpp on the claim protocol
    of ClaimProtocol.dfy). All of them together get on, although a single one can be overtaken without bound. */
module ConcurrentSearch {
  import opened Counting
  import opened Assignments
  import opened StageSearch
  import opened CP = ClaimProtocol
  import RR = RoundRobin
  import S = Srpt

  /** Round robin tries the stages upward, SRPT downward (under exhaustive polling: see Srpt.SimulatesRoundRobin). */
  datatype Direction = Up | Down

  /** The stage tried after `next`. */
  function TryAfter(dir: Direction, n: nat, next: nat): (s: nat)
    requires next <= n < SIZE
    ensures s <= n && (n > 0 ==> s < n)
  {
    match dir case Up => RR.IncrementStage(n, next) case Down => S.DecrementStage(n, next)
  }

  /** All stages in the order they are tried. */
  function TriesFrom(dir: Direction, n: nat, next: nat): (order: seq<nat>)
    requires next <= n < SIZE
    ensures |order| == n
    ensures forall k | 0 <= k < n :: order[k] < n
  {
    match dir case Up => RR.UpFrom(n, next) case Down => S.DownFrom(n, next)
  }

  /** `next`: the local variable of each thread's `nextStage`. */
  datatype Searches = Searches(claims: CP.State, next: seq<nat>)

  predicate Fine(cfg: Config, st: Searches)
  {
    && |cfg.max| < SIZE && Shaped(cfg, st.claims) && |st.next| == cfg.threads
    && forall t | 0 <= t < cfg.threads :: st.next[t] <= |cfg.max|
  }

  /** A thread tries the stage after the one it tried last, or left. */
  predicate MayStep(dir: Direction, cfg: Config, st: Searches, e: Event)
    requires Fine(cfg, st)
  {
    Enabled(cfg, st.claims, e) && (e.Load? ==> e.s == TryAfter(dir, |cfg.max|, st.next[e.t]))
  }

  function Step(dir: Direction, cfg: Config, st: Searches, e: Event): (st': Searches)
    requires Fine(cfg, st) && MayStep(dir, cfg, st, e)
    ensures Fine(cfg, st')
  {
    Searches(Next(cfg, st.claims, e),
             match e
             case Load(t, s) => st.next[t := s]
             case ClearSlot(t) => st.next[t := st.claims.pc[t].stage]
             case _ => st.next)
  }

  function Run(dir: Direction, cfg: Config, es: seq<Event>): (r: Option<Searches>)
    requires |cfg.max| < SIZE
    ensures r.Some? ==> Fine(cfg, r.value)
  {
    if es == [] then Some(Searches(Init(cfg), seq(cfg.threads, _ => |cfg.max|))) else
    match Run(dir, cfg, es[..|es| - 1])
    case None => None
    case Some(st) => if MayStep(dir, cfg, st, es[|es| - 1]) then Some(Step(dir, cfg, st, es[|es| - 1])) else None
  }

  /** Every run is one of the claim protocol. */
  lemma {:induction false} RunOfProtocol(dir: Direction, cfg: Config, es: seq<Event>)
    requires |cfg.max| < SIZE && Run(dir, cfg, es).Some?
    ensures Exec(cfg, es) == Some(Run(dir, cfg, es).value.claims)
  {
    if es != [] {
      RunOfProtocol(dir, cfg, es[..|es| - 1]);
    }
  }

  // ----- how far a thread can go while no counter changes -----

  /** The tries a search needs from where it is. */
  function Tries(dir: Direction, cfg: Config, held: seq<nat>, next: nat): nat
    requires next <= |cfg.max| < SIZE
  {
    FirstRoom(cfg.max, held, TriesFrom(dir, |cfg.max|, next)) + 1
  }

  function Fuel(dir: Direction, cfg: Config, st: Searches, t: nat): nat
    requires Fine(cfg, st) && t < cfg.threads
  {
    match st.claims.pc[t]
    case Claimed(_) => 1
    case Released(_) => |cfg.max| + 1
    case Loaded(_, _) => if Doomed(cfg, st.claims, t) then |cfg.max| + 1 else 0
    case Ready => if st.claims.slot[t] != |cfg.max| then 0 else Tries(dir, cfg, Held(cfg, st.claims), st.next[t])
  }

  function Fuels(dir: Direction, cfg: Config, st: Searches): (fuels: seq<nat>)
    requires Fine(cfg, st)
    ensures |fuels| == cfg.threads && forall t | 0 <= t < cfg.threads :: fuels[t] == Fuel(dir, cfg, st, t)
  {
    seq(cfg.threads, t requires 0 <= t < cfg.threads => Fuel(dir, cfg, st, t))
  }

  lemma {:induction false} SumBounded(s: seq<nat>, bound: nat)
    requires forall i | 0 <= i < |s| :: s[i] <= bound
    ensures Sum(s) <= |s| * bound
  {
    if s != [] {
      SumBounded(s[..|s| - 1], bound);
      assert (|s| - 1) * bound + bound == |s| * bound;
    }
  }

  lemma FuelBounded(dir: Direction, cfg: Config, st: Searches)
    requires Fine(cfg, st)
    ensures Sum(Fuels(dir, cfg, st)) <= cfg.threads * (|cfg.max| + 1)
  {
    SumBounded(Fuels(dir, cfg, st), |cfg.max| + 1);
  }

  /** A search that holds nothing has a stage ahead. */
  lemma SearchEnds(dir: Direction, cfg: Config, st: Searches, t: nat)
    requires Fine(cfg, st) && Inv(cfg, st.claims) && cfg.threads <= Sum(cfg.max)
    requires t < cfg.threads && HeldBy(cfg, st.claims, t) == |cfg.max|
    ensures Tries(dir, cfg, Held(cfg, st.claims), st.next[t]) <= |cfg.max|
  {
    Pigeonhole(cfg.max, Held(cfg, st.claims), t);
    match dir
    case Up => RR.RoomInUpFrom(cfg.max, Held(cfg, st.claims), st.next[t]);
    case Down => S.RoomInDownFrom(cfg.max, Held(cfg, st.claims), st.next[t]);
  }

  lemma OrderGoesOn(dir: Direction, n: nat, next: nat)
    requires next <= n < SIZE && n > 0
    ensures TriesFrom(dir, n, next)[0] == TryAfter(dir, n, next)
    ensures forall j | 0 <= j < n - 1 ::
              TriesFrom(dir, n, TryAfter(dir, n, next))[j] == TriesFrom(dir, n, next)[j + 1]
  {
    match dir
    case Up => UpGoesOn(n, next);
    case Down => DownGoesOn(n, next);
  }

  lemma UpGoesOn(n: nat, next: nat)
    requires next <= n && n > 0
    ensures RR.UpFrom(n, next)[0] == RR.IncrementStage(n, next)
    ensures forall j | 0 <= j < n - 1 :: RR.UpFrom(n, RR.IncrementStage(n, next))[j] == RR.UpFrom(n, next)[j + 1]
  {
  }

  lemma DownGoesOn(n: nat, next: nat)
    requires next <= n < SIZE && n > 0
    ensures S.DownFrom(n, next)[0] == S.DecrementStage(n, next)
    ensures forall j | 0 <= j < n - 1 :: S.DownFrom(n, S.DecrementStage(n, next))[j] == S.DownFrom(n, next)[j + 1]
  {
  }

  /** A try that finds no room leaves one try less. */
  lemma OneTryLess(dir: Direction, cfg: Config, held: seq<nat>, next: nat)
    requires next <= |cfg.max| < SIZE && Tries(dir, cfg, held, next) <= |cfg.max|
    requires !Room(cfg.max, held, TryAfter(dir, |cfg.max|, next))
    ensures Tries(dir, cfg, held, TryAfter(dir, |cfg.max|, next)) + 1 == Tries(dir, cfg, held, next)
  {
    hide TriesFrom, TryAfter, Room;
    var n := |cfg.max|;
    var order, order' := TriesFrom(dir, n, next), TriesFrom(dir, n, TryAfter(dir, n, next));
    var k := FirstRoom(cfg.max, held, order);
    OrderGoesOn(dir, n, next);
    FirstRoomUnique(cfg.max, held, order', k - 1);
  }

  /** While no counter changes, a step of a thread uses up fuel. */
  lemma FuelUsed(dir: Direction, cfg: Config, st: Searches, e: Event)
    requires cfg.Valid() && cfg.threads <= Sum(cfg.max)
    requires Fine(cfg, st) && Inv(cfg, st.claims) && MayStep(dir, cfg, st, e) && !Changes(cfg, st.claims, e)
    ensures Fuel(dir, cfg, Step(dir, cfg, st, e), e.t) < Fuel(dir, cfg, st, e.t)
  {
    var st' := Step(dir, cfg, st, e);
    assert ThreadOk(cfg, st.claims, e.t);
    StepKeepsInv(cfg, st.claims, e);
    HeldAfterStep(cfg, st.claims, e);
    match e
    case Load(t, s) =>
      SearchEnds(dir, cfg, st, t);
      if st.claims.visitors[s] >= cfg.max[s] {
        OneTryLess(dir, cfg, Held(cfg, st.claims), st.next[t]);
      }
    case Exchange(t) => SearchEnds(dir, cfg, st', t);
    case ClearSlot(t) => SearchEnds(dir, cfg, st', t);
    case WriteSlot(t) =>
  }

  lemma FuelKept(dir: Direction, cfg: Config, st: Searches, e: Event, u: nat)
    requires Fine(cfg, st) && Inv(cfg, st.claims) && MayStep(dir, cfg, st, e) && !Changes(cfg, st.claims, e)
    requires u < cfg.threads && u != e.t
    ensures Fuel(dir, cfg, Step(dir, cfg, st, e), u) == Fuel(dir, cfg, st, u)
  {
    assert ThreadOk(cfg, st.claims, e.t);
    HeldAfterStep(cfg, st.claims, e);
  }

  lemma FuelSinks(dir: Direction, cfg: Config, st: Searches, e: Event)
    requires cfg.Valid() && cfg.threads <= Sum(cfg.max)
    requires Fine(cfg, st) && Inv(cfg, st.claims) && MayStep(dir, cfg, st, e) && !Changes(cfg, st.claims, e)
    ensures Sum(Fuels(dir, cfg, Step(dir, cfg, st, e))) < Sum(Fuels(dir, cfg, st))
  {
    hide Fuel, Step, Inv;
    var st' := Step(dir, cfg, st, e);
    FuelUsed(dir, cfg, st, e);
    forall u | 0 <= u < cfg.threads && u != e.t
      ensures Fuels(dir, cfg, st')[u] == Fuels(dir, cfg, st)[u]
    {
      FuelKept(dir, cfg, st, e, u);
    }
    assert Fuels(dir, cfg, st') == Fuels(dir, cfg, st)[e.t := Fuel(dir, cfg, st', e.t)];
    SumUpdate(Fuels(dir, cfg, st), e.t, Fuel(dir, cfg, st', e.t));
  }

  // ----- undisturbed, a search is that of the policy -----

  function RunFrom(dir: Direction, cfg: Config, st: Searches, es: seq<Event>): (r: Option<Searches>)
    requires Fine(cfg, st)
    ensures r.Some? ==> Fine(cfg, r.value)
    decreases |es|
  {
    if es == [] then Some(st)
    else if MayStep(dir, cfg, st, es[0]) then RunFrom(dir, cfg, Step(dir, cfg, st, es[0]), es[1..])
    else None
  }

  /** Steps of thread `t` alone lead from one state to the other. */
  ghost predicate Alone(dir: Direction, cfg: Config, st: Searches, es: seq<Event>, st': Searches, t: nat)
  {
    Fine(cfg, st) && RunFrom(dir, cfg, st, es) == Some(st') && forall i | 0 <= i < |es| :: es[i].t == t
  }

  lemma AloneNothing(dir: Direction, cfg: Config, st: Searches, t: nat)
    requires Fine(cfg, st)
    ensures Alone(dir, cfg, st, [], st, t)
  {
  }

  lemma AloneFirst(dir: Direction, cfg: Config, st: Searches, e: Event, es: seq<Event>, st': Searches)
    requires Fine(cfg, st) && MayStep(dir, cfg, st, e) && Alone(dir, cfg, Step(dir, cfg, st, e), es, st', e.t)
    ensures Alone(dir, cfg, st, [e] + es, st', e.t)
  {
    hide Fine, MayStep, Step;
    assert ([e] + es)[1..] == es;
  }

  /** The thread holds `s` and is done. */
  predicate PlacedAt(cfg: Config, st: Searches, st': Searches, t: nat, s: nat)
    requires Fine(cfg, st) && Fine(cfg, st') && t < cfg.threads
  {
    && s < |cfg.max| && st'.claims.slot == st.claims.slot[t := s] && st'.claims.pc == st.claims.pc[t := Ready]
    && st'.next == st.next[t := s]
  }

  /** A free thread takes the first stage with room in its order, in as many tries as that takes. */
  lemma {:induction false} SearchAlone(dir: Direction, cfg: Config, st: Searches, t: nat)
    returns (es: seq<Event>, st': Searches)
    requires cfg.Valid() && cfg.threads <= Sum(cfg.max) && Fine(cfg, st) && Inv(cfg, st.claims)
    requires t < cfg.threads && st.claims.pc[t].Ready? && st.claims.slot[t] == |cfg.max|
    ensures Alone(dir, cfg, st, es, st', t) && Fine(cfg, st')
    ensures Tries(dir, cfg, Held(cfg, st.claims), st.next[t]) <= |cfg.max|
    ensures |es| == Tries(dir, cfg, Held(cfg, st.claims), st.next[t]) + 2
    ensures PlacedAt(cfg, st, st', t, TriesFrom(dir, |cfg.max|, st.next[t])[|es| - 3])
    decreases Tries(dir, cfg, Held(cfg, st.claims), st.next[t])
  {
    hide Inv, TriesFrom, TryAfter, Alone, Step, MayStep;
    var n, held := |cfg.max|, Held(cfg, st.claims);
    SearchEnds(dir, cfg, st, t);
    OrderGoesOn(dir, n, st.next[t]);
    var s := TryAfter(dir, n, st.next[t]);
    if Room(cfg.max, held, s) {
      es, st' := TakeAlone(dir, cfg, st, t, s);
    } else {
      OneTryLess(dir, cfg, held, st.next[t]);
      BounceAlone(dir, cfg, st, t, s);
      var bounced := Step(dir, cfg, st, Load(t, s));
      es, st' := SearchAlone(dir, cfg, bounced, t);
      AloneFirst(dir, cfg, st, Load(t, s), es, st');
      assert bounced.next[t := st'.next[t]] == st.next[t := st'.next[t]];
      es := [Load(t, s)] + es;
    }
  }

  lemma BounceAlone(dir: Direction, cfg: Config, st: Searches, t: nat, s: nat)
    requires Fine(cfg, st) && Inv(cfg, st.claims) && t < cfg.threads && s < |cfg.max|
    requires st.claims.pc[t].Ready? && st.claims.slot[t] == |cfg.max| && s == TryAfter(dir, |cfg.max|, st.next[t])
    requires !Room(cfg.max, Held(cfg, st.claims), s)
    ensures MayStep(dir, cfg, st, Load(t, s)) && Step(dir, cfg, st, Load(t, s)) == st.(next := st.next[t := s])
  {
  }

  lemma TakeAlone(dir: Direction, cfg: Config, st: Searches, t: nat, s: nat) returns (es: seq<Event>, st': Searches)
    requires cfg.Valid() && Fine(cfg, st) && Inv(cfg, st.claims) && t < cfg.threads
    requires st.claims.pc[t].Ready? && st.claims.slot[t] == |cfg.max| && s == TryAfter(dir, |cfg.max|, st.next[t])
    requires Room(cfg.max, Held(cfg, st.claims), s)
    ensures Alone(dir, cfg, st, es, st', t) && Fine(cfg, st') && |es| == 3 && PlacedAt(cfg, st, st', t, s)
  {
    hide Alone;
    var e1, e2, e3 := Load(t, s), Exchange(t), WriteSlot(t);
    var st1 := Step(dir, cfg, st, e1);
    var st2 := Step(dir, cfg, st1, e2);
    st' := Step(dir, cfg, st2, e3);
    AloneNothing(dir, cfg, st', t);
    AloneFirst(dir, cfg, st2, e3, [], st');
    AloneFirst(dir, cfg, st1, e2, [e3] + [], st');
    AloneFirst(dir, cfg, st, e1, [e2] + ([e3] + []), st');
    es := [e1] + ([e2] + ([e3] + []));
  }

  /** The policy's choice for a thread that leaves its stage: what the class computes. */
  function Choice(dir: Direction, max: seq<nat>, slots: seq<nat>, t: nat): nat
    requires |max| < SIZE && t < |slots| && slots[t] <= |max| && SomeRoom(max, Assignments.Released(max, slots, t))
  {
    match dir case Up => RR.Next(max, slots, t) case Down => S.Next(max, slots, false, t)
  }

  lemma ChoiceIsFirst(dir: Direction, max: seq<nat>, slots: seq<nat>, t: nat)
    requires |max| < SIZE && t < |slots| && slots[t] <= |max| && SomeRoom(max, Assignments.Released(max, slots, t))
    ensures var order := TriesFrom(dir, |max|, slots[t]);
            var k := FirstRoom(max, Assignments.Released(max, slots, t), order);
            k < |max| && Choice(dir, max, slots, t) == order[k]
  {
    match dir
    case Up => RR.RoomInUpFrom(max, Assignments.Released(max, slots, t), slots[t]);
    case Down => S.RoomInDownFrom(max, Assignments.Released(max, slots, t), slots[t]);
  }

  /** Undisturbed, a thread that leaves a stage and searches comes to the stage that `RoundRobin.NextStage` gives, or
      `Srpt.NextStage` after a batch that ended without a message, and holds it. */
  lemma LeaveAndSearchAlone(dir: Direction, cfg: Config, st: Searches, t: nat) returns (es: seq<Event>, st': Searches)
    requires cfg.Valid() && cfg.threads <= Sum(cfg.max) && Fine(cfg, st) && Inv(cfg, st.claims)
    requires t < cfg.threads && st.claims.pc[t].Ready? && st.claims.slot[t] < |cfg.max|
    ensures Alone(dir, cfg, st, es, st', t) && Fine(cfg, st')
    ensures SomeRoom(cfg.max, Assignments.Released(cfg.max, Held(cfg, st.claims), t))
    ensures PlacedAt(cfg, st, st', t, Choice(dir, cfg.max, Held(cfg, st.claims), t))
  {
    hide Alone, PlacedAt, Inv, Step, MayStep, Choice, TriesFrom, SomeRoom;
    var left := LeaveAlone(dir, cfg, st, t);
    InvFacts(cfg, left.claims, t);
    PlacedRange(cfg, left, t);
    Pigeonhole(cfg.max, Held(cfg, left.claims), t);
    es, st' := SearchAlone(dir, cfg, left, t);
    ChoiceIsFirst(dir, cfg.max, Held(cfg, st.claims), t);
    LeftAndPlaced(cfg, st, left, st', t, TriesFrom(dir, |cfg.max|, left.next[t])[|es| - 3]);
    AloneFirst(dir, cfg, Step(dir, cfg, st, Decrement(t)), ClearSlot(t), es, st');
    AloneFirst(dir, cfg, st, Decrement(t), [ClearSlot(t)] + es, st');
    es := [Decrement(t)] + ([ClearSlot(t)] + es);
  }

  lemma LeaveAlone(dir: Direction, cfg: Config, st: Searches, t: nat) returns (left: Searches)
    requires cfg.Valid() && Fine(cfg, st) && Inv(cfg, st.claims)
    requires t < cfg.threads && st.claims.pc[t].Ready? && st.claims.slot[t] < |cfg.max|
    ensures MayStep(dir, cfg, st, Decrement(t))
    ensures var st1 := Step(dir, cfg, st, Decrement(t));
            MayStep(dir, cfg, st1, ClearSlot(t)) && left == Step(dir, cfg, st1, ClearSlot(t))
    ensures Fine(cfg, left) && Inv(cfg, left.claims) && left.claims.pc[t].Ready?
    ensures left.claims.slot == st.claims.slot[t := |cfg.max|] && left.claims.pc == st.claims.pc[t := left.claims.pc[t]]
    ensures left.next == st.next[t := st.claims.slot[t]] && Held(cfg, st.claims)[t] == st.claims.slot[t]
    ensures Held(cfg, left.claims) == Assignments.Released(cfg.max, Held(cfg, st.claims), t)
  {
    hide Inv;
    var st1 := Step(dir, cfg, st, Decrement(t));
    InvFacts(cfg, st.claims, t);
    StepKeepsInv(cfg, st.claims, Decrement(t));
    HeldAfterStep(cfg, st.claims, Decrement(t));
    left := Step(dir, cfg, st1, ClearSlot(t));
    InvFacts(cfg, st1.claims, t);
    StepKeepsInv(cfg, st1.claims, ClearSlot(t));
    HeldAfterStep(cfg, st1.claims, ClearSlot(t));
  }

  lemma PlacedRange(cfg: Config, st: Searches, t: nat)
    requires cfg.Valid() && Fine(cfg, st) && Inv(cfg, st.claims)
    ensures WellAssigned(cfg.max, Held(cfg, st.claims))
  {
  }

  lemma InvFacts(cfg: Config, st: CP.State, t: nat)
    requires Inv(cfg, st) && t < cfg.threads
    ensures Shaped(cfg, st) && ThreadOk(cfg, st, t)
  {
  }

  lemma LeftAndPlaced(cfg: Config, st: Searches, left: Searches, st': Searches, t: nat, s: nat)
    requires Fine(cfg, st) && Fine(cfg, left) && Fine(cfg, st') && t < cfg.threads && PlacedAt(cfg, left, st', t, s)
    requires left.claims.slot == st.claims.slot[t := |cfg.max|]
    requires left.claims.pc == st.claims.pc[t := left.claims.pc[t]]
    requires left.next == st.next[t := left.next[t]]
    ensures PlacedAt(cfg, st, st', t, s)
  {
  }

  // ----- some counter changes soon -----

  /** Steps since the last change of a counter. */
  function StepsSinceChange(cfg: Config, es: seq<Event>): nat
    requires Exec(cfg, es).Some?
  {
    if es == [] || Changes(cfg, Exec(cfg, es[..|es| - 1]).value, es[|es| - 1]) then 0
    else 1 + StepsSinceChange(cfg, es[..|es| - 1])
  }

  lemma {:induction false} StepsWithinFuel(dir: Direction, cfg: Config, es: seq<Event>)
    requires cfg.Valid() && |cfg.max| < SIZE && cfg.threads <= Sum(cfg.max) && Run(dir, cfg, es).Some?
    ensures Exec(cfg, es).Some?
    ensures StepsSinceChange(cfg, es) + Sum(Fuels(dir, cfg, Run(dir, cfg, es).value)) <= cfg.threads * (|cfg.max| + 1)
  {
    RunOfProtocol(dir, cfg, es);
    FuelBounded(dir, cfg, Run(dir, cfg, es).value);
    if es != [] {
      var front, e := es[..|es| - 1], es[|es| - 1];
      RunOfProtocol(dir, cfg, front);
      StepsWithinFuel(dir, cfg, front);
      CountersAreHolders(cfg, front);
      if !Changes(cfg, Exec(cfg, front).value, e) {
        FuelSinks(dir, cfg, Run(dir, cfg, front).value, e);
      }
    }
  }

  function StepsPerChange(cfg: Config): (steps: nat)
  {
    cfg.threads * (|cfg.max| + 1) + 1
  }

  /** With no more threads than units of concurrency, in every run of any searches and releases some counter changes at
      least once in any T * (N + 1) + 1 consecutive steps. */
  lemma SomeoneGetsOn(dir: Direction, cfg: Config, es: seq<Event>)
    requires cfg.Valid() && |cfg.max| < SIZE && cfg.threads <= Sum(cfg.max) && Run(dir, cfg, es).Some?
    ensures Exec(cfg, es).Some? && StepsSinceChange(cfg, es) <= cfg.threads * (|cfg.max| + 1)
    ensures StepsSinceChange(cfg, es) < StepsPerChange(cfg)
  {
    StepsWithinFuel(dir, cfg, es);
  }

  // ----- and often enough it is a claim -----

  function Claims(cfg: Config, es: seq<Event>): nat
    requires Exec(cfg, es).Some?
  {
    if es == [] then 0 else
    var st, e := Exec(cfg, es[..|es| - 1]).value, es[|es| - 1];
    Claims(cfg, es[..|es| - 1]) + if e.Exchange? && Changes(cfg, st, e) then 1 else 0
  }

  /** Whoever holds a stage has claimed it and not released it. */
  lemma {:induction false} ClaimsAndHolders(cfg: Config, es: seq<Event>)
    requires cfg.Valid() && Exec(cfg, es).Some?
    ensures Claims(cfg, es) + (Claims(cfg, es) + Count(Held(cfg, Exec(cfg, es).value), |cfg.max|))
         == CounterChanges(cfg, es) + cfg.threads
  {
    if es == [] {
      assert Held(cfg, Init(cfg)) == seq(cfg.threads, _ => |cfg.max|);
      CountRepeat(cfg.threads, |cfg.max|, |cfg.max|);
    } else {
      var front, e := es[..|es| - 1], es[|es| - 1];
      var st := Exec(cfg, front).value;
      ClaimsAndHolders(cfg, front);
      CountersAreHolders(cfg, front);
      StepKeepsInv(cfg, st, e);
      HolderStep(cfg, st, e);
    }
  }

  lemma HolderStep(cfg: Config, st: CP.State, e: Event)
    requires cfg.Valid() && Inv(cfg, st) && Enabled(cfg, st, e)
    ensures Count(Held(cfg, Next(cfg, st, e)), |cfg.max|)
         == Count(Held(cfg, st), |cfg.max|)
            + if !Changes(cfg, st, e) then 0 else if e.Exchange? then -1 else 1
  {
    assert ThreadOk(cfg, st, e.t);
    HeldAfterStep(cfg, st, e);
    StepKeepsInv(cfg, st, e);
    var taken := if e.Decrement? then |cfg.max| else if st.pc[e.t].Ready? then 0 else st.pc[e.t].stage;
    CountUpdate(Held(cfg, st), e.t, taken, |cfg.max|);
  }

  predicate WithinTimes(length: nat, changes: nat, steps: nat, since: nat)
  {
    length <= Times(changes, steps) + since
  }

  lemma OneStepMore(length: nat, changes: nat, steps: nat, since: nat)
    requires WithinTimes(length, changes, steps, since) && since < steps
    ensures WithinTimes(length + 1, changes, steps, since + 1)
    ensures WithinTimes(length + 1, changes + 1, steps, 0)
  {
    OneMoreTime(changes, steps);
  }

  lemma {:induction false} RunLength(dir: Direction, cfg: Config, es: seq<Event>)
    requires cfg.Valid() && |cfg.max| < SIZE && cfg.threads <= Sum(cfg.max) && Run(dir, cfg, es).Some?
    ensures Exec(cfg, es).Some?
    ensures WithinTimes(|es|, CounterChanges(cfg, es), StepsPerChange(cfg), StepsSinceChange(cfg, es))
  {
    hide StepsPerChange, Next, Step, Enabled, MayStep, Changes;
    RunOfProtocol(dir, cfg, es);
    if es != [] {
      var front := es[..|es| - 1];
      RunOfProtocol(dir, cfg, front);
      RunLength(dir, cfg, front);
      SomeoneGetsOn(dir, cfg, front);
      OneStepMore(|front|, CounterChanges(cfg, front), StepsPerChange(cfg), StepsSinceChange(cfg, front));
    }
  }

  lemma BoundByClaims(length: nat, changes: nat, steps: nat, since: nat, claims: nat)
    requires WithinTimes(length, changes, steps, since) && since < steps && changes <= 2 * claims
    ensures length < (2 * claims + 1) * steps
  {
    TimesIsProduct(2 * claims + 1, steps);
    TimesMonotone(changes, 2 * claims, steps);
    OneMoreTime(2 * claims, steps);
  }

  /** Claims keep coming: a run with c claims takes fewer than (2c + 1) * (T * (N + 1) + 1) steps. */
  lemma ClaimsKeepComing(dir: Direction, cfg: Config, es: seq<Event>)
    requires cfg.Valid() && |cfg.max| < SIZE && cfg.threads <= Sum(cfg.max) && Run(dir, cfg, es).Some?
    ensures Exec(cfg, es).Some?
    ensures |es| < (2 * Claims(cfg, es) + 1) * (cfg.threads * (|cfg.max| + 1) + 1)
  {
    hide *;
    StepsPerChangeIs(cfg);
    RunLength(dir, cfg, es);
    SomeoneGetsOn(dir, cfg, es);
    ReleasesAreFewer(cfg, es);
    BoundByClaims(|es|, CounterChanges(cfg, es), StepsPerChange(cfg), StepsSinceChange(cfg, es), Claims(cfg, es));
  }

  lemma StepsPerChangeIs(cfg: Config)
    ensures StepsPerChange(cfg) == cfg.threads * (|cfg.max| + 1) + 1
  {
  }

  lemma ReleasesAreFewer(cfg: Config, es: seq<Event>)
    requires cfg.Valid() && Exec(cfg, es).Some?
    ensures CounterChanges(cfg, es) <= 2 * Claims(cfg, es)
  {
    ClaimsAndHolders(cfg, es);
    CountAtMostLength(Held(cfg, Exec(cfg, es).value), |cfg.max|);
  }

  // ----- a single search -----

  /** Tries of thread `t` since it last claimed or left a stage. */
  function TriesOf(cfg: Config, es: seq<Event>, t: nat): nat
    requires Exec(cfg, es).Some?
  {
    if es == [] then 0 else
    var front, e := es[..|es| - 1], es[|es| - 1];
    if e.t == t && Changes(cfg, Exec(cfg, front).value, e) then 0
    else TriesOf(cfg, front, t) + if e.t == t && e.Load? then 1 else 0
  }

  /** No search ever takes more than `bound` tries. */
  ghost predicate TriesWithin(dir: Direction, cfg: Config, bound: nat)
    requires |cfg.max| < SIZE
  {
    forall es, t: nat | Run(dir, cfg, es).Some? && Exec(cfg, es).Some? && t < cfg.threads ::
      TriesOf(cfg, es, t) <= bound
  }

  /** What a lone thread has tried and has yet to try. */
  ghost predicate LoneSearch(dir: Direction, cfg: Config, st: Searches, tries: nat)
    requires Fine(cfg, st) && cfg.threads == 1
  {
    match st.claims.pc[0]
    case Ready =>
      if st.claims.slot[0] == |cfg.max| then tries + Tries(dir, cfg, Held(cfg, st.claims), st.next[0]) <= |cfg.max|
      else tries <= |cfg.max|
    case Loaded(_, _) => tries <= |cfg.max|
    case _ => tries == 0
  }

  lemma LoneStep(dir: Direction, cfg: Config, st: Searches, e: Event, tries: nat)
    requires cfg.Valid() && cfg.threads == 1 <= Sum(cfg.max) && Fine(cfg, st) && Inv(cfg, st.claims)
    requires MayStep(dir, cfg, st, e) && !Doomed(cfg, st.claims, 0) && LoneSearch(dir, cfg, st, tries)
    ensures LoneSearch(dir, cfg, Step(dir, cfg, st, e),
                       if Changes(cfg, st.claims, e) then 0 else tries + if e.Load? then 1 else 0)
  {
    var st' := Step(dir, cfg, st, e);
    assert ThreadOk(cfg, st.claims, 0);
    StepKeepsInv(cfg, st.claims, e);
    HeldAfterStep(cfg, st.claims, e);
    match e
    case Load(t, s) =>
      if st.claims.visitors[s] >= cfg.max[s] {
        SearchEnds(dir, cfg, st, 0);
        OneTryLess(dir, cfg, Held(cfg, st.claims), st.next[0]);
      }
    case ClearSlot(_) => SearchEnds(dir, cfg, st', 0);
    case _ =>
  }

  lemma {:induction false} LoneRun(dir: Direction, cfg: Config, es: seq<Event>)
    requires cfg.Valid() && |cfg.max| < SIZE && cfg.threads == 1 <= Sum(cfg.max) && Run(dir, cfg, es).Some?
    ensures Exec(cfg, es).Some? && LoneSearch(dir, cfg, Run(dir, cfg, es).value, TriesOf(cfg, es, 0))
    ensures TriesOf(cfg, es, 0) <= |cfg.max|
  {
    RunOfProtocol(dir, cfg, es);
    if es == [] {
      CountersAreHolders(cfg, es);
      SearchEnds(dir, cfg, Run(dir, cfg, es).value, 0);
    } else {
      hide LoneSearch, Step, MayStep, Changes, Next;
      var front, e := es[..|es| - 1], es[|es| - 1];
      RunOfProtocol(dir, cfg, front);
      LoneRun(dir, cfg, front);
      CountersAreHolders(cfg, front);
      var pc := Exec(cfg, front).value.pc[0];
      FailuresHaveCauses(cfg, front, 0, if pc.Loaded? then pc.stage else 0);
      NoOthers(cfg, front, 0, if pc.Loaded? then pc.stage else 0);
      LoneStep(dir, cfg, Run(dir, cfg, front).value, e, TriesOf(cfg, front, 0));
    }
    LoneBound(dir, cfg, Run(dir, cfg, es).value, TriesOf(cfg, es, 0));
  }

  lemma LoneBound(dir: Direction, cfg: Config, st: Searches, tries: nat)
    requires Fine(cfg, st) && cfg.threads == 1 && LoneSearch(dir, cfg, st, tries)
    ensures tries <= |cfg.max|
  {
  }

  // ----- two searches in step: one is overtaken for ever -----

  /** The first two threads search side by side. They have last tried `next0` and `next1` and have got as far as `pc0`
      and `pc1`; `slot0` is the slot of thread 0, and `visitors` the counter of `next1`. All else is as at the start. */
  datatype Duel = Duel(next0: nat, next1: nat, visitors: nat, slot0: nat, pc0: Pc, pc1: Pc)

  predicate DuelOk(cfg: Config, d: Duel)
  {
    && cfg.threads >= 2 && 0 < |cfg.max| < SIZE && d.next0 <= |cfg.max| && d.next1 <= |cfg.max| && d.slot0 <= |cfg.max|
    && (d.pc0.Ready? || d.pc0.stage < |cfg.max|) && (d.pc1.Ready? || d.pc1.stage < |cfg.max|)
    && (d.visitors > 0 ==> d.next1 < |cfg.max|)
  }

  function Scene(cfg: Config, d: Duel): (st: Searches)
    requires DuelOk(cfg, d)
    ensures Fine(cfg, st)
  {
    var n, zero := |cfg.max|, seq(|cfg.max|, _ => 0);
    Searches(CP.State(if d.next1 < n then zero[d.next1 := d.visitors] else zero,
                      seq(cfg.threads, _ => n)[0 := d.slot0], seq(cfg.threads, _ => Ready)[0 := d.pc0][1 := d.pc1]),
             seq(cfg.threads, _ => n)[0 := d.next0][1 := d.next1])
  }

  predicate Leads(dir: Direction, cfg: Config, d: Duel, e: Event, d': Duel)
  {
    DuelOk(cfg, d) && DuelOk(cfg, d') && MayStep(dir, cfg, Scene(cfg, d), e)
    && Step(dir, cfg, Scene(cfg, d), e) == Scene(cfg, d')
  }

  predicate IsChange(cfg: Config, d: Duel, e: Event)
  {
    DuelOk(cfg, d) && Enabled(cfg, Scene(cfg, d).claims, e) && Changes(cfg, Scene(cfg, d).claims, e)
  }

  /** A run to the scene, in which thread 1 has tried so often. */
  ghost predicate Comes(dir: Direction, cfg: Config, es: seq<Event>, d: Duel, tries: nat)
  {
    && DuelOk(cfg, d) && Run(dir, cfg, es) == Some(Scene(cfg, d)) && Exec(cfg, es) == Some(Scene(cfg, d).claims)
    && TriesOf(cfg, es, 1) == tries
  }

  lemma RunNext(dir: Direction, cfg: Config, es: seq<Event>, st: Searches, e: Event)
    requires Fine(cfg, st) && Run(dir, cfg, es) == Some(st) && MayStep(dir, cfg, st, e)
    ensures Run(dir, cfg, es + [e]) == Some(Step(dir, cfg, st, e))
  {
    hide MayStep, Step, Fine;
    assert (es + [e])[..|es|] == es;
  }

  lemma TriesNext(cfg: Config, es: seq<Event>, e: Event, t: nat)
    requires Exec(cfg, es).Some? && Exec(cfg, es + [e]).Some? && Enabled(cfg, Exec(cfg, es).value, e)
    requires !(e.t == t && Changes(cfg, Exec(cfg, es).value, e))
    ensures TriesOf(cfg, es + [e], t) == TriesOf(cfg, es, t) + if e.t == t && e.Load? then 1 else 0
  {
    hide Exec, Changes, Enabled;
    assert (es + [e])[..|es|] == es;
  }

  lemma ComesNext(dir: Direction, cfg: Config, es: seq<Event>, d: Duel, tries: nat, e: Event, d': Duel)
    requires Comes(dir, cfg, es, d, tries) && Leads(dir, cfg, d, e, d') && (e.t == 1 ==> !IsChange(cfg, d, e))
    ensures Comes(dir, cfg, es + [e], d', tries + if e.t == 1 && e.Load? then 1 else 0)
  {
    hide Scene, Step, Run, Exec, TriesOf, Changes, Enabled, DuelOk;
    RunNext(dir, cfg, es, Scene(cfg, d), e);
    RunOfProtocol(dir, cfg, es + [e]);
    TriesNext(cfg, es, e, 1);
  }

  /** Both have tried `q`. */
  function Level(cfg: Config, q: nat): Duel
  {
    Duel(q, q, 0, |cfg.max|, Ready, Ready)
  }

  lemma LoadOne(dir: Direction, cfg: Config, q: nat)
    requires DuelOk(cfg, Level(cfg, q))
    ensures var s := TryAfter(dir, |cfg.max|, q);
            Leads(dir, cfg, Level(cfg, q), Load(1, s),
                  Level(cfg, q).(next1 := s, pc1 := if cfg.max[s] > 0 then Loaded(s, 0) else Ready))
  {
    var s := TryAfter(dir, |cfg.max|, q);
    var d := Level(cfg, q);
    var d' := d.(next1 := s, pc1 := if cfg.max[s] > 0 then Loaded(s, 0) else Ready);
    var st', st := Step(dir, cfg, Scene(cfg, d), Load(1, s)), Scene(cfg, d');
    assert st'.claims.pc == st.claims.pc && st'.claims.visitors == st.claims.visitors && st'.next == st.next;
  }

  lemma LoadZero(dir: Direction, cfg: Config, q: nat, pc1: Pc)
    requires DuelOk(cfg, Level(cfg, q)) && (pc1.Ready? || pc1.stage < |cfg.max|)
    ensures var s := TryAfter(dir, |cfg.max|, q);
            Leads(dir, cfg, Level(cfg, q).(next1 := s, pc1 := pc1), Load(0, s),
                  Level(cfg, s).(pc0 := if cfg.max[s] > 0 then Loaded(s, 0) else Ready, pc1 := pc1))
  {
    var s := TryAfter(dir, |cfg.max|, q);
    var d' := Level(cfg, s).(pc0 := if cfg.max[s] > 0 then Loaded(s, 0) else Ready, pc1 := pc1);
    var st := Scene(cfg, d');
    var st' := Step(dir, cfg, Scene(cfg, Level(cfg, q).(next1 := s, pc1 := pc1)), Load(0, s));
    assert st'.claims.pc == st.claims.pc && st'.claims.visitors == st.claims.visitors && st'.next == st.next;
  }

  /** Thread 0 claims the stage under the eyes of thread 1, whose exchange fails, and leaves it again. */
  lemma ClaimZero(dir: Direction, cfg: Config, s: nat)
    requires DuelOk(cfg, Level(cfg, s)) && s < |cfg.max|
    ensures Leads(dir, cfg, Duel(s, s, 0, |cfg.max|, Loaded(s, 0), Loaded(s, 0)), Exchange(0),
                  Duel(s, s, 1, |cfg.max|, Claimed(s), Loaded(s, 0)))
    ensures Leads(dir, cfg, Duel(s, s, 1, |cfg.max|, Claimed(s), Loaded(s, 0)), WriteSlot(0),
                  Duel(s, s, 1, s, Ready, Loaded(s, 0)))
  {
    var d0 := Duel(s, s, 0, |cfg.max|, Loaded(s, 0), Loaded(s, 0));
    var d1 := Duel(s, s, 1, |cfg.max|, Claimed(s), Loaded(s, 0));
    assert Step(dir, cfg, Scene(cfg, d0), Exchange(0)).claims.pc == Scene(cfg, d1).claims.pc;
    assert Step(dir, cfg, Scene(cfg, d1), WriteSlot(0)).claims.pc
        == Scene(cfg, Duel(s, s, 1, s, Ready, Loaded(s, 0))).claims.pc;
  }

  lemma FailOne(dir: Direction, cfg: Config, s: nat)
    requires DuelOk(cfg, Level(cfg, s)) && s < |cfg.max|
    ensures var d := Duel(s, s, 1, s, Ready, Loaded(s, 0));
            Leads(dir, cfg, d, Exchange(1), d.(pc1 := Ready)) && !IsChange(cfg, d, Exchange(1))
  {
    var d := Duel(s, s, 1, s, Ready, Loaded(s, 0));
    assert Step(dir, cfg, Scene(cfg, d), Exchange(1)).claims.pc == Scene(cfg, d.(pc1 := Ready)).claims.pc;
  }

  lemma LeaveZero(dir: Direction, cfg: Config, s: nat)
    requires DuelOk(cfg, Level(cfg, s)) && s < |cfg.max|
    ensures Leads(dir, cfg, Duel(s, s, 1, s, Ready, Ready), Decrement(0), Duel(s, s, 0, s, Released(s), Ready))
    ensures Leads(dir, cfg, Duel(s, s, 0, s, Released(s), Ready), ClearSlot(0), Level(cfg, s))
  {
    var d0, d1 := Duel(s, s, 1, s, Ready, Ready), Duel(s, s, 0, s, Released(s), Ready);
    var st1 := Step(dir, cfg, Scene(cfg, d0), Decrement(0));
    assert st1.claims.pc == Scene(cfg, d1).claims.pc && st1.claims.visitors == Scene(cfg, d1).claims.visitors;
    var st2 := Step(dir, cfg, Scene(cfg, d1), ClearSlot(0));
    assert st2.claims.pc == Scene(cfg, Level(cfg, s)).claims.pc && st2.next == Scene(cfg, Level(cfg, s)).next;
  }

  /** One round. */
  lemma RoundOfDuel(dir: Direction, cfg: Config, es: seq<Event>, q: nat, tries: nat) returns (es': seq<Event>, s: nat)
    requires Comes(dir, cfg, es, Level(cfg, q), tries)
    ensures Comes(dir, cfg, es', Level(cfg, s), tries + 1)
  {
    hide Comes, Leads, IsChange, Scene, TryAfter;
    LevelOk(dir, cfg, es, q, tries);
    s := TryAfter(dir, |cfg.max|, q);
    var free := cfg.max[s] > 0;
    var pc := if free then Loaded(s, 0) else Ready;
    LoadOne(dir, cfg, q);
    ComesNext(dir, cfg, es, Level(cfg, q), tries, Load(1, s), Level(cfg, q).(next1 := s, pc1 := pc));
    LoadZero(dir, cfg, q, pc);
    es' := es + [Load(1, s)];
    ComesNext(dir, cfg, es', Level(cfg, q).(next1 := s, pc1 := pc), tries + 1, Load(0, s),
              Level(cfg, s).(pc0 := pc, pc1 := pc));
    es' := es' + [Load(0, s)];
    if free {
      es' := Overtake(dir, cfg, es', s, tries + 1);
    }
  }

  lemma LevelOk(dir: Direction, cfg: Config, es: seq<Event>, q: nat, tries: nat)
    requires Comes(dir, cfg, es, Level(cfg, q), tries)
    ensures DuelOk(cfg, Level(cfg, q)) && DuelOk(cfg, Level(cfg, TryAfter(dir, |cfg.max|, q)))
    ensures !IsChange(cfg, Level(cfg, q), Load(1, TryAfter(dir, |cfg.max|, q)))
  {
  }

  lemma Overtake(dir: Direction, cfg: Config, es: seq<Event>, s: nat, tries: nat) returns (es': seq<Event>)
    requires s < |cfg.max| && DuelOk(cfg, Level(cfg, s))
    requires Comes(dir, cfg, es, Duel(s, s, 0, |cfg.max|, Loaded(s, 0), Loaded(s, 0)), tries)
    ensures Comes(dir, cfg, es', Level(cfg, s), tries)
  {
    hide Comes, Leads, IsChange, Scene;
    ClaimZero(dir, cfg, s);
    FailOne(dir, cfg, s);
    LeaveZero(dir, cfg, s);
    var d0 := Duel(s, s, 0, |cfg.max|, Loaded(s, 0), Loaded(s, 0));
    var d1 := Duel(s, s, 1, |cfg.max|, Claimed(s), Loaded(s, 0));
    var d2, d3 := Duel(s, s, 1, s, Ready, Loaded(s, 0)), Duel(s, s, 1, s, Ready, Ready);
    var d4 := Duel(s, s, 0, s, Released(s), Ready);
    ComesNext(dir, cfg, es, d0, tries, Exchange(0), d1);
    es' := es + [Exchange(0)];
    ComesNext(dir, cfg, es', d1, tries, WriteSlot(0), d2);
    es' := es' + [WriteSlot(0)];
    ComesNext(dir, cfg, es', d2, tries, Exchange(1), d3);
    es' := es' + [Exchange(1)];
    ComesNext(dir, cfg, es', d3, tries, Decrement(0), d4);
    es' := es' + [Decrement(0)];
    ComesNext(dir, cfg, es', d4, tries, ClearSlot(0), Level(cfg, s));
    es' := es' + [ClearSlot(0)];
  }

  /** With two threads or more, for every number some search takes as many tries and claims nothing. */
  lemma {:induction false} OvertakenForEver(dir: Direction, cfg: Config, k: nat) returns (es: seq<Event>, q: nat)
    requires 0 < |cfg.max| < SIZE && cfg.threads >= 2
    ensures Comes(dir, cfg, es, Level(cfg, q), k)
  {
    if k == 0 {
      es, q := [], |cfg.max|;
      assert Scene(cfg, Level(cfg, q)) == Searches(Init(cfg), seq(cfg.threads, _ => |cfg.max|));
    } else {
      hide Comes;
      es, q := OvertakenForEver(dir, cfg, k - 1);
      es, q := RoundOfDuel(dir, cfg, es, q, k - 1);
    }
  }

  /** While the threads are no more than the units of concurrency, there is a bound on the tries of every single search,
      in all runs, exactly if there is no second thread; the number of stages is such a bound then. */
  lemma SingleSearchBoundedExactly(dir: Direction, cfg: Config)
    requires cfg.Valid() && |cfg.max| < SIZE && cfg.threads <= Sum(cfg.max)
    ensures (exists bound: nat :: TriesWithin(dir, cfg, bound)) <==> cfg.threads <= 1
    ensures cfg.threads <= 1 ==> TriesWithin(dir, cfg, |cfg.max|)
  {
    if cfg.threads <= 1 {
      forall es, t: nat | Run(dir, cfg, es).Some? && Exec(cfg, es).Some? && t < cfg.threads
        ensures TriesOf(cfg, es, t) <= |cfg.max|
      {
        LoneRun(dir, cfg, es);
      }
      assert TriesWithin(dir, cfg, |cfg.max|);
    } else {
      forall bound: nat
        ensures !TriesWithin(dir, cfg, bound)
      {
        var es, q := OvertakenForEver(dir, cfg, bound + 1);
      }
    }
  }
}

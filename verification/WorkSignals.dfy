/** Does every queued message get a visitor? Color (wield/schedulers/color/) and Color-minus
    (wield/schedulers/color_minus/) as one transition system: dispatchers push a message and then signal it, workers
    turn signals into visits.

    A worker's hold on a stage is read off its program counter: ClaimProtocol.CountersAreHolders shows that the visitor
    counters count exactly these holds. */
module WorkSignals {
  import opened Counting
  import CM = ColorMinus
  import MC = MessageCount

  datatype Policy = Color | ColorMinus

  /** `atomicClaims`: the check for room and the increment of the visitor counter are one step. `atomicIncrements`: so
      is `+=` on a message count. In the code a claim is a load and an exchange, and `+=` a load and a store. */
  datatype Config =
    Config(threads: nat, producers: nat, max: seq<nat>, policy: Policy, atomicClaims: bool, atomicIncrements: bool)

  datatype Pc =
    | Idle                            // holds no stage, has no stage in mind
    | Picked(stage: nat)              // took a token, or found the high-water stage
    | Loaded(stage: nat, seen: nat)   // read a visitor count below the maximum
    | Entering(stage: nat)            // claimed; Color-minus has yet to reset the depth
    | Failed(stage: nat)              // not claimed; Color-minus has yet to reset the depth
    | Draining(stage: nat)            // about to poll
    | Handling(stage: nat)            // running the functor on a message
    | Leaving(stage: nat)             // found the queue empty, not yet released

  /** `inflight`: the stage an agent has pushed to but not yet signalled; `seen`: the message count it has loaded for
      that. The workers are the first agents, the producers the rest. */
  datatype State = State(queue: seq<nat>, tokens: seq<nat>, previous: seq<nat>, current: seq<nat>, pc: seq<Pc>,
                         inflight: seq<nat>, seen: seq<Option<nat>>)

  datatype Event =
    | PushMessage(agent: nat, s: nat)
    | Signal(agent: nat)
    | ReadCount(agent: nat)
    | WriteCount(agent: nat)
    | Pick(t: nat)
    | Claim(t: nat)
    | Load(t: nat)
    | Exchange(t: nat)
    | ResetDepth(t: nat)
    | Poll(t: nat)
    | Finish(t: nat)
    | Release(t: nat)

  /** The code counts a message in two steps. */
  predicate SplitIncrement(cfg: Config)
  {
    cfg.policy.ColorMinus? && !cfg.atomicIncrements
  }

  function Agents(cfg: Config): nat
  {
    cfg.threads + cfg.producers
  }

  function Init(cfg: Config): State
  {
    var n, none := |cfg.max|, seq(|cfg.max|, _ => 0);
    State(none, [], none, none, seq(cfg.threads, _ => Idle), seq(Agents(cfg), _ => n), seq(Agents(cfg), _ => None))
  }

  predicate ThreadShaped(cfg: Config, pc: Pc)
  {
    && (pc.Idle? || pc.stage < |cfg.max|)
    && (cfg.policy.Color? ==> !pc.Entering? && !pc.Failed?)
    && (cfg.atomicClaims ==> !pc.Loaded?)
  }

  predicate Shaped(cfg: Config, st: State)
  {
    var n := |cfg.max|;
    && |st.queue| == |st.previous| == |st.current| == n && |st.pc| == cfg.threads
    && |st.inflight| == |st.seen| == Agents(cfg)
    && (forall i | 0 <= i < |st.tokens| :: st.tokens[i] < n)
    && (forall t | 0 <= t < cfg.threads :: ThreadShaped(cfg, st.pc[t]))
    && (forall a | 0 <= a < Agents(cfg) :: st.inflight[a] <= n)
    && (forall a | 0 <= a < Agents(cfg) && st.seen[a].Some? :: SplitIncrement(cfg) && st.inflight[a] < n)
  }

  /** The estimated depths. */
  function Depths(st: State): (depths: seq<nat>)
    requires |st.previous| == |st.current|
    ensures |depths| == |st.current|
    ensures forall s | 0 <= s < |depths| :: depths[s] == MC.DepthOf(st.previous[s], st.current[s])
  {
    MC.Counters(st.previous, st.current).Depths()
  }

  predicate Holds(pc: Pc)
  {
    pc.Entering? || pc.Draining? || pc.Handling? || pc.Leaving?
  }

  function Held(cfg: Config, st: State): (held: seq<nat>)
    requires |st.pc| == cfg.threads
    ensures |held| == cfg.threads
    ensures forall t | 0 <= t < cfg.threads :: held[t] == if Holds(st.pc[t]) then st.pc[t].stage else |cfg.max|
  {
    seq(cfg.threads, t requires 0 <= t < cfg.threads => if Holds(st.pc[t]) then st.pc[t].stage else |cfg.max|)
  }

  /** The value of a stage's visitor counter. */
  function Visitors(cfg: Config, st: State, s: nat): nat
    requires |st.pc| == cfg.threads
  {
    Count(Held(cfg, st), s)
  }

  predicate InFlight(cfg: Config, st: State, a: nat)
    requires |st.inflight| == Agents(cfg)
  {
    a < Agents(cfg) && st.inflight[a] < |cfg.max|
  }

  predicate Enabled(cfg: Config, st: State, e: Event)
    requires Shaped(cfg, st)
  {
    match e
    case PushMessage(a, s) =>
      && a < Agents(cfg) && s < |cfg.max| && st.inflight[a] == |cfg.max|
      && (a < cfg.threads ==> st.pc[a].Handling?)
    case Signal(a) => InFlight(cfg, st, a) && !SplitIncrement(cfg)
    case ReadCount(a) => InFlight(cfg, st, a) && SplitIncrement(cfg) && st.seen[a].None?
    case WriteCount(a) => InFlight(cfg, st, a) && st.seen[a].Some?
    case Pick(t) => t < cfg.threads && st.pc[t].Idle? && if cfg.policy.Color? then st.tokens != [] else |cfg.max| > 0
    case Claim(t) => t < cfg.threads && st.pc[t].Picked? && cfg.atomicClaims
    case Load(t) => t < cfg.threads && st.pc[t].Picked? && !cfg.atomicClaims
    case Exchange(t) => t < cfg.threads && st.pc[t].Loaded?
    case ResetDepth(t) => t < cfg.threads && (st.pc[t].Entering? || st.pc[t].Failed?)
    case Poll(t) => t < cfg.threads && st.pc[t].Draining?
    case Finish(t) => t < cfg.threads && st.pc[t].Handling? && st.inflight[t] == |cfg.max|
    case Release(t) => t < cfg.threads && st.pc[t].Leaving?
  }

  /** Where a claim leads: Color goes straight on; Color-minus resets the depth first, claimed or not. */
  function AfterClaim(cfg: Config, s: nat, success: bool): Pc
  {
    if cfg.policy.Color? then if success then Draining(s) else Idle
    else if success then Entering(s) else Failed(s)
  }

  predicate ByDispatcher(e: Event)
  {
    e.PushMessage? || e.Signal? || e.ReadCount? || e.WriteCount?
  }

  predicate ByClaimant(e: Event)
  {
    e.Pick? || e.Claim? || e.Load? || e.Exchange?
  }

  function Next(cfg: Config, st: State, e: Event): (st': State)
    requires Shaped(cfg, st) && Enabled(cfg, st, e)
    ensures Shaped(cfg, st')
  {
    if ByDispatcher(e) then NextOfDispatcher(cfg, st, e)
    else if ByClaimant(e) then NextOfClaimant(cfg, st, e)
    else NextOfVisitor(cfg, st, e)
  }

  function NextOfDispatcher(cfg: Config, st: State, e: Event): (st': State)
    requires Shaped(cfg, st) && Enabled(cfg, st, e) && ByDispatcher(e)
    ensures Shaped(cfg, st')
  {
    match e
    case PushMessage(a, s) => st.(queue := st.queue[s := st.queue[s] + 1], inflight := st.inflight[a := s])
    case Signal(a) =>
      var s := st.inflight[a];
      var cleared := st.(inflight := st.inflight[a := |cfg.max|]);
      if cfg.policy.Color? then cleared.(tokens := st.tokens + [s])
      else cleared.(current := st.current[s := st.current[s] + 1])
    case ReadCount(a) => st.(seen := st.seen[a := Some(st.current[st.inflight[a]])])
    case WriteCount(a) =>
      st.(current := st.current[st.inflight[a] := st.seen[a].value + 1],
          inflight := st.inflight[a := |cfg.max|], seen := st.seen[a := None])
  }

  function NextOfClaimant(cfg: Config, st: State, e: Event): (st': State)
    requires Shaped(cfg, st) && Enabled(cfg, st, e) && ByClaimant(e)
    ensures Shaped(cfg, st')
  {
    match e
    case Pick(t) =>
      if cfg.policy.Color? then st.(tokens := st.tokens[1..], pc := st.pc[t := Picked(st.tokens[0])])
      else st.(pc := st.pc[t := Picked(CM.Highwater(Depths(st)))])
    case Claim(t) =>
      var s := st.pc[t].stage;
      st.(pc := st.pc[t := AfterClaim(cfg, s, Visitors(cfg, st, s) < cfg.max[s])])
    case Load(t) =>
      var s := st.pc[t].stage;
      var v := Visitors(cfg, st, s);
      st.(pc := st.pc[t := if v < cfg.max[s] then Loaded(s, v) else AfterClaim(cfg, s, false)])
    case Exchange(t) =>
      var s := st.pc[t].stage;
      st.(pc := st.pc[t := AfterClaim(cfg, s, Visitors(cfg, st, s) == st.pc[t].seen)])
  }

  function NextOfVisitor(cfg: Config, st: State, e: Event): (st': State)
    requires Shaped(cfg, st) && Enabled(cfg, st, e) && !ByDispatcher(e) && !ByClaimant(e)
    ensures Shaped(cfg, st')
  {
    match e
    case ResetDepth(t) =>
      var s := st.pc[t].stage;
      st.(previous := st.previous[s := st.current[s]],
          pc := st.pc[t := if st.pc[t].Entering? then Draining(s) else Idle])
    case Poll(t) =>
      var s := st.pc[t].stage;
      if st.queue[s] > 0 then st.(queue := st.queue[s := st.queue[s] - 1], pc := st.pc[t := Handling(s)])
      else st.(pc := st.pc[t := Leaving(s)])
    case Finish(t) => st.(pc := st.pc[t := Draining(st.pc[t].stage)])
    case Release(t) => st.(pc := st.pc[t := Idle])
  }

  function Exec(cfg: Config, es: seq<Event>): (r: Option<State>)
    ensures r.Some? ==> Shaped(cfg, r.value)
  {
    if es == [] then Some(Init(cfg)) else
    match Exec(cfg, es[..|es| - 1])
    case None => None
    case Some(st) => if Enabled(cfg, st, es[|es| - 1]) then Some(Next(cfg, st, es[|es| - 1])) else None
  }

  // ----- abandoned work -----

  predicate AtPoll(st: State, s: nat)
  {
    exists t | 0 <= t < |st.pc| :: st.pc[t] == Draining(s)
  }

  /** Without another dispatch to `s`, the events bring a worker to where it polls `s`. */
  ghost predicate LeadsToPoll(cfg: Config, st: State, s: nat, es: seq<Event>)
    requires Shaped(cfg, st)
    decreases |es|
  {
    if es == [] then AtPoll(st, s) else
    && Enabled(cfg, st, es[0]) && !(es[0].PushMessage? && es[0].s == s)
    && LeadsToPoll(cfg, Next(cfg, st, es[0]), s, es[1..])
  }

  ghost predicate PollAhead(cfg: Config, st: State, s: nat)
    requires Shaped(cfg, st)
  {
    exists es :: LeadsToPoll(cfg, st, s, es)
  }

  /** A message waits at `s`, and unless another one is dispatched to `s` nobody ever looks, whatever else happens. */
  ghost predicate Abandoned(cfg: Config, st: State, s: nat)
    requires Shaped(cfg, st) && s < |cfg.max|
  {
    st.queue[s] > 0 && !PollAhead(cfg, st, s)
  }

  ghost predicate NeverAbandons(cfg: Config, s: nat)
    requires s < |cfg.max|
  {
    forall es | Exec(cfg, es).Some? :: !Abandoned(cfg, Exec(cfg, es).value, s)
  }

  // ----- signals -----

  /** Tokens for the stage, or its estimated depth. */
  function Signals(cfg: Config, st: State, s: nat): nat
    requires Shaped(cfg, st) && s < |cfg.max|
  {
    if cfg.policy.Color? then Count(st.tokens, s) else Depths(st)[s]
  }

  /** The thread is on its way to a poll of stage `s`, unless its claim fails. */
  predicate Heading(pc: Pc, s: nat)
  {
    (pc.Picked? || pc.Loaded? || pc.Entering? || pc.Draining? || pc.Handling?) && pc.stage == s
  }

  predicate Attended(st: State, s: nat)
  {
    exists t | 0 <= t < |st.pc| :: Heading(st.pc[t], s)
  }

  /** More messages wait at `s` than are or will be signalled, and nobody is on the way to look. */
  predicate Unsignalled(cfg: Config, st: State, s: nat)
    requires Shaped(cfg, st) && s < |cfg.max|
  {
    !Attended(st, s) && st.queue[s] > Signals(cfg, st, s) + Count(st.inflight, s)
  }

  /** No claim on `s` can fail and no signal for it can be lost: it takes all the threads, claims cannot be disturbed,
      and neither can increments. */
  predicate Lossless(cfg: Config, s: nat)
    requires s < |cfg.max|
  {
    && cfg.max[s] >= cfg.threads
    && (cfg.atomicClaims || cfg.threads <= 1)
    && !SplitIncrement(cfg)
  }

  predicate ThreadOk(pc: Pc, s: nat)
  {
    pc.Idle? || pc.stage != s || (!pc.Failed? && (pc.Loaded? ==> pc.seen == 0))
  }

  ghost predicate Inv(cfg: Config, st: State, s: nat)
  {
    && Shaped(cfg, st) && s < |cfg.max|
    && (forall t | 0 <= t < cfg.threads :: ThreadOk(st.pc[t], s))
    && !Unsignalled(cfg, st, s) && st.previous[s] <= st.current[s]
  }

  lemma ClaimSucceeds(cfg: Config, st: State, t: nat, s: nat)
    requires Shaped(cfg, st) && s < |cfg.max| && cfg.max[s] >= cfg.threads && t < cfg.threads && !Holds(st.pc[t])
    ensures Visitors(cfg, st, s) < cfg.threads <= cfg.max[s]
  {
    CountBelowLength(Held(cfg, st), t, s);
  }

  /** A stage someone was heading for stays attended, unless that one moves. */
  lemma StaysAttended(st: State, st': State, t: nat, s: nat)
    requires |st'.pc| == |st.pc| && t < |st.pc|
    requires forall u | 0 <= u < |st.pc| && u != t :: st'.pc[u] == st.pc[u]
    requires Attended(st, s) && (Heading(st.pc[t], s) ==> Heading(st'.pc[t], s))
    ensures Attended(st', s)
  {
    var u :| 0 <= u < |st.pc| && Heading(st.pc[u], s);
    assert Heading(st'.pc[u], s);
  }

  lemma DispatchKeepsInv(cfg: Config, st: State, e: Event, s: nat)
    requires s < |cfg.max| && Lossless(cfg, s) && Inv(cfg, st, s) && Enabled(cfg, st, e)
    requires ByDispatcher(e)
    ensures Inv(cfg, Next(cfg, st, e), s)
  {
    if e.WriteCount? {
      assert false;
    }
    CountUpdate(st.inflight, e.agent, if e.PushMessage? then e.s else |cfg.max|, s);
    assert Next(cfg, st, e).pc == st.pc;
  }

  lemma PickKeepsInv(cfg: Config, st: State, t: nat, s: nat)
    requires Inv(cfg, st, s) && Enabled(cfg, st, Pick(t))
    ensures Inv(cfg, Next(cfg, st, Pick(t)), s)
  {
    var st' := Next(cfg, st, Pick(t));
    if Attended(st, s) {
      StaysAttended(st, st', t, s);
    } else if st'.pc[t].stage == s {
      assert Heading(st'.pc[t], s);
    } else if cfg.policy.Color? {
      assert st.tokens == [st.tokens[0]] + st'.tokens;
    }
  }

  lemma ClaimKeepsInv(cfg: Config, st: State, e: Event, s: nat)
    requires s < |cfg.max| && Lossless(cfg, s) && Inv(cfg, st, s) && Enabled(cfg, st, e)
    requires ByClaimant(e) && !e.Pick?
    ensures Inv(cfg, Next(cfg, st, e), s)
  {
    var st' := Next(cfg, st, e);
    assert ThreadShaped(cfg, st.pc[e.t]) && ThreadOk(st.pc[e.t], s);
    if st.pc[e.t].stage == s {
      ClaimSucceeds(cfg, st, e.t, s);
    }
    if Attended(st, s) {
      StaysAttended(st, st', e.t, s);
    }
  }

  lemma VisitKeepsInv(cfg: Config, st: State, e: Event, s: nat)
    requires Inv(cfg, st, s) && Enabled(cfg, st, e) && !ByDispatcher(e) && !ByClaimant(e)
    ensures Inv(cfg, Next(cfg, st, e), s)
  {
    var st' := Next(cfg, st, e);
    assert ThreadOk(st.pc[e.t], s);
    if st.pc[e.t].stage == s && !e.Release? {
      assert Heading(st'.pc[e.t], s) || st'.queue[s] == 0;
    } else if Attended(st, s) {
      StaysAttended(st, st', e.t, s);
    }
  }

  lemma NextKeepsInv(cfg: Config, st: State, e: Event, s: nat)
    requires s < |cfg.max| && Lossless(cfg, s) && Inv(cfg, st, s) && Enabled(cfg, st, e)
    ensures Inv(cfg, Next(cfg, st, e), s)
  {
    match e
    case PushMessage(_, _) => DispatchKeepsInv(cfg, st, e, s);
    case Signal(_) => DispatchKeepsInv(cfg, st, e, s);
    case ReadCount(_) => DispatchKeepsInv(cfg, st, e, s);
    case WriteCount(_) => DispatchKeepsInv(cfg, st, e, s);
    case Pick(t) => PickKeepsInv(cfg, st, t, s);
    case Claim(_) => ClaimKeepsInv(cfg, st, e, s);
    case Load(_) => ClaimKeepsInv(cfg, st, e, s);
    case Exchange(_) => ClaimKeepsInv(cfg, st, e, s);
    case _ => VisitKeepsInv(cfg, st, e, s);
  }

  /** In every reachable state, each message at a lossless stage has a signal, a dispatch in flight, or a thread on its
      way to poll the stage. */
  lemma {:induction false} EverythingSignalled(cfg: Config, es: seq<Event>, s: nat)
    requires s < |cfg.max| && Lossless(cfg, s) && Exec(cfg, es).Some?
    ensures Inv(cfg, Exec(cfg, es).value, s)
  {
    if es != [] {
      EverythingSignalled(cfg, es[..|es| - 1], s);
      NextKeepsInv(cfg, Exec(cfg, es[..|es| - 1]).value, es[|es| - 1], s);
    }
  }

  /** So with no signals for it, no dispatches in flight and no threads on their way, its queue is empty. */
  lemma QuietMeansEmpty(cfg: Config, es: seq<Event>, s: nat)
    requires s < |cfg.max| && Lossless(cfg, s) && Exec(cfg, es).Some?
    requires var st := Exec(cfg, es).value;
             Signals(cfg, st, s) == 0 && !Attended(st, s) && forall a | 0 <= a < |st.inflight| :: st.inflight[a] != s
    ensures Exec(cfg, es).value.queue[s] == 0
  {
    EverythingSignalled(cfg, es, s);
    assert Count(Exec(cfg, es).value.inflight, s) == 0;
  }
}

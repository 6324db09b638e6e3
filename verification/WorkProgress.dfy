/** Work that is not abandoned: a continuation without further dispatches that brings a worker to poll the stage. */
module WorkProgress {
  import opened Counting
  import opened WorkSignals

  // ----- how much is still to be done -----

  function PendingOf(cfg: Config, stage: nat, seen: Option<nat>): nat
  {
    if stage == |cfg.max| then 0 else if seen.Some? then 1 else 2
  }

  /** Steps of the dispatches in flight. */
  function Pending(cfg: Config, st: State): (pending: seq<nat>)
    requires |st.inflight| == |st.seen|
    ensures |pending| == |st.inflight|
    ensures forall a | 0 <= a < |pending| :: pending[a] == PendingOf(cfg, st.inflight[a], st.seen[a])
  {
    seq(|st.inflight|, a requires 0 <= a < |st.inflight| => PendingOf(cfg, st.inflight[a], st.seen[a]))
  }

  function AllSignals(cfg: Config, st: State): nat
    requires |st.previous| == |st.current|
  {
    if cfg.policy.Color? then |st.tokens| else Sum(Depths(st))
  }

  function Rank(pc: Pc): nat
  {
    match pc
    case Idle => 0
    case Leaving(_) => 1
    case Failed(_) => 1
    case Draining(_) => 2
    case Handling(_) => 3
    case Entering(_) => 4
    case Loaded(_, _) => 5
    case Picked(_) => 6
  }

  function Ranks(st: State): (ranks: seq<nat>)
    ensures |ranks| == |st.pc| && forall t | 0 <= t < |ranks| :: ranks[t] == Rank(st.pc[t])
  {
    seq(|st.pc|, t requires 0 <= t < |st.pc| => Rank(st.pc[t]))
  }

  // ----- the next step of an agent -----

  function SignalOf(cfg: Config, st: State, a: nat): (e: Event)
    requires Shaped(cfg, st) && InFlight(cfg, st, a)
    ensures Enabled(cfg, st, e) && ByDispatcher(e) && !e.PushMessage?
  {
    if !SplitIncrement(cfg) then Signal(a) else if st.seen[a].None? then ReadCount(a) else WriteCount(a)
  }

  lemma SignalShrinks(cfg: Config, st: State, a: nat)
    requires Shaped(cfg, st) && InFlight(cfg, st, a)
    ensures Sum(Pending(cfg, Next(cfg, st, SignalOf(cfg, st, a)))) < Sum(Pending(cfg, st))
  {
    var st' := Next(cfg, st, SignalOf(cfg, st, a));
    var left := PendingOf(cfg, st'.inflight[a], st'.seen[a]);
    assert Pending(cfg, st') == Pending(cfg, st)[a := left];
    SumUpdate(Pending(cfg, st), a, left);
  }

  function Advance(cfg: Config, st: State, t: nat): (e: Event)
    requires Shaped(cfg, st) && t < cfg.threads && !st.pc[t].Idle? && st.inflight[t] == |cfg.max|
    ensures Enabled(cfg, st, e) && !ByDispatcher(e) && !e.Pick? && e.t == t
  {
    match st.pc[t]
    case Picked(_) => if cfg.atomicClaims then Claim(t) else Load(t)
    case Loaded(_, _) => Exchange(t)
    case Entering(_) => ResetDepth(t)
    case Failed(_) => ResetDepth(t)
    case Draining(_) => Poll(t)
    case Handling(_) => Finish(t)
    case Leaving(_) => Release(t)
  }

  /** The step moves one thread on: down in rank, or to a message that leaves the queue. */
  lemma AdvanceMoves(cfg: Config, st: State, t: nat)
    requires Shaped(cfg, st) && t < cfg.threads && !st.pc[t].Idle? && st.inflight[t] == |cfg.max|
    ensures var st' := Next(cfg, st, Advance(cfg, st, t));
            && st'.inflight == st.inflight && st'.seen == st.seen
            && st'.pc == st.pc[t := st'.pc[t]]
            && if st.pc[t].Draining? && st.queue[st.pc[t].stage] > 0 then
                 st'.queue == st.queue[st.pc[t].stage := st.queue[st.pc[t].stage] - 1]
               else
                 st'.queue == st.queue && Rank(st'.pc[t]) < Rank(st.pc[t])
  {
  }

  lemma AdvanceShrinks(cfg: Config, st: State, t: nat)
    requires Shaped(cfg, st) && t < cfg.threads && !st.pc[t].Idle? && st.inflight[t] == |cfg.max|
    ensures var st' := Next(cfg, st, Advance(cfg, st, t));
            && Pending(cfg, st') == Pending(cfg, st) && AllSignals(cfg, st') <= AllSignals(cfg, st)
            && Sum(st'.queue) <= Sum(st.queue)
            && (Sum(st'.queue) == Sum(st.queue) ==> Sum(Ranks(st')) < Sum(Ranks(st)))
  {
    hide Next, Advance, Rank, AllSignals;
    var st' := Next(cfg, st, Advance(cfg, st, t));
    AdvanceMoves(cfg, st, t);
    SignalsShrink(cfg, st, Advance(cfg, st, t));
    assert Ranks(st') == Ranks(st)[t := Rank(st'.pc[t])];
    SumUpdate(Ranks(st), t, Rank(st'.pc[t]));
    if st.pc[t].Draining? && st.queue[st.pc[t].stage] > 0 {
      SumUpdate(st.queue, st.pc[t].stage, st.queue[st.pc[t].stage] - 1);
    }
  }

  /** Only a dispatch makes new signals. */
  lemma SignalsShrink(cfg: Config, st: State, e: Event)
    requires Shaped(cfg, st) && Enabled(cfg, st, e) && !ByDispatcher(e)
    ensures AllSignals(cfg, Next(cfg, st, e)) <= AllSignals(cfg, st)
  {
    var st' := Next(cfg, st, e);
    if e.ResetDepth? {
      var s := st.pc[e.t].stage;
      assert Depths(st') == Depths(st)[s := 0];
      SumUpdate(Depths(st), s, 0);
    } else {
      assert Depths(st') == Depths(st);
    }
  }

  // ----- a poll ahead -----

  lemma PollNow(cfg: Config, st: State, s: nat)
    requires Shaped(cfg, st) && AtPoll(st, s)
    ensures PollAhead(cfg, st, s)
  {
    assert LeadsToPoll(cfg, st, s, []);
  }

  lemma PollAfter(cfg: Config, st: State, e: Event, s: nat)
    requires Shaped(cfg, st) && Enabled(cfg, st, e) && !e.PushMessage? && PollAhead(cfg, Next(cfg, st, e), s)
    ensures PollAhead(cfg, st, s)
  {
    var es :| LeadsToPoll(cfg, Next(cfg, st, e), s, es);
    assert ([e] + es)[1..] == es;
    assert LeadsToPoll(cfg, st, s, [e] + es);
  }

  /** Stage 0 of Color-minus needs nothing but room for a visitor: an idle worker that finds no work anywhere visits it.
      A lossless stage needs its signals. */
  ghost predicate Hopeful(cfg: Config, st: State, s: nat)
    requires s < |cfg.max|
  {
    if cfg.policy.ColorMinus? && s == 0 then cfg.max[0] > 0
    else Lossless(cfg, s) && Inv(cfg, st, s) && st.queue[s] > 0
  }

  lemma StepKeepsHope(cfg: Config, st: State, e: Event, s: nat)
    requires Shaped(cfg, st) && s < |cfg.max| && Hopeful(cfg, st, s)
    requires Enabled(cfg, st, e) && !e.PushMessage? && !AtPoll(st, s)
    ensures Hopeful(cfg, Next(cfg, st, e), s)
  {
    if !(cfg.policy.ColorMinus? && s == 0) {
      NextKeepsInv(cfg, st, e, s);
      assert Next(cfg, st, e).queue[s] == st.queue[s];
    }
  }

  ghost predicate AllIdle(cfg: Config, st: State)
    requires Shaped(cfg, st)
  {
    && (forall t | 0 <= t < cfg.threads :: st.pc[t].Idle?)
    && (forall a | 0 <= a < Agents(cfg) :: !InFlight(cfg, st, a))
  }

  lemma NobodyVisits(cfg: Config, st: State, t: nat, pc: Pc, s: nat)
    requires Shaped(cfg, st) && AllIdle(cfg, st) && t < cfg.threads && !Holds(pc) && s < |cfg.max|
    ensures Visitors(cfg, st.(pc := st.pc[t := pc]), s) == 0
  {
    assert s !in Held(cfg, st.(pc := st.pc[t := pc]));
  }

  /** With everyone idle there is a signal left for a hopeful stage. */
  lemma SignalLeft(cfg: Config, st: State, s: nat)
    requires Shaped(cfg, st) && AllIdle(cfg, st) && s < |cfg.max| && Hopeful(cfg, st, s)
    requires !(cfg.policy.ColorMinus? && s == 0)
    ensures Signals(cfg, st, s) > 0
  {
    forall a | 0 <= a < Agents(cfg)
      ensures st.inflight[a] != s
    {
      assert !InFlight(cfg, st, a);
    }
    assert Count(st.inflight, s) == 0;
  }

  /** What a lone worker of Color-minus comes to after one claim: it visits the high-water stage, unless that takes
      nobody, and the depth is reset. */
  function AfterVisit(cfg: Config, st: State, top: nat): (st': State)
    requires Shaped(cfg, st) && cfg.threads > 0 && top < |cfg.max|
    ensures Shaped(cfg, st')
  {
    st.(previous := st.previous[top := st.current[top]],
        pc := st.pc[0 := if cfg.max[top] > 0 then Draining(top) else Idle])
  }

  lemma ClaimOfLoneWorker(cfg: Config, st: State, top: nat, s: nat)
    requires Shaped(cfg, st) && AllIdle(cfg, st) && cfg.policy.ColorMinus? && cfg.threads > 0 && top < |cfg.max|
    requires PollAhead(cfg, st.(pc := st.pc[0 := AfterClaim(cfg, top, cfg.max[top] > 0)]), s)
    ensures PollAhead(cfg, st.(pc := st.pc[0 := Picked(top)]), s)
  {
    hide PollAhead;
    var picked := st.(pc := st.pc[0 := Picked(top)]);
    NobodyVisits(cfg, st, 0, Picked(top), top);
    var claimed := st.(pc := st.pc[0 := AfterClaim(cfg, top, cfg.max[top] > 0)]);
    if cfg.atomicClaims {
      assert Next(cfg, picked, Claim(0)) == claimed;
      PollAfter(cfg, picked, Claim(0), s);
    } else if cfg.max[top] > 0 {
      var loaded := st.(pc := st.pc[0 := Loaded(top, 0)]);
      NobodyVisits(cfg, st, 0, Loaded(top, 0), top);
      assert Next(cfg, loaded, Exchange(0)) == claimed;
      PollAfter(cfg, loaded, Exchange(0), s);
      assert Next(cfg, picked, Load(0)) == loaded;
      PollAfter(cfg, picked, Load(0), s);
    } else {
      assert Next(cfg, picked, Load(0)) == claimed;
      PollAfter(cfg, picked, Load(0), s);
    }
  }

  lemma VisitOfLoneWorker(cfg: Config, st: State, s: nat)
    requires Shaped(cfg, st) && AllIdle(cfg, st) && cfg.policy.ColorMinus? && cfg.threads > 0 && |cfg.max| > 0
    requires PollAhead(cfg, AfterVisit(cfg, st, CM.Highwater(Depths(st))), s)
    ensures PollAhead(cfg, st, s)
  {
    hide PollAhead;
    var top := CM.Highwater(Depths(st));
    var claimed := st.(pc := st.pc[0 := AfterClaim(cfg, top, cfg.max[top] > 0)]);
    assert Next(cfg, claimed, ResetDepth(0)) == AfterVisit(cfg, st, top);
    PollAfter(cfg, claimed, ResetDepth(0), s);
    ClaimOfLoneWorker(cfg, st, top, s);
    PollAfter(cfg, st, Pick(0), s);
  }

  lemma VisitKeepsHope(cfg: Config, st: State, s: nat)
    requires Shaped(cfg, st) && AllIdle(cfg, st) && cfg.policy.ColorMinus? && cfg.threads > 0
    requires s < |cfg.max| && Hopeful(cfg, st, s) && s != CM.Highwater(Depths(st))
    ensures var st' := AfterVisit(cfg, st, CM.Highwater(Depths(st)));
            && Hopeful(cfg, st', s) && Pending(cfg, st') == Pending(cfg, st)
            && AllSignals(cfg, st') < AllSignals(cfg, st)
  {
    var top := CM.Highwater(Depths(st));
    var st' := AfterVisit(cfg, st, top);
    if s != 0 {
      SignalLeft(cfg, st, s);
      assert !Attended(st, s);
    }
    assert Depths(st)[s] <= Depths(st)[top];
    assert top > 0 ==> Depths(st)[0] < Depths(st)[top];
    assert Depths(st') == Depths(st)[top := 0];
    SumUpdate(Depths(st), top, 0);
  }

  /** From every such state some continuation without dispatches brings a worker to poll the stage. */
  lemma {:induction false} PollIsAhead(cfg: Config, st: State, s: nat)
    requires Shaped(cfg, st) && cfg.threads > 0 && s < |cfg.max| && Hopeful(cfg, st, s)
    ensures PollAhead(cfg, st, s)
    decreases Sum(Pending(cfg, st)), AllSignals(cfg, st), Sum(st.queue), Sum(Ranks(st))
  {
    hide Hopeful, Next, Enabled, PollAhead;
    if AtPoll(st, s) {
      PollNow(cfg, st, s);
    } else if a: nat :| InFlight(cfg, st, a) {
      SignalShrinks(cfg, st, a);
      var e := SignalOf(cfg, st, a);
      StepKeepsHope(cfg, st, e, s);
      PollIsAhead(cfg, Next(cfg, st, e), s);
      PollAfter(cfg, st, e, s);
    } else if t :| 0 <= t < cfg.threads && !st.pc[t].Idle? {
      assert !InFlight(cfg, st, t);
      AdvanceShrinks(cfg, st, t);
      var e := Advance(cfg, st, t);
      StepKeepsHope(cfg, st, e, s);
      PollIsAhead(cfg, Next(cfg, st, e), s);
      PollAfter(cfg, st, e, s);
    } else {
      assert AllIdle(cfg, st);
      PollFromIdle(cfg, st, s);
    }
  }

  lemma PollFromIdle(cfg: Config, st: State, s: nat)
    requires Shaped(cfg, st) && cfg.threads > 0 && s < |cfg.max| && Hopeful(cfg, st, s) && !AtPoll(st, s)
    requires AllIdle(cfg, st)
    ensures PollAhead(cfg, st, s)
    decreases Sum(Pending(cfg, st)), AllSignals(cfg, st), Sum(st.queue), Sum(Ranks(st)), 0
  {
    if cfg.policy.Color? {
      TokenTaken(cfg, st, s);
      StepKeepsHope(cfg, st, Pick(0), s);
      PollIsAhead(cfg, Next(cfg, st, Pick(0)), s);
      PollAfter(cfg, st, Pick(0), s);
    } else {
      var top := CM.Highwater(Depths(st));
      var st' := AfterVisit(cfg, st, top);
      if s == top {
        assert cfg.max[s] > 0;
        assert st'.pc[0] == Draining(s);
        PollNow(cfg, st', s);
      } else {
        VisitKeepsHope(cfg, st, s);
        PollIsAhead(cfg, st', s);
      }
      VisitOfLoneWorker(cfg, st, s);
    }
  }

  lemma TokenTaken(cfg: Config, st: State, s: nat)
    requires Shaped(cfg, st) && cfg.policy.Color? && cfg.threads > 0 && s < |cfg.max| && Hopeful(cfg, st, s)
    requires AllIdle(cfg, st)
    ensures Enabled(cfg, st, Pick(0))
    ensures var st' := Next(cfg, st, Pick(0));
            Pending(cfg, st') == Pending(cfg, st) && AllSignals(cfg, st') < AllSignals(cfg, st)
  {
    SignalLeft(cfg, st, s);
  }
}

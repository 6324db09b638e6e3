/** Where a claim can fail or a signal be lost, work can be abandoned: for every such configuration, a run that does
    it. */
module StrandedWork {
  import opened Counting
  import opened Assignments
  import opened WorkSignals
  import opened WorkProgress

  // ----- forsaken stages -----

  /** Nothing points to the stage, and an idle worker of Color-minus does not look there of itself. */
  predicate Forsaken(cfg: Config, st: State, s: nat)
    requires Shaped(cfg, st)
  {
    && s < |cfg.max| && !(cfg.policy.ColorMinus? && s == 0)
    && !Attended(st, s) && Signals(cfg, st, s) == 0 && forall a | 0 <= a < Agents(cfg) :: st.inflight[a] != s
  }

  lemma StillUnattended(cfg: Config, st: State, e: Event, s: nat)
    requires Shaped(cfg, st) && Forsaken(cfg, st, s) && Enabled(cfg, st, e) && !ByDispatcher(e)
    requires Next(cfg, st, e).pc[e.t].Idle? || !Heading(Next(cfg, st, e).pc[e.t], s)
    ensures !Attended(Next(cfg, st, e), s)
  {
    forall t | 0 <= t < cfg.threads
      ensures !Heading(Next(cfg, st, e).pc[t], s)
    {
      assert !Heading(st.pc[t], s);
    }
  }

  lemma PickPassesBy(cfg: Config, st: State, t: nat, s: nat)
    requires Shaped(cfg, st) && Forsaken(cfg, st, s) && Enabled(cfg, st, Pick(t))
    ensures Next(cfg, st, Pick(t)).pc[t].stage != s
    ensures Signals(cfg, Next(cfg, st, Pick(t)), s) == 0
  {
    if cfg.policy.Color? {
      assert st.tokens == [st.tokens[0]] + st.tokens[1..];
      assert st.tokens[0] in st.tokens;
    } else {
      assert Depths(st)[0] <= Depths(st)[CM.Highwater(Depths(st))];
    }
  }

  lemma DispatchPassesBy(cfg: Config, st: State, e: Event, s: nat)
    requires Shaped(cfg, st) && Forsaken(cfg, st, s) && Enabled(cfg, st, e) && ByDispatcher(e)
    requires e.PushMessage? ==> e.s != s
    ensures Forsaken(cfg, Next(cfg, st, e), s)
  {
    assert Next(cfg, st, e).pc == st.pc;
  }

  lemma WorkerPassesBy(cfg: Config, st: State, e: Event, s: nat)
    requires Shaped(cfg, st) && Forsaken(cfg, st, s) && Enabled(cfg, st, e) && !ByDispatcher(e)
    ensures Forsaken(cfg, Next(cfg, st, e), s)
  {
    if e.Pick? {
      PickPassesBy(cfg, st, e.t, s);
    } else {
      assert !Heading(st.pc[e.t], s);
    }
    StillUnattended(cfg, st, e, s);
  }

  /** Without a dispatch to it, nobody ever polls a forsaken stage. */
  lemma {:induction false} ForsakenForGood(cfg: Config, st: State, s: nat, es: seq<Event>)
    requires Shaped(cfg, st) && Forsaken(cfg, st, s)
    ensures !LeadsToPoll(cfg, st, s, es)
    decreases |es|
  {
    if es == [] {
      forall t | 0 <= t < cfg.threads
        ensures st.pc[t] != Draining(s)
      {
        assert !Heading(st.pc[t], s);
      }
    } else if Enabled(cfg, st, es[0]) && !(es[0].PushMessage? && es[0].s == s) {
      if ByDispatcher(es[0]) {
        DispatchPassesBy(cfg, st, es[0], s);
      } else {
        WorkerPassesBy(cfg, st, es[0], s);
      }
      ForsakenForGood(cfg, Next(cfg, st, es[0]), s, es[1..]);
    }
  }

  /** Nobody has got into a stage that takes nobody. */
  predicate Unentered(cfg: Config, st: State, s: nat)
    requires Shaped(cfg, st)
  {
    s < |cfg.max| && cfg.max[s] == 0
    && forall t | 0 <= t < cfg.threads && !st.pc[t].Idle? && st.pc[t].stage == s :: st.pc[t].Picked? || st.pc[t].Failed?
  }

  lemma {:induction false} UnenteredForGood(cfg: Config, st: State, s: nat, es: seq<Event>)
    requires Shaped(cfg, st) && Unentered(cfg, st, s)
    ensures !LeadsToPoll(cfg, st, s, es)
    decreases |es|
  {
    if es != [] && Enabled(cfg, st, es[0]) {
      var st' := Next(cfg, st, es[0]);
      assert forall t | 0 <= t < cfg.threads && (ByDispatcher(es[0]) || t != es[0].t) :: st'.pc[t] == st.pc[t];
      assert Unentered(cfg, st', s);
      UnenteredForGood(cfg, st', s, es[1..]);
    }
  }

  // ----- scenes: everything happens at one stage -----

  ghost predicate Reachable(cfg: Config, st: State)
  {
    exists es :: Exec(cfg, es) == Some(st)
  }

  predicate Leads(cfg: Config, st: State, e: Event, st': State)
  {
    Shaped(cfg, st) && Enabled(cfg, st, e) && Next(cfg, st, e) == st'
  }

  lemma ReachNext(cfg: Config, st: State, e: Event, st': State)
    requires Reachable(cfg, st) && Leads(cfg, st, e, st')
    ensures Reachable(cfg, st')
  {
    hide Shaped, Enabled, Next, Init;
    var es :| Exec(cfg, es) == Some(st);
    assert (es + [e])[..|es|] == es;
    assert Exec(cfg, es + [e]) == Some(st');
  }

  datatype Flight = NoFlight | Pushed | Read(count: nat)

  /** Threads below `k` have found the stage empty and not yet released it; thread `k` is at `pc`; the rest are idle.
      `messages` wait at the stage, and the first producer's dispatch is in `flight`. The signals for the stage are what
      `current` is ahead of `previous`. */
  datatype View = View(k: nat, pc: Pc, messages: nat, previous: nat, current: nat, flight: Flight)

  datatype Script = Script(cfg: Config, s: nat)
  {
    predicate Valid() {
      s < |cfg.max| && cfg.producers > 0
    }

    predicate Shows(v: View)
    {
      && v.k < cfg.threads && (v.pc.Idle? || v.pc.stage == s) && ThreadShaped(cfg, v.pc)
      && (v.flight.Read? ==> SplitIncrement(cfg))
    }
  }

  function Only(n: nat, s: nat, value: nat): seq<nat>
    requires s < n
  {
    seq(n, _ => 0)[s := value]
  }

  function Scene(x: Script, v: View): (st: State)
    requires x.Valid() && x.Shows(v)
    ensures Shaped(x.cfg, st)
  {
    var n, threads, color := |x.cfg.max|, x.cfg.threads, x.cfg.policy.Color?;
    State(Only(n, x.s, v.messages),
          if color then seq(MC.DepthOf(v.previous, v.current), _ => x.s) else [],
          Only(n, x.s, if color then 0 else v.previous),
          Only(n, x.s, if color then 0 else v.current),
          seq(threads, (t: nat) => if t < v.k then Leaving(x.s) else Idle)[v.k := v.pc],
          seq(Agents(x.cfg), _ => n)[threads := if v.flight.NoFlight? then n else x.s],
          seq(Agents(x.cfg), _ => None)[threads := if v.flight.Read? then Some(v.flight.count) else None])
  }

  ghost predicate Reached(x: Script, v: View)
  {
    x.Valid() && x.Shows(v) && Reachable(x.cfg, Scene(x, v))
  }

  lemma ReachView(x: Script, v: View, e: Event, v': View)
    requires Reached(x, v) && x.Shows(v') && Leads(x.cfg, Scene(x, v), e, Scene(x, v'))
    ensures Reached(x, v')
  {
    ReachNext(x.cfg, Scene(x, v), e, Scene(x, v'));
  }

  lemma ReachInit(x: Script)
    requires x.Valid() && x.cfg.threads > 0
    ensures Reached(x, View(0, Idle, 0, 0, 0, NoFlight))
  {
    assert Exec(x.cfg, []) == Some(Init(x.cfg));
    assert Scene(x, View(0, Idle, 0, 0, 0, NoFlight)) == Init(x.cfg);
  }

  lemma SceneVisitors(x: Script, v: View)
    requires x.Valid() && x.Shows(v) && !Holds(v.pc)
    ensures Visitors(x.cfg, Scene(x, v), x.s) == v.k
  {
    var n, threads := |x.cfg.max|, x.cfg.threads;
    assert Held(x.cfg, Scene(x, v)) == seq(v.k, _ => x.s) + seq(threads - v.k, _ => n);
    CountRepeat(v.k, x.s, x.s);
    CountRepeat(threads - v.k, n, x.s);
  }

  // ----- one event at a time -----

  lemma PushIt(x: Script, v: View)
    requires Reached(x, v) && v.flight.NoFlight?
    ensures Reached(x, v.(messages := v.messages + 1, flight := Pushed))
  {
    var v', e := v.(messages := v.messages + 1, flight := Pushed), PushMessage(x.cfg.threads, x.s);
    assert Next(x.cfg, Scene(x, v), e) == Scene(x, v');
    ReachView(x, v, e, v');
  }

  lemma SignalIt(x: Script, v: View)
    requires Reached(x, v) && v.flight.Pushed? && !SplitIncrement(x.cfg)
    requires x.cfg.policy.Color? ==> v.previous <= v.current
    ensures Reached(x, v.(current := v.current + 1, flight := NoFlight))
  {
    var v', e := v.(current := v.current + 1, flight := NoFlight), Signal(x.cfg.threads);
    assert Next(x.cfg, Scene(x, v), e).tokens == Scene(x, v').tokens;
    assert Next(x.cfg, Scene(x, v), e) == Scene(x, v');
    ReachView(x, v, e, v');
  }

  lemma ReadIt(x: Script, v: View)
    requires Reached(x, v) && v.flight.Pushed? && SplitIncrement(x.cfg)
    ensures Reached(x, v.(flight := Read(v.current)))
  {
    var v', e := v.(flight := Read(v.current)), ReadCount(x.cfg.threads);
    assert Next(x.cfg, Scene(x, v), e) == Scene(x, v');
    ReachView(x, v, e, v');
  }

  lemma WriteIt(x: Script, v: View)
    requires Reached(x, v) && v.flight.Read?
    ensures Reached(x, v.(current := v.flight.count + 1, flight := NoFlight))
  {
    var v', e := v.(current := v.flight.count + 1, flight := NoFlight), WriteCount(x.cfg.threads);
    assert Next(x.cfg, Scene(x, v), e) == Scene(x, v');
    ReachView(x, v, e, v');
  }

  /** A worker that finds a signal takes it: Color's token is gone at once. */
  function PickedView(x: Script, v: View): View
  {
    v.(pc := Picked(x.s), previous := if x.cfg.policy.Color? then v.previous + 1 else v.previous)
  }

  lemma PickIt(x: Script, v: View)
    requires Reached(x, v) && v.pc.Idle? && v.previous < v.current
    ensures Reached(x, PickedView(x, v))
  {
    var v', st := PickedView(x, v), Scene(x, v);
    if x.cfg.policy.ColorMinus? {
      CM.HighwaterUnique(Depths(st), x.s);
    }
    assert Next(x.cfg, st, Pick(v.k)).tokens == Scene(x, v').tokens;
    assert Next(x.cfg, st, Pick(v.k)) == Scene(x, v');
    ReachView(x, v, Pick(v.k), v');
  }

  lemma ClaimAtOnce(x: Script, v: View)
    requires Reached(x, v) && v.pc.Picked? && x.cfg.atomicClaims
    ensures Reached(x, v.(pc := AfterClaim(x.cfg, x.s, v.k < x.cfg.max[x.s])))
  {
    var v' := v.(pc := AfterClaim(x.cfg, x.s, v.k < x.cfg.max[x.s]));
    SceneVisitors(x, v);
    assert Next(x.cfg, Scene(x, v), Claim(v.k)) == Scene(x, v');
    ReachView(x, v, Claim(v.k), v');
  }

  lemma LoadIt(x: Script, v: View)
    requires Reached(x, v) && v.pc.Picked? && !x.cfg.atomicClaims
    ensures Reached(x, v.(pc := if v.k < x.cfg.max[x.s] then Loaded(x.s, v.k) else AfterClaim(x.cfg, x.s, false)))
  {
    var v' := v.(pc := if v.k < x.cfg.max[x.s] then Loaded(x.s, v.k) else AfterClaim(x.cfg, x.s, false));
    SceneVisitors(x, v);
    assert Next(x.cfg, Scene(x, v), Load(v.k)) == Scene(x, v');
    ReachView(x, v, Load(v.k), v');
  }

  lemma ExchangeIt(x: Script, v: View)
    requires Reached(x, v) && v.pc.Loaded?
    ensures Reached(x, v.(pc := AfterClaim(x.cfg, x.s, v.k == v.pc.seen)))
  {
    var v' := v.(pc := AfterClaim(x.cfg, x.s, v.k == v.pc.seen));
    SceneVisitors(x, v);
    assert Next(x.cfg, Scene(x, v), Exchange(v.k)) == Scene(x, v');
    ReachView(x, v, Exchange(v.k), v');
  }

  lemma ResetIt(x: Script, v: View)
    requires Reached(x, v) && (v.pc.Entering? || v.pc.Failed?)
    ensures Reached(x, v.(previous := v.current, pc := if v.pc.Entering? then Draining(x.s) else Idle))
  {
    var v' := v.(previous := v.current, pc := if v.pc.Entering? then Draining(x.s) else Idle);
    assert Next(x.cfg, Scene(x, v), ResetDepth(v.k)) == Scene(x, v');
    ReachView(x, v, ResetDepth(v.k), v');
  }

  lemma PollIt(x: Script, v: View)
    requires Reached(x, v) && v.pc.Draining?
    ensures Reached(x, if v.messages > 0 then v.(messages := v.messages - 1, pc := Handling(x.s))
                       else v.(pc := Leaving(x.s)))
  {
    var v' := if v.messages > 0 then v.(messages := v.messages - 1, pc := Handling(x.s)) else v.(pc := Leaving(x.s));
    assert Next(x.cfg, Scene(x, v), Poll(v.k)) == Scene(x, v');
    ReachView(x, v, Poll(v.k), v');
  }

  lemma FinishIt(x: Script, v: View)
    requires Reached(x, v) && v.pc.Handling?
    ensures Reached(x, v.(pc := Draining(x.s)))
  {
    var v' := v.(pc := Draining(x.s));
    assert Next(x.cfg, Scene(x, v), Finish(v.k)) == Scene(x, v');
    ReachView(x, v, Finish(v.k), v');
  }

  lemma ReleaseIt(x: Script, v: View)
    requires Reached(x, v) && v.pc.Leaving?
    ensures Reached(x, v.(pc := Idle))
  {
    var v' := v.(pc := Idle);
    assert Next(x.cfg, Scene(x, v), Release(v.k)) == Scene(x, v');
    ReachView(x, v, Release(v.k), v');
  }

  // ----- a dispatch, a claim, a visit -----

  lemma DispatchOne(x: Script, v: View)
    requires Reached(x, v) && v.flight.NoFlight? && (x.cfg.policy.Color? ==> v.previous <= v.current)
    ensures Reached(x, v.(messages := v.messages + 1, current := v.current + 1))
  {
    hide Reached, Scene, Script.Shows;
    PushIt(x, v);
    var pushed := v.(messages := v.messages + 1, flight := Pushed);
    if SplitIncrement(x.cfg) {
      ReadIt(x, pushed);
      WriteIt(x, pushed.(flight := Read(v.current)));
    } else {
      SignalIt(x, pushed);
    }
  }

  /** Undisturbed, thread `k` finds `k` visitors: the claim succeeds exactly if the maximum is larger. Either way the
      signals are used up. */
  lemma ClaimAndSettle(x: Script, v: View)
    requires Reached(x, v) && v.pc.Idle? && v.previous < v.current && x.s < |x.cfg.max|
    requires x.cfg.policy.Color? ==> v.current == v.previous + 1
    ensures Reached(x, v.(previous := v.current, pc := if v.k < x.cfg.max[x.s] then Draining(x.s) else Idle))
  {
    hide Reached, Scene, Script.Shows;
    PickIt(x, v);
    var picked, success := PickedView(x, v), v.k < x.cfg.max[x.s];
    if x.cfg.atomicClaims {
      ClaimAtOnce(x, picked);
    } else {
      LoadIt(x, picked);
      if success {
        ExchangeIt(x, picked.(pc := Loaded(x.s, v.k)));
      }
    }
    if x.cfg.policy.ColorMinus? {
      ResetIt(x, picked.(pc := AfterClaim(x.cfg, x.s, success)));
    }
  }

  lemma {:induction false} DrainAll(x: Script, v: View)
    requires Reached(x, v) && v.pc.Draining?
    ensures Reached(x, v.(pc := Leaving(x.s), messages := 0))
    decreases v.messages
  {
    hide Reached, Scene, Script.Shows;
    PollIt(x, v);
    if v.messages > 0 {
      FinishIt(x, v.(messages := v.messages - 1, pc := Handling(x.s)));
      DrainAll(x, v.(messages := v.messages - 1, pc := Draining(x.s)));
    }
  }

  // ----- a stage that does not take every thread -----

  lemma NextThread(x: Script, v: View)
    requires Reached(x, v) && v.pc.Leaving? && v.k + 1 < x.cfg.threads
    ensures Reached(x, v.(k := v.k + 1, pc := Idle))
  {
    assert Scene(x, v).pc == Scene(x, v.(k := v.k + 1, pc := Idle)).pc;
  }

  /** As many threads as the stage takes can all sit at it after their last, empty poll. */
  lemma {:induction false} FillWithLeavers(x: Script, k: nat)
    requires x.Valid() && k < x.cfg.threads && k <= x.cfg.max[x.s]
    ensures Reached(x, View(k, Idle, 0, k, k, NoFlight))
  {
    hide Reached, Scene, Script.Shows;
    if k == 0 {
      ReachInit(x);
    } else {
      FillWithLeavers(x, k - 1);
      DispatchOne(x, View(k - 1, Idle, 0, k - 1, k - 1, NoFlight));
      ClaimAndSettle(x, View(k - 1, Idle, 1, k - 1, k, NoFlight));
      DrainAll(x, View(k - 1, Draining(x.s), 1, k, k, NoFlight));
      NextThread(x, View(k - 1, Leaving(x.s), 0, k, k, NoFlight));
    }
  }

  lemma AbandonedScene(x: Script, v: View)
    requires x.Valid() && x.Shows(v) && !(x.cfg.policy.ColorMinus? && x.s == 0)
    requires v.pc.Idle? && v.messages > 0 && v.previous >= v.current && v.flight.NoFlight?
    ensures Abandoned(x.cfg, Scene(x, v), x.s)
  {
    var st := Scene(x, v);
    assert Forsaken(x.cfg, st, x.s);
    forall es
      ensures !LeadsToPoll(x.cfg, st, x.s, es)
    {
      ForsakenForGood(x.cfg, st, x.s, es);
    }
  }

  lemma ReachedAbandoned(cfg: Config, st: State, s: nat)
    requires Shaped(cfg, st) && s < |cfg.max| && Reachable(cfg, st) && Abandoned(cfg, st, s)
    ensures !NeverAbandons(cfg, s)
  {
    var es :| Exec(cfg, es) == Some(st);
  }

  /** A stage that does not take every thread: once it is full of threads that have polled for the last time, the next
      message's signal is dropped by a claim that finds no room. */
  lemma FullStageAbandons(x: Script)
    requires x.Valid() && x.cfg.max[x.s] < x.cfg.threads && !(x.cfg.policy.ColorMinus? && x.s == 0)
    ensures !NeverAbandons(x.cfg, x.s)
  {
    var k := x.cfg.max[x.s];
    FillWithLeavers(x, k);
    DispatchOne(x, View(k, Idle, 0, k, k, NoFlight));
    ClaimAndSettle(x, View(k, Idle, 1, k, k + 1, NoFlight));
    var last := View(k, Idle, 1, k + 1, k + 1, NoFlight);
    AbandonedScene(x, last);
    ReachedAbandoned(x.cfg, Scene(x, last), x.s);
  }

  /** A stage that takes nobody abandons whatever comes. */
  lemma MaskedStageAbandons(x: Script)
    requires x.Valid() && x.cfg.max[x.s] == 0 && x.cfg.threads > 0
    ensures !NeverAbandons(x.cfg, x.s)
  {
    ReachInit(x);
    DispatchOne(x, View(0, Idle, 0, 0, 0, NoFlight));
    var st := Scene(x, View(0, Idle, 1, 0, 1, NoFlight));
    forall es
      ensures !LeadsToPoll(x.cfg, st, x.s, es)
    {
      UnenteredForGood(x.cfg, st, x.s, es);
    }
    ReachedAbandoned(x.cfg, st, x.s);
  }

  // ----- a claim in two steps -----

  /** Thread 0 has released its place between the load and the exchange of thread 1. */
  function Race(x: Script, previous: nat, current: nat): (st: State)
    requires x.Valid() && !x.cfg.atomicClaims && x.cfg.threads >= 2
    ensures Shaped(x.cfg, st)
  {
    var st := Scene(x, View(0, Idle, 1, previous, current, NoFlight));
    st.(pc := st.pc[1 := Loaded(x.s, 1)])
  }

  lemma ReleaseInWindow(x: Script, previous: nat, current: nat)
    requires !x.cfg.atomicClaims && x.cfg.threads >= 2
    requires Reached(x, View(1, Loaded(x.s, 1), 1, previous, current, NoFlight))
    ensures Reachable(x.cfg, Race(x, previous, current))
  {
    var st := Scene(x, View(1, Loaded(x.s, 1), 1, previous, current, NoFlight));
    assert Next(x.cfg, st, Release(0)) == Race(x, previous, current);
    ReachNext(x.cfg, st, Release(0), Race(x, previous, current));
  }

  lemma RaceVisitors(x: Script, previous: nat, current: nat)
    requires x.Valid() && !x.cfg.atomicClaims && x.cfg.threads >= 2
    ensures Visitors(x.cfg, Race(x, previous, current), x.s) == 0
  {
    assert Held(x.cfg, Race(x, previous, current)) == seq(x.cfg.threads, _ => |x.cfg.max|);
    CountRepeat(x.cfg.threads, |x.cfg.max|, x.s);
  }

  /** After the exchange and, in Color-minus, the reset. */
  function AfterFailure(cfg: Config, st: State, t: nat): (st': State)
    requires Shaped(cfg, st) && Enabled(cfg, st, Exchange(t)) && Visitors(cfg, st, st.pc[t].stage) != st.pc[t].seen
    ensures Shaped(cfg, st')
  {
    var failed := Next(cfg, st, Exchange(t));
    if cfg.policy.Color? then failed else Next(cfg, failed, ResetDepth(t))
  }

  /** The exchange of a thread fails although the stage has room, and the message it was for is abandoned. */
  ghost predicate DroppedWithRoom(cfg: Config, st: State, t: nat, s: nat)
  {
    && Shaped(cfg, st) && Enabled(cfg, st, Exchange(t)) && st.pc[t].stage == s
    && Visitors(cfg, st, s) != st.pc[t].seen && Visitors(cfg, st, s) < cfg.max[s]
    && Abandoned(cfg, AfterFailure(cfg, st, t), s)
  }

  lemma RaceFails(x: Script, previous: nat, current: nat)
    requires x.Valid() && !x.cfg.atomicClaims && x.cfg.threads >= 2
    requires x.cfg.policy.Color? ==> previous == current
    ensures var st := Race(x, previous, current);
            && Enabled(x.cfg, st, Exchange(1)) && st.pc[1].stage == x.s
            && Visitors(x.cfg, st, x.s) == 0 != st.pc[1].seen
            && AfterFailure(x.cfg, st, 1) == Scene(x, View(0, Idle, 1, current, current, NoFlight))
  {
    RaceVisitors(x, previous, current);
  }

  lemma FailureIsReached(cfg: Config, st: State, t: nat)
    requires Shaped(cfg, st) && Enabled(cfg, st, Exchange(t)) && Visitors(cfg, st, st.pc[t].stage) != st.pc[t].seen
    requires Reachable(cfg, st)
    ensures Reachable(cfg, AfterFailure(cfg, st, t))
  {
    var failed := Next(cfg, st, Exchange(t));
    ReachNext(cfg, st, Exchange(t), failed);
    if cfg.policy.ColorMinus? {
      ReachNext(cfg, failed, ResetDepth(t), Next(cfg, failed, ResetDepth(t)));
    }
  }

  /** Two threads and a claim in two steps: a visitor that has polled for the last time releases between the other's
      load and exchange; the exchange fails although there is room, and the message is abandoned. */
  lemma DisturbedClaimAbandons(x: Script)
    requires x.Valid() && !x.cfg.atomicClaims && x.cfg.threads >= 2 && x.cfg.max[x.s] >= 2
    requires !(x.cfg.policy.ColorMinus? && x.s == 0)
    ensures exists st, t :: Reachable(x.cfg, st) && DroppedWithRoom(x.cfg, st, t, x.s)
    ensures !NeverAbandons(x.cfg, x.s)
  {
    FillWithLeavers(x, 1);
    DispatchOne(x, View(1, Idle, 0, 1, 1, NoFlight));
    PickIt(x, View(1, Idle, 1, 1, 2, NoFlight));
    var p := if x.cfg.policy.Color? then 2 else 1;
    LoadIt(x, View(1, Picked(x.s), 1, p, 2, NoFlight));
    ReleaseInWindow(x, p, 2);
    RaceFails(x, p, 2);
    FailureIsReached(x.cfg, Race(x, p, 2), 1);
    var last := View(0, Idle, 1, 2, 2, NoFlight);
    AbandonedScene(x, last);
    ReachedAbandoned(x.cfg, Scene(x, last), x.s);
    assert DroppedWithRoom(x.cfg, Race(x, p, 2), 1, x.s);
  }

  // ----- an increment in two steps -----

  /** The functor that thread 0 runs has pushed a message to the stage itself, and perhaps loaded its count. */
  function Dispatching(x: Script, v: View, seen: Option<nat>): (st: State)
    requires x.Valid() && x.Shows(v) && v.k == 0 && v.pc.Handling? && SplitIncrement(x.cfg)
    ensures Shaped(x.cfg, st)
  {
    var st := Scene(x, v.(messages := v.messages + 1));
    st.(inflight := st.inflight[0 := x.s], seen := st.seen[0 := seen])
  }

  lemma WorkerPushes(x: Script, v: View)
    requires x.Valid() && x.Shows(v) && v.k == 0 && v.pc.Handling? && SplitIncrement(x.cfg)
    ensures Leads(x.cfg, Scene(x, v), PushMessage(0, x.s), Dispatching(x, v, None))
  {
    var st', st := Next(x.cfg, Scene(x, v), PushMessage(0, x.s)), Dispatching(x, v, None);
    assert st'.queue == st.queue && st'.inflight == st.inflight && st'.seen == st.seen;
  }

  lemma WorkerReads(x: Script, v: View)
    requires x.Valid() && x.Shows(v) && v.k == 0 && v.pc.Handling? && SplitIncrement(x.cfg)
    ensures Leads(x.cfg, Dispatching(x, v, None), ReadCount(0), Dispatching(x, v, Some(v.current)))
  {
    var st', st := Next(x.cfg, Dispatching(x, v, None), ReadCount(0)), Dispatching(x, v, Some(v.current));
    assert st'.inflight == st.inflight && st'.seen == st.seen;
  }

  lemma WorkerWrites(x: Script, v: View)
    requires x.Valid() && x.Shows(v) && v.k == 0 && v.pc.Handling? && SplitIncrement(x.cfg)
    ensures Leads(x.cfg, Dispatching(x, v, Some(v.current)), WriteCount(0),
                  Scene(x, v.(messages := v.messages + 1, current := v.current + 1)))
  {
    var st' := Next(x.cfg, Dispatching(x, v, Some(v.current)), WriteCount(0));
    var st := Scene(x, v.(messages := v.messages + 1, current := v.current + 1));
    assert st'.inflight == st.inflight && st'.seen == st.seen && st'.current == st.current;
  }

  lemma WorkerDispatches(x: Script, v: View)
    requires Reached(x, v) && v.k == 0 && v.pc.Handling? && SplitIncrement(x.cfg)
    ensures Reached(x, v.(messages := v.messages + 1, current := v.current + 1))
  {
    hide Leads, Scene, Dispatching;
    WorkerPushes(x, v);
    WorkerReads(x, v);
    WorkerWrites(x, v);
    ReachNext(x.cfg, Scene(x, v), PushMessage(0, x.s), Dispatching(x, v, None));
    ReachNext(x.cfg, Dispatching(x, v, None), ReadCount(0), Dispatching(x, v, Some(v.current)));
    ReachNext(x.cfg, Dispatching(x, v, Some(v.current)), WriteCount(0),
              Scene(x, v.(messages := v.messages + 1, current := v.current + 1)));
  }

  /** A producer has loaded the count 1; a worker meanwhile counts to 3 and handles everything. */
  lemma WorkerOvertakes(x: Script)
    requires x.Valid() && SplitIncrement(x.cfg) && x.cfg.threads > 0 && x.cfg.max[x.s] > 0
    ensures Reached(x, View(0, Idle, 0, 3, 3, Read(1)))
  {
    hide Reached, Scene, Script.Shows;
    ReachInit(x);
    DispatchOne(x, View(0, Idle, 0, 0, 0, NoFlight));
    ClaimAndSettle(x, View(0, Idle, 1, 0, 1, NoFlight));
    PollIt(x, View(0, Draining(x.s), 1, 1, 1, NoFlight));
    PushIt(x, View(0, Handling(x.s), 0, 1, 1, NoFlight));
    ReadIt(x, View(0, Handling(x.s), 1, 1, 1, Pushed));
    WorkerDispatches(x, View(0, Handling(x.s), 1, 1, 1, Read(1)));
    WorkerDispatches(x, View(0, Handling(x.s), 2, 1, 2, Read(1)));
    FinishIt(x, View(0, Handling(x.s), 3, 1, 3, Read(1)));
    DrainAll(x, View(0, Draining(x.s), 3, 1, 3, Read(1)));
    ReleaseIt(x, View(0, Leaving(x.s), 0, 1, 3, Read(1)));
    ClaimAndSettle(x, View(0, Idle, 0, 1, 3, Read(1)));
    DrainAll(x, View(0, Draining(x.s), 0, 3, 3, Read(1)));
    ReleaseIt(x, View(0, Leaving(x.s), 0, 3, 3, Read(1)));
  }

  /** An increment in two steps: the producer stores 2 over the 3 up to which everything is handled, and its next
      message brings the count to where the depth is still zero. One worker and one producer are enough. */
  lemma LostIncrementAbandons(x: Script)
    requires x.Valid() && SplitIncrement(x.cfg) && x.cfg.threads > 0 && x.cfg.max[x.s] > 0 && x.s != 0
    ensures !NeverAbandons(x.cfg, x.s)
  {
    WorkerOvertakes(x);
    WriteIt(x, View(0, Idle, 0, 3, 3, Read(1)));
    DispatchOne(x, View(0, Idle, 0, 3, 2, NoFlight));
    var last := View(0, Idle, 1, 3, 3, NoFlight);
    AbandonedScene(x, last);
    ReachedAbandoned(x.cfg, Scene(x, last), x.s);
  }

  // ----- the exact condition -----

  /** Stage 0 of Color-minus need only take a visitor. Any other stage must be lossless. */
  predicate Safe(cfg: Config, s: nat)
    requires s < |cfg.max|
  {
    if cfg.policy.ColorMinus? && s == 0 then cfg.max[0] > 0 else Lossless(cfg, s)
  }

  lemma SafeNeverAbandons(cfg: Config, es: seq<Event>, s: nat)
    requires s < |cfg.max| && cfg.threads > 0 && Safe(cfg, s) && Exec(cfg, es).Some?
    ensures !Abandoned(cfg, Exec(cfg, es).value, s)
  {
    var st := Exec(cfg, es).value;
    if st.queue[s] > 0 {
      if !(cfg.policy.ColorMinus? && s == 0) {
        EverythingSignalled(cfg, es, s);
      }
      PollIsAhead(cfg, st, s);
    }
  }

  /** In no run is a message at `s` ever abandoned exactly if `s` is stage 0 of Color-minus and takes a visitor, or else
      `s` takes all the threads, claims are one step or there is one thread, and increments are one step or there are
      none. */
  lemma NeverAbandonsExactly(cfg: Config, s: nat)
    requires cfg.producers > 0 && cfg.threads > 0 && s < |cfg.max|
    ensures NeverAbandons(cfg, s) <==> Safe(cfg, s)
  {
    var x := Script(cfg, s);
    if Safe(cfg, s) {
      forall es | Exec(cfg, es).Some?
        ensures !Abandoned(cfg, Exec(cfg, es).value, s)
      {
        SafeNeverAbandons(cfg, es, s);
      }
    } else if cfg.max[s] == 0 {
      MaskedStageAbandons(x);
    } else if cfg.max[s] < cfg.threads {
      FullStageAbandons(x);
    } else if SplitIncrement(cfg) {
      LostIncrementAbandons(x);
    } else {
      DisturbedClaimAbandons(x);
    }
  }
}

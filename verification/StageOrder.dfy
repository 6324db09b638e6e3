/** When does a stage handle its messages in the order they were pushed? Any scheduler that releases before it claims
    (wield/SchedulerBase.hpp, wield/StageBase.hpp, wield/schedulers/utils/ThreadAssignments.hpp): an idle thread may
    claim any stage that has room. */
module StageOrder {
  import opened Counting
  import opened Assignments

  datatype Config = Config(threads: nat, max: seq<nat>)

  datatype Pc =
    | Idle
    | Visiting(stage: nat)
    | Handling(stage: nat, m: nat)
    | Leaving(stage: nat)

  /** `handled`: the messages of each stage in the order their handling ended. */
  datatype State = State(queue: seq<seq<nat>>, pushed: seq<seq<nat>>, handled: seq<seq<nat>>, pc: seq<Pc>)

  datatype Event = Push(s: nat, m: nat) | Claim(t: nat, s: nat) | Poll(t: nat) | Finish(t: nat) | Release(t: nat)

  function Init(cfg: Config): State
  {
    var none := seq(|cfg.max|, _ => []);
    State(none, none, none, seq(cfg.threads, _ => Idle))
  }

  predicate Shaped(cfg: Config, st: State)
  {
    && |st.queue| == |st.pushed| == |st.handled| == |cfg.max| && |st.pc| == cfg.threads
    && forall t | 0 <= t < cfg.threads :: st.pc[t].Idle? || st.pc[t].stage < |cfg.max|
  }

  function Held(cfg: Config, st: State): (held: seq<nat>)
    requires |st.pc| == cfg.threads
    ensures |held| == cfg.threads
    ensures forall t | 0 <= t < cfg.threads :: held[t] == if st.pc[t].Idle? then |cfg.max| else st.pc[t].stage
  {
    seq(cfg.threads, t requires 0 <= t < cfg.threads => if st.pc[t].Idle? then |cfg.max| else st.pc[t].stage)
  }

  predicate Enabled(cfg: Config, st: State, e: Event)
    requires Shaped(cfg, st)
  {
    match e
    case Push(s, _) => s < |cfg.max|
    case Claim(t, s) => t < cfg.threads && st.pc[t].Idle? && Room(cfg.max, Held(cfg, st), s)
    case Poll(t) => t < cfg.threads && st.pc[t].Visiting?
    case Finish(t) => t < cfg.threads && st.pc[t].Handling?
    case Release(t) => t < cfg.threads && st.pc[t].Leaving?
  }

  function Next(cfg: Config, st: State, e: Event): (st': State)
    requires Shaped(cfg, st) && Enabled(cfg, st, e)
    ensures Shaped(cfg, st')
  {
    match e
    case Push(s, m) => st.(queue := st.queue[s := st.queue[s] + [m]], pushed := st.pushed[s := st.pushed[s] + [m]])
    case Claim(t, s) => st.(pc := st.pc[t := Visiting(s)])
    case Poll(t) =>
      var s := st.pc[t].stage;
      var q := st.queue[s];
      if q != [] then st.(queue := st.queue[s := q[1..]], pc := st.pc[t := Handling(s, q[0])])
      else st.(pc := st.pc[t := Leaving(s)])
    case Finish(t) =>
      var s := st.pc[t].stage;
      st.(handled := st.handled[s := st.handled[s] + [st.pc[t].m]], pc := st.pc[t := Visiting(s)])
    case Release(t) => st.(pc := st.pc[t := Idle])
  }

  function Exec(cfg: Config, es: seq<Event>): (r: Option<State>)
    ensures r.Some? ==> Shaped(cfg, r.value)
  {
    if es == [] then Some(Init(cfg)) else
    match Exec(cfg, es[..|es| - 1])
    case None => None
    case Some(st) => if Enabled(cfg, st, es[|es| - 1]) then Some(Next(cfg, st, es[|es| - 1])) else None
  }

  // ----- a visit -----

  function RunFrom(cfg: Config, st: State, es: seq<Event>): (r: Option<State>)
    requires Shaped(cfg, st)
    ensures r.Some? ==> Shaped(cfg, r.value)
    decreases |es|
  {
    if es == [] then Some(st) else if Enabled(cfg, st, es[0]) then RunFrom(cfg, Next(cfg, st, es[0]), es[1..]) else None
  }

  /** A poll and a finish for each of so many messages, the poll that finds nothing, and the release. */
  function VisitOf(t: nat, messages: nat): (es: seq<Event>)
    ensures |es| == 2 * messages + 2
  {
    if messages == 0 then [Poll(t), Release(t)] else [Poll(t), Finish(t)] + VisitOf(t, messages - 1)
  }

  lemma RunOneMore(cfg: Config, st: State, e: Event, es: seq<Event>)
    requires Shaped(cfg, st) && Enabled(cfg, st, e)
    ensures RunFrom(cfg, st, [e] + es) == RunFrom(cfg, Next(cfg, st, e), es)
  {
    assert ([e] + es)[1..] == es;
  }

  /** The stage with its queue drained by one thread, which has left. */
  function Drained(st: State, t: nat, s: nat): State
    requires t < |st.pc| && s < |st.queue| == |st.handled|
  {
    st.(queue := st.queue[s := []], handled := st.handled[s := st.handled[s] + st.queue[s]], pc := st.pc[t := Idle])
  }

  lemma OneHandled(cfg: Config, st: State, t: nat, s: nat)
    requires Shaped(cfg, st) && t < cfg.threads && st.pc[t] == Visiting(s) && st.queue[s] != []
    ensures Enabled(cfg, Next(cfg, st, Poll(t)), Finish(t))
    ensures var st' := Next(cfg, Next(cfg, st, Poll(t)), Finish(t));
            st'.pc[t] == Visiting(s) && st'.queue[s] == st.queue[s][1..] && Drained(st', t, s) == Drained(st, t, s)
  {
    var st' := Next(cfg, Next(cfg, st, Poll(t)), Finish(t));
    var q := st.queue[s];
    assert st.handled[s] + [q[0]] + q[1..] == st.handled[s] + q;
    assert st'.queue[s := []] == st.queue[s := []];
    assert st'.handled[s := st'.handled[s] + st'.queue[s]] == st.handled[s := st.handled[s] + q];
    assert st'.pc[t := Idle] == st.pc[t := Idle];
  }

  lemma NoneHandled(cfg: Config, st: State, t: nat, s: nat)
    requires Shaped(cfg, st) && t < cfg.threads && st.pc[t] == Visiting(s) && st.queue[s] == []
    ensures Enabled(cfg, Next(cfg, st, Poll(t)), Release(t))
    ensures Next(cfg, Next(cfg, st, Poll(t)), Release(t)) == Drained(st, t, s)
  {
    var st' := Next(cfg, Next(cfg, st, Poll(t)), Release(t));
    assert st.handled[s] + [] == st.handled[s];
    assert st'.queue == st.queue[s := []] && st'.handled == st.handled[s := st.handled[s] + []];
    assert st'.pc == st.pc[t := Idle];
  }

  /** From any state, a visit on which nothing arrives handles all that is queued, in order, and then the thread leaves;
      it takes two steps for each message and two more. */
  lemma {:induction false} VisitEnds(cfg: Config, st: State, t: nat, s: nat)
    requires Shaped(cfg, st) && t < cfg.threads && st.pc[t] == Visiting(s)
    ensures RunFrom(cfg, st, VisitOf(t, |st.queue[s]|)) == Some(Drained(st, t, s))
    decreases |st.queue[s]|
  {
    hide Drained, RunFrom, Next;
    var polled, rest := Next(cfg, st, Poll(t)), VisitOf(t, |st.queue[s]| - if st.queue[s] == [] then 0 else 1);
    if st.queue[s] == [] {
      NoneHandled(cfg, st, t, s);
      RunOneMore(cfg, st, Poll(t), [Release(t)]);
      RunOneMore(cfg, polled, Release(t), []);
      assert [Poll(t), Release(t)] == [Poll(t)] + [Release(t)] && [Release(t)] == [Release(t)] + [];
      RunNothing(cfg, Next(cfg, polled, Release(t)));
    } else {
      OneHandled(cfg, st, t, s);
      RunOneMore(cfg, st, Poll(t), [Finish(t)] + rest);
      RunOneMore(cfg, polled, Finish(t), rest);
      assert [Poll(t), Finish(t)] + rest == [Poll(t)] + ([Finish(t)] + rest);
      VisitEnds(cfg, Next(cfg, polled, Finish(t)), t, s);
    }
  }

  lemma RunNothing(cfg: Config, st: State)
    requires Shaped(cfg, st)
    ensures RunFrom(cfg, st, []) == Some(st)
  {
  }

  // ----- at most one visitor -----

  /** The stage can have one visitor at most. */
  predicate Serial(cfg: Config, s: nat)
    requires s < |cfg.max|
  {
    cfg.max[s] <= 1 || cfg.threads <= 1
  }

  lemma {:induction false} TwoOccurrences(h: seq<nat>, i: nat, j: nat)
    requires i < j < |h| && h[i] == h[j]
    ensures Count(h, h[i]) >= 2
  {
    var n := |h| - 1;
    assert h == h[..n] + [h[n]];
    if j == n {
      assert h[..n][i] in multiset(h[..n]);
    } else {
      TwoOccurrences(h[..n], i, j);
    }
  }

  ghost predicate Bounded(cfg: Config, st: State)
  {
    Shaped(cfg, st) && forall s | 0 <= s < |cfg.max| :: Count(Held(cfg, st), s) <= cfg.max[s]
  }

  lemma NextKeepsBounded(cfg: Config, st: State, e: Event)
    requires Bounded(cfg, st) && Enabled(cfg, st, e)
    ensures Bounded(cfg, Next(cfg, st, e))
  {
    var held, held' := Held(cfg, st), Held(cfg, Next(cfg, st, e));
    match e
    case Claim(t, s) =>
      assert held' == held[t := s];
      forall x | 0 <= x < |cfg.max|
        ensures Count(held', x) <= cfg.max[x]
      {
        CountUpdate(held, t, s, x);
      }
    case Release(t) =>
      assert held' == held[t := |cfg.max|];
      forall x | 0 <= x < |cfg.max|
        ensures Count(held', x) <= cfg.max[x]
      {
        CountUpdate(held, t, |cfg.max|, x);
      }
    case _ => assert held' == held;
  }

  lemma SerialVisitor(cfg: Config, st: State, t: nat, u: nat)
    requires Bounded(cfg, st) && t < cfg.threads && u < cfg.threads && !st.pc[t].Idle? && !st.pc[u].Idle?
    requires st.pc[t].stage == st.pc[u].stage && Serial(cfg, st.pc[t].stage)
    ensures t == u
  {
    if t < u {
      TwoOccurrences(Held(cfg, st), t, u);
    } else if u < t {
      TwoOccurrences(Held(cfg, st), u, t);
    }
  }

  /** The message being handled at `s`, if any, comes between what is handled and what is queued. */
  ghost predicate InOrderAt(cfg: Config, st: State, s: nat)
    requires Shaped(cfg, st) && s < |cfg.max|
  {
    && ((forall t | 0 <= t < cfg.threads :: !(st.pc[t].Handling? && st.pc[t].stage == s)) ==>
          st.pushed[s] == st.handled[s] + st.queue[s])
    && (forall t | 0 <= t < cfg.threads && st.pc[t].Handling? && st.pc[t].stage == s ::
          st.pushed[s] == st.handled[s] + [st.pc[t].m] + st.queue[s])
  }

  lemma PollKeepsOrder(cfg: Config, st: State, t: nat, s: nat)
    requires Shaped(cfg, st) && Bounded(cfg, st) && Enabled(cfg, st, Poll(t))
    requires s < |cfg.max| && Serial(cfg, s) && InOrderAt(cfg, st, s)
    ensures InOrderAt(cfg, Next(cfg, st, Poll(t)), s)
  {
    hide Bounded;
    var st' := Next(cfg, st, Poll(t));
    if st.pc[t].stage == s {
      OnlyVisitor(cfg, st, t);
      assert forall u | 0 <= u < cfg.threads :: !(st.pc[u].Handling? && st.pc[u].stage == s);
      assert forall u | 0 <= u < cfg.threads && st'.pc[u].Handling? && st'.pc[u].stage == s :: u == t;
      assert st.pushed[s] == st.handled[s] + st.queue[s];
      if st.queue[s] != [] {
        assert st'.pc[t] == Handling(s, st.queue[s][0]);
        assert st.handled[s] + st.queue[s] == st.handled[s] + [st.queue[s][0]] + st'.queue[s];
      }
    } else {
      OthersUnmoved(cfg, st, st', t, s);
    }
  }

  lemma FinishKeepsOrder(cfg: Config, st: State, t: nat, s: nat)
    requires Shaped(cfg, st) && Bounded(cfg, st) && Enabled(cfg, st, Finish(t))
    requires s < |cfg.max| && Serial(cfg, s) && InOrderAt(cfg, st, s)
    ensures InOrderAt(cfg, Next(cfg, st, Finish(t)), s)
  {
    hide Bounded;
    var st' := Next(cfg, st, Finish(t));
    if st.pc[t].stage == s {
      OnlyVisitor(cfg, st, t);
    } else {
      OthersUnmoved(cfg, st, st', t, s);
    }
  }

  lemma PushKeepsOrder(cfg: Config, st: State, e: Event, s: nat)
    requires Shaped(cfg, st) && Enabled(cfg, st, e) && e.Push? && s < |cfg.max| && InOrderAt(cfg, st, s)
    ensures InOrderAt(cfg, Next(cfg, st, e), s)
  {
    assert Next(cfg, st, e).pc == st.pc;
  }

  lemma NextKeepsOrder(cfg: Config, st: State, e: Event, s: nat)
    requires Bounded(cfg, st) && Enabled(cfg, st, e) && s < |cfg.max| && Serial(cfg, s) && InOrderAt(cfg, st, s)
    ensures InOrderAt(cfg, Next(cfg, st, e), s)
  {
    hide InOrderAt;
    match e
    case Push(_, _) => PushKeepsOrder(cfg, st, e, s);
    case Claim(t, _) => OthersUnmoved(cfg, st, Next(cfg, st, e), t, s);
    case Release(t) => OthersUnmoved(cfg, st, Next(cfg, st, e), t, s);
    case Poll(t) => PollKeepsOrder(cfg, st, t, s);
    case Finish(t) => FinishKeepsOrder(cfg, st, t, s);
  }

  lemma OnlyVisitor(cfg: Config, st: State, t: nat)
    requires Bounded(cfg, st) && t < cfg.threads && !st.pc[t].Idle? && Serial(cfg, st.pc[t].stage)
    ensures forall u | 0 <= u < cfg.threads && u != t && !st.pc[u].Idle? :: st.pc[u].stage != st.pc[t].stage
  {
    forall u | 0 <= u < cfg.threads && u != t && !st.pc[u].Idle?
      ensures st.pc[u].stage != st.pc[t].stage
    {
      if st.pc[u].stage == st.pc[t].stage {
        SerialVisitor(cfg, st, t, u);
      }
    }
  }

  /** A thread that handles nothing at `s` before and after leaves the order there alone. */
  lemma OthersUnmoved(cfg: Config, st: State, st': State, t: nat, s: nat)
    requires Shaped(cfg, st) && Shaped(cfg, st') && t < cfg.threads && s < |cfg.max| && InOrderAt(cfg, st, s)
    requires st'.pushed[s] == st.pushed[s] && st'.handled[s] == st.handled[s] && st'.queue[s] == st.queue[s]
    requires forall u | 0 <= u < cfg.threads && u != t :: st'.pc[u] == st.pc[u]
    requires !(st.pc[t].Handling? && st.pc[t].stage == s) && !(st'.pc[t].Handling? && st'.pc[t].stage == s)
    ensures InOrderAt(cfg, st', s)
  {
    if forall u | 0 <= u < cfg.threads :: !(st'.pc[u].Handling? && st'.pc[u].stage == s) {
      assert forall u | 0 <= u < cfg.threads && u != t :: st'.pc[u] == st.pc[u];
    }
  }

  lemma {:induction false} RunKeepsOrder(cfg: Config, es: seq<Event>, s: nat)
    requires Exec(cfg, es).Some? && s < |cfg.max| && Serial(cfg, s)
    ensures Bounded(cfg, Exec(cfg, es).value) && InOrderAt(cfg, Exec(cfg, es).value, s)
  {
    if es == [] {
      assert Held(cfg, Init(cfg)) == seq(cfg.threads, _ => |cfg.max|);
      forall x | 0 <= x < |cfg.max|
        ensures Count(Held(cfg, Init(cfg)), x) == 0
      {
        CountRepeat(cfg.threads, |cfg.max|, x);
      }
    } else {
      RunKeepsOrder(cfg, es[..|es| - 1], s);
      NextKeepsOrder(cfg, Exec(cfg, es[..|es| - 1]).value, es[|es| - 1], s);
      NextKeepsBounded(cfg, Exec(cfg, es[..|es| - 1]).value, es[|es| - 1]);
    }
  }

  /** Batches of different threads on such a stage never overlap. */
  lemma {:induction false} BatchesDoNotOverlap(cfg: Config, es: seq<Event>, t: nat, u: nat)
    requires Exec(cfg, es).Some? && t < cfg.threads && u < cfg.threads
    requires var st := Exec(cfg, es).value;
             !st.pc[t].Idle? && !st.pc[u].Idle? && st.pc[t].stage == st.pc[u].stage && Serial(cfg, st.pc[t].stage)
    ensures t == u
  {
    var st := Exec(cfg, es).value;
    RunKeepsOrder(cfg, es, st.pc[t].stage);
    SerialVisitor(cfg, st, t, u);
  }

  // ----- otherwise order is lost -----

  ghost predicate AlwaysInOrder(cfg: Config, s: nat)
  {
    forall es | Exec(cfg, es).Some? && s < |cfg.max| :: Exec(cfg, es).value.handled[s] <= Exec(cfg, es).value.pushed[s]
  }

  /** Two messages were pushed to `s`; the first two threads are at `pc0` and `pc1`. */
  function Scene(cfg: Config, s: nat, queue: seq<nat>, handled: seq<nat>, pc0: Pc, pc1: Pc): (st: State)
    requires s < |cfg.max| && cfg.threads >= 2 && (pc0.Idle? || pc0.stage == s) && (pc1.Idle? || pc1.stage == s)
    ensures Shaped(cfg, st)
  {
    var none := seq(|cfg.max|, _ => []);
    State(none[s := queue], none[s := [0, 1]], none[s := handled], seq(cfg.threads, _ => Idle)[0 := pc0][1 := pc1])
  }

  lemma SceneRoom(cfg: Config, s: nat, queue: seq<nat>, pc0: Pc)
    requires s < |cfg.max| && cfg.threads >= 2 && !Serial(cfg, s) && (pc0.Idle? || pc0.stage == s)
    ensures Room(cfg.max, Held(cfg, Scene(cfg, s, queue, [], pc0, Idle)), s)
  {
    var n := |cfg.max|;
    var held := Held(cfg, Scene(cfg, s, queue, [], pc0, Idle));
    var idle := seq(cfg.threads, _ => n);
    CountRepeat(cfg.threads, n, s);
    if pc0.Idle? {
      assert held == idle;
    } else {
      assert held == idle[0 := s];
      CountUpdate(idle, 0, s, s);
    }
  }

  ghost predicate Reachable(cfg: Config, st: State)
  {
    exists es :: Exec(cfg, es) == Some(st)
  }

  lemma ReachNext(cfg: Config, st: State, e: Event)
    requires Shaped(cfg, st) && Reachable(cfg, st) && Enabled(cfg, st, e)
    ensures Reachable(cfg, Next(cfg, st, e))
  {
    var es :| Exec(cfg, es) == Some(st);
    assert (es + [e])[..|es|] == es;
    assert Exec(cfg, es + [e]) == Some(Next(cfg, st, e));
  }

  lemma TwoPushed(cfg: Config, s: nat)
    requires s < |cfg.max| && cfg.threads >= 2
    ensures Reachable(cfg, Scene(cfg, s, [0, 1], [], Idle, Idle))
  {
    var st0 := Init(cfg);
    assert Exec(cfg, []) == Some(st0);
    ReachNext(cfg, st0, Push(s, 0));
    var st1 := Next(cfg, st0, Push(s, 0));
    ReachNext(cfg, st1, Push(s, 1));
    assert st1.queue[s] == [] + [0] == [0] && [0] + [1] == [0, 1];
    assert Next(cfg, st1, Push(s, 1)).queue == Scene(cfg, s, [0, 1], [], Idle, Idle).queue;
    assert Next(cfg, st1, Push(s, 1)).pushed == Scene(cfg, s, [0, 1], [], Idle, Idle).pushed;
    assert Next(cfg, st1, Push(s, 1)).handled == Scene(cfg, s, [0, 1], [], Idle, Idle).handled;
    assert Next(cfg, st1, Push(s, 1)).pc == Scene(cfg, s, [0, 1], [], Idle, Idle).pc;
    assert Next(cfg, st1, Push(s, 1)) == Scene(cfg, s, [0, 1], [], Idle, Idle);
  }

  lemma BothClaim(cfg: Config, s: nat)
    requires s < |cfg.max| && !Serial(cfg, s)
    ensures Reachable(cfg, Scene(cfg, s, [0, 1], [], Visiting(s), Visiting(s)))
  {
    var st0, st1 := Scene(cfg, s, [0, 1], [], Idle, Idle), Scene(cfg, s, [0, 1], [], Visiting(s), Idle);
    TwoPushed(cfg, s);
    SceneRoom(cfg, s, [0, 1], Idle);
    ReachNext(cfg, st0, Claim(0, s));
    assert Next(cfg, st0, Claim(0, s)) == st1;
    SceneRoom(cfg, s, [0, 1], Visiting(s));
    ReachNext(cfg, st1, Claim(1, s));
    assert Next(cfg, st1, Claim(1, s)) == Scene(cfg, s, [0, 1], [], Visiting(s), Visiting(s));
  }

  lemma BothPoll(cfg: Config, s: nat)
    requires s < |cfg.max| && !Serial(cfg, s)
    ensures Reachable(cfg, Scene(cfg, s, [], [], Handling(s, 0), Handling(s, 1)))
  {
    var st2 := Scene(cfg, s, [0, 1], [], Visiting(s), Visiting(s));
    var st3 := Scene(cfg, s, [1], [], Handling(s, 0), Visiting(s));
    assert [0, 1][1..] == [1] && [1][1..] == [];
    BothClaim(cfg, s);
    ReachNext(cfg, st2, Poll(0));
    assert Next(cfg, st2, Poll(0)) == st3;
    ReachNext(cfg, st3, Poll(1));
    assert Next(cfg, st3, Poll(1)) == Scene(cfg, s, [], [], Handling(s, 0), Handling(s, 1));
  }

  lemma SecondOvertakes(cfg: Config, s: nat)
    requires s < |cfg.max| && !Serial(cfg, s)
    ensures Reachable(cfg, Scene(cfg, s, [], [1], Handling(s, 0), Visiting(s)))
  {
    var st4 := Scene(cfg, s, [], [], Handling(s, 0), Handling(s, 1));
    BothPoll(cfg, s);
    ReachNext(cfg, st4, Finish(1));
    assert [] + [1] == [1];
    assert Next(cfg, st4, Finish(1)) == Scene(cfg, s, [], [1], Handling(s, 0), Visiting(s));
  }

  /** In every run the messages handled at a stage are, in order, a prefix of those pushed to it, exactly if the stage
      can have one visitor at most. */
  lemma InOrderExactlyIfSerial(cfg: Config, s: nat)
    requires s < |cfg.max|
    ensures AlwaysInOrder(cfg, s) <==> Serial(cfg, s)
  {
    if Serial(cfg, s) {
      forall es | Exec(cfg, es).Some?
        ensures Exec(cfg, es).value.handled[s] <= Exec(cfg, es).value.pushed[s]
      {
        RunKeepsOrder(cfg, es, s);
        PrefixFromOrder(cfg, Exec(cfg, es).value, s);
      }
    } else {
      SecondOvertakes(cfg, s);
      var st := Scene(cfg, s, [], [1], Handling(s, 0), Visiting(s));
      assert st.handled[s][0] != st.pushed[s][0];
      var es :| Exec(cfg, es) == Some(st);
      assert !(Exec(cfg, es).value.handled[s] <= Exec(cfg, es).value.pushed[s]);
    }
  }

  lemma PrefixFromOrder(cfg: Config, st: State, s: nat)
    requires Shaped(cfg, st) && s < |cfg.max| && InOrderAt(cfg, st, s)
    ensures st.handled[s] <= st.pushed[s]
  {
    if t :| 0 <= t < cfg.threads && st.pc[t].Handling? && st.pc[t].stage == s {
      assert st.pushed[s] == st.handled[s] + ([st.pc[t].m] + st.queue[s]);
    }
  }
}

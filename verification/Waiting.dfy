/** How often can other stages be picked while a signal for a stage waits? Color (wield/schedulers/color/Color.hpp) and
    Color-minus (wield/schedulers/color_minus/ColorMinus.hpp) compared. */
module Waiting {
  import opened Counting
  import opened WorkSignals
  import opened WorkProgress

  function RunFrom(cfg: Config, st: State, es: seq<Event>): (r: Option<State>)
    requires Shaped(cfg, st)
    ensures r.Some? ==> Shaped(cfg, r.value)
  {
    if es == [] then Some(st) else
    match RunFrom(cfg, st, es[..|es| - 1])
    case None => None
    case Some(mid) => if Enabled(cfg, mid, es[|es| - 1]) then Some(Next(cfg, mid, es[|es| - 1])) else None
  }

  lemma {:induction false} ExecIsRun(cfg: Config, es: seq<Event>)
    ensures Shaped(cfg, Init(cfg)) && Exec(cfg, es) == RunFrom(cfg, Init(cfg), es)
  {
    if es != [] {
      ExecIsRun(cfg, es[..|es| - 1]);
    }
  }

  /** The stages picked in a run, in order. */
  function Picked(cfg: Config, st: State, es: seq<Event>): (stages: seq<nat>)
    requires Shaped(cfg, st) && RunFrom(cfg, st, es).Some?
    ensures forall i | 0 <= i < |stages| :: stages[i] < |cfg.max|
  {
    if es == [] then [] else
    var e := es[|es| - 1];
    Picked(cfg, st, es[..|es| - 1]) + if e.Pick? then [RunFrom(cfg, st, es).value.pc[e.t].stage] else []
  }

  /** Every run from this state that picks more than `bound` stages picks `s`. */
  ghost predicate PickedAfter(cfg: Config, st: State, s: nat, bound: nat)
    requires Shaped(cfg, st)
  {
    forall es | RunFrom(cfg, st, es).Some? && |Picked(cfg, st, es)| > bound :: s in Picked(cfg, st, es)
  }

  ghost predicate WaitIsBounded(cfg: Config, s: nat)
    requires s < |cfg.max|
  {
    forall es | Exec(cfg, es).Some? && Signals(cfg, Exec(cfg, es).value, s) > 0 ::
      exists bound: nat :: PickedAfter(cfg, Exec(cfg, es).value, s, bound)
  }

  // ----- Color: first come, first served -----

  lemma {:induction false} PickedAreTokens(cfg: Config, st: State, es: seq<Event>)
    requires Shaped(cfg, st) && cfg.policy.Color? && RunFrom(cfg, st, es).Some?
    ensures st.tokens <= Picked(cfg, st, es) + RunFrom(cfg, st, es).value.tokens
  {
    if es != [] {
      hide Shaped, Enabled, Next;
      var front, e := es[..|es| - 1], es[|es| - 1];
      PickedAreTokens(cfg, st, front);
      var before := RunFrom(cfg, st, front).value;
      var st' := Next(cfg, before, e);
      TokensNext(cfg, before, e);
      PrefixGrows(st.tokens, Picked(cfg, st, front), before.tokens, if e.Pick? then [st'.pc[e.t].stage] else [],
                  st'.tokens);
    }
  }

  lemma PrefixGrows(tokens: seq<nat>, picked: seq<nat>, before: seq<nat>, taken: seq<nat>, after: seq<nat>)
    requires tokens <= picked + before && before <= taken + after
    ensures tokens <= picked + taken + after
  {
    assert picked + before <= picked + (taken + after);
    assert picked + (taken + after) == picked + taken + after;
  }

  lemma TokensNext(cfg: Config, st: State, e: Event)
    requires Shaped(cfg, st) && cfg.policy.Color? && Enabled(cfg, st, e)
    ensures var st' := Next(cfg, st, e);
            st.tokens <= (if e.Pick? then [st'.pc[e.t].stage] else []) + st'.tokens
  {
  }

  /** A token with `k` tokens ahead is the next but `k` to be picked, in every run. */
  lemma TokenInTurn(cfg: Config, st: State, es: seq<Event>, k: nat)
    requires Shaped(cfg, st) && cfg.policy.Color? && RunFrom(cfg, st, es).Some?
    requires k < |st.tokens| && k < |Picked(cfg, st, es)|
    ensures Picked(cfg, st, es)[k] == st.tokens[k]
  {
    PickedAreTokens(cfg, st, es);
    var all := Picked(cfg, st, es) + RunFrom(cfg, st, es).value.tokens;
    assert st.tokens[k] == all[k];
  }

  lemma ColorIsFair(cfg: Config, st: State, s: nat)
    requires Shaped(cfg, st) && cfg.policy.Color? && s < |cfg.max| && Signals(cfg, st, s) > 0
    ensures PickedAfter(cfg, st, s, |st.tokens|)
  {
    assert s in st.tokens;
    var k :| 0 <= k < |st.tokens| && st.tokens[k] == s;
    forall es | RunFrom(cfg, st, es).Some? && |Picked(cfg, st, es)| > |st.tokens|
      ensures s in Picked(cfg, st, es)
    {
      TokenInTurn(cfg, st, es, k);
    }
  }

  // ----- Color-minus: the busiest first -----

  /** The run leads there and picks `r` and nothing else, `k` times. */
  ghost predicate Passes(cfg: Config, st: State, es: seq<Event>, st': State, r: nat, k: nat)
  {
    Shaped(cfg, st) && RunFrom(cfg, st, es) == Some(st') && Picked(cfg, st, es) == seq(k, _ => r)
  }

  lemma PassesNext(cfg: Config, st: State, es: seq<Event>, mid: State, r: nat, k: nat, e: Event)
    requires Passes(cfg, st, es, mid, r, k) && Shaped(cfg, mid) && Enabled(cfg, mid, e)
    requires e.Pick? ==> Next(cfg, mid, e).pc[e.t].stage == r
    ensures Passes(cfg, st, es + [e], Next(cfg, mid, e), r, if e.Pick? then k + 1 else k)
  {
    hide Shaped, Enabled, Next;
    assert (es + [e])[..|es|] == es;
    assert seq(k, _ => r) + [r] == seq(k + 1, _ => r);
  }

  function Dispatched(st: State, r: nat): State
    requires r < |st.queue| == |st.current|
  {
    st.(queue := st.queue[r := st.queue[r] + 1], current := st.current[r := st.current[r] + 1])
  }

  /** The first producer is free. */
  predicate ProducerFree(cfg: Config, st: State)
    requires Shaped(cfg, st)
  {
    cfg.producers > 0 && st.inflight[cfg.threads] == |cfg.max|
  }

  lemma DispatchOne(cfg: Config, start: State, es: seq<Event>, st: State, p: nat, k: nat, r: nat)
    returns (es': seq<Event>)
    requires Passes(cfg, start, es, st, p, k) && Shaped(cfg, st) && cfg.policy.ColorMinus? && r < |cfg.max|
    requires ProducerFree(cfg, st)
    ensures Passes(cfg, start, es', Dispatched(st, r), p, k) && Shaped(cfg, Dispatched(st, r))
    ensures ProducerFree(cfg, Dispatched(st, r))
  {
    hide Passes;
    var a := cfg.threads;
    var pushed := Next(cfg, st, PushMessage(a, r));
    PassesNext(cfg, start, es, st, p, k, PushMessage(a, r));
    es' := es + [PushMessage(a, r)];
    assert pushed.inflight[a := |cfg.max|] == st.inflight;
    if SplitIncrement(cfg) {
      assert st.seen[a].None?;
      var read := Next(cfg, pushed, ReadCount(a));
      PassesNext(cfg, start, es', pushed, p, k, ReadCount(a));
      es' := es' + [ReadCount(a)];
      PassesNext(cfg, start, es', read, p, k, WriteCount(a));
      es' := es' + [WriteCount(a)];
      assert read.seen[a := None] == st.seen;
      assert Next(cfg, read, WriteCount(a)) == Dispatched(st, r);
    } else {
      PassesNext(cfg, start, es', pushed, p, k, Signal(a));
      es' := es' + [Signal(a)];
      assert Next(cfg, pushed, Signal(a)) == Dispatched(st, r);
    }
  }

  /** Only thread 0 has done anything since `st0`, and only about `r`; past the reset, the depth of `r` is zero. */
  predicate Solo(cfg: Config, st0: State, st: State, r: nat)
  {
    && cfg.policy.ColorMinus? && Shaped(cfg, st0) && Shaped(cfg, st) && cfg.threads > 0 && r < |cfg.max|
    && st.current == st0.current && st.inflight == st0.inflight && st.seen == st0.seen && st.tokens == st0.tokens
    && st.queue == st0.queue[r := st.queue[r]] && st.previous == st0.previous[r := st.previous[r]]
    && st.pc == st0.pc[0 := st.pc[0]] && st.inflight[0] == |cfg.max|
    && (st.pc[0].Idle? || st.pc[0].stage == r)
    && (st.previous[r] == st.current[r]
        || st.pc[0].Picked? || st.pc[0].Loaded? || st.pc[0].Entering? || st.pc[0].Failed?)
  }

  lemma SoloStep(cfg: Config, st0: State, st: State, r: nat)
    requires Solo(cfg, st0, st, r) && !st.pc[0].Idle?
    ensures var st' := Next(cfg, st, Advance(cfg, st, 0));
            && Solo(cfg, st0, st', r) && st'.queue[r] <= st.queue[r]
            && (st'.queue[r] == st.queue[r] ==> Rank(st'.pc[0]) < Rank(st.pc[0]))
  {
  }

  /** Thread 0 alone comes to the end of its visit. */
  lemma {:induction false} VisitEnds(cfg: Config, start: State, es: seq<Event>, p: nat, k: nat, st0: State, st: State,
                                     r: nat)
    returns (es': seq<Event>, st': State)
    requires Passes(cfg, start, es, st, p, k) && Solo(cfg, st0, st, r)
    ensures Passes(cfg, start, es', st', p, k) && Solo(cfg, st0, st', r) && st'.pc[0].Idle?
    decreases st.queue[r], Rank(st.pc[0])
  {
    hide Passes, Next, Advance, Rank;
    if st.pc[0].Idle? {
      es', st' := es, st;
    } else {
      var e := Advance(cfg, st, 0);
      SoloStep(cfg, st0, st, r);
      PassesNext(cfg, start, es, st, p, k, e);
      es', st' := VisitEnds(cfg, start, es + [e], p, k, st0, Next(cfg, st, e), r);
    }
  }

  /** One signal waits for `s`, there is none for any other stage, and thread 0 and the first producer are free. */
  predicate OneWaits(cfg: Config, st: State, s: nat)
  {
    && cfg.policy.ColorMinus? && Shaped(cfg, st) && cfg.threads > 0 && s < |cfg.max| && ProducerFree(cfg, st)
    && st.pc[0].Idle? && st.inflight[0] == |cfg.max| && st.queue[s] > 0
    && forall i | 0 <= i < |cfg.max| :: Depths(st)[i] == if i == s then 1 else 0
  }

  function DispatchedMany(st: State, r: nat, count: nat): State
    requires r < |st.queue| == |st.current|
  {
    st.(queue := st.queue[r := st.queue[r] + count], current := st.current[r := st.current[r] + count])
  }

  lemma DispatchedMore(st: State, r: nat, count: nat)
    requires r < |st.queue| == |st.current|
    ensures DispatchedMany(st, r, 0) == st
    ensures DispatchedMany(Dispatched(st, r), r, count) == DispatchedMany(st, r, count + 1)
  {
    assert st.queue[r := st.queue[r]] == st.queue && st.current[r := st.current[r]] == st.current;
  }

  lemma {:induction false} DispatchMany(cfg: Config, start: State, es: seq<Event>, st: State, p: nat, k: nat, r: nat,
                                        count: nat)
    returns (es': seq<Event>)
    requires Passes(cfg, start, es, st, p, k) && Shaped(cfg, st) && cfg.policy.ColorMinus? && r < |cfg.max|
    requires ProducerFree(cfg, st)
    ensures var st' := DispatchedMany(st, r, count);
            Passes(cfg, start, es', st', p, k) && Shaped(cfg, st') && ProducerFree(cfg, st')
    decreases count
  {
    hide Passes, Dispatched, DispatchedMany, ProducerFree;
    if count == 0 {
      es' := es;
      DispatchedMore(st, r, 0);
    } else {
      es' := DispatchOne(cfg, start, es, st, p, k, r);
      es' := DispatchMany(cfg, start, es', Dispatched(st, r), p, k, r, count - 1);
      DispatchedMore(st, r, count - 1);
    }
  }

  /** The producer makes `r` the busiest stage, thread 0 visits it, and `s` still waits. */
  lemma PassOnce(cfg: Config, start: State, es: seq<Event>, st: State, s: nat, r: nat, k: nat)
    returns (es': seq<Event>, st': State)
    requires Passes(cfg, start, es, st, r, k) && OneWaits(cfg, st, s) && r < |cfg.max| && r != s
    ensures Passes(cfg, start, es', st', r, k + 1) && OneWaits(cfg, st', s)
  {
    hide Passes, Solo;
    assert Depths(st)[r] == 0;
    var count := st.previous[r] - st.current[r] + 2;
    es' := DispatchMany(cfg, start, es, st, r, k, r, count);
    var busy := DispatchedMany(st, r, count);
    BusyDepths(cfg, st, s, r);
    PassesNext(cfg, start, es', busy, r, k, Pick(0));
    var picked := Next(cfg, busy, Pick(0));
    es', st' := VisitEnds(cfg, start, es' + [Pick(0)], r, k + 1, busy, picked, r);
    StillWaits(cfg, st, busy, st', s, r);
  }

  lemma BusyDepths(cfg: Config, st: State, s: nat, r: nat)
    requires OneWaits(cfg, st, s) && r < |cfg.max| && r != s && st.previous[r] >= st.current[r]
    requires Shaped(cfg, DispatchedMany(st, r, st.previous[r] - st.current[r] + 2))
    ensures var busy := DispatchedMany(st, r, st.previous[r] - st.current[r] + 2);
            CM.Highwater(Depths(busy)) == r && Solo(cfg, busy, Next(cfg, busy, Pick(0)), r)
  {
    var busy := DispatchedMany(st, r, st.previous[r] - st.current[r] + 2);
    forall i | 0 <= i < |cfg.max|
      ensures Depths(busy)[i] == if i == r then 2 else if i == s then 1 else 0
    {
      assert Depths(st)[i] == if i == s then 1 else 0;
    }
    CM.HighwaterUnique(Depths(busy), r);
  }

  lemma StillWaits(cfg: Config, st: State, busy: State, st': State, s: nat, r: nat)
    requires OneWaits(cfg, st, s) && r < |cfg.max| && r != s && Solo(cfg, busy, st', r) && st'.pc[0].Idle?
    requires busy.queue == st.queue[r := busy.queue[r]] && busy.current == st.current[r := busy.current[r]]
    requires busy.previous == st.previous && busy.inflight == st.inflight
    ensures OneWaits(cfg, st', s)
  {
    forall i | 0 <= i < |cfg.max|
      ensures Depths(st')[i] == if i == s then 1 else 0
    {
      assert Depths(st)[i] == if i == s then 1 else 0;
    }
  }

  lemma {:induction false} PassOften(cfg: Config, start: State, s: nat, r: nat, k: nat)
    returns (es: seq<Event>, st: State)
    requires OneWaits(cfg, start, s) && r < |cfg.max| && r != s
    ensures Passes(cfg, start, es, st, r, k) && OneWaits(cfg, st, s)
  {
    if k == 0 {
      es, st := [], start;
    } else {
      hide Passes, OneWaits;
      es, st := PassOften(cfg, start, s, r, k - 1);
      es, st := PassOnce(cfg, start, es, st, s, r, k - 1);
    }
  }

  lemma FirstWaits(cfg: Config, s: nat) returns (es: seq<Event>)
    requires cfg.policy.ColorMinus? && cfg.threads > 0 && cfg.producers > 0 && s < |cfg.max|
    ensures Exec(cfg, es).Some? && OneWaits(cfg, Exec(cfg, es).value, s)
  {
    var st0 := Init(cfg);
    ExecIsRun(cfg, []);
    assert Passes(cfg, st0, [], st0, 0, 0);
    es := DispatchOne(cfg, st0, [], st0, 0, 0, s);
    ExecIsRun(cfg, es);
  }

  lemma ColorMinusPasses(cfg: Config, s: nat)
    requires cfg.policy.ColorMinus? && cfg.threads > 0 && cfg.producers > 0 && s < |cfg.max| && |cfg.max| > 1
    ensures !WaitIsBounded(cfg, s)
  {
    var first := FirstWaits(cfg, s);
    var start, r := Exec(cfg, first).value, if s == 0 then 1 else 0;
    assert Depths(start)[s] == 1;
    forall bound: nat
      ensures !PickedAfter(cfg, start, s, bound)
    {
      var es, st := PassOften(cfg, start, s, r, bound + 1);
      assert |Picked(cfg, start, es)| == bound + 1 && s !in Picked(cfg, start, es);
    }
  }

  // ----- the exact condition -----

  /** From every reachable state in which a stage has a signal there is a bound on the picks until it is picked, for all
      runs, exactly under Color or if there is no other stage. */
  lemma WaitIsBoundedExactly(cfg: Config, s: nat)
    requires cfg.threads > 0 && cfg.producers > 0 && s < |cfg.max|
    ensures WaitIsBounded(cfg, s) <==> cfg.policy.Color? || |cfg.max| == 1
  {
    if cfg.policy.ColorMinus? && |cfg.max| > 1 {
      ColorMinusPasses(cfg, s);
    } else {
      forall es | Exec(cfg, es).Some? && Signals(cfg, Exec(cfg, es).value, s) > 0
        ensures exists bound: nat :: PickedAfter(cfg, Exec(cfg, es).value, s, bound)
      {
        var st := Exec(cfg, es).value;
        if cfg.policy.Color? {
          ColorIsFair(cfg, st, s);
        } else {
          assert forall more | RunFrom(cfg, st, more).Some? && |Picked(cfg, st, more)| > 0 ::
            Picked(cfg, st, more)[0] == s;
          assert PickedAfter(cfg, st, s, 0);
        }
      }
    }
  }
}

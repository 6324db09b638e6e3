/** Estimated queue depths (wield/schedulers/utils/MessageCount.hpp). */
module MessageCount {
  import opened Counting
  import opened Assignments

  // ----- the two counter arrays, as values -----

  datatype Counters = Counters(previous: seq<nat>, current: seq<nat>)
  {
    predicate Valid() {
      && |previous| == |current|
      && forall s | 0 <= s < |current| :: previous[s] < SIZE && current[s] < SIZE
    }

    function Depths(): (depths: seq<nat>)
      requires |previous| == |current|
      ensures |depths| == |current|
    {
      seq(|current|, s requires 0 <= s < |current| => DepthOf(previous[s], current[s]))
    }
  }

  function DepthOf(previousValue: nat, currentValue: nat): nat
  {
    if previousValue < currentValue then currentValue - previousValue else 0
  }

  datatype Op = Increment(stage: nat, count: nat) | UpdatePrevious(stage: nat) | Reset

  predicate OpOk(op: Op, n: nat)
  {
    op.Reset? || op.stage < n
  }

  function Apply(c: Counters, op: Op): (c': Counters)
    requires c.Valid() && OpOk(op, |c.current|)
    ensures c'.Valid() && |c'.current| == |c.current|
  {
    match op
    case Increment(s, count) => c.(current := c.current[s := (c.current[s] + count) % SIZE])
    case UpdatePrevious(s) => c.(previous := c.previous[s := c.current[s]])
    case Reset => Zero(|c.current|)
  }

  function Zero(n: nat): (c: Counters)
    ensures c.Valid() && |c.current| == n
  {
    Counters(seq(n, _ => 0), seq(n, _ => 0))
  }

  lemma UpdateZeroes(c: Counters, s: nat)
    requires c.Valid() && s < |c.current|
    ensures Apply(c, UpdatePrevious(s)).Depths() == c.Depths()[s := 0]
  {
  }

  /** `s` is the first stage among those with the most estimated work. */
  predicate IsHighwater(depths: seq<nat>, s: nat)
  {
    && s < |depths|
    && (forall i | 0 <= i < |depths| :: depths[i] <= depths[s])
    && (forall i | 0 <= i < s :: depths[i] < depths[s])
  }

  class MessageCount {
    const previous: array<nat>
    const current: array<nat>

    ghost predicate Valid()
      reads previous, current
    {
      previous != current && Value().Valid()
    }

    ghost function Value(): Counters
      reads previous, current
    {
      Counters(previous[..], current[..])
    }

    constructor (numberOfStages: nat)
      ensures Valid() && fresh(previous) && fresh(current)
      ensures Value() == Zero(numberOfStages)
    {
      previous := new nat[numberOfStages];
      current := new nat[numberOfStages];
      new;
      ResetAll();
    }

    method Increment(stage: nat, count: nat)
      requires Valid() && stage < current.Length
      modifies current
      ensures Valid() && Value() == Apply(old(Value()), Op.Increment(stage, count))
    {
      current[stage] := (current[stage] + count) % SIZE;
      assert Value() == Apply(old(Value()), Op.Increment(stage, count));
    }

    method UpdatePrevious(stage: nat)
      requires Valid() && stage < current.Length
      modifies previous
      ensures Valid() && Value() == Apply(old(Value()), Op.UpdatePrevious(stage))
    {
      previous[stage] := current[stage];
      assert Value() == Apply(old(Value()), Op.UpdatePrevious(stage));
    }

    method EstimatedDepth(stage: nat) returns (depth: nat)
      requires Valid() && stage < current.Length
      ensures depth == Value().Depths()[stage]
    {
      var previousValue, currentValue := previous[stage], current[stage];
      depth := if previousValue < currentValue then currentValue - previousValue else 0;
    }

    method HighwaterStage() returns (stage: nat)
      requires Valid() && current.Length > 0
      ensures IsHighwater(Value().Depths(), stage)
    {
      ghost var depths := Value().Depths();
      stage := 0;
      var highwaterMark := 0;
      for i := 0 to current.Length
        invariant stage < current.Length
        invariant highwaterMark == if stage < i then depths[stage] else 0
        invariant forall j | 0 <= j < i :: depths[j] <= highwaterMark
        invariant forall j | 0 <= j < stage :: depths[j] < depths[stage]
        invariant stage == 0 || stage < i
      {
        var stageDepth := EstimatedDepth(i);
        if stageDepth > highwaterMark {
          stage := i;
          highwaterMark := stageDepth;
        }
      }
    }

    /** `reset`: every counter to zero, whatever the arrays held. */
    method ResetAll()
      requires previous != current && previous.Length == current.Length
      modifies previous, current
      ensures Valid() && Value() == Zero(current.Length)
    {
      for i := 0 to previous.Length
        invariant forall j | 0 <= j < i :: previous[j] == 0
      {
        previous[i] := 0;
      }
      for i := 0 to current.Length
        invariant forall j | 0 <= j < previous.Length :: previous[j] == 0
        invariant forall j | 0 <= j < i :: current[j] == 0
      {
        current[i] := 0;
      }
      assert Value() == Zero(current.Length);
    }
  }

  // ----- the counters against the history of operations -----

  predicate HistoryOk(h: seq<Op>, n: nat)
  {
    forall i | 0 <= i < |h| :: OpOk(h[i], n)
  }

  function After(n: nat, h: seq<Op>): (c: Counters)
    requires HistoryOk(h, n)
    ensures c.Valid() && |c.current| == n
  {
    if h == [] then Zero(n) else Apply(After(n, h[..|h| - 1]), h[|h| - 1])
  }

  /** Increments to `s` since its last update or the last reset, without any wrap-around. */
  function Since(h: seq<Op>, s: nat): nat
  {
    if h == [] then 0 else
    var front := h[..|h| - 1];
    match h[|h| - 1]
    case Increment(stage, count) => Since(front, s) + if stage == s then count else 0
    case UpdatePrevious(stage) => if stage == s then 0 else Since(front, s)
    case Reset => 0
  }

  /** Increments to `s` since the last reset. */
  function Total(h: seq<Op>, s: nat): nat
  {
    if h == [] then 0 else
    var front := h[..|h| - 1];
    match h[|h| - 1]
    case Increment(stage, count) => Total(front, s) + if stage == s then count else 0
    case UpdatePrevious(_) => Total(front, s)
    case Reset => 0
  }

  /** What each operation adds to the increments of `s`. */
  function Amounts(h: seq<Op>, s: nat): (amounts: seq<nat>)
    ensures |amounts| == |h|
    ensures forall i | 0 <= i < |h| :: amounts[i] == if h[i].Increment? && h[i].stage == s then h[i].count else 0
  {
    seq(|h|, i requires 0 <= i < |h| => if h[i].Increment? && h[i].stage == s then h[i].count else 0)
  }

  /** As long as `s` is not updated and nothing is reset, the increments to it add up, and an update or a reset starts
      again from nothing. */
  lemma {:induction false} SinceAddsUp(h: seq<Op>, more: seq<Op>, s: nat)
    requires forall i | 0 <= i < |more| :: !more[i].Reset? && more[i] != UpdatePrevious(s)
    ensures Since(h + more, s) == Since(h, s) + Sum(Amounts(more, s))
    ensures Total(h + more, s) == Total(h, s) + Sum(Amounts(more, s))
    ensures Since(h + [UpdatePrevious(s)], s) == Since(h + [Reset], s) == Total(h + [Reset], s) == 0
    ensures Total(h + [UpdatePrevious(s)], s) == Total(h, s)
  {
    assert (h + [UpdatePrevious(s)])[..|h|] == h && (h + [Reset])[..|h|] == h;
    if more == [] {
      assert h + more == h;
    } else {
      var front := more[..|more| - 1];
      SinceAddsUp(h, front, s);
      assert (h + more)[..|h + more| - 1] == h + front;
      assert Amounts(more, s)[..|front|] == Amounts(front, s);
    }
  }

  lemma WrapAgain(x: nat, y: nat, z: nat)
    requires y == x % SIZE
    ensures (y + z) % SIZE == (x + z) % SIZE
  {
  }

  /** The counter pair of a stage against the increments since its last update and since the last reset. */
  predicate Consistent(previous: nat, current: nat, since: nat, total: nat)
  {
    current == (previous + since) % SIZE && previous + since <= total
  }

  lemma IncrementKeepsConsistent(previous: nat, current: nat, since: nat, total: nat, count: nat)
    requires Consistent(previous, current, since, total)
    ensures Consistent(previous, (current + count) % SIZE, since + count, total + count)
  {
    WrapAgain(previous + since, current, count);
  }

  lemma UpdateKeepsConsistent(previous: nat, current: nat, since: nat, total: nat)
    requires Consistent(previous, current, since, total)
    ensures Consistent(current, current, 0, total)
  {
    assert (previous + since) % SIZE <= previous + since;
  }

  lemma {:induction false} CurrentIsPreviousPlusSince(n: nat, h: seq<Op>, s: nat)
    requires HistoryOk(h, n) && s < n
    ensures var c := After(n, h); Consistent(c.previous[s], c.current[s], Since(h, s), Total(h, s))
  {
    if h != [] {
      var front, op := h[..|h| - 1], h[|h| - 1];
      var c := After(n, front);
      CurrentIsPreviousPlusSince(n, front, s);
      assert After(n, h) == Apply(c, op);
      assert Consistent(0, 0, 0, 0);
      hide Consistent;
      match op
      case Increment(stage, count) =>
        IncrementKeepsConsistent(c.previous[s], c.current[s], Since(front, s), Total(front, s), count);
      case UpdatePrevious(stage) =>
        UpdateKeepsConsistent(c.previous[s], c.current[s], Since(front, s), Total(front, s));
      case Reset =>
    }
  }

  /** The estimate is the true number of increments since the last update exactly as long as the counter has not
      wrapped since then. */
  lemma EstimateIsExactUntilWrap(n: nat, h: seq<Op>, s: nat)
    requires HistoryOk(h, n) && s < n
    ensures After(n, h).Depths()[s] == Since(h, s) <==> After(n, h).previous[s] + Since(h, s) < SIZE
    ensures Total(h, s) < SIZE ==> After(n, h).Depths()[s] == Since(h, s)
  {
    CurrentIsPreviousPlusSince(n, h, s);
  }

  /** While no total reaches the word size, the high-water stage is the first of those with the most increments
      since their last update. */
  lemma HighwaterIsBusiest(n: nat, h: seq<Op>, s: nat, i: nat)
    requires HistoryOk(h, n) && s < n && i < n && IsHighwater(After(n, h).Depths(), s)
    requires Total(h, s) < SIZE && Total(h, i) < SIZE
    ensures if i < s then Since(h, i) < Since(h, s) else Since(h, i) <= Since(h, s)
  {
    EstimateIsExactUntilWrap(n, h, s);
    EstimateIsExactUntilWrap(n, h, i);
  }
}

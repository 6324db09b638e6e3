/** The Color-minus policy (wield/schedulers/color_minus/ColorMinus.hpp). */
module ColorMinus {
  import opened Counting
  import opened Assignments
  import opened MC = MessageCount

  function Highwater(depths: seq<nat>): (s: nat)
    requires depths != []
    ensures IsHighwater(depths, s)
  {
    var n := |depths| - 1;
    if n == 0 then 0 else
    var s := Highwater(depths[..n]);
    assert depths[..n][s] == depths[s];
    if depths[n] > depths[s] then n else s
  }

  lemma HighwaterUnique(depths: seq<nat>, s: nat)
    requires IsHighwater(depths, s)
    ensures s == Highwater(depths)
  {
  }

  /** Some stage the search can end at: one with estimated work and room, or stage 0 with room. */
  predicate Placeable(max: seq<nat>, slots: seq<nat>, depths: seq<nat>)
  {
    exists s: nat | s < |depths| :: Room(max, slots, s) && (s == 0 || depths[s] > 0)
  }

  lemma TryKeepsPlaceable(max: seq<nat>, slots: seq<nat>, depths: seq<nat>)
    requires depths != [] && !Room(max, slots, Highwater(depths))
    ensures Placeable(max, slots, depths[Highwater(depths) := 0]) == Placeable(max, slots, depths)
    ensures Placeable(max, slots, depths) ==> depths[Highwater(depths)] > 0
  {
    var top := Highwater(depths);
    if Placeable(max, slots, depths) {
      var s: nat :| s < |depths| && Room(max, slots, s) && (s == 0 || depths[s] > 0);
      assert depths[top := 0][s] == depths[s];
    }
    if Placeable(max, slots, depths[top := 0]) {
      var s: nat :| s < |depths| && Room(max, slots, s) && (s == 0 || depths[top := 0][s] > 0);
      assert depths[top := 0][s] == depths[s];
    }
  }

  /** The stages tried in turn: the high-water stage, then, its depth zeroed, the next high-water stage, until one has
      room. */
  function Tried(max: seq<nat>, slots: seq<nat>, depths: seq<nat>): (tried: seq<nat>)
    requires Placeable(max, slots, depths)
    ensures |tried| > 0 && tried[|tried| - 1] < |depths|
    decreases Sum(depths)
  {
    var top := Highwater(depths);
    if Room(max, slots, top) then [top] else
    TryKeepsPlaceable(max, slots, depths);
    SumUpdate(depths, top, 0);
    [top] + Tried(max, slots, depths[top := 0])
  }

  function Zeroed(depths: seq<nat>, tried: seq<nat>): (depths': seq<nat>)
    ensures |depths'| == |depths|
    ensures forall s | 0 <= s < |depths| :: depths'[s] == if s in tried then 0 else depths[s]
  {
    seq(|depths|, s requires 0 <= s < |depths| => if s in tried then 0 else depths[s])
  }

  /** Stage `a` comes before stage `b` in the search: more estimated work, or as much and a lower number. */
  predicate Busier(depths: seq<nat>, a: nat, b: nat)
    requires a < |depths| && b < |depths|
  {
    depths[a] > depths[b] || (depths[a] == depths[b] && a < b)
  }

  ghost predicate IsSearch(max: seq<nat>, slots: seq<nat>, depths: seq<nat>, tried: seq<nat>)
  {
    && |tried| > 0
    && var next := tried[|tried| - 1];
    && next < |depths| && Room(max, slots, next) && (next == 0 || depths[next] > 0)
    // every stage with estimated work and room comes after it
    && (forall s: nat | s < |depths| && s != next && depths[s] > 0 && Room(max, slots, s) :: Busier(depths, next, s))
    // exactly the busier stages with work were tried before
    && (forall s: nat :: s in tried <==> s < |depths| && (s == next || (depths[s] > 0 && Busier(depths, s, next))))
    && (forall i, j | 0 <= i < j < |tried| :: tried[i] != tried[j])
  }

  /** The search finds the busiest stage that has room (the first of them on a tie), or stage 0 if no stage with
      estimated work has room, having tried exactly the busier stages first, each once. */
  lemma {:induction false} TriedIsSearch(max: seq<nat>, slots: seq<nat>, depths: seq<nat>)
    requires Placeable(max, slots, depths)
    ensures IsSearch(max, slots, depths, Tried(max, slots, depths))
    decreases Sum(depths)
  {
    var top := Highwater(depths);
    if !Room(max, slots, top) {
      TryKeepsPlaceable(max, slots, depths);
      SumUpdate(depths, top, 0);
      TriedIsSearch(max, slots, depths[top := 0]);
      SearchFromTop(max, slots, depths, Tried(max, slots, depths[top := 0]));
    }
  }

  lemma SearchFromTop(max: seq<nat>, slots: seq<nat>, depths: seq<nat>, tried: seq<nat>)
    requires depths != [] && !Room(max, slots, Highwater(depths)) && depths[Highwater(depths)] > 0
    requires IsSearch(max, slots, depths[Highwater(depths) := 0], tried)
    ensures IsSearch(max, slots, depths, [Highwater(depths)] + tried)
  {
    var top := Highwater(depths);
    var all := [top] + tried;
    var next := tried[|tried| - 1];
    assert all[|all| - 1] == next != top;
    assert top !in tried;
    forall s: nat
      ensures s in all <==> s < |depths| && (s == next || (depths[s] > 0 && Busier(depths, s, next)))
    {
      assert s in all <==> s == top || s in tried;
    }
  }

  lemma {:induction false} DistinctWithin(tried: seq<nat>, stages: set<nat>)
    requires forall i, j | 0 <= i < j < |tried| :: tried[i] != tried[j]
    requires forall i | 0 <= i < |tried| :: tried[i] in stages
    ensures |tried| <= |stages|
  {
    if tried != [] {
      var n := |tried| - 1;
      DistinctWithin(tried[..n], stages - {tried[n]});
    }
  }

  /** The search ends within one try more than there are stages with estimated work. */
  lemma FewTries(max: seq<nat>, slots: seq<nat>, depths: seq<nat>)
    requires Placeable(max, slots, depths)
    ensures |Tried(max, slots, depths)| <= |set s | 0 <= s < |depths| && depths[s] > 0| + 1
  {
    TriedIsSearch(max, slots, depths);
    var tried := Tried(max, slots, depths);
    var working := set s: nat | s < |depths| && depths[s] > 0;
    assert working == set s | 0 <= s < |depths| && depths[s] > 0;
    var n := |tried| - 1;
    forall i | 0 <= i < n
      ensures tried[..n][i] in working
    {
      assert tried[i] in tried && tried[i] != tried[n];
    }
    DistinctWithin(tried[..n], working);
  }

  /** The depths after `tries` failed tries. */
  function DepthsAfter(depths: seq<nat>, tries: nat): (depths': seq<nat>)
    requires depths != []
    ensures |depths'| == |depths|
  {
    if tries == 0 then depths else
    var before := DepthsAfter(depths, tries - 1);
    before[Highwater(before) := 0]
  }

  /** The condition is exact: without it, running alone, no try ever succeeds. */
  lemma {:induction false} NotPlaceableSpins(max: seq<nat>, slots: seq<nat>, depths: seq<nat>, tries: nat)
    requires depths != [] && !Placeable(max, slots, depths)
    ensures !Placeable(max, slots, DepthsAfter(depths, tries))
    ensures !Room(max, slots, Highwater(DepthsAfter(depths, tries)))
  {
    if tries != 0 {
      NotPlaceableSpins(max, slots, depths, tries - 1);
      TryKeepsPlaceable(max, slots, DepthsAfter(depths, tries - 1));
    }
    var now := DepthsAfter(depths, tries);
    assert Highwater(now) == 0 || now[0] < now[Highwater(now)];
  }

  lemma TriedStep(max: seq<nat>, slots: seq<nat>, initial: seq<nat>, before: seq<nat>, depths: seq<nat>)
    requires Placeable(max, slots, initial) && Placeable(max, slots, depths)
    requires Tried(max, slots, initial) == before + Tried(max, slots, depths)
    ensures var top := Highwater(depths);
            if Room(max, slots, top) then
              Tried(max, slots, initial) == before + [top]
            else
              && Placeable(max, slots, depths[top := 0]) && Sum(depths[top := 0]) < Sum(depths)
              && Tried(max, slots, initial) == before + [top] + Tried(max, slots, depths[top := 0])
  {
    var top := Highwater(depths);
    if !Room(max, slots, top) {
      TryKeepsPlaceable(max, slots, depths);
      SumUpdate(depths, top, 0);
      var later := Tried(max, slots, depths[top := 0]);
      assert before + ([top] + later) == before + [top] + later;
    }
  }

  /** In the middle of the search: these stages were tried, and the thread is placed at `next`, if that is a stage. */
  ghost predicate Midway(max: seq<nat>, slots: seq<nat>, initial: seq<nat>, tried: seq<nat>, depths: seq<nat>,
                         next: nat)
  {
    && Placeable(max, slots, initial) && depths == Zeroed(initial, tried)
    && if next == |max| then
         Placeable(max, slots, depths) && Tried(max, slots, initial) == tried + Tried(max, slots, depths)
       else
         tried != [] && next == tried[|tried| - 1] && Tried(max, slots, initial) == tried
  }

  lemma MidwayStart(max: seq<nat>, slots: seq<nat>, depths: seq<nat>)
    requires Placeable(max, slots, depths)
    ensures Midway(max, slots, depths, [], depths, |max|)
  {
    assert [] + Tried(max, slots, depths) == Tried(max, slots, depths);
  }

  lemma MidwayStep(max: seq<nat>, slots: seq<nat>, initial: seq<nat>, tried: seq<nat>, depths: seq<nat>, next: nat)
    requires Midway(max, slots, initial, tried, depths, |max|)
    requires next == if Room(max, slots, Highwater(depths)) then Highwater(depths) else |max|
    ensures var top := Highwater(depths);
            && Midway(max, slots, initial, tried + [top], depths[top := 0], next)
            && (next == |max| ==> Sum(depths[top := 0]) < Sum(depths))
  {
    TriedStep(max, slots, initial, tried, depths);
    assert depths[Highwater(depths) := 0] == Zeroed(initial, tried + [Highwater(depths)]);
  }

  class ColorMinus {
    const stats: MessageCount
    const assignments: ThreadAssignments

    constructor (stats: MessageCount, assignments: ThreadAssignments)
      ensures this.stats == stats && this.assignments == assignments
    {
      this.stats, this.assignments := stats, assignments;
    }

    ghost predicate Valid()
      reads stats.previous, stats.current, assignments.threadAssignment, assignments.threadsPerStage
    {
      && stats.Valid() && assignments.Valid()
      && stats.current.Length == |assignments.maximumConcurrency|
      && {stats.previous, stats.current} !! {assignments.threadAssignment, assignments.threadsPerStage}
    }

    ghost function Depths(): seq<nat>
      requires stats.Valid()
      reads stats.previous, stats.current
    {
      stats.Value().Depths()
    }

    /** Running alone. */
    method NextStage(threadId: nat) returns (next: nat, ghost tried: seq<nat>)
      requires Valid() && threadId < assignments.threadAssignment.Length
      requires Placeable(assignments.maximumConcurrency,
                         Released(assignments.maximumConcurrency, assignments.Slots(), threadId), Depths())
      modifies stats.previous, assignments.threadAssignment, assignments.threadsPerStage
      ensures Valid()
      ensures var max := assignments.maximumConcurrency;
              tried == Tried(max, Released(max, old(assignments.Slots()), threadId), old(Depths()))
      ensures next == tried[|tried| - 1]
      ensures assignments.Slots() == old(assignments.Slots())[threadId := next]
      ensures Depths() == Zeroed(old(Depths()), tried)
    {
      var previous := assignments.RemoveCurrentAssignment(threadId);
      next, tried := Search(threadId);
      AssignedTwice(old(assignments.Slots()), threadId, |assignments.maximumConcurrency|, next);
    }

    /** The do-while loop of `nextStage`. */
    method Search(threadId: nat) returns (next: nat, ghost tried: seq<nat>)
      requires Valid() && threadId < assignments.threadAssignment.Length
      requires assignments.Slots()[threadId] == |assignments.maximumConcurrency|
      requires Placeable(assignments.maximumConcurrency, assignments.Slots(), Depths())
      modifies stats.previous, assignments.threadAssignment, assignments.threadsPerStage
      ensures Valid()
      ensures tried == Tried(assignments.maximumConcurrency, old(assignments.Slots()), old(Depths()))
      ensures next == tried[|tried| - 1]
      ensures assignments.Slots() == old(assignments.Slots())[threadId := next]
      ensures Depths() == Zeroed(old(Depths()), tried)
    {
      ghost var max, slots, initial := assignments.maximumConcurrency, assignments.Slots(), Depths();
      MidwayStart(max, slots, initial);
      next, tried := |assignments.maximumConcurrency|, [];
      while next == |assignments.maximumConcurrency|
        invariant Valid() && next <= |max| && Midway(max, slots, initial, tried, Depths(), next)
        invariant assignments.Slots() == if next == |max| then slots else slots[threadId := next]
        decreases next == |max|, Sum(Depths())
      {
        ghost var depths := Depths();
        next := TryHighwater(threadId);
        MidwayStep(max, slots, initial, tried, depths, next);
        tried := tried + [Highwater(depths)];
      }
    }

    /** One round of the loop. */
    method TryHighwater(threadId: nat) returns (next: nat)
      requires Valid() && threadId < assignments.threadAssignment.Length && |assignments.maximumConcurrency| > 0
      requires assignments.Slots()[threadId] == |assignments.maximumConcurrency|
      modifies stats.previous, assignments.threadAssignment, assignments.threadsPerStage
      ensures Valid() && Depths() == old(Depths())[Highwater(old(Depths())) := 0]
      ensures next == if Room(assignments.maximumConcurrency, old(assignments.Slots()), Highwater(old(Depths())))
                      then Highwater(old(Depths())) else |assignments.maximumConcurrency|
      ensures assignments.Slots() == if next == |assignments.maximumConcurrency| then old(assignments.Slots())
                                     else old(assignments.Slots())[threadId := next]
    {
      hide Room, Highwater;
      next := stats.HighwaterStage();
      HighwaterUnique(Depths(), next);
      var success := assignments.TryAssign(threadId, next);
      UpdateZeroes(stats.Value(), next);
      stats.UpdatePrevious(next);
      if !success {
        next := |assignments.maximumConcurrency|;
      }
    }
  }
}

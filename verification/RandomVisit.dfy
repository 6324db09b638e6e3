/** The random-visit policy (wield/schedulers/RandomVisit.hpp). Each thread walks a table of stages and shuffles it
    whenever it reaches the end. The random numbers are arbitrary. */
module RandomVisit {
  import opened Counting
  import opened Assignments

  // ----- one thread's table and position, as values -----

  datatype Cursor = Cursor(table: seq<nat>, index: nat)

  /** Drawing `v` takes the cursor `c` to `c'`; at the end of the table it starts over on some permutation. */
  predicate Draws(c: Cursor, v: nat, c': Cursor)
  {
    if c.index < |c.table| then
      v == c.table[c.index] && c' == Cursor(c.table, c.index + 1)
    else
      && multiset(c'.table) == multiset(c.table) && |c'.table| == |c.table| > 0
      && v == c'.table[0] && c'.index == 1
  }

  /** A run: the cursors before, between and after the draws. */
  predicate IsRun(cs: seq<Cursor>, draws: seq<nat>)
  {
    && |cs| == |draws| + 1
    && cs[0].index <= |cs[0].table|
    && forall i | 0 <= i < |draws| :: Draws(cs[i], draws[i], cs[i + 1])
  }

  lemma RunExtends(cs: seq<Cursor>, draws: seq<nat>, v: nat, c: Cursor)
    requires IsRun(cs, draws) && Draws(cs[|draws|], v, c)
    ensures IsRun(cs + [c], draws + [v])
  {
  }

  lemma RunSuffix(cs: seq<Cursor>, draws: seq<nat>, k: nat)
    requires IsRun(cs, draws) && k <= |draws| && cs[k].index <= |cs[k].table|
    ensures IsRun(cs[k..], draws[k..])
  {
    forall i | 0 <= i < |draws[k..]|
      ensures Draws(cs[k..][i], draws[k..][i], cs[k..][i + 1])
    {
      assert Draws(cs[k + i], draws[k + i], cs[k + i + 1]);
    }
  }

  lemma {:induction false} RunKeepsTable(cs: seq<Cursor>, draws: seq<nat>, k: nat)
    requires IsRun(cs, draws) && k <= |draws|
    ensures multiset(cs[k].table) == multiset(cs[0].table) && |cs[k].table| == |cs[0].table|
    ensures cs[k].index <= |cs[k].table|
    ensures forall j | 0 <= j < k :: draws[j] in multiset(cs[0].table)
  {
    if k != 0 {
      RunKeepsTable(cs, draws, k - 1);
      assert Draws(cs[k - 1], draws[k - 1], cs[k]);
      if cs[k - 1].index < |cs[k - 1].table| {
        assert draws[k - 1] in cs[k - 1].table;
      } else {
        assert draws[k - 1] in cs[k].table;
      }
      assert draws[k - 1] in multiset(cs[k - 1].table);
    }
  }

  /** Until the end of the table the draws just read it. */
  lemma {:induction false} WithinPass(cs: seq<Cursor>, draws: seq<nat>, k: nat)
    requires IsRun(cs, draws) && k <= |draws| && cs[0].index + k <= |cs[0].table|
    ensures cs[k] == Cursor(cs[0].table, cs[0].index + k)
    ensures forall j | 0 <= j < k :: draws[j] == cs[0].table[cs[0].index + j]
  {
    if k != 0 {
      WithinPass(cs, draws, k - 1);
      assert Draws(cs[k - 1], draws[k - 1], cs[k]);
    }
  }

  /** A pass that starts at the beginning or the end of the table draws each entry exactly as often as the table holds
      it, and ends at the end of the table. */
  lemma AlignedPass(cs: seq<Cursor>, draws: seq<nat>)
    requires IsRun(cs, draws) && |draws| >= |cs[0].table| > 0
    requires cs[0].index == 0 || cs[0].index == |cs[0].table|
    ensures var size := |cs[0].table|;
            && multiset(draws[..size]) == multiset(cs[0].table)
            && cs[size].index == |cs[size].table| == size && multiset(cs[size].table) == multiset(cs[0].table)
  {
    var size := |cs[0].table|;
    if cs[0].index == 0 {
      WithinPass(cs, draws, size);
      assert draws[..size] == cs[0].table;
    } else {
      assert Draws(cs[0], draws[0], cs[1]);
      RunSuffix(cs, draws, 1);
      WithinPass(cs[1..], draws[1..], size - 1);
      assert cs[1..][size - 1] == cs[size];
      forall j | 0 <= j < size
        ensures draws[j] == cs[1].table[j]
      {
        if j > 0 {
          assert draws[1..][j - 1] == draws[j];
        }
      }
      assert draws[..size] == cs[1].table;
    }
  }

  /** Where the `pass`-th pass begins. */
  function PassStart(size: nat, pass: nat): nat
  {
    if pass == 0 then 0 else PassStart(size, pass - 1) + size
  }

  /** The `size` draws from `from` on are the entries of the table, each as often as the table holds it. */
  ghost predicate IsPass(table: seq<nat>, draws: seq<nat>, from: nat)
  {
    from + |table| <= |draws| && multiset(draws[from..from + |table|]) == multiset(table)
  }

  lemma PassOfSuffix(table: seq<nat>, other: seq<nat>, draws: seq<nat>, from: nat)
    requires |other| == |table| <= |draws| && multiset(other) == multiset(table)
    requires IsPass(other, draws[|table|..], from)
    ensures IsPass(table, draws, from + |table|)
  {
    var size := |table|;
    assert draws[size..][from..from + size] == draws[from + size..from + size + size];
  }

  lemma FirstPass(cs: seq<Cursor>, draws: seq<nat>)
    requires IsRun(cs, draws) && |draws| >= |cs[0].table| > 0
    requires cs[0].index == 0 || cs[0].index == |cs[0].table|
    ensures var size := |cs[0].table|;
            && IsPass(cs[0].table, draws, 0) && IsRun(cs[size..], draws[size..])
            && cs[size].index == |cs[size].table| == size && multiset(cs[size].table) == multiset(cs[0].table)
  {
    AlignedPass(cs, draws);
    RunSuffix(cs, draws, |cs[0].table|);
    assert draws[0..0 + |cs[0].table|] == draws[..|cs[0].table|];
  }

  lemma RunLengths(cs: seq<Cursor>, draws: seq<nat>)
    requires IsRun(cs, draws)
    ensures |cs| == |draws| + 1
  {
  }

  /** Every pass of a run from a fresh table visits the table's multiset exactly once. */
  lemma {:induction false} EveryAlignedPass(cs: seq<Cursor>, draws: seq<nat>, pass: nat)
    requires IsRun(cs, draws) && |cs[0].table| > 0
    requires cs[0].index == 0 || cs[0].index == |cs[0].table|
    requires PassStart(|cs[0].table|, pass + 1) <= |draws|
    ensures IsPass(cs[0].table, draws, PassStart(|cs[0].table|, pass))
    decreases pass
  {
    hide Draws, IsRun, PassStart, IsPass;
    RunLengths(cs, draws);
    var size := |cs[0].table|;
    PassStarts(size, pass);
    FirstPass(cs, draws);
    if pass != 0 {
      PassStarts(size, pass - 1);
      EveryAlignedPass(cs[size..], draws[size..], pass - 1);
      PassOfSuffix(cs[0].table, cs[size].table, draws, PassStart(size, pass - 1));
    }
  }

  lemma PassStarts(size: nat, pass: nat)
    ensures PassStart(size, 0) == 0 && PassStart(size, pass + 1) == PassStart(size, pass) + size
    ensures pass > 0 ==> PassStart(size, pass) == PassStart(size, pass - 1) + size
  {
  }

  /** A stage of the table is drawn within 2 * size - 1 draws, wherever the run starts. */
  lemma DrawnWithinTwoPasses(cs: seq<Cursor>, draws: seq<nat>, s: nat)
    requires IsRun(cs, draws) && s in cs[0].table && |draws| >= 2 * |cs[0].table| - 1
    ensures s in draws
  {
    var size, i := |cs[0].table|, cs[0].index;
    var p :| 0 <= p < size && cs[0].table[p] == s;
    var rest := size - i;
    if rest <= |draws| {
      WithinPass(cs, draws, rest);
    }
    if p >= i {
      assert draws[p - i] == s;
    } else {
      RunSuffix(cs, draws, rest);
      AlignedPass(cs[rest..], draws[rest..]);
      assert s in multiset(draws[rest..][..size]);
      assert s in draws[rest..][..size];
      var q :| 0 <= q < size && draws[rest..][..size][q] == s;
      assert draws[rest + q] == s;
    }
  }

  /** The bound is reached: drawn first in one pass, a stage may come last in the next. */
  lemma TwoPassesAreNeeded(size: nat)
    requires size >= 2
    ensures exists cs: seq<Cursor>, draws: seq<nat> ::
              IsRun(cs, draws) && |cs[0].table| == size && |draws| == 2 * size - 2
                                && 0 in cs[0].table && 0 !in draws
  {
    var first := [0] + seq(size - 1, _ => 1);
    var second := seq(size - 1, _ => 1) + [0];
    var cs := seq(size, (k: nat) => Cursor(first, k + 1)) + seq(size - 1, (k: nat) => Cursor(second, k + 1));
    var draws := seq(2 * size - 2, _ => 1);
    assert multiset(first) == multiset(second);
    forall i | 0 <= i < |draws|
      ensures Draws(cs[i], draws[i], cs[i + 1])
    {
    }
    assert first[0] == 0;
    assert IsRun(cs, draws);
  }

  // ----- filling the tables -----

  /** The samples that rejection keeps: stages that may be visited at all. */
  function Accepted(max: seq<nat>, samples: seq<nat>): (kept: seq<nat>)
    requires forall i | 0 <= i < |samples| :: samples[i] < |max|
    ensures forall i | 0 <= i < |kept| :: kept[i] < |max| && max[kept[i]] != 0
  {
    if samples == [] then [] else
    if max[samples[0]] != 0 then [samples[0]] + Accepted(max, samples[1..]) else Accepted(max, samples[1..])
  }

  /** The sample at `to` is kept after `kept`, or rejected. */
  lemma AcceptOne(max: seq<nat>, samples: seq<nat>, to: nat, kept: seq<nat>)
    requires forall i | 0 <= i < |samples| :: samples[i] < |max|
    requires to <= |samples| && |Accepted(max, samples[to..])| > 0
    ensures to < |samples|
    ensures kept + Accepted(max, samples[to..])
         == (if max[samples[to]] != 0 then kept + [samples[to]] else kept) + Accepted(max, samples[to + 1..])
  {
    assert samples[to..][1..] == samples[to + 1..];
  }

  /** Rejection takes the samples one by one, and keeps a sample, as often as it comes, or never. */
  lemma {:induction false} AcceptedInTurn(max: seq<nat>, a: seq<nat>, b: seq<nat>)
    requires forall i | 0 <= i < |a| :: a[i] < |max|
    requires forall i | 0 <= i < |b| :: b[i] < |max|
    ensures forall i | 0 <= i < |a + b| :: (a + b)[i] < |max|
    ensures Accepted(max, a + b) == Accepted(max, a) + Accepted(max, b)
  {
    if a == [] {
      assert a + b == b;
    } else {
      AcceptedInTurn(max, a[1..], b);
      assert (a + b)[1..] == a[1..] + b;
    }
  }

  lemma {:induction false} AcceptedCounts(max: seq<nat>, samples: seq<nat>, s: nat)
    requires forall i | 0 <= i < |samples| :: samples[i] < |max|
    ensures Count(Accepted(max, samples), s) == if s < |max| && max[s] != 0 then Count(samples, s) else 0
  {
    if samples != [] {
      AcceptedCounts(max, samples[1..], s);
      assert samples == [samples[0]] + samples[1..];
    }
  }

  lemma RowsLeft(rows: nat, size: nat)
    requires rows > 0
    ensures rows * size == (rows - 1) * size + size
    ensures (rows - 1) * size >= 0
  {
  }

  // ----- shuffling -----

  function Swapped(s: seq<nat>, i: nat, j: nat): (s': seq<nat>)
    requires i < |s| && j < |s|
    ensures |s'| == |s|
  {
    s[i := s[j]][j := s[i]]
  }

  /** The places picked for the last places of a table of `size` entries: for place `i`, one up to `i`. */
  predicate Picks(size: nat, picks: seq<nat>)
  {
    |picks| <= size && forall k | 0 <= k < |picks| :: picks[k] < size - k
  }

  /** The table once its last |picks| places, from the last one down, have been swapped with the places picked. */
  function Shuffled(s: seq<nat>, picks: seq<nat>): (s': seq<nat>)
    requires Picks(|s|, picks)
    ensures |s'| == |s|
  {
    if picks == [] then s else
    var k := |picks| - 1;
    Swapped(Shuffled(s, picks[..k]), |s| - 1 - k, picks[k])
  }

  /** A shuffle only changes the order. */
  lemma {:induction false} ShuffleKeepsMultiset(s: seq<nat>, picks: seq<nat>)
    requires Picks(|s|, picks)
    ensures multiset(Shuffled(s, picks)) == multiset(s)
  {
    if picks != [] {
      ShuffleKeepsMultiset(s, picks[..|picks| - 1]);
    }
  }

  /** Every order of the table comes out for some picks. */
  lemma EveryOrderHasPicks(s: seq<nat>, p: seq<nat>)
    requires multiset(s) == multiset(p) && s != []
    ensures exists picks :: |picks| == |s| - 1 && Picks(|s|, picks) && Shuffled(s, picks) == p
  {
    hide Picks, Shuffled;
    SameLength(s, p);
    var picks := PicksFor(s, p, |s| - 1);
    var r := Shuffled(s, picks);
    ShuffleKeepsMultiset(s, picks);
    LastPlace(r, p);
  }

  lemma LastPlace(r: seq<nat>, p: seq<nat>)
    requires |r| == |p| > 0 && multiset(r) == multiset(p) && r[1..] == p[1..]
    ensures r == p
  {
    SamePrefixes(r, p, 1);
    assert r[..1] == [r[0]] && p[..1] == [p[0]];
    assert r[0] in multiset([p[0]]);
    assert r == r[..1] + r[1..] && p == p[..1] + p[1..];
  }

  lemma SameLength(s: seq<nat>, p: seq<nat>)
    requires multiset(s) == multiset(p)
    ensures |s| == |p|
  {
    assert |multiset(s)| == |multiset(p)|;
  }

  lemma SamePrefixes(s: seq<nat>, p: seq<nat>, i: nat)
    requires |s| == |p| && multiset(s) == multiset(p) && i <= |s| && s[i..] == p[i..]
    ensures multiset(s[..i]) == multiset(p[..i])
  {
    assert s == s[..i] + s[i..] && p == p[..i] + p[i..];
    assert multiset(s[..i]) == multiset(s) - multiset(s[i..]);
    assert multiset(p[..i]) == multiset(p) - multiset(p[i..]);
  }

  lemma NoPicks(s: seq<nat>)
    ensures Picks(|s|, []) && Shuffled(s, []) == s
  {
  }

  lemma PicksFurther(size: nat, picks: seq<nat>, j: nat)
    requires Picks(size, picks) && |picks| < size && j < size - |picks|
    ensures Picks(size, picks + [j])
  {
  }

  lemma ShuffledLast(s: seq<nat>, picks: seq<nat>, k: nat)
    requires Picks(|s|, picks) && |picks| == k + 1
    ensures Picks(|s|, picks[..k]) && picks[k] < |s| - k
    ensures Shuffled(s, picks) == Swapped(Shuffled(s, picks[..k]), |s| - 1 - k, picks[k])
  {
    hide Swapped;
  }

  lemma ShuffledFurther(s: seq<nat>, picks: seq<nat>, j: nat)
    requires Picks(|s|, picks) && |picks| < |s| && j < |s| - |picks|
    ensures Picks(|s|, picks + [j])
    ensures Shuffled(s, picks + [j]) == Swapped(Shuffled(s, picks), |s| - 1 - |picks|, j)
  {
    hide Picks, Shuffled, Swapped;
    PicksFurther(|s|, picks, j);
    Appended(picks, j);
    ShuffledLast(s, picks + [j], |picks|);
  }

  lemma Appended(picks: seq<nat>, j: nat)
    ensures |picks + [j]| == |picks| + 1 && (picks + [j])[..|picks|] == picks && (picks + [j])[|picks|] == j
  {
  }

  /** What belongs in place `i` is still among the first entries. */
  lemma PickFor(r: seq<nat>, p: seq<nat>, i: nat) returns (j: nat)
    requires |r| == |p| && multiset(r) == multiset(p) && i < |r| && r[i + 1..] == p[i + 1..]
    ensures j <= i && Swapped(r, i, j)[i..] == p[i..]
  {
    SamePrefixes(r, p, i + 1);
    assert p[..i + 1][i] in multiset(r[..i + 1]);
    j :| 0 <= j <= i && r[..i + 1][j] == p[i];
    forall k | i < k < |r|
      ensures r[k] == p[k]
    {
      assert r[i + 1..][k - i - 1] == p[i + 1..][k - i - 1];
    }
  }

  /** Picks that put the last `k` entries of `p` into place. */
  lemma {:induction false} PicksFor(s: seq<nat>, p: seq<nat>, k: nat) returns (picks: seq<nat>)
    requires |s| == |p| && multiset(s) == multiset(p) && k < |s|
    ensures |picks| == k && Picks(|s|, picks)
    ensures Shuffled(s, picks)[|s| - k..] == p[|s| - k..]
  {
    hide Picks, Shuffled, Swapped;
    NoPicks(s);
    if k == 0 {
      picks := [];
    } else {
      picks := PicksFor(s, p, k - 1);
      ShuffleKeepsMultiset(s, picks);
      var j := PickFor(Shuffled(s, picks), p, |s| - k);
      ShuffledFurther(s, picks, j);
      picks := picks + [j];
    }
  }

  // ----- from random numbers to picks -----

  /** `pick` is one of `places` places and differs from the random number by a multiple of their number. */
  ghost predicate IsPick(random: nat, places: nat, pick: nat)
  {
    pick < places && exists q: nat :: random == Times(q, places) + pick
  }

  /** Each place from the last one down is picked by the random number for it. */
  ghost predicate ArePicks(size: nat, randoms: seq<nat>, picks: seq<nat>)
  {
    |picks| == |randoms| <= size && forall k | 0 <= k < |picks| :: IsPick(randoms[k], size - k, picks[k])
  }

  /** These random numbers shuffle `s` to `p`: one for every place but the first. */
  ghost predicate ShuffledBy(s: seq<nat>, randoms: seq<nat>, p: seq<nat>)
  {
    && |randoms| == (if s == [] then 0 else |s| - 1)
    && exists picks :: Picks(|s|, picks) && ArePicks(|s|, randoms, picks) && Shuffled(s, picks) == p
  }

  lemma OnePick(random: nat, places: nat, a: nat, b: nat)
    requires IsPick(random, places, a) && IsPick(random, places, b)
    ensures a == b
  {
    var q: nat :| random == Times(q, places) + a;
    var r: nat :| random == Times(r, places) + b;
    hide Times;
    OneMoreTime(q, places);
    OneMoreTime(r, places);
    if q < r {
      TimesMonotone(q + 1, r, places);
    } else if r < q {
      TimesMonotone(r + 1, q, places);
    }
  }

  /** The random numbers leave no choice. */
  lemma ShuffleIsDetermined(s: seq<nat>, randoms: seq<nat>, p: seq<nat>, p': seq<nat>)
    requires ShuffledBy(s, randoms, p) && ShuffledBy(s, randoms, p')
    ensures p == p'
  {
    hide IsPick, Shuffled;
    var a :| Picks(|s|, a) && ArePicks(|s|, randoms, a) && Shuffled(s, a) == p;
    var b :| Picks(|s|, b) && ArePicks(|s|, randoms, b) && Shuffled(s, b) == p';
    forall k | 0 <= k < |a|
      ensures a[k] == b[k]
    {
      OnePick(randoms[k], |s| - k, a[k], b[k]);
    }
    assert a == b;
  }

  /** The remainder is the pick. */
  lemma RemainderIsPick(random: nat, places: nat)
    requires places > 0
    ensures IsPick(random, places, random % places)
  {
    assert random == Times(random / places, places) + random % places;
  }

  lemma PicksThemselves(size: nat, picks: seq<nat>)
    requires Picks(size, picks)
    ensures ArePicks(size, picks, picks)
  {
    forall k | 0 <= k < |picks|
      ensures IsPick(picks[k], size - k, picks[k])
    {
      OneMoreTime(0, size - k);
      assert picks[k] == Times(0, size - k) + picks[k];
    }
  }

  /** For every order of the table there are random numbers that shuffle the table to it. */
  lemma EveryOrderIsAShuffle(s: seq<nat>, p: seq<nat>)
    requires multiset(s) == multiset(p)
    ensures exists randoms :: ShuffledBy(s, randoms, p)
  {
    hide ArePicks, Shuffled, Picks;
    if s == [] {
      SameLength(s, p);
      NoPicks(s);
      NothingPicked(|s|);
      assert ShuffledBy(s, [], p);
    } else {
      EveryOrderHasPicks(s, p);
      var picks :| |picks| == |s| - 1 && Picks(|s|, picks) && Shuffled(s, picks) == p;
      PicksThemselves(|s|, picks);
      assert ShuffledBy(s, picks, p);
    }
  }

  lemma NothingPicked(size: nat)
    ensures ArePicks(size, [], [])
  {
  }

  lemma PickedFurther(size: nat, randoms: seq<nat>, picks: seq<nat>, random: nat, pick: nat)
    requires ArePicks(size, randoms, picks) && |picks| < size && IsPick(random, size - |picks|, pick)
    ensures ArePicks(size, randoms + [random], picks + [pick])
  {
    hide IsPick;
  }

  lemma ShuffledByKeepsMultiset(s: seq<nat>, randoms: seq<nat>, p: seq<nat>)
    requires ShuffledBy(s, randoms, p)
    ensures multiset(p) == multiset(s)
  {
    hide ArePicks, Shuffled, Picks;
    var picks :| Picks(|s|, picks) && ArePicks(|s|, randoms, picks) && Shuffled(s, picks) == p;
    ShuffleKeepsMultiset(s, picks);
  }

  /** `randomDevice_`, with a record of the numbers it has given. */
  class RandomDevice {
    ghost var given: seq<nat>

    constructor ()
      ensures given == []
    {
      given := [];
    }

    method Draw() returns (random: nat)
      modifies this
      ensures given == old(given) + [random]
    {
      random := *;
      given := given + [random];
    }
  }

  /** What the draw from `c` to `c'` uses of the random numbers: a shuffle's worth at the end of the table, and else
      nothing. */
  ghost predicate Uses(c: Cursor, c': Cursor, randoms: seq<nat>)
  {
    if c.index < |c.table| then randoms == [] else ShuffledBy(c.table, randoms, c'.table)
  }

  /** One after the other. */
  function Concat(each: seq<seq<nat>>): seq<nat>
  {
    if each == [] then [] else Concat(each[..|each| - 1]) + each[|each| - 1]
  }

  class RandomVisit {
    const device: RandomDevice
    const assignments: ThreadAssignments
    const visitTable: array2<nat>
    const visitIndex: array<nat>

    ghost predicate Shaped()
      reads assignments.threadAssignment
    {
      && visitTable.Length0 == visitIndex.Length == assignments.threadAssignment.Length
      && visitIndex != assignments.threadAssignment && visitIndex != assignments.threadsPerStage
    }

    ghost predicate Valid()
      reads visitTable, visitIndex, assignments.threadAssignment, assignments.threadsPerStage
    {
      && Shaped() && assignments.Valid()
      && (forall t | 0 <= t < visitIndex.Length :: visitIndex[t] <= visitTable.Length1)
      && forall t, i | 0 <= t < visitTable.Length0 && 0 <= i < visitTable.Length1 ::
           visitTable[t, i] < |assignments.maximumConcurrency|
    }

    ghost function Table(t: nat): (table: seq<nat>)
      requires t < visitTable.Length0
      reads visitTable
      ensures |table| == visitTable.Length1
      ensures forall i | 0 <= i < visitTable.Length1 :: table[i] == visitTable[t, i]
    {
      seq(visitTable.Length1, i requires 0 <= i < visitTable.Length1 reads visitTable => visitTable[t, i])
    }

    ghost function CursorOf(t: nat): Cursor
      requires t < visitTable.Length0 == visitIndex.Length
      reads visitTable, visitIndex
    {
      Cursor(Table(t), visitIndex[t])
    }

    ghost function Cursors(): (cursors: seq<Cursor>)
      requires visitTable.Length0 == visitIndex.Length
      reads visitTable, visitIndex
      ensures |cursors| == visitIndex.Length
      ensures forall t | 0 <= t < visitIndex.Length :: cursors[t] == CursorOf(t)
    {
      seq(visitIndex.Length, t requires 0 <= t < visitIndex.Length reads visitTable, visitIndex => CursorOf(t))
    }

    ghost function Tables(): (tables: seq<seq<nat>>)
      reads visitTable
      ensures |tables| == visitTable.Length0 && forall t | 0 <= t < |tables| :: tables[t] == Table(t)
    {
      seq(visitTable.Length0, t requires 0 <= t < visitTable.Length0 reads visitTable => Table(t))
    }

    /** One table per thread, each a multiple of the stage count long, filled from `samples`: each is below the stage
        count, and enough of them are for stages that may be visited. */
    constructor (assignments: ThreadAssignments, device: RandomDevice, tableSizeFactor: nat, samples: seq<nat>)
      requires assignments.Valid()
      requires forall i | 0 <= i < |samples| :: samples[i] < |assignments.maximumConcurrency|
      requires |Accepted(assignments.maximumConcurrency, samples)|
            >= assignments.threadAssignment.Length * (|assignments.maximumConcurrency| * tableSizeFactor)
      ensures Valid() && this.assignments == assignments && this.device == device
      ensures Concat(Tables()) <= Accepted(assignments.maximumConcurrency, samples)
      ensures visitTable.Length1 == |assignments.maximumConcurrency| * tableSizeFactor
      ensures fresh(visitTable) && fresh(visitIndex)
      ensures forall t | 0 <= t < visitIndex.Length :: visitIndex[t] == 0
      ensures forall t, i | 0 <= t < visitTable.Length0 && 0 <= i < visitTable.Length1 ::
                assignments.maximumConcurrency[visitTable[t, i]] != 0
    {
      this.assignments, this.device := assignments, device;
      visitTable := new nat[assignments.threadAssignment.Length, |assignments.maximumConcurrency| * tableSizeFactor];
      visitIndex := new nat[assignments.threadAssignment.Length];
      new;
      InitVisitTable(samples);
    }

    /** The tables, one after the other, are the accepted samples in order. */
    method InitVisitTable(samples: seq<nat>)
      requires Shaped() && assignments.Valid()
      requires forall i | 0 <= i < |samples| :: samples[i] < |assignments.maximumConcurrency|
      requires |Accepted(assignments.maximumConcurrency, samples)| >= visitTable.Length0 * visitTable.Length1
      modifies visitTable, visitIndex
      ensures Valid()
      ensures Concat(Tables()) <= Accepted(assignments.maximumConcurrency, samples)
      ensures forall t | 0 <= t < visitIndex.Length :: visitIndex[t] == 0
      ensures forall t, i | 0 <= t < visitTable.Length0 && 0 <= i < visitTable.Length1 ::
                assignments.maximumConcurrency[visitTable[t, i]] != 0
    {
      ghost var max := assignments.maximumConcurrency;
      FillTables(samples);
      forall t, i | 0 <= t < visitTable.Length0 && 0 <= i < visitTable.Length1
        ensures visitTable[t, i] < |max| && max[visitTable[t, i]] != 0
      {
        InConcat(Tables(), t, i);
        assert Table(t)[i] in Accepted(max, samples);
      }
      for t := 0 to visitIndex.Length
        modifies visitIndex
        invariant forall u | 0 <= u < t :: visitIndex[u] == 0
      {
        visitIndex[t] := 0;
      }
    }

    /** The loop over the tables. */
    method FillTables(samples: seq<nat>)
      requires forall i | 0 <= i < |samples| :: samples[i] < |assignments.maximumConcurrency|
      requires |Accepted(assignments.maximumConcurrency, samples)| >= visitTable.Length0 * visitTable.Length1
      modifies visitTable
      ensures Concat(Tables()) <= Accepted(assignments.maximumConcurrency, samples)
    {
      hide Accepted;
      ghost var max, size := assignments.maximumConcurrency, visitTable.Length1;
      var to := 0;
      assert samples[0..] == samples;
      for t := 0 to visitTable.Length0
        invariant to <= |samples|
        invariant |Accepted(max, samples[to..])| >= (visitTable.Length0 - t) * size
        invariant Concat(Tables()[..t]) + Accepted(max, samples[to..]) == Accepted(max, samples)
      {
        RowsLeft(visitTable.Length0 - t, size);
        ghost var before, left := Tables(), Accepted(max, samples[to..]);
        to := FillRow(t, samples, to);
        ConcatMore(before[..t], Table(t));
        assert Tables()[..t + 1] == before[..t] + [Table(t)];
        assert Concat(before[..t]) + (Table(t) + Accepted(max, samples[to..]))
            == Concat(before[..t]) + Table(t) + Accepted(max, samples[to..]);
      }
      assert Tables()[..visitTable.Length0] == Tables();
    }

    /** Fisher and Yates, on the thread's own table, with the next random numbers of the device. */
    method RandomShuffle(threadId: nat)
      requires threadId < visitTable.Length0
      modifies visitTable, device
      ensures old(device.given) <= device.given
      ensures ShuffledBy(old(Table(threadId)), device.given[|old(device.given)|..], Table(threadId))
      ensures forall t, i | 0 <= t < visitTable.Length0 && 0 <= i < visitTable.Length1 && t != threadId ::
                visitTable[t, i] == old(visitTable[t, i])
    {
      hide Picks, Shuffled, Swapped, ArePicks, IsPick;
      var n := visitTable.Length1;
      ghost var table := Table(threadId);
      ghost var picks: seq<nat>, randoms: seq<nat> := [], [];
      NoPicks(table);
      NothingPicked(n);
      var i := n - 1;
      while i > 0
        invariant i < n && (n > 0 ==> i >= 0 && |picks| == n - 1 - i)
        invariant n == 0 ==> picks == []
        invariant device.given == old(device.given) + randoms && |randoms| == |picks|
        invariant Picks(n, picks) && ArePicks(n, randoms, picks) && Table(threadId) == Shuffled(table, picks)
        invariant forall t, i | 0 <= t < visitTable.Length0 && 0 <= i < visitTable.Length1 && t != threadId ::
                    visitTable[t, i] == old(visitTable[t, i])
      {
        ghost var random;
        random := PickAndSwap(threadId, i);
        ghost var j := random % (i + 1);
        RemainderIsPick(random, i + 1);
        PickedFurther(n, randoms, picks, random, j);
        ShuffledFurther(table, picks, j);
        picks, randoms := picks + [j], randoms + [random];
        i := i - 1;
      }
      assert device.given[|old(device.given)|..] == randoms;
      assert ShuffledBy(table, randoms, Table(threadId));
    }

    /** One round of the loop. */
    method PickAndSwap(threadId: nat, i: nat) returns (random: nat)
      requires threadId < visitTable.Length0 && i < visitTable.Length1
      modifies visitTable, device
      ensures device.given == old(device.given) + [random]
      ensures random % (i + 1) <= i && Table(threadId) == Swapped(old(Table(threadId)), i, random % (i + 1))
      ensures forall t, i | 0 <= t < visitTable.Length0 && 0 <= i < visitTable.Length1 && t != threadId ::
                visitTable[t, i] == old(visitTable[t, i])
    {
      random := device.Draw();
      SwapEntries(threadId, i, random % (i + 1));
    }

    method SwapEntries(threadId: nat, i: nat, j: nat)
      requires threadId < visitTable.Length0 && i < visitTable.Length1 && j < visitTable.Length1
      modifies visitTable
      ensures Table(threadId) == Swapped(old(Table(threadId)), i, j)
      ensures forall t, i | 0 <= t < visitTable.Length0 && 0 <= i < visitTable.Length1 && t != threadId ::
                visitTable[t, i] == old(visitTable[t, i])
    {
      visitTable[threadId, i], visitTable[threadId, j] := visitTable[threadId, j], visitTable[threadId, i];
    }

    method RandomStage(threadId: nat) returns (stage: nat)
      requires Valid() && threadId < visitTable.Length0 && visitTable.Length1 > 0
      modifies visitTable, visitIndex, device
      ensures Valid() && old(device.given) <= device.given
      ensures Draws(old(CursorOf(threadId)), stage, CursorOf(threadId))
      ensures Uses(old(CursorOf(threadId)), CursorOf(threadId), device.given[|old(device.given)|..])
      ensures Cursors() == old(Cursors())[threadId := CursorOf(threadId)]
    {
      hide ShuffledBy;
      if visitIndex[threadId] == visitTable.Length1 {
        StartOver(threadId);
      }
      stage := visitTable[threadId, visitIndex[threadId]];
      visitIndex[threadId] := visitIndex[threadId] + 1;
      assert forall t | 0 <= t < visitTable.Length0 && t != threadId :: Table(t) == old(Table(t));
      assert Cursors() == old(Cursors())[threadId := CursorOf(threadId)];
    }

    method StartOver(threadId: nat)
      requires Valid() && threadId < visitTable.Length0
      modifies visitTable, visitIndex, device
      ensures Valid() && visitIndex[threadId] == 0 && old(device.given) <= device.given
      ensures ShuffledBy(old(Table(threadId)), device.given[|old(device.given)|..], Table(threadId))
      ensures multiset(Table(threadId)) == multiset(old(Table(threadId)))
      ensures forall t | 0 <= t < visitTable.Length0 && t != threadId ::
                Table(t) == old(Table(t)) && visitIndex[t] == old(visitIndex[t])
    {
      hide ShuffledBy;
      visitIndex[threadId] := 0;
      RandomShuffle(threadId);
      ShuffledByKeepsMultiset(old(Table(threadId)), device.given[|old(device.given)|..], Table(threadId));
      ShuffleKeepsRange(threadId, old(Table(threadId)));
    }

    lemma ShuffleKeepsRange(t: nat, before: seq<nat>)
      requires t < visitTable.Length0 && multiset(Table(t)) == multiset(before)
      requires forall i | 0 <= i < |before| :: before[i] < |assignments.maximumConcurrency|
      ensures forall i | 0 <= i < visitTable.Length1 :: visitTable[t, i] < |assignments.maximumConcurrency|
    {
      forall i | 0 <= i < visitTable.Length1
        ensures visitTable[t, i] < |assignments.maximumConcurrency|
      {
        assert Table(t)[i] in multiset(before);
        assert Table(t)[i] in before;
      }
    }

    /** Running alone, the search ends if (and only if) some stage of the thread's table has room, within twice the
        table's size less one draws, at the first drawn stage with room. */
    method NextStage(threadId: nat) returns (next: nat, ghost run: Search)
      requires Valid() && threadId < visitTable.Length0
      requires !AllFull(assignments.maximumConcurrency,
                        Released(assignments.maximumConcurrency, assignments.Slots(), threadId), Table(threadId))
      modifies visitTable, visitIndex, device, assignments.threadAssignment, assignments.threadsPerStage
      ensures Valid() && run.first == old(CursorOf(threadId)) && run.next == next
      ensures var max := assignments.maximumConcurrency;
              var released := Released(max, old(assignments.Slots()), threadId);
              run.InVain(max, released) && Room(max, released, next)
      ensures assignments.Slots() == old(assignments.Slots())[threadId := next]
      ensures Cursors() == old(Cursors())[threadId := run.last]
      ensures device.given == old(device.given) + Concat(run.randoms)
    {
      next := assignments.RemoveCurrentAssignment(threadId);
      next, run := SearchTable(threadId);
      AssignedTwice(old(assignments.Slots()), threadId, |assignments.maximumConcurrency|, next);
    }

    /** The do-while loop of `nextStage`. */
    method SearchTable(threadId: nat) returns (next: nat, ghost run: Search)
      requires Valid() && threadId < visitTable.Length0
      requires assignments.Slots()[threadId] == |assignments.maximumConcurrency|
      requires !AllFull(assignments.maximumConcurrency, assignments.Slots(), Table(threadId))
      modifies visitTable, visitIndex, device, assignments.threadAssignment, assignments.threadsPerStage
      ensures Valid() && run.first == old(CursorOf(threadId)) && run.next == next
      ensures run.InVain(assignments.maximumConcurrency, old(assignments.Slots()))
      ensures Room(assignments.maximumConcurrency, old(assignments.Slots()), run.next)
      ensures assignments.Slots() == old(assignments.Slots())[threadId := run.next]
      ensures Cursors() == old(Cursors())[threadId := run.last]
      ensures device.given == old(device.given) + Concat(run.randoms)
    {
      hide Search.InVain, AllFull, Uses, Draws, Concat, Room;
      ghost var max, slots, cursors := assignments.maximumConcurrency, assignments.Slots(), Cursors();
      SomeEntry(max, slots, Table(threadId));
      ghost var given := device.given;
      var hasAssignment;
      next, hasAssignment := DrawAndTry(threadId);
      run := FirstDraw(max, slots, cursors[threadId], next, CursorOf(threadId), device.given[|given|..]);
      while !hasAssignment
        invariant Valid() && run.first == cursors[threadId] && next == run.next
        invariant run.InVain(max, slots) && |run.draws| < 2 * visitTable.Length1
        invariant device.given == given + Concat(run.randoms)
        invariant Cursors() == cursors[threadId := run.last]
        invariant hasAssignment == Room(max, slots, run.next)
        invariant assignments.Slots() == if hasAssignment then slots[threadId := run.next] else slots
        decreases 2 * visitTable.Length1 - |run.draws|
      {
        ghost var before := device.given;
        next, hasAssignment := DrawAndTry(threadId);
        run := NextDraw(max, slots, run, next, CursorOf(threadId), device.given[|before|..]);
      }
    }

    /** One round of the loop. */
    method DrawAndTry(threadId: nat) returns (next: nat, success: bool)
      requires Valid() && threadId < visitTable.Length0 && visitTable.Length1 > 0
      requires assignments.Slots()[threadId] == |assignments.maximumConcurrency|
      modifies visitTable, visitIndex, device, assignments.threadAssignment, assignments.threadsPerStage
      ensures Valid() && old(device.given) <= device.given
      ensures Draws(old(CursorOf(threadId)), next, CursorOf(threadId))
      ensures Uses(old(CursorOf(threadId)), CursorOf(threadId), device.given[|old(device.given)|..])
      ensures Cursors() == old(Cursors())[threadId := CursorOf(threadId)]
      ensures success == Room(assignments.maximumConcurrency, old(assignments.Slots()), next)
      ensures assignments.Slots()
           == if success then old(assignments.Slots())[threadId := next] else old(assignments.Slots())
    {
      next := RandomStage(threadId);
      success := assignments.TryAssign(threadId, next);
      assert CursorOf(threadId) == Cursors()[threadId];
    }

    /** Rejection sampling for one table, given samples enough. */
    method FillRow(threadId: nat, samples: seq<nat>, from: nat) returns (to: nat)
      requires threadId < visitTable.Length0 && from <= |samples|
      requires forall i | 0 <= i < |samples| :: samples[i] < |assignments.maximumConcurrency|
      requires |Accepted(assignments.maximumConcurrency, samples[from..])| >= visitTable.Length1
      modifies visitTable
      ensures from <= to <= |samples|
      ensures Table(threadId) + Accepted(assignments.maximumConcurrency, samples[to..])
           == Accepted(assignments.maximumConcurrency, samples[from..])
      ensures Tables() == old(Tables())[threadId := Table(threadId)]
      ensures forall t, i | 0 <= t < visitTable.Length0 && 0 <= i < visitTable.Length1 && t != threadId ::
                visitTable[t, i] == old(visitTable[t, i])
    {
      hide Accepted;
      ghost var max := assignments.maximumConcurrency;
      var i := 0;
      to := from;
      while i < visitTable.Length1
        invariant i <= visitTable.Length1 && from <= to <= |samples|
        invariant Table(threadId)[..i] + Accepted(max, samples[to..]) == Accepted(max, samples[from..])
        invariant forall t, i | 0 <= t < visitTable.Length0 && 0 <= i < visitTable.Length1 && t != threadId ::
                    visitTable[t, i] == old(visitTable[t, i])
        decreases |samples| - to
      {
        ghost var kept := Table(threadId)[..i];
        AcceptOne(max, samples, to, kept);
        var v := samples[to];
        if assignments.maximumConcurrency[v] != 0 {
          visitTable[threadId, i] := v;
          i := i + 1;
          assert Table(threadId)[..i] == kept + [v];
        }
        to := to + 1;
      }
      assert Table(threadId)[..i] == Table(threadId);
      assert forall t | 0 <= t < visitTable.Length0 && t != threadId :: Table(t) == old(Table(t));
      assert Tables() == old(Tables())[threadId := Table(threadId)];
    }
  }

  /** None of these stages has room. */
  predicate AllFull(max: seq<nat>, slots: seq<nat>, stages: seq<nat>)
  {
    forall j | 0 <= j < |stages| :: !Room(max, slots, stages[j])
  }

  /** The draws of one search so far: those in vain, then `next`, from the cursor `first` to the cursor `last`, and the
      random numbers that each has used. */
  datatype Search =
    Search(first: Cursor, cs: seq<Cursor>, draws: seq<nat>, next: nat, last: Cursor, randoms: seq<seq<nat>>)
  {
    ghost predicate InVain(max: seq<nat>, slots: seq<nat>)
    {
      && IsRun(cs, draws + [next]) && cs[0] == first && cs[|draws| + 1] == last
      && AllFull(max, slots, draws) && |draws| + 1 <= 2 * |first.table| - 1
      && |randoms| == |draws| + 1 && forall i | 0 <= i < |randoms| :: Uses(cs[i], cs[i + 1], randoms[i])
    }
  }

  lemma SomeEntry(max: seq<nat>, slots: seq<nat>, stages: seq<nat>)
    requires !AllFull(max, slots, stages)
    ensures stages != []
  {
  }

  lemma FirstDraw(max: seq<nat>, slots: seq<nat>, c: Cursor, v: nat, c': Cursor, randoms: seq<nat>)
    returns (run: Search)
    requires Draws(c, v, c') && c.index <= |c.table| && Uses(c, c', randoms)
    ensures run.InVain(max, slots) && run.first == c && run.next == v && run.last == c'
    ensures run.draws == [] && Concat(run.randoms) == randoms && |c.table| > 0
  {
    run := Search(c, [c, c'], [], v, c', [randoms]);
    ConcatMore([], randoms);
  }

  lemma {:induction false} InConcat(each: seq<seq<nat>>, t: nat, i: nat)
    requires t < |each| && i < |each[t]|
    ensures each[t][i] in Concat(each)
  {
    if t + 1 < |each| {
      InConcat(each[..|each| - 1], t, i);
    }
  }

  lemma ConcatMore(each: seq<seq<nat>>, more: seq<nat>)
    ensures Concat(each + [more]) == Concat(each) + more && Concat([more]) == more
  {
    assert (each + [more])[..|each|] == each;
    var one := [more];
    assert one[..|one| - 1] == [];
  }

  /** Another draw after one in vain. The bound is not yet reached, if the table holds a stage with room. */
  lemma NextDraw(max: seq<nat>, slots: seq<nat>, run: Search, v: nat, c: Cursor, randoms: seq<nat>)
    returns (run': Search)
    requires run.InVain(max, slots) && !Room(max, slots, run.next) && Draws(run.last, v, c)
    requires !AllFull(max, slots, run.first.table) && Uses(run.last, c, randoms)
    ensures run'.InVain(max, slots) && run'.first == run.first && run'.next == v && run'.last == c
    ensures |run'.draws| == |run.draws| + 1 < 2 * |run.first.table|
    ensures Concat(run'.randoms) == Concat(run.randoms) + randoms
  {
    hide Uses;
    var draws := run.draws + [run.next];
    if |draws| >= 2 * |run.first.table| - 1 {
      var i :| 0 <= i < |run.first.table| && Room(max, slots, run.first.table[i]);
      DrawnWithinTwoPasses(run.cs, draws, run.first.table[i]);
    }
    RunExtends(run.cs, draws, v, c);
    run' := Search(run.first, run.cs + [c], draws, v, c, run.randoms + [randoms]);
    ConcatMore(run.randoms, randoms);
  }

  /** Without a stage with room in the table, no draw of any run ever claims one. */
  lemma NoRoomNoClaim(max: seq<nat>, slots: seq<nat>, cs: seq<Cursor>, draws: seq<nat>)
    requires IsRun(cs, draws)
    requires AllFull(max, slots, cs[0].table)
    ensures AllFull(max, slots, draws)
  {
    RunKeepsTable(cs, draws, |draws|);
  }
}

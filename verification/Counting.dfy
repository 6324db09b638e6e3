/** Sums and occurrence counts over sequences of stage numbers. */
module Counting {

  datatype Option<+T> = None | Some(value: T)

  function Sum(s: seq<nat>): nat
  {
    if s == [] then 0 else Sum(s[..|s| - 1]) + s[|s| - 1]
  }

  /** How many positions of `s` hold `x`. */
  function Count(s: seq<nat>, x: nat): nat
  {
    multiset(s)[x]
  }

  /** The occurrence count of every number below `n`. */
  function Counts(s: seq<nat>, n: nat): (c: seq<nat>)
    ensures |c| == n && forall x: nat | x < n :: c[x] == Count(s, x)
  {
    seq(n, (x: nat) => Count(s, x))
  }

  lemma CountUpdate(s: seq<nat>, i: nat, v: nat, x: nat)
    requires i < |s|
    ensures Count(s[i := v], x) + (if s[i] == x then 1 else 0) == Count(s, x) + (if v == x then 1 else 0)
  {
  }

  lemma CountAppend(a: seq<nat>, b: seq<nat>, x: nat)
    ensures Count(a + b, x) == Count(a, x) + Count(b, x)
  {
  }

  lemma CountPositive(s: seq<nat>, i: nat)
    requires i < |s|
    ensures Count(s, s[i]) > 0
  {
    assert s[i] in s;
  }

  lemma {:induction false} CountAtMostLength(s: seq<nat>, x: nat)
    ensures Count(s, x) <= |s|
  {
    if s != [] {
      assert s == s[..|s| - 1] + [s[|s| - 1]];
      CountAtMostLength(s[..|s| - 1], x);
    }
  }

  lemma {:induction false} CountBelowLength(s: seq<nat>, i: nat, x: nat)
    requires i < |s| && s[i] != x
    ensures Count(s, x) < |s|
  {
    var n := |s| - 1;
    assert s == s[..n] + [s[n]];
    if i != n {
      CountBelowLength(s[..n], i, x);
    } else {
      CountAtMostLength(s[..n], x);
    }
  }

  lemma {:induction false} SumUpdate(s: seq<nat>, i: nat, v: nat)
    requires i < |s|
    ensures Sum(s[i := v]) + s[i] == Sum(s) + v
  {
    var n := |s| - 1;
    if i == n {
      assert s[i := v][..n] == s[..n];
    } else {
      SumUpdate(s[..n], i, v);
      assert s[i := v][..n] == s[..n][i := v];
    }
  }

  lemma {:induction false} SumAtLeast(s: seq<nat>, i: nat)
    requires i < |s|
    ensures s[i] <= Sum(s)
  {
    if i != |s| - 1 {
      SumAtLeast(s[..|s| - 1], i);
    }
  }

  lemma {:induction false} SumZero(n: nat)
    ensures Sum(seq(n, _ => 0)) == 0
  {
    if n != 0 {
      SumZero(n - 1);
      assert seq(n, _ => 0)[..n - 1] == seq(n - 1, _ => 0);
    }
  }

  lemma {:induction false} SumMonotone(a: seq<nat>, b: seq<nat>)
    requires |a| == |b| && forall i | 0 <= i < |a| :: a[i] <= b[i]
    ensures Sum(a) <= Sum(b)
  {
    if a != [] {
      SumMonotone(a[..|a| - 1], b[..|b| - 1]);
    }
  }

  lemma SumStrictlyMonotone(a: seq<nat>, b: seq<nat>, k: nat)
    requires |a| == |b| && k < |a| && a[k] < b[k] && forall i | 0 <= i < |a| :: a[i] <= b[i]
    ensures Sum(a) < Sum(b)
  {
    SumMonotone(a, b[k := a[k]]);
    SumUpdate(b, k, a[k]);
  }

  lemma {:induction false} SumOfBits(bits: seq<nat>)
    requires forall i | 0 <= i < |bits| :: bits[i] <= 1
    ensures Sum(bits) <= |bits|
    ensures Sum(bits) == |bits| <==> forall i | 0 <= i < |bits| :: bits[i] == 1
  {
    if bits != [] {
      SumOfBits(bits[..|bits| - 1]);
    }
  }

  lemma {:induction false} SumAppend(a: seq<nat>, b: seq<nat>)
    ensures Sum(a + b) == Sum(a) + Sum(b)
  {
    if b == [] {
      assert a + b == a;
    } else {
      SumAppend(a, b[..|b| - 1]);
      assert (a + b)[..|a + b| - 1] == a + b[..|b| - 1];
    }
  }

  /** Every position holds some number: the counts below `n` and the count of `n` add up to the length. */
  lemma {:induction false} CountsPartition(s: seq<nat>, n: nat)
    requires forall i | 0 <= i < |s| :: s[i] <= n
    ensures Sum(Counts(s, n)) + Count(s, n) == |s|
  {
    if s == [] {
      SumZero(n);
      assert Counts(s, n) == seq(n, _ => 0);
    } else {
      var front, last := s[..|s| - 1], s[|s| - 1];
      CountsPartition(front, n);
      CountsOneMore(front, last, n);
      assert s == front + [last];
      if last < n {
        SumUpdate(Counts(front, n), last, Count(front, last) + 1);
      }
    }
  }

  lemma CountsOneMore(s: seq<nat>, x: nat, n: nat)
    ensures Counts(s + [x], n) == if x < n then Counts(s, n)[x := Count(s, x) + 1] else Counts(s, n)
  {
  }

  /** A product, taken apart only by the lemmas below. */
  function Times(k: nat, x: nat): nat
  {
    k * x
  }

  lemma TimesIsProduct(k: nat, x: nat)
    ensures Times(k, x) == k * x == x * k
  {
  }

  lemma OneMoreTime(k: nat, x: nat)
    ensures Times(0, x) == 0 && Times(k + 1, x) == Times(k, x) + x
  {
  }

  lemma TimesMonotone(j: nat, k: nat, x: nat)
    requires j <= k
    ensures Times(j, x) <= Times(k, x)
  {
  }

  lemma TimesAdd(k: nat, x: nat, y: nat)
    ensures Times(k, x) + Times(k, y) == Times(k, x + y) && Times(k, 1) == k
  {
  }

  lemma TimesSum(j: nat, k: nat, x: nat)
    ensures Times(j, x) + Times(k, x) == Times(j + k, x)
  {
  }

  /** Sums may be added up term by term. */
  lemma {:induction false} SumPointwise(a: seq<nat>, b: seq<nat>, c: seq<nat>)
    requires |a| == |b| == |c| && forall i | 0 <= i < |c| :: c[i] == a[i] + b[i]
    ensures Sum(c) == Sum(a) + Sum(b)
  {
    if c != [] {
      SumPointwise(a[..|a| - 1], b[..|b| - 1], c[..|c| - 1]);
    }
  }
}

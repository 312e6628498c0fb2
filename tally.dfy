/**
 * Counting and summing over sequences, the way the source's `Map`-based loops
 * do it: first-occurrence key order, per-key sums and the fact that the per-key
 * sums add up to the whole.
 */
module Tally {

  predicate NoDuplicates<T(==)>(xs: seq<T>) {
    forall i, j :: 0 <= i < j < |xs| ==> xs[i] != xs[j]
  }

  /** The keys of `xs`, in order. */
  function Keys<T, K>(xs: seq<T>, key: T -> K): (ks: seq<K>)
    ensures |ks| == |xs|
  {
    if xs == [] then [] else Keys(xs[..|xs| - 1], key) + [key(xs[|xs| - 1])]
  }

  lemma {:induction false} KeysAt<T, K>(xs: seq<T>, key: T -> K)
    ensures forall i :: 0 <= i < |xs| ==> Keys(xs, key)[i] == key(xs[i])
  {
    if xs != [] {
      KeysAt(xs[..|xs| - 1], key);
    }
  }

  /** Each element once, in order of first occurrence (a `Map`'s key order). */
  function Distinct<T(==,!new)>(xs: seq<T>): (d: seq<T>)
    ensures forall x :: x in d <==> x in xs
    ensures NoDuplicates(d)
    ensures |d| <= |xs|
  {
    if xs == [] then []
    else
      var d := Distinct(xs[..|xs| - 1]);
      var x := xs[|xs| - 1];
      assert forall y :: y in xs <==> y in xs[..|xs| - 1] || y == x;
      if x in d then d else d + [x]
  }

  /** How often `x` occurs in `xs`. */
  function Count<T(==,!new)>(xs: seq<T>, x: T): (n: nat)
    ensures n <= |xs|
    ensures n > 0 <==> x in xs
  {
    if xs == [] then 0
    else
      var p := xs[..|xs| - 1];
      assert forall y :: y in xs <==> y in p || y == xs[|xs| - 1];
      Count(p, x) + (if xs[|xs| - 1] == x then 1 else 0)
  }

  /** The sum of `w` over `xs`. */
  function Sum<T>(xs: seq<T>, w: T -> int): int {
    if xs == [] then 0 else Sum(xs[..|xs| - 1], w) + w(xs[|xs| - 1])
  }

  /** The sum of `w` over the elements of `xs` whose key is `k`. */
  function SumWhere<T, K(==)>(xs: seq<T>, key: T -> K, w: T -> int, k: K): int {
    if xs == [] then 0
    else SumWhere(xs[..|xs| - 1], key, w, k) + (if key(xs[|xs| - 1]) == k then w(xs[|xs| - 1]) else 0)
  }

  /** The per-key sums of the keys `ks`, added up. */
  function SumOfGroups<T, K(==)>(ks: seq<K>, xs: seq<T>, key: T -> K, w: T -> int): int {
    if ks == [] then 0
    else SumOfGroups(ks[..|ks| - 1], xs, key, w) + SumWhere(xs, key, w, ks[|ks| - 1])
  }

  lemma {:induction false} SumAppend<T>(xs: seq<T>, ys: seq<T>, w: T -> int)
    ensures Sum(xs + ys, w) == Sum(xs, w) + Sum(ys, w)
    decreases |ys|
  {
    if ys == [] {
      assert xs + ys == xs;
    } else {
      assert (xs + ys)[..|xs + ys| - 1] == xs + ys[..|ys| - 1];
      SumAppend(xs, ys[..|ys| - 1], w);
    }
  }

  lemma {:induction false} SumWhereAbsent<T, K>(xs: seq<T>, key: T -> K, w: T -> int, k: K)
    requires k !in Keys(xs, key)
    ensures SumWhere(xs, key, w, k) == 0
  {
    if xs != [] {
      var p := xs[..|xs| - 1];
      assert forall i :: 0 <= i < |p| ==> Keys(p, key)[i] == Keys(xs, key)[i];
      SumWhereAbsent(p, key, w, k);
    }
  }

  /** Adding one element to `xs` adds its weight to the group of its key, if that key is listed once. */
  lemma {:induction false} SumOfGroupsStep<T, K>(ks: seq<K>, xs: seq<T>, x: T, key: T -> K, w: T -> int)
    requires NoDuplicates(ks)
    ensures SumOfGroups(ks, xs + [x], key, w)
      == SumOfGroups(ks, xs, key, w) + (if key(x) in ks then w(x) else 0)
  {
    var ys := xs + [x];
    assert ys[..|ys| - 1] == xs;
    if ks != [] {
      var p := ks[..|ks| - 1];
      SumOfGroupsStep(p, xs, x, key, w);
      assert forall k :: k in ks <==> k in p || k == ks[|ks| - 1];
      if key(x) == ks[|ks| - 1] {
        assert key(x) !in p;
      }
    }
  }

  /** Summing the per-key sums over the distinct keys gives the sum over everything. */
  lemma {:induction false} GroupsPartitionSum<T, K(!new)>(xs: seq<T>, key: T -> K, w: T -> int)
    ensures SumOfGroups(Distinct(Keys(xs, key)), xs, key, w) == Sum(xs, w)
  {
    if xs != [] {
      var p := xs[..|xs| - 1];
      var x := xs[|xs| - 1];
      assert xs == p + [x];
      var kp := Keys(p, key);
      assert Keys(xs, key)[..|xs| - 1] == kp;
      var d := Distinct(kp);
      GroupsPartitionSum(p, key, w);
      SumOfGroupsStep(d, p, x, key, w);
      if key(x) !in d {
        assert Distinct(Keys(xs, key)) == d + [key(x)];
        assert (d + [key(x)])[..|d|] == d;
        SumWhereAbsent(p, key, w, key(x));
      }
    }
  }

  function Identity<T>(x: T): T { x }
  function One<T>(x: T): int { 1 }

  lemma {:induction false} SumOfOnes<T>(xs: seq<T>)
    ensures Sum(xs, One) == |xs|
  {
    if xs != [] {
      SumOfOnes(xs[..|xs| - 1]);
    }
  }

  lemma {:induction false} SumWhereCounts<T(!new)>(xs: seq<T>, x: T)
    ensures SumWhere(xs, Identity, One, x) == Count(xs, x)
  {
    if xs != [] {
      SumWhereCounts(xs[..|xs| - 1], x);
    }
  }

  /** The counts of the distinct elements, summed over them. */
  function SumOfCounts<T(==,!new)>(ks: seq<T>, xs: seq<T>): int {
    if ks == [] then 0 else SumOfCounts(ks[..|ks| - 1], xs) + Count(xs, ks[|ks| - 1])
  }

  /** The occurrence counts of the distinct elements add up to the length. */
  lemma {:induction false} CountsPartitionLength<T(!new)>(xs: seq<T>)
    ensures SumOfCounts(Distinct(xs), xs) == |xs|
  {
    var ks := Distinct(xs);
    KeysAt(xs, Identity);
    assert Keys(xs, Identity) == xs;
    GroupsPartitionSum(xs, Identity, One);
    SumOfOnes(xs);
    SumOfCountsIsSumOfGroups(ks, xs);
  }

  lemma {:induction false} SumOfCountsIsSumOfGroups<T(!new)>(ks: seq<T>, xs: seq<T>)
    ensures SumOfCounts(ks, xs) == SumOfGroups(ks, xs, Identity, One)
  {
    if ks != [] {
      SumOfCountsIsSumOfGroups(ks[..|ks| - 1], xs);
      SumWhereCounts(xs, ks[|ks| - 1]);
    }
  }

  /** The elements of `xs` that satisfy `p`, in order. */
  function Filter<T(!new)>(xs: seq<T>, p: T -> bool): (r: seq<T>)
    ensures |r| <= |xs|
    ensures forall i :: 0 <= i < |r| ==> p(r[i])
    ensures forall x :: x in r <==> x in xs && p(x)
  {
    if xs == [] then []
    else
      var f := Filter(xs[..|xs| - 1], p);
      var x := xs[|xs| - 1];
      assert forall y :: y in xs <==> y in xs[..|xs| - 1] || y == x;
      if p(x) then f + [x] else f
  }

  lemma {:induction false} FilterAppend<T(!new)>(xs: seq<T>, ys: seq<T>, p: T -> bool)
    ensures Filter(xs + ys, p) == Filter(xs, p) + Filter(ys, p)
    decreases |ys|
  {
    if ys == [] {
      assert xs + ys == xs;
    } else {
      assert (xs + ys)[..|xs + ys| - 1] == xs + ys[..|ys| - 1];
      FilterAppend(xs, ys[..|ys| - 1], p);
    }
  }

  // One more element at the end: how each of the folds above moves.

  lemma KeysStep<T, K>(xs: seq<T>, x: T, key: T -> K)
    ensures Keys(xs + [x], key) == Keys(xs, key) + [key(x)]
  {
    assert (xs + [x])[..|xs|] == xs;
  }

  lemma DistinctStep<T(!new)>(xs: seq<T>, x: T)
    ensures Distinct(xs + [x]) == if x in Distinct(xs) then Distinct(xs) else Distinct(xs) + [x]
  {
    assert (xs + [x])[..|xs|] == xs;
  }

  lemma CountStep<T(!new)>(xs: seq<T>, x: T, y: T)
    ensures Count(xs + [x], y) == Count(xs, y) + (if x == y then 1 else 0)
  {
    assert (xs + [x])[..|xs|] == xs;
  }

  lemma SumWhereStep<T, K>(xs: seq<T>, x: T, key: T -> K, w: T -> int, k: K)
    ensures SumWhere(xs + [x], key, w, k) == SumWhere(xs, key, w, k) + (if key(x) == k then w(x) else 0)
  {
    assert (xs + [x])[..|xs|] == xs;
  }

  lemma FilterStep<T(!new)>(xs: seq<T>, x: T, p: T -> bool)
    ensures Filter(xs + [x], p) == if p(x) then Filter(xs, p) + [x] else Filter(xs, p)
  {
    assert (xs + [x])[..|xs|] == xs;
  }

  /** Splitting by a predicate and its negation accounts for every element. */
  lemma {:induction false} FilterPartition<T(!new)>(xs: seq<T>, p: T -> bool, q: T -> bool)
    requires forall x :: q(x) == !p(x)
    ensures |Filter(xs, p)| + |Filter(xs, q)| == |xs|
  {
    if xs != [] {
      FilterPartition(xs[..|xs| - 1], p, q);
    }
  }

  /** Filtering keeps every occurrence of a satisfying element and none of the others. */
  lemma {:induction false} FilterMultiset<T(!new)>(xs: seq<T>, p: T -> bool)
    ensures forall x :: multiset(Filter(xs, p))[x] == if p(x) then multiset(xs)[x] else 0
  {
    if xs != [] {
      var init := xs[..|xs| - 1];
      FilterMultiset(init, p);
      assert xs == init + [xs[|xs| - 1]];
      assert multiset(xs) == multiset(init) + multiset{xs[|xs| - 1]};
    }
  }

  /** Two lists holding the same elements as often keep that property through a filter. */
  lemma FilterSameElements<T(!new)>(xs: seq<T>, ys: seq<T>, p: T -> bool)
    requires multiset(xs) == multiset(ys)
    ensures multiset(Filter(xs, p)) == multiset(Filter(ys, p))
    ensures |Filter(xs, p)| == |Filter(ys, p)|
    ensures forall x :: x in Filter(xs, p) <==> x in Filter(ys, p)
  {
    var fx, fy := Filter(xs, p), Filter(ys, p);
    FilterMultiset(xs, p);
    FilterMultiset(ys, p);
    assert multiset(fx) == multiset(fy) by {
      forall x
        ensures multiset(fx)[x] == multiset(fy)[x]
      {
      }
    }
    assert |multiset(fx)| == |fx|;
    assert forall x :: x in fx <==> x in multiset(fx);
    assert forall x :: x in fy <==> x in multiset(fy);
  }

  /** `xs.slice(0, n)` */
  function Take<T>(xs: seq<T>, n: nat): (r: seq<T>)
    ensures |r| == if |xs| <= n then |xs| else n
  {
    if |xs| <= n then xs else xs[..n]
  }

  /** `xs.map(f)` */
  function MapSeq<T, U>(xs: seq<T>, f: T -> U): (ys: seq<U>)
    ensures |ys| == |xs|
    ensures forall i :: 0 <= i < |xs| ==> ys[i] == f(xs[i])
  {
    if xs == [] then [] else MapSeq(xs[..|xs| - 1], f) + [f(xs[|xs| - 1])]
  }

  lemma MapSeqStep<T, U>(xs: seq<T>, i: nat, f: T -> U)
    requires i < |xs|
    ensures MapSeq(xs[..i + 1], f) == MapSeq(xs[..i], f) + [f(xs[i])]
  {
    assert xs[..i + 1][..i] == xs[..i];
  }
}

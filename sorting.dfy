/**
 * `Array.prototype.sort` with a comparator: a stable sort, modelled as insertion
 * sort under a strict "comes before" relation derived from the comparator.
 */
module Sorting {

  /**
   * `lt` is irreflexive and transitive: a strict partial order, which is all
   * the insertion sort below needs to leave its result in order.
   */
  ghost predicate StrictOrder<T(!new)>(lt: (T, T) -> bool) {
    && (forall a :: !lt(a, a))
    && (forall a, b, c :: lt(a, b) && lt(b, c) ==> lt(a, c))
  }

  /** Neither of `a` and `b` comes before the other. */
  predicate Tied<T>(lt: (T, T) -> bool, a: T, b: T) {
    !lt(a, b) && !lt(b, a)
  }

  /**
   * A strict weak order: a strict order under which being tied is transitive.
   * This is what a consistent comparator of `Array.prototype.sort` induces;
   * for any other comparator the order `sort` leaves is implementation-defined.
   */
  ghost predicate StrictWeakOrder<T(!new)>(lt: (T, T) -> bool) {
    && StrictOrder(lt)
    && (forall a, b, c :: Tied(lt, a, b) && Tied(lt, b, c) ==> Tied(lt, a, c))
  }

  /** No element is strictly before an element to its left. */
  predicate SortedBy<T>(xs: seq<T>, lt: (T, T) -> bool) {
    forall i, j :: 0 <= i < j < |xs| ==> !lt(xs[j], xs[i])
  }

  /** Place `x` after every element it does not strictly precede (so after its equals). */
  function Insert<T>(x: T, xs: seq<T>, lt: (T, T) -> bool): (r: seq<T>)
    ensures multiset(r) == multiset(xs) + multiset{x}
    ensures |r| == |xs| + 1
  {
    if xs == [] then [x]
    else if lt(x, xs[0]) then [x] + xs
    else
      assert xs == [xs[0]] + xs[1..];
      [xs[0]] + Insert(x, xs[1..], lt)
  }

  /** The stable sort of `xs`: each element in turn is inserted after the ones already placed. */
  function Sort<T>(xs: seq<T>, lt: (T, T) -> bool): (r: seq<T>)
    ensures multiset(r) == multiset(xs)
    ensures |r| == |xs|
  {
    if xs == [] then []
    else
      assert xs == xs[..|xs| - 1] + [xs[|xs| - 1]];
      Insert(xs[|xs| - 1], Sort(xs[..|xs| - 1], lt), lt)
  }

  lemma {:induction false} InsertSorted<T(!new)>(x: T, xs: seq<T>, lt: (T, T) -> bool)
    requires StrictOrder(lt)
    requires SortedBy(xs, lt)
    ensures SortedBy(Insert(x, xs, lt), lt)
  {
    if xs != [] && !lt(x, xs[0]) {
      var rest := xs[1..];
      InsertSorted(x, rest, lt);
      var r := Insert(x, rest, lt);
      forall y | y in r ensures !lt(y, xs[0]) {
        assert y in multiset(r);
        if y != x {
          assert y in multiset(rest);
          var k :| 0 <= k < |rest| && rest[k] == y;
          assert xs[k + 1] == y;
        }
      }
    }
  }

  /** With a consistent comparator the result is in order and holds the same elements. */
  lemma {:induction false} SortSorted<T(!new)>(xs: seq<T>, lt: (T, T) -> bool)
    requires StrictOrder(lt)
    ensures SortedBy(Sort(xs, lt), lt)
    ensures multiset(Sort(xs, lt)) == multiset(xs)
  {
    if xs != [] {
      SortSorted(xs[..|xs| - 1], lt);
      InsertSorted(xs[|xs| - 1], Sort(xs[..|xs| - 1], lt), lt);
    }
  }

  /**
   * Code-unit lexicographic order on strings, the order `localeCompare` gives on
   * the plain ASCII names this system handles, up to collation details.
   */
  predicate StringLess(a: string, b: string) {
    if a == [] then b != []
    else if b == [] then false
    else if a[0] != b[0] then a[0] < b[0]
    else StringLess(a[1..], b[1..])
  }

  lemma {:induction false} StringLessIrreflexive(a: string)
    ensures !StringLess(a, a)
  {
    if a != [] {
      StringLessIrreflexive(a[1..]);
    }
  }

  lemma {:induction false} StringLessTransitive(a: string, b: string, c: string)
    requires StringLess(a, b) && StringLess(b, c)
    ensures StringLess(a, c)
  {
    if a != [] && b != [] && c != [] && a[0] == b[0] && b[0] == c[0] {
      StringLessTransitive(a[1..], b[1..], c[1..]);
    }
  }

  lemma {:induction false} StringLessTotal(a: string, b: string)
    ensures a == b || StringLess(a, b) || StringLess(b, a)
  {
    if a != [] && b != [] && a[0] == b[0] {
      StringLessTotal(a[1..], b[1..]);
      assert a == [a[0]] + a[1..] && b == [b[0]] + b[1..];
    }
  }
}

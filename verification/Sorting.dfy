/** `Array.prototype.sort` as a stable insertion sort, and what determines its result. */
module Sorting {
  import opened Texts

  /** Places `x`, which came before every element of `s`, ahead of all that are not smaller. */
  function InsertBefore<T>(x: T, s: seq<T>, less: (T, T) -> bool): (r: seq<T>)
    ensures multiset(r) == multiset{x} + multiset(s)
    decreases |s|
  {
    if s == [] then [x]
    else if less(s[0], x) then
      assert s == [s[0]] + s[1..];
      [s[0]] + InsertBefore(x, s[1..], less)
    else [x] + s
  }

  function SortBy<T>(s: seq<T>, less: (T, T) -> bool): (r: seq<T>)
    ensures multiset(r) == multiset(s)
    decreases |s|
  {
    if s == [] then []
    else
      assert s == [s[0]] + s[1..];
      InsertBefore(s[0], SortBy(s[1..], less), less)
  }

  /** No later element is smaller than an earlier one. */
  ghost predicate Sorted<T>(s: seq<T>, less: (T, T) -> bool) {
    forall i, j | 0 <= i < j < |s| :: !less(s[j], s[i])
  }

  /** A comparator whose ties form classes; `localeCompare` with options is one. */
  ghost predicate WeakOrder<T(!new)>(less: (T, T) -> bool) {
    && (forall a :: !less(a, a))
    && (forall a, b, c :: less(a, b) && less(b, c) ==> less(a, c))
    && (forall a, b, c :: !less(a, b) && !less(b, c) ==> !less(a, c))
  }

  lemma StrictTotalIsWeak<T(!new)>(less: (T, T) -> bool)
    requires StrictTotal(less)
    ensures WeakOrder(less)
  {
  }

  lemma SameElements<T>(r: seq<T>, s: seq<T>)
    requires multiset(r) == multiset(s)
    ensures |r| == |s|
    ensures forall x :: x in r <==> x in s
  {
    assert |r| == |multiset(r)| == |multiset(s)| == |s|;
    forall x ensures x in r <==> x in s {
      assert x in r <==> x in multiset(r);
      assert x in s <==> x in multiset(s);
    }
  }

  lemma {:induction false} InsertSorted<T(!new)>(x: T, s: seq<T>, less: (T, T) -> bool)
    requires WeakOrder(less) && Sorted(s, less)
    ensures Sorted(InsertBefore(x, s, less), less)
    decreases |s|
  {
    if s != [] && less(s[0], x) {
      var tail := InsertBefore(x, s[1..], less);
      InsertSorted(x, s[1..], less);
      assert multiset(tail) == multiset([x] + s[1..]);
      SameElements(tail, [x] + s[1..]);
      forall j | 0 <= j < |tail| ensures !less(tail[j], s[0]) {
        assert tail[j] in tail;
      }
    } else if s != [] {
      forall j | 0 <= j < |s| ensures !less(s[j], x) {
        assert j == 0 || !less(s[j], s[0]);
      }
    }
  }

  lemma {:induction false} SortBySorted<T(!new)>(s: seq<T>, less: (T, T) -> bool)
    requires WeakOrder(less)
    ensures Sorted(SortBy(s, less), less)
    decreases |s|
  {
    if s != [] {
      SortBySorted(s[1..], less);
      InsertSorted(s[0], SortBy(s[1..], less), less);
    }
  }

  /** No two distinct elements tie. */
  ghost predicate Separated<T(!new)>(s: seq<T>, less: (T, T) -> bool) {
    forall x, y | x in s && y in s && x != y :: less(x, y) || less(y, x)
  }

  lemma SortedHeads<T(!new)>(a: seq<T>, b: seq<T>, less: (T, T) -> bool)
    requires Separated(a, less) && Sorted(a, less) && Sorted(b, less)
    requires multiset(a) == multiset(b) && a != []
    ensures b != [] && a[0] == b[0]
  {
    SameElements(a, b);
    assert a[0] in b && b[0] in a;
  }

  lemma SameTails<T>(a: seq<T>, b: seq<T>)
    requires a != [] && b != [] && a[0] == b[0] && multiset(a) == multiset(b)
    ensures multiset(a[1..]) == multiset(b[1..])
  {
    assert a == [a[0]] + a[1..] && b == [b[0]] + b[1..];
    assert multiset(a[1..]) == multiset(a) - multiset{a[0]};
  }

  /** When no two elements tie, sorted sequences with the same elements are the same sequence. */
  lemma {:induction false} SortedUnique<T(!new)>(a: seq<T>, b: seq<T>, less: (T, T) -> bool)
    requires Separated(a, less) && Sorted(a, less) && Sorted(b, less)
    requires multiset(a) == multiset(b)
    ensures a == b
    decreases |a|
  {
    SameElements(a, b);
    if a != [] {
      SortedHeads(a, b, less);
      SameTails(a, b);
      SortedUnique(a[1..], b[1..], less);
      assert a == [a[0]] + a[1..] && b == [b[0]] + b[1..];
    }
  }

  /** Sorting forgets the order of the input and nothing else. */
  lemma SortByAgreesIffSameMultiset<T(!new)>(a: seq<T>, b: seq<T>, less: (T, T) -> bool)
    requires StrictTotal(less)
    ensures SortBy(a, less) == SortBy(b, less) <==> multiset(a) == multiset(b)
  {
    StrictTotalIsWeak(less);
    SortBySorted(a, less);
    SortBySorted(b, less);
    if multiset(a) == multiset(b) {
      SortedUnique(SortBy(a, less), SortBy(b, less), less);
    }
  }

  /** The last sorted element: one of the input that no other exceeds. */
  lemma LastOfSorted<T(!new)>(s: seq<T>, less: (T, T) -> bool)
    requires WeakOrder(less) && s != []
    ensures SortBy(s, less) != []
    ensures var last := SortBy(s, less)[|SortBy(s, less)| - 1];
            last in s && forall x | x in s :: !less(last, x)
  {
    var r := SortBy(s, less);
    SameElements(r, s);
    SortBySorted(s, less);
    var n := |r| - 1;
    assert r[n] in r;
    forall x | x in s ensures !less(r[n], x) {
      var k :| 0 <= k < |r| && r[k] == x;
      assert k == n || !less(r[n], r[k]);
    }
  }

  lemma SortsPair<T>(a: T, b: T, less: (T, T) -> bool)
    requires less(b, a)
    ensures SortBy([a, b], less) == [b, a]
  {
    assert [a, b][1..] == [b];
    assert SortBy([b], less) == [b];
    assert InsertBefore(a, [b], less) == [b] + InsertBefore(a, [], less);
  }
}

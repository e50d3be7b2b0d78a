/** Filtering, deduplicating and sorting rows: what depends on the order of the rows and what does not. */
module Rows {
  import opened Texts
  import opened Sorting

  // ---------- filter and map ----------

  function FilterMap<T, U>(s: seq<T>, f: T -> Option<U>): seq<U>
    decreases |s|
  {
    if s == [] then []
    else if f(s[0]).Some? then [f(s[0]).value] + FilterMap(s[1..], f)
    else FilterMap(s[1..], f)
  }

  lemma {:induction false} FilterMapConcat<T, U>(a: seq<T>, b: seq<T>, f: T -> Option<U>)
    ensures FilterMap(a + b, f) == FilterMap(a, f) + FilterMap(b, f)
    decreases |a|
  {
    if a == [] {
      assert a + b == b;
    } else {
      assert (a + b)[1..] == a[1..] + b;
      FilterMapConcat(a[1..], b, f);
    }
  }

  lemma RemoveOne<T>(s: seq<T>, i: nat)
    requires i < |s|
    ensures multiset(s) == multiset{s[i]} + multiset(s[..i] + s[i + 1..])
    ensures multiset(s[..i] + s[i + 1..]) == multiset(s) - multiset{s[i]}
  {
    assert s == s[..i] + [s[i]] + s[i + 1..];
  }

  lemma RemoveFirst<T>(s: seq<T>)
    requires s != []
    ensures multiset(s[1..]) == multiset(s) - multiset{s[0]} && multiset(s) == multiset{s[0]} + multiset(s[1..])
  {
    RemoveOne(s, 0);
    assert s[..0] + s[1..] == s[1..];
  }

  function Lifted<T, U>(x: T, f: T -> Option<U>): seq<U> { if f(x).Some? then [f(x).value] else [] }

  lemma FilterMapCons<T, U>(x: T, rest: seq<T>, f: T -> Option<U>)
    ensures FilterMap([x] + rest, f) == Lifted(x, f) + FilterMap(rest, f)
  {
    assert ([x] + rest)[1..] == rest;
  }

  lemma FilterMapPair<T, U>(x: T, y: T, f: T -> Option<U>)
    ensures FilterMap([x, y], f) == Lifted(x, f) + Lifted(y, f)
  {
    assert [x, y] == [x] + ([y] + []);
    FilterMapCons(x, [y] + [], f);
    FilterMapCons(y, [], f);
  }

  lemma Around<T>(s: seq<T>, i: nat)
    requires i < |s|
    ensures s == s[..i] + ([s[i]] + s[i + 1..])
  {
  }

  lemma FilterMapAround<T, U>(a: seq<T>, x: T, c: seq<T>, f: T -> Option<U>)
    ensures FilterMap(a + ([x] + c), f) == FilterMap(a, f) + (Lifted(x, f) + FilterMap(c, f))
  {
    FilterMapConcat(a, [x] + c, f);
    FilterMapCons(x, c, f);
  }

  lemma MiddleFirst<T>(a: seq<T>, b: seq<T>, c: seq<T>)
    ensures multiset(a + (b + c)) == multiset(b) + multiset(a + c)
  {
  }

  lemma FilterMapAt<T, U>(s: seq<T>, i: nat, f: T -> Option<U>)
    requires i < |s|
    ensures multiset(FilterMap(s, f)) == multiset(Lifted(s[i], f)) + multiset(FilterMap(s[..i] + s[i + 1..], f))
  {
    Around(s, i);
    FilterMapAround(s[..i], s[i], s[i + 1..], f);
    FilterMapConcat(s[..i], s[i + 1..], f);
    MiddleFirst(FilterMap(s[..i], f), Lifted(s[i], f), FilterMap(s[i + 1..], f));
  }

  /** Permuted rows give permuted results. */
  lemma {:induction false} FilterMapPermutes<T, U>(a: seq<T>, b: seq<T>, f: T -> Option<U>)
    requires multiset(a) == multiset(b)
    ensures multiset(FilterMap(a, f)) == multiset(FilterMap(b, f))
    decreases |a|
  {
    SameElements(a, b);
    if a != [] {
      assert a[0] in b;
      var i :| 0 <= i < |b| && b[i] == a[0];
      RemoveFirst(a);
      RemoveOne(b, i);
      FilterMapPermutes(a[1..], b[..i] + b[i + 1..], f);
      FilterMapAt(b, i, f);
      assert FilterMap(a, f) == Lifted(a[0], f) + FilterMap(a[1..], f);
    }
  }

  lemma {:induction false} InFilterMap<T, U>(s: seq<T>, f: T -> Option<U>, y: U)
    ensures y in FilterMap(s, f) <==> exists i :: 0 <= i < |s| && f(s[i]) == Some(y)
    decreases |s|
  {
    if s != [] {
      InFilterMap(s[1..], f, y);
      if i :| 0 <= i < |s[1..]| && f(s[1..][i]) == Some(y) { assert f(s[i + 1]) == Some(y); }
      if i :| 0 < i < |s| && f(s[i]) == Some(y) { assert f(s[1..][i - 1]) == Some(y); }
    }
  }

  /** Mapping what was kept is keeping what was mapped. */
  lemma {:induction false} FilterMapCompose<T, U, V>(s: seq<T>, f: T -> Option<U>, h: U -> V, g: T -> Option<V>)
    requires forall i | 0 <= i < |s| :: g(s[i]) == if f(s[i]).Some? then Some(h(f(s[i]).value)) else None
    ensures |FilterMap(s, g)| == |FilterMap(s, f)|
    ensures forall i | 0 <= i < |FilterMap(s, f)| :: FilterMap(s, g)[i] == h(FilterMap(s, f)[i])
    decreases |s|
  {
    if s != [] { FilterMapCompose(s[1..], f, h, g); }
  }

  // ---------- sets in insertion order ----------

  ghost predicate NoDuplicates<T>(s: seq<T>) {
    forall i, j | 0 <= i < j < |s| :: s[i] != s[j]
  }

  function Without<T(==,!new)>(s: seq<T>, x: T): (r: seq<T>)
    ensures forall y :: y in r <==> y in s && y != x
    decreases |s|
  {
    if s == [] then [] else if s[0] == x then Without(s[1..], x) else [s[0]] + Without(s[1..], x)
  }

  /** `[...new Set(s)]`: each element once, at its first place. */
  function Dedup<T(==,!new)>(s: seq<T>): (r: seq<T>)
    ensures forall y :: y in r <==> y in s
    decreases |s|
  {
    if s == [] then [] else [s[0]] + Without(Dedup(s[1..]), s[0])
  }

  lemma {:induction false} WithoutDuplicates<T(!new)>(s: seq<T>, x: T)
    requires NoDuplicates(s)
    ensures NoDuplicates(Without(s, x))
    decreases |s|
  {
    if s != [] {
      WithoutDuplicates(s[1..], x);
      assert s[0] !in s[1..];
    }
  }

  lemma {:induction false} DedupDuplicates<T(!new)>(s: seq<T>)
    ensures NoDuplicates(Dedup(s))
    decreases |s|
  {
    if s != [] {
      DedupDuplicates(s[1..]);
      var rest := Without(Dedup(s[1..]), s[0]);
      WithoutDuplicates(Dedup(s[1..]), s[0]);
      assert forall j | 0 <= j < |rest| :: rest[j] in rest;
    }
  }

  /** Without duplicates, the elements alone fix the multiset. */
  lemma {:induction false} SameSetSameMultiset<T(!new)>(a: seq<T>, b: seq<T>)
    requires NoDuplicates(a) && NoDuplicates(b)
    requires forall x :: x in a <==> x in b
    ensures multiset(a) == multiset(b)
    decreases |a|
  {
    assert b != [] ==> b[0] in a;
    assert a == [] ==> b == [];
    if a != [] {
      assert a[0] in b;
      var i :| 0 <= i < |b| && b[i] == a[0];
      RemoveFirst(a);
      RemoveOne(b, i);
      RestOf(a, b, i);
      SameSetSameMultiset(a[1..], b[..i] + b[i + 1..]);
      assert multiset(a) == multiset{a[0]} + multiset(a[1..]);
    }
  }

  lemma RestOf<T(!new)>(a: seq<T>, b: seq<T>, i: nat)
    requires a != [] && i < |b| && b[i] == a[0] && NoDuplicates(a) && NoDuplicates(b)
    requires forall x :: x in a <==> x in b
    ensures NoDuplicates(a[1..]) && NoDuplicates(b[..i] + b[i + 1..])
    ensures forall x :: x in a[1..] <==> x in b[..i] + b[i + 1..]
  {
    var rest := b[..i] + b[i + 1..];
    assert a == [a[0]] + a[1..] && a[0] !in a[1..];
    assert b == b[..i] + [b[i]] + b[i + 1..] && b[i] !in b[..i] && b[i] !in b[i + 1..];
    forall x ensures x in a[1..] <==> x in rest {
      assert x in a <==> x == a[0] || x in a[1..];
      assert x in b <==> x == b[i] || x in rest;
    }
  }

  // ---------- sorted sets ----------

  function SortedSet<T(==,!new)>(s: seq<T>, less: (T, T) -> bool): (r: seq<T>)
    ensures multiset(r) == multiset(Dedup(s))
  {
    SortBy(Dedup(s), less)
  }

  ghost predicate StrictlyIncreasing<T>(s: seq<T>, less: (T, T) -> bool) {
    forall i, j | 0 <= i < j < |s| :: less(s[i], s[j])
  }

  lemma PermutationKeepsDistinct<T>(a: seq<T>, b: seq<T>)
    requires multiset(a) == multiset(b) && NoDuplicates(a)
    ensures NoDuplicates(b)
  {
    forall i, j | 0 <= i < j < |b| ensures b[i] != b[j] {
      if b[i] == b[j] {
        assert b == b[..i] + [b[i]] + b[i + 1..j] + [b[j]] + b[j + 1..];
        assert multiset(a)[b[i]] >= 2;
        CountOfDistinct(a, b[i]);
      }
    }
  }

  lemma {:induction false} CountOfDistinct<T>(a: seq<T>, x: T)
    requires NoDuplicates(a)
    ensures multiset(a)[x] <= 1
    decreases |a|
  {
    if a != [] {
      assert a == [a[0]] + a[1..];
      CountOfDistinct(a[1..], x);
      if x == a[0] { assert x !in a[1..]; }
    }
  }

  /** The sorted set holds exactly the elements, each once. */
  lemma SortedSetHolds<T(!new)>(s: seq<T>, less: (T, T) -> bool)
    requires WeakOrder(less)
    ensures NoDuplicates(SortedSet(s, less)) && Sorted(SortedSet(s, less), less)
    ensures forall x :: x in SortedSet(s, less) <==> x in s
  {
    DedupDuplicates(s);
    SortBySorted(Dedup(s), less);
    PermutationKeepsDistinct(Dedup(s), SortedSet(s, less));
    SameElements(SortedSet(s, less), Dedup(s));
  }

  /** When no two elements tie, the sorted set strictly increases. */
  lemma SortedSetIncreases<T(!new)>(s: seq<T>, less: (T, T) -> bool)
    requires WeakOrder(less)
    requires forall x, y | x in s && y in s && x != y :: less(x, y) || less(y, x)
    ensures StrictlyIncreasing(SortedSet(s, less), less)
  {
    SortedSetHolds(s, less);
    var r := SortedSet(s, less);
    forall i, j | 0 <= i < j < |r| ensures less(r[i], r[j]) {
      assert r[i] in s && r[j] in s && r[i] != r[j];
    }
  }

  /** Under a strict total order the sorted set depends on the elements alone. */
  lemma SortedSetOfSame<T(!new)>(a: seq<T>, b: seq<T>, less: (T, T) -> bool)
    requires StrictTotal(less)
    requires forall x :: x in a <==> x in b
    ensures SortedSet(a, less) == SortedSet(b, less)
  {
    DedupDuplicates(a);
    DedupDuplicates(b);
    SameSetSameMultiset(Dedup(a), Dedup(b));
    SortByAgreesIffSameMultiset(Dedup(a), Dedup(b), less);
  }
}

/** When the order of the rows can show in a stable sort of their codes. */
module ClassOrder {
  import opened Texts
  import opened Sorting
  import opened Rows

  /** One list of codes per row, one after the other. */
  function Flatten<T>(lists: seq<seq<T>>): seq<T>
    decreases |lists|
  {
    if lists == [] then [] else lists[0] + Flatten(lists[1..])
  }

  /** The distinct codes of all rows, sorted stably by a comparator that may have ties. */
  function Classes<T(==,!new)>(lists: seq<seq<T>>, cmp: (T, T) -> bool): seq<T> {
    SortedSet(Flatten(lists), cmp)
  }

  /** Each row's list strictly increases in the order `unit`. */
  ghost predicate RowsSorted<T(!new)>(lists: seq<seq<T>>, unit: (T, T) -> bool) {
    forall l | l in lists :: StrictlyIncreasing(l, unit)
  }

  /** Of two tied codes, every row that lists the larger lists the smaller too. */
  ghost predicate TieSafe<T(!new)>(lists: seq<seq<T>>, cmp: (T, T) -> bool, unit: (T, T) -> bool) {
    forall a, b, l, m | l in lists && m in lists && b in l && a in m && Tied(a, b, cmp) && unit(a, b) :: a in l
  }

  lemma {:induction false} InFlatten<T>(lists: seq<seq<T>>, x: T)
    ensures x in Flatten(lists) <==> exists l :: l in lists && x in l
    decreases |lists|
  {
    if lists != [] {
      InFlatten(lists[1..], x);
      assert lists == [lists[0]] + lists[1..];
      assert forall l :: l in lists <==> l == lists[0] || l in lists[1..];
    }
  }

  // ---------- one element before another ----------

  ghost predicate Before<T>(s: seq<T>, a: T, b: T)
    decreases |s|
  {
    s != [] && ((s[0] == a && b in s[1..]) || Before(s[1..], a, b))
  }

  lemma {:induction false} BeforeAt<T>(s: seq<T>, i: nat, j: nat)
    requires i < j < |s|
    ensures Before(s, s[i], s[j])
    decreases |s|
  {
    if i > 0 { BeforeAt(s[1..], i - 1, j - 1); } else { assert s[1..][j - 1] == s[j]; }
  }

  lemma {:induction false} BothIn<T>(s: seq<T>, a: T, b: T)
    requires Before(s, a, b)
    ensures a in s && b in s
    decreases |s|
  {
    if !(s[0] == a && b in s[1..]) { BothIn(s[1..], a, b); }
  }

  lemma {:induction false} BeforeOneWay<T>(s: seq<T>, a: T, b: T)
    requires NoDuplicates(s) && Before(s, a, b)
    ensures !Before(s, b, a)
    decreases |s|
  {
    BothIn(s, a, b);
    assert s == [s[0]] + s[1..] && s[0] !in s[1..];
    if s[0] == a && b in s[1..] {
      if Before(s[1..], b, a) { BothIn(s[1..], b, a); }
    } else {
      BothIn(s[1..], a, b);
      BeforeOneWay(s[1..], a, b);
    }
  }

  lemma {:induction false} InsertedFirst<T(!new)>(x: T, t: seq<T>, b: T, cmp: (T, T) -> bool)
    requires b in t && !cmp(b, x)
    ensures Before(InsertBefore(x, t, cmp), x, b)
    decreases |t|
  {
    if cmp(t[0], x) {
      assert t == [t[0]] + t[1..];
      InsertedFirst(x, t[1..], b, cmp);
      assert InsertBefore(x, t, cmp)[1..] == InsertBefore(x, t[1..], cmp);
    } else {
      assert ([x] + t)[1..] == t;
    }
  }

  lemma {:induction false} InsertKeepsBefore<T(!new)>(x: T, t: seq<T>, a: T, b: T, cmp: (T, T) -> bool)
    requires Before(t, a, b)
    ensures Before(InsertBefore(x, t, cmp), a, b)
    decreases |t|
  {
    var r := InsertBefore(x, t, cmp);
    if cmp(t[0], x) {
      var tail := InsertBefore(x, t[1..], cmp);
      assert r == [t[0]] + tail && r[1..] == tail;
      if t[0] == a && b in t[1..] {
        assert b in multiset(tail);
      } else {
        InsertKeepsBefore(x, t[1..], a, b, cmp);
      }
    } else {
      assert r == [x] + t && r[1..] == t;
    }
  }

  /** A stable sort keeps tied elements in their order. */
  lemma {:induction false} SortKeepsTies<T(!new)>(s: seq<T>, a: T, b: T, cmp: (T, T) -> bool)
    requires Before(s, a, b) && !cmp(b, a)
    ensures Before(SortBy(s, cmp), a, b)
    decreases |s|
  {
    var t := SortBy(s[1..], cmp);
    if s[0] == a && b in s[1..] {
      SameElements(t, s[1..]);
      InsertedFirst(a, t, b, cmp);
    } else {
      SortKeepsTies(s[1..], a, b, cmp);
      InsertKeepsBefore(s[0], t, a, b, cmp);
    }
  }

  lemma {:induction false} WithoutKeepsBefore<T(!new)>(s: seq<T>, c: T, a: T, b: T)
    requires Before(s, a, b) && c != a && c != b
    ensures Before(Without(s, c), a, b)
    decreases |s|
  {
    var r := Without(s[1..], c);
    if s[0] == c {
      WithoutKeepsBefore(s[1..], c, a, b);
    } else {
      assert Without(s, c) == [s[0]] + r && ([s[0]] + r)[1..] == r;
      if !(s[0] == a && b in s[1..]) { WithoutKeepsBefore(s[1..], c, a, b); }
    }
  }

  // ---------- which row comes first ----------

  lemma DedupCons<T(!new)>(x: T, s: seq<T>)
    ensures Dedup([x] + s) == [x] + Without(Dedup(s), x)
  {
    assert ([x] + s)[1..] == s;
  }

  /** A code of the first row precedes every code that is not before it in that row. */
  lemma {:induction false} FirstRowWins<T(!new)>(l: seq<T>, rest: seq<T>, a: T, b: T, unit: (T, T) -> bool)
    requires StrictTotal(unit) && StrictlyIncreasing(l, unit)
    requires a in l && (b in l || b in rest) && a != b && (b in l ==> unit(a, b))
    ensures Before(Dedup(l + rest), a, b)
    decreases |l|
  {
    var c := l[0];
    assert l == [c] + l[1..];
    assert l + rest == [c] + (l[1..] + rest);
    DedupCons(c, l[1..] + rest);
    var d := Without(Dedup(l[1..] + rest), c);
    assert Dedup(l + rest)[1..] == d;
    if c == a {
      assert b in l[1..] + rest;
    } else {
      FirstIsSmallest(l, a, unit);
      FirstRowWins(l[1..], rest, a, b, unit);
      WithoutKeepsBefore(Dedup(l[1..] + rest), c, a, b);
    }
  }

  lemma FirstIsSmallest<T(!new)>(l: seq<T>, a: T, unit: (T, T) -> bool)
    requires StrictTotal(unit) && StrictlyIncreasing(l, unit) && a in l && a != l[0]
    ensures unit(l[0], a) && StrictlyIncreasing(l[1..], unit)
  {
    var i :| 0 <= i < |l| && l[i] == a;
  }

  lemma {:induction false} LaterRowsKeep<T(!new)>(l: seq<T>, rest: seq<T>, a: T, b: T)
    requires a !in l && b !in l && Before(Dedup(rest), a, b)
    ensures Before(Dedup(l + rest), a, b)
    decreases |l|
  {
    if l == [] {
      assert l + rest == rest;
    } else {
      assert l + rest == [l[0]] + (l[1..] + rest);
      DedupCons(l[0], l[1..] + rest);
      LaterRowsKeep(l[1..], rest, a, b);
      WithoutKeepsBefore(Dedup(l[1..] + rest), l[0], a, b);
      var d := Without(Dedup(l[1..] + rest), l[0]);
      assert ([l[0]] + d)[1..] == d;
    }
  }

  lemma {:induction false} SafeTiesOrdered<T(!new)>(
      lists: seq<seq<T>>, a: T, b: T, cmp: (T, T) -> bool, unit: (T, T) -> bool)
    requires StrictTotal(unit) && RowsSorted(lists, unit) && TieSafe(lists, cmp, unit)
    requires a in Flatten(lists) && b in Flatten(lists) && Tied(a, b, cmp) && unit(a, b)
    ensures Before(Dedup(Flatten(lists)), a, b)
    decreases |lists|
  {
    var l, rest := lists[0], lists[1..];
    assert l in lists && forall m | m in rest :: m in lists;
    if a in l {
      FirstRowWins(l, Flatten(rest), a, b, unit);
    } else {
      InFlatten(lists, a);
      SafeTiesOrdered(rest, a, b, cmp, unit);
      LaterRowsKeep(l, Flatten(rest), a, b);
    }
  }

  // ---------- safe ties: the rows' order is lost ----------

  function Combined<T(==)>(cmp: (T, T) -> bool, unit: (T, T) -> bool): (T, T) -> bool {
    (x, y) => cmp(x, y) || (Tied(x, y, cmp) && unit(x, y))
  }

  lemma CombinedTotal<T(!new)>(cmp: (T, T) -> bool, unit: (T, T) -> bool)
    requires WeakOrder(cmp) && StrictTotal(unit)
    ensures StrictTotal(Combined(cmp, unit))
  {
    var less := Combined(cmp, unit);
    forall a, b, c | less(a, b) && less(b, c) ensures less(a, c) {
      assert !cmp(b, a) && !cmp(c, b);
    }
  }

  lemma SafeClassesSorted<T(!new)>(lists: seq<seq<T>>, cmp: (T, T) -> bool, unit: (T, T) -> bool)
    requires WeakOrder(cmp) && StrictTotal(unit) && RowsSorted(lists, unit) && TieSafe(lists, cmp, unit)
    ensures Sorted(Classes(lists, cmp), Combined(cmp, unit))
  {
    var r := Classes(lists, cmp);
    SortedSetHolds(Flatten(lists), cmp);
    forall i, j | 0 <= i < j < |r| ensures !Combined(cmp, unit)(r[j], r[i]) {
      if Tied(r[j], r[i], cmp) && unit(r[j], r[i]) {
        SafeTiesOrdered(lists, r[j], r[i], cmp, unit);
        SortKeepsTies(Dedup(Flatten(lists)), r[j], r[i], cmp);
        BeforeAt(r, i, j);
        BeforeOneWay(r, r[i], r[j]);
      }
    }
  }

  lemma PermutedRows<T(!new)>(a: seq<seq<T>>, b: seq<seq<T>>)
    requires multiset(a) == multiset(b)
    ensures forall x :: x in Flatten(a) <==> x in Flatten(b)
  {
    SameElements(a, b);
    forall x ensures x in Flatten(a) <==> x in Flatten(b) {
      InFlatten(a, x);
      InFlatten(b, x);
    }
  }

  lemma SafeRowsAgree<T(!new)>(
      a: seq<seq<T>>, b: seq<seq<T>>, cmp: (T, T) -> bool, unit: (T, T) -> bool)
    requires WeakOrder(cmp) && StrictTotal(unit) && RowsSorted(a, unit) && TieSafe(a, cmp, unit)
    requires multiset(a) == multiset(b)
    ensures Classes(a, cmp) == Classes(b, cmp)
  {
    SameElements(a, b);
    assert RowsSorted(b, unit) && TieSafe(b, cmp, unit);
    SafeClassesSorted(a, cmp, unit);
    SafeClassesSorted(b, cmp, unit);
    CombinedTotal(cmp, unit);
    PermutedRows(a, b);
    DedupDuplicates(Flatten(a));
    DedupDuplicates(Flatten(b));
    SameSetSameMultiset(Dedup(Flatten(a)), Dedup(Flatten(b)));
    SortedUnique(Classes(a, cmp), Classes(b, cmp), Combined(cmp, unit));
  }

  // ---------- unsafe ties: some reordering shows ----------

  lemma MoveToFront<R>(rows: seq<R>, row: R) returns (moved: seq<R>)
    requires row in rows
    ensures moved != [] && moved[0] == row && multiset(moved) == multiset(rows)
  {
    var i :| 0 <= i < |rows| && rows[i] == row;
    RemoveOne(rows, i);
    moved := [row] + (rows[..i] + rows[i + 1..]);
  }

  lemma FirstRowShows<T(!new)>(
      lists: seq<seq<T>>, a: T, b: T, cmp: (T, T) -> bool, unit: (T, T) -> bool)
    requires StrictTotal(unit) && RowsSorted(lists, unit) && lists != []
    requires a in lists[0] && b in Flatten(lists) && Tied(a, b, cmp) && (b in lists[0] ==> unit(a, b))
    ensures Before(Classes(lists, cmp), a, b)
  {
    assert lists[0] in lists;
    FirstRowWins(lists[0], Flatten(lists[1..]), a, b, unit);
    SortKeepsTies(Dedup(Flatten(lists)), a, b, cmp);
  }

  lemma FrontRowsDiffer<T(!new)>(
      p: seq<seq<T>>, q: seq<seq<T>>, a: T, b: T, cmp: (T, T) -> bool, unit: (T, T) -> bool)
    requires WeakOrder(cmp) && StrictTotal(unit) && RowsSorted(p, unit) && RowsSorted(q, unit) && p != [] && q != []
    requires a in p[0] && b in Flatten(p) && b in q[0] && a in Flatten(q) && a !in q[0]
    requires Tied(a, b, cmp) && unit(a, b)
    ensures Classes(p, cmp) != Classes(q, cmp)
  {
    FirstRowShows(p, a, b, cmp, unit);
    FirstRowShows(q, b, a, cmp, unit);
    SortedSetHolds(Flatten(p), cmp);
    BeforeOneWay(Classes(p, cmp), a, b);
  }

  /** The rows' code lists; a row without a list contributes none. */
  function Lists<R, T>(rows: seq<R>, codes: R -> Option<seq<T>>): seq<seq<T>> { FilterMap(rows, codes) }

  lemma FrontList<R(!new), T(!new)>(rows: seq<R>, row: R, codes: R -> Option<seq<T>>) returns (moved: seq<R>)
    requires row in rows && codes(row).Some?
    ensures multiset(moved) == multiset(rows)
    ensures Lists(moved, codes) != [] && Lists(moved, codes)[0] == codes(row).value
    ensures forall l :: l in Lists(moved, codes) <==> l in Lists(rows, codes)
  {
    moved := MoveToFront(rows, row);
    FilterMapPermutes(moved, rows, codes);
    SameElements(Lists(moved, codes), Lists(rows, codes));
  }

  lemma RowOf<R(!new), T(!new)>(rows: seq<R>, l: seq<T>, codes: R -> Option<seq<T>>) returns (row: R)
    requires l in Lists(rows, codes)
    ensures row in rows && codes(row) == Some(l)
  {
    InFilterMap(rows, codes, l);
    var i :| 0 <= i < |rows| && codes(rows[i]) == Some(l);
    row := rows[i];
  }

  lemma UnsafeRowsDiffer<R(!new), T(!new)>(
      rows: seq<R>, codes: R -> Option<seq<T>>, a: T, b: T, l: seq<T>, m: seq<T>,
      cmp: (T, T) -> bool, unit: (T, T) -> bool)
    returns (p: seq<R>, q: seq<R>)
    requires WeakOrder(cmp) && StrictTotal(unit) && RowsSorted(Lists(rows, codes), unit)
    requires l in Lists(rows, codes) && m in Lists(rows, codes)
    requires b in l && a in m && Tied(a, b, cmp) && unit(a, b) && a !in l
    ensures multiset(p) == multiset(rows) && multiset(q) == multiset(rows)
    ensures Classes(Lists(p, codes), cmp) != Classes(Lists(q, codes), cmp)
  {
    var rowL := RowOf(rows, l, codes);
    var rowM := RowOf(rows, m, codes);
    p := FrontList(rows, rowM, codes);
    q := FrontList(rows, rowL, codes);
    InFlatten(Lists(p, codes), b);
    InFlatten(Lists(q, codes), a);
    FrontRowsDiffer(Lists(p, codes), Lists(q, codes), a, b, cmp, unit);
  }

  /** No reordering of the rows shows exactly when every row that lists the larger of two ties lists the smaller. */
  lemma RowOrderHiddenIffTieSafe<R(!new), T(!new)>(
      rows: seq<R>, codes: R -> Option<seq<T>>, cmp: (T, T) -> bool, unit: (T, T) -> bool)
    requires WeakOrder(cmp) && StrictTotal(unit) && RowsSorted(Lists(rows, codes), unit)
    ensures (forall p: seq<R> | multiset(p) == multiset(rows) ::
              Classes(Lists(p, codes), cmp) == Classes(Lists(rows, codes), cmp))
       <==> TieSafe(Lists(rows, codes), cmp, unit)
  {
    var lists := Lists(rows, codes);
    if TieSafe(lists, cmp, unit) {
      forall p: seq<R> | multiset(p) == multiset(rows) ensures Classes(Lists(p, codes), cmp) == Classes(lists, cmp) {
        FilterMapPermutes(rows, p, codes);
        SafeRowsAgree(lists, Lists(p, codes), cmp, unit);
      }
    } else {
      var a, b, l, m :| l in lists && m in lists && b in l && a in m && Tied(a, b, cmp) && unit(a, b) && a !in l;
      var p, q := UnsafeRowsDiffer(rows, codes, a, b, l, m, cmp, unit);
      assert || Classes(Lists(p, codes), cmp) != Classes(lists, cmp)
             || Classes(Lists(q, codes), cmp) != Classes(lists, cmp);
    }
  }
}

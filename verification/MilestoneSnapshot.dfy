/** The milestone scenario snapshot: five joins by identifier sets, and the lineage they compute. */
module MilestoneSnapshot {
  import opened Texts
  import opened Rows
  import ClassOrder
  import Sorting

  /** Identifiers and links may be missing or null. `Set.has` finds each of the three kinds only as itself. */
  datatype Id = Undefined | Null | Given(text: Str)

  datatype Draft = Draft(id: Id, applicantName: Str)
  datatype Review = Review(id: Id, draftId: Id)
  datatype Lock = Lock(id: Id, reviewId: Id)
  datatype Authorization = Authorization(id: Id, lockId: Id)
  datatype Release = Release(id: Id, authorizationId: Id)
  datatype Task = Task(id: Id, releaseId: Id)

  /** Everything the two services hold; the snapshot has the same shape. */
  datatype World = World(
    drafts: seq<Draft>, reviews: seq<Review>, locks: seq<Lock>,
    authorizations: seq<Authorization>, releases: seq<Release>, tasks: seq<Task>)

  function Keep<T>(s: seq<T>, p: T -> bool): seq<T>
    decreases |s|
  {
    if s == [] then [] else if p(s[0]) then [s[0]] + Keep(s[1..], p) else Keep(s[1..], p)
  }

  /** The set of identifiers of the kept records. */
  function Ids<T>(s: seq<T>, id: T -> Id): set<Id>
    decreases |s|
  {
    if s == [] then {} else {id(s[0])} + Ids(s[1..], id)
  }

  /** The children whose link is among the identifiers of the kept parents. */
  function Children<P, C>(parents: seq<P>, id: P -> Id, children: seq<C>, link: C -> Id): seq<C> {
    var ids := Ids(parents, id);
    Keep(children, (c: C) => link(c) in ids)
  }

  function DraftId(d: Draft): Id { d.id }
  function ReviewId(r: Review): Id { r.id }
  function ReviewLink(r: Review): Id { r.draftId }
  function LockId(l: Lock): Id { l.id }
  function LockLink(l: Lock): Id { l.reviewId }
  function AuthorizationId(a: Authorization): Id { a.id }
  function AuthorizationLink(a: Authorization): Id { a.lockId }
  function ReleaseId(r: Release): Id { r.id }
  function ReleaseLink(r: Release): Id { r.authorizationId }
  function TaskLink(t: Task): Id { t.releaseId }

  function Snapshot(w: World, scenario: Str): World {
    var drafts := Keep(w.drafts, (d: Draft) => scenario <= d.applicantName);
    var reviews := Children(drafts, DraftId, w.reviews, ReviewLink);
    var locks := Children(reviews, ReviewId, w.locks, LockLink);
    var authorizations := Children(locks, LockId, w.authorizations, AuthorizationLink);
    var releases := Children(authorizations, AuthorizationId, w.releases, ReleaseLink);
    var tasks := Children(releases, ReleaseId, w.tasks, TaskLink);
    World(drafts, reviews, locks, authorizations, releases, tasks)
  }

  // ---------- one stage ----------

  lemma {:induction false} InKeep<T>(s: seq<T>, p: T -> bool, x: T)
    ensures x in Keep(s, p) <==> x in s && p(x)
    decreases |s|
  {
    if s != [] { InKeep(s[1..], p, x); }
  }

  /** A kept record is kept as often as it occurs. */
  lemma {:induction false} KeepCounts<T>(s: seq<T>, p: T -> bool, x: T)
    ensures multiset(Keep(s, p))[x] == if p(x) then multiset(s)[x] else 0
    decreases |s|
  {
    if s != [] {
      assert s == [s[0]] + s[1..];
      KeepCounts(s[1..], p, x);
    }
  }

  lemma {:induction false} InIds<T>(s: seq<T>, id: T -> Id, i: Id)
    ensures i in Ids(s, id) <==> exists x :: x in s && id(x) == i
    decreases |s|
  {
    if s != [] {
      InIds(s[1..], id, i);
      assert forall x :: x in s <==> x == s[0] || x in s[1..];
      assert s[0] in s;
    }
  }

  lemma InChildren<P, C>(parents: seq<P>, id: P -> Id, children: seq<C>, link: C -> Id, c: C)
    ensures c in Children(parents, id, children, link) <==>
      c in children && exists p :: p in parents && id(p) == link(c)
  {
    var ids := Ids(parents, id);
    InKeep(children, (c: C) => link(c) in ids, c);
    InIds(parents, id, link(c));
  }

  lemma ChildrenCounts<P, C>(parents: seq<P>, id: P -> Id, children: seq<C>, link: C -> Id, c: C)
    ensures c in Children(parents, id, children, link) ==>
      multiset(Children(parents, id, children, link))[c] == multiset(children)[c]
  {
    var ids := Ids(parents, id);
    var p := (c: C) => link(c) in ids;
    InKeep(children, p, c);
    KeepCounts(children, p, c);
  }

  // ---------- lineage ----------

  ghost predicate DraftLinked(w: World, scenario: Str, d: Draft) { d in w.drafts && scenario <= d.applicantName }

  ghost predicate ReviewLinked(w: World, scenario: Str, r: Review) {
    r in w.reviews && exists d: Draft :: d.id == r.draftId && DraftLinked(w, scenario, d)
  }

  ghost predicate LockLinked(w: World, scenario: Str, l: Lock) {
    l in w.locks && exists r: Review :: r.id == l.reviewId && ReviewLinked(w, scenario, r)
  }

  ghost predicate AuthorizationLinked(w: World, scenario: Str, a: Authorization) {
    a in w.authorizations && exists l: Lock :: l.id == a.lockId && LockLinked(w, scenario, l)
  }

  ghost predicate ReleaseLinked(w: World, scenario: Str, e: Release) {
    e in w.releases && exists a: Authorization :: a.id == e.authorizationId && AuthorizationLinked(w, scenario, a)
  }

  ghost predicate TaskLinked(w: World, scenario: Str, t: Task) {
    t in w.tasks && exists e: Release :: e.id == t.releaseId && ReleaseLinked(w, scenario, e)
  }

  lemma EarlyLineage(w: World, scenario: Str)
    ensures forall d :: d in Snapshot(w, scenario).drafts <==> DraftLinked(w, scenario, d)
    ensures forall r :: r in Snapshot(w, scenario).reviews <==> ReviewLinked(w, scenario, r)
    ensures forall l :: l in Snapshot(w, scenario).locks <==> LockLinked(w, scenario, l)
  {
    var s := Snapshot(w, scenario);
    forall d ensures d in s.drafts <==> DraftLinked(w, scenario, d) {
      InKeep(w.drafts, (d: Draft) => scenario <= d.applicantName, d);
    }
    forall r ensures r in s.reviews <==> ReviewLinked(w, scenario, r) {
      InChildren(s.drafts, DraftId, w.reviews, ReviewLink, r);
    }
    forall l ensures l in s.locks <==> LockLinked(w, scenario, l) {
      InChildren(s.reviews, ReviewId, w.locks, LockLink, l);
    }
  }

  lemma LateLineage(w: World, scenario: Str)
    ensures forall a :: a in Snapshot(w, scenario).authorizations <==> AuthorizationLinked(w, scenario, a)
    ensures forall e :: e in Snapshot(w, scenario).releases <==> ReleaseLinked(w, scenario, e)
    ensures forall t :: t in Snapshot(w, scenario).tasks <==> TaskLinked(w, scenario, t)
  {
    var s := Snapshot(w, scenario);
    EarlyLineage(w, scenario);
    forall a ensures a in s.authorizations <==> AuthorizationLinked(w, scenario, a) {
      InChildren(s.locks, LockId, w.authorizations, AuthorizationLink, a);
    }
    forall e ensures e in s.releases <==> ReleaseLinked(w, scenario, e) {
      InChildren(s.authorizations, AuthorizationId, w.releases, ReleaseLink, e);
    }
    forall t ensures t in s.tasks <==> TaskLinked(w, scenario, t) {
      InChildren(s.releases, ReleaseId, w.tasks, TaskLink, t);
    }
  }

  /** A chain of records that links a task to the scenario. */
  ghost predicate Chain(w: World, scenario: Str, d: Draft, r: Review, l: Lock, a: Authorization, e: Release, t: Task) {
    && d in w.drafts && scenario <= d.applicantName
    && r in w.reviews && r.draftId == d.id
    && l in w.locks && l.reviewId == r.id
    && a in w.authorizations && a.lockId == l.id
    && e in w.releases && e.authorizationId == a.id
    && t in w.tasks && t.releaseId == e.id
  }

  lemma TasksKeepCounts(w: World, scenario: Str, t: Task)
    ensures t in Snapshot(w, scenario).tasks ==> multiset(Snapshot(w, scenario).tasks)[t] == multiset(w.tasks)[t]
  {
    ChildrenCounts(Snapshot(w, scenario).releases, ReleaseId, w.tasks, TaskLink, t);
  }

  /** A task is in the snapshot exactly when a whole chain leads from it to the scenario prefix. */
  lemma TaskInSnapshotIffChain(w: World, scenario: Str, t: Task)
    ensures t in Snapshot(w, scenario).tasks <==> exists d, r, l, a, e :: Chain(w, scenario, d, r, l, a, e, t)
    ensures t in Snapshot(w, scenario).tasks ==> multiset(Snapshot(w, scenario).tasks)[t] == multiset(w.tasks)[t]
  {
    LateLineage(w, scenario);
    TasksKeepCounts(w, scenario, t);
    if d, r, l, a, e :| Chain(w, scenario, d, r, l, a, e, t) {
      assert DraftLinked(w, scenario, d) && ReviewLinked(w, scenario, r) && LockLinked(w, scenario, l);
      assert AuthorizationLinked(w, scenario, a) && ReleaseLinked(w, scenario, e);
    }
    if TaskLinked(w, scenario, t) {
      var e: Release :| e.id == t.releaseId && ReleaseLinked(w, scenario, e);
      var a: Authorization :| a.id == e.authorizationId && AuthorizationLinked(w, scenario, a);
      var l: Lock :| l.id == a.lockId && LockLinked(w, scenario, l);
      var r: Review :| r.id == l.reviewId && ReviewLinked(w, scenario, r);
      var d: Draft :| d.id == r.draftId && DraftLinked(w, scenario, d);
      assert Chain(w, scenario, d, r, l, a, e, t);
    }
  }

  /** Every record below the drafts has its parent in the snapshot. */
  lemma ParentsPresent(w: World, scenario: Str)
    ensures var s := Snapshot(w, scenario);
      && (forall r | r in s.reviews :: exists d :: d in s.drafts && d.id == r.draftId)
      && (forall l | l in s.locks :: exists r :: r in s.reviews && r.id == l.reviewId)
      && (forall a | a in s.authorizations :: exists l :: l in s.locks && l.id == a.lockId)
      && (forall e | e in s.releases :: exists a :: a in s.authorizations && a.id == e.authorizationId)
      && (forall t | t in s.tasks :: exists e :: e in s.releases && e.id == t.releaseId)
  {
    EarlyLineage(w, scenario);
    LateLineage(w, scenario);
  }

  // ---------- longer prefixes ----------

  lemma {:induction false} KeepShrinks<T>(s: seq<T>, p: T -> bool, q: T -> bool)
    requires forall x | x in s :: q(x) ==> p(x)
    ensures multiset(Keep(s, q)) <= multiset(Keep(s, p))
    decreases |s|
  {
    if s != [] {
      assert s[0] in s && forall x | x in s[1..] :: x in s;
      KeepShrinks(s[1..], p, q);
    }
  }

  lemma FewerIds<T>(a: seq<T>, b: seq<T>, id: T -> Id)
    requires multiset(a) <= multiset(b)
    ensures Ids(a, id) <= Ids(b, id)
  {
    forall i | i in Ids(a, id) ensures i in Ids(b, id) {
      InIds(a, id, i);
      InIds(b, id, i);
      var x :| x in a && id(x) == i;
      assert x in multiset(a) && x in multiset(b);
    }
  }

  lemma ChildrenShrink<P, C>(a: seq<P>, b: seq<P>, id: P -> Id, children: seq<C>, link: C -> Id)
    requires multiset(a) <= multiset(b)
    ensures multiset(Children(a, id, children, link)) <= multiset(Children(b, id, children, link))
  {
    FewerIds(a, b, id);
    var ia, ib := Ids(a, id), Ids(b, id);
    KeepShrinks(children, (c: C) => link(c) in ib, (c: C) => link(c) in ia);
  }

  /** Lengthening the scenario prefix only removes records, from every collection. */
  lemma LongerPrefixShrinks(w: World, scenario: Str, longer: Str)
    requires scenario <= longer
    ensures var s, s' := Snapshot(w, scenario), Snapshot(w, longer);
      && multiset(s'.drafts) <= multiset(s.drafts) && multiset(s'.reviews) <= multiset(s.reviews)
      && multiset(s'.locks) <= multiset(s.locks) && multiset(s'.authorizations) <= multiset(s.authorizations)
      && multiset(s'.releases) <= multiset(s.releases) && multiset(s'.tasks) <= multiset(s.tasks)
  {
    var s, s' := Snapshot(w, scenario), Snapshot(w, longer);
    KeepShrinks(w.drafts, (d: Draft) => scenario <= d.applicantName, (d: Draft) => longer <= d.applicantName);
    ChildrenShrink(s'.drafts, s.drafts, DraftId, w.reviews, ReviewLink);
    ChildrenShrink(s'.reviews, s.reviews, ReviewId, w.locks, LockLink);
    ChildrenShrink(s'.locks, s.locks, LockId, w.authorizations, AuthorizationLink);
    ChildrenShrink(s'.authorizations, s.authorizations, AuthorizationId, w.releases, ReleaseLink);
    ChildrenShrink(s'.releases, s.releases, ReleaseId, w.tasks, TaskLink);
  }

  // ---------- collections ----------

  datatype Row = Row(id: Str, status: Str, contentHash: Str)
  datatype Collection = Collection(totalCount: nat, activeCount: nat, activeIds: seq<Str>, records: seq<Row>)

  function ActiveId(active: Str -> bool): Row -> Option<Str> {
    (r: Row) => if active(r.status) then Some(r.id) else None
  }

  function ById(idLess: (Str, Str) -> bool): (Row, Row) -> bool { (a: Row, b: Row) => idLess(a.id, b.id) }

  /** Records sorted by identifier, with the sorted identifiers of the active ones. */
  function Collect(rows: seq<Row>, active: Str -> bool, idLess: (Str, Str) -> bool): Collection {
    var records := Sorting.SortBy(rows, ById(idLess));
    var ids := FilterMap(records, ActiveId(active));
    Collection(|records|, |Keep(records, (r: Row) => active(r.status))|, Sorting.SortBy(ids, UnitLess), records)
  }

  lemma {:induction false} ActiveCount(rows: seq<Row>, active: Str -> bool)
    ensures |Keep(rows, (r: Row) => active(r.status))| == |FilterMap(rows, ActiveId(active))|
    decreases |rows|
  {
    if rows != [] { ActiveCount(rows[1..], active); }
  }

  /** The active identifiers: sorted, and exactly those of the active records, one for each. */
  lemma ActiveIdsAre(rows: seq<Row>, active: Str -> bool, idLess: (Str, Str) -> bool)
    ensures var x := Collect(rows, active, idLess);
      && Sorting.Sorted(x.activeIds, UnitLess) && |x.activeIds| == x.activeCount
      && forall id :: id in x.activeIds <==> exists i :: 0 <= i < |rows| && active(rows[i].status) && rows[i].id == id
  {
    var records := Sorting.SortBy(rows, ById(idLess));
    var ids := FilterMap(records, ActiveId(active));
    UnitLessStrictTotal();
    Sorting.StrictTotalIsWeak(UnitLess);
    Sorting.SortBySorted(ids, UnitLess);
    Sorting.SameElements(Sorting.SortBy(ids, UnitLess), ids);
    ActiveCount(records, active);
    Sorting.SameElements(records, rows);
    forall id ensures id in ids <==> exists i :: 0 <= i < |rows| && active(rows[i].status) && rows[i].id == id {
      InFilterMap(records, ActiveId(active), id);
      if i :| 0 <= i < |records| && ActiveId(active)(records[i]) == Some(id) { assert records[i] in rows; }
      if i :| 0 <= i < |rows| && active(rows[i].status) && rows[i].id == id {
        assert rows[i] in records;
        var j :| 0 <= j < |records| && records[j] == rows[i];
        assert ActiveId(active)(records[j]) == Some(id);
      }
    }
  }

  /** The counts and the active identifiers do not depend on the order in which the services list their records. */
  lemma CollectionIgnoresOrder(a: seq<Row>, b: seq<Row>, active: Str -> bool, idLess: (Str, Str) -> bool)
    requires multiset(a) == multiset(b)
    ensures var x, y := Collect(a, active, idLess), Collect(b, active, idLess);
      && x.totalCount == y.totalCount == |a| && x.activeCount == y.activeCount == |x.activeIds|
      && x.activeIds == y.activeIds && multiset(x.records) == multiset(a)
  {
    var less := ById(idLess);
    var ra, rb := Sorting.SortBy(a, less), Sorting.SortBy(b, less);
    Sorting.SameElements(ra, a);
    Sorting.SameElements(rb, b);
    Sorting.SameElements(a, b);
    FilterMapPermutes(ra, rb, ActiveId(active));
    var ia, ib := FilterMap(ra, ActiveId(active)), FilterMap(rb, ActiveId(active));
    Sorting.SameElements(ia, ib);
    Sorting.SameElements(Sorting.SortBy(ia, UnitLess), ia);
    ActiveCount(ra, active);
    ActiveCount(rb, active);
    UnitLessStrictTotal();
    Sorting.SortByAgreesIffSameMultiset(ia, ib, UnitLess);
  }

  // ---------- the order of the records ----------

  predicate Ties<T>(a: T, b: T, less: (T, T) -> bool) { !less(a, b) && !less(b, a) }

  /** Two records whose identifiers are the two spellings of one letter come out in the order they came in. */
  lemma TiedRecordsShow(active: Str -> bool, idLess: (Str, Str) -> bool, status: Str, contentHash: Str)
    requires Tied(COMPOSED, DECOMPOSED, idLess)
    ensures var a, b := Row(COMPOSED, status, contentHash), Row(DECOMPOSED, status, contentHash);
      && Collect([a, b], active, idLess).records == [a, b] && Collect([b, a], active, idLess).records == [b, a]
      && Collect([a, b], active, idLess) != Collect([b, a], active, idLess)
  {
    var a, b := Row(COMPOSED, status, contentHash), Row(DECOMPOSED, status, contentHash);
    SortsTiedPair(a, b, ById(idLess));
    SortsTiedPair(b, a, ById(idLess));
    assert [a, b][0] != [b, a][0];
  }

  lemma SortsTiedPair<T>(a: T, b: T, less: (T, T) -> bool)
    requires !less(b, a)
    ensures Sorting.SortBy([a, b], less) == [a, b]
  {
    assert [a, b][1..] == [b];
    assert Sorting.SortBy([b], less) == [b];
  }

  lemma {:induction false} InsertKeepsGroup<T(!new)>(x: T, t: seq<T>, k: T, less: (T, T) -> bool)
    requires Sorting.WeakOrder(less)
    ensures var group := (y: T) => Ties(y, k, less);
      Keep(Sorting.InsertBefore(x, t, less), group) == Keep([x] + t, group)
    decreases |t|
  {
    var group := (y: T) => Ties(y, k, less);
    assert ([x] + t)[1..] == t;
    if t != [] && less(t[0], x) {
      var tail := Sorting.InsertBefore(x, t[1..], less);
      InsertKeepsGroup(x, t[1..], k, less);
      assert ([t[0]] + tail)[1..] == tail && ([x] + t[1..])[1..] == t[1..];
      assert !group(t[0]) || !group(x);
    }
  }

  /** A stable sort keeps the order among the elements that tie with a given one. */
  lemma {:induction false} SortKeepsGroup<T(!new)>(s: seq<T>, k: T, less: (T, T) -> bool)
    requires Sorting.WeakOrder(less)
    ensures var group := (y: T) => Ties(y, k, less); Keep(Sorting.SortBy(s, less), group) == Keep(s, group)
    decreases |s|
  {
    if s != [] {
      var sorted := Sorting.SortBy(s[1..], less);
      SortKeepsGroup(s[1..], k, less);
      InsertKeepsGroup(s[0], sorted, k, less);
      assert ([s[0]] + sorted)[1..] == sorted;
    }
  }

  lemma FirstOfTies<T(!new)>(s: seq<T>, t: seq<T>, less: (T, T) -> bool)
    requires Sorting.WeakOrder(less) && s != [] && t != [] && s[0] != t[0] && Ties(s[0], t[0], less)
    ensures Sorting.SortBy(s, less) != Sorting.SortBy(t, less)
  {
    var group := (y: T) => Ties(y, s[0], less);
    SortKeepsGroup(s, s[0], less);
    SortKeepsGroup(t, s[0], less);
    assert Keep(s, group)[0] == s[0] && Keep(t, group)[0] == t[0];
  }

  lemma TiesShow<T(!new)>(s: seq<T>, x: T, y: T, less: (T, T) -> bool) returns (r: seq<T>)
    requires Sorting.WeakOrder(less) && x in s && y in s && x != y && Ties(x, y, less)
    ensures multiset(r) == multiset(s) && Sorting.SortBy(r, less) != Sorting.SortBy(s, less)
  {
    var p := ClassOrder.MoveToFront(s, x);
    var q := ClassOrder.MoveToFront(s, y);
    FirstOfTies(p, q, less);
    r := if Sorting.SortBy(p, less) != Sorting.SortBy(s, less) then p else q;
  }

  lemma ByIdIsWeak(idLess: (Str, Str) -> bool)
    requires Sorting.WeakOrder(idLess)
    ensures Sorting.WeakOrder(ById(idLess))
  {
    var less := ById(idLess);
    forall a ensures !less(a, a) { assert !idLess(a.id, a.id); }
    forall a, b, c | less(a, b) && less(b, c) ensures less(a, c) {
      assert idLess(a.id, b.id) && idLess(b.id, c.id);
    }
    forall a, b, c | !less(a, b) && !less(b, c) ensures !less(a, c) {
      assert !idLess(a.id, b.id) && !idLess(b.id, c.id);
    }
  }

  /** The whole collection, its records included, hides the order of arrival exactly when no two different records
      have identifiers that tie. */
  lemma CollectionOrderHiddenIff(a: seq<Row>, active: Str -> bool, idLess: (Str, Str) -> bool)
    requires Sorting.WeakOrder(idLess)
    ensures (forall b | multiset(b) == multiset(a) :: Collect(b, active, idLess) == Collect(a, active, idLess))
       <==> Sorting.Separated(a, ById(idLess))
  {
    var less := ById(idLess);
    ByIdIsWeak(idLess);
    if Sorting.Separated(a, less) {
      forall b | multiset(b) == multiset(a) ensures Collect(b, active, idLess) == Collect(a, active, idLess) {
        SeparatedRecordsAgree(a, b, idLess);
      }
    } else {
      var x, y :| x in a && y in a && x != y && !less(x, y) && !less(y, x);
      var b := TiesShow(a, x, y, less);
      assert Collect(b, active, idLess).records != Collect(a, active, idLess).records;
    }
  }

  lemma SeparatedRecordsAgree(a: seq<Row>, b: seq<Row>, idLess: (Str, Str) -> bool)
    requires Sorting.WeakOrder(idLess) && Sorting.Separated(a, ById(idLess)) && multiset(b) == multiset(a)
    ensures Sorting.SortBy(b, ById(idLess)) == Sorting.SortBy(a, ById(idLess))
  {
    ByIdIsWeak(idLess);
    SeparatedSortsAgree(a, b, ById(idLess));
  }

  lemma SeparatedSortsAgree<T(!new)>(a: seq<T>, b: seq<T>, less: (T, T) -> bool)
    requires Sorting.WeakOrder(less) && Sorting.Separated(a, less) && multiset(b) == multiset(a)
    ensures Sorting.SortBy(b, less) == Sorting.SortBy(a, less)
  {
    Sorting.SortBySorted(a, less);
    Sorting.SortBySorted(b, less);
    Sorting.SameElements(Sorting.SortBy(a, less), a);
    Sorting.SortedUnique(Sorting.SortBy(a, less), Sorting.SortBy(b, less), less);
  }
}

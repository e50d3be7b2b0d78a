/** What the mapped facts say, and what each of them cites, in the terms of the rows. */
module FactsContent {
  import opened Texts
  import opened TextOps
  import opened Json
  import opened IsoTime
  import opened Rows
  import opened TrademarkFacts
  import ClassOrder
  import LatestObserved
  import Sorting

  /** The trimmed text of a column that holds a text which is not blank. */
  function Column(row: Fields, key: string): Option<Str> {
    match Lookup(row, S(key))
    case Some(Text(t)) => if Trim(t) == [] then None else Some(Trim(t))
    case _ => None
  }

  // ---------- what a contribution cites ----------

  /** The printed instant at which a row was ingested. */
  function Ingested(row: Fields, p: Platform): Option<Str> {
    var text := Column(row, "ingested_at");
    if text.None? || p.dateParse(text.value).None? then None else Some(ToIso(p.dateParse(text.value).value))
  }

  function IngestedAt(p: Platform): Fields -> Option<Str> { (row: Fields) => Ingested(row, p) }

  /** The text of one of the rows that the text of no row exceeds. */
  ghost predicate LastText<T(!new)>(at: Str, rows: seq<T>, text: T -> Option<Str>) {
    && (exists i :: 0 <= i < |rows| && text(rows[i]) == Some(at))
    && forall i, x | 0 <= i < |rows| && text(rows[i]) == Some(x) :: !UnitLess(at, x)
  }

  /** The last of the printed instants of the rows. */
  ghost predicate LastIngested(at: Str, rows: seq<Fields>, p: Platform) { LastText(at, rows, IngestedAt(p)) }

  /** The record hash of a row, or else the hash of its source row. */
  function RowHash(row: Fields): Option<Str> {
    if Column(row, "record_hash").Some? then Column(row, "record_hash") else Column(row, "source_row_hash")
  }

  /** The digest of the sorted row hashes, joined by bars; none when no row has a hash. */
  ghost predicate DigestOfRows(digest: Option<Str>, rows: seq<Fields>, p: Platform) {
    var hashes := FilterMap(rows, RowHash);
    if hashes == [] then digest.None?
    else
      exists sorted: seq<Str> ::
        && multiset(sorted) == multiset(hashes) && Sorting.Sorted(sorted, UnitLess)
        && digest == Some(p.hash(Join(sorted, [0x7C])))
  }

  /** The engine, and the first sixteen digits of the digest behind a colon. */
  ghost predicate VersionOf(version: Str, engine: Str, digest: Option<Str>) {
    match digest
    case None => version == engine
    case Some(d) => version == engine + [0x3A] + if |d| > 16 then d[..16] else d
  }

  ghost predicate Cites(s: Source, id: Str, engine: Str, rows: seq<Fields>, p: Platform) {
    && s.sourceId == id && LastIngested(s.observedAt, rows, p) && DigestOfRows(s.fingerprint, rows, p)
    && VersionOf(s.sourceVersion, engine, s.fingerprint)
  }

  // ---------- what a contribution says ----------

  ghost predicate SaysColumn(c: Contribution, row: Fields, key: string) {
    Column(row, key).Some? && c.value == One(Column(row, key).value)
  }

  /** The names of the owner rows: each once, in increasing order. */
  ghost predicate SaysOwners(c: Contribution, owners: seq<Fields>) {
    && c.value.Many? && c.value.texts != [] && StrictlyIncreasing(c.value.texts, UnitLess)
    && forall x :: x in c.value.texts <==> exists i :: 0 <= i < |owners| && Column(owners[i], "party_name") == Some(x)
  }

  /** A code that the row lists, trimmed and not blank. */
  ghost predicate ListsCode(row: Fields, x: Str) {
    match Lookup(row, S("international_codes"))
    case Some(Arr(items)) => x != [] && exists t: Str :: Text(t) in ItemSeq(items) && x == Trim(t)
    case _ => false
  }

  /** The codes of the classification rows: each once, sorted by the comparator, ties in the order of the rows. */
  ghost predicate SaysCodes(c: Contribution, rows: seq<Fields>, p: Platform) {
    && c.value.Many? && c.value.texts != []
    && NoDuplicates(c.value.texts) && Sorting.Sorted(c.value.texts, p.codeLess)
    && (forall x :: x in c.value.texts <==> exists i :: 0 <= i < |rows| && ListsCode(rows[i], x))
    && c.value.texts == UsClasses(rows, p)
  }

  /** Numerals of increasing integers. */
  ghost predicate Rising(texts: seq<Str>, p: Platform) {
    forall i, j | 0 <= i < j < |texts| ::
      && p.integer(texts[i]).Some? && p.integer(texts[j]).Some?
      && p.integer(texts[i]).value < p.integer(texts[j]).value
  }

  /** The positive integers of the `classes` array: each once, in increasing order. */
  ghost predicate SaysNumbers(c: Contribution, row: Fields, p: Platform) {
    && c.value.Many? && c.value.texts != [] && Rising(c.value.texts, p)
    && match Lookup(row, S("classes"))
       case Some(Arr(items)) =>
         forall x :: x in c.value.texts <==>
           Num(x) in ItemSeq(items) && p.integer(x).Some? && p.integer(x).value > 0
       case _ => false
  }

  ghost predicate ChineseFact(c: Contribution, engine: Str, row: Fields, number: Str, p: Platform) {
    && Cites(c.source, S("CN:") + number, engine, [row], p)
    && match c.kind
       case APPLICATION_DATE => c.consequential && SaysColumn(c, row, "filing_date")
       case NICE_CLASSES => !c.consequential && SaysNumbers(c, row, p)
       case _ => false
  }

  ghost predicate CaseFact(c: Contribution, key: string, engine: Str, row: Fields, serial: Str, p: Platform) {
    c.consequential && SaysColumn(c, row, key) && Cites(c.source, S("US:") + serial + S(":case"), engine, [row], p)
  }

  ghost predicate AmericanFact(
      c: Contribution, engine: Str, row: Fields, serial: Str, owners: seq<Fields>, classes: seq<Fields>, p: Platform)
  {
    match c.kind
    case APPLICATION_STATUS => CaseFact(c, "status_code", engine, row, serial, p)
    case APPLICATION_DATE => CaseFact(c, "filing_date", engine, row, serial, p)
    case REGISTRATION_DATE => CaseFact(c, "registration_date", engine, row, serial, p)
    case RENEWAL_DATE => CaseFact(c, "renewal_date", engine, row, serial, p)
    case OWNER_NAME =>
      c.consequential && SaysOwners(c, owners) && Cites(c.source, S("US:") + serial + S(":owners"), engine, owners, p)
    case NICE_CLASSES =>
      && !c.consequential && SaysCodes(c, classes, p)
      && Cites(c.source, S("US:") + serial + S(":classes"), engine, classes, p)
  }

  /** The contributions that an envelope supports. */
  ghost predicate Supported(c: Contribution, e: Envelope, p: Platform) {
    && e.factState == S("observed") && e.resourceKind == S("TRADEMARK_CASE") && e.caseRow.Some?
    && var row := e.caseRow.value;
       if e.jurisdiction == S("CN") then
         Column(row, "application_number").Some?
         && ChineseFact(c, e.engine, row, Column(row, "application_number").value, p)
       else
         Column(row, "serial_number").Some?
         && AmericanFact(c, e.engine, row, Column(row, "serial_number").value,
                         Records(e.owners), Records(e.classifications), p)
  }

  /** The order in which the kinds are listed. */
  function Rank(k: Kind): nat {
    match k
    case APPLICATION_STATUS => 0
    case APPLICATION_DATE => 1
    case REGISTRATION_DATE => 2
    case RENEWAL_DATE => 3
    case OWNER_NAME => 4
    case NICE_CLASSES => 5
  }

  // ---------- the sources ----------

  lemma ColumnIsText(row: Fields, key: string)
    ensures NonEmptyString(Lookup(row, S(key))) == Column(row, key)
  {
  }

  lemma StampIsIngested(row: Fields, p: Platform)
    ensures StampOf(p, ToIso)(row) == Ingested(row, p)
  {
    ColumnIsText(row, "ingested_at");
    var text := Column(row, "ingested_at");
    assert InstantOf(p)(row) == if text.Some? then p.dateParse(text.value) else None;
  }

  lemma HashIsRowHash(row: Fields)
    ensures HashOf(row) == RowHash(row)
  {
    ColumnIsText(row, "record_hash");
    ColumnIsText(row, "source_row_hash");
  }

  lemma {:induction false} SameFilter<T, U>(s: seq<T>, f: T -> Option<U>, g: T -> Option<U>)
    requires forall x :: f(x) == g(x)
    ensures FilterMap(s, f) == FilterMap(s, g)
    decreases |s|
  {
    if s != [] { SameFilter(s[1..], f, g); }
  }

  lemma DigestIs(rows: seq<Fields>, p: Platform, digest: Option<Str>)
    ensures Fingerprint(rows, p) == digest <==> DigestOfRows(digest, rows, p)
  {
    forall row ensures HashOf(row) == RowHash(row) { HashIsRowHash(row); }
    SameFilter(rows, HashOf, RowHash);
    var hashes := FilterMap(rows, RowHash);
    var sorted := Sorting.SortBy(hashes, UnitLess);
    UnitLessStrictTotal();
    Sorting.StrictTotalIsWeak(UnitLess);
    Sorting.SortBySorted(hashes, UnitLess);
    Sorting.SameElements(sorted, hashes);
    forall other: seq<Str> | multiset(other) == multiset(hashes) && Sorting.Sorted(other, UnitLess)
      ensures other == sorted
    {
      Sorting.SortedUnique(other, sorted, UnitLess);
    }
  }

  lemma LastOfTexts(texts: seq<Str>, at: Str)
    requires texts != []
    ensures Sorting.SortBy(texts, UnitLess) != []
    ensures Sorting.SortBy(texts, UnitLess)[|Sorting.SortBy(texts, UnitLess)| - 1] == at
       <==> at in texts && forall x | x in texts :: !UnitLess(at, x)
  {
    var i := LatestObserved.LastText(texts);
    assert texts[i] in texts;
    if at in texts && forall x | x in texts :: !UnitLess(at, x) { UnitLessConnected(at, texts[i]); }
  }

  lemma LastAmongTexts<T(!new)>(at: Str, rows: seq<T>, text: T -> Option<Str>)
    ensures at in FilterMap(rows, text) && (forall x | x in FilterMap(rows, text) :: !UnitLess(at, x))
       <==> LastText(at, rows, text)
  {
    var texts := FilterMap(rows, text);
    forall x ensures x in texts <==> exists i :: 0 <= i < |rows| && text(rows[i]) == Some(x) {
      InFilterMap(rows, text, x);
    }
    if LastText(at, rows, text) {
      forall x | x in texts ensures !UnitLess(at, x) {
        var i :| 0 <= i < |rows| && text(rows[i]) == Some(x);
      }
    }
    if at in texts && (forall x | x in texts :: !UnitLess(at, x)) {
      forall i, x | 0 <= i < |rows| && text(rows[i]) == Some(x) ensures !UnitLess(at, x) { assert x in texts; }
    }
  }

  lemma StampsAreIngested(rows: seq<Fields>, p: Platform)
    ensures FilterMap(rows, StampOf(p, ToIso)) == FilterMap(rows, IngestedAt(p))
  {
    forall row ensures StampOf(p, ToIso)(row) == IngestedAt(p)(row) { StampIsIngested(row, p); }
    SameFilter(rows, StampOf(p, ToIso), IngestedAt(p));
  }

  lemma LatestIs(rows: seq<Fields>, p: Platform, at: Str)
    ensures LatestObservedAt(rows, p) == Some(at) <==> LastIngested(at, rows, p)
  {
    var texts := FilterMap(rows, IngestedAt(p));
    StampsAreIngested(rows, p);
    LastAmongTexts(at, rows, IngestedAt(p));
    if texts != [] { LastOfTexts(texts, at); }
  }

  lemma SourceIs(engine: Str, id: Str, rows: seq<Fields>, p: Platform, s: Source)
    ensures SourceReference(engine, id, rows, p) == Some(s) <==> Cites(s, id, engine, rows, p)
  {
    LatestIs(rows, p, s.observedAt);
    DigestIs(rows, p, s.fingerprint);
  }

  // ---------- the values ----------

  lemma SaysOwnersIff(c: Contribution, owners: seq<Fields>)
    ensures c.value == Many(OwnerNames(owners)) && OwnerNames(owners) != [] <==> SaysOwners(c, owners)
  {
    OwnersAre(owners);
    if SaysOwners(c, owners) { SameIncreasing(c.value.texts, OwnerNames(owners)); }
  }

  lemma OwnersAre(owners: seq<Fields>)
    ensures StrictlyIncreasing(OwnerNames(owners), UnitLess)
    ensures forall x :: x in OwnerNames(owners) <==>
      exists i :: 0 <= i < |owners| && Column(owners[i], "party_name") == Some(x)
  {
    OwnerNamesIncrease(owners);
    forall x
      ensures x in OwnerNames(owners) <==> exists i :: 0 <= i < |owners| && Column(owners[i], "party_name") == Some(x)
    {
      forall i | 0 <= i < |owners| ensures NameOf(owners[i]) == Column(owners[i], "party_name") {
        ColumnIsText(owners[i], "party_name");
      }
    }
  }

  lemma SameIncreasing(a: seq<Str>, b: seq<Str>)
    requires StrictlyIncreasing(a, UnitLess) && StrictlyIncreasing(b, UnitLess) && forall x :: x in a <==> x in b
    ensures a == b
  {
    UnitLessStrictTotal();
    IncreasingIsSorted(a);
    IncreasingIsSorted(b);
    SameSetSameMultiset(a, b);
    Sorting.SortedUnique(a, b, UnitLess);
  }

  lemma IncreasingIsSorted(a: seq<Str>)
    requires StrictlyIncreasing(a, UnitLess)
    ensures NoDuplicates(a) && Sorting.Sorted(a, UnitLess)
  {
    forall i, j | 0 <= i < j < |a| ensures a[i] != a[j] && !UnitLess(a[j], a[i]) {
      UnitLessAsymmetric(a[i], a[j]);
      UnitLessIrreflexive(a[i]);
    }
  }

  lemma CodesAre(rows: seq<Fields>, p: Platform)
    requires Standard(p)
    ensures NoDuplicates(UsClasses(rows, p)) && Sorting.Sorted(UsClasses(rows, p), p.codeLess)
    ensures forall x :: x in UsClasses(rows, p) <==> exists i :: 0 <= i < |rows| && ListsCode(rows[i], x)
  {
    var lists := ClassOrder.Lists(rows, CodesOf);
    SortedSetHolds(ClassOrder.Flatten(lists), p.codeLess);
    forall x ensures x in UsClasses(rows, p) <==> exists i :: 0 <= i < |rows| && ListsCode(rows[i], x) {
      ClassOrder.InFlatten(lists, x);
      CodeIsListed(rows, x);
    }
  }

  lemma CodeIsListed(rows: seq<Fields>, x: Str)
    ensures (exists l :: l in ClassOrder.Lists(rows, CodesOf) && x in l)
       <==> exists i :: 0 <= i < |rows| && ListsCode(rows[i], x)
  {
    if l :| l in ClassOrder.Lists(rows, CodesOf) && x in l {
      InFilterMap(rows, CodesOf, l);
      var i :| 0 <= i < |rows| && CodesOf(rows[i]) == Some(l);
      RowListsCode(rows[i], x);
    }
    if i :| 0 <= i < |rows| && ListsCode(rows[i], x) {
      RowListsCode(rows[i], x);
      InFilterMap(rows, CodesOf, CodesOf(rows[i]).value);
      assert CodesOf(rows[i]).value in ClassOrder.Lists(rows, CodesOf);
    }
  }

  lemma UniqueStringsHave(values: seq<Json>, x: Str)
    ensures x in UniqueStrings(values) <==> x != [] && exists t: Str :: Text(t) in values && x == Trim(t)
  {
    UniqueStringsIncrease(values);
    if x in UniqueStrings(values) {
      var i :| 0 <= i < |values| && TextOf(values[i]) == Some(x);
      assert values[i] in values && values[i] == Text(values[i].text);
    }
    if t: Str :| Text(t) in values && x == Trim(t) && x != [] {
      var i :| 0 <= i < |values| && values[i] == Text(t);
      assert TextOf(values[i]) == Some(x);
    }
  }

  lemma RowListsCode(row: Fields, x: Str)
    ensures CodesOf(row).Some? && x in CodesOf(row).value <==> ListsCode(row, x)
  {
    match Lookup(row, S("international_codes"))
    case Some(Arr(items)) => UniqueStringsHave(ItemSeq(items), x);
    case _ =>
  }

  lemma SaysCodesIff(c: Contribution, rows: seq<Fields>, p: Platform)
    requires Standard(p)
    ensures c.value == Many(UsClasses(rows, p)) && UsClasses(rows, p) != [] <==> SaysCodes(c, rows, p)
  {
    CodesAre(rows, p);
  }

  lemma SaysNumbersIff(c: Contribution, row: Fields, p: Platform)
    requires Standard(p)
    ensures var n := NumericClasses(Lookup(row, S("classes")), p);
      c.value == Many(n) && n != [] <==> SaysNumbers(c, row, p)
  {
    match Lookup(row, S("classes"))
    case Some(Arr(items)) =>
      NumericClassesIncrease(items, p);
      if c.value.Many? { OnlyNumbers(c.value.texts, items, p); }
    case _ =>
  }

  /** The positive integers of a list, increasing: there is one such sequence. */
  lemma OnlyNumbers(texts: seq<Str>, items: Items, p: Platform)
    requires Standard(p)
    ensures && Rising(texts, p)
            && (forall x :: x in texts <==> Num(x) in ItemSeq(items) && p.integer(x).Some? && p.integer(x).value > 0)
       <==> texts == NumericClasses(Some(Arr(items)), p)
  {
    NumericClassesIncrease(items, p);
    var n := NumericClasses(Some(Arr(items)), p);
    forall i | 0 <= i < |n| ensures p.integer(n[i]).Some? { assert n[i] in n; }
    if && Rising(texts, p)
       && forall x :: x in texts <==> Num(x) in ItemSeq(items) && p.integer(x).Some? && p.integer(x).value > 0
    {
      forall x ensures x in texts <==> x in n {}
      SameIncreasingNumbers(texts, n, p);
    }
  }

  lemma SameIncreasingNumbers(a: seq<Str>, b: seq<Str>, p: Platform)
    requires StrictlyIncreasing(a, NumericLess(p)) && StrictlyIncreasing(b, NumericLess(p))
    requires forall x :: x in a <==> x in b
    requires forall x | x in a :: p.integer(x).Some?
    requires Standard(p)
    ensures a == b
  {
    IntegersNeverTie(a, p);
    assert NoDuplicates(a) && NoDuplicates(b);
    assert Sorting.Sorted(a, NumericLess(p)) && Sorting.Sorted(b, NumericLess(p));
    SameSetSameMultiset(a, b);
    Sorting.SortedUnique(a, b, NumericLess(p));
  }

  // ---------- the contributions ----------

  lemma ContributeHas(
      c: Contribution, kind: Kind, value: Option<TrademarkFacts.Value>, source: Option<Source>, consequential: bool)
    ensures c in Contribute(kind, value, source, consequential) <==>
      && c.kind == kind && c.consequential == consequential
      && value == Some(c.value) && c.value != Many([]) && source == Some(c.source)
  {
  }

  lemma TextFieldIs(row: Fields, key: string, c: Contribution)
    ensures TextField(row, S(key)) == Some(c.value) <==> SaysColumn(c, row, key)
  {
    ColumnIsText(row, key);
  }

  lemma CaseFactIs(c: Contribution, kind: Kind, key: string, engine: Str, row: Fields, serial: Str, p: Platform)
    ensures c in Contribute(kind, TextField(row, S(key)),
                            SourceReference(engine, S("US:") + serial + S(":case"), [row], p), true)
       <==> c.kind == kind && CaseFact(c, key, engine, row, serial, p)
  {
    var id := S("US:") + serial + S(":case");
    ContributeHas(c, kind, TextField(row, S(key)), SourceReference(engine, id, [row], p), true);
    TextFieldIs(row, key, c);
    SourceIs(engine, id, [row], p, c.source);
  }

  lemma CaseFactsAre(c: Contribution, engine: Str, row: Fields, serial: Str, p: Platform)
    ensures c in CaseFacts(row, SourceReference(engine, S("US:") + serial + S(":case"), [row], p)) <==>
      || (c.kind == APPLICATION_STATUS && CaseFact(c, "status_code", engine, row, serial, p))
      || (c.kind == APPLICATION_DATE && CaseFact(c, "filing_date", engine, row, serial, p))
      || (c.kind == REGISTRATION_DATE && CaseFact(c, "registration_date", engine, row, serial, p))
      || (c.kind == RENEWAL_DATE && CaseFact(c, "renewal_date", engine, row, serial, p))
  {
    CaseFactIs(c, APPLICATION_STATUS, "status_code", engine, row, serial, p);
    CaseFactIs(c, APPLICATION_DATE, "filing_date", engine, row, serial, p);
    CaseFactIs(c, REGISTRATION_DATE, "registration_date", engine, row, serial, p);
    CaseFactIs(c, RENEWAL_DATE, "renewal_date", engine, row, serial, p);
  }

  lemma OwnerFactsAre(c: Contribution, engine: Str, id: Str, owners: seq<Fields>, p: Platform)
    ensures c in OwnerFacts(engine, id, owners, p) <==>
      c.kind == OWNER_NAME && c.consequential && SaysOwners(c, owners) && Cites(c.source, id, engine, owners, p)
  {
    ContributeHas(c, OWNER_NAME, Some(Many(OwnerNames(owners))), SourceReference(engine, id, owners, p), true);
    SaysOwnersIff(c, owners);
    SourceIs(engine, id, owners, p, c.source);
  }

  lemma ClassFactsAre(c: Contribution, engine: Str, id: Str, classes: seq<Fields>, p: Platform)
    requires Standard(p)
    ensures c in ClassFacts(engine, id, classes, p) <==>
      c.kind == NICE_CLASSES && !c.consequential && SaysCodes(c, classes, p) && Cites(c.source, id, engine, classes, p)
  {
    ContributeHas(c, NICE_CLASSES, Some(Many(UsClasses(classes, p))), SourceReference(engine, id, classes, p), false);
    SaysCodesIff(c, classes, p);
    SourceIs(engine, id, classes, p, c.source);
  }

  lemma AmericanFactsAre(
      c: Contribution, engine: Str, row: Fields, serial: Str, owners: seq<Fields>, classes: seq<Fields>, p: Platform)
    requires Standard(p) && Column(row, "serial_number") == Some(serial)
    ensures c in UsFacts(engine, row, owners, classes, p) <==> AmericanFact(c, engine, row, serial, owners, classes, p)
  {
    ColumnIsText(row, "serial_number");
    CaseFactsAre(c, engine, row, serial, p);
    OwnerFactsAre(c, engine, S("US:") + serial + S(":owners"), owners, p);
    ClassFactsAre(c, engine, S("US:") + serial + S(":classes"), classes, p);
  }

  lemma ChineseDateIs(c: Contribution, engine: Str, id: Str, row: Fields, p: Platform)
    ensures c in Contribute(APPLICATION_DATE, TextField(row, S("filing_date")),
                            SourceReference(engine, id, [row], p), true) <==>
      c.kind == APPLICATION_DATE && c.consequential && SaysColumn(c, row, "filing_date")
      && Cites(c.source, id, engine, [row], p)
  {
    ContributeHas(c, APPLICATION_DATE, TextField(row, S("filing_date")), SourceReference(engine, id, [row], p), true);
    TextFieldIs(row, "filing_date", c);
    SourceIs(engine, id, [row], p, c.source);
  }

  lemma ChineseClassesAre(c: Contribution, engine: Str, id: Str, row: Fields, p: Platform)
    requires Standard(p)
    ensures c in Contribute(NICE_CLASSES, Some(Many(NumericClasses(Lookup(row, S("classes")), p))),
                            SourceReference(engine, id, [row], p), false) <==>
      c.kind == NICE_CLASSES && !c.consequential && SaysNumbers(c, row, p) && Cites(c.source, id, engine, [row], p)
  {
    var n := NumericClasses(Lookup(row, S("classes")), p);
    ContributeHas(c, NICE_CLASSES, Some(Many(n)), SourceReference(engine, id, [row], p), false);
    SaysNumbersIff(c, row, p);
    SourceIs(engine, id, [row], p, c.source);
  }

  lemma ChineseFactsAre(c: Contribution, engine: Str, row: Fields, number: Str, p: Platform)
    requires Standard(p) && Column(row, "application_number") == Some(number)
    ensures c in CnFacts(engine, row, p) <==> ChineseFact(c, engine, row, number, p)
  {
    ColumnIsText(row, "application_number");
    ChineseDateIs(c, engine, S("CN:") + number, row, p);
    ChineseClassesAre(c, engine, S("CN:") + number, row, p);
  }

  /** The mapped facts are exactly the supported contributions. */
  lemma MappedFactsAre(e: Envelope, p: Platform)
    requires Standard(p)
    ensures forall c :: c in MapFacts(e, p) <==> Supported(c, e, p)
  {
    forall c ensures c in MapFacts(e, p) <==> Supported(c, e, p) {
      if ObservedCase(e) && e.caseRow.Some? {
        var row := e.caseRow.value;
        ColumnIsText(row, "application_number");
        ColumnIsText(row, "serial_number");
        if Chinese(e) {
          if Column(row, "application_number").Some? {
            ChineseFactsAre(c, e.engine, row, Column(row, "application_number").value, p);
          }
        } else if Column(row, "serial_number").Some? {
          AmericanFactsAre(c, e.engine, row, Column(row, "serial_number").value,
                           Records(e.owners), Records(e.classifications), p);
        }
      }
    }
  }

  ghost predicate InOrder(facts: seq<Contribution>) {
    forall i, j | 0 <= i < j < |facts| :: Rank(facts[i].kind) < Rank(facts[j].kind)
  }

  lemma AppendInOrder(a: seq<Contribution>, b: seq<Contribution>, n: nat)
    requires InOrder(a) && InOrder(b)
    requires (forall c | c in a :: Rank(c.kind) <= n) && forall c | c in b :: Rank(c.kind) > n
    ensures InOrder(a + b)
  {
    forall i, j | 0 <= i < j < |a + b| ensures Rank((a + b)[i].kind) < Rank((a + b)[j].kind) {
      if i < |a| { assert a[i] in a; }
      if j >= |a| { assert b[j - |a|] in b; }
    }
  }

  lemma CaseFactsInOrder(row: Fields, source: Option<Source>)
    ensures InOrder(CaseFacts(row, source)) && forall c | c in CaseFacts(row, source) :: Rank(c.kind) <= 3
  {
    var a := Contribute(APPLICATION_STATUS, TextField(row, S("status_code")), source, true);
    var b := Contribute(APPLICATION_DATE, TextField(row, S("filing_date")), source, true);
    var c := Contribute(REGISTRATION_DATE, TextField(row, S("registration_date")), source, true);
    var d := Contribute(RENEWAL_DATE, TextField(row, S("renewal_date")), source, true);
    AppendInOrder(a, b, 0);
    AppendInOrder(a + b, c, 1);
    AppendInOrder(a + b + c, d, 2);
  }

  lemma ContributeOne(kind: Kind, value: Option<TrademarkFacts.Value>, source: Option<Source>, consequential: bool)
    ensures var r := Contribute(kind, value, source, consequential);
      InOrder(r) && forall c | c in r :: c.kind == kind
  {
  }

  lemma AmericanInOrder(engine: Str, row: Fields, owners: seq<Fields>, classes: seq<Fields>, p: Platform)
    ensures InOrder(UsFacts(engine, row, owners, classes, p))
  {
    var serial := NonEmptyString(Lookup(row, S("serial_number")));
    if serial.Some? {
      var id := S("US:") + serial.value;
      var a := SourceReference(engine, id + S(":case"), [row], p);
      var b := SourceReference(engine, id + S(":owners"), owners, p);
      var c := SourceReference(engine, id + S(":classes"), classes, p);
      CaseFactsInOrder(row, a);
      ThreeInOrder(row, a, Some(Many(OwnerNames(owners))), b, Some(Many(UsClasses(classes, p))), c);
    }
  }

  lemma ThreeInOrder(row: Fields, a: Option<Source>, x: Option<TrademarkFacts.Value>, b: Option<Source>,
                     y: Option<TrademarkFacts.Value>, c: Option<Source>)
    ensures InOrder(CaseFacts(row, a) + Contribute(OWNER_NAME, x, b, true) + Contribute(NICE_CLASSES, y, c, false))
  {
    CaseFactsInOrder(row, a);
    ContributeOne(OWNER_NAME, x, b, true);
    ContributeOne(NICE_CLASSES, y, c, false);
    var cases, o, n := CaseFacts(row, a), Contribute(OWNER_NAME, x, b, true), Contribute(NICE_CLASSES, y, c, false);
    AppendInOrder(cases, o, 3);
    AppendInOrder(cases + o, n, 4);
  }

  lemma TwoInOrder(x: Option<TrademarkFacts.Value>, y: Option<TrademarkFacts.Value>, source: Option<Source>)
    ensures InOrder(Contribute(APPLICATION_DATE, x, source, true) + Contribute(NICE_CLASSES, y, source, false))
  {
    ContributeOne(APPLICATION_DATE, x, source, true);
    ContributeOne(NICE_CLASSES, y, source, false);
    AppendInOrder(Contribute(APPLICATION_DATE, x, source, true), Contribute(NICE_CLASSES, y, source, false), 1);
  }

  lemma ChineseInOrder(engine: Str, row: Fields, p: Platform)
    ensures InOrder(CnFacts(engine, row, p))
  {
    var number := NonEmptyString(Lookup(row, S("application_number")));
    if number.Some? {
      TwoInOrder(TextField(row, S("filing_date")), Some(Many(NumericClasses(Lookup(row, S("classes")), p))),
                 SourceReference(engine, S("CN:") + number.value, [row], p));
    }
  }

  /** Each kind appears once at most, in the order of the kinds. */
  lemma MappedFactsInOrder(e: Envelope, p: Platform)
    ensures InOrder(MapFacts(e, p))
  {
    if ObservedCase(e) && e.caseRow.Some? {
      ChineseInOrder(e.engine, e.caseRow.value, p);
      AmericanInOrder(e.engine, e.caseRow.value, Records(e.owners), Records(e.classifications), p);
    }
  }
}

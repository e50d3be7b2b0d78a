/** Mapping Data Engine case rows to observed facts, whatever order the rows come in. */
module TrademarkFacts {
  import opened Texts
  import opened TextOps
  import opened Json
  import opened IsoTime
  import opened Rows
  import opened ClassOrder
  import LatestObserved
  import Numerals
  import Sorting

  datatype Platform = Platform(
    dateParse: Str -> Option<Time>,
    integer: Str -> Option<int>,       // the value of a numeral, when it is an integer
    hash: Str -> Str,                  // SHA-256 in hexadecimal
    codeLess: (Str, Str) -> bool)      // localeCompare with numeric collation

  /** Comparison may tie distinct codes, but its ties are classes; one integer has one numeral. */
  ghost predicate Standard(p: Platform) {
    && Sorting.WeakOrder(p.codeLess)
    && (forall s, t :: p.integer(s).Some? && p.integer(s) == p.integer(t) ==> s == t)
  }

  function TextOf(v: Json): Option<Str> {
    if v.Text? && Trim(v.text) != [] then Some(Trim(v.text)) else None
  }

  function NonEmptyString(v: Option<Json>): Option<Str> { if v.Some? then TextOf(v.value) else None }

  function ItemSeq(items: Items): seq<Json> {
    match items
    case Nil => []
    case Cons(h, t) => [h] + ItemSeq(t)
  }

  function RecordOf(v: Json): Option<Fields> { if v.Obj? then Some(v.fields) else None }

  function Records(rows: seq<Json>): seq<Fields> {
    FilterMap(rows, RecordOf)
  }

  // ---------- timestamps and fingerprints ----------

  function InstantOf(p: Platform): Fields -> Option<Time> {
    (row: Fields) =>
      var text := NonEmptyString(Lookup(row, S("ingested_at")));
      if text.Some? then p.dateParse(text.value) else None
  }

  function Stamp(t: Option<Time>, iso: Time -> Str): Option<Str> { if t.Some? then Some(iso(t.value)) else None }

  function StampOf(p: Platform, iso: Time -> Str): Fields -> Option<Str> {
    (row: Fields) => Stamp(InstantOf(p)(row), iso)
  }

  /** The last of the sorted timestamps. */
  function LatestObservedAt(rows: seq<Fields>, p: Platform): Option<Str> {
    var sorted := Sorting.SortBy(FilterMap(rows, StampOf(p, ToIso)), UnitLess);
    if sorted == [] then None else Some(sorted[|sorted| - 1])
  }

  lemma StampsMapInstants(rows: seq<Fields>, p: Platform, iso: Time -> Str)
    ensures |FilterMap(rows, StampOf(p, iso))| == |FilterMap(rows, InstantOf(p))|
    ensures forall i | 0 <= i < |FilterMap(rows, InstantOf(p))| ::
      FilterMap(rows, StampOf(p, iso))[i] == iso(FilterMap(rows, InstantOf(p))[i])
  {
    FilterMapCompose(rows, InstantOf(p), iso, StampOf(p, iso));
  }

  lemma StampsAreTexts(rows: seq<Fields>, p: Platform)
    ensures FilterMap(rows, StampOf(p, ToIso)) == LatestObserved.IsoTexts(FilterMap(rows, InstantOf(p)))
  {
    StampsMapInstants(rows, p, ToIso);
  }

  /** The rows' timestamp is the last sorted text of their instants. */
  lemma ObservedAtIsLatestText(rows: seq<Fields>, p: Platform)
    ensures LatestObservedAt(rows, p) == LatestObserved.LatestText(FilterMap(rows, InstantOf(p)))
  {
    StampsAreTexts(rows, p);
  }

  /** The rows' timestamp names the latest of their instants exactly when the years of the instants agree. */
  lemma ObservedAtIsLatestIff(rows: seq<Fields>, p: Platform)
    requires LatestObservedAt(rows, p).Some?
    ensures (exists t: Time :: LatestObservedAt(rows, p) == Some(ToIso(t))
              && LatestObserved.IsLatest(t, FilterMap(rows, InstantOf(p))))
       <==> LatestObserved.YearsAgree(FilterMap(rows, InstantOf(p)))
  {
    ObservedAtIsLatestText(rows, p);
    LatestObserved.LatestIffYearsAgree(FilterMap(rows, InstantOf(p)));
  }

  /** A row that was ingested at a printed instant. */
  function StampedRow(t: Time): Fields { Field(S("ingested_at"), Text(ToIso(t)), End) }

  lemma StampedRowInstant(t: Time, p: Platform, other: Str -> Option<Time>)
    requires forall s :: p.dateParse(s) == DateParse(s, other)
    ensures InstantOf(p)(StampedRow(t)) == Some(t)
  {
    IsoIsTrimmed(t);
    TrimOfTrimmed(ToIso(t));
    ParsesPrinted(t, other);
    assert NonEmptyString(Lookup(StampedRow(t), S("ingested_at"))) == Some(ToIso(t));
  }

  lemma TwoInstants(a: Fields, b: Fields, t: Time, u: Time, p: Platform)
    requires InstantOf(p)(a) == Some(t) && InstantOf(p)(b) == Some(u)
    ensures FilterMap([a, b], InstantOf(p)) == [t, u]
  {
    FilterMapPair(a, b, InstantOf(p));
  }

  lemma IsoIsTrimmed(t: Time)
    ensures Trimmed(ToIso(t))
  {
    YearStarts(Year(t));
    assert ToIso(t)[|ToIso(t)| - 1] == ZULU[0];
    assert ToIso(t)[0] == YearText(Year(t))[0];
  }

  lemma YearStarts(y: int)
    ensures YearText(y) != [] && !White(YearText(y)[0])
  {
    if 0 <= y <= 9999 { assert Digit(Numerals.Pad(y, 4)[0]); }
  }

  /** Two rows one millisecond apart, the last of the year 9999 and the first of 10000: the earlier one is picked. */
  lemma TenThousandSortsFirst(p: Platform, other: Str -> Option<Time>)
    requires forall s :: p.dateParse(s) == DateParse(s, other)
    ensures LatestObservedAt([StampedRow(LatestObserved.LAST_OF_9999), StampedRow(LatestObserved.FIRST_OF_10000)], p)
         == Some(ToIso(LatestObserved.LAST_OF_9999))
  {
    var t, u := LatestObserved.LAST_OF_9999, LatestObserved.FIRST_OF_10000;
    StampedRowInstant(t, p, other);
    StampedRowInstant(u, p, other);
    TwoInstants(StampedRow(t), StampedRow(u), t, u, p);
    ObservedAtIsLatestText([StampedRow(t), StampedRow(u)], p);
    LatestObserved.EarlierPicked();
  }

  function HashOf(row: Fields): Option<Str> {
    var own := NonEmptyString(Lookup(row, S("record_hash")));
    if own.Some? then own else NonEmptyString(Lookup(row, S("source_row_hash")))
  }

  function Fingerprint(rows: seq<Fields>, p: Platform): Option<Str> {
    var hashes := Sorting.SortBy(FilterMap(rows, HashOf), UnitLess);
    if hashes == [] then None else Some(p.hash(Join(hashes, [0x7C])))
  }

  datatype Source = Source(sourceId: Str, sourceVersion: Str, fingerprint: Option<Str>, observedAt: Str)

  function SourceReference(engine: Str, sourceId: Str, rows: seq<Fields>, p: Platform): Option<Source> {
    var at := LatestObservedAt(rows, p);
    if at.None? then None
    else
      var f := Fingerprint(rows, p);
      var version := if f.Some? then engine + [0x3A] + (if |f.value| > 16 then f.value[..16] else f.value) else engine;
      Some(Source(sourceId, version, f, at.value))
  }

  // ---------- values ----------

  /** Trimmed, distinct, in the default sort order. */
  function UniqueStrings(values: seq<Json>): seq<Str> { SortedSet(FilterMap(values, TextOf), UnitLess) }

  function NameOf(row: Fields): Option<Str> { NonEmptyString(Lookup(row, S("party_name"))) }

  function OwnerNames(rows: seq<Fields>): seq<Str> { SortedSet(FilterMap(rows, NameOf), UnitLess) }

  /** The numeral `x` is that of a positive integer. */
  predicate Positive(x: Str, p: Platform) { p.integer(x).Some? && p.integer(x).value > 0 }

  function PositiveInteger(p: Platform): Json -> Option<Str> {
    (v: Json) => if v.Num? && Positive(v.numeral, p) then Some(v.numeral) else None
  }

  function NumericLess(p: Platform): (Str, Str) -> bool {
    (a: Str, b: Str) =>
      (if p.integer(a).Some? then p.integer(a).value else 0) < (if p.integer(b).Some? then p.integer(b).value else 0)
  }

  /** The positive integers of an array, as numerals, in numeric order. */
  function NumericClasses(v: Option<Json>, p: Platform): seq<Str> {
    if v.None? || !v.value.Arr? then []
    else SortedSet(FilterMap(ItemSeq(v.value.items), PositiveInteger(p)), NumericLess(p))
  }

  /** The codes of one row, when it has an array of them. */
  function CodesOf(row: Fields): Option<seq<Str>> {
    var v := Lookup(row, S("international_codes"));
    if v.None? || !v.value.Arr? then None
    else Some(UniqueStrings(ItemSeq(v.value.items)))
  }

  function UsClasses(rows: seq<Fields>, p: Platform): seq<Str> { Classes(Lists(rows, CodesOf), p.codeLess) }

  lemma {:induction false} FlattenConcat(a: seq<seq<Str>>, b: seq<seq<Str>>)
    ensures Flatten(a + b) == Flatten(a) + Flatten(b)
    decreases |a|
  {
    if a == [] {
      assert a + b == b;
    } else {
      assert (a + b)[1..] == a[1..] + b;
      FlattenConcat(a[1..], b);
    }
  }

  /** The loop that collects the codes row by row. */
  method UsInternationalClasses(rows: seq<Fields>, p: Platform) returns (r: seq<Str>)
    ensures r == UsClasses(rows, p)
  {
    var classes: seq<Str> := [];
    for i := 0 to |rows|
      invariant classes == Flatten(Lists(rows[..i], CodesOf))
    {
      assert rows[..i + 1] == rows[..i] + [rows[i]];
      FilterMapConcat(rows[..i], [rows[i]], CodesOf);
      FlattenConcat(Lists(rows[..i], CodesOf), Lists([rows[i]], CodesOf));
      var codes := CodesOf(rows[i]);
      if codes.None? {
        continue;
      }
      assert Lists([rows[i]], CodesOf) == [codes.value];
      classes := classes + codes.value;
    }
    assert rows[..|rows|] == rows;
    r := SortedSet(classes, p.codeLess);
  }

  // ---------- the facts ----------

  datatype Kind = APPLICATION_STATUS | APPLICATION_DATE | REGISTRATION_DATE | RENEWAL_DATE | OWNER_NAME | NICE_CLASSES
  datatype Value = One(text: Str) | Many(texts: seq<Str>)
  datatype Contribution = Contribution(kind: Kind, value: Value, source: Source, consequential: bool)

  datatype Envelope = Envelope(
    factState: Str, resourceKind: Str, jurisdiction: Str, engine: Str,
    caseRow: Option<Fields>, owners: seq<Json>, classifications: seq<Json>)

  predicate ObservedCase(e: Envelope) { e.factState == S("observed") && e.resourceKind == S("TRADEMARK_CASE") }

  /** The two branches: China, and every other jurisdiction. */
  predicate Chinese(e: Envelope) { e.jurisdiction == S("CN") }

  function Contribute(
      kind: Kind, value: Option<Value>, source: Option<Source>, consequential: bool): seq<Contribution>
  {
    if value.None? || source.None? || value.value == Many([]) then []
    else [Contribution(kind, value.value, source.value, consequential)]
  }

  function TextField(row: Fields, key: Str): Option<Value> {
    var text := NonEmptyString(Lookup(row, key));
    if text.Some? then Some(One(text.value)) else None
  }

  function CnFacts(engine: Str, row: Fields, p: Platform): seq<Contribution> {
    var number := NonEmptyString(Lookup(row, S("application_number")));
    if number.None? then []
    else
      var source := SourceReference(engine, S("CN:") + number.value, [row], p);
      Contribute(APPLICATION_DATE, TextField(row, S("filing_date")), source, true)
      + Contribute(NICE_CLASSES, Some(Many(NumericClasses(Lookup(row, S("classes")), p))), source, false)
  }

  function CaseFacts(row: Fields, source: Option<Source>): seq<Contribution> {
    Contribute(APPLICATION_STATUS, TextField(row, S("status_code")), source, true)
    + Contribute(APPLICATION_DATE, TextField(row, S("filing_date")), source, true)
    + Contribute(REGISTRATION_DATE, TextField(row, S("registration_date")), source, true)
    + Contribute(RENEWAL_DATE, TextField(row, S("renewal_date")), source, true)
  }

  function OwnerFacts(engine: Str, sourceId: Str, rows: seq<Fields>, p: Platform): seq<Contribution> {
    Contribute(OWNER_NAME, Some(Many(OwnerNames(rows))), SourceReference(engine, sourceId, rows, p), true)
  }

  function ClassFacts(engine: Str, sourceId: Str, rows: seq<Fields>, p: Platform): seq<Contribution> {
    Contribute(NICE_CLASSES, Some(Many(UsClasses(rows, p))), SourceReference(engine, sourceId, rows, p), false)
  }

  function UsFacts(
      engine: Str, row: Fields, owners: seq<Fields>, classes: seq<Fields>, p: Platform): seq<Contribution>
  {
    var serial := NonEmptyString(Lookup(row, S("serial_number")));
    if serial.None? then []
    else
      var id := S("US:") + serial.value;
      CaseFacts(row, SourceReference(engine, id + S(":case"), [row], p))
      + OwnerFacts(engine, id + S(":owners"), owners, p)
      + ClassFacts(engine, id + S(":classes"), classes, p)
  }

  function MapFacts(e: Envelope, p: Platform): seq<Contribution> {
    if !ObservedCase(e) || e.caseRow.None? then []
    else if Chinese(e) then CnFacts(e.engine, e.caseRow.value, p)
    else UsFacts(e.engine, e.caseRow.value, Records(e.owners), Records(e.classifications), p)
  }

  // ---------- the order of the rows ----------

  lemma RecordsPermute(a: seq<Json>, b: seq<Json>)
    requires multiset(a) == multiset(b)
    ensures multiset(Records(a)) == multiset(Records(b))
  {
    FilterMapPermutes(a, b, RecordOf);
  }

  lemma SortedTextsPermute(a: seq<Fields>, b: seq<Fields>, f: Fields -> Option<Str>)
    requires multiset(a) == multiset(b)
    ensures Sorting.SortBy(FilterMap(a, f), UnitLess) == Sorting.SortBy(FilterMap(b, f), UnitLess)
    ensures SortedSet(FilterMap(a, f), UnitLess) == SortedSet(FilterMap(b, f), UnitLess)
  {
    FilterMapPermutes(a, b, f);
    UnitLessStrictTotal();
    Sorting.SortByAgreesIffSameMultiset(FilterMap(a, f), FilterMap(b, f), UnitLess);
    Sorting.SameElements(FilterMap(a, f), FilterMap(b, f));
    SortedSetOfSame(FilterMap(a, f), FilterMap(b, f), UnitLess);
  }

  lemma LatestPermutes(a: seq<Fields>, b: seq<Fields>, p: Platform)
    requires multiset(a) == multiset(b)
    ensures LatestObservedAt(a, p) == LatestObservedAt(b, p)
  {
    SortedTextsPermute(a, b, StampOf(p, ToIso));
  }

  lemma FingerprintPermutes(a: seq<Fields>, b: seq<Fields>, p: Platform)
    requires multiset(a) == multiset(b)
    ensures Fingerprint(a, p) == Fingerprint(b, p)
  {
    SortedTextsPermute(a, b, HashOf);
  }

  lemma SourcePermutes(engine: Str, id: Str, a: seq<Fields>, b: seq<Fields>, p: Platform)
    requires multiset(a) == multiset(b)
    ensures SourceReference(engine, id, a, p) == SourceReference(engine, id, b, p)
  {
    LatestPermutes(a, b, p);
    FingerprintPermutes(a, b, p);
  }

  /** The rows of class codes, one sorted list a row. */
  function CodeLists(rows: seq<Json>): seq<seq<Str>> { Lists(Records(rows), CodesOf) }

  lemma RowsAreSorted(rows: seq<Fields>)
    ensures RowsSorted(Lists(rows, CodesOf), UnitLess)
  {
    forall l | l in Lists(rows, CodesOf) ensures StrictlyIncreasing(l, UnitLess) {
      var row := RowOf(rows, l, CodesOf);
      UniqueStringsIncrease(ItemSeq(Lookup(row, S("international_codes")).value.items));
    }
  }

  /** Unique strings: strictly increasing, and exactly the trimmed strings that are not blank. */
  lemma UniqueStringsIncrease(values: seq<Json>)
    ensures StrictlyIncreasing(UniqueStrings(values), UnitLess)
    ensures forall x :: x in UniqueStrings(values) <==> exists i :: 0 <= i < |values| && TextOf(values[i]) == Some(x)
  {
    SortedTextsIncrease(FilterMap(values, TextOf));
    forall x ensures x in UniqueStrings(values) <==> exists i :: 0 <= i < |values| && TextOf(values[i]) == Some(x) {
      InFilterMap(values, TextOf, x);
    }
  }

  lemma SortedTextsIncrease(s: seq<Str>)
    ensures StrictlyIncreasing(SortedSet(s, UnitLess), UnitLess)
    ensures forall x :: x in SortedSet(s, UnitLess) <==> x in s
  {
    UnitLessStrictTotal();
    Sorting.StrictTotalIsWeak(UnitLess);
    SortedSetIncreases(s, UnitLess);
    SortedSetHolds(s, UnitLess);
  }

  /** Owner names: strictly increasing, and exactly the names of the rows. */
  lemma OwnerNamesIncrease(rows: seq<Fields>)
    ensures StrictlyIncreasing(OwnerNames(rows), UnitLess)
    ensures forall x :: x in OwnerNames(rows) <==> exists i :: 0 <= i < |rows| && NameOf(rows[i]) == Some(x)
  {
    SortedTextsIncrease(FilterMap(rows, NameOf));
    forall x ensures x in OwnerNames(rows) <==> exists i :: 0 <= i < |rows| && NameOf(rows[i]) == Some(x) {
      InFilterMap(rows, NameOf, x);
    }
  }

  lemma NumericLessIsWeak(p: Platform)
    ensures Sorting.WeakOrder(NumericLess(p))
  {
  }

  lemma IntegersNeverTie(s: seq<Str>, p: Platform)
    requires Standard(p) && forall x | x in s :: p.integer(x).Some?
    ensures forall x, y | x in s && y in s && x != y :: NumericLess(p)(x, y) || NumericLess(p)(y, x)
  {
  }

  lemma {:induction false} InPositives(values: seq<Json>, x: Str, p: Platform)
    ensures x in FilterMap(values, PositiveInteger(p)) <==> Num(x) in values && Positive(x, p)
    decreases |values|
  {
    if values != [] {
      InPositives(values[1..], x, p);
      assert values == [values[0]] + values[1..];
    }
  }

  /** CN classes: strictly increasing numbers, and exactly the positive integers of the array. */
  lemma NumericClassesIncrease(items: Items, p: Platform)
    requires Standard(p)
    ensures StrictlyIncreasing(NumericClasses(Some(Arr(items)), p), NumericLess(p))
    ensures forall x :: x in NumericClasses(Some(Arr(items)), p) <==> Num(x) in ItemSeq(items) && Positive(x, p)
  {
    var s := FilterMap(ItemSeq(items), PositiveInteger(p));
    forall x ensures x in s <==> Num(x) in ItemSeq(items) && Positive(x, p) {
      InPositives(ItemSeq(items), x, p);
    }
    IntegersNeverTie(s, p);
    NumericLessIsWeak(p);
    SortedSetHolds(s, NumericLess(p));
    SortedSetIncreases(s, NumericLess(p));
  }

  /** Reordering classification rows never shows in the class codes exactly when their ties are safe. */
  lemma ClassOrderHiddenIff(rows: seq<Fields>, p: Platform)
    requires Standard(p)
    ensures (forall r: seq<Fields> | multiset(r) == multiset(rows) :: UsClasses(r, p) == UsClasses(rows, p))
       <==> TieSafe(Lists(rows, CodesOf), p.codeLess, UnitLess)
  {
    UnitLessStrictTotal();
    RowsAreSorted(rows);
    RowOrderHiddenIffTieSafe(rows, CodesOf, p.codeLess, UnitLess);
    forall r: seq<Fields> | multiset(r) == multiset(rows)
      ensures UsClasses(r, p) == Classes(Lists(r, CodesOf), p.codeLess)
    {
    }
    if !TieSafe(Lists(rows, CodesOf), p.codeLess, UnitLess) {
      var r: seq<Fields> :| multiset(r) == multiset(rows)
        && Classes(Lists(r, CodesOf), p.codeLess) != Classes(Lists(rows, CodesOf), p.codeLess);
      assert UsClasses(r, p) != UsClasses(rows, p);
    }
  }

  /** A row whose codes are the one given. */
  function CodeRow(code: Str): Fields { Field(S("international_codes"), Arr(Cons(Text(code), Nil)), End) }

  lemma CodeRowCodes(code: Str)
    requires Trim(code) == code != []
    ensures CodesOf(CodeRow(code)) == Some([code])
  {
    assert ItemSeq(Cons(Text(code), Nil)) == [Text(code)];
    assert FilterMap([Text(code)], TextOf) == [code] + FilterMap([Text(code)][1..], TextOf);
    assert Dedup([code]) == [code];
    assert Sorting.SortBy([code], UnitLess) == [code];
  }

  lemma CodeRowLists(a: Str, b: Str)
    requires Trim(a) == a != [] && Trim(b) == b != []
    ensures Lists([CodeRow(a), CodeRow(b)], CodesOf) == [[a], [b]]
  {
    CodeRowCodes(a);
    CodeRowCodes(b);
    FilterMapPair(CodeRow(a), CodeRow(b), CodesOf);
  }

  /** Two rows with the codes `09` and `9`, when the comparator ties them, come out in the order of the rows. */
  lemma TiedCodesShow(p: Platform)
    requires Standard(p) && Tied(S("09"), S("9"), p.codeLess)
    ensures UsClasses([CodeRow(S("09")), CodeRow(S("9"))], p) != UsClasses([CodeRow(S("9")), CodeRow(S("09"))], p)
  {
    var a, b := S("09"), S("9");
    assert UnitLess(a, b);
    TrimOfTrimmed(a);
    TrimOfTrimmed(b);
    CodeRowLists(a, b);
    CodeRowLists(b, a);
    InFlatten([[a], [b]], b);
    InFlatten([[b], [a]], a);
    assert [b] in [[a], [b]] && [a] in [[b], [a]];
    UnitLessStrictTotal();
    FrontRowsDiffer([[a], [b]], [[b], [a]], a, b, p.codeLess, UnitLess);
  }

  /** The observed facts carry class codes: a US case with a serial number and a timestamp among its class rows. */
  predicate ClassesReported(e: Envelope, p: Platform) {
    && ObservedCase(e) && !Chinese(e) && e.caseRow.Some?
    && NonEmptyString(Lookup(e.caseRow.value, S("serial_number"))).Some?
    && LatestObservedAt(Records(e.classifications), p).Some?
  }

  function Reordered(e: Envelope, owners: seq<Json>, classifications: seq<Json>): Envelope {
    e.(owners := owners, classifications := classifications)
  }

  /** No reordering of owner or classification rows shows in the mapped facts exactly when the ties of the reported
      class codes are safe. */
  lemma FactsIgnoreRowOrderIff(e: Envelope, p: Platform)
    requires Standard(p)
    ensures (forall owners, classifications
              | multiset(owners) == multiset(e.owners) && multiset(classifications) == multiset(e.classifications)
              :: MapFacts(Reordered(e, owners, classifications), p) == MapFacts(e, p))
       <==> (ClassesReported(e, p) ==> TieSafe(CodeLists(e.classifications), p.codeLess, UnitLess))
  {
    if ClassesReported(e, p) ==> TieSafe(CodeLists(e.classifications), p.codeLess, UnitLess) {
      forall owners, classifications
        | multiset(owners) == multiset(e.owners) && multiset(classifications) == multiset(e.classifications)
        ensures MapFacts(Reordered(e, owners, classifications), p) == MapFacts(e, p)
      {
        SafeFactsIgnoreRowOrder(e, owners, classifications, p);
      }
    } else {
      var classifications := UnsafeClassesShow(e, p);
      assert MapFacts(Reordered(e, e.owners, classifications), p) != MapFacts(e, p);
    }
  }

  lemma SafeFactsIgnoreRowOrder(e: Envelope, owners: seq<Json>, classifications: seq<Json>, p: Platform)
    requires Standard(p)
    requires multiset(owners) == multiset(e.owners) && multiset(classifications) == multiset(e.classifications)
    requires ClassesReported(e, p) ==> TieSafe(CodeLists(e.classifications), p.codeLess, UnitLess)
    ensures MapFacts(Reordered(e, owners, classifications), p) == MapFacts(e, p)
  {
    RecordsPermute(owners, e.owners);
    RecordsPermute(classifications, e.classifications);
    if && ObservedCase(e) && e.caseRow.Some? && !Chinese(e)
       && NonEmptyString(Lookup(e.caseRow.value, S("serial_number"))).Some?
    {
      var id := S("US:") + NonEmptyString(Lookup(e.caseRow.value, S("serial_number"))).value;
      OwnerFactsPermute(e.engine, id + S(":owners"), Records(owners), Records(e.owners), p);
      ClassFactsPermute(e.engine, id + S(":classes"), Records(classifications), Records(e.classifications), p);
    }
  }

  lemma OwnerFactsPermute(engine: Str, id: Str, a: seq<Fields>, b: seq<Fields>, p: Platform)
    requires multiset(a) == multiset(b)
    ensures OwnerFacts(engine, id, a, p) == OwnerFacts(engine, id, b, p)
  {
    SourcePermutes(engine, id, a, b, p);
    SortedTextsPermute(a, b, NameOf);
  }

  lemma ClassFactsPermute(engine: Str, id: Str, a: seq<Fields>, b: seq<Fields>, p: Platform)
    requires Standard(p) && multiset(a) == multiset(b)
    requires LatestObservedAt(b, p).Some? ==> TieSafe(Lists(b, CodesOf), p.codeLess, UnitLess)
    ensures ClassFacts(engine, id, a, p) == ClassFacts(engine, id, b, p)
  {
    SourcePermutes(engine, id, a, b, p);
    if LatestObservedAt(b, p).Some? { ClassOrderHiddenIff(b, p); }
  }

  // ---------- unsafe ties show in the facts ----------

  function ObjOf(record: Fields): Option<Json> { Some(Obj(record)) }
  function OtherOf(v: Json): Option<Json> { if v.Obj? then None else Some(v) }

  lemma {:induction false} RecordsOfObjects(records: seq<Fields>)
    ensures Records(FilterMap(records, ObjOf)) == records
    decreases |records|
  {
    if records != [] {
      RecordsOfObjects(records[1..]);
      FilterMapCons(Obj(records[0]), FilterMap(records[1..], ObjOf), RecordOf);
    }
  }

  lemma {:induction false} RecordsOfOthers(rows: seq<Json>)
    ensures Records(FilterMap(rows, OtherOf)) == []
    decreases |rows|
  {
    if rows != [] {
      RecordsOfOthers(rows[1..]);
      if !rows[0].Obj? { FilterMapCons(rows[0], FilterMap(rows[1..], OtherOf), RecordOf); }
    }
  }

  lemma {:induction false} ObjectsAndOthers(rows: seq<Json>)
    ensures multiset(rows) == multiset(FilterMap(Records(rows), ObjOf)) + multiset(FilterMap(rows, OtherOf))
    decreases |rows|
  {
    if rows != [] {
      ObjectsAndOthers(rows[1..]);
      RemoveFirst(rows);
      if rows[0].Obj? { FilterMapCons(rows[0].fields, Records(rows[1..]), ObjOf); }
    }
  }

  /** Every order of the records is the order of some reordered rows. */
  lemma RowsOfRecords(rows: seq<Json>, records: seq<Fields>) returns (r: seq<Json>)
    requires multiset(records) == multiset(Records(rows))
    ensures multiset(r) == multiset(rows) && Records(r) == records
  {
    r := FilterMap(records, ObjOf) + FilterMap(rows, OtherOf);
    FilterMapConcat(FilterMap(records, ObjOf), FilterMap(rows, OtherOf), RecordOf);
    RecordsOfObjects(records);
    RecordsOfOthers(rows);
    ObjectsAndOthers(rows);
    FilterMapPermutes(records, Records(rows), ObjOf);
  }

  lemma ClassFactsCarryCodes(engine: Str, id: Str, a: seq<Fields>, b: seq<Fields>, p: Platform)
    requires multiset(a) == multiset(b) && LatestObservedAt(b, p).Some? && UsClasses(a, p) != UsClasses(b, p)
    ensures ClassFacts(engine, id, a, p) != ClassFacts(engine, id, b, p)
  {
    SourcePermutes(engine, id, a, b, p);
    var x, y := ClassFacts(engine, id, a, p), ClassFacts(engine, id, b, p);
    assert UsClasses(a, p) != [] ==> x[0].value == Many(UsClasses(a, p));
    assert UsClasses(b, p) != [] ==> y[0].value == Many(UsClasses(b, p));
  }

  lemma CancelHead<T>(head: seq<T>, a: seq<T>, b: seq<T>)
    requires a != b
    ensures head + a != head + b
  {
    assert (head + a)[|head|..] == a && (head + b)[|head|..] == b;
  }

  lemma UnsafeClassesShow(e: Envelope, p: Platform) returns (r: seq<Json>)
    requires Standard(p) && ClassesReported(e, p) && !TieSafe(CodeLists(e.classifications), p.codeLess, UnitLess)
    ensures multiset(r) == multiset(e.classifications)
    ensures MapFacts(Reordered(e, e.owners, r), p) != MapFacts(e, p)
  {
    var classes := Records(e.classifications);
    ClassOrderHiddenIff(classes, p);
    var records: seq<Fields> :|
      multiset(records) == multiset(classes) && UsClasses(records, p) != UsClasses(classes, p);
    r := RowsOfRecords(e.classifications, records);
    var row := e.caseRow.value;
    var id := S("US:") + NonEmptyString(Lookup(row, S("serial_number"))).value;
    ClassFactsCarryCodes(e.engine, id + S(":classes"), records, classes, p);
    CancelHead(CaseFacts(row, SourceReference(e.engine, id + S(":case"), [row], p))
               + OwnerFacts(e.engine, id + S(":owners"), Records(e.owners), p),
               ClassFacts(e.engine, id + S(":classes"), records, p),
               ClassFacts(e.engine, id + S(":classes"), classes, p));
  }
}

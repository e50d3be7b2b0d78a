/** The last of the sorted ISO texts, and exactly when it is the latest instant. */
module LatestObserved {
  import opened Texts
  import opened IsoTime
  import Calendar
  import Sorting

  function IsoTexts(ts: seq<Time>): (r: seq<Str>)
    ensures |r| == |ts| && forall i | 0 <= i < |r| :: r[i] == ToIso(ts[i])
  {
    seq(|ts|, i requires 0 <= i < |ts| => ToIso(ts[i]))
  }

  /** `.sort().at(-1)` */
  function LatestText(ts: seq<Time>): Option<Str> {
    var sorted := Sorting.SortBy(IsoTexts(ts), UnitLess);
    if sorted == [] then None else Some(sorted[|sorted| - 1])
  }

  ghost predicate IsLatest(t: Time, ts: seq<Time>) {
    t in ts && forall u | u in ts :: u <= t
  }

  ghost predicate LastInTextOrder(t: Time, ts: seq<Time>) {
    t in ts && forall u | u in ts :: !TextBefore(t, u)
  }

  lemma LastText(texts: seq<Str>) returns (i: nat)
    requires texts != []
    ensures i < |texts| && Sorting.SortBy(texts, UnitLess) != []
    ensures texts[i] == Sorting.SortBy(texts, UnitLess)[|Sorting.SortBy(texts, UnitLess)| - 1]
    ensures forall j | 0 <= j < |texts| :: !UnitLess(texts[i], texts[j])
  {
    UnitLessStrictTotal();
    Sorting.StrictTotalIsWeak(UnitLess);
    Sorting.LastOfSorted(texts, UnitLess);
    var sorted := Sorting.SortBy(texts, UnitLess);
    i :| 0 <= i < |texts| && texts[i] == sorted[|sorted| - 1];
  }

  lemma LatestTextIsLast(ts: seq<Time>) returns (t: Time)
    requires ts != []
    ensures LatestText(ts) == Some(ToIso(t)) && LastInTextOrder(t, ts)
  {
    var i := LastText(IsoTexts(ts));
    t := ts[i];
    forall u | u in ts ensures !TextBefore(t, u) {
      var j :| 0 <= j < |ts| && ts[j] == u;
      assert IsoTexts(ts)[j] == ToIso(u);
      TextOrder(t, u);
    }
  }

  /** What a caller can check beforehand: the years of the rows. */
  ghost predicate YearsAgree(ts: seq<Time>) {
    || ((exists t | t in ts :: 0 <= Year(t) <= 9999) && forall t | t in ts :: Year(t) <= 9999)
    || (forall t | t in ts :: Year(t) > 9999)
    || (forall t, u | t in ts && u in ts :: Year(t) < 0 && Year(t) == Year(u))
  }

  /** The chosen text names the latest instant exactly when the years agree in this way. */
  lemma LatestIffYearsAgree(ts: seq<Time>)
    requires ts != []
    ensures (exists t: Time :: LatestText(ts) == Some(ToIso(t)) && IsLatest(t, ts)) <==> YearsAgree(ts)
  {
    var last := LatestTextIsLast(ts);
    ReadIsoText(last);
    if t: Time :| LatestText(ts) == Some(ToIso(t)) && IsLatest(t, ts) {
      ReadIsoText(t);
      LatestNeedsAgreement(last, ts);
    }
    if YearsAgree(ts) {
      AgreementMakesLatest(last, ts);
    }
  }

  lemma EarlierAndNotLater(t: Time, u: Time)
    requires u <= t && !TextBefore(t, u)
    ensures Year(u) <= Year(t)
    ensures Year(t) > 9999 ==> Year(u) > 9999
    ensures Year(t) < 0 ==> Year(u) == Year(t)
  {
    YearMonotone(u, t);
  }

  lemma LatestBoundsYears(t: Time, ts: seq<Time>)
    requires LastInTextOrder(t, ts) && IsLatest(t, ts)
    ensures forall u | u in ts :: Year(u) <= Year(t)
    ensures Year(t) > 9999 ==> forall u | u in ts :: Year(u) > 9999
    ensures Year(t) < 0 ==> forall u | u in ts :: Year(u) == Year(t)
  {
    forall u | u in ts
      ensures Year(u) <= Year(t) && (Year(t) > 9999 ==> Year(u) > 9999) && (Year(t) < 0 ==> Year(u) == Year(t))
    {
      EarlierAndNotLater(t, u);
    }
  }

  lemma LatestNeedsAgreement(t: Time, ts: seq<Time>)
    requires LastInTextOrder(t, ts) && IsLatest(t, ts)
    ensures YearsAgree(ts)
  {
    LatestBoundsYears(t, ts);
    if 0 <= Year(t) <= 9999 {
      assert forall u | u in ts :: Year(u) <= 9999;
    }
  }

  lemma AgreementMakesLatest(t: Time, ts: seq<Time>)
    requires LastInTextOrder(t, ts) && YearsAgree(ts)
    ensures IsLatest(t, ts)
  {
    forall u | u in ts ensures u <= t {
      AgreementOrders(t, u, ts);
    }
  }

  lemma AgreementOrders(t: Time, u: Time, ts: seq<Time>)
    requires t in ts && u in ts && !TextBefore(t, u) && YearsAgree(ts) && LastInTextOrder(t, ts)
    ensures u <= t
  {
    if w :| w in ts && 0 <= Year(w) <= 9999 { assert !TextBefore(t, w); }
    if t < u { YearMonotone(t, u); }
  }

  /** Rows of the years 0 to 9999 always agree: the last sorted text is then the latest instant. */
  lemma CommonEraLatest(ts: seq<Time>)
    requires ts != [] && forall t | t in ts :: 0 <= Year(t) <= 9999
    ensures exists t: Time :: LatestText(ts) == Some(ToIso(t)) && IsLatest(t, ts)
  {
    assert ts[0] in ts;
    LatestIffYearsAgree(ts);
  }

  /** Two adjacent instants, the last of the year 9999 and the first of the year 10000: the earlier one sorts last. */
  const LAST_OF_9999: Time := 253_402_300_799_999
  const FIRST_OF_10000: Time := 253_402_300_800_000

  lemma ExampleYears()
    ensures Year(LAST_OF_9999) == 9999 && Year(FIRST_OF_10000) == 10_000
  {
    Calendar.YearOfUnique(LAST_OF_9999 / MS_PER_DAY, 9999);
    Calendar.YearOfUnique(FIRST_OF_10000 / MS_PER_DAY, 10_000);
  }

  lemma LastOfPair(t: Time, u: Time)
    requires UnitLess(ToIso(u), ToIso(t))
    ensures LatestText([t, u]) == Some(ToIso(t))
  {
    var x, y := ToIso(t), ToIso(u);
    assert IsoTexts([t, u]) == [x, y];
    Sorting.SortsPair(x, y, UnitLess);
  }

  lemma EarlierPicked()
    ensures LatestText([LAST_OF_9999, FIRST_OF_10000]) == Some(ToIso(LAST_OF_9999))
  {
    ExampleYears();
    TextOrder(FIRST_OF_10000, LAST_OF_9999);
    LastOfPair(LAST_OF_9999, FIRST_OF_10000);
  }
}

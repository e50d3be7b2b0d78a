/** Which owner results are accepted, and what is kept of them, in the terms of the value that was sent. */
module OwnerResultSpec {
  import opened Texts
  import opened TextOps
  import opened Json
  import opened JsonObjects
  import opened KnowledgeOwner
  import Numerals

  function Get(f: Fields, key: string): Option<Json> { Lookup(f, S(key)) }

  // ---------- kinds of values ----------

  predicate TextIs(o: Option<Json>, t: string) { o == Some(Text(S(t))) }

  predicate FilledText(o: Option<Json>) { o.Some? && o.value.Text? && Trim(o.value.text) != [] }

  predicate DigitAt(s: Str, i: int) { 0 <= i < |s| && 0x30 <= s[i] <= 0x39 }

  /** The text ends with `Z`, or with a sign, two digits, a colon and two digits. */
  predicate OffsetText(s: Str) {
    var n := |s|;
    || (n > 0 && s[n - 1] == 0x5A)
    || (&& n > 5 && (s[n - 6] == 0x2B || s[n - 6] == 0x2D) && s[n - 3] == 0x3A
        && DigitAt(s, n - 5) && DigitAt(s, n - 4) && DigitAt(s, n - 2) && DigitAt(s, n - 1))
  }

  predicate DateText(o: Option<Json>, finiteDate: Str -> bool) {
    o.Some? && o.value.Text? && OffsetText(o.value.text) && finiteDate(o.value.text)
  }

  predicate NullOrDate(o: Option<Json>, finiteDate: Str -> bool) { o == Some(Null) || DateText(o, finiteDate) }

  /** A numeral of digits alone, up to the largest safe integer. */
  predicate CountNumber(o: Option<Json>) {
    && o.Some? && o.value.Num? && o.value.numeral != []
    && (forall i | 0 <= i < |o.value.numeral| :: DigitAt(o.value.numeral, i))
    && Numerals.AllDigits(o.value.numeral) && Numerals.Decimal(o.value.numeral) <= 9_007_199_254_740_991
  }

  predicate FlagValue(o: Option<Json>) { o.Some? && o.value.Bool? }

  predicate ListValue(o: Option<Json>) { o.Some? && o.value.Arr? }

  ghost predicate AllFilled(items: Items) {
    forall i: nat | Nth(items, i).Some? :: FilledText(Nth(items, i))
  }

  ghost predicate TextList(o: Option<Json>) { ListValue(o) && AllFilled(o.value.items) }

  predicate HealthState(o: Option<Json>) {
    || TextIs(o, "HEALTHY") || TextIs(o, "DEGRADED") || TextIs(o, "STALE")
    || TextIs(o, "BLOCKED") || TextIs(o, "PARTIAL") || TextIs(o, "UNKNOWN")
  }

  predicate CoverageState(o: Option<Json>) {
    TextIs(o, "COMPLETE") || TextIs(o, "PARTIAL") || TextIs(o, "UNKNOWN")
  }

  predicate FreshnessState(o: Option<Json>) {
    TextIs(o, "FRESH") || TextIs(o, "STALE") || TextIs(o, "UNOBSERVED")
  }

  predicate ScheduleState(o: Option<Json>) {
    TextIs(o, "UNCONFIGURED") || TextIs(o, "MANUAL") || TextIs(o, "AUTOMATIC") || TextIs(o, "MIXED")
  }

  const FORBIDDEN: set<Str> := {
    S("canonicalUri"), S("content"), S("rawArtifact"), S("rawArtifactBytes"), S("adminNavigation"),
    S("adminSession"), S("secret"), S("documentBody"), S("legalConclusion"), S("relevanceScore"),
    S("providerRanking"), S("sql"), S("mutationGuidance"), S("recommendation")}

  /** No path through objects and arrays reaches a forbidden key. */
  ghost predicate Clean(v: Json) { forall path :: !ForbiddenPath(v, path, FORBIDDEN) }

  ghost predicate FactsObject(o: Option<Json>) { o.Some? && o.value.Obj? && Clean(o.value) }

  // ---------- an item, a summary, a result ----------

  ghost predicate CoverageFacts(o: Option<Json>) {
    FactsObject(o) && CoverageState(Get(o.value.fields, "state")) && TextList(Get(o.value.fields, "reasons"))
  }

  ghost predicate FreshnessFacts(o: Option<Json>, finiteDate: Str -> bool) {
    && FactsObject(o) && FreshnessState(Get(o.value.fields, "state"))
    && NullOrDate(Get(o.value.fields, "lastSuccessfulAcquisitionAt"), finiteDate)
  }

  ghost predicate ScheduleFacts(o: Option<Json>) { FactsObject(o) && ScheduleState(Get(o.value.fields, "state")) }

  ghost predicate ReliabilityFacts(o: Option<Json>) {
    && FactsObject(o) && CountNumber(Get(o.value.fields, "attempts")) && CountNumber(Get(o.value.fields, "failed"))
    && FlagValue(Get(o.value.fields, "unrecoveredFailure"))
  }

  ghost predicate ChangeFacts(o: Option<Json>, finiteDate: Str -> bool) {
    && FactsObject(o) && CountNumber(Get(o.value.fields, "updates30d"))
    && NullOrDate(Get(o.value.fields, "lastObservedChangeAt"), finiteDate)
  }

  ghost predicate ItemFits(f: Fields, finiteDate: Str -> bool) {
    && FilledText(Get(f, "targetId")) && FilledText(Get(f, "jurisdiction")) && FilledText(Get(f, "authorityName"))
    && FilledText(Get(f, "authorityLevel")) && FilledText(Get(f, "family")) && FilledText(Get(f, "displayName"))
    && TextList(Get(f, "sourceIds")) && HealthState(Get(f, "state")) && TextList(Get(f, "reasonCodes"))
    && CoverageFacts(Get(f, "coverage")) && FreshnessFacts(Get(f, "freshness"), finiteDate)
    && ScheduleFacts(Get(f, "schedule"))
    && (Get(f, "currentRun") == Some(Null) || FactsObject(Get(f, "currentRun")))
    && ReliabilityFacts(Get(f, "reliability")) && FactsObject(Get(f, "latency"))
    && ChangeFacts(Get(f, "changeActivity"), finiteDate) && DateText(Get(f, "observedAt"), finiteDate)
  }

  predicate StateCounts(o: Option<Json>) {
    && o.Some? && o.value.Obj?
    && CountNumber(Get(o.value.fields, "HEALTHY")) && CountNumber(Get(o.value.fields, "DEGRADED"))
    && CountNumber(Get(o.value.fields, "STALE")) && CountNumber(Get(o.value.fields, "BLOCKED"))
    && CountNumber(Get(o.value.fields, "PARTIAL")) && CountNumber(Get(o.value.fields, "UNKNOWN"))
  }

  predicate CoverageCounts(o: Option<Json>) {
    && o.Some? && o.value.Obj?
    && CountNumber(Get(o.value.fields, "COMPLETE")) && CountNumber(Get(o.value.fields, "PARTIAL"))
    && CountNumber(Get(o.value.fields, "UNKNOWN"))
  }

  predicate SummaryFits(f: Fields) {
    && CountNumber(Get(f, "total")) && StateCounts(Get(f, "byState")) && CoverageCounts(Get(f, "coverage"))
    && CountNumber(Get(f, "requiringAttention")) && CountNumber(Get(f, "stale")) && CountNumber(Get(f, "blocked"))
    && CountNumber(Get(f, "recentChanges30d"))
  }

  ghost predicate ItemAccepted(item: Json, finiteDate: Str -> bool) {
    item.Obj? && Clean(item) && ItemFits(item.fields, finiteDate)
  }

  ghost predicate ItemsFit(items: Items, finiteDate: Str -> bool) {
    forall i: nat | Nth(items, i).Some? :: ItemAccepted(Nth(items, i).value, finiteDate)
  }

  ghost predicate HeaderFits(f: Fields, finiteDate: Str -> bool) {
    && TextIs(Get(f, "protocolVersion"), "1.0")
    && TextIs(Get(f, "objectType"), "CONTROL_PLANE_EVIDENCE_SUPPLY_HEALTH_OWNER_RESULT")
    && TextIs(Get(f, "owner"), "KNOWLEDGE") && TextIs(Get(f, "access"), "READ_ONLY")
    && TextIs(Get(f, "requiredUpstreamAuthority"), "control-plane:knowledge:read")
    && TextIs(Get(f, "sourceReadModel"), "evidence-supply-health.v1")
    && FilledText(Get(f, "workspaceId")) && DateText(Get(f, "observedAt"), finiteDate)
  }

  /** The shape of a result, before workspace and total are compared. */
  ghost predicate ResultFits(f: Fields, finiteDate: Str -> bool) {
    && HeaderFits(f, finiteDate)
    && ListValue(Get(f, "items")) && ItemsFit(Get(f, "items").value.items, finiteDate)
    && Get(f, "summary").Some? && Get(f, "summary").value.Obj? && SummaryFits(Get(f, "summary").value.fields)
  }

  /** How many items a list has. */
  function ItemCount(items: Items): nat { if items.Nil? then 0 else 1 + ItemCount(items.tail) }

  /** The values that are accepted for the expected workspace. */
  ghost predicate Accepted(v: Json, expected: Option<Str>, finiteDate: Str -> bool) {
    && v.Obj? && Clean(v) && ResultFits(v.fields, finiteDate)
    && (expected.Some? ==> Get(v.fields, "workspaceId") == Some(Text(expected.value)))
    && Numerals.Decimal(Get(Get(v.fields, "summary").value.fields, "total").value.numeral)
       == ItemCount(Get(v.fields, "items").value.items)
  }

  // ---------- the parser's rules, one by one ----------

  function Terms(finiteDate: Str -> bool): Platform { Platform(finiteDate, FORBIDDEN) }

  predicate Passes(o: Option<Json>, rule: Rule, p: Platform) {
    o.Some? && Check(rule, o.value, p).Some?
  }

  lemma CleanIffUnscanned(v: Json)
    requires Valid(v)
    ensures Clean(v) <==> !ContainsForbidden(v, FORBIDDEN)
  {
    if ContainsForbidden(v, FORBIDDEN) {
      var path := FindPath(v, FORBIDDEN);
    } else {
      forall path ensures !ForbiddenPath(v, path, FORBIDDEN) {
        if ForbiddenPath(v, path, FORBIDDEN) { PathIsScanned(v, path, FORBIDDEN); }
      }
    }
  }

  lemma PassesText(o: Option<Json>, t: string, p: Platform)
    ensures Passes(o, Exactly(S(t)), p) <==> TextIs(o, t)
    ensures Passes(o, Filled, p) <==> FilledText(o)
    ensures Passes(o, TrimmedText, p) <==> FilledText(o)
  {
  }

  lemma {:induction false} TrimsIffFilled(items: Items)
    ensures TrimItems(items).Some? <==> AllFilled(items)
  {
    if items.Cons? {
      TrimsIffFilled(items.tail);
      AllFilledCons(items);
    }
  }

  lemma AllFilledCons(items: Items)
    requires items.Cons?
    ensures AllFilled(items) <==> FilledText(Some(items.head)) && AllFilled(items.tail)
  {
    assert Nth(items, 0) == Some(items.head);
    if AllFilled(items) {
      forall i: nat | Nth(items.tail, i).Some? ensures FilledText(Nth(items.tail, i)) {
        assert Nth(items, i + 1) == Nth(items.tail, i);
      }
    } else if FilledText(Some(items.head)) && AllFilled(items.tail) {
      forall i: nat | Nth(items, i).Some? ensures FilledText(Nth(items, i)) {
        if i > 0 { assert Nth(items, i) == Nth(items.tail, i - 1); }
      }
    }
  }

  lemma PassesStrings(o: Option<Json>, p: Platform)
    ensures Passes(o, Strings, p) <==> TextList(o)
  {
    if ListValue(o) { TrimsIffFilled(o.value.items); }
  }

  lemma OffsetAtTheEnd(s: Str)
    ensures HasOffset(s) <==> OffsetText(s)
  {
    if |s| >= 6 {
      var n, e := |s|, s[|s| - 6..];
      assert e[0] == s[n - 6] && e[1] == s[n - 5] && e[2] == s[n - 4] && e[3] == s[n - 3];
      assert e[4] == s[n - 2] && e[5] == s[n - 1];
    }
  }

  lemma PassesDate(o: Option<Json>, finiteDate: Str -> bool)
    ensures Passes(o, Timestamp, Terms(finiteDate)) <==> DateText(o, finiteDate)
    ensures Passes(o, NullOr(Timestamp), Terms(finiteDate)) <==> NullOrDate(o, finiteDate)
  {
    if o.Some? && o.value.Text? { OffsetAtTheEnd(o.value.text); }
  }

  lemma PassesCount(o: Option<Json>, p: Platform)
    ensures Passes(o, Count, p) <==> CountNumber(o)
    ensures Passes(o, Flag, p) <==> FlagValue(o)
  {
    if o.Some? && o.value.Num? && Numerals.AllDigits(o.value.numeral) {
      forall i | 0 <= i < |o.value.numeral| ensures DigitAt(o.value.numeral, i) { assert Digit(o.value.numeral[i]); }
    }
  }

  lemma PassesHealth(o: Option<Json>, p: Platform)
    ensures Passes(o, OneOf(HEALTH_STATES), p) <==> HealthState(o)
  {
  }

  lemma PassesOtherStates(o: Option<Json>, p: Platform)
    ensures Passes(o, OneOf(COVERAGE_STATES), p) <==> CoverageState(o)
    ensures Passes(o, OneOf(FRESHNESS_STATES), p) <==> FreshnessState(o)
    ensures Passes(o, OneOf(SCHEDULE_STATES), p) <==> ScheduleState(o)
  {
  }

  predicate AllPass(members: seq<Member>, f: Fields, p: Platform) {
    forall i | 0 <= i < |members| :: Passes(Lookup(f, members[i].key), members[i].rule, p)
  }

  lemma MembersPass(members: seq<Member>, f: Fields, p: Platform)
    ensures CheckMembers(members, f, p).Some? <==> AllPass(members, f, p)
  {
    CheckedMembers(members, f, p);
  }

  lemma PassesFacts(o: Option<Json>, members: seq<Member>, finiteDate: Str -> bool)
    requires o.Some? ==> Valid(o.value)
    ensures Passes(o, Facts(members), Terms(finiteDate))
       <==> FactsObject(o) && AllPass(members, o.value.fields, Terms(finiteDate))
  {
    if o.Some? && o.value.Obj? {
      CleanIffUnscanned(o.value);
      MembersPass(members, o.value.fields, Terms(finiteDate));
    }
  }

  lemma PassesRecord(o: Option<Json>, members: seq<Member>, p: Platform)
    ensures Passes(o, Record(members), p)
       <==> o.Some? && o.value.Obj? && AllPass(members, o.value.fields, p)
  {
    if o.Some? && o.value.Obj? { MembersPass(members, o.value.fields, p); }
  }

  // ---------- the parser's tables ----------

  lemma AllPassTwo(a: Member, b: Member, f: Fields, p: Platform)
    ensures AllPass([a, b], f, p) <==> Passes(Lookup(f, a.key), a.rule, p) && Passes(Lookup(f, b.key), b.rule, p)
  {
    assert [a, b][0] == a && [a, b][1] == b;
  }

  lemma CoveragePasses(o: Option<Json>, finiteDate: Str -> bool)
    requires o.Some? ==> Valid(o.value)
    ensures Passes(o, Facts(COVERAGE), Terms(finiteDate)) <==> CoverageFacts(o)
  {
    PassesFacts(o, COVERAGE, finiteDate);
    if FactsObject(o) {
      AllPassTwo(COVERAGE[0], COVERAGE[1], o.value.fields, Terms(finiteDate));
      PassesOtherStates(Get(o.value.fields, "state"), Terms(finiteDate));
      PassesStrings(Get(o.value.fields, "reasons"), Terms(finiteDate));
    }
  }

  lemma FreshnessPasses(o: Option<Json>, finiteDate: Str -> bool)
    requires o.Some? ==> Valid(o.value)
    ensures Passes(o, Facts(FRESHNESS), Terms(finiteDate)) <==> FreshnessFacts(o, finiteDate)
  {
    PassesFacts(o, FRESHNESS, finiteDate);
    if FactsObject(o) {
      AllPassTwo(FRESHNESS[0], FRESHNESS[1], o.value.fields, Terms(finiteDate));
      PassesOtherStates(Get(o.value.fields, "state"), Terms(finiteDate));
      PassesDate(Get(o.value.fields, "lastSuccessfulAcquisitionAt"), finiteDate);
    }
  }

  lemma SchedulePasses(o: Option<Json>, finiteDate: Str -> bool)
    requires o.Some? ==> Valid(o.value)
    ensures Passes(o, Facts(SCHEDULE), Terms(finiteDate)) <==> ScheduleFacts(o)
  {
    PassesFacts(o, SCHEDULE, finiteDate);
    if FactsObject(o) {
      assert SCHEDULE[0].key == S("state");
      PassesOtherStates(Get(o.value.fields, "state"), Terms(finiteDate));
    }
  }

  lemma ReliabilityPasses(o: Option<Json>, finiteDate: Str -> bool)
    requires o.Some? ==> Valid(o.value)
    ensures Passes(o, Facts(RELIABILITY), Terms(finiteDate)) <==> ReliabilityFacts(o)
  {
    PassesFacts(o, RELIABILITY, finiteDate);
    if FactsObject(o) {
      assert RELIABILITY[0].key == S("attempts") && RELIABILITY[1].key == S("failed");
      assert RELIABILITY[2].key == S("unrecoveredFailure");
      PassesCount(Get(o.value.fields, "attempts"), Terms(finiteDate));
      PassesCount(Get(o.value.fields, "failed"), Terms(finiteDate));
      PassesCount(Get(o.value.fields, "unrecoveredFailure"), Terms(finiteDate));
    }
  }

  lemma ChangePasses(o: Option<Json>, finiteDate: Str -> bool)
    requires o.Some? ==> Valid(o.value)
    ensures Passes(o, Facts(CHANGE_ACTIVITY), Terms(finiteDate)) <==> ChangeFacts(o, finiteDate)
  {
    PassesFacts(o, CHANGE_ACTIVITY, finiteDate);
    if FactsObject(o) {
      AllPassTwo(CHANGE_ACTIVITY[0], CHANGE_ACTIVITY[1], o.value.fields, Terms(finiteDate));
      PassesCount(Get(o.value.fields, "updates30d"), Terms(finiteDate));
      PassesDate(Get(o.value.fields, "lastObservedChangeAt"), finiteDate);
    }
  }

  lemma PlainFactsPass(o: Option<Json>, finiteDate: Str -> bool)
    requires o.Some? ==> Valid(o.value)
    ensures Passes(o, Facts([]), Terms(finiteDate)) <==> FactsObject(o)
    ensures Passes(o, NullOr(Facts([])), Terms(finiteDate)) <==> o == Some(Null) || FactsObject(o)
  {
    PassesFacts(o, [], finiteDate);
  }

  lemma AllPassConcat(a: seq<Member>, b: seq<Member>, f: Fields, p: Platform)
    ensures AllPass(a + b, f, p) <==> AllPass(a, f, p) && AllPass(b, f, p)
  {
    var all := a + b;
    if AllPass(all, f, p) {
      forall i | 0 <= i < |a| ensures Passes(Lookup(f, a[i].key), a[i].rule, p) { assert all[i] == a[i]; }
      forall i | 0 <= i < |b| ensures Passes(Lookup(f, b[i].key), b[i].rule, p) { assert all[|a| + i] == b[i]; }
    }
  }

  lemma AllPassThree(a: Member, b: Member, c: Member, f: Fields, p: Platform)
    ensures AllPass([a, b, c], f, p) <==>
      && Passes(Lookup(f, a.key), a.rule, p) && Passes(Lookup(f, b.key), b.rule, p)
      && Passes(Lookup(f, c.key), c.rule, p)
  {
    assert [a, b, c][0] == a && [a, b, c][1] == b && [a, b, c][2] == c;
  }

  lemma ThreeTextsPass(k: string, l: string, m: string, f: Fields, p: Platform)
    ensures AllPass([Member(S(k), TrimmedText), Member(S(l), TrimmedText), Member(S(m), TrimmedText)], f, p) <==>
      FilledText(Get(f, k)) && FilledText(Get(f, l)) && FilledText(Get(f, m))
  {
    AllPassThree(Member(S(k), TrimmedText), Member(S(l), TrimmedText), Member(S(m), TrimmedText), f, p);
  }

  lemma ItemTextsPass(f: Fields, p: Platform)
    ensures AllPass(ITEM[..6], f, p) <==>
      && FilledText(Get(f, "targetId")) && FilledText(Get(f, "jurisdiction")) && FilledText(Get(f, "authorityName"))
      && FilledText(Get(f, "authorityLevel")) && FilledText(Get(f, "family")) && FilledText(Get(f, "displayName"))
  {
    ThreeTextsPass("targetId", "jurisdiction", "authorityName", f, p);
    ThreeTextsPass("authorityLevel", "family", "displayName", f, p);
    var m := [Member(S("targetId"), TrimmedText), Member(S("jurisdiction"), TrimmedText),
              Member(S("authorityName"), TrimmedText)];
    var n := [Member(S("authorityLevel"), TrimmedText), Member(S("family"), TrimmedText),
              Member(S("displayName"), TrimmedText)];
    assert ITEM[..6] == m + n;
    AllPassConcat(m, n, f, p);
  }

  lemma ItemListsPass(f: Fields, p: Platform)
    ensures AllPass(ITEM[6..9], f, p) <==>
      TextList(Get(f, "sourceIds")) && HealthState(Get(f, "state")) && TextList(Get(f, "reasonCodes"))
  {
    var m := ITEM[6..9];
    assert m == [m[0], m[1], m[2]];
    AllPassThree(m[0], m[1], m[2], f, p);
    PassesStrings(Get(f, "sourceIds"), p);
    PassesHealth(Get(f, "state"), p);
    PassesStrings(Get(f, "reasonCodes"), p);
  }

  lemma ItemFactsPass(f: Fields, finiteDate: Str -> bool)
    requires ValidFields(f)
    ensures AllPass(ITEM[9..13], f, Terms(finiteDate)) <==>
      && CoverageFacts(Get(f, "coverage")) && FreshnessFacts(Get(f, "freshness"), finiteDate)
      && ScheduleFacts(Get(f, "schedule"))
      && (Get(f, "currentRun") == Some(Null) || FactsObject(Get(f, "currentRun")))
  {
    var m := ITEM[9..13];
    assert m == [m[0], m[1]] + [m[2], m[3]];
    AllPassConcat([m[0], m[1]], [m[2], m[3]], f, Terms(finiteDate));
    AllPassTwo(m[0], m[1], f, Terms(finiteDate));
    AllPassTwo(m[2], m[3], f, Terms(finiteDate));
    ValuesValid(f);
    CoveragePasses(Get(f, "coverage"), finiteDate);
    FreshnessPasses(Get(f, "freshness"), finiteDate);
    SchedulePasses(Get(f, "schedule"), finiteDate);
    PlainFactsPass(Get(f, "currentRun"), finiteDate);
  }

  lemma ItemLastPass(f: Fields, finiteDate: Str -> bool)
    requires ValidFields(f)
    ensures AllPass(ITEM[13..], f, Terms(finiteDate)) <==>
      && ReliabilityFacts(Get(f, "reliability")) && FactsObject(Get(f, "latency"))
      && ChangeFacts(Get(f, "changeActivity"), finiteDate) && DateText(Get(f, "observedAt"), finiteDate)
  {
    var m := ITEM[13..];
    assert m == [m[0], m[1]] + [m[2], m[3]];
    AllPassConcat([m[0], m[1]], [m[2], m[3]], f, Terms(finiteDate));
    AllPassTwo(m[0], m[1], f, Terms(finiteDate));
    AllPassTwo(m[2], m[3], f, Terms(finiteDate));
    ValuesValid(f);
    ReliabilityPasses(Get(f, "reliability"), finiteDate);
    PlainFactsPass(Get(f, "latency"), finiteDate);
    ChangePasses(Get(f, "changeActivity"), finiteDate);
    PassesDate(Get(f, "observedAt"), finiteDate);
  }

  lemma ValuesValid(f: Fields)
    requires ValidFields(f)
    ensures forall k | Lookup(f, k).Some? :: Valid(Lookup(f, k).value)
  {
    forall k | Lookup(f, k).Some? ensures Valid(Lookup(f, k).value) { LookupValid(f, k); }
  }

  lemma ItemPasses(f: Fields, finiteDate: Str -> bool)
    requires ValidFields(f)
    ensures AllPass(ITEM, f, Terms(finiteDate)) <==> ItemFits(f, finiteDate)
  {
    var p := Terms(finiteDate);
    assert ITEM == ITEM[..6] + (ITEM[6..9] + (ITEM[9..13] + ITEM[13..]));
    AllPassConcat(ITEM[..6], ITEM[6..9] + (ITEM[9..13] + ITEM[13..]), f, p);
    AllPassConcat(ITEM[6..9], ITEM[9..13] + ITEM[13..], f, p);
    AllPassConcat(ITEM[9..13], ITEM[13..], f, p);
    ItemTextsPass(f, p);
    ItemListsPass(f, p);
    ItemFactsPass(f, finiteDate);
    ItemLastPass(f, finiteDate);
  }

  // ---------- the items, the summary, the header ----------

  lemma GuardedItemPasses(item: Json, finiteDate: Str -> bool)
    requires Valid(item)
    ensures Check(Guarded(Record(ITEM)), item, Terms(finiteDate)).Some? <==> ItemAccepted(item, finiteDate)
  {
    CleanIffUnscanned(item);
    PassesRecord(Some(item), ITEM, Terms(finiteDate));
    if item.Obj? { ItemPasses(item.fields, finiteDate); }
  }

  lemma {:induction false} ItemsPass(items: Items, finiteDate: Str -> bool)
    requires ValidItems(items)
    ensures CheckItems(Guarded(Record(ITEM)), items, Terms(finiteDate)).Some? <==> ItemsFit(items, finiteDate)
  {
    if items.Cons? {
      GuardedItemPasses(items.head, finiteDate);
      ItemsPass(items.tail, finiteDate);
      ItemsFitCons(items, finiteDate);
    }
  }

  lemma ItemsFitCons(items: Items, finiteDate: Str -> bool)
    requires items.Cons?
    ensures ItemsFit(items, finiteDate) <==> ItemAccepted(items.head, finiteDate) && ItemsFit(items.tail, finiteDate)
  {
    assert Nth(items, 0) == Some(items.head);
    if ItemsFit(items, finiteDate) {
      forall i: nat | Nth(items.tail, i).Some? ensures ItemAccepted(Nth(items.tail, i).value, finiteDate) {
        assert Nth(items, i + 1) == Nth(items.tail, i);
      }
    } else if ItemAccepted(items.head, finiteDate) && ItemsFit(items.tail, finiteDate) {
      forall i: nat | Nth(items, i).Some? ensures ItemAccepted(Nth(items, i).value, finiteDate) {
        if i > 0 { assert Nth(items, i) == Nth(items.tail, i - 1); }
      }
    }
  }

  lemma ThreeCountsPass(k: string, l: string, m: string, f: Fields, p: Platform)
    ensures AllPass([Member(S(k), Count), Member(S(l), Count), Member(S(m), Count)], f, p) <==>
      CountNumber(Get(f, k)) && CountNumber(Get(f, l)) && CountNumber(Get(f, m))
  {
    AllPassThree(Member(S(k), Count), Member(S(l), Count), Member(S(m), Count), f, p);
    PassesCount(Get(f, k), p);
    PassesCount(Get(f, l), p);
    PassesCount(Get(f, m), p);
  }

  lemma StateCountsPass(o: Option<Json>, p: Platform)
    ensures Passes(o, Record(Counts(HEALTH_STATES)), p) <==> StateCounts(o)
  {
    var m := Counts(HEALTH_STATES);
    PassesRecord(o, m, p);
    if o.Some? && o.value.Obj? {
      var f := o.value.fields;
      assert m[..3] == [Member(S("HEALTHY"), Count), Member(S("DEGRADED"), Count), Member(S("STALE"), Count)];
      assert m[3..] == [Member(S("BLOCKED"), Count), Member(S("PARTIAL"), Count), Member(S("UNKNOWN"), Count)];
      assert m == m[..3] + m[3..];
      AllPassConcat(m[..3], m[3..], f, p);
      ThreeCountsPass("HEALTHY", "DEGRADED", "STALE", f, p);
      ThreeCountsPass("BLOCKED", "PARTIAL", "UNKNOWN", f, p);
    }
  }

  lemma CoverageCountsPass(o: Option<Json>, p: Platform)
    ensures Passes(o, Record(Counts(COVERAGE_STATES)), p) <==> CoverageCounts(o)
  {
    var m := Counts(COVERAGE_STATES);
    PassesRecord(o, m, p);
    assert m == [Member(S("COMPLETE"), Count), Member(S("PARTIAL"), Count), Member(S("UNKNOWN"), Count)];
    if o.Some? && o.value.Obj? { ThreeCountsPass("COMPLETE", "PARTIAL", "UNKNOWN", o.value.fields, p); }
  }

  lemma SummaryPasses(o: Option<Json>, p: Platform)
    ensures Passes(o, Record(SUMMARY), p) <==> o.Some? && o.value.Obj? && SummaryFits(o.value.fields)
  {
    PassesRecord(o, SUMMARY, p);
    if o.Some? && o.value.Obj? {
      var f, m := o.value.fields, SUMMARY;
      assert m == [m[0], m[1], m[2]] + (m[3..6] + [m[6]]);
      AllPassConcat([m[0], m[1], m[2]], m[3..6] + [m[6]], f, p);
      AllPassConcat(m[3..6], [m[6]], f, p);
      AllPassThree(m[0], m[1], m[2], f, p);
      ThreeCountsPass("requiringAttention", "stale", "blocked", f, p);
      assert m[3..6] ==
        [Member(S("requiringAttention"), Count), Member(S("stale"), Count), Member(S("blocked"), Count)];
      assert [m[6]][0] == m[6];
      PassesCount(Get(f, "total"), p);
      StateCountsPass(Get(f, "byState"), p);
      CoverageCountsPass(Get(f, "coverage"), p);
      PassesCount(Get(f, "recentChanges30d"), p);
    }
  }

  lemma HeaderPasses(f: Fields, finiteDate: Str -> bool)
    ensures AllPass(OWNER_RESULT[..8], f, Terms(finiteDate)) <==> HeaderFits(f, finiteDate)
  {
    var p, m := Terms(finiteDate), OWNER_RESULT;
    assert m[..8] == [m[0], m[1], m[2]] + ([m[3], m[4], m[5]] + [m[6], m[7]]);
    AllPassConcat([m[0], m[1], m[2]], [m[3], m[4], m[5]] + [m[6], m[7]], f, p);
    AllPassConcat([m[3], m[4], m[5]], [m[6], m[7]], f, p);
    AllPassThree(m[0], m[1], m[2], f, p);
    AllPassThree(m[3], m[4], m[5], f, p);
    AllPassTwo(m[6], m[7], f, p);
    PassesText(Get(f, "protocolVersion"), "1.0", p);
    PassesText(Get(f, "objectType"), "CONTROL_PLANE_EVIDENCE_SUPPLY_HEALTH_OWNER_RESULT", p);
    PassesText(Get(f, "owner"), "KNOWLEDGE", p);
    PassesText(Get(f, "access"), "READ_ONLY", p);
    PassesText(Get(f, "requiredUpstreamAuthority"), "control-plane:knowledge:read", p);
    PassesText(Get(f, "sourceReadModel"), "evidence-supply-health.v1", p);
    PassesText(Get(f, "workspaceId"), "", p);
    PassesDate(Get(f, "observedAt"), finiteDate);
  }

  lemma ItemListPasses(o: Option<Json>, finiteDate: Str -> bool)
    requires o.Some? ==> Valid(o.value)
    ensures Passes(o, ListOf(Guarded(Record(ITEM))), Terms(finiteDate)) <==>
      ListValue(o) && ItemsFit(o.value.items, finiteDate)
  {
    if ListValue(o) { ItemsPass(o.value.items, finiteDate); }
  }

  lemma BodyPasses(f: Fields, finiteDate: Str -> bool)
    requires ValidFields(f)
    ensures AllPass(OWNER_RESULT[8..], f, Terms(finiteDate)) <==>
      && ListValue(Get(f, "items")) && ItemsFit(Get(f, "items").value.items, finiteDate)
      && Get(f, "summary").Some? && Get(f, "summary").value.Obj? && SummaryFits(Get(f, "summary").value.fields)
  {
    var a, b := Member(S("items"), ListOf(Guarded(Record(ITEM)))), Member(S("summary"), Record(SUMMARY));
    assert OWNER_RESULT[8..] == [a, b];
    AllPassTwo(a, b, f, Terms(finiteDate));
    ValuesValid(f);
    ItemListPasses(Get(f, "items"), finiteDate);
    SummaryPasses(Get(f, "summary"), Terms(finiteDate));
  }

  lemma ResultPasses(f: Fields, finiteDate: Str -> bool)
    requires ValidFields(f)
    ensures AllPass(OWNER_RESULT, f, Terms(finiteDate)) <==> ResultFits(f, finiteDate)
  {
    assert OWNER_RESULT == OWNER_RESULT[..8] + OWNER_RESULT[8..];
    AllPassConcat(OWNER_RESULT[..8], OWNER_RESULT[8..], f, Terms(finiteDate));
    HeaderPasses(f, finiteDate);
    BodyPasses(f, finiteDate);
  }

  // ---------- what is kept ----------

  /** What a record keeps of a field. */
  lemma KeptMember(members: seq<Member>, f: Fields, p: Platform, i: nat)
    requires i < |members| && CheckMembers(members, f, p).Some?
    requires forall i, j | 0 <= i < j < |members| :: members[i].key != members[j].key
    ensures Lookup(f, members[i].key).Some? && Check(members[i].rule, Lookup(f, members[i].key).value, p).Some?
    ensures Lookup(Literal(MemberKeys(members), CheckMembers(members, f, p).value), members[i].key)
         == Check(members[i].rule, Lookup(f, members[i].key).value, p)
  {
    CheckedMembers(members, f, p);
    LookupLiteral(MemberKeys(members), CheckMembers(members, f, p).value, i);
  }

  lemma {:induction false} LiteralKeys(keys: seq<Str>, values: seq<Json>)
    requires |keys| == |values|
    ensures forall k :: k in Keys(Literal(keys, values)) <==> k in keys
    decreases |keys|
  {
    if keys != [] {
      LiteralKeys(keys[1..], values[1..]);
      assert keys == [keys[0]] + keys[1..];
    }
  }

  /** These rules keep a value as it is. */
  predicate KeepsAll(rule: Rule) {
    match rule
    case NullOr(x) => KeepsAll(x)
    case TrimmedText => false
    case Strings => false
    case Guarded(_) => false
    case Record(_) => false
    case ListOf(_) => false
    case _ => true
  }

  lemma {:induction false} KeepsValue(rule: Rule, v: Json, p: Platform)
    requires KeepsAll(rule) && Check(rule, v, p).Some?
    ensures Check(rule, v, p) == Some(v)
  {
    if rule.NullOr? && !v.Null? { KeepsValue(rule.rule, v, p); }
  }

  predicate TrimmedOf(o: Option<Json>, kept: Option<Json>) {
    o.Some? && o.value.Text? && kept == Some(Text(Trim(o.value.text)))
  }

  /** Text by text, trimmed. */
  predicate TrimmedItems(items: Items, kept: Items) {
    match items
    case Nil => kept.Nil?
    case Cons(h, t) => kept.Cons? && TrimmedOf(Some(h), Some(kept.head)) && TrimmedItems(t, kept.tail)
  }

  predicate TrimmedList(o: Option<Json>, kept: Option<Json>) {
    ListValue(o) && ListValue(kept) && TrimmedItems(o.value.items, kept.value.items)
  }

  lemma {:induction false} TrimItemsTrims(items: Items)
    requires TrimItems(items).Some?
    ensures TrimmedItems(items, TrimItems(items).value)
  {
    if items.Cons? { TrimItemsTrims(items.tail); }
  }

  const ITEM_KEYS: seq<string> := [
    "targetId", "jurisdiction", "authorityName", "authorityLevel", "family", "displayName", "sourceIds", "state",
    "reasonCodes", "coverage", "freshness", "schedule", "currentRun", "reliability", "latency", "changeActivity",
    "observedAt"]

  ghost predicate OnlyKeys(f: Fields, keys: seq<string>) {
    forall k :: k in Keys(f) <==> exists i :: 0 <= i < |keys| && k == S(keys[i])
  }

  /** The six texts and the two lists are trimmed, everything else is kept as it is, and nothing is added. */
  ghost predicate ItemKept(f: Fields, g: Fields) {
    && OnlyKeys(g, ITEM_KEYS)
    && TrimmedOf(Get(f, "targetId"), Get(g, "targetId")) && TrimmedOf(Get(f, "jurisdiction"), Get(g, "jurisdiction"))
    && TrimmedOf(Get(f, "authorityName"), Get(g, "authorityName"))
    && TrimmedOf(Get(f, "authorityLevel"), Get(g, "authorityLevel"))
    && TrimmedOf(Get(f, "family"), Get(g, "family")) && TrimmedOf(Get(f, "displayName"), Get(g, "displayName"))
    && TrimmedList(Get(f, "sourceIds"), Get(g, "sourceIds"))
    && TrimmedList(Get(f, "reasonCodes"), Get(g, "reasonCodes"))
    && Get(g, "state") == Get(f, "state") && Get(g, "coverage") == Get(f, "coverage")
    && Get(g, "freshness") == Get(f, "freshness") && Get(g, "schedule") == Get(f, "schedule")
    && Get(g, "currentRun") == Get(f, "currentRun") && Get(g, "reliability") == Get(f, "reliability")
    && Get(g, "latency") == Get(f, "latency") && Get(g, "changeActivity") == Get(f, "changeActivity")
    && Get(g, "observedAt") == Get(f, "observedAt")
  }

  /** What a rule keeps of a value. */
  ghost predicate KeptBy(rule: Rule, v: Option<Json>, kept: Option<Json>) {
    && (rule == TrimmedText ==> TrimmedOf(v, kept))
    && (rule == Strings ==> TrimmedList(v, kept))
    && (KeepsAll(rule) ==> kept == v)
  }

  lemma CheckKeeps(rule: Rule, v: Json, p: Platform)
    requires Check(rule, v, p).Some?
    ensures KeptBy(rule, Some(v), Check(rule, v, p))
  {
    if rule == Strings {
      assert v.Arr?;
      TrimItemsTrims(v.items);
    }
    if KeepsAll(rule) { KeepsValue(rule, v, p); }
  }

  ghost predicate AllKept(members: seq<Member>, f: Fields, g: Fields) {
    forall i | 0 <= i < |members| :: KeptBy(members[i].rule, Lookup(f, members[i].key), Lookup(g, members[i].key))
  }

  lemma MembersKept(members: seq<Member>, f: Fields, p: Platform)
    requires CheckMembers(members, f, p).Some?
    requires forall i, j | 0 <= i < j < |members| :: members[i].key != members[j].key
    ensures AllKept(members, f, Literal(MemberKeys(members), CheckMembers(members, f, p).value))
  {
    forall i | 0 <= i < |members|
      ensures KeptBy(members[i].rule, Lookup(f, members[i].key),
                     Lookup(Literal(MemberKeys(members), CheckMembers(members, f, p).value), members[i].key))
    {
      KeptMember(members, f, p, i);
      CheckKeeps(members[i].rule, Lookup(f, members[i].key).value, p);
    }
  }

  lemma KeptAt(members: seq<Member>, f: Fields, g: Fields, i: nat, key: string, rule: Rule)
    requires AllKept(members, f, g) && i < |members| && members[i] == Member(S(key), rule)
    ensures KeptBy(rule, Get(f, key), Get(g, key))
  {
  }

  lemma ItemNamesKept(f: Fields, g: Fields)
    requires AllKept(ITEM, f, g)
    ensures TrimmedOf(Get(f, "targetId"), Get(g, "targetId"))
    ensures TrimmedOf(Get(f, "jurisdiction"), Get(g, "jurisdiction"))
  {
    KeptAt(ITEM, f, g, 0, "targetId", TrimmedText);
    KeptAt(ITEM, f, g, 1, "jurisdiction", TrimmedText);
  }

  lemma ItemAuthorityKept(f: Fields, g: Fields)
    requires AllKept(ITEM, f, g)
    ensures TrimmedOf(Get(f, "authorityName"), Get(g, "authorityName"))
    ensures TrimmedOf(Get(f, "authorityLevel"), Get(g, "authorityLevel"))
  {
    KeptAt(ITEM, f, g, 2, "authorityName", TrimmedText);
    KeptAt(ITEM, f, g, 3, "authorityLevel", TrimmedText);
  }

  lemma ItemTextsKept(f: Fields, g: Fields)
    requires AllKept(ITEM, f, g)
    ensures TrimmedOf(Get(f, "family"), Get(g, "family")) && TrimmedOf(Get(f, "displayName"), Get(g, "displayName"))
  {
    KeptAt(ITEM, f, g, 4, "family", TrimmedText);
    KeptAt(ITEM, f, g, 5, "displayName", TrimmedText);
  }

  lemma ItemListsKept(f: Fields, g: Fields)
    requires AllKept(ITEM, f, g)
    ensures TrimmedList(Get(f, "sourceIds"), Get(g, "sourceIds"))
    ensures TrimmedList(Get(f, "reasonCodes"), Get(g, "reasonCodes"))
  {
    KeptAt(ITEM, f, g, 6, "sourceIds", Strings);
    KeptAt(ITEM, f, g, 8, "reasonCodes", Strings);
  }

  lemma ItemStatesKept(f: Fields, g: Fields)
    requires AllKept(ITEM, f, g)
    ensures Get(g, "state") == Get(f, "state") && Get(g, "coverage") == Get(f, "coverage")
    ensures Get(g, "freshness") == Get(f, "freshness") && Get(g, "schedule") == Get(f, "schedule")
    ensures Get(g, "currentRun") == Get(f, "currentRun")
  {
    KeptAt(ITEM, f, g, 7, "state", OneOf(HEALTH_STATES));
    KeptAt(ITEM, f, g, 9, "coverage", Facts(COVERAGE));
    KeptAt(ITEM, f, g, 10, "freshness", Facts(FRESHNESS));
    KeptAt(ITEM, f, g, 11, "schedule", Facts(SCHEDULE));
    KeptAt(ITEM, f, g, 12, "currentRun", NullOr(Facts([])));
  }

  lemma ItemFactsKept(f: Fields, g: Fields)
    requires AllKept(ITEM, f, g)
    ensures Get(g, "reliability") == Get(f, "reliability") && Get(g, "latency") == Get(f, "latency")
    ensures Get(g, "changeActivity") == Get(f, "changeActivity") && Get(g, "observedAt") == Get(f, "observedAt")
  {
    KeptAt(ITEM, f, g, 13, "reliability", Facts(RELIABILITY));
    KeptAt(ITEM, f, g, 14, "latency", Facts([]));
    KeptAt(ITEM, f, g, 15, "changeActivity", Facts(CHANGE_ACTIVITY));
    KeptAt(ITEM, f, g, 16, "observedAt", Timestamp);
  }

  lemma ItemKeysAre()
    ensures |ITEM_KEYS| == |ITEM| && forall i | 0 <= i < |ITEM| :: ITEM[i].key == S(ITEM_KEYS[i])
  {
  }

  lemma RecordKeys(members: seq<Member>, values: seq<Json>, keys: seq<string>)
    requires |members| == |values| == |keys| && forall i | 0 <= i < |keys| :: members[i].key == S(keys[i])
    ensures OnlyKeys(Literal(MemberKeys(members), values), keys)
  {
    LiteralKeys(MemberKeys(members), values);
    forall k ensures k in MemberKeys(members) <==> exists i :: 0 <= i < |keys| && k == S(keys[i]) {
      if k in MemberKeys(members) {
        var i :| 0 <= i < |members| && MemberKeys(members)[i] == k;
        assert k == S(keys[i]);
      }
      if i :| 0 <= i < |keys| && k == S(keys[i]) { assert MemberKeys(members)[i] == k; }
    }
  }

  lemma ItemIsKept(f: Fields, p: Platform)
    requires CheckMembers(ITEM, f, p).Some?
    ensures ItemKept(f, Literal(MemberKeys(ITEM), CheckMembers(ITEM, f, p).value))
  {
    ItemKeysDistinct();
    MembersKept(ITEM, f, p);
    var g := Literal(MemberKeys(ITEM), CheckMembers(ITEM, f, p).value);
    ItemNamesKept(f, g);
    ItemAuthorityKept(f, g);
    ItemTextsKept(f, g);
    ItemListsKept(f, g);
    ItemStatesKept(f, g);
    ItemFactsKept(f, g);
    ItemKeysAre();
    RecordKeys(ITEM, CheckMembers(ITEM, f, p).value, ITEM_KEYS);
  }

  /** Item by item. */
  ghost predicate ItemsKept(items: Items, kept: Items) {
    match items
    case Nil => kept.Nil?
    case Cons(h, t) =>
      && kept.Cons? && h.Obj? && kept.head.Obj? && ItemKept(h.fields, kept.head.fields) && ItemsKept(t, kept.tail)
  }

  lemma {:induction false} ItemsAreKept(items: Items, p: Platform)
    requires CheckItems(Guarded(Record(ITEM)), items, p).Some?
    ensures ItemsKept(items, CheckItems(Guarded(Record(ITEM)), items, p).value)
  {
    if items.Cons? {
      var h := items.head;
      assert Check(Record(ITEM), h, p).Some?;
      assert h.Obj? && CheckMembers(ITEM, h.fields, p).Some?;
      ItemIsKept(h.fields, p);
      ItemsAreKept(items.tail, p);
    }
  }

  const SUMMARY_KEYS: seq<string> := [
    "total", "byState", "coverage", "requiringAttention", "stale", "blocked", "recentChanges30d"]
  const STATE_KEYS: seq<string> := ["HEALTHY", "DEGRADED", "STALE", "BLOCKED", "PARTIAL", "UNKNOWN"]
  const COVERAGE_KEYS: seq<string> := ["COMPLETE", "PARTIAL", "UNKNOWN"]
  const RESULT_KEYS: seq<string> := [
    "protocolVersion", "objectType", "owner", "access", "requiredUpstreamAuthority", "sourceReadModel", "workspaceId",
    "observedAt", "items", "summary"]

  /** The listed fields as they are, and nothing else. */
  ghost predicate SameFields(o: Option<Json>, kept: Option<Json>, keys: seq<string>) {
    && o.Some? && o.value.Obj? && kept.Some? && kept.value.Obj? && OnlyKeys(kept.value.fields, keys)
    && forall i | 0 <= i < |keys| :: Get(kept.value.fields, keys[i]) == Get(o.value.fields, keys[i])
  }

  lemma CountsKept(v: Json, texts: seq<Str>, keys: seq<string>, p: Platform)
    requires Check(Record(Counts(texts)), v, p).Some? && Distinct(texts)
    requires |texts| == |keys| && forall i | 0 <= i < |keys| :: texts[i] == S(keys[i])
    ensures SameFields(Some(v), Check(Record(Counts(texts)), v, p), keys)
  {
    var m := Counts(texts);
    assert v.Obj? && CheckMembers(m, v.fields, p).Some?;
    MembersKept(m, v.fields, p);
    RecordKeys(m, CheckMembers(m, v.fields, p).value, keys);
    var g := Literal(MemberKeys(m), CheckMembers(m, v.fields, p).value);
    forall i | 0 <= i < |keys| ensures Get(g, keys[i]) == Get(v.fields, keys[i]) {
      assert KeptBy(m[i].rule, Lookup(v.fields, m[i].key), Lookup(g, m[i].key));
    }
  }

  /** The five counts as they are, the two records of counts key by key. */
  ghost predicate SummaryKept(f: Fields, g: Fields) {
    && OnlyKeys(g, SUMMARY_KEYS) && Get(g, "total") == Get(f, "total")
    && SameFields(Get(f, "byState"), Get(g, "byState"), STATE_KEYS)
    && SameFields(Get(f, "coverage"), Get(g, "coverage"), COVERAGE_KEYS)
    && Get(g, "requiringAttention") == Get(f, "requiringAttention") && Get(g, "stale") == Get(f, "stale")
    && Get(g, "blocked") == Get(f, "blocked") && Get(g, "recentChanges30d") == Get(f, "recentChanges30d")
  }

  lemma SummaryCountsKept(f: Fields, g: Fields)
    requires AllKept(SUMMARY, f, g)
    ensures Get(g, "total") == Get(f, "total")
    ensures Get(g, "requiringAttention") == Get(f, "requiringAttention") && Get(g, "stale") == Get(f, "stale")
    ensures Get(g, "blocked") == Get(f, "blocked") && Get(g, "recentChanges30d") == Get(f, "recentChanges30d")
  {
    KeptAt(SUMMARY, f, g, 0, "total", Count);
    KeptAt(SUMMARY, f, g, 3, "requiringAttention", Count);
    KeptAt(SUMMARY, f, g, 4, "stale", Count);
    KeptAt(SUMMARY, f, g, 5, "blocked", Count);
    KeptAt(SUMMARY, f, g, 6, "recentChanges30d", Count);
  }

  lemma StateKeysAre()
    ensures |STATE_KEYS| == |HEALTH_STATES| && forall i | 0 <= i < 6 :: HEALTH_STATES[i] == S(STATE_KEYS[i])
    ensures |COVERAGE_KEYS| == |COVERAGE_STATES| && forall i | 0 <= i < 3 :: COVERAGE_STATES[i] == S(COVERAGE_KEYS[i])
    ensures |SUMMARY_KEYS| == |SUMMARY| && forall i | 0 <= i < 7 :: SUMMARY[i].key == S(SUMMARY_KEYS[i])
  {
  }

  lemma SummaryRecordsKept(f: Fields, p: Platform)
    requires CheckMembers(SUMMARY, f, p).Some?
    ensures var g := Literal(MemberKeys(SUMMARY), CheckMembers(SUMMARY, f, p).value);
      && SameFields(Get(f, "byState"), Get(g, "byState"), STATE_KEYS)
      && SameFields(Get(f, "coverage"), Get(g, "coverage"), COVERAGE_KEYS)
  {
    SummaryKeysDistinct();
    StateKeysDistinct();
    StateKeysAre();
    KeptMember(SUMMARY, f, p, 1);
    KeptMember(SUMMARY, f, p, 2);
    assert SUMMARY[1] == Member(S("byState"), Record(Counts(HEALTH_STATES)));
    assert SUMMARY[2] == Member(S("coverage"), Record(Counts(COVERAGE_STATES)));
    CountsKept(Get(f, "byState").value, HEALTH_STATES, STATE_KEYS, p);
    CountsKept(Get(f, "coverage").value, COVERAGE_STATES, COVERAGE_KEYS, p);
  }

  lemma SummaryIsKept(f: Fields, p: Platform)
    requires CheckMembers(SUMMARY, f, p).Some?
    ensures SummaryKept(f, Literal(MemberKeys(SUMMARY), CheckMembers(SUMMARY, f, p).value))
  {
    SummaryKeysDistinct();
    StateKeysAre();
    MembersKept(SUMMARY, f, p);
    SummaryCountsKept(f, Literal(MemberKeys(SUMMARY), CheckMembers(SUMMARY, f, p).value));
    SummaryRecordsKept(f, p);
    RecordKeys(SUMMARY, CheckMembers(SUMMARY, f, p).value, SUMMARY_KEYS);
  }

  ghost predicate HeaderKept(f: Fields, g: Fields) {
    && Get(g, "protocolVersion") == Get(f, "protocolVersion") && Get(g, "objectType") == Get(f, "objectType")
    && Get(g, "owner") == Get(f, "owner") && Get(g, "access") == Get(f, "access")
    && Get(g, "requiredUpstreamAuthority") == Get(f, "requiredUpstreamAuthority")
    && Get(g, "sourceReadModel") == Get(f, "sourceReadModel")
    && Get(g, "workspaceId") == Get(f, "workspaceId") && Get(g, "observedAt") == Get(f, "observedAt")
  }

  lemma ProtocolKept(f: Fields, g: Fields)
    requires AllKept(OWNER_RESULT, f, g)
    ensures Get(g, "protocolVersion") == Get(f, "protocolVersion") && Get(g, "objectType") == Get(f, "objectType")
    ensures Get(g, "owner") == Get(f, "owner") && Get(g, "access") == Get(f, "access")
  {
    KeptAt(OWNER_RESULT, f, g, 0, "protocolVersion", Exactly(S("1.0")));
    KeptAt(OWNER_RESULT, f, g, 1, "objectType", Exactly(S("CONTROL_PLANE_EVIDENCE_SUPPLY_HEALTH_OWNER_RESULT")));
    KeptAt(OWNER_RESULT, f, g, 2, "owner", Exactly(S("KNOWLEDGE")));
    KeptAt(OWNER_RESULT, f, g, 3, "access", Exactly(S("READ_ONLY")));
  }

  lemma HeaderIsKept(f: Fields, g: Fields)
    requires AllKept(OWNER_RESULT, f, g)
    ensures HeaderKept(f, g)
  {
    ProtocolKept(f, g);
    KeptAt(OWNER_RESULT, f, g, 4, "requiredUpstreamAuthority", Exactly(S("control-plane:knowledge:read")));
    KeptAt(OWNER_RESULT, f, g, 5, "sourceReadModel", Exactly(S("evidence-supply-health.v1")));
    KeptAt(OWNER_RESULT, f, g, 6, "workspaceId", Filled);
    KeptAt(OWNER_RESULT, f, g, 7, "observedAt", Timestamp);
  }

  lemma ResultKeysAre()
    ensures |RESULT_KEYS| == |OWNER_RESULT| && forall i | 0 <= i < 10 :: OWNER_RESULT[i].key == S(RESULT_KEYS[i])
  {
  }

  ghost predicate ListKept(o: Option<Json>, kept: Option<Json>) {
    ListValue(o) && ListValue(kept) && ItemsKept(o.value.items, kept.value.items)
  }

  lemma ListIsKept(v: Json, p: Platform)
    requires Check(ListOf(Guarded(Record(ITEM))), v, p).Some?
    ensures ListKept(Some(v), Check(ListOf(Guarded(Record(ITEM))), v, p))
  {
    assert v.Arr?;
    ItemsAreKept(v.items, p);
  }

  ghost predicate SummaryObjectKept(o: Option<Json>, kept: Option<Json>) {
    o.Some? && o.value.Obj? && kept.Some? && kept.value.Obj? && SummaryKept(o.value.fields, kept.value.fields)
  }

  lemma SummaryObjectIsKept(v: Json, p: Platform)
    requires Check(Record(SUMMARY), v, p).Some?
    ensures SummaryObjectKept(Some(v), Check(Record(SUMMARY), v, p))
  {
    assert v.Obj? && CheckMembers(SUMMARY, v.fields, p).Some?;
    SummaryIsKept(v.fields, p);
  }

  lemma ResultBodyRules()
    ensures OWNER_RESULT[8] == Member(S("items"), ListOf(Guarded(Record(ITEM))))
    ensures OWNER_RESULT[9] == Member(S("summary"), Record(SUMMARY))
  {
  }

  lemma ListAtKept(members: seq<Member>, f: Fields, p: Platform, i: nat, key: string)
    requires i < |members| && CheckMembers(members, f, p).Some?
    requires forall i, j | 0 <= i < j < |members| :: members[i].key != members[j].key
    requires members[i] == Member(S(key), ListOf(Guarded(Record(ITEM))))
    ensures ListKept(Get(f, key), Get(Literal(MemberKeys(members), CheckMembers(members, f, p).value), key))
  {
    KeptMember(members, f, p, i);
    ListIsKept(Get(f, key).value, p);
  }

  lemma SummaryAtKept(members: seq<Member>, f: Fields, p: Platform, i: nat, key: string)
    requires i < |members| && CheckMembers(members, f, p).Some?
    requires forall i, j | 0 <= i < j < |members| :: members[i].key != members[j].key
    requires members[i] == Member(S(key), Record(SUMMARY))
    ensures SummaryObjectKept(Get(f, key), Get(Literal(MemberKeys(members), CheckMembers(members, f, p).value), key))
  {
    KeptMember(members, f, p, i);
    SummaryObjectIsKept(Get(f, key).value, p);
  }

  /** What is kept of a result: the header as it is, the items and the summary as above, and nothing else. */
  ghost predicate ResultKept(f: Fields, g: Fields) {
    && OnlyKeys(g, RESULT_KEYS) && HeaderKept(f, g)
    && ListKept(Get(f, "items"), Get(g, "items")) && SummaryObjectKept(Get(f, "summary"), Get(g, "summary"))
  }

  lemma ResultIsKept(f: Fields, p: Platform)
    requires CheckMembers(OWNER_RESULT, f, p).Some?
    ensures ResultKept(f, Literal(MemberKeys(OWNER_RESULT), CheckMembers(OWNER_RESULT, f, p).value))
  {
    ResultKeysDistinct();
    ResultKeysAre();
    MembersKept(OWNER_RESULT, f, p);
    HeaderIsKept(f, Literal(MemberKeys(OWNER_RESULT), CheckMembers(OWNER_RESULT, f, p).value));
    ResultBodyRules();
    ListAtKept(OWNER_RESULT, f, p, 8, "items");
    SummaryAtKept(OWNER_RESULT, f, p, 9, "summary");
    RecordKeys(OWNER_RESULT, CheckMembers(OWNER_RESULT, f, p).value, RESULT_KEYS);
  }

  lemma {:induction false} KeptCounts(items: Items, kept: Items)
    requires ItemsKept(items, kept)
    ensures Length(kept) == ItemCount(items)
  {
    if items.Cons? { KeptCounts(items.tail, kept.tail); }
  }

  // ---------- the theorems ----------

  lemma ShapeAccepted(v: Json, finiteDate: Str -> bool)
    requires Valid(v)
    ensures Check(Record(OWNER_RESULT), v, Terms(finiteDate)).Some? <==> v.Obj? && ResultFits(v.fields, finiteDate)
  {
    PassesRecord(Some(v), OWNER_RESULT, Terms(finiteDate));
    if v.Obj? { ResultPasses(v.fields, finiteDate); }
  }

  ghost predicate ResultObjectKept(v: Json, kept: Option<Json>) {
    v.Obj? && kept.Some? && kept.value.Obj? && ResultKept(v.fields, kept.value.fields)
  }

  lemma ShapeKept(v: Json, p: Platform)
    requires Check(Record(OWNER_RESULT), v, p).Some?
    ensures ResultObjectKept(v, Check(Record(OWNER_RESULT), v, p))
  {
    assert v.Obj? && CheckMembers(OWNER_RESULT, v.fields, p).Some?;
    ResultIsKept(v.fields, p);
  }

  lemma TotalKept(o: Option<Json>, kept: Option<Json>)
    requires SummaryObjectKept(o, kept)
    ensures Get(kept.value.fields, "total") == Get(o.value.fields, "total")
  {
  }

  lemma ConsistentIff(f: Fields, g: Fields, expected: Option<Str>)
    requires ResultKept(f, g) && CountNumber(Get(Get(f, "summary").value.fields, "total"))
    ensures Consistent(Obj(g), expected) <==>
      && (expected.Some? ==> Get(f, "workspaceId") == Some(Text(expected.value)))
      && Numerals.Decimal(Get(Get(f, "summary").value.fields, "total").value.numeral)
         == ItemCount(Get(f, "items").value.items)
  {
    KeptCounts(Get(f, "items").value.items, Get(g, "items").value.items);
    TotalKept(Get(f, "summary"), Get(g, "summary"));
  }

  lemma ParseWithIff(v: Json, expected: Option<Str>, finiteDate: Str -> bool)
    requires Valid(v)
    ensures ParseWith(Record(OWNER_RESULT), v, expected, Terms(finiteDate)).Some? <==> Accepted(v, expected, finiteDate)
    ensures Accepted(v, expected, finiteDate) ==>
      ResultObjectKept(v, ParseWith(Record(OWNER_RESULT), v, expected, Terms(finiteDate)))
  {
    CleanIffUnscanned(v);
    ShapeAccepted(v, finiteDate);
    if v.Obj? && ResultFits(v.fields, finiteDate) {
      ShapeKept(v, Terms(finiteDate));
      ConsistentIff(v.fields, Check(Record(OWNER_RESULT), v, Terms(finiteDate)).value.fields, expected);
    }
  }

  /** A value is accepted exactly when it is a clean, well-formed result for the expected workspace whose total counts
      its items; its fields are then the kept ones. */
  lemma ParsedIffAccepted(v: Json, expected: Option<Str>, finiteDate: Str -> bool)
    requires Valid(v)
    ensures ParseOwnerResult(v, expected, finiteDate).Some? <==> Accepted(v, expected, finiteDate)
    ensures Accepted(v, expected, finiteDate) ==> ResultObjectKept(v, ParseOwnerResult(v, expected, finiteDate))
  {
    assert FORBIDDEN_OWNER_KEYS == FORBIDDEN;
    ParseWithIff(v, expected, finiteDate);
  }
}

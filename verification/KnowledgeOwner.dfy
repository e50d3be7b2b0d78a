/** The Knowledge owner parser: a normalising reader of untrusted trees with a recursive forbidden-key scan. */
module KnowledgeOwner {
  import opened Texts
  import opened TextOps
  import opened Json
  import opened JsonObjects
  import Numerals

  // ---------- the forbidden-key scan ----------

  /** Arrays are searched item by item, objects entry by entry; a property holding `undefined` counts by its key. */
  predicate ContainsForbidden(v: Json, bad: set<Str>) {
    match v
    case Arr(items) => ItemsContain(items, bad)
    case Obj(f) => FieldsContain(f, bad)
    case _ => false
  }

  predicate ItemsContain(items: Items, bad: set<Str>) {
    items.Cons? && (ContainsForbidden(items.head, bad) || ItemsContain(items.tail, bad))
  }

  predicate FieldsContain(f: Fields, bad: set<Str>) {
    match f
    case End => false
    case Field(k, v, r) => k in bad || ContainsForbidden(v, bad) || FieldsContain(r, bad)
    case Hole(k, r) => k in bad || FieldsContain(r, bad)
  }

  datatype Step = Key(key: Str) | Index(index: nat)

  function Nth(items: Items, i: nat): Option<Json> {
    match items
    case Nil => None
    case Cons(h, t) => if i == 0 then Some(h) else Nth(t, i - 1)
  }

  /** A path through objects and arrays that ends at a forbidden key. */
  ghost predicate ForbiddenPath(v: Json, path: seq<Step>, bad: set<Str>)
    decreases |path|
  {
    && path != []
    && match path[0]
       case Key(k) =>
         v.Obj?
         && if |path| == 1 then k in Keys(v.fields) && k in bad
            else Lookup(v.fields, k).Some? && ForbiddenPath(Lookup(v.fields, k).value, path[1..], bad)
       case Index(i) =>
         v.Arr? && Nth(v.items, i).Some? && ForbiddenPath(Nth(v.items, i).value, path[1..], bad)
  }

  lemma {:induction false} KeyIsFound(f: Fields, k: Str, bad: set<Str>)
    requires k in Keys(f) && k in bad
    ensures FieldsContain(f, bad)
  {
    match f
    case End =>
    case Field(k', _, r) => if k != k' { KeyIsFound(r, k, bad); }
    case Hole(k', r) => if k != k' { KeyIsFound(r, k, bad); }
  }

  lemma {:induction false} ChildIsSearched(f: Fields, k: Str, bad: set<Str>)
    requires Lookup(f, k).Some? && ContainsForbidden(Lookup(f, k).value, bad)
    ensures FieldsContain(f, bad)
  {
    match f
    case End =>
    case Field(k', _, r) => if k != k' { ChildIsSearched(r, k, bad); }
    case Hole(k', r) => if k != k' { ChildIsSearched(r, k, bad); }
  }

  lemma {:induction false} ItemIsSearched(items: Items, i: nat, bad: set<Str>)
    requires Nth(items, i).Some? && ContainsForbidden(Nth(items, i).value, bad)
    ensures ItemsContain(items, bad)
  {
    if i > 0 { ItemIsSearched(items.tail, i - 1, bad); }
  }

  lemma {:induction false} PathIsScanned(v: Json, path: seq<Step>, bad: set<Str>)
    requires ForbiddenPath(v, path, bad)
    ensures ContainsForbidden(v, bad)
    decreases |path|
  {
    match path[0]
    case Key(k) =>
      if |path| == 1 {
        KeyIsFound(v.fields, k, bad);
      } else {
        PathIsScanned(Lookup(v.fields, k).value, path[1..], bad);
        ChildIsSearched(v.fields, k, bad);
      }
    case Index(i) =>
      PathIsScanned(Nth(v.items, i).value, path[1..], bad);
      ItemIsSearched(v.items, i, bad);
  }

  lemma {:induction false} FindPath(v: Json, bad: set<Str>) returns (path: seq<Step>)
    requires Valid(v) && ContainsForbidden(v, bad)
    ensures ForbiddenPath(v, path, bad)
    decreases v
  {
    match v
    case Arr(items) =>
      var i, tail := FindInItems(items, bad);
      path := [Index(i)] + tail;
      assert path[1..] == tail;
    case Obj(f) => path := FindInFields(f, bad);
  }

  lemma {:induction false} FindInItems(items: Items, bad: set<Str>) returns (i: nat, tail: seq<Step>)
    requires ValidItems(items) && ItemsContain(items, bad)
    ensures Nth(items, i).Some? && ForbiddenPath(Nth(items, i).value, tail, bad)
    decreases items
  {
    if ContainsForbidden(items.head, bad) {
      tail := FindPath(items.head, bad);
      i := 0;
    } else {
      i, tail := FindInItems(items.tail, bad);
      i := i + 1;
    }
  }

  lemma PathInRest(f: Fields, rest: Fields, path: seq<Step>, bad: set<Str>)
    requires ForbiddenPath(Obj(rest), path, bad) && path[0].Key? && path[0].key in Keys(rest)
    requires || (f.Field? && f.rest == rest && f.key !in Keys(rest))
             || (f.Hole? && f.others == rest && f.name !in Keys(rest))
    ensures ForbiddenPath(Obj(f), path, bad)
  {
    assert Lookup(f, path[0].key) == Lookup(rest, path[0].key);
  }

  lemma {:induction false} FindInFields(f: Fields, bad: set<Str>) returns (path: seq<Step>)
    requires ValidFields(f) && FieldsContain(f, bad)
    ensures ForbiddenPath(Obj(f), path, bad)
    ensures path[0].Key? && path[0].key in Keys(f)
    decreases f
  {
    match f
    case Field(k, v, r) =>
      if k in bad {
        path := [Key(k)];
      } else if ContainsForbidden(v, bad) {
        var tail := FindPath(v, bad);
        path := [Key(k)] + tail;
        assert path[1..] == tail;
      } else {
        path := FindInFields(r, bad);
        PathInRest(f, r, path, bad);
      }
    case Hole(k, r) =>
      if k in bad {
        path := [Key(k)];
      } else {
        path := FindInFields(r, bad);
        PathInRest(f, r, path, bad);
      }
  }

  /** The scan answers true exactly when some path through objects and arrays reaches a forbidden key. */
  lemma ScanIffPath(v: Json, bad: set<Str>)
    requires Valid(v)
    ensures ContainsForbidden(v, bad) <==> exists path: seq<Step> :: ForbiddenPath(v, path, bad)
  {
    if ContainsForbidden(v, bad) {
      var path: seq<Step> := FindPath(v, bad);
      assert exists q: seq<Step> :: ForbiddenPath(v, q, bad);
    } else {
      forall path: seq<Step> ensures !ForbiddenPath(v, path, bad) {
        if ForbiddenPath(v, path, bad) { PathIsScanned(v, path, bad); }
      }
    }
  }

  // ---------- the shapes the parser accepts ----------

  /** What a field must be, and what is kept of it. */
  datatype Rule =
    | Exactly(text: Str)                  // that string
    | Filled                              // a string that is not blank, kept as it is
    | TrimmedText                         // a string that is not blank, trimmed
    | Strings                             // an array of such strings, each trimmed
    | OneOf(texts: seq<Str>)
    | Timestamp                           // a date with an explicit offset
    | NullOr(rule: Rule)
    | Count                               // a non-negative safe integer
    | Flag
    | Facts(required: seq<Member>)        // an object without forbidden keys, kept whole
    | Guarded(rule: Rule)                 // scanned for forbidden keys first
    | Record(members: seq<Member>)        // an object; only the members are kept, in this order
    | ListOf(rule: Rule)

  datatype Member = Member(key: Str, rule: Rule)

  datatype Platform = Platform(finiteDate: Str -> bool, forbidden: set<Str>)

  /** `(?:Z|[+-]\d{2}:\d{2})$` */
  predicate HasOffset(s: Str) {
    || (s != [] && s[|s| - 1] == 0x5A)
    || (|s| >= 6
        && var e := s[|s| - 6..];
           e[0] in {0x2B, 0x2D} && Digit(e[1]) && Digit(e[2]) && e[3] == 0x3A && Digit(e[4]) && Digit(e[5]))
  }

  const MAX_SAFE_INTEGER := 9_007_199_254_740_991

  predicate IsCount(v: Json) {
    v.Num? && v.numeral != [] && Numerals.AllDigits(v.numeral) && Numerals.Decimal(v.numeral) <= MAX_SAFE_INTEGER
  }

  predicate NotBlank(v: Json) { v.Text? && Trim(v.text) != [] }

  /** Every item a string that is not blank, each trimmed. */
  function TrimItems(items: Items): Option<Items> {
    match items
    case Nil => Some(Nil)
    case Cons(h, t) =>
      if NotBlank(h) && TrimItems(t).Some? then Some(Cons(Text(Trim(h.text)), TrimItems(t).value)) else None
  }

  function Check(rule: Rule, v: Json, p: Platform): Option<Json>
    decreases rule, 0, v
  {
    match rule
    case Exactly(t) => if v == Text(t) then Some(v) else None
    case Filled => if NotBlank(v) then Some(v) else None
    case TrimmedText => if NotBlank(v) then Some(Text(Trim(v.text))) else None
    case Strings => if v.Arr? && TrimItems(v.items).Some? then Some(Arr(TrimItems(v.items).value)) else None
    case OneOf(ts) => if v.Text? && v.text in ts then Some(v) else None
    case Timestamp => if v.Text? && HasOffset(v.text) && p.finiteDate(v.text) then Some(v) else None
    case NullOr(r) => if v.Null? then Some(v) else Check(r, v, p)
    case Count => if IsCount(v) then Some(v) else None
    case Flag => if v.Bool? then Some(v) else None
    case Facts(required) =>
      if v.Obj? && !ContainsForbidden(v, p.forbidden) && CheckMembers(required, v.fields, p).Some? then Some(v)
      else None
    case Guarded(r) => if ContainsForbidden(v, p.forbidden) then None else Check(r, v, p)
    case Record(members) =>
      if v.Obj? && CheckMembers(members, v.fields, p).Some?
      then Some(Obj(Literal(MemberKeys(members), CheckMembers(members, v.fields, p).value)))
      else None
    case ListOf(r) =>
      if v.Arr? && CheckItems(r, v.items, p).Some? then Some(Arr(CheckItems(r, v.items, p).value)) else None
  }

  function CheckItems(rule: Rule, items: Items, p: Platform): Option<Items>
    decreases rule, 1, items
  {
    match items
    case Nil => Some(Nil)
    case Cons(h, t) =>
      if Check(rule, h, p).Some? && CheckItems(rule, t, p).Some?
      then Some(Cons(Check(rule, h, p).value, CheckItems(rule, t, p).value))
      else None
  }

  /** The kept values of the listed members, when all of them are there and fit. */
  function CheckMembers(members: seq<Member>, f: Fields, p: Platform): (r: Option<seq<Json>>)
    ensures r.Some? ==> |r.value| == |members|
    decreases members, 0
  {
    if members == [] then Some([])
    else
      var v := Lookup(f, members[0].key);
      if v.None? || Check(members[0].rule, v.value, p).None? then None
      else
        var rest := CheckMembers(members[1..], f, p);
        if rest.None? then None else Some([Check(members[0].rule, v.value, p).value] + rest.value)
  }

  function MemberKeys(members: seq<Member>): (r: seq<Str>)
    ensures |r| == |members| && forall i | 0 <= i < |r| :: r[i] == members[i].key
  {
    seq(|members|, i requires 0 <= i < |members| => members[i].key)
  }

  /** No record lists a key twice, at any depth. */
  predicate DistinctRule(rule: Rule)
    decreases rule
  {
    match rule
    case NullOr(r) => DistinctRule(r)
    case Guarded(r) => DistinctRule(r)
    case ListOf(r) => DistinctRule(r)
    case Record(members) =>
      && (forall i, j | 0 <= i < j < |members| :: members[i].key != members[j].key)
      && (forall i | 0 <= i < |members| :: DistinctRule(members[i].rule))
    case _ => true
  }

  // ---------- checking is pointwise ----------

  lemma {:induction false} CheckedMembers(members: seq<Member>, f: Fields, p: Platform)
    ensures CheckMembers(members, f, p).Some? <==>
      (forall i | 0 <= i < |members| :: Lookup(f, members[i].key).Some?
        && Check(members[i].rule, Lookup(f, members[i].key).value, p).Some?)
    ensures CheckMembers(members, f, p).Some? ==> forall i | 0 <= i < |members| ::
      Some(CheckMembers(members, f, p).value[i]) == Check(members[i].rule, Lookup(f, members[i].key).value, p)
    decreases |members|
  {
    if members != [] {
      CheckedMembers(members[1..], f, p);
      assert forall i | 0 < i < |members| :: members[i] == members[1..][i - 1];
    }
  }

  // ---------- what is kept is clean ----------

  lemma {:induction false} LiteralClean(keys: seq<Str>, values: seq<Json>, bad: set<Str>)
    requires |keys| == |values|
    requires forall i | 0 <= i < |keys| :: keys[i] !in bad && !ContainsForbidden(values[i], bad)
    ensures !FieldsContain(Literal(keys, values), bad)
    decreases |keys|
  {
    if keys != [] { LiteralClean(keys[1..], values[1..], bad); }
  }

  lemma {:induction false} TrimmedClean(items: Items, bad: set<Str>)
    requires TrimItems(items).Some?
    ensures !ItemsContain(TrimItems(items).value, bad)
  {
    if items.Cons? { TrimmedClean(items.tail, bad); }
  }

  /** Nothing forbidden appears where nothing forbidden was. */
  lemma {:induction false} CheckClean(rule: Rule, v: Json, p: Platform)
    requires !ContainsForbidden(v, p.forbidden) && Check(rule, v, p).Some?
    ensures !ContainsForbidden(Check(rule, v, p).value, p.forbidden)
    decreases rule, 0, v
  {
    match rule
    case Strings => TrimmedClean(v.items, p.forbidden);
    case NullOr(r) => if !v.Null? { CheckClean(r, v, p); }
    case Guarded(r) => CheckClean(r, v, p);
    case ListOf(r) => CheckItemsClean(r, v.items, p);
    case Record(members) =>
      CheckMembersClean(members, v.fields, p);
      LiteralClean(MemberKeys(members), CheckMembers(members, v.fields, p).value, p.forbidden);
    case _ =>
  }

  lemma {:induction false} CheckItemsClean(rule: Rule, items: Items, p: Platform)
    requires !ItemsContain(items, p.forbidden) && CheckItems(rule, items, p).Some?
    ensures !ItemsContain(CheckItems(rule, items, p).value, p.forbidden)
    decreases rule, 1, items
  {
    if items.Cons? {
      CheckClean(rule, items.head, p);
      CheckItemsClean(rule, items.tail, p);
    }
  }

  lemma {:induction false} CheckMembersClean(members: seq<Member>, f: Fields, p: Platform)
    requires !FieldsContain(f, p.forbidden) && CheckMembers(members, f, p).Some?
    ensures forall i | 0 <= i < |members| ::
      members[i].key !in p.forbidden && !ContainsForbidden(CheckMembers(members, f, p).value[i], p.forbidden)
    decreases members, 0
  {
    if members != [] {
      var k := members[0].key;
      if k in p.forbidden { KeyIsFound(f, k, p.forbidden); }
      if ContainsForbidden(Lookup(f, k).value, p.forbidden) { ChildIsSearched(f, k, p.forbidden); }
      CheckClean(members[0].rule, Lookup(f, k).value, p);
      CheckMembersClean(members[1..], f, p);
    }
  }

  // ---------- idempotence ----------

  lemma {:induction false} TrimItemsIdempotent(items: Items)
    requires TrimItems(items).Some?
    ensures TrimItems(TrimItems(items).value) == TrimItems(items)
  {
    if items.Cons? {
      TrimItemsIdempotent(items.tail);
      TrimIsTrimmed(items.head.text);
    }
  }

  /** What a rule keeps passes the rule again, unchanged. */
  lemma {:induction false} CheckIdempotent(rule: Rule, v: Json, p: Platform)
    requires DistinctRule(rule) && Check(rule, v, p).Some?
    ensures Check(rule, Check(rule, v, p).value, p) == Check(rule, v, p)
    decreases rule, 0, v
  {
    match rule
    case TrimmedText => TrimIsTrimmed(v.text);
    case Strings => TrimItemsIdempotent(v.items);
    case NullOr(r) => if !v.Null? { CheckIdempotent(r, v, p); }
    case Guarded(r) =>
      CheckIdempotent(r, v, p);
      CheckClean(r, v, p);
    case ListOf(r) => CheckItemsIdempotent(r, v.items, p);
    case Record(members) => RecordIdempotent(members, v.fields, p);
    case _ =>
  }

  lemma {:induction false} CheckItemsIdempotent(rule: Rule, items: Items, p: Platform)
    requires DistinctRule(rule) && CheckItems(rule, items, p).Some?
    ensures CheckItems(rule, CheckItems(rule, items, p).value, p) == CheckItems(rule, items, p)
    decreases rule, 1, items
  {
    if items.Cons? {
      CheckIdempotent(rule, items.head, p);
      CheckItemsIdempotent(rule, items.tail, p);
    }
  }

  lemma {:induction false} RecordIdempotent(members: seq<Member>, f: Fields, p: Platform)
    requires DistinctRule(Record(members)) && CheckMembers(members, f, p).Some?
    ensures var values := CheckMembers(members, f, p).value;
            CheckMembers(members, Literal(MemberKeys(members), values), p) == Some(values)
    decreases members, 0
  {
    var values := CheckMembers(members, f, p).value;
    var g := Literal(MemberKeys(members), values);
    CheckedMembers(members, f, p);
    forall i | 0 <= i < |members|
      ensures Lookup(g, members[i].key) == Some(values[i]) && Check(members[i].rule, values[i], p) == Some(values[i])
    {
      LookupLiteral(MemberKeys(members), values, i);
      CheckIdempotent(members[i].rule, Lookup(f, members[i].key).value, p);
    }
    CheckedMembers(members, g, p);
    assert CheckMembers(members, g, p).value == values;
  }

  // ---------- the owner result ----------

  const FORBIDDEN_OWNER_KEYS: set<Str> := {
    S("canonicalUri"), S("content"), S("rawArtifact"), S("rawArtifactBytes"), S("adminNavigation"),
    S("adminSession"), S("secret"), S("documentBody"), S("legalConclusion"), S("relevanceScore"),
    S("providerRanking"), S("sql"), S("mutationGuidance"), S("recommendation")}

  const HEALTH_STATES: seq<Str> := [
    S("HEALTHY"), S("DEGRADED"), S("STALE"), S("BLOCKED"), S("PARTIAL"), S("UNKNOWN")]
  const COVERAGE_STATES: seq<Str> := [S("COMPLETE"), S("PARTIAL"), S("UNKNOWN")]
  const FRESHNESS_STATES: seq<Str> := [S("FRESH"), S("STALE"), S("UNOBSERVED")]
  const SCHEDULE_STATES: seq<Str> := [S("UNCONFIGURED"), S("MANUAL"), S("AUTOMATIC"), S("MIXED")]

  const COVERAGE: seq<Member> := [Member(S("state"), OneOf(COVERAGE_STATES)), Member(S("reasons"), Strings)]
  const FRESHNESS: seq<Member> := [
    Member(S("state"), OneOf(FRESHNESS_STATES)), Member(S("lastSuccessfulAcquisitionAt"), NullOr(Timestamp))]
  const SCHEDULE: seq<Member> := [Member(S("state"), OneOf(SCHEDULE_STATES))]
  const RELIABILITY: seq<Member> := [
    Member(S("attempts"), Count), Member(S("failed"), Count), Member(S("unrecoveredFailure"), Flag)]
  const CHANGE_ACTIVITY: seq<Member> := [
    Member(S("updates30d"), Count), Member(S("lastObservedChangeAt"), NullOr(Timestamp))]

  const ITEM: seq<Member> := [
    Member(S("targetId"), TrimmedText),
    Member(S("jurisdiction"), TrimmedText),
    Member(S("authorityName"), TrimmedText),
    Member(S("authorityLevel"), TrimmedText),
    Member(S("family"), TrimmedText),
    Member(S("displayName"), TrimmedText),
    Member(S("sourceIds"), Strings),
    Member(S("state"), OneOf(HEALTH_STATES)),
    Member(S("reasonCodes"), Strings),
    Member(S("coverage"), Facts(COVERAGE)),
    Member(S("freshness"), Facts(FRESHNESS)),
    Member(S("schedule"), Facts(SCHEDULE)),
    Member(S("currentRun"), NullOr(Facts([]))),
    Member(S("reliability"), Facts(RELIABILITY)),
    Member(S("latency"), Facts([])),
    Member(S("changeActivity"), Facts(CHANGE_ACTIVITY)),
    Member(S("observedAt"), Timestamp)]

  function Counts(keys: seq<Str>): (r: seq<Member>)
    ensures |r| == |keys| && forall i | 0 <= i < |r| :: r[i] == Member(keys[i], Count)
  {
    seq(|keys|, i requires 0 <= i < |keys| => Member(keys[i], Count))
  }

  /** Fills a record of counts key by key; one missing or negative count rejects it. */
  method CountRecord(v: Json, keys: seq<Str>, p: Platform) returns (r: Option<Json>)
    ensures r == Check(Record(Counts(keys)), v, p)
  {
    if !v.Obj? { return None; }
    CheckedMembers(Counts(keys), v.fields, p);
    var values: seq<Json> := [];
    for i := 0 to |keys|
      invariant |values| == i
      invariant forall j | 0 <= j < i :: Lookup(v.fields, keys[j]) == Some(values[j]) && IsCount(values[j])
    {
      var count := Lookup(v.fields, keys[i]);
      if count.None? || !IsCount(count.value) { return None; }
      values := values + [count.value];
    }
    assert MemberKeys(Counts(keys)) == keys;
    assert CheckMembers(Counts(keys), v.fields, p).value == values;
    r := Some(Obj(Literal(keys, values)));
  }

  const SUMMARY: seq<Member> := [
    Member(S("total"), Count),
    Member(S("byState"), Record(Counts(HEALTH_STATES))),
    Member(S("coverage"), Record(Counts(COVERAGE_STATES))),
    Member(S("requiringAttention"), Count),
    Member(S("stale"), Count),
    Member(S("blocked"), Count),
    Member(S("recentChanges30d"), Count)]

  const OWNER_RESULT: seq<Member> := [
    Member(S("protocolVersion"), Exactly(S("1.0"))),
    Member(S("objectType"), Exactly(S("CONTROL_PLANE_EVIDENCE_SUPPLY_HEALTH_OWNER_RESULT"))),
    Member(S("owner"), Exactly(S("KNOWLEDGE"))),
    Member(S("access"), Exactly(S("READ_ONLY"))),
    Member(S("requiredUpstreamAuthority"), Exactly(S("control-plane:knowledge:read"))),
    Member(S("sourceReadModel"), Exactly(S("evidence-supply-health.v1"))),
    Member(S("workspaceId"), Filled),
    Member(S("observedAt"), Timestamp),
    Member(S("items"), ListOf(Guarded(Record(ITEM)))),
    Member(S("summary"), Record(SUMMARY))]

  function Length(items: Items): nat {
    match items
    case Nil => 0
    case Cons(_, t) => 1 + Length(t)
  }

  function At(v: Json, key: Str): Option<Json> {
    if v.Obj? then Lookup(v.fields, key) else None
  }

  /** The workspace is the expected one, and the summary counts the items. */
  predicate Consistent(r: Json, expectedWorkspace: Option<Str>) {
    && (expectedWorkspace.Some? ==> At(r, S("workspaceId")) == Some(Text(expectedWorkspace.value)))
    && At(r, S("items")).Some? && At(r, S("items")).value.Arr?
    && At(r, S("summary")).Some?
    && var total := At(At(r, S("summary")).value, S("total"));
       total.Some? && IsCount(total.value)
       && Numerals.Decimal(total.value.numeral) == Length(At(r, S("items")).value.items)
  }

  function ParseWith(rule: Rule, v: Json, expectedWorkspace: Option<Str>, p: Platform): Option<Json> {
    if ContainsForbidden(v, p.forbidden) then None
    else
      var r := Check(rule, v, p);
      if r.Some? && Consistent(r.value, expectedWorkspace) then r else None
  }

  function ParseOwnerResult(v: Json, expectedWorkspace: Option<Str>, finiteDate: Str -> bool): Option<Json> {
    ParseWith(Record(OWNER_RESULT), v, expectedWorkspace, Platform(finiteDate, FORBIDDEN_OWNER_KEYS))
  }

  lemma ParseWithStable(rule: Rule, v: Json, w: Option<Str>, p: Platform)
    requires DistinctRule(rule) && ParseWith(rule, v, w, p).Some?
    ensures ParseWith(rule, ParseWith(rule, v, w, p).value, w, p) == ParseWith(rule, v, w, p)
    ensures forall path :: !ForbiddenPath(ParseWith(rule, v, w, p).value, path, p.forbidden)
  {
    var r := ParseWith(rule, v, w, p).value;
    CheckIdempotent(rule, v, p);
    CheckClean(rule, v, p);
    forall path ensures !ForbiddenPath(r, path, p.forbidden) {
      if ForbiddenPath(r, path, p.forbidden) { PathIsScanned(r, path, p.forbidden); }
    }
  }

  // ---------- the rules list no key twice ----------

  lemma ItemKeysDistinct()
    ensures forall i, j | 0 <= i < j < |ITEM| :: ITEM[i].key != ITEM[j].key
  {
    var k := MemberKeys(ITEM);
    assert k == [S("targetId"), S("jurisdiction"), S("authorityName"), S("authorityLevel"), S("family"),
      S("displayName"), S("sourceIds"), S("state"), S("reasonCodes"), S("coverage"), S("freshness"),
      S("schedule"), S("currentRun"), S("reliability"), S("latency"), S("changeActivity"), S("observedAt")];
    assert k[0][0] == Code('t') && k[9][0] == Code('c') && k[11][0] == Code('s');
    assert k[3][0] == Code('a') && k[15][0] == Code('c');
    assert k[5][0] == Code('d') && k[8][0] == Code('r') && k[13][0] == Code('r');
    assert k[8][2] == Code('a') && k[13][2] == Code('l');
    assert k[6][0] == Code('s') && k[10][0] == Code('f');
    assert k[12][0] == Code('c') && k[16][0] == Code('o');
    forall i, j | 0 <= i < j < |k| ensures k[i] != k[j] {}
  }

  lemma SummaryKeysDistinct()
    ensures forall i, j | 0 <= i < j < |SUMMARY| :: SUMMARY[i].key != SUMMARY[j].key
  {
    var k := MemberKeys(SUMMARY);
    assert k == [S("total"), S("byState"), S("coverage"), S("requiringAttention"), S("stale"), S("blocked"),
      S("recentChanges30d")];
    assert k[0][0] == Code('t') && k[4][0] == Code('s') && k[1][1] == Code('y') && k[5][1] == Code('l');
  }

  lemma StateKeysDistinct()
    ensures Distinct(HEALTH_STATES) && Distinct(COVERAGE_STATES)
  {
    var h := HEALTH_STATES;
    assert h[0][0] == Code('H') && h[3][0] == Code('B') && h[4][0] == Code('P') && h[5][0] == Code('U');
  }

  lemma CountsDistinct(keys: seq<Str>)
    requires Distinct(keys)
    ensures DistinctRule(Record(Counts(keys)))
  {
  }

  lemma ResultKeysDistinct()
    ensures forall i, j | 0 <= i < j < |OWNER_RESULT| :: OWNER_RESULT[i].key != OWNER_RESULT[j].key
  {
    var k := MemberKeys(OWNER_RESULT);
    assert k == [S("protocolVersion"), S("objectType"), S("owner"), S("access"), S("requiredUpstreamAuthority"),
      S("sourceReadModel"), S("workspaceId"), S("observedAt"), S("items"), S("summary")];
    assert k[0][0] == Code('p') && k[5][0] == Code('s') && k[1][1] == Code('b') && k[7][1] == Code('b');
    assert k[1][2] == Code('j') && k[7][2] == Code('s') && k[2][0] == Code('o') && k[8][0] == Code('i');
  }

  lemma SummaryDistinct()
    ensures DistinctRule(Record(SUMMARY))
  {
    SummaryKeysDistinct();
    StateKeysDistinct();
    CountsDistinct(HEALTH_STATES);
    CountsDistinct(COVERAGE_STATES);
    forall i | 0 <= i < |SUMMARY| ensures DistinctRule(SUMMARY[i].rule) {}
  }

  lemma ItemDistinct()
    ensures DistinctRule(ListOf(Guarded(Record(ITEM))))
  {
    ItemKeysDistinct();
    forall i | 0 <= i < |ITEM| ensures DistinctRule(ITEM[i].rule) {}
  }

  lemma ResultDistinct()
    ensures DistinctRule(Record(OWNER_RESULT))
  {
    ResultKeysDistinct();
    SummaryDistinct();
    ItemDistinct();
    forall i | 0 <= i < |OWNER_RESULT| ensures DistinctRule(OWNER_RESULT[i].rule) {}
  }

  /** The parser's result parses to itself, and no path in it reaches a forbidden key. */
  lemma OwnerResultIsStable(v: Json, w: Option<Str>, finiteDate: Str -> bool)
    requires ParseOwnerResult(v, w, finiteDate).Some?
    ensures ParseOwnerResult(ParseOwnerResult(v, w, finiteDate).value, w, finiteDate)
         == ParseOwnerResult(v, w, finiteDate)
    ensures forall path :: !ForbiddenPath(ParseOwnerResult(v, w, finiteDate).value, path, FORBIDDEN_OWNER_KEYS)
  {
    ResultDistinct();
    ParseWithStable(Record(OWNER_RESULT), v, w, Platform(finiteDate, FORBIDDEN_OWNER_KEYS));
  }
}

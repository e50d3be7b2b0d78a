/** The browser body of a Filing Governance command, projected field by field before it is forwarded. */
module FilingBody {
  import opened Texts
  import opened Json
  import opened JsonObjects
  import FilingRoutes

  /** Browser-supplied authority that no command may carry downstream. */
  const AUTHORITY: set<Str> := {
    S("workspaceId"), S("workplaceId"), S("actor"), S("actorId"), S("userId"), S("membershipId"),
    S("subjectUserId"), S("sessionId"), S("sessionExpiresAt"), S("role"), S("permissions"), S("principal"),
    S("requestedBy"), S("acknowledgedBy"), S("decidedBy"), S("internalExecutorId"), S("executorId")}

  const PARTY: Str := S("authorizedParty")
  const PARTY_FIELDS: seq<Str> := [S("partyId"), S("displayName")]

  datatype BodyPolicy = BodyPolicy(allowed: seq<Str>, strip: seq<Str>, projectParty: bool)

  const NO_FIELDS: BodyPolicy := BodyPolicy([], [], false)

  /** What each route policy says about the body, in table order; None where the route changes nothing. */
  const BODY_POLICIES: seq<Option<BodyPolicy>> := [
    Some(BodyPolicy([S("preparationLockId"), S("preparationLockVersion"), PARTY, S("authorizationCapacity"),
                     S("executionChannel")], [], true)),
    None,
    Some(BodyPolicy([S("acknowledgementCodes")], [S("acknowledgedBy")], false)),
    Some(NO_FIELDS),
    Some(BodyPolicy([S("filingAuthorizationId"), S("filingAuthorizationVersion"), S("requestedExecutionChannel")],
                    [], false)),
    None,
    None,
    Some(NO_FIELDS),
    Some(BodyPolicy([S("expectedVersion")], [], false)),
    Some(BodyPolicy([S("rationale")], [S("decidedBy")], false)),
    Some(NO_FIELDS),
    None,
    Some(NO_FIELDS),
    None]

  datatype Projection = Rejected(field: Str) | Projected(fields: Fields)

  /** A body parsed from JSON holds no `undefined` and repeats no key. */
  ghost predicate Parsed(f: Fields) {
    match f
    case End => true
    case Field(k, _, r) => k !in Keys(r) && Parsed(r)
    case Hole(_, _) => false
  }

  lemma {:induction false} ParsedLookup(f: Fields, k: Str)
    requires Parsed(f)
    ensures Lookup(f, k).Some? <==> k in Keys(f)
  {
    if f.Field? { ParsedLookup(f.rest, k); }
  }

  lemma {:induction false} DeleteParsed(f: Fields, key: Str)
    requires Parsed(f)
    ensures Parsed(Delete(f, key)) && Keys(Delete(f, key)) == Keys(f) - {key}
  {
    if f.Field? && f.key != key { DeleteParsed(f.rest, key); }
  }

  /** The two fields of a party. */
  lemma PartyFieldsAre(k: Str)
    ensures k in PARTY_FIELDS <==> k == S("partyId") || k == S("displayName")
  {
  }

  /** `projected[key] = value` for a key not there yet. */
  function Append(f: Fields, key: Str, value: Json): (r: Fields)
    ensures Keys(r) == Keys(f) + {key}
    ensures key !in Keys(f) ==> Lookup(r, key) == Some(value)
    ensures forall k | k != key :: Lookup(r, k) == Lookup(f, k)
    ensures Parsed(f) && key !in Keys(f) ==> Parsed(r)
  {
    match f
    case End => Field(key, value, End)
    case Field(k, v, r) => Field(k, v, Append(r, key, value))
    case Hole(k, r) => Hole(k, Append(r, key, value))
  }

  function FirstUnsupported(f: Fields, allowed: seq<Str>): (r: Option<Str>)
    ensures r.None? <==> forall k | k in Keys(f) :: k in allowed
    ensures r.Some? ==> r.value in Keys(f) && r.value !in allowed
  {
    match f
    case End => None
    case Field(k, _, r) => if k !in allowed then Some(k) else FirstUnsupported(r, allowed)
    case Hole(k, r) => if k !in allowed then Some(k) else FirstUnsupported(r, allowed)
  }

  /** Exactly the listed fields that the source has, with the source's values. */
  ghost predicate Restricts(r: Fields, source: Fields, allowed: seq<Str>) {
    && Parsed(r)
    && Keys(r) == (set k | k in Keys(source) && k in allowed)
    && forall k | k in Keys(r) :: Lookup(r, k) == Lookup(source, k)
  }

  /** Copies the listed fields that the source has, in the order they are listed. */
  method CopyAllowed(source: Fields, allowed: seq<Str>) returns (projected: Fields)
    requires Parsed(source) && Distinct(allowed)
    ensures Restricts(projected, source, allowed)
  {
    projected := End;
    for i := 0 to |allowed|
      invariant Restricts(projected, source, allowed[..i])
    {
      var field := allowed[i];
      assert forall k :: k in allowed[..i + 1] <==> k in allowed[..i] || k == field;
      assert field !in allowed[..i];
      ParsedLookup(source, field);
      var value := Lookup(source, field);
      if value.Some? {
        projected := Append(projected, field, value.value);
      }
    }
    assert allowed[..|allowed|] == allowed;
  }

  /** An object party keeps `partyId` and `displayName` and may have nothing else; any other value passes. */
  method ProjectParty(party: Json) returns (rejected: Option<Str>, projected: Json)
    requires party.Obj? ==> Parsed(party.fields)
    ensures rejected.None? <==> (party.Obj? ==> forall k | k in Keys(party.fields) :: k in PARTY_FIELDS)
    ensures rejected.Some? ==> party.Obj? && rejected.value in Keys(party.fields) && rejected.value !in PARTY_FIELDS
    ensures rejected.None? && party.Obj? ==> projected.Obj? && Restricts(projected.fields, party.fields, PARTY_FIELDS)
    ensures !party.Obj? ==> projected == party
  {
    rejected, projected := None, party;
    if !party.Obj? { return; }
    rejected := FirstUnsupported(party.fields, PARTY_FIELDS);
    if rejected.Some? { return; }
    var fields := CopyAllowed(party.fields, PARTY_FIELDS);
    projected := Obj(fields);
  }

  ghost predicate PartyOk(body: Fields) {
    match Lookup(body, PARTY)
    case Some(Obj(f)) => forall k | k in Keys(f) :: k in PARTY_FIELDS
    case _ => true
  }

  ghost predicate PartyParsed(body: Fields) {
    match Lookup(body, PARTY)
    case Some(Obj(f)) => Parsed(f)
    case _ => true
  }

  ghost predicate Acceptable(body: Fields, p: BodyPolicy) {
    && (forall k | k in Keys(body) :: k in p.strip || k in p.allowed)
    && (p.projectParty ==> PartyOk(body))
  }

  /** Strips, rejects and copies: an accepted body carries exactly its allowed fields. */
  method GovernedBody(body: Fields, p: BodyPolicy) returns (r: Projection)
    requires Parsed(body) && PartyParsed(body) && Distinct(p.allowed)
    requires forall k | k in p.strip :: k !in p.allowed && k != PARTY
    requires p.projectParty ==> PARTY in p.allowed
    ensures r.Projected? <==> Acceptable(body, p)
    ensures r.Projected? ==> Keys(r.fields) == (set k | k in Keys(body) && k in p.allowed)
    ensures r.Projected? ==> forall k | k in Keys(r.fields) && !(p.projectParty && k == PARTY) ::
      Lookup(r.fields, k) == Lookup(body, k)
    ensures r.Projected? && p.projectParty && PARTY in Keys(body) ==>
      var before, after := Lookup(body, PARTY), Lookup(r.fields, PARTY);
      before.Some? && after.Some?
      && if before.value.Obj? then after.value.Obj? && Restricts(after.value.fields, before.value.fields, PARTY_FIELDS)
         else after == before
  {
    var rest := body;
    for i := 0 to |p.strip|
      invariant Parsed(rest)
      invariant Keys(rest) == Keys(body) - (set k | k in p.strip[..i])
      invariant forall k | k in Keys(rest) :: Lookup(rest, k) == Lookup(body, k)
    {
      assert forall k :: k in p.strip[..i + 1] <==> k in p.strip[..i] || k == p.strip[i];
      DeleteParsed(rest, p.strip[i]);
      rest := Delete(rest, p.strip[i]);
    }
    assert p.strip[..|p.strip|] == p.strip;
    var unsupported := FirstUnsupported(rest, p.allowed);
    if unsupported.Some? { return Rejected(unsupported.value); }
    var projected := CopyAllowed(rest, p.allowed);
    ParsedLookup(body, PARTY);
    ParsedLookup(projected, PARTY);
    if p.projectParty && Lookup(projected, PARTY).Some? {
      var rejected, party := ProjectParty(Lookup(projected, PARTY).value);
      if rejected.Some? { return Rejected(rejected.value); }
      projected := Replace(projected, PARTY, party);
    }
    r := Projected(projected);
  }

  // ---------- the table ----------

  /** The lengths of the authority names, and a first letter where an allowed name is as long. */
  lemma AuthorityShape(k: Str)
    requires k in AUTHORITY
    ensures |k| in {4, 5, 6, 7, 9, 10, 11, 12, 13, 14, 16, 18}
    ensures |k| == 7 ==> k[0] == Code('a')
    ensures |k| == 9 ==> k[0] != Code('r')
    ensures |k| == 11 ==> k[0] != Code('d')
    ensures |k| == 16 ==> k[0] == Code('s')
  {
  }

  lemma AllowedIsNoAuthority(i: nat, k: Str)
    requires i < |BODY_POLICIES| && BODY_POLICIES[i].Some? && k in BODY_POLICIES[i].value.allowed
    ensures |k| in {9, 15, 16, 17, 20, 21, 22, 25, 26}
    ensures |k| == 9 ==> k[0] == Code('r')
    ensures |k| == 16 ==> k[0] == Code('e')
  {
  }

  lemma TableMeetsTerms(i: nat)
    requires i < |BODY_POLICIES| && BODY_POLICIES[i].Some?
    ensures var p := BODY_POLICIES[i].value;
      && Distinct(p.allowed) && (forall k | k in p.strip :: k !in p.allowed && k != PARTY)
      && (p.projectParty ==> PARTY in p.allowed)
  {
    assert S("decidedBy")[0] == Code('d') && S("rationale")[0] == Code('r');
  }

  /** The two tables go together: exactly the reading routes have no body policy. */
  lemma OnlyReadsHaveNoBody(i: nat)
    requires i < |FilingRoutes.POLICIES|
    ensures |BODY_POLICIES| == |FilingRoutes.POLICIES|
    ensures BODY_POLICIES[i].None? <==> FilingRoutes.POLICIES[i].verb == FilingRoutes.GET
  {
  }

  // ---------- what reaches the service ----------

  /** `request.body ?? {}` */
  function Given(body: Option<Json>): Json { if body.None? || body.value.Null? then Obj(End) else body.value }

  /** The body as an object; None when it is no object. */
  function BodyRecord(body: Option<Json>): Option<Fields> {
    if Given(body).Obj? then Some(Given(body).fields) else None
  }

  lemma BodyRecordIs(body: Option<Json>, f: Fields)
    ensures BodyRecord(body) == Some(f) <==>
      body == Some(Obj(f)) || ((body == None || body == Some(Null)) && f == End)
  {
  }

  datatype Sent = NoRoute | NotObject | Refused(field: Str) | WithoutBody | WithBody(body: Json)

  /** The policy that the route lookup finds for the request. */
  function PolicyFor(verb: FilingRoutes.Verb, path: Str): Option<Option<BodyPolicy>> {
    match FilingRoutes.RoutePolicy(verb, path)
    case None => None
    case Some(i) => if i < |BODY_POLICIES| then Some(BODY_POLICIES[i]) else None
  }

  /** What the handler sends on, outside fixture mode: no top-level authority field ever reaches the service. */
  method ForwardedBody(verb: FilingRoutes.Verb, path: Str, body: Option<Json>) returns (r: Sent)
    requires BodyRecord(body).Some? ==> Parsed(BodyRecord(body).value) && PartyParsed(BodyRecord(body).value)
    ensures r.NoRoute? <==> FilingRoutes.RoutePolicy(verb, path).None?
    ensures r.WithoutBody? <==> !r.NoRoute? && verb == FilingRoutes.GET
    ensures r.NotObject? <==> !r.NoRoute? && verb != FilingRoutes.GET && BodyRecord(body).None?
    ensures r.WithBody? <==>
      && !r.NoRoute? && verb != FilingRoutes.GET && BodyRecord(body).Some?
      && PolicyFor(verb, path).Some? && PolicyFor(verb, path).value.Some?
      && Acceptable(BodyRecord(body).value, PolicyFor(verb, path).value.value)
    ensures r.WithBody? ==>
      && r.body.Obj?
      && Keys(r.body.fields)
         == (set k | k in Keys(BodyRecord(body).value) && k in PolicyFor(verb, path).value.value.allowed)
    ensures r.WithBody? ==> forall k | k in Keys(r.body.fields) && k != S("authorizedParty") ::
      Lookup(r.body.fields, k) == Lookup(BodyRecord(body).value, k)
    ensures r.WithBody? ==> forall k | k in AUTHORITY :: k !in Keys(r.body.fields)
  {
    var found := FilingRoutes.RoutePolicy(verb, path);
    if found.None? { return NoRoute; }
    var i := found.value;
    OnlyReadsHaveNoBody(i);
    if BODY_POLICIES[i].None? { return if verb == FilingRoutes.GET then WithoutBody else WithBody(Given(body)); }
    var record := BodyRecord(body);
    if record.None? { return NotObject; }
    TableMeetsTerms(i);
    var projection := GovernedBody(record.value, BODY_POLICIES[i].value);
    if projection.Rejected? { return Refused(projection.field); }
    forall k | k in Keys(projection.fields) ensures k !in AUTHORITY {
      AllowedIsNoAuthority(i, k);
      if k in AUTHORITY { AuthorityShape(k); }
    }
    r := WithBody(Obj(projection.fields));
  }

  /** What each command may carry, by the last segment of its pattern. */
  lemma AllowedFields(i: nat)
    requires i < |BODY_POLICIES|
    ensures |FilingRoutes.POLICIES| == |BODY_POLICIES|
    ensures BODY_POLICIES[i].Some? ==>
      var pattern, allowed := FilingRoutes.POLICIES[i].pattern, BODY_POLICIES[i].value.allowed;
      && pattern != []
      && var last := pattern[|pattern| - 1];
         && (last == FilingRoutes.Lit(S("filing-authorizations")) ==> allowed == [
              S("preparationLockId"), S("preparationLockVersion"), S("authorizedParty"), S("authorizationCapacity"),
              S("executionChannel")])
         && (last == FilingRoutes.Lit(S("confirm")) ==> allowed == [S("acknowledgementCodes")])
         && (last == FilingRoutes.Lit(S("execution-releases")) ==> allowed == [
              S("filingAuthorizationId"), S("filingAuthorizationVersion"), S("requestedExecutionChannel")])
         && (last == FilingRoutes.Lit(S("assignment")) ==> allowed == [S("expectedVersion")])
         && (last == FilingRoutes.Lit(S("release")) ==> allowed == [S("rationale")])
         && BODY_POLICIES[i].value.projectParty == (last == FilingRoutes.Lit(S("filing-authorizations")))
         && BODY_POLICIES[i].value.strip == (if last == FilingRoutes.Lit(S("confirm")) then [S("acknowledgedBy")]
                                             else if last == FilingRoutes.Lit(S("release")) then [S("decidedBy")]
                                             else [])
         && (last == FilingRoutes.Lit(S("withdraw")) ==> allowed == [])
         && (last == FilingRoutes.Lit(S("evaluate")) ==> allowed == [])
         && (last == FilingRoutes.Lit(S("validate-current")) ==> allowed == [])
  {
    assert S("confirm")[0] == Code('c') && S("release")[0] == Code('r');
  }
}

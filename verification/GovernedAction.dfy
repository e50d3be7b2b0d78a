/** Digest binding of a reviewed action, and the ordered checks around the Core receipt call. */
module GovernedAction {
  import opened Texts
  import opened Json
  import opened JsonObjects
  import CanonicalForm
  import Sorting
  import StableSerialize

  /** Foreign functions the gateway relies on. */
  datatype Platform = Platform(
    hash: Str -> Str,             // SHA-256 in hexadecimal
    keyLess: (Str, Str) -> bool,  // localeCompare on keys
    lower: Str -> Str,            // toLowerCase
    instant: Str -> bool)         // Date.parse is finite

  /** The hash never collides; nothing is asked of the key comparison. */
  ghost predicate CollisionFree(p: Platform) { forall a, b :: p.hash(a) == p.hash(b) ==> a == b }

  datatype Principal = Principal(
    kind: Str, sessionId: Str, userId: Str, workspaceId: Str, membershipId: Str, role: Str,
    permissions: seq<Str>, sessionCreatedAt: Option<Str>, sessionExpiresAt: Str)

  /** `body` is None when the request has no body. */
  datatype Request = Request(verb: Str, path: Str, headers: map<Str, Str>, body: Option<Json>)

  datatype Materialization = Materialization(
    workspaceId: Str, userId: Str, membershipId: Str, principalReference: Str, kind: Str,
    mutationRoute: Str, reviewedActionDigest: Str, idempotencyKey: Str, authenticatedAt: Str)

  datatype Receipt = Receipt(
    schemaVersion: int, source: Str, actorKind: Str, subject: Materialization, authorityVersion: int,
    authorityReference: Str, evidenceReference: Str)

  // ---------- the digest ----------

  function PrintedText(v: Json, p: Platform): Str { StableSerialize.Serialize(v, p.keyLess) }

  function Fingerprint(v: Json, p: Platform): Str { p.hash(PrintedText(v, p)) }

  function TextItems(ts: seq<Str>): (r: Items)
    ensures ValidItems(r)
    decreases |ts|
  {
    if ts == [] then Nil else Cons(Text(ts[0]), TextItems(ts[1..]))
  }

  const PRINCIPAL_KEYS: seq<Str> := [
    S("kind"), S("workspaceId"), S("userId"), S("membershipId"), S("role"), S("permissions"),
    S("sessionCreatedAt"), S("sessionExpiresAt")]

  function PrincipalValues(a: Principal, createdAt: Str, p: Platform): (r: seq<Json>)
    ensures |r| == 8 && forall i | 0 <= i < 8 :: Valid(r[i])
  {
    var permissions := SortedTexts(a.permissions);
    assert Valid(permissions);
    [Text(a.kind), Text(p.lower(a.workspaceId)), Text(a.userId), Text(a.membershipId), Text(a.role),
     permissions, Text(createdAt), Text(a.sessionExpiresAt)]
  }

  function PrincipalObject(a: Principal, createdAt: Str, p: Platform): Json {
    Obj(Literal(PRINCIPAL_KEYS, PrincipalValues(a, createdAt, p)))
  }

  const REFERENCE_PREFIX: Str := S("core-workspace-principal:")

  function PrincipalReference(a: Principal, createdAt: Str, p: Platform): Str {
    REFERENCE_PREFIX + Fingerprint(PrincipalObject(a, createdAt, p), p)
  }

  /** An absent or null body is read as the empty object. */
  function EffectiveBody(r: Request): Json {
    if r.body.None? || r.body.value.Null? then Obj(End) else r.body.value
  }

  const ACTION_KEYS: seq<Str> := [S("kind"), S("principalReference"), S("method"), S("path"), S("body")]

  function ActionValues(kind: Str, reference: Str, r: Request): (values: seq<Json>)
    ensures |values| == |ACTION_KEYS|
  {
    [Text(kind), Text(reference), Text(r.verb), Text(r.path), EffectiveBody(r)]
  }

  function ActionObject(kind: Str, reference: Str, r: Request): Json {
    Obj(Literal(ACTION_KEYS, ActionValues(kind, reference, r)))
  }

  function Materialize(r: Request, a: Principal, kind: Str, key: Str, createdAt: Str, p: Platform): Materialization {
    var reference := PrincipalReference(a, createdAt, p);
    Materialization(a.workspaceId, a.userId, a.membershipId, reference, kind, r.path,
                    Fingerprint(ActionObject(kind, reference, r), p), key, createdAt)
  }

  /** The receipt check: every bound field equals the trusted one. */
  predicate Matches(receipt: Receipt, m: Materialization) {
    && receipt.schemaVersion == 1
    && receipt.source == S("CORE")
    && receipt.actorKind == S("HUMAN_USER")
    && receipt.subject == m
    && receipt.authorityVersion == 1
    && S("core-governed-human-action-receipt:") <= receipt.authorityReference
    && S("core-governed-human-action-evidence:") <= receipt.evidenceReference
  }

  // ---------- what a receipt binds ----------

  datatype Action = Action(request: Request, principal: Principal, kind: Str, key: Str, createdAt: Str)

  ghost predicate ValidAction(x: Action) { Valid(EffectiveBody(x.request)) }

  function Bound(x: Action, p: Platform): Materialization {
    Materialize(x.request, x.principal, x.kind, x.key, x.createdAt, p)
  }

  /** Everything the reviewer saw, compared up to body key order and permission order. */
  ghost predicate SameAction(x: Action, y: Action) {
    && x.kind == y.kind && x.key == y.key && x.createdAt == y.createdAt
    && x.request.verb == y.request.verb && x.request.path == y.request.path
    && Meaning(EffectiveBody(x.request)) == Meaning(EffectiveBody(y.request))
    && x.principal.kind == y.principal.kind
    && x.principal.workspaceId == y.principal.workspaceId
    && x.principal.userId == y.principal.userId
    && x.principal.membershipId == y.principal.membershipId
    && x.principal.role == y.principal.role
    && multiset(x.principal.permissions) == multiset(y.principal.permissions)
    && x.principal.sessionExpiresAt == y.principal.sessionExpiresAt
  }

  /** A length or one character tells each two keys apart. */
  lemma KeysDistinct()
    ensures Distinct(ACTION_KEYS) && Distinct(PRINCIPAL_KEYS)
  {
    assert S("kind")[0] == Code('k') && S("path")[0] == Code('p') && S("body")[0] == Code('b');
    assert S("role")[0] == Code('r') && S("workspaceId")[0] == Code('w') && S("permissions")[0] == Code('p');
    assert S("sessionCreatedAt")[7] == Code('C') && S("sessionExpiresAt")[7] == Code('E');
  }

  lemma {:induction false} TextItemsMeaning(ts: seq<Str>)
    ensures |MeaningItems(TextItems(ts))| == |ts|
    ensures forall i | 0 <= i < |ts| :: MeaningItems(TextItems(ts))[i] == VText(ts[i])
    decreases |ts|
  {
    if ts != [] { TextItemsMeaning(ts[1..]); }
  }

  lemma TextItemsBind(ts: seq<Str>, us: seq<Str>)
    ensures MeaningItems(TextItems(ts)) == MeaningItems(TextItems(us)) <==> ts == us
  {
    TextItemsMeaning(ts);
    TextItemsMeaning(us);
    if MeaningItems(TextItems(ts)) == MeaningItems(TextItems(us)) {
      forall i | 0 <= i < |ts| ensures ts[i] == us[i] {
        assert MeaningItems(TextItems(ts))[i] == MeaningItems(TextItems(us))[i];
      }
    }
  }

  lemma {:induction false} LiteralCanons(keys: seq<Str>, v: seq<Json>, w: seq<Json>, less: (Str, Str) -> bool)
    requires |keys| == |v| == |w|
    requires forall i | 0 <= i < |keys| :: StableSerialize.Canon(v[i], less) == StableSerialize.Canon(w[i], less)
    ensures StableSerialize.CanonEntries(Literal(keys, v), less) == StableSerialize.CanonEntries(Literal(keys, w), less)
    decreases |keys|
  {
    if keys != [] { LiteralCanons(keys[1..], v[1..], w[1..], less); }
  }

  lemma LiteralTextsAgree(keys: seq<Str>, v: seq<Json>, w: seq<Json>, p: Platform)
    requires |keys| == |v| == |w| && Distinct(keys)
    requires forall i | 0 <= i < |keys| :: Valid(v[i]) && Valid(w[i])
    requires forall i | 0 <= i < |keys| :: PrintedText(v[i], p) == PrintedText(w[i], p)
    ensures PrintedText(Obj(Literal(keys, v)), p) == PrintedText(Obj(Literal(keys, w)), p)
  {
    LiteralValid(keys, v);
    LiteralValid(keys, w);
    forall i | 0 <= i < |keys|
      ensures StableSerialize.Canon(v[i], p.keyLess) == StableSerialize.Canon(w[i], p.keyLess)
    {
      StableSerialize.SameTextIffSameCanon(v[i], w[i], p.keyLess);
    }
    LiteralCanons(keys, v, w, p.keyLess);
    CanonicalForm.SortedCanons(Literal(keys, v), Literal(keys, w), p.keyLess);
    StableSerialize.SameTextIffSameCanon(Obj(Literal(keys, v)), Obj(Literal(keys, w)), p.keyLess);
  }

  lemma LiteralTextBinds(keys: seq<Str>, v: seq<Json>, w: seq<Json>, i: nat, p: Platform)
    requires |keys| == |v| == |w| && Distinct(keys) && i < |keys|
    requires forall i | 0 <= i < |keys| :: Valid(v[i]) && Valid(w[i])
    requires PrintedText(Obj(Literal(keys, v)), p) == PrintedText(Obj(Literal(keys, w)), p)
    ensures PrintedText(v[i], p) == PrintedText(w[i], p) && Meaning(v[i]) == Meaning(w[i])
  {
    LiteralValid(keys, v);
    LiteralValid(keys, w);
    StableSerialize.SameTextIffSameCanon(Obj(Literal(keys, v)), Obj(Literal(keys, w)), p.keyLess);
    LookupLiteral(keys, v, i);
    LookupLiteral(keys, w, i);
    CanonicalForm.CanonLookup(Literal(keys, v), p.keyLess, keys[i]);
    CanonicalForm.CanonLookup(Literal(keys, w), p.keyLess, keys[i]);
    StableSerialize.SameTextIffSameCanon(v[i], w[i], p.keyLess);
    StableSerialize.SameTextSameMeaning(v[i], w[i], p.keyLess, p.keyLess);
  }

  /** Two object literals share a digest exactly when their values print alike, one by one; these then mean the same. */
  lemma LiteralDigestBinds(keys: seq<Str>, v: seq<Json>, w: seq<Json>, p: Platform)
    requires CollisionFree(p) && |keys| == |v| == |w| && Distinct(keys)
    requires forall i | 0 <= i < |keys| :: Valid(v[i]) && Valid(w[i])
    ensures Fingerprint(Obj(Literal(keys, v)), p) == Fingerprint(Obj(Literal(keys, w)), p)
       <==> (forall i | 0 <= i < |keys| :: PrintedText(v[i], p) == PrintedText(w[i], p))
    ensures Fingerprint(Obj(Literal(keys, v)), p) == Fingerprint(Obj(Literal(keys, w)), p)
        ==> (forall i | 0 <= i < |keys| :: Meaning(v[i]) == Meaning(w[i]))
  {
    if Fingerprint(Obj(Literal(keys, v)), p) == Fingerprint(Obj(Literal(keys, w)), p) {
      forall i | 0 <= i < |keys|
        ensures PrintedText(v[i], p) == PrintedText(w[i], p) && Meaning(v[i]) == Meaning(w[i])
      {
        LiteralTextBinds(keys, v, w, i, p);
      }
    } else if forall i | 0 <= i < |keys| :: PrintedText(v[i], p) == PrintedText(w[i], p) {
      LiteralTextsAgree(keys, v, w, p);
    }
  }

  /** What the reviewed action shows of the body: its printed text. */
  function BodyText(r: Request, p: Platform): Str { PrintedText(EffectiveBody(r), p) }

  /** One digest, one action: kind, principal, method, path and the text of the body, which fixes its meaning. */
  lemma ActionDigestBinds(x: Action, rx: Str, y: Action, ry: Str, p: Platform)
    requires CollisionFree(p) && ValidAction(x) && ValidAction(y)
    ensures Fingerprint(ActionObject(x.kind, rx, x.request), p) == Fingerprint(ActionObject(y.kind, ry, y.request), p)
       <==> && x.kind == y.kind && rx == ry
            && x.request.verb == y.request.verb && x.request.path == y.request.path
            && BodyText(x.request, p) == BodyText(y.request, p)
    ensures BodyText(x.request, p) == BodyText(y.request, p) ==>
      Meaning(EffectiveBody(x.request)) == Meaning(EffectiveBody(y.request))
  {
    KeysDistinct();
    LiteralDigestBinds(ACTION_KEYS, ActionValues(x.kind, rx, x.request), ActionValues(y.kind, ry, y.request), p);
    ActionValuesAgree(x, rx, y, ry, p);
    if BodyText(x.request, p) == BodyText(y.request, p) {
      StableSerialize.SameTextSameMeaning(EffectiveBody(x.request), EffectiveBody(y.request), p.keyLess, p.keyLess);
    }
  }

  lemma TextPrintsOnce(s: Str, t: Str, p: Platform)
    ensures PrintedText(Text(s), p) == PrintedText(Text(t), p) <==> s == t
  {
    if PrintedText(Text(s), p) == PrintedText(Text(t), p) {
      StableSerialize.SameTextSameMeaning(Text(s), Text(t), p.keyLess, p.keyLess);
    }
  }

  lemma FiveAgree(v: seq<Json>, w: seq<Json>, p: Platform)
    requires |v| == |w| == 5
    ensures (forall i | 0 <= i < 5 :: PrintedText(v[i], p) == PrintedText(w[i], p))
       <==> && PrintedText(v[0], p) == PrintedText(w[0], p) && PrintedText(v[1], p) == PrintedText(w[1], p)
            && PrintedText(v[2], p) == PrintedText(w[2], p) && PrintedText(v[3], p) == PrintedText(w[3], p)
            && PrintedText(v[4], p) == PrintedText(w[4], p)
  {
  }

  lemma ActionValuesAgree(x: Action, rx: Str, y: Action, ry: Str, p: Platform)
    ensures (forall i | 0 <= i < |ACTION_KEYS| ::
              PrintedText(ActionValues(x.kind, rx, x.request)[i], p)
              == PrintedText(ActionValues(y.kind, ry, y.request)[i], p))
       <==> && x.kind == y.kind && rx == ry
            && x.request.verb == y.request.verb && x.request.path == y.request.path
            && BodyText(x.request, p) == BodyText(y.request, p)
  {
    FiveAgree(ActionValues(x.kind, rx, x.request), ActionValues(y.kind, ry, y.request), p);
    TextPrintsOnce(x.kind, y.kind, p);
    TextPrintsOnce(rx, ry, p);
    TextPrintsOnce(x.request.verb, y.request.verb, p);
    TextPrintsOnce(x.request.path, y.request.path, p);
  }

  /** One principal reference, one principal, up to workspace letter case and permission order. */
  lemma PrincipalReferenceBinds(a: Principal, ca: Str, b: Principal, cb: Str, p: Platform)
    requires CollisionFree(p)
    ensures PrincipalReference(a, ca, p) == PrincipalReference(b, cb, p)
       <==> && a.kind == b.kind && p.lower(a.workspaceId) == p.lower(b.workspaceId) && a.userId == b.userId
            && a.membershipId == b.membershipId && a.role == b.role && ca == cb
            && multiset(a.permissions) == multiset(b.permissions) && a.sessionExpiresAt == b.sessionExpiresAt
  {
    var ha, hb := Fingerprint(PrincipalObject(a, ca, p), p), Fingerprint(PrincipalObject(b, cb, p), p);
    PrefixCancels(REFERENCE_PREFIX, ha, hb);
    PrincipalValuesAgree(a, ca, b, cb, p);
    if ha == hb {
      KeysDistinct();
      LiteralDigestBinds(PRINCIPAL_KEYS, PrincipalValues(a, ca, p), PrincipalValues(b, cb, p), p);
    } else if multiset(a.permissions) == multiset(b.permissions) {
      UnitLessStrictTotal();
      Sorting.SortByAgreesIffSameMultiset(a.permissions, b.permissions, UnitLess);
    }
  }

  lemma PrefixCancels(prefix: Str, s: Str, t: Str)
    ensures prefix + s == prefix + t <==> s == t
  {
    assert (prefix + s)[|prefix|..] == s && (prefix + t)[|prefix|..] == t;
  }

  function SortedTexts(ts: seq<Str>): Json { Arr(TextItems(Sorting.SortBy(ts, UnitLess))) }

  lemma PermissionsAgree(ts: seq<Str>, us: seq<Str>)
    ensures Meaning(SortedTexts(ts)) == Meaning(SortedTexts(us)) <==> multiset(ts) == multiset(us)
  {
    UnitLessStrictTotal();
    Sorting.SortByAgreesIffSameMultiset(ts, us, UnitLess);
    TextItemsBind(Sorting.SortBy(ts, UnitLess), Sorting.SortBy(us, UnitLess));
  }

  lemma EightAgree(v: seq<Json>, w: seq<Json>)
    requires |v| == |w| == 8
    ensures (forall i | 0 <= i < 8 :: Meaning(v[i]) == Meaning(w[i]))
       <==> && Meaning(v[0]) == Meaning(w[0]) && Meaning(v[1]) == Meaning(w[1])
            && Meaning(v[2]) == Meaning(w[2]) && Meaning(v[3]) == Meaning(w[3])
            && Meaning(v[4]) == Meaning(w[4]) && Meaning(v[5]) == Meaning(w[5])
            && Meaning(v[6]) == Meaning(w[6]) && Meaning(v[7]) == Meaning(w[7])
  {
  }

  lemma TextBinds(s: Str, t: Str)
    ensures Meaning(Text(s)) == Meaning(Text(t)) <==> s == t
  {
  }

  lemma PrincipalValuesAgree(a: Principal, ca: Str, b: Principal, cb: Str, p: Platform)
    ensures (forall i | 0 <= i < 8 ::
              Meaning(PrincipalValues(a, ca, p)[i]) == Meaning(PrincipalValues(b, cb, p)[i]))
       <==> && a.kind == b.kind && p.lower(a.workspaceId) == p.lower(b.workspaceId) && a.userId == b.userId
            && a.membershipId == b.membershipId && a.role == b.role && ca == cb
            && multiset(a.permissions) == multiset(b.permissions) && a.sessionExpiresAt == b.sessionExpiresAt
  {
    EightAgree(PrincipalValues(a, ca, p), PrincipalValues(b, cb, p));
    TextBinds(a.kind, b.kind);
    TextBinds(p.lower(a.workspaceId), p.lower(b.workspaceId));
    TextBinds(a.userId, b.userId);
    TextBinds(a.membershipId, b.membershipId);
    TextBinds(a.role, b.role);
    PermissionsAgree(a.permissions, b.permissions);
    TextBinds(ca, cb);
    TextBinds(a.sessionExpiresAt, b.sessionExpiresAt);
  }

  /** A receipt accepted for one action is accepted for another exactly when it is the same action, with a body that
      prints alike. */
  lemma ReceiptBindsAction(receipt: Receipt, x: Action, y: Action, p: Platform)
    requires CollisionFree(p) && ValidAction(x) && ValidAction(y)
    requires Matches(receipt, Bound(x, p))
    ensures Matches(receipt, Bound(y, p)) <==> SameAction(x, y) && BodyText(x.request, p) == BodyText(y.request, p)
  {
    var rx := PrincipalReference(x.principal, x.createdAt, p);
    var ry := PrincipalReference(y.principal, y.createdAt, p);
    PrincipalReferenceBinds(x.principal, x.createdAt, y.principal, y.createdAt, p);
    ActionDigestBinds(x, rx, y, ry, p);
  }

  lemma CoveredWhenUntied(receipt: Receipt, x: Action, y: Action, p: Platform)
    requires CollisionFree(p) && StrictOrder(p.keyLess) && ValidAction(x) && Matches(receipt, Bound(x, p))
    requires ValidAction(y) && SameAction(x, y)
    requires CanonicalForm.Untied(Meaning(EffectiveBody(x.request)), p.keyLess)
    ensures Matches(receipt, Bound(y, p))
  {
    CanonicalForm.SerializeAgreesIffSameMeaning(EffectiveBody(x.request), EffectiveBody(y.request), p.keyLess);
    ReceiptBindsAction(receipt, x, y, p);
  }

  function WithBody(x: Action, body: Json): Action { x.(request := x.request.(body := Some(body))) }

  lemma TiedBodyNotCovered(receipt: Receipt, x: Action, p: Platform) returns (y: Action)
    requires CollisionFree(p) && ValidAction(x) && Matches(receipt, Bound(x, p))
    requires !CanonicalForm.Untied(Meaning(EffectiveBody(x.request)), p.keyLess)
    ensures ValidAction(y) && SameAction(x, y) && !Matches(receipt, Bound(y, p))
  {
    var body := EffectiveBody(x.request);
    var other := CanonicalForm.TiesShow(body, p.keyLess);
    StableSerialize.SameTextIffSameCanon(body, other, p.keyLess);
    y := WithBody(x, other);
    assert !other.Null? && EffectiveBody(y.request) == other;
    ReceiptBindsAction(receipt, x, y, p);
  }

  /** A receipt covers the action in every key order of its body exactly when no two keys of the body tie. */
  lemma ReceiptCoversIffUntied(receipt: Receipt, x: Action, p: Platform)
    requires CollisionFree(p) && StrictOrder(p.keyLess) && ValidAction(x) && Matches(receipt, Bound(x, p))
    ensures (forall y | ValidAction(y) && SameAction(x, y) :: Matches(receipt, Bound(y, p)))
       <==> CanonicalForm.Untied(Meaning(EffectiveBody(x.request)), p.keyLess)
  {
    if CanonicalForm.Untied(Meaning(EffectiveBody(x.request)), p.keyLess) {
      forall y | ValidAction(y) && SameAction(x, y) ensures Matches(receipt, Bound(y, p)) {
        CoveredWhenUntied(receipt, x, y, p);
      }
    } else {
      var y := TiedBodyNotCovered(receipt, x, p);
    }
  }

  // ---------- what is reviewed, by name ----------

  lemma LiteralAt(keys: seq<Str>, values: seq<Json>, i: nat, key: string, value: Json)
    requires |keys| == |values| && Distinct(keys) && i < |keys| && keys[i] == S(key) && values[i] == value
    ensures Lookup(Literal(keys, values), S(key)) == Some(value)
  {
    LookupLiteral(keys, values, i);
  }

  /** The reviewed action: five named properties and no other. */
  lemma ReviewedFields(kind: Str, reference: Str, r: Request)
    ensures var f := ActionObject(kind, reference, r).fields;
      && Lookup(f, S("kind")) == Some(Text(kind)) && Lookup(f, S("principalReference")) == Some(Text(reference))
      && Lookup(f, S("method")) == Some(Text(r.verb)) && Lookup(f, S("path")) == Some(Text(r.path))
      && Lookup(f, S("body")) == Some(if r.body.Some? && !r.body.value.Null? then r.body.value else Obj(End))
    ensures forall k | k in Keys(ActionObject(kind, reference, r).fields) ::
      k in [S("kind"), S("principalReference"), S("method"), S("path"), S("body")]
  {
    var v := ActionValues(kind, reference, r);
    KeysDistinct();
    LiteralAt(ACTION_KEYS, v, 0, "kind", v[0]);
    LiteralAt(ACTION_KEYS, v, 1, "principalReference", v[1]);
    LiteralAt(ACTION_KEYS, v, 2, "method", v[2]);
    LiteralAt(ACTION_KEYS, v, 3, "path", v[3]);
    LiteralAt(ACTION_KEYS, v, 4, "body", v[4]);
  }

  /** The principal behind the reference: eight named properties, the permissions sorted. */
  lemma PrincipalFields(a: Principal, createdAt: Str, p: Platform)
    ensures var f := PrincipalObject(a, createdAt, p).fields;
      && Lookup(f, S("kind")) == Some(Text(a.kind)) && Lookup(f, S("workspaceId")) == Some(Text(p.lower(a.workspaceId)))
      && Lookup(f, S("userId")) == Some(Text(a.userId)) && Lookup(f, S("membershipId")) == Some(Text(a.membershipId))
  {
    var v := PrincipalValues(a, createdAt, p);
    KeysDistinct();
    LiteralAt(PRINCIPAL_KEYS, v, 0, "kind", v[0]);
    LiteralAt(PRINCIPAL_KEYS, v, 1, "workspaceId", v[1]);
    LiteralAt(PRINCIPAL_KEYS, v, 2, "userId", v[2]);
    LiteralAt(PRINCIPAL_KEYS, v, 3, "membershipId", v[3]);
  }

  lemma PrincipalSessionFields(a: Principal, createdAt: Str, p: Platform)
    ensures var f := PrincipalObject(a, createdAt, p).fields;
      && Lookup(f, S("role")) == Some(Text(a.role)) && Lookup(f, S("permissions")) == Some(SortedTexts(a.permissions))
      && Lookup(f, S("sessionCreatedAt")) == Some(Text(createdAt))
      && Lookup(f, S("sessionExpiresAt")) == Some(Text(a.sessionExpiresAt))
  {
    var v := PrincipalValues(a, createdAt, p);
    KeysDistinct();
    LiteralAt(PRINCIPAL_KEYS, v, 4, "role", v[4]);
    LiteralAt(PRINCIPAL_KEYS, v, 5, "permissions", v[5]);
    LiteralAt(PRINCIPAL_KEYS, v, 6, "sessionCreatedAt", v[6]);
    LiteralAt(PRINCIPAL_KEYS, v, 7, "sessionExpiresAt", v[7]);
  }

  /** An accepted receipt is Core's, about a human, and names the session, the route and the key of the action. */
  lemma AcceptedReceiptIs(receipt: Receipt, x: Action, p: Platform)
    ensures Matches(receipt, Bound(x, p)) <==>
      && receipt.schemaVersion == 1 && receipt.authorityVersion == 1
      && receipt.source == S("CORE") && receipt.actorKind == S("HUMAN_USER")
      && S("core-governed-human-action-receipt:") <= receipt.authorityReference
      && S("core-governed-human-action-evidence:") <= receipt.evidenceReference
      && var m := receipt.subject;
         && m.workspaceId == x.principal.workspaceId && m.userId == x.principal.userId
         && m.membershipId == x.principal.membershipId && m.kind == x.kind && m.mutationRoute == x.request.path
         && m.idempotencyKey == x.key && m.authenticatedAt == x.createdAt
         && m.principalReference ==
            S("core-workspace-principal:") + p.hash(PrintedText(PrincipalObject(x.principal, x.createdAt, p), p))
         && m.reviewedActionDigest == p.hash(PrintedText(ActionObject(x.kind, m.principalReference, x.request), p))
  {
  }
}

/** Authorizing a governed workspace mutation: which checks ran, in what order, and what they released. */
module GovernedMutation {
  import opened Texts
  import opened Json
  import opened TextOps
  import opened GovernedAction
  import SessionCookie

  datatype Policy = Policy(
    permissions: seq<Str>, workspaceHeader: Str, idempotencyRequired: bool, matchBodyKey: bool,
    forbiddenFields: seq<Str>, forbiddenHeaders: seq<Str>, bindField: Option<Str>, humanAction: Option<Str>)

  datatype Resolution = Resolved(principal: Principal) | Unresolved(code: Str)
  /** Core issues a receipt, refuses with a status, or the call fails in another way. */
  datatype Reply = Issued(receipt: Receipt) | NotIssued(status: int) | Failed

  /** How an action is bound to a receipt subject, and when a receipt is accepted for it. */
  datatype Binding = Binding(
    subject: (Request, Principal, Str, Str, Str) -> Materialization,
    accepts: (Receipt, Materialization) -> bool,
    instant: Str -> bool)

  /** The Core client; `materialize` is absent when the client has no receipt authority. */
  datatype Core = Core(resolve: (Str, Str) -> Resolution, materialize: Option<Materialization -> Reply>)

  datatype Options = Options(core: Option<Core>, csrf: Str -> Str, allowedOrigins: seq<Str>)

  datatype Problem =
    | AuthenticationUnavailable
    | BodyNotObject
    | BrowserAuthority(field: Str)
    | NoWorkspace
    | NoSession
    | WorkspaceRefused(code: Str)
    | UntrustedOrigin
    | InvalidCsrf
    | PermissionDenied
    | NoIdempotencyKey
    | IdempotencyMismatch
    | InvalidActionPolicy
    | NoAuthenticationTime
    | NoReceiptAuthority
    | ReceiptRefused(status: int)
    | ReceiptFailed
    | ReceiptMismatch

  datatype Context = Context(principal: Principal, body: Fields, key: Option<Str>, receipt: Option<Receipt>)
  datatype Outcome = Refused(problem: Problem) | Authorized(context: Context)

  /** What a run does, in order: a resolution or receipt answer from Core, or a check that passed. */
  datatype Event =
    | WorkspaceResolved
    | OriginTrusted
    | CsrfValid
    | PermissionHeld
    | IdempotencyMet
    | ReceiptRequested(subject: Materialization)

  function Header(r: Request, name: Str): Option<Str> {
    if name in r.headers then Some(r.headers[name]) else None
  }

  /** A header that is present and not the empty string. */
  function Given(o: Option<Str>): Option<Str> {
    if o.Some? && o.value != [] then o else None
  }

  function Body(r: Request): Option<Fields> {
    match EffectiveBody(r)
    case Obj(f) => Some(f)
    case _ => None
  }

  /** `n` is present, and no name listed before it is. */
  ghost predicate FirstListed(names: seq<Str>, present: set<Str>, n: Str) {
    exists i :: 0 <= i < |names| && names[i] == n && n in present && forall j | 0 <= j < i :: names[j] !in present
  }

  /** The first listed name that is present. */
  function FirstIn(names: seq<Str>, present: set<Str>): (r: Option<Str>)
    ensures r.None? <==> forall n | n in names :: n !in present
    ensures r.Some? ==> FirstListed(names, present, r.value)
    decreases |names|
  {
    if names == [] then None
    else if names[0] in present then Some(names[0])
    else FirstIn(names[1..], present)
  }

  lemma FirstListedUnique(names: seq<Str>, present: set<Str>, m: Str, n: Str)
    requires FirstListed(names, present, m) && FirstListed(names, present, n)
    ensures m == n
  {
    var i :| 0 <= i < |names| && names[i] == m && m in present && forall j | 0 <= j < i :: names[j] !in present;
    var k :| 0 <= k < |names| && names[k] == n && n in present && forall j | 0 <= j < k :: names[j] !in present;
  }

  /** The trusted-authority field the browser supplied; an empty field name is never reported. */
  function BrowserField(r: Request, body: Fields, policy: Policy): Option<Str> {
    var inBody := FirstIn(policy.forbiddenFields, Keys(body));
    Given(if inBody.Some? then inBody else FirstIn(policy.forbiddenHeaders, r.headers.Keys))
  }

  function Token(r: Request): Option<Str> {
    SessionCookie.ReadSessionCookie(Header(r, S("cookie")))
  }

  function Key(r: Request): Option<Str> {
    match Header(r, S("idempotency-key"))
    case None => None
    case Some(raw) => Given(Some(Trim(raw)))
  }

  predicate KeyConflicts(key: Option<Str>, body: Fields, policy: Policy) {
    && policy.matchBodyKey && key.Some?
    && Lookup(body, S("idempotencyKey")).Some?
    && Lookup(body, S("idempotencyKey")) != Some(Text(key.value))
  }

  // ---------- the conditions, in the request's own terms ----------

  /** The body as an object: absent and null bodies are empty. */
  predicate BodyIs(r: Request, f: Fields) {
    r.body == Some(Obj(f)) || ((r.body == None || r.body == Some(Null)) && f == End)
  }

  /** The name for which the request is turned away: a body name comes before a header name. */
  ghost predicate Offends(r: Request, f: Fields, policy: Policy, n: Str) {
    && n != []
    && if exists m :: m in policy.forbiddenFields && m in Keys(f) then FirstListed(policy.forbiddenFields, Keys(f), n)
       else FirstListed(policy.forbiddenHeaders, r.headers.Keys, n)
  }

  /** The header is there, and it is not empty. */
  predicate Sends(r: Request, header: string) { S(header) in r.headers && r.headers[S(header)] != [] }

  predicate SessionSent(r: Request) {
    S("cookie") in r.headers && SessionCookie.ReadSessionCookie(Some(r.headers[S("cookie")])).Some?
  }

  predicate WorkspaceSent(r: Request, policy: Policy) {
    policy.workspaceHeader in r.headers && r.headers[policy.workspaceHeader] != []
  }

  predicate OriginOk(r: Request, o: Options) { Sends(r, "origin") && r.headers[S("origin")] in o.allowedOrigins }

  predicate CsrfOk(r: Request, a: Principal, o: Options) {
    Sends(r, "x-markorbit-csrf-token") && r.headers[S("x-markorbit-csrf-token")] == o.csrf(a.sessionId)
  }

  ghost predicate PermissionOk(a: Principal, policy: Policy) {
    exists n :: n in policy.permissions && n in a.permissions
  }

  /** The key is the trimmed header, when that is not empty. */
  predicate KeyIs(r: Request, key: Option<Str>) {
    if S("idempotency-key") in r.headers && Trim(r.headers[S("idempotency-key")]) != []
    then key == Some(Trim(r.headers[S("idempotency-key")]))
    else key == None
  }

  lemma KeyIsTrimmedHeader(r: Request)
    ensures KeyIs(r, Key(r))
  {
  }

  lemma BodyIsRecord(r: Request, f: Fields)
    ensures Body(r) == Some(f) <==> BodyIs(r, f)
  {
  }

  lemma FieldOffends(r: Request, f: Fields, policy: Policy)
    ensures BrowserField(r, f, policy).Some? ==> Offends(r, f, policy, BrowserField(r, f, policy).value)
    ensures forall n | Offends(r, f, policy, n) :: BrowserField(r, f, policy) == Some(n)
  {
    var inBody := FirstIn(policy.forbiddenFields, Keys(f));
    var inHeaders := FirstIn(policy.forbiddenHeaders, r.headers.Keys);
    forall n | Offends(r, f, policy, n) ensures BrowserField(r, f, policy) == Some(n) {
      if inBody.Some? {
        FirstListedUnique(policy.forbiddenFields, Keys(f), inBody.value, n);
      } else {
        FirstListedUnique(policy.forbiddenHeaders, r.headers.Keys, inHeaders.value, n);
      }
    }
  }

  /** `{ ...body, [key]: value }`. */
  function Assign(f: Fields, key: Str, value: Json): (r: Fields)
    ensures Keys(r) == Keys(f) + {key}
    ensures Lookup(r, key) == Some(value)
    ensures forall k | k != key :: Lookup(r, k) == Lookup(f, k)
  {
    match f
    case End => Field(key, value, End)
    case Field(k, v, rest) => if k == key then Field(k, value, rest) else Field(k, v, Assign(rest, key, value))
    case Hole(k, rest) => if k == key then Field(k, value, rest) else Hole(k, Assign(rest, key, value))
  }

  /** The session time a receipt may carry: present, and a date. */
  function CreatedAt(a: Principal, b: Binding): Option<Str> {
    var at := Given(a.sessionCreatedAt);
    if at.Some? && b.instant(at.value) then at else None
  }

  // ---------- the receipt half ----------

  /** The question put to Core, when there is one to put. */
  function Question(r: Request, a: Principal, kind: Str, core: Core, key: Str, b: Binding): Option<Materialization> {
    if CreatedAt(a, b).Some? && core.materialize.Some? then Some(b.subject(r, a, kind, key, CreatedAt(a, b).value))
    else None
  }

  predicate Answered(receipt: Receipt, m: Materialization, core: Core, b: Binding) {
    core.materialize.Some? && core.materialize.value(m) == Issued(receipt) && b.accepts(receipt, m)
  }

  /** A refusal by Core keeps its status, another failure is passed on; an issued receipt that is not accepted is a
      mismatch. */
  function Rejection(core: Core, m: Materialization): Problem
    requires core.materialize.Some?
  {
    match core.materialize.value(m)
    case NotIssued(status) => ReceiptRefused(status)
    case Failed => ReceiptFailed
    case Issued(_) => ReceiptMismatch
  }

  /** Asks Core at most once; a receipt comes back only if it is accepted for the question asked. */
  method HumanAction(r: Request, a: Principal, kind: Str, core: Core, key: Str, b: Binding)
    returns (problem: Problem, asked: Option<Materialization>, receipt: Option<Receipt>)
    ensures asked == Question(r, a, kind, core, key, b)
    ensures receipt.Some? ==> asked.Some? && Answered(receipt.value, asked.value, core, b)
    ensures receipt.None? && asked.Some? ==> forall x :: !Answered(x, asked.value, core, b)
    ensures receipt.None? && asked.Some? ==> problem == Rejection(core, asked.value)
    ensures asked.None? ==> receipt.None?
    ensures asked.None? ==> problem == if CreatedAt(a, b).None? then NoAuthenticationTime else NoReceiptAuthority
  {
    var at := CreatedAt(a, b);
    if at.None? { return NoAuthenticationTime, None, None; }
    if core.materialize.None? { return NoReceiptAuthority, None, None; }
    var m := b.subject(r, a, kind, key, at.value);
    asked, receipt := Some(m), None;
    match core.materialize.value(m)
    case NotIssued(status) => problem := ReceiptRefused(status);
    case Failed => problem := ReceiptFailed;
    case Issued(got) =>
      problem := ReceiptMismatch;
      if b.accepts(got, m) { receipt := Some(got); }
  }

  // ---------- the request checks ----------

  /** What a request must bring before Core is asked. */
  ghost predicate Presentable(r: Request, o: Options, policy: Policy) {
    && o.core.Some? && SessionSent(r) && WorkspaceSent(r, policy)
    && exists f :: BodyIs(r, f) && forall n :: !Offends(r, f, policy, n)
  }

  lemma PresentableIff(r: Request, o: Options, policy: Policy)
    ensures Unpresentable(r, o, policy).None? <==> Presentable(r, o, policy)
  {
    if Body(r).Some? {
      BodyIsRecord(r, Body(r).value);
      FieldOffends(r, Body(r).value, policy);
    }
    forall f | BodyIs(r, f) ensures Body(r) == Some(f) { BodyIsRecord(r, f); }
  }

  /** A forbidden name is what the request is turned away for, once Core is configured and the body is an object. */
  lemma OffencesAreReported(r: Request, o: Options, policy: Policy)
    ensures forall f, n | o.core.Some? && BodyIs(r, f) && Offends(r, f, policy, n) ::
      Unpresentable(r, o, policy) == Some(BrowserAuthority(n))
  {
    forall f, n | o.core.Some? && BodyIs(r, f) && Offends(r, f, policy, n)
      ensures Unpresentable(r, o, policy) == Some(BrowserAuthority(n))
    {
      BodyIsRecord(r, f);
      FieldOffends(r, f, policy);
    }
  }

  /** The other reasons, in their order. */
  lemma RefusedInOrder(r: Request, o: Options, policy: Policy)
    ensures Unpresentable(r, o, policy) == Some(AuthenticationUnavailable) <==> o.core.None?
    ensures Unpresentable(r, o, policy) == Some(BodyNotObject) <==> o.core.Some? && forall f :: !BodyIs(r, f)
    ensures Unpresentable(r, o, policy) == Some(NoWorkspace) <==>
      && o.core.Some? && !WorkspaceSent(r, policy)
      && exists f :: BodyIs(r, f) && forall n :: !Offends(r, f, policy, n)
    ensures Unpresentable(r, o, policy) == Some(NoSession) <==>
      && o.core.Some? && WorkspaceSent(r, policy) && !SessionSent(r)
      && exists f :: BodyIs(r, f) && forall n :: !Offends(r, f, policy, n)
  {
    if Body(r).Some? {
      BodyIsRecord(r, Body(r).value);
      FieldOffends(r, Body(r).value, policy);
    }
    forall f | BodyIs(r, f) ensures Body(r) == Some(f) { BodyIsRecord(r, f); }
  }

  /** The checks that need no answer from Core, in order: the first that fails. */
  function Unpresentable(r: Request, o: Options, policy: Policy): Option<Problem> {
    if o.core.None? then Some(AuthenticationUnavailable)
    else if Body(r).None? then Some(BodyNotObject)
    else if BrowserField(r, Body(r).value, policy).Some? then
      Some(BrowserAuthority(BrowserField(r, Body(r).value, policy).value))
    else if Given(Header(r, policy.workspaceHeader)).None? then Some(NoWorkspace)
    else if Token(r).None? then Some(NoSession)
    else None
  }

  /** A required key is there, and a key in the body that must match does. */
  ghost predicate IdempotencyOk(r: Request, policy: Policy) {
    exists key, f :: && KeyIs(r, key) && BodyIs(r, f) && (policy.idempotencyRequired ==> key.Some?)
                     && (policy.matchBodyKey && key.Some? && Lookup(f, S("idempotencyKey")).Some? ==>
                           Lookup(f, S("idempotencyKey")) == Some(Text(key.value)))
  }

  lemma IdempotencyIff(r: Request, policy: Policy)
    requires Body(r).Some?
    ensures IdempotencyOk(r, policy) <==>
      (policy.idempotencyRequired ==> Key(r).Some?) && !KeyConflicts(Key(r), Body(r).value, policy)
  {
    KeyIsTrimmedHeader(r);
    BodyIsRecord(r, Body(r).value);
    forall key, f | KeyIs(r, key) && BodyIs(r, f) ensures key == Key(r) && f == Body(r).value { BodyIsRecord(r, f); }
  }

  /** The session checks of a resolved principal, each logged once it has passed. */
  method CheckSession(r: Request, a: Principal, o: Options, policy: Policy)
    returns (problem: Option<Problem>, log: seq<Event>)
    requires Body(r).Some?
    ensures log <= [OriginTrusted, CsrfValid, PermissionHeld, IdempotencyMet]
    ensures problem.None? <==> OriginOk(r, o) && CsrfOk(r, a, o) && PermissionOk(a, policy) && IdempotencyOk(r, policy)
    ensures problem.None? <==> |log| == 4
    ensures |log| == 0 ==> problem == Some(UntrustedOrigin) && !OriginOk(r, o)
    ensures |log| == 1 ==> problem == Some(InvalidCsrf) && OriginOk(r, o) && !CsrfOk(r, a, o)
    ensures |log| == 2 ==>
      problem == Some(PermissionDenied) && OriginOk(r, o) && CsrfOk(r, a, o) && !PermissionOk(a, policy)
    ensures |log| == 3 ==> OriginOk(r, o) && CsrfOk(r, a, o) && PermissionOk(a, policy)
    ensures |log| == 3 && policy.idempotencyRequired && Key(r).None? ==> problem == Some(NoIdempotencyKey)
    ensures |log| == 3 && !(policy.idempotencyRequired && Key(r).None?) ==> problem == Some(IdempotencyMismatch)
  {
    IdempotencyIff(r, policy);
    log := [];
    var origin := Given(Header(r, S("origin")));
    if origin.None? || origin.value !in o.allowedOrigins { return Some(UntrustedOrigin), log; }
    log := log + [OriginTrusted];
    var token := Given(Header(r, S("x-markorbit-csrf-token")));
    if token != Some(o.csrf(a.sessionId)) { return Some(InvalidCsrf), log; }
    log := log + [CsrfValid];
    if !exists n | n in policy.permissions :: n in a.permissions { return Some(PermissionDenied), log; }
    log := log + [PermissionHeld];
    if policy.idempotencyRequired && Key(r).None? { return Some(NoIdempotencyKey), log; }
    if KeyConflicts(Key(r), Body(r).value, policy) { return Some(IdempotencyMismatch), log; }
    log := log + [IdempotencyMet];
    problem := None;
  }

  // ---------- the whole run ----------

  /** The principal Core resolves, once the request is presentable. */
  function Trusted(r: Request, o: Options, policy: Policy): Option<Principal> {
    if Unpresentable(r, o, policy).Some? then None
    else match o.core.value.resolve(Token(r).value, Header(r, policy.workspaceHeader).value)
         case Resolved(a) => Some(a)
         case Unresolved(_) => None
  }

  ghost predicate SessionOk(r: Request, a: Principal, o: Options, policy: Policy) {
    OriginOk(r, o) && CsrfOk(r, a, o) && PermissionOk(a, policy) && IdempotencyOk(r, policy)
  }

  /** What the policy asks of Core: nothing, or an accepted receipt for the action under its key. */
  predicate ReceiptMet(r: Request, a: Principal, o: Options, policy: Policy, b: Binding, receipt: Option<Receipt>) {
    if policy.humanAction.None? then receipt.None?
    else
      && receipt.Some? && Key(r).Some? && o.core.Some?
      && var asked := Question(r, a, policy.humanAction.value, o.core.value, Key(r).value, b);
         asked.Some? && Answered(receipt.value, asked.value, o.core.value, b)
  }

  const CHECKS: seq<Event> := [WorkspaceResolved, OriginTrusted, CsrfValid, PermissionHeld, IdempotencyMet]

  /** Every run: a prefix of the checks in order, then at most one receipt call, under a human-action policy. */
  ghost predicate Ordered(log: seq<Event>, r: Request, a: Principal, o: Options, policy: Policy, b: Binding) {
    || log <= CHECKS
    || (&& |log| == 6 && log[..5] == CHECKS && SessionOk(r, a, o, policy)
        && policy.humanAction.Some? && Key(r).Some? && o.core.Some?
        && var asked := Question(r, a, policy.humanAction.value, o.core.value, Key(r).value, b);
           asked.Some? && log[5] == ReceiptRequested(asked.value))
  }

  function BoundBody(body: Fields, a: Principal, policy: Policy): Fields {
    if policy.bindField.None? then body else Assign(body, policy.bindField.value, Text(a.workspaceId))
  }

  predicate Released(c: Context, r: Request, a: Principal, o: Options, policy: Policy, b: Binding) {
    && c.principal == a && c.key == Key(r) && Body(r).Some?
    && c.body == BoundBody(Body(r).value, a, policy)
    && ReceiptMet(r, a, o, policy, b, c.receipt)
  }

  /** What a release rests on, in the terms of the request, the options and the policy. */
  ghost predicate Lawful(c: Context, r: Request, o: Options, policy: Policy, b: Binding) {
    && LawfulReceipt(c, r, o, policy, b)
    && o.core.Some? && SessionSent(r) && WorkspaceSent(r, policy)
    && o.core.value.resolve(SessionCookie.ReadSessionCookie(Some(r.headers[S("cookie")])).value,
                            r.headers[policy.workspaceHeader]) == Resolved(c.principal)
    && Sends(r, "origin") && r.headers[S("origin")] in o.allowedOrigins
    && Sends(r, "x-markorbit-csrf-token") && r.headers[S("x-markorbit-csrf-token")] == o.csrf(c.principal.sessionId)
    && (exists n :: n in policy.permissions && n in c.principal.permissions)
    && KeyIs(r, c.key) && (policy.idempotencyRequired ==> c.key.Some?)
    && (exists f :: && BodyIs(r, f) && (forall n :: !Offends(r, f, policy, n))
                    && ([] !in policy.forbiddenFields ==> forall n | n in policy.forbiddenFields :: n !in Keys(f))
                    && (policy.matchBodyKey && c.key.Some? && Lookup(f, S("idempotencyKey")).Some? ==>
                          Lookup(f, S("idempotencyKey")) == Some(Text(c.key.value)))
                    && BindsWorkspace(c.body, f, c.principal, policy))
    && ([] !in policy.forbiddenFields && [] !in policy.forbiddenHeaders ==>
          forall n | n in policy.forbiddenHeaders :: n !in r.headers)
  }

  /** No receipt without a human action; with one, Core issued it for this very action, under its key, at a known
      session time. */
  ghost predicate LawfulReceipt(c: Context, r: Request, o: Options, policy: Policy, b: Binding) {
    if policy.humanAction.None? then c.receipt.None?
    else
      && c.receipt.Some? && c.key.Some? && o.core.Some? && o.core.value.materialize.Some?
      && c.principal.sessionCreatedAt.Some? && c.principal.sessionCreatedAt.value != []
      && b.instant(c.principal.sessionCreatedAt.value)
      && var subject := b.subject(r, c.principal, policy.humanAction.value, c.key.value,
                                  c.principal.sessionCreatedAt.value);
         o.core.value.materialize.value(subject) == Issued(c.receipt.value) && b.accepts(c.receipt.value, subject)
  }

  /** The body as sent, with the bound field, if any, holding the principal's workspace. */
  ghost predicate BindsWorkspace(body: Fields, sent: Fields, a: Principal, policy: Policy) {
    match policy.bindField
    case None => body == sent
    case Some(k) =>
      && Keys(body) == Keys(sent) + {k} && Lookup(body, k) == Some(Text(a.workspaceId))
      && forall n | n != k :: Lookup(body, n) == Lookup(sent, n)
  }

  lemma SomeFirst(names: seq<Str>, present: set<Str>, n: Str)
    requires n in names && n in present
    ensures FirstIn(names, present).Some?
  {
  }

  lemma ForbiddenFieldOffends(r: Request, f: Fields, policy: Policy, n: Str)
    requires [] !in policy.forbiddenFields && n in policy.forbiddenFields && n in Keys(f)
    ensures exists m :: Offends(r, f, policy, m)
  {
    SomeFirst(policy.forbiddenFields, Keys(f), n);
    assert Offends(r, f, policy, FirstIn(policy.forbiddenFields, Keys(f)).value);
  }

  lemma ForbiddenHeaderOffends(r: Request, f: Fields, policy: Policy, n: Str)
    requires [] !in policy.forbiddenFields && [] !in policy.forbiddenHeaders
    requires n in policy.forbiddenHeaders && n in r.headers
    ensures exists m :: Offends(r, f, policy, m)
  {
    if m :| m in policy.forbiddenFields && m in Keys(f) {
      ForbiddenFieldOffends(r, f, policy, m);
    } else {
      SomeFirst(policy.forbiddenHeaders, r.headers.Keys, n);
      assert Offends(r, f, policy, FirstIn(policy.forbiddenHeaders, r.headers.Keys).value);
    }
  }

  lemma NothingForbidden(r: Request, f: Fields, policy: Policy)
    requires forall n :: !Offends(r, f, policy, n)
    ensures [] !in policy.forbiddenFields ==> forall n | n in policy.forbiddenFields :: n !in Keys(f)
    ensures [] !in policy.forbiddenFields && [] !in policy.forbiddenHeaders ==>
      forall n | n in policy.forbiddenHeaders :: n !in r.headers
  {
    if [] !in policy.forbiddenFields {
      forall n | n in policy.forbiddenFields && n in Keys(f) ensures false { ForbiddenFieldOffends(r, f, policy, n); }
      if [] !in policy.forbiddenHeaders {
        forall n | n in policy.forbiddenHeaders && n in r.headers ensures false {
          ForbiddenHeaderOffends(r, f, policy, n);
        }
      }
    }
  }

  lemma ReleaseIsLawful(c: Context, r: Request, a: Principal, o: Options, policy: Policy, b: Binding)
    requires Trusted(r, o, policy) == Some(a) && SessionOk(r, a, o, policy) && Released(c, r, a, o, policy, b)
    ensures Lawful(c, r, o, policy, b)
  {
    var f := Body(r).value;
    PresentableIff(r, o, policy);
    KeyIsTrimmedHeader(r);
    BodyIsRecord(r, f);
    FieldOffends(r, f, policy);
    NothingForbidden(r, f, policy);
    IdempotencyIff(r, policy);
    assert BindsWorkspace(c.body, f, a, policy);
  }

  method Authorize(r: Request, o: Options, policy: Policy, b: Binding) returns (outcome: Outcome, log: seq<Event>)
    ensures log != [] <==> Trusted(r, o, policy).Some?
    ensures log != [] ==> Ordered(log, r, Trusted(r, o, policy).value, o, policy, b)
    ensures |log| >= 5 ==> SessionOk(r, Trusted(r, o, policy).value, o, policy)
    ensures outcome.Authorized? ==> |log| >= 5
    ensures outcome.Authorized? ==> Released(outcome.context, r, Trusted(r, o, policy).value, o, policy, b)
    ensures outcome.Authorized? ==> Lawful(outcome.context, r, o, policy, b)
    ensures forall f, n | o.core.Some? && BodyIs(r, f) && Offends(r, f, policy, n) ::
      outcome == Refused(BrowserAuthority(n)) && log == []
    ensures log != [] ==> Presentable(r, o, policy)
    ensures outcome.Refused? && Trusted(r, o, policy).Some? && SessionOk(r, Trusted(r, o, policy).value, o, policy)
      ==> forall x :: !ReceiptMet(r, Trusted(r, o, policy).value, o, policy, b, x)
    ensures outcome.Refused? && Unpresentable(r, o, policy).Some? ==>
      outcome.problem == Unpresentable(r, o, policy).value
    ensures outcome.Refused? && |log| == 1 ==> outcome.problem == UntrustedOrigin
    ensures outcome.Refused? && |log| == 2 ==> outcome.problem == InvalidCsrf
    ensures outcome.Refused? && |log| == 3 ==> outcome.problem == PermissionDenied
    ensures outcome.Refused? && |log| == 4 ==>
      outcome.problem == if policy.idempotencyRequired && Key(r).None? then NoIdempotencyKey else IdempotencyMismatch
    ensures outcome.Refused? && |log| == 5 ==>
      outcome.problem in {InvalidActionPolicy, NoAuthenticationTime, NoReceiptAuthority}
    ensures outcome.Refused? && |log| == 6 ==>
      o.core.Some? && o.core.value.materialize.Some? && log[5].ReceiptRequested?
    ensures outcome.Refused? && |log| == 6 ==> outcome.problem == Rejection(o.core.value, log[5].subject)
    ensures outcome.Refused? && log == [] && Unpresentable(r, o, policy).None? ==> outcome.problem.WorkspaceRefused?
  {
    PresentableIff(r, o, policy);
    OffencesAreReported(r, o, policy);
    var early := Unpresentable(r, o, policy);
    if early.Some? { return Refused(early.value), []; }
    var resolution := o.core.value.resolve(Token(r).value, Header(r, policy.workspaceHeader).value);
    if resolution.Unresolved? { return Refused(WorkspaceRefused(resolution.code)), []; }
    var a := resolution.principal;
    var problem, checked := CheckSession(r, a, o, policy);
    log := [WorkspaceResolved] + checked;
    if problem.Some? { return Refused(problem.value), log; }
    if policy.humanAction.None? {
      var context := Context(a, BoundBody(Body(r).value, a, policy), Key(r), None);
      ReleaseIsLawful(context, r, a, o, policy, b);
      return Authorized(context), log;
    }
    if Key(r).None? { return Refused(InvalidActionPolicy), log; }
    var refusal, asked, receipt := HumanAction(r, a, policy.humanAction.value, o.core.value, Key(r).value, b);
    if asked.Some? { log := log + [ReceiptRequested(asked.value)]; }
    if receipt.None? { return Refused(refusal), log; }
    var context := Context(a, BoundBody(Body(r).value, a, policy), Key(r), receipt);
    ReleaseIsLawful(context, r, a, o, policy, b);
    outcome := Authorized(context);
  }

  // ---------- receipts across runs ----------

  /** The gateway's own binding: the digests of the reviewed action and the field-by-field check. */
  function GatewayBinding(p: Platform): Binding {
    Binding((r, a, kind, key, at) => Materialize(r, a, kind, key, at, p), Matches, p.instant)
  }

  function Reviewed(r: Request, a: Principal, policy: Policy, b: Binding): Action
    requires policy.humanAction.Some? && Key(r).Some? && CreatedAt(a, b).Some?
  {
    Action(r, a, policy.humanAction.value, Key(r).value, CreatedAt(a, b).value)
  }

  /** Two authorized runs that carry one receipt carried out one action. */
  lemma OneReceiptOneAction(
      r: Request, a: Principal, o: Options, policy: Policy, r': Request, a': Principal, o': Options, policy': Policy,
      receipt: Receipt, p: Platform)
    requires CollisionFree(p) && Valid(EffectiveBody(r)) && Valid(EffectiveBody(r'))
    requires policy.humanAction.Some? && policy'.humanAction.Some?
    requires ReceiptMet(r, a, o, policy, GatewayBinding(p), Some(receipt))
    requires ReceiptMet(r', a', o', policy', GatewayBinding(p), Some(receipt))
    ensures SameAction(Reviewed(r, a, policy, GatewayBinding(p)), Reviewed(r', a', policy', GatewayBinding(p)))
  {
    var b := GatewayBinding(p);
    ReceiptBindsAction(receipt, Reviewed(r, a, policy, b), Reviewed(r', a', policy', b), p);
  }
}

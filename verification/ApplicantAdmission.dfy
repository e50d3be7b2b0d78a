/** Admission of one Applicant discovery read: what was checked, when, and against which evidence. */
module ApplicantAdmission {
  import opened Texts
  import opened DataUseEvidence
  import opened IsoTime
  import AdmissionRace

  // ---------- the world around one query ----------

  datatype Grant = Grant(grantId: Str, version: Option<int>)

  datatype Entitlement = Entitlement(
    schemaVersion: int, subjectScope: Str, workspaceId: Str, key: Str, resolvedAt: Str,
    isBoolean: bool, enabled: bool, grants: seq<Grant>)

  datatype Answer = Answer(status: int, body: Option<Entitlement>)

  datatype Page = Page(sourceVersion: Option<Str>)

  datatype World = World(
    configured: bool,              // admission options, Core URL, secret and timeout are usable
    race: seq<AdmissionRace.Event>, // the events of the admission read, up to its end
    decisionTime: Option<Time>,    // now() when the admission is decided
    releaseTime: Option<Time>,     // now() when the page is released
    entitlement: (Str, Time) -> Option<Answer>, // None when the call to Core fails
    fetch: Option<Page>,           // None when the provider read fails
    workspaceId: Str,
    stamp: Time -> Str,            // toISOString
    contractVersion: Str)

  datatype Problem = EvidenceUnavailable | UseDenied | AuthorityConflict | EvaluationInvalid
                   | CoreUnavailable | ProviderFailed | SourceMissing | SourceConflict

  datatype Outcome = Refused(problem: Problem) | Released(page: Page)

  datatype Event =
    | AdmissionRead(admission: Admission)
    | EntitlementAsked(key: Str, at: Time)
    | EntitlementGranted
    | PageAsked
    | PageFetched(page: Page)
    | EvidenceRechecked(at: Time)

  /** The place of an event in the one order that every query follows. */
  function Stage(e: Event): nat {
    match e
    case AdmissionRead(_) => 0
    case EntitlementAsked(_, _) => 1
    case EntitlementGranted => 2
    case PageAsked => 3
    case PageFetched(_) => 4
    case EvidenceRechecked(_) => 5
  }

  predicate InOrder(log: seq<Event>) { forall i | 0 <= i < |log| :: Stage(log[i]) == i }

  /** A current boolean resolution, backed by grants, for this key, this workspace and this very instant. */
  predicate Resolution(e: Entitlement, key: Str, evaluatedAt: Str, workspaceId: Str) {
    && e.schemaVersion == 1 && e.subjectScope == S("WORKSPACE") && e.isBoolean
    && e.workspaceId == workspaceId && e.key == key && e.resolvedAt == evaluatedAt
    && |e.grants| > 0
    && forall i | 0 <= i < |e.grants| ::
      Filled(e.grants[i].grantId) && e.grants[i].version.Some? && e.grants[i].version.value >= 1
  }

  /** Core answered with such a resolution, and it is enabled. */
  predicate Granted(reply: Option<Answer>, key: Str, evaluatedAt: Str, workspaceId: Str) {
    && reply.Some? && reply.value.status == 200 && reply.value.body.Some?
    && Resolution(reply.value.body.value, key, evaluatedAt, workspaceId) && reply.value.body.value.enabled
  }

  predicate BadGrant(g: Grant) { !Filled(g.grantId) || g.version.None? || g.version.value < 1 }

  predicate BadAnswer(e: Entitlement, key: Str, evaluatedAt: Str, workspaceId: Str) {
    || e.schemaVersion != 1 || e.subjectScope != S("WORKSPACE") || e.workspaceId != workspaceId
    || e.key != key || e.resolvedAt != evaluatedAt || !e.isBoolean
    || e.grants == [] || exists i | 0 <= i < |e.grants| :: BadGrant(e.grants[i])
  }

  /** A call that fails has its own error; then the status decides, then the shape, then the grant. */
  function EntitlementProblem(
      reply: Option<Answer>, key: Str, evaluatedAt: Str, workspaceId: Str): (r: Option<Problem>)
    ensures r.None? <==> Granted(reply, key, evaluatedAt, workspaceId)
    ensures reply.None? <==> r == Some(CoreUnavailable)
    ensures reply.Some? && reply.value.status == 409 <==> r == Some(AuthorityConflict)
    ensures reply.Some? && reply.value.status !in {200, 401, 403, 404, 409} <==> r == Some(EvidenceUnavailable)
    ensures r == Some(EvaluationInvalid) <==>
      && reply.Some? && reply.value.status == 200
      && (reply.value.body.None? || !Resolution(reply.value.body.value, key, evaluatedAt, workspaceId))
  {
    if reply.None? then Some(CoreUnavailable)
    else
      var answer := reply.value;
      if answer.status != 200 then
        Some(if answer.status in {401, 403, 404} then UseDenied
             else if answer.status == 409 then AuthorityConflict
             else EvidenceUnavailable)
      else if answer.body.None? || BadAnswer(answer.body.value, key, evaluatedAt, workspaceId) then
        Some(EvaluationInvalid)
      else if !answer.body.value.enabled then Some(UseDenied)
      else None
  }

  function EvidenceProblem(v: Verdict): Option<Problem> {
    match v
    case Current => None
    case Unavailable => Some(EvidenceUnavailable)
    case Denied => Some(UseDenied)
  }

  /** A decision: the one admission snapshot and the instant it was decided at. */
  datatype Decision = Decision(admission: Admission, at: Time)

  /** The only decision a run can make: the admission that won the race, at the instant it is decided. */
  function Candidate(w: World): Option<Decision> {
    if w.configured && AdmissionRace.Outcome(w.race).Some? && w.decisionTime.Some?
    then Some(Decision(AdmissionRace.Outcome(w.race).value, w.decisionTime.value))
    else None
  }

  /** The decision stands: its evidence is current at its instant, and Core granted its key. */
  predicate Decided(d: Decision, w: World) {
    && Candidate(w) == Some(d)
    && CurrentAt(d.admission, d.at, w.contractVersion)
    && Granted(w.entitlement(d.admission.entitlementKey, d.at),
               d.admission.entitlementKey, w.stamp(d.at), w.workspaceId)
  }

  /** Missing or stale evidence comes before a use that is not permitted, and evidence before the entitlement. */
  function Refusal(w: World): Option<Problem> {
    if Candidate(w).None? then Some(EvidenceUnavailable)
    else
      var d := Candidate(w).value;
      var a := d.admission;
      if !Accepted(a, w.contractVersion) || !Covers(a, d.at) then Some(EvidenceUnavailable)
      else if a.permittedUse != S("SEARCH:PORTFOLIO") then Some(UseDenied)
      else EntitlementProblem(w.entitlement(a.entitlementKey, d.at), a.entitlementKey, w.stamp(d.at), w.workspaceId)
  }

  function DecisionLog(d: Decision): seq<Event> {
    [AdmissionRead(d.admission), EntitlementAsked(d.admission.entitlementKey, d.at), EntitlementGranted]
  }

  /** A decision was made, and this is it. */
  predicate Decides(w: World) { Candidate(w).Some? && Decided(Candidate(w).value, w) }

  method Admit(w: World) returns (decision: Option<Decision>, problem: Problem, log: seq<Event>)
    requires w.configured ==> AdmissionRace.Ended(w.race)
    ensures decision == if Decides(w) then Candidate(w) else None
    ensures decision.Some? ==> log == DecisionLog(decision.value)
    ensures decision.Some? ==>
      var a := decision.value.admission;
      && AdmissionRace.Outcome(w.race) == Some(a) && w.decisionTime == Some(decision.value.at)
      && a.readiness == S("ACCEPTED") && a.permittedUse == S("SEARCH:PORTFOLIO")
      && a.datasetVersion == w.contractVersion
    ensures decision.None? ==> Some(problem) == Refusal(w) && |log| <= 2
    ensures InOrder(log)
  {
    log, problem, decision := [], EvidenceUnavailable, None;
    if !w.configured { return; }
    var read := new AdmissionRace.AdmissionRead();
    var admission := read.Drive(w.race);
    if admission.None? { return; }
    var a := admission.value;
    log := [AdmissionRead(a)];
    if w.decisionTime.None? { return; }
    var at := w.decisionTime.value;
    var evidence := EvidenceProblem(EvidenceCurrent(a, Some(at), w.contractVersion));
    if evidence.Some? { problem := evidence.value; return; }
    log := log + [EntitlementAsked(a.entitlementKey, at)];
    var answer := w.entitlement(a.entitlementKey, at);
    var refused := EntitlementProblem(answer, a.entitlementKey, w.stamp(at), w.workspaceId);
    if refused.Some? { problem := refused.value; return; }
    log := log + [EntitlementGranted];
    decision := Some(Decision(a, at));
  }

  /** The page belongs to the admitted snapshot, which is still current when the page is released. */
  predicate Verified(page: Page, d: Decision, w: World) {
    && w.releaseTime.Some? && CurrentAt(d.admission, w.releaseTime.value, w.contractVersion)
    && page.sourceVersion == Some(d.admission.sourceVersion)
  }

  /** Stale evidence is reported before a missing source version, and that before a different one. */
  function PageProblem(page: Page, d: Decision, w: World): Problem {
    var a := d.admission;
    if w.releaseTime.None? || !Accepted(a, w.contractVersion) || !Covers(a, w.releaseTime.value) then
      EvidenceUnavailable
    else if a.permittedUse != S("SEARCH:PORTFOLIO") then UseDenied
    else if page.sourceVersion.None? then SourceMissing
    else SourceConflict
  }

  /** `verifyAdmittedApplicantPage`: the same snapshot again, at the instant of release. */
  method VerifyPage(page: Page, d: Decision, w: World) returns (problem: Option<Problem>)
    ensures problem.None? <==> Verified(page, d, w)
    ensures problem.Some? ==> problem.value == PageProblem(page, d, w)
  {
    var at: Option<int> := if w.releaseTime.Some? then Some(w.releaseTime.value) else None;
    problem := EvidenceProblem(EvidenceCurrent(d.admission, at, w.contractVersion));
    if problem.Some? { return; }
    if page.sourceVersion.None? { return Some(SourceMissing); }
    if page.sourceVersion.value != d.admission.sourceVersion { return Some(SourceConflict); }
  }

  method DiscoverApplicants(w: World) returns (outcome: Outcome, log: seq<Event>)
    requires w.configured ==> AdmissionRace.Ended(w.race)
    ensures outcome.Released? <==> Decides(w) && w.fetch.Some? && Verified(w.fetch.value, Candidate(w).value, w)
    ensures outcome.Released? ==>
      && w.fetch == Some(outcome.page)
      && log == DecisionLog(Candidate(w).value)
                + [PageAsked, PageFetched(outcome.page), EvidenceRechecked(w.releaseTime.value)]
      && CurrentThroughout(Candidate(w).value.admission, Candidate(w).value.at, w.releaseTime.value, w.contractVersion)
    ensures outcome.Released? ==>
      var a := Candidate(w).value.admission;
      && a.readiness == S("ACCEPTED") && a.permittedUse == S("SEARCH:PORTFOLIO")
      && a.coverageThrough.value <= w.releaseTime.value < a.validUntil.value
      && outcome.page.sourceVersion == Some(a.sourceVersion)
    // The provider is asked exactly when a decision has been made, after it, whether or not a page comes back.
    ensures InOrder(log) && (PageAsked in log <==> Decides(w))
    ensures Decides(w) ==> DecisionLog(Candidate(w).value) + [PageAsked] <= log
    ensures outcome.Refused? && !Decides(w) ==> Some(outcome.problem) == Refusal(w)
    ensures outcome.Refused? && Decides(w) && w.fetch.None? ==> outcome.problem == ProviderFailed
    ensures outcome.Refused? && Decides(w) && w.fetch.Some? ==>
      outcome.problem == PageProblem(w.fetch.value, Candidate(w).value, w)
  {
    var decision, problem;
    decision, problem, log := Admit(w);
    if decision.None? { return Refused(problem), log; }
    var d := decision.value;
    log := log + [PageAsked];
    if w.fetch.None? { return Refused(ProviderFailed), log; }
    var page := w.fetch.value;
    log := log + [PageFetched(page)];
    var rejected := VerifyPage(page, d, w);
    if rejected.Some? { return Refused(rejected.value), log; }
    log := log + [EvidenceRechecked(w.releaseTime.value)];
    TwoInstantsDecide(d.admission, d.at, w.releaseTime.value, w.contractVersion);
    outcome := Released(page);
  }
}

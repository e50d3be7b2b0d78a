/** The evidence behind a data use, and the interval of instants at which it is current. */
module DataUseEvidence {
  import opened Texts
  import opened TextOps

  /** Dates and counts are None when they are not finite dates or safe integers. */
  datatype Admission = Admission(
    revision: Str, entitlementKey: Str, datasetVersion: Str, sourceVersion: Str, licenceReference: Str,
    permittedUse: Str, readiness: Str,
    coverageThrough: Option<int>, maximumCoverageAge: Option<int>, validUntil: Option<int>)

  datatype Verdict = Current | Unavailable | Denied

  predicate Filled(s: Str) { Trim(s) != [] }

  /** Everything the evidence must say, apart from what it may be used for and when. */
  predicate Accepted(a: Admission, contractVersion: Str) {
    && Trim(a.revision) != [] && Trim(a.entitlementKey) != []
    && Trim(a.sourceVersion) != [] && Trim(a.licenceReference) != []
    && a.readiness == S("ACCEPTED") && a.datasetVersion == contractVersion
    && a.coverageThrough.Some? && a.validUntil.Some? && a.maximumCoverageAge.Some? && a.maximumCoverageAge.value >= 0
  }

  /** From the coverage instant on, before expiry, and not beyond the permitted age. */
  predicate Covers(a: Admission, t: int)
    requires a.coverageThrough.Some? && a.validUntil.Some? && a.maximumCoverageAge.Some?
  {
    a.coverageThrough.value <= t < a.validUntil.value && t <= a.coverageThrough.value + a.maximumCoverageAge.value
  }

  /** Accepted evidence that covers the instant and permits the portfolio search. */
  predicate CurrentAt(a: Admission, t: int, contractVersion: Str) {
    Accepted(a, contractVersion) && Covers(a, t) && a.permittedUse == S("SEARCH:PORTFOLIO")
  }

  /** `evidenceCurrent`: unavailable evidence is reported before a use that is not permitted. */
  function EvidenceCurrent(a: Admission, at: Option<int>, contractVersion: Str): (r: Verdict)
    ensures r == Current <==> at.Some? && CurrentAt(a, at.value, contractVersion)
    ensures r == Denied <==>
      at.Some? && Accepted(a, contractVersion) && Covers(a, at.value) && a.permittedUse != S("SEARCH:PORTFOLIO")
  {
    if || at.None?
       || !Filled(a.revision) || !Filled(a.entitlementKey)
       || a.datasetVersion != contractVersion
       || !Filled(a.sourceVersion) || !Filled(a.licenceReference)
       || a.readiness != S("ACCEPTED")
       || a.maximumCoverageAge.None? || a.maximumCoverageAge.value < 0
       || a.validUntil.None? || a.validUntil.value <= at.value
       || a.coverageThrough.None? || a.coverageThrough.value > at.value
       || at.value - a.coverageThrough.value > a.maximumCoverageAge.value
    then Unavailable
    else if a.permittedUse != S("SEARCH:PORTFOLIO") then Denied
    else Current
  }

  /** Current at one instant, the evidence is current exactly from the coverage instant on, as long as it has neither
      expired nor outlived the permitted age. */
  lemma EvidenceInterval(a: Admission, s: int, t: int, v: Str)
    requires CurrentAt(a, s, v)
    ensures CurrentAt(a, t, v) <==>
      a.coverageThrough.value <= t < a.validUntil.value && t <= a.coverageThrough.value + a.maximumCoverageAge.value
  {
  }

  /** Current at every instant between the two, whichever comes first. */
  ghost predicate CurrentThroughout(a: Admission, s: int, u: int, v: Str) {
    forall t | s <= t <= u || u <= t <= s :: CurrentAt(a, t, v)
  }

  /** Two instants decide about all instants between them. */
  lemma TwoInstantsDecide(a: Admission, s: int, u: int, v: Str)
    ensures CurrentThroughout(a, s, u, v) <==> CurrentAt(a, s, v) && CurrentAt(a, u, v)
  {
    if CurrentAt(a, s, v) && CurrentAt(a, u, v) {
      EvidenceInterval(a, s, u, v);
      forall t | s <= t <= u || u <= t <= s ensures CurrentAt(a, t, v) {
        EvidenceInterval(a, s, t, v);
      }
    }
  }
}

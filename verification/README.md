# Gateway kernels of MarkOrbit, modelled and proved

The MarkOrbit gateway is mostly forwarding. Six algorithmic kernels inside it carry the promises that matter, and this
project models them in Dafny and proves those promises for all inputs, all runs and all interleavings.

- **Canonical action binding.** The serializer prints a JSON value with its keys sorted at every depth. A parser for
  those texts recovers the canonical value, so whatever the comparator of keys, a Core receipt accepted for two actions
  forces them to be the same action; it covers every key order of the body exactly when no two keys of it tie. The
  ordered checks around the receipt call are a method whose log is specified event by event.
- **Calendar and timestamps.** Day numbers, leap years and fixed-width printing, with both directions proved, decide
  exactly which `as_of` values and which timestamps are accepted, and when the last sorted timestamp is the latest one.
- **Timed request.** A Data Engine request is a state machine over promise settlements, the timeout and continuations.
  Its invariant is kept by every step; the object with mutable fields refines it. The admission read that races a
  timeout is a second such machine, and the evidence it brings is followed from decision to release.
- **Attribution link.** The Mini Program link goes through the form serializer, a URL text, the URL reader and the form
  parser, and comes back as it went in.
- **Normalising parsers.** The Knowledge owner parser accepts exactly the results it should, keeps them trimmed, and is
  idempotent and clean; the trademark facts are exactly the supported ones, and when row order can show in them is
  decided exactly.
- **Routing, lineage, cookies.** The Filing Governance table, path rewrite and body projection, the milestone lineage
  join, and the session cookie reader.

Strings are sequences of UTF-16 code units (`Texts.Str`), so lone surrogates are covered. Foreign functions are
parameters: SHA-256 (collision-free), `localeCompare` (an order that may tie distinct keys, class codes and record
identifiers, such as canonically equivalent ones), `Date.parse` outside the standard text form, the URL host parser,
UTF-8, `toLowerCase`, the provider-error and date parsers, the clock. The value of a numeral
(`TrademarkFacts.Platform.integer`) is a parameter under which one integer has one numeral.

## Findings

- The serializer sorts object keys with a comparator that may tie distinct ones, and tied keys keep their order of
  insertion (`CanonicalForm.TiedKeysShow`). All values of one meaning print alike exactly when no two keys of one object
  tie, at any depth (`OneTextIffUntied`), and the second serializer, which never ties, agrees on the classes exactly
  then (`SameClassesIffUntied`). Binding needs no condition: one text has one meaning (`SameTextSameMeaning`).
- `latestObservedAt` sorts texts, and texts of the years beyond 9999 start with a sign. The text it picks names the
  latest instant exactly when the rows' years agree as `LatestObserved.YearsAgree` says: some row in the years 0 to 9999
  and none beyond, or all rows beyond 9999, or all rows in one negative year (`TrademarkFacts.ObservedAtIsLatestIff`).
  Two rows one millisecond apart around the start of the year 10000 are an example (`TenThousandSortsFirst`).
- US class codes are sorted with a numeric collation that may tie distinct codes such as `9` and `09` (`TiedCodesShow`).
  No reordering of owner or classification rows shows in the mapped facts exactly when the codes are not reported at
  all, for want of a serial number or a timestamp, or every row that lists the larger of two tied codes lists the
  smaller too (`FactsIgnoreRowOrderIff`).
- A collection of the milestone snapshot shows the order in which its records arrive exactly when two different records
  have identifiers that tie (`CollectionOrderHiddenIff`, with `TiedRecordsShow` as the failing input).
- The admission timeout aborts the read before it rejects, so an admission that the read hands over during the abort
  still wins, with the signal aborted (`AdoptedAfterAbort`, with the run in `AbortDelivers`); any later one is ignored.
- The handoff link is recognised exactly when the site's hostname is its own URL host serialization up to letter case
  (`HandoffRoundTrip`). A numeric hostname such as `127.1`, which the URL parser turns into an IPv4 address, is not
  (`NumericHostNotRecognised`).

## Model

| member | source | states |
|---|---|---|
| StableSerialize.QuoteRoundTrip | apps/gateway/src/governed-action.ts:147-158 | A string quoted as section 25.5.2 of ECMA-262 says, surrogates and control characters included, reads back as itself before any following text |
| StableSerialize.EscapeLaw | apps/gateway/src/governed-action.ts:147-158 | Which code units are escaped, and the escape of each; every other unit is copied |
| StableSerialize.ScalarTokens | apps/gateway/src/governed-action.ts:147-158 | `null`, `true`, `false`, numerals and strings are written as RFC 8259 has them |
| StableSerialize.ListTokens | apps/gateway/src/governed-action.ts:148 | Arrays stand in brackets, items between commas |
| StableSerialize.ObjectTokens | apps/gateway/src/governed-action.ts:149-156 | Objects stand in braces, the smaller key first, colons and commas between |
| StableSerialize.ParseSerialize | apps/gateway/src/governed-action.ts:147-158 | Parsing a serialized value consumes exactly its text and yields its key-sorted form, whatever delimiter follows |
| StableSerialize.SerializeRoundTrip | apps/gateway/src/governed-action.ts:147-158 | The parser recovers the key-sorted value from the whole text, and that value has the same meaning |
| StableSerialize.SameTextIffSameCanon | apps/gateway/src/governed-action.ts:147-158 | Two values print alike exactly when their canonical forms are equal, for every comparator |
| StableSerialize.SameTextSameMeaning | apps/gateway/src/governed-action.ts:147-158 | One text has one meaning, whatever comparators it was printed with |
| CanonicalForm.CanonicalUnique | apps/gateway/src/governed-action.ts:147-158 | Two canonical values with one meaning are the same value |
| CanonicalForm.SerializeAgreesIffSameMeaning | apps/gateway/src/governed-action.ts:147-158 | Values that print alike are equal up to object key order at every depth; for a value without tied keys the converse holds too |
| CanonicalForm.OneTextIffUntied | apps/gateway/src/governed-action.ts:147-158 | All values that are equal up to key order print alike exactly when no two keys of one object tie, at any depth |
| CanonicalForm.TiesShow | apps/gateway/src/governed-action.ts:152 | A tie at any depth gives a value of the same meaning with another canonical form |
| CanonicalForm.TiedKeysShow | apps/gateway/src/governed-action.ts:152 | Two tied keys are printed in the order the object was built |
| CanonicalForm.KeyOrderIsImmaterial | scripts/product-loop-today-real-runtime.ts:133-144 | Serializers that sort keys by two orders put a value that neither ties together with the same values |
| CanonicalForm.SameClassesIffUntied | scripts/product-loop-today-real-runtime.ts:133-144 | The second canonical serializer, with the default sort order, puts a value together with the same values exactly when it has no tied keys |
| GovernedAction.LiteralDigestBinds | apps/gateway/src/governed-action.ts:160-162 | Digests of two objects over the same keys agree exactly when their values print alike one by one, and these then mean the same |
| GovernedAction.ActionDigestBinds | apps/gateway/src/governed-action.ts:197-203 | The reviewed-action digest fixes kind, principal reference, method, path and the printed body, hence its meaning, a null body read as the empty object |
| GovernedAction.PrincipalReferenceBinds | apps/gateway/src/governed-action.ts:187-196 | The principal reference fixes user, membership, role, session times, the permission multiset and the workspace up to letter case |
| GovernedAction.ReceiptBindsAction | apps/gateway/src/governed-action.ts:187-252 | A receipt accepted for one action is accepted for another exactly when both agree on everything reviewed and their bodies print alike |
| GovernedAction.ReceiptCoversIffUntied | apps/gateway/src/governed-action.ts:187-252 | A receipt is accepted for its action in every key order of the body exactly when no two keys of the body tie |
| GovernedAction.ReviewedFields | apps/gateway/src/governed-action.ts:197-203 | The reviewed action has five named properties and no other, a null body being the empty object |
| GovernedAction.PrincipalFields | apps/gateway/src/governed-action.ts:187-191 | The principal behind the reference: kind, lower-cased workspace, user and membership under their names |
| GovernedAction.PrincipalSessionFields | apps/gateway/src/governed-action.ts:192-196 | The rest of it: role, sorted permissions and the session times under their names |
| GovernedAction.AcceptedReceiptIs | apps/gateway/src/governed-action.ts:204-252 | A receipt is accepted exactly when it is Core's, about a human, version 1, and names the action's workspace, user, membership, kind, route, key, session time and digests |
| GovernedMutation.FieldOffends | apps/gateway/src/governed-action.ts:87-105 | The reported name is the first forbidden field in the body, or else the first forbidden header sent |
| GovernedMutation.RefusedInOrder | apps/gateway/src/governed-action.ts:279-305 | Missing client, body, workspace and session are refused in this order, each exactly when it is missing |
| GovernedMutation.HumanAction | apps/gateway/src/governed-action.ts:164-272 | One question to Core at most, about the materialized action, and a receipt only when it is accepted for that question |
| GovernedMutation.CheckSession | apps/gateway/src/governed-action.ts:303-318 | Origin, CSRF, permission and idempotency pass in this order, and the first failure decides the error |
| GovernedMutation.Authorize | apps/gateway/src/governed-action.ts:274-348 | Every run logs a prefix of the five checks and then at most one receipt call, under a human-action policy only; authorization is released exactly when all conditions hold, with a receipt exactly when the policy asks for one; a forbidden name in body or headers is refused by that name; what is released rests on the named headers, lists and replies of this request |
| GovernedMutation.Assign | apps/gateway/src/governed-action.ts:320-322 | The bound workspace field replaces whatever the browser sent and no other field changes |
| GovernedMutation.OneReceiptOneAction | apps/gateway/src/governed-action.ts:164-348 | Two authorized runs that carry one receipt carried out one action |
| SessionCookie.ReadsFirstSession | apps/gateway/src/auth.ts:24-33 | For every list of cookie pairs joined as section 4.2.1 of RFC 6265 prints them, the reader returns the first session value, or nothing when there is none or it is empty |
| TextOps.SplitJoin | apps/gateway/src/auth.ts:24-33 | Splitting at a separator undoes joining parts that do not contain it |
| TextOps.JoinSplit | apps/gateway/src/filing-governance-http.ts:55-176 | Joining undoes splitting for every string, and no part contains the separator |
| Calendar.DateOfMakeDay | apps/gateway/src/data-engine-product-http.ts:78-94 | Every real Gregorian date is the date of its own day number |
| Calendar.DateOfIsReal | apps/gateway/src/data-engine-product-http.ts:86-92 | The getters always show a real date, and its day number is the day |
| Calendar.MonthLengthLaw | apps/gateway/src/data-engine-product-http.ts:86-92 | Four months have 30 days, February 28 or 29 by the Gregorian leap rule, the others 31 |
| Calendar.Epoch | apps/gateway/src/data-engine-product-http.ts:86 | Day 0 is 1 January 1970 |
| Calendar.NextDay | apps/gateway/src/data-engine-product-http.ts:86-92 | The day after a date is the next of its month, the first of the next month, or New Year |
| AsOfQuery.TwoDigitYearMoves | apps/gateway/src/data-engine-product-http.ts:86 | A year below 100 lands in 1899 or later, for all overflowing months and days |
| AsOfQuery.TripKeepsRealDates | apps/gateway/src/data-engine-product-http.ts:83-92 | The trip through `Date.UTC` changes some component unless the date is real and the year is at least 100 |
| AsOfQuery.AcceptedIffRealDate | apps/gateway/src/data-engine-product-http.ts:78-94 | A text is accepted exactly when it is four, two and two digits between dashes whose numbers name an existing date of the Gregorian calendar from the year 100 on |
| AsOfQuery.AbsentIffEmpty | apps/gateway/src/data-engine-product-http.ts:79-80 | A missing or empty parameter is neither a date nor an error |
| IsoTime.IsoFormat | apps/gateway/src/capability-http.ts:121-125 | The printed text field by field: year, civil month and day, hours, minutes, seconds and milliseconds with their separators |
| IsoTime.YearTextLaw | apps/gateway/src/capability-http.ts:121-125 | Years 0 to 9999 have four digits, others a sign and six |
| IsoTime.ReadIsoText | apps/gateway/src/capability-http.ts:121-125 | Reading the text `toISOString` prints gives back the instant, for every time value, extended years included |
| IsoTime.CanonicalIffPrinted | apps/gateway/src/capability-http.ts:121-125 | Accepted timestamps are exactly the texts that `toISOString` prints, whatever the engine does with other texts |
| IsoTime.CanonicalInjective | apps/gateway/src/capability-http.ts:121-125 | Two accepted timestamps denote one instant exactly when they are the same string |
| IsoTime.TextOrder | apps/gateway/src/trademark-asset-data-engine.ts:39-51 | The code-unit order of two printed timestamps, for every two instants |
| IsoTime.CommonEraOrder | apps/gateway/src/trademark-asset-data-engine.ts:39-51 | In the years 0 to 9999 the order of the texts is the order of time |
| LatestObserved.LatestIffYearsAgree | apps/gateway/src/trademark-asset-data-engine.ts:45-51 | The last sorted text names the latest instant exactly when the rows' years agree |
| LatestObserved.CommonEraLatest | apps/gateway/src/trademark-asset-data-engine.ts:45-51 | For rows of the years 0 to 9999 the last sorted text is the latest instant |
| TrademarkFacts.ObservedAtIsLatestIff | apps/gateway/src/trademark-asset-data-engine.ts:39-51 | For all rows, the observation time names the latest of their instants exactly when their years agree |
| TrademarkFacts.TenThousandSortsFirst | apps/gateway/src/trademark-asset-data-engine.ts:39-51 | Two rows ingested one millisecond apart, around the start of the year 10000, are given the earlier time |
| GetJson.StepKeepsInv | apps/gateway/src/data-engine-http.ts:187-270 | Every step of fetch, timeout, body read or continuation keeps the invariant |
| GetJson.EveryRunKeepsInv | apps/gateway/src/data-engine-http.ts:187-270 | The invariant holds after every interleaving |
| GetJson.CleansUp | apps/gateway/src/data-engine-http.ts:266-270 | However a call ends, its timer is cleared and a received response is consumed or aborted |
| GetJson.ReturnsBodyIff | apps/gateway/src/data-engine-http.ts:209-265 | A body is returned exactly from an ok response with matching metadata whose JSON settled and no timeout before the end |
| GetJson.TimedOutRuns | apps/gateway/src/data-engine-http.ts:195-263 | A run that timed out ends in a retryable failure with fact state `service_unavailable`, a metadata mismatch or a raising trace callback, never in a body or provider error |
| GetJson.TracesOnce | apps/gateway/src/data-engine-http.ts:241-257 | At most one trace, and exactly one, of the received response, when a body or provider error comes out |
| GetJson.RejectedRuns | apps/gateway/src/data-engine-http.ts:195-224 | A rejected fetch without a timeout ends in a retryable service failure |
| GetJson.MismatchedRuns | apps/gateway/src/data-engine-http.ts:224-241 | A response that differs in one of the four headers ends the run in a mismatch, untraced, unread and aborted |
| GetJson.ErrorRuns | apps/gateway/src/data-engine-http.ts:255-257 | An error response read in time ends the run in its provider error |
| GetJson.ProviderErrorLaw | apps/gateway/src/data-engine-http.ts:128-174 | The status decides the code of a provider error, the envelope its retryable flag and fact state |
| GetJson.BodyComesBack | apps/gateway/src/data-engine-http.ts:209-265 | An ok, matching response whose JSON settles in time gives back its body |
| GetJson.RunsAreShort | apps/gateway/src/data-engine-http.ts:187-270 | No run has more than five events |
| GetJson.NeverStuck | apps/gateway/src/data-engine-http.ts:187-270 | Until the end, some event other than the timeout is always possible |
| GetJson.JsonCall.Handle | apps/gateway/src/data-engine-http.ts:208-270 | Each callback moves the fields exactly as the step relation says |
| GetJson.JsonCall.Drive | apps/gateway/src/data-engine-http.ts:187-270 | A whole schedule takes the object through the states of the run |
| AdmissionRace.EveryRunKeepsInv | apps/gateway/src/data-engine-applicant-admission.ts:68-86 | After every interleaving the first settlement of read and timeout is the winner, and the timer is armed only while it can still matter |
| AdmissionRace.AdoptsFirstSettlement | apps/gateway/src/data-engine-applicant-admission.ts:72-80 | An admission comes out exactly when the first decisive event delivers it; a late one is ignored |
| AdmissionRace.CleansUp | apps/gateway/src/data-engine-applicant-admission.ts:71-86 | However the race ends, the timer is cleared, and the signal is aborted exactly when the timer fired |
| AdmissionRace.AdoptedAfterAbort | apps/gateway/src/data-engine-applicant-admission.ts:72-80 | After an abort an admission is adopted exactly when the read handed it over during the abort |
| AdmissionRace.AbortDelivers | apps/gateway/src/data-engine-applicant-admission.ts:72-80 | A run in which the aborted read delivers: it ends with the admission and an aborted signal |
| AdmissionRace.RunsAreShort | apps/gateway/src/data-engine-applicant-admission.ts:71-86 | No race has more than four events |
| AdmissionRace.NeverHangs | apps/gateway/src/data-engine-applicant-admission.ts:71-86 | A read that never settles cannot keep the race from ending |
| AdmissionRace.AdmissionRead.Handle | apps/gateway/src/data-engine-applicant-admission.ts:68-86 | Each callback moves the variables exactly as the step relation says |
| AdmissionRace.AdmissionRead.Drive | apps/gateway/src/data-engine-applicant-admission.ts:68-86 | A whole schedule takes the variables through the states of the run and yields the admission it brings |
| DataUseEvidence.EvidenceCurrent | apps/gateway/src/data-engine-applicant-admission.ts:37-57 | Evidence is current exactly when its four texts are filled, it is accepted, of the contract's dataset version, permits the portfolio search, and covers the instant by its coverage, age and expiry; a wrong use alone is denied |
| ApplicantAdmission.EntitlementProblem | apps/gateway/src/data-engine-applicant-admission.ts:92-134 | No problem exactly for an enabled resolution backed by grants, for this key, workspace and instant; otherwise a failed call, the status, the shape and the grant decide in this order |
| DataUseEvidence.EvidenceInterval | apps/gateway/src/data-engine-applicant-admission.ts:37-54 | Evidence that is current once is current exactly from its coverage instant until it expires or outlives the permitted age |
| DataUseEvidence.TwoInstantsDecide | apps/gateway/src/data-engine-applicant-admission.ts:37-57 | Evidence is current throughout an interval, in either direction, exactly when it is current at both ends |
| ApplicantAdmission.Admit | apps/gateway/src/data-engine-applicant-admission.ts:59-135 | A decision is made exactly for the admission that won the race, accepted, permitting the portfolio search and covering the decision instant, with its key granted by Core for this workspace and instant; otherwise the first failure, a failed call to Core included, decides the error, and the calls come in that order |
| ApplicantAdmission.VerifyPage | apps/gateway/src/data-engine-applicant-admission.ts:137-158 | A page passes exactly when the same snapshot is current at release and the source version is the admitted one; otherwise stale evidence is reported first |
| ApplicantAdmission.DiscoverApplicants | apps/gateway/src/product-loop-http.ts:348-377 | The provider is asked exactly when a decision was made, and after it, whether or not it answers; a page is released exactly when decision, read and recheck succeed, and its snapshot is then current at both instants and all between |
| FormUrl.DecodeEncoded | apps/gateway/src/site-wechat-miniprogram-http.ts:57-68 | Percent-encoding, `~` included, is undone by decoding, for every byte string |
| FormUrl.EncodedByteLaw | apps/gateway/src/site-wechat-miniprogram-http.ts:62-67 | A space is `+`, letters, digits and four marks stay, every other byte is `%` and two capital digits |
| FormUrl.TildeIsEncoded | apps/gateway/src/site-wechat-miniprogram-http.ts:62-67 | `~` is printed as `%7E` |
| FormUrl.FormRoundTrip | apps/gateway/src/site-wechat-miniprogram-http.ts:62-67 | The form parser gives back every list of pairs the form serializer printed |
| FormUrl.Set | apps/gateway/src/site-wechat-miniprogram-http.ts:63-66 | Setting a parameter makes it the one read back and leaves the others |
| Attribution.UrlRoundTrip | apps/gateway/src/site-inbound-attribution.ts:26-35 | Reading a printed https link gives back its host, IPv6 addresses included, its path and its parameters |
| Attribution.HandoffUrl | apps/gateway/src/site-wechat-miniprogram-http.ts:57-68 | The printed link carries exactly the parameters set one after the other, and exists exactly when the host parses |
| Attribution.HandoffParamsRead | apps/gateway/src/site-wechat-miniprogram-http.ts:63-66 | The link's parameters answer each name with the value that was set, and no fallback name is present |
| Attribution.FullQuery | apps/gateway/src/site-wechat-miniprogram-http.ts:57-68 | The query of a link that sets everything: the four names in order, each value percent-encoded |
| Attribution.LinkText | apps/gateway/src/site-wechat-miniprogram-http.ts:57-68 | The text of a link: `https://`, the host, the root path, and the query behind a question mark |
| Attribution.FieldsLaw | apps/gateway/src/site-inbound-attribution.ts:37-64 | Each field comes from the first `utm_` parameter that is a token after trimming, or else from its `mo_` parameter |
| Attribution.StateLaw | apps/gateway/src/site-inbound-attribution.ts:72-83 | A source that says `direct` or `unattributed` decides the state, then any evidence, then whether there is a page |
| Attribution.TokenLaw | apps/gateway/src/site-inbound-attribution.ts:10-15 | A token is a letter or digit and at most 79 letters, digits, dots, underscores, tildes or dashes |
| Attribution.HandoffRoundTrip | apps/gateway/src/site-inbound-attribution.ts:37-101 | Used as Referer the link is recognised exactly when the hostname is its own serialization up to case, and then gives back source, campaign, content and referral with state ATTRIBUTED |
| Attribution.NumericHostNotRecognised | apps/gateway/src/site-wechat-miniprogram-http.ts:57-68 | For the site `127.1` the link carries the host `127.0.0.1`, and the reader does not recognise it |
| KnowledgeOwner.ScanIffPath | apps/gateway/src/knowledge-evidence-supply-health-owner.ts:128-135 | The scan is true exactly when a path through objects and arrays reaches a forbidden key |
| KnowledgeOwner.CheckClean | apps/gateway/src/knowledge-evidence-supply-health-owner.ts:137-207 | Normalising adds no forbidden key |
| KnowledgeOwner.CheckIdempotent | apps/gateway/src/knowledge-evidence-supply-health-owner.ts:143-207 | What any part of the parser keeps passes again unchanged |
| KnowledgeOwner.CountRecord | apps/gateway/src/knowledge-evidence-supply-health-owner.ts:209-221 | The loop builds the record of counts, or rejects it, as the rule for such records says |
| KnowledgeOwner.OwnerResultIsStable | apps/gateway/src/knowledge-evidence-supply-health-owner.ts:223-279 | An accepted result parses to itself, and no path in it reaches a forbidden key |
| OwnerResultSpec.ParsedIffAccepted | apps/gateway/src/knowledge-evidence-supply-health-owner.ts:143-279 | A value is accepted exactly when it is clean, has the six literals, a filled workspace equal to the expected one, a date, well-formed items and counts, and a total that counts the items; texts and lists are kept trimmed, everything else as it is, nothing more |
| Rows.FilterMapPermutes | apps/gateway/src/trademark-asset-data-engine.ts:45-60 | Filtering and mapping permuted rows gives a permutation |
| TrademarkFacts.ObservedAtIsLatestText | apps/gateway/src/trademark-asset-data-engine.ts:45-51 | The observation time of rows is the last sorted text of their instants |
| TrademarkFacts.UniqueStringsIncrease | apps/gateway/src/trademark-asset-data-engine.ts:96-100 | Unique strings strictly increase and are exactly the trimmed strings that are not blank |
| TrademarkFacts.OwnerNamesIncrease | apps/gateway/src/trademark-asset-data-engine.ts:167 | Owner names strictly increase and are exactly the rows' names |
| TrademarkFacts.NumericClassesIncrease | apps/gateway/src/trademark-asset-data-engine.ts:102-107 | CN classes strictly increase as numbers and are exactly the positive integers |
| TrademarkFacts.UsInternationalClasses | apps/gateway/src/trademark-asset-data-engine.ts:109-116 | The loop collects the codes of all rows and returns their stably sorted set |
| TrademarkFacts.ClassOrderHiddenIff | apps/gateway/src/trademark-asset-data-engine.ts:109-116 | No reordering of rows shows in the class codes exactly when their ties are safe |
| TrademarkFacts.TiedCodesShow | apps/gateway/src/trademark-asset-data-engine.ts:109-116 | Two rows with the tied codes `09` and `9` come out in the order of the rows |
| TrademarkFacts.FactsIgnoreRowOrderIff | apps/gateway/src/trademark-asset-data-engine.ts:140-180 | No reordering of owner or classification rows shows in the mapped facts exactly when the class codes are not reported or their ties are safe |
| FactsContent.MappedFactsAre | apps/gateway/src/trademark-asset-data-engine.ts:34-180 | The mapped facts are exactly the supported contributions: each says its own column or list, trimmed, and cites its own rows with their last time, digest and version |
| FactsContent.MappedFactsInOrder | apps/gateway/src/trademark-asset-data-engine.ts:150-179 | Each kind appears once at most, in the source's order |
| FactsContent.SourceIs | apps/gateway/src/trademark-asset-data-engine.ts:39-78 | A source gives its identifier, the last printed instant of its rows, the digest of their sorted hashes, and a version that names engine and digest |
| FilingRoutes.PoliciesApart | apps/gateway/src/filing-governance-http.ts:55-176 | A verb, a length or a literal tells each two policies apart |
| FilingRoutes.RouteHasOnePolicy | apps/gateway/src/index.ts:1217-1236 | For all slash-free, non-empty parameter values a registered route matches its own policy and no other, and the lookup finds it |
| FilingRoutes.DownstreamPath | apps/gateway/src/filing-governance-http.ts:320-326 | The two string replacements rewrite a matched path to `/v1` and its segments, `assignment` becoming `self-assignment` |
| FilingRoutes.DownstreamAssignment | apps/gateway/src/filing-governance-http.ts:320-326 | `/api/execution/execution-releases/{id}/assignment` goes to `/v1/execution-releases/{id}/self-assignment` |
| FilingRoutes.DownstreamOther | apps/gateway/src/filing-governance-http.ts:320-326 | Every other matched path keeps what follows `/api/execution`, behind `/v1` |
| FilingRoutes.DownstreamInjective | apps/gateway/src/filing-governance-http.ts:320-326 | Different matched paths have different downstream paths |
| FilingBody.CopyAllowed | apps/gateway/src/filing-governance-http.ts:236-239 | The loop copies exactly the allowed fields the body has, with their values |
| FilingBody.ProjectParty | apps/gateway/src/filing-governance-http.ts:212-224 | An object party is rejected exactly for a field other than the two, and keeps exactly those |
| FilingBody.GovernedBody | apps/gateway/src/filing-governance-http.ts:226-247 | A body is accepted exactly when each field is stripped or allowed and its party is well formed; the projection carries exactly the allowed fields |
| FilingBody.OnlyReadsHaveNoBody | apps/gateway/src/filing-governance-http.ts:55-176 | Exactly the reading routes of the table have no body policy |
| FilingBody.AllowedFields | apps/gateway/src/filing-governance-http.ts:55-176 | Which fields each command may carry |
| FilingBody.ForwardedBody | apps/gateway/src/filing-governance-http.ts:178-413 | Outside fixture mode, for every request the route found decides what is sent: nothing for a read, else exactly the allowed fields of an acceptable body, with their values; no top-level authority field reaches the service |
| MilestoneSnapshot.TaskInSnapshotIffChain | apps/gateway/src/index.ts:1058-1082 | A task appears, as often as it is stored, exactly when a release, authorization, lock, review and draft link it to the scenario prefix |
| MilestoneSnapshot.EarlyLineage | apps/gateway/src/index.ts:1058-1070 | Drafts, reviews and locks of the snapshot are exactly the linked ones |
| MilestoneSnapshot.LateLineage | apps/gateway/src/index.ts:1071-1082 | Authorizations, releases and tasks of the snapshot are exactly the linked ones |
| MilestoneSnapshot.ParentsPresent | apps/gateway/src/index.ts:1058-1082 | Every record below the drafts has its parent in the snapshot |
| MilestoneSnapshot.LongerPrefixShrinks | apps/gateway/src/index.ts:1058-1082 | Lengthening the scenario prefix only removes records, from every collection |
| MilestoneSnapshot.CollectionIgnoresOrder | apps/gateway/src/index.ts:1083-1104 | Counts and active identifiers of a collection do not depend on the order in which records arrive, whatever the comparator |
| MilestoneSnapshot.ActiveIdsAre | apps/gateway/src/index.ts:1096-1102 | The active identifiers are sorted, one for each active record, and exactly theirs |
| MilestoneSnapshot.CollectionOrderHiddenIff | apps/gateway/src/index.ts:1083-1104 | The whole collection, its sorted records included, hides the order of arrival exactly when no two different records have identifiers that tie |
| MilestoneSnapshot.TiedRecordsShow | apps/gateway/src/index.ts:1083-1104 | Two records with tied identifiers come out in the order they came in |

## Left out

- Forwarding, header assembly, health routes and server start-up: network plumbing with no state of its own.
- The base64url receipt envelope and the HTTP status of each problem: one value computed from checked fields.
- SHA-256, HMAC, UTF-8 and `structuredClone`: a collision-free hash, a codec that decodes what it encodes, the identity.
- `undefined` inside arrays or at the top of a value, negative zero and non-finite numbers: `JSON.stringify` does not
  separate them from other values.
- The place of integer-like property names, which the engine enumerates first: an object is any list of properties.
- Attribution.UrlRoundTrip: https URLs without credentials or port, and paths as written; the percent-encoding that the
  URL reader applies to a query is the identity on printed links and is not modelled for others.
- Attribution.HandoffRoundTrip: hostnames are free of delimiters, credentials and ports, what the URL parser makes of
  the given one parses to itself, and the product identifier is a string without lone surrogates; the later shape check
  of the acquisition record and its fingerprint are not modelled.
- ApplicantAdmission.DiscoverApplicants: starts at the admission, after authentication and request normalisation; the
  errors of the provider read are one error.
- AdmissionRace.EveryRunKeepsInv: cloning the admission is the identity and does not fail.
- KnowledgeOwner.OwnerResultIsStable: the parser's conditions are written as a table of rules, checked by one recursive
  function; freezing is not modelled.
- FilingRoutes.DownstreamInjective: the query string that follows the path is left out.
- FilingBody.ForwardedBody: fixture mode, which forwards a body as it is, and the checks of idempotency key and
  principal are not modelled; values of allowed fields are forwarded whole, so a name nested in one is not looked at,
  and claims about party fields hold for an object party; any other value passes as it is.
- MilestoneSnapshot.TaskInSnapshotIffChain: identifiers that are neither strings, null nor missing.
- MilestoneSnapshot.CollectionIgnoresOrder: of a projected record only identifier, status and content hash are modelled.
- `queryPositiveInteger`, `normalizeIdentifier`, `queryString`, `sessionCookie` and the error mapping tables: each is
  settled by reading one expression.
- Preview console, React views, seed scripts and test configurations.

/** The Filing Governance policy table, the registered routes, and the downstream paths they rewrite to. */
module FilingRoutes {
  import opened Texts
  import opened TextOps

  const SLASH: Unit := 0x2F

  datatype Verb = GET | POST | PATCH

  /** One path segment of a policy pattern; `Param` is `[^/]+`. */
  datatype Segment = Lit(text: Str) | Param

  datatype Policy = Policy(verb: Verb, pattern: seq<Segment>)

  const API: Str := S("api")
  const EXECUTION: Str := S("execution")
  const AUTHORIZATIONS: Segment := Lit(S("filing-authorizations"))
  const RELEASES: Segment := Lit(S("execution-releases"))
  const DRAFTS: Segment := Lit(S("filing-task-drafts"))
  const ASSIGNMENT: Str := S("assignment")
  const SELF_ASSIGNMENT: Str := S("self-assignment")

  /** The part of each pattern below `/api/execution`, in table order. */
  const POLICIES: seq<Policy> := [
    Policy(POST, [AUTHORIZATIONS]),
    Policy(GET, [AUTHORIZATIONS, Param]),
    Policy(POST, [AUTHORIZATIONS, Param, Lit(S("confirm"))]),
    Policy(POST, [AUTHORIZATIONS, Param, Lit(S("withdraw"))]),
    Policy(POST, [RELEASES]),
    Policy(GET, [RELEASES]),
    Policy(GET, [RELEASES, Param]),
    Policy(POST, [RELEASES, Param, Lit(S("evaluate"))]),
    Policy(PATCH, [RELEASES, Param, Lit(ASSIGNMENT)]),
    Policy(POST, [RELEASES, Param, Lit(S("release"))]),
    Policy(POST, [RELEASES, Param, Lit(S("withdraw"))]),
    Policy(GET, [DRAFTS, Param]),
    Policy(POST, [DRAFTS, Param, Lit(S("validate-current"))]),
    Policy(GET, [RELEASES, Param, Lit(S("filing-task-draft"))])]

  /** One path segment of a registered route: fixed, or `:name`. */
  datatype Part = Fixed(text: Str) | Named(name: Str)

  datatype Route = Route(verb: Verb, template: seq<Part>)

  const AUTHORIZATION_ID: Part := Named(S("filingAuthorizationId"))
  const RELEASE_ID: Part := Named(S("executionReleaseId"))
  const DRAFT_ID: Part := Named(S("filingExecutionTaskDraftId"))

  /** The routes the gateway registers below `/api/execution`, in order. */
  const ROUTES: seq<Route> := [
    Route(POST, [Fixed(S("filing-authorizations"))]),
    Route(GET, [Fixed(S("filing-authorizations")), AUTHORIZATION_ID]),
    Route(POST, [Fixed(S("filing-authorizations")), AUTHORIZATION_ID, Fixed(S("confirm"))]),
    Route(POST, [Fixed(S("filing-authorizations")), AUTHORIZATION_ID, Fixed(S("withdraw"))]),
    Route(POST, [Fixed(S("execution-releases"))]),
    Route(GET, [Fixed(S("execution-releases"))]),
    Route(GET, [Fixed(S("execution-releases")), RELEASE_ID]),
    Route(POST, [Fixed(S("execution-releases")), RELEASE_ID, Fixed(S("evaluate"))]),
    Route(PATCH, [Fixed(S("execution-releases")), RELEASE_ID, Fixed(S("assignment"))]),
    Route(POST, [Fixed(S("execution-releases")), RELEASE_ID, Fixed(S("release"))]),
    Route(POST, [Fixed(S("execution-releases")), RELEASE_ID, Fixed(S("withdraw"))]),
    Route(GET, [Fixed(S("filing-task-drafts")), DRAFT_ID]),
    Route(POST, [Fixed(S("filing-task-drafts")), DRAFT_ID, Fixed(S("validate-current"))]),
    Route(GET, [Fixed(S("execution-releases")), RELEASE_ID, Fixed(S("filing-task-draft"))])]

  // ---------- matching ----------

  predicate MatchesFrom(parts: seq<Str>, pattern: seq<Segment>) {
    && |parts| == |pattern|
    && forall i | 0 <= i < |parts| :: if pattern[i].Lit? then parts[i] == pattern[i].text else parts[i] != []
  }

  /** `^/api/execution/...$`: split at every slash, the segments agree one by one. */
  predicate Matches(path: Str, pattern: seq<Segment>) {
    var parts := Split(path, SLASH);
    |parts| >= 3 && parts[0] == [] && parts[1] == API && parts[2] == EXECUTION && MatchesFrom(parts[3..], pattern)
  }

  predicate Applies(p: Policy, verb: Verb, path: Str) { p.verb == verb && Matches(path, p.pattern) }

  /** `find`: the first policy that applies. */
  function FirstPolicy(policies: seq<Policy>, verb: Verb, path: Str): (r: Option<nat>)
    ensures r.Some? ==> r.value < |policies| && Applies(policies[r.value], verb, path)
    ensures r.Some? ==> forall i | 0 <= i < r.value :: !Applies(policies[i], verb, path)
    ensures r.None? ==> forall i | 0 <= i < |policies| :: !Applies(policies[i], verb, path)
    decreases |policies|
  {
    if policies == [] then None
    else if Applies(policies[0], verb, path) then Some(0)
    else
      match FirstPolicy(policies[1..], verb, path)
      case None => None
      case Some(i) => Some(i + 1)
  }

  function RoutePolicy(verb: Verb, path: Str): Option<nat> { FirstPolicy(POLICIES, verb, path) }

  // ---------- no two policies apply to one request ----------

  /** The verbs, the lengths, or two literals at one place tell the policies apart. */
  predicate Apart(p: Policy, q: Policy) {
    || p.verb != q.verb
    || |p.pattern| != |q.pattern|
    || exists i :: 0 <= i < |p.pattern| && p.pattern[i].Lit? && q.pattern[i].Lit? && p.pattern[i] != q.pattern[i]
  }

  lemma ApartNeverBoth(p: Policy, q: Policy, verb: Verb, path: Str)
    requires Apart(p, q) && Applies(p, verb, path)
    ensures !Applies(q, verb, path)
  {
    var parts := Split(path, SLASH)[3..];
    if p.verb == q.verb && |p.pattern| == |q.pattern| {
      var i :| 0 <= i < |p.pattern| && p.pattern[i].Lit? && q.pattern[i].Lit? && p.pattern[i] != q.pattern[i];
      assert parts[i] == p.pattern[i].text;
    }
  }

  lemma ApartAt(p: Policy, q: Policy, i: nat)
    requires i < |p.pattern| && i < |q.pattern|
    requires p.pattern[i].Lit? && q.pattern[i].Lit? && p.pattern[i] != q.pattern[i]
    ensures Apart(p, q) && Apart(q, p)
  {
  }

  /** Lengths and characters that tell the literals apart. */
  lemma LiteralsApart()
    ensures AUTHORIZATIONS != RELEASES && AUTHORIZATIONS != DRAFTS && RELEASES != DRAFTS
    ensures S("confirm") != S("withdraw") && S("evaluate") != S("release") && S("evaluate") != S("withdraw")
    ensures S("release") != S("withdraw")
  {
    assert RELEASES.text[0] == Code('e') && DRAFTS.text[0] == Code('f');
    assert S("evaluate")[0] == Code('e') && S("withdraw")[0] == Code('w');
  }

  lemma PoliciesApart(i: nat, j: nat)
    requires i < |POLICIES| && j < |POLICIES| && i != j
    ensures Apart(POLICIES[i], POLICIES[j])
  {
    LiteralsApart();
    var p, q := POLICIES[i], POLICIES[j];
    if p.verb == q.verb && |p.pattern| == |q.pattern| {
      if p.pattern[0] != q.pattern[0] {
        ApartAt(p, q, 0);
      } else {
        assert |p.pattern| == 3 && p.pattern[2].Lit? && q.pattern[2].Lit?;
        ApartAt(p, q, 2);
      }
    }
  }

  // ---------- registered routes ----------

  /** A slash-free parameter value that is not empty. */
  predicate ParamValue(s: Str) { s != [] && SLASH !in s }

  /** The segments of a route for its parameter values. */
  function Instantiate(template: seq<Part>, values: Str -> Str): (r: seq<Str>)
    ensures |r| == |template|
    ensures forall i | 0 <= i < |r| ::
      r[i] == if template[i].Fixed? then template[i].text else values(template[i].name)
  {
    seq(|template|, i requires 0 <= i < |template| =>
      if template[i].Fixed? then template[i].text else values(template[i].name))
  }

  /** The path of a route for its parameter values. */
  function RoutePath(template: seq<Part>, values: Str -> Str): Str {
    Join([[], API, EXECUTION] + Instantiate(template, values), [SLASH])
  }

  /** The policy pattern that a template reads as. */
  ghost predicate Mirrors(r: Route, p: Policy) {
    && r.verb == p.verb && |r.template| == |p.pattern|
    && forall i | 0 <= i < |r.template| ::
      if r.template[i].Fixed? then p.pattern[i] == Lit(r.template[i].text) else p.pattern[i] == Param
  }

  lemma RouteMirrorsPolicy(i: nat)
    requires i < |ROUTES|
    ensures |ROUTES| == |POLICIES| && Mirrors(ROUTES[i], POLICIES[i])
  {
  }

  lemma NoSlashes()
    ensures SLASH !in API && SLASH !in EXECUTION
    ensures SLASH !in S("filing-authorizations") && SLASH !in S("execution-releases")
    ensures SLASH !in S("filing-task-drafts")
    ensures SLASH !in S("confirm") && SLASH !in S("withdraw") && SLASH !in S("evaluate") && SLASH !in S("assignment")
    ensures SLASH !in S("release") && SLASH !in S("validate-current") && SLASH !in S("filing-task-draft")
  {
  }

  lemma TemplatesHaveNoSlashes(i: nat)
    requires i < |ROUTES|
    ensures ROUTES[i].template != []
    ensures forall k | 0 <= k < |ROUTES[i].template| && ROUTES[i].template[k].Fixed? ::
      SLASH !in ROUTES[i].template[k].text
  {
    NoSlashes();
  }

  lemma SplitRoutePath(template: seq<Part>, values: Str -> Str)
    requires forall n :: ParamValue(values(n))
    requires forall k | 0 <= k < |template| && template[k].Fixed? :: SLASH !in template[k].text
    ensures Split(RoutePath(template, values), SLASH) == [[], API, EXECUTION] + Instantiate(template, values)
  {
    NoSlashes();
    var parts := [[], API, EXECUTION] + Instantiate(template, values);
    forall p | p in parts ensures SLASH !in p {
      var k :| 0 <= k < |parts| && parts[k] == p;
      if k >= 3 { assert parts[k] == Instantiate(template, values)[k - 3]; }
    }
    SplitJoin(parts, SLASH);
  }

  lemma InstanceMatches(r: Route, p: Policy, values: Str -> Str)
    requires Mirrors(r, p) && forall n :: ParamValue(values(n))
    ensures MatchesFrom(Instantiate(r.template, values), p.pattern)
  {
    var parts := Instantiate(r.template, values);
    forall i | 0 <= i < |parts|
      ensures if p.pattern[i].Lit? then parts[i] == p.pattern[i].text else parts[i] != []
    {
      SegmentMatches(r, p, values, i);
    }
  }

  lemma SegmentMatches(r: Route, p: Policy, values: Str -> Str, i: nat)
    requires Mirrors(r, p) && i < |r.template| && forall n :: ParamValue(values(n))
    ensures var part := Instantiate(r.template, values)[i];
      if p.pattern[i].Lit? then part == p.pattern[i].text else part != []
  {
    if r.template[i].Named? { assert ParamValue(values(r.template[i].name)); }
  }

  lemma OwnPolicyApplies(r: Route, p: Policy, values: Str -> Str)
    requires Mirrors(r, p) && forall n :: ParamValue(values(n))
    requires forall k | 0 <= k < |r.template| && r.template[k].Fixed? :: SLASH !in r.template[k].text
    ensures Applies(p, r.verb, RoutePath(r.template, values))
  {
    SplitRoutePath(r.template, values);
    var parts := [[], API, EXECUTION] + Instantiate(r.template, values);
    assert parts[3..] == Instantiate(r.template, values);
    InstanceMatches(r, p, values);
  }

  /** For all slash-free, non-empty parameter values a registered route matches its own policy and no other. */
  lemma RouteHasOnePolicy(i: nat, values: Str -> Str)
    requires i < |ROUTES| && forall n :: ParamValue(values(n))
    ensures forall j | 0 <= j < |POLICIES| ::
      Applies(POLICIES[j], ROUTES[i].verb, RoutePath(ROUTES[i].template, values)) <==> j == i
    ensures RoutePolicy(ROUTES[i].verb, RoutePath(ROUTES[i].template, values)) == Some(i)
  {
    RouteMirrorsPolicy(i);
    TemplatesHaveNoSlashes(i);
    OwnPolicyApplies(ROUTES[i], POLICIES[i], values);
    forall j | 0 <= j < |POLICIES| && j != i
      ensures !Applies(POLICIES[j], ROUTES[i].verb, RoutePath(ROUTES[i].template, values))
    {
      PoliciesApart(i, j);
      ApartNeverBoth(POLICIES[i], POLICIES[j], ROUTES[i].verb, RoutePath(ROUTES[i].template, values));
    }
  }

  // ---------- the downstream path ----------

  const PREFIX: Str := S("/api/execution")
  const V1: Str := S("v1")
  const DOWNSTREAM_PREFIX: Str := S("/v1")
  const ASSIGNMENT_SUFFIX: Str := S("/assignment")
  const SELF_ASSIGNMENT_SUFFIX: Str := S("/self-assignment")
  const ASSIGNMENT_PATTERN: seq<Segment> := [RELEASES, Param, Lit(ASSIGNMENT)]

  /** `replace` with a string: the first occurrence. */
  function ReplaceFirst(s: Str, from: Str, to: Str): Str
    decreases |s|
  {
    if from <= s then to + s[|from|..]
    else if s == [] then []
    else [s[0]] + ReplaceFirst(s[1..], from, to)
  }

  /** `replace` with a pattern anchored at the end. */
  function ReplaceSuffix(s: Str, from: Str, to: Str): Str {
    if |from| <= |s| && s[|s| - |from|..] == from then s[..|s| - |from|] + to else s
  }

  /** The governed rewrite. */
  function Downstream(path: Str): Str {
    var rewritten := ReplaceFirst(path, PREFIX, DOWNSTREAM_PREFIX);
    if Matches(path, ASSIGNMENT_PATTERN) then ReplaceSuffix(rewritten, ASSIGNMENT_SUFFIX, SELF_ASSIGNMENT_SUFFIX)
    else rewritten
  }

  /** What the rewrite does to the segments below the prefix. */
  function Rewritten(parts: seq<Str>): seq<Str> {
    if MatchesFrom(parts, ASSIGNMENT_PATTERN) then [parts[0], parts[1], SELF_ASSIGNMENT] else parts
  }

  lemma PrefixTexts()
    ensures PREFIX == [SLASH] + API + [SLASH] + EXECUTION
    ensures DOWNSTREAM_PREFIX == [SLASH] + V1
    ensures ASSIGNMENT_SUFFIX == [SLASH] + ASSIGNMENT && SELF_ASSIGNMENT_SUFFIX == [SLASH] + SELF_ASSIGNMENT
  {
  }

  lemma JoinCons(first: Str, rest: seq<Str>)
    requires rest != []
    ensures Join([first] + rest, [SLASH]) == first + [SLASH] + Join(rest, [SLASH])
  {
    assert ([first] + rest)[1..] == rest;
  }

  /** A matched path is the prefix, a slash, and the segments below it. */
  lemma MatchedPath(path: Str, pattern: seq<Segment>)
    requires Matches(path, pattern) && pattern != []
    ensures path == PREFIX + ([SLASH] + Join(Split(path, SLASH)[3..], [SLASH]))
  {
    var parts := Split(path, SLASH);
    var tail := parts[3..];
    JoinSplit(path, SLASH);
    PrefixTexts();
    assert parts == [[]] + ([API] + ([EXECUTION] + tail));
    JoinCons([], [API] + ([EXECUTION] + tail));
    JoinCons(API, [EXECUTION] + tail);
    JoinCons(EXECUTION, tail);
    PrefixShape(Join(tail, [SLASH]));
  }

  lemma PrefixShape(tail: Str)
    ensures [] + [SLASH] + (API + [SLASH] + (EXECUTION + [SLASH] + tail))
         == [SLASH] + API + [SLASH] + EXECUTION + ([SLASH] + tail)
  {
  }

  lemma ReplacesPrefix(tail: Str)
    ensures ReplaceFirst(PREFIX + tail, PREFIX, DOWNSTREAM_PREFIX) == DOWNSTREAM_PREFIX + tail
  {
    assert (PREFIX + tail)[|PREFIX|..] == tail;
  }

  lemma ReplacesSuffix(head: Str)
    ensures ReplaceSuffix(head + ASSIGNMENT_SUFFIX, ASSIGNMENT_SUFFIX, SELF_ASSIGNMENT_SUFFIX)
         == head + SELF_ASSIGNMENT_SUFFIX
  {
    var s := head + ASSIGNMENT_SUFFIX;
    assert s[|s| - |ASSIGNMENT_SUFFIX|..] == ASSIGNMENT_SUFFIX && s[..|s| - |ASSIGNMENT_SUFFIX|] == head;
  }

  lemma JoinThree(a: Str, b: Str, c: Str)
    ensures Join([a, b, c], [SLASH]) == a + [SLASH] + b + ([SLASH] + c)
  {
    assert [a, b, c] == [a] + ([b] + [c]);
    JoinCons(a, [b] + [c]);
    JoinCons(b, [c]);
    assert a + [SLASH] + (b + [SLASH] + c) == a + [SLASH] + b + ([SLASH] + c);
  }

  /** Downstream, the path is `/v1` and the rewritten segments. */
  lemma DownstreamPath(path: Str, pattern: seq<Segment>)
    requires Matches(path, pattern) && pattern != []
    ensures Downstream(path) == DOWNSTREAM_PREFIX + ([SLASH] + Join(Rewritten(Split(path, SLASH)[3..]), [SLASH]))
  {
    var tail := Split(path, SLASH)[3..];
    MatchedPath(path, pattern);
    ReplacesPrefix([SLASH] + Join(tail, [SLASH]));
    if Matches(path, ASSIGNMENT_PATTERN) {
      PrefixTexts();
      var a, b := tail[0], tail[1];
      assert tail == [a, b, ASSIGNMENT];
      JoinThree(a, b, ASSIGNMENT);
      JoinThree(a, b, SELF_ASSIGNMENT);
      var head := DOWNSTREAM_PREFIX + ([SLASH] + (a + [SLASH] + b));
      AppendShape(a + [SLASH] + b, ASSIGNMENT_SUFFIX);
      AppendShape(a + [SLASH] + b, SELF_ASSIGNMENT_SUFFIX);
      ReplacesSuffix(head);
    }
  }

  lemma AppendShape(middle: Str, suffix: Str)
    ensures DOWNSTREAM_PREFIX + ([SLASH] + (middle + suffix)) == DOWNSTREAM_PREFIX + ([SLASH] + middle) + suffix
  {
    assert [SLASH] + (middle + suffix) == [SLASH] + middle + suffix;
  }

  lemma SplitTail(path: Str)
    requires |Split(path, SLASH)| > 3
    ensures forall p | p in Split(path, SLASH)[3..] :: SLASH !in p
  {
    JoinSplit(path, SLASH);
    var parts := Split(path, SLASH);
    forall p | p in parts[3..] ensures SLASH !in p { assert p in parts; }
  }

  lemma NoSelfAssignmentPolicy(i: nat, path: Str)
    requires i < |POLICIES| && Matches(path, POLICIES[i].pattern)
    ensures var tail := Split(path, SLASH)[3..]; |tail| == 3 ==> tail[2] != SELF_ASSIGNMENT
  {
    var tail := Split(path, SLASH)[3..];
    if |tail| == 3 {
      assert POLICIES[i].pattern[2].Lit? && |POLICIES[i].pattern[2].text| != |SELF_ASSIGNMENT|;
    }
  }

  lemma SelfHasNoSlash()
    ensures SLASH !in SELF_ASSIGNMENT
  {
  }

  lemma RewrittenSplits(path: Str)
    requires |Split(path, SLASH)| > 3
    ensures Split(Join(Rewritten(Split(path, SLASH)[3..]), [SLASH]), SLASH) == Rewritten(Split(path, SLASH)[3..])
  {
    SplitTail(path);
    SelfHasNoSlash();
    SplitJoin(Rewritten(Split(path, SLASH)[3..]), SLASH);
  }

  lemma DownstreamTailsAgree(path: Str, path': Str, p: seq<Segment>, p': seq<Segment>)
    requires Matches(path, p) && Matches(path', p') && p != [] && p' != []
    requires Downstream(path) == Downstream(path')
    ensures Rewritten(Split(path, SLASH)[3..]) == Rewritten(Split(path', SLASH)[3..])
  {
    DownstreamPath(path, p);
    DownstreamPath(path', p');
    var a, b := Join(Rewritten(Split(path, SLASH)[3..]), [SLASH]), Join(Rewritten(Split(path', SLASH)[3..]), [SLASH]);
    var n := |DOWNSTREAM_PREFIX| + 1;
    assert (DOWNSTREAM_PREFIX + ([SLASH] + a))[n..] == a && (DOWNSTREAM_PREFIX + ([SLASH] + b))[n..] == b;
    RewrittenSplits(path);
    RewrittenSplits(path');
  }

  lemma RewrittenInjective(a: seq<Str>, b: seq<Str>)
    requires (|a| == 3 ==> a[2] != SELF_ASSIGNMENT) && (|b| == 3 ==> b[2] != SELF_ASSIGNMENT)
    requires Rewritten(a) == Rewritten(b)
    ensures a == b
  {
    if MatchesFrom(a, ASSIGNMENT_PATTERN) {
      assert Rewritten(a)[2] == SELF_ASSIGNMENT;
      assert a == [a[0], a[1], ASSIGNMENT] && b == [a[0], a[1], ASSIGNMENT];
    }
  }

  /** The governed rewrite sends different matched paths to different downstream paths. */
  lemma DownstreamInjective(i: nat, path: Str, j: nat, path': Str)
    requires i < |POLICIES| && j < |POLICIES|
    requires Matches(path, POLICIES[i].pattern) && Matches(path', POLICIES[j].pattern)
    ensures Downstream(path) == Downstream(path') <==> path == path'
  {
    if Downstream(path) == Downstream(path') {
      DownstreamTailsAgree(path, path', POLICIES[i].pattern, POLICIES[j].pattern);
      NoSelfAssignmentPolicy(i, path);
      NoSelfAssignmentPolicy(j, path');
      RewrittenInjective(Split(path, SLASH)[3..], Split(path', SLASH)[3..]);
      MatchedPath(path, POLICIES[i].pattern);
      MatchedPath(path', POLICIES[j].pattern);
    }
  }

  // ---------- the rewrite in its own texts ----------

  lemma AssignmentPathMatches(path: Str)
    ensures Matches(path, ASSIGNMENT_PATTERN) <==>
      exists id: Str :: ParamValue(id) && path == S("/api/execution/execution-releases/") + id + S("/assignment")
  {
    if Matches(path, ASSIGNMENT_PATTERN) {
      var parts := Split(path, SLASH);
      var id := parts[4];
      MatchedPath(path, ASSIGNMENT_PATTERN);
      assert parts[3..] == [RELEASES.text, id, ASSIGNMENT] && parts[3..][1] == id;
      JoinThree(RELEASES.text, id, ASSIGNMENT);
      SplitTail(path);
      assert id in parts[3..];
      AssignmentTexts(id);
    }
    if id: Str :| ParamValue(id) && path == S("/api/execution/execution-releases/") + id + S("/assignment") {
      AssignmentSegments(id);
    }
  }

  lemma ReleasePrefix()
    ensures S("/api/execution/execution-releases/") == PREFIX + [SLASH] + RELEASES.text + [SLASH]
    ensures S("/assignment") == [SLASH] + ASSIGNMENT
  {
  }

  lemma Regroup(a: Str, b: Str, c: Str, d: Str)
    ensures a + ([SLASH] + (b + [SLASH] + c + d)) == a + [SLASH] + b + [SLASH] + c + d
  {
  }

  lemma AssignmentTexts(id: Str)
    ensures PREFIX + ([SLASH] + (RELEASES.text + [SLASH] + id + ([SLASH] + ASSIGNMENT)))
         == S("/api/execution/execution-releases/") + id + S("/assignment")
  {
    ReleasePrefix();
    Regroup(PREFIX, RELEASES.text, id, [SLASH] + ASSIGNMENT);
  }

  lemma AssignmentJoins(id: Str)
    ensures Join([[], API, EXECUTION, RELEASES.text, id, ASSIGNMENT], [SLASH])
         == PREFIX + ([SLASH] + (RELEASES.text + [SLASH] + id + ([SLASH] + ASSIGNMENT)))
  {
    var tail := [RELEASES.text, id, ASSIGNMENT];
    assert [[], API, EXECUTION, RELEASES.text, id, ASSIGNMENT] == [[]] + ([API] + ([EXECUTION] + tail));
    JoinCons([], [API] + ([EXECUTION] + tail));
    JoinCons(API, [EXECUTION] + tail);
    JoinCons(EXECUTION, tail);
    JoinThree(RELEASES.text, id, ASSIGNMENT);
    PrefixTexts();
    PrefixShape(Join(tail, [SLASH]));
  }

  lemma V1Texts(id: Str)
    ensures DOWNSTREAM_PREFIX + ([SLASH] + (RELEASES.text + [SLASH] + id + ([SLASH] + SELF_ASSIGNMENT)))
         == S("/v1/execution-releases/") + id + S("/self-assignment")
  {
    V1Prefix();
    Regroup(DOWNSTREAM_PREFIX, RELEASES.text, id, [SLASH] + SELF_ASSIGNMENT);
  }

  lemma V1Prefix()
    ensures S("/v1/execution-releases/") == DOWNSTREAM_PREFIX + [SLASH] + RELEASES.text + [SLASH]
    ensures S("/self-assignment") == [SLASH] + SELF_ASSIGNMENT
  {
  }

  lemma AssignmentSegments(id: Str)
    requires ParamValue(id)
    ensures var path := S("/api/execution/execution-releases/") + id + S("/assignment");
      Matches(path, ASSIGNMENT_PATTERN) && Split(path, SLASH)[3..] == [RELEASES.text, id, ASSIGNMENT]
  {
    AssignmentTexts(id);
    NoSlashes();
    var parts := [[], API, EXECUTION, RELEASES.text, id, ASSIGNMENT];
    AssignmentJoins(id);
    SplitJoin(parts, SLASH);
    assert parts[3..] == [RELEASES.text, id, ASSIGNMENT];
  }

  /** An assignment goes to the self-assignment of the same release. */
  lemma DownstreamAssignment(id: Str)
    requires ParamValue(id)
    ensures Downstream(S("/api/execution/execution-releases/") + id + S("/assignment"))
         == S("/v1/execution-releases/") + id + S("/self-assignment")
  {
    var path := S("/api/execution/execution-releases/") + id + S("/assignment");
    AssignmentSegments(id);
    DownstreamPath(path, ASSIGNMENT_PATTERN);
    JoinThree(RELEASES.text, id, SELF_ASSIGNMENT);
    V1Texts(id);
  }

  /** Every other matched path keeps what follows the prefix. */
  lemma DownstreamOther(i: nat, path: Str)
    requires i < |POLICIES| && Matches(path, POLICIES[i].pattern)
    requires !exists id: Str ::
      ParamValue(id) && path == S("/api/execution/execution-releases/") + id + S("/assignment")
    ensures exists rest: Str :: path == S("/api/execution") + rest && Downstream(path) == S("/v1") + rest
  {
    AssignmentPathMatches(path);
    MatchedPath(path, POLICIES[i].pattern);
    var rest := [SLASH] + Join(Split(path, SLASH)[3..], [SLASH]);
    ReplacesPrefix(rest);
    assert path == S("/api/execution") + rest && Downstream(path) == S("/v1") + rest;
  }
}

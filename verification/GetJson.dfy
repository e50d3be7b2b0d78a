/** One Data Engine request: a fetch, a timeout and a body read that interleave freely. */
module GetJson {
  import opened Texts
  import opened Json

  datatype Response = Response(
    status: int, requestId: Str, correlationId: Str, contractVersion: Str, sourceOwner: Str, hasBody: bool)

  datatype Call = Call(
    path: Str, requestId: Str, correlationId: Str, expectedVersion: Str, expectedOwner: Str, tracing: bool)

  datatype Trace = Trace(path: Str, status: int, requestId: Str, correlationId: Str)

  /** A parsed provider error envelope; parsing itself is foreign. */
  datatype Envelope = Envelope(code: Str, retryable: bool, factState: Option<Str>)

  datatype Code = UNAVAILABLE | CONTRACT_MISMATCH | AUTH_FAILED | FORBIDDEN | NOT_FOUND | RATE_LIMITED | PROVIDER_ERROR
  datatype Reason = TimedOut | ServiceDown | Metadata | InvalidEnvelope | Provider | NonJson
  datatype Failure = Failure(
    code: Code, reason: Reason, status: Option<int>, retryable: bool, factState: Option<Str>, coverageUnknown: bool)

  datatype Outcome = Returned(body: Json) | Threw(failure: Failure) | TraceRaised

  datatype Phase =
    | Fetching
    | FetchSettled(response: Option<Response>)
    | Reading
    | BodyRead(body: Option<Json>)
    | Done(outcome: Outcome)

  /** The variables of one call. `timer` is true while the timeout is armed. */
  datatype State = State(
    phase: Phase, timer: bool, aborted: bool, response: Option<Response>, bodyUsed: bool, traces: seq<Trace>)

  /** What may happen next: a promise settles, the timeout fires, or the suspended call continues. */
  datatype Event =
    | FetchResolved(response: Response)
    | FetchRejected
    | TimerFired
    | BodySettled(body: Option<Json>)
    | Continue(traceRaises: bool)

  const SERVICE_UNAVAILABLE: Str := S("service_unavailable")
  const NOT_FOUND_FACT: Str := S("not_found")

  predicate Ok(r: Response) { 200 <= r.status < 300 }

  predicate MetadataOk(c: Call, r: Response) {
    && r.requestId == c.requestId && r.correlationId == c.correlationId
    && r.contractVersion == c.expectedVersion && r.sourceOwner == c.expectedOwner
  }

  function TransportUnavailable(aborted: bool): Failure {
    Failure(UNAVAILABLE, if aborted then TimedOut else ServiceDown, None, true, Some(SERVICE_UNAVAILABLE), false)
  }

  function Mismatch(reason: Reason, r: Response): Failure {
    Failure(CONTRACT_MISMATCH, reason, Some(r.status), false, None, false)
  }

  function MapProviderError(r: Response, body: Option<Json>, parse: Option<Json> -> Option<Envelope>): Failure {
    match parse(body)
    case None => Mismatch(InvalidEnvelope, r)
    case Some(e) =>
      var code := if r.status == 401 then AUTH_FAILED
                  else if r.status == 403 then FORBIDDEN
                  else if r.status == 404 then NOT_FOUND
                  else if r.status == 429 then RATE_LIMITED
                  else if r.status >= 500 then UNAVAILABLE
                  else PROVIDER_ERROR;
      var fact := if code == UNAVAILABLE && e.factState.None? then Some(SERVICE_UNAVAILABLE) else e.factState;
      Failure(code, Provider, Some(r.status), e.retryable, fact, e.factState == Some(NOT_FOUND_FACT))
  }

  const INITIAL: State := State(Fetching, true, false, None, false, [])

  /** The `finally` block: clear the timer, and abort a response whose body was never read. */
  function Finished(s: State, o: Outcome): State {
    s.(phase := Done(o), timer := false, aborted := s.aborted || (s.response.Some? && !s.bodyUsed))
  }

  function Traced(c: Call, r: Response): seq<Trace> {
    if c.tracing then [Trace(c.path, r.status, c.requestId, c.correlationId)] else []
  }

  /** The continuation after the fetch. */
  function AfterFetch(s: State, c: Call, settled: Option<Response>, traceRaises: bool): State {
    match settled
    case None => Finished(s, Threw(TransportUnavailable(s.aborted)))
    case Some(r) =>
      var s := s.(response := Some(r));
      if !MetadataOk(c, r) then Finished(s, Threw(Mismatch(Metadata, r)))
      else
        var s := s.(traces := s.traces + Traced(c, r));
        if c.tracing && traceRaises then Finished(s, TraceRaised)
        else s.(phase := Reading, bodyUsed := r.hasBody)
  }

  /** The continuation after the body read. */
  function AfterBody(s: State, r: Response, body: Option<Json>, parse: Option<Json> -> Option<Envelope>): State {
    if s.aborted then Finished(s, Threw(TransportUnavailable(true)))
    else if !Ok(r) then Finished(s, Threw(MapProviderError(r, body, parse)))
    else if body.None? then Finished(s, Threw(Mismatch(NonJson, r)))
    else Finished(s, Returned(body.value))
  }

  /** One step, or None when the event cannot happen in this state. */
  function Step(s: State, e: Event, c: Call, parse: Option<Json> -> Option<Envelope>): Option<State> {
    match e
    case FetchResolved(r) => if s.phase.Fetching? then Some(s.(phase := FetchSettled(Some(r)))) else None
    case FetchRejected => if s.phase.Fetching? then Some(s.(phase := FetchSettled(None))) else None
    case TimerFired => if s.timer then Some(s.(timer := false, aborted := true)) else None
    case BodySettled(b) =>
      if s.phase.Reading? && (b.Some? ==> s.bodyUsed) then Some(s.(phase := BodyRead(b))) else None
    case Continue(raises) =>
      if s.phase.FetchSettled? then Some(AfterFetch(s, c, s.phase.response, raises))
      else if s.phase.BodyRead? && s.response.Some? then Some(AfterBody(s, s.response.value, s.phase.body, parse))
      else None
  }

  /** The state after a whole sequence of events. */
  function Run(events: seq<Event>, c: Call, parse: Option<Json> -> Option<Envelope>): Option<State>
    decreases |events|
  {
    if events == [] then Some(INITIAL)
    else
      match Run(events[..|events| - 1], c, parse)
      case None => None
      case Some(s) => Step(s, events[|events| - 1], c, parse)
  }

  // ---------- the invariant of every run ----------

  ghost predicate Fired(events: seq<Event>) { TimerFired in events }

  /** Each settled promise is the one the state remembers. */
  ghost predicate Remembered(events: seq<Event>, s: State) {
    && (s.response.Some? ==> FetchResolved(s.response.value) in events)
    && (s.phase.FetchSettled? && s.phase.response.Some? ==> FetchResolved(s.phase.response.value) in events)
    && (s.phase.BodyRead? ==> BodySettled(s.phase.body) in events)
    && (forall r | FetchResolved(r) in events :: s.response == Some(r) || s.phase == FetchSettled(Some(r)))
    && (forall b | BodySettled(b) in events :: s.phase == BodyRead(b) || s.phase.Done?)
  }

  ghost predicate WaitingForFetch(events: seq<Event>, s: State) {
    && s.response.None? && !s.bodyUsed && s.traces == []
    && (s.aborted <==> Fired(events)) && (s.timer <==> !s.aborted)
    && (forall b :: BodySettled(b) !in events)
  }

  ghost predicate WaitingForBody(events: seq<Event>, s: State, c: Call) {
    && s.response.Some? && MetadataOk(c, s.response.value)
    && s.bodyUsed == s.response.value.hasBody && s.traces == Traced(c, s.response.value)
    && (s.aborted <==> Fired(events)) && (s.timer <==> !s.aborted)
    && (s.phase.Reading? ==> forall b :: BodySettled(b) !in events)
    && (s.phase.BodyRead? ==>
          (s.phase.body.Some? ==> s.bodyUsed) && forall b | BodySettled(b) in events :: b == s.phase.body)
  }

  /** What each way of ending says about the events. */
  ghost predicate Justified(
      o: Outcome, events: seq<Event>, s: State, c: Call, parse: Option<Json> -> Option<Envelope>)
  {
    match o
    case Returned(j) =>
      && s.response.Some? && MetadataOk(c, s.response.value) && Ok(s.response.value)
      && !Fired(events) && BodySettled(Some(j)) in events
      && (forall b | BodySettled(b) in events :: b == Some(j))
      && s.traces == Traced(c, s.response.value)
    case TraceRaised =>
      && c.tracing && (forall b :: BodySettled(b) !in events) && |s.traces| == 1
      && s.response.Some? && MetadataOk(c, s.response.value)
    case Threw(f) =>
      match f.reason
      case TimedOut =>
        && Fired(events) && f == TransportUnavailable(true) && |s.traces| <= 1
        && (s.response.Some? ==> MetadataOk(c, s.response.value))
      case ServiceDown => !Fired(events) && f == TransportUnavailable(false) && s.response.None? && s.traces == []
                          && (forall b :: BodySettled(b) !in events)
      case Metadata => s.response.Some? && !MetadataOk(c, s.response.value) && s.traces == [] && !s.bodyUsed
                       && f == Mismatch(Metadata, s.response.value) && (forall b :: BodySettled(b) !in events)
      case NonJson =>
        && s.response.Some? && MetadataOk(c, s.response.value) && Ok(s.response.value) && !Fired(events)
        && f == Mismatch(NonJson, s.response.value) && s.traces == Traced(c, s.response.value)
        && (forall b | BodySettled(b) in events :: b.None?)
      case _ =>
        && s.response.Some? && MetadataOk(c, s.response.value) && !Ok(s.response.value) && !Fired(events)
        && s.traces == Traced(c, s.response.value)
        && exists b :: BodySettled(b) in events && f == MapProviderError(s.response.value, b, parse)
  }

  ghost predicate Inv(events: seq<Event>, s: State, c: Call, parse: Option<Json> -> Option<Envelope>) {
    && Remembered(events, s)
    && match s.phase
       case Fetching => WaitingForFetch(events, s)
       case FetchSettled(_) => WaitingForFetch(events, s)
       case Reading => WaitingForBody(events, s, c)
       case BodyRead(_) => WaitingForBody(events, s, c)
       case Done(o) =>
         !s.timer && (s.response.Some? ==> s.bodyUsed || s.aborted) && Justified(o, events, s, c, parse)
  }

  lemma Extended(before: seq<Event>, e: Event)
    ensures forall x :: x in before + [e] <==> x in before || x == e
  {
  }

  lemma FetchContinuationKeepsInv(
      events: seq<Event>, raises: bool, s: State, c: Call, parse: Option<Json> -> Option<Envelope>)
    requires Inv(events, s, c, parse) && s.phase.FetchSettled?
    ensures Inv(events, AfterFetch(s, c, s.phase.response, raises), c, parse)
  {
  }

  lemma BodyContinuationKeepsInv(events: seq<Event>, s: State, c: Call, parse: Option<Json> -> Option<Envelope>)
    requires Inv(events, s, c, parse) && s.phase.BodyRead?
    ensures s.response.Some? && Inv(events, AfterBody(s, s.response.value, s.phase.body, parse), c, parse)
  {
  }

  lemma ContinueIsSilent(before: seq<Event>, raises: bool, s: State, c: Call, parse: Option<Json> -> Option<Envelope>)
    requires Inv(before, s, c, parse)
    ensures Inv(before + [Continue(raises)], s, c, parse)
  {
    Extended(before, Continue(raises));
  }

  lemma ContinueKeepsInv(before: seq<Event>, raises: bool, s: State, c: Call, parse: Option<Json> -> Option<Envelope>)
    requires Inv(before, s, c, parse) && Step(s, Continue(raises), c, parse).Some?
    ensures Inv(before + [Continue(raises)], Step(s, Continue(raises), c, parse).value, c, parse)
  {
    if s.phase.FetchSettled? {
      FetchContinuationKeepsInv(before, raises, s, c, parse);
    } else {
      BodyContinuationKeepsInv(before, s, c, parse);
    }
    ContinueIsSilent(before, raises, Step(s, Continue(raises), c, parse).value, c, parse);
  }

  lemma StepKeepsInv(before: seq<Event>, e: Event, s: State, c: Call, parse: Option<Json> -> Option<Envelope>)
    requires Inv(before, s, c, parse) && Step(s, e, c, parse).Some?
    ensures Inv(before + [e], Step(s, e, c, parse).value, c, parse)
  {
    if e.Continue? {
      ContinueKeepsInv(before, e.traceRaises, s, c, parse);
    } else {
      Extended(before, e);
    }
  }

  lemma {:induction false} EveryRunKeepsInv(events: seq<Event>, c: Call, parse: Option<Json> -> Option<Envelope>)
    requires Run(events, c, parse).Some?
    ensures Inv(events, Run(events, c, parse).value, c, parse)
    decreases |events|
  {
    if events != [] {
      var before := events[..|events| - 1];
      EveryRunKeepsInv(before, c, parse);
      StepKeepsInv(before, events[|events| - 1], Run(before, c, parse).value, c, parse);
      assert events == before + [events[|events| - 1]];
    }
  }

  // ---------- the theorems ----------

  ghost predicate Ends(events: seq<Event>, s: State, c: Call, parse: Option<Json> -> Option<Envelope>) {
    Run(events, c, parse) == Some(s) && s.phase.Done?
  }

  /** However the call ends, its timer is cleared and a received response is consumed or aborted. */
  lemma CleansUp(events: seq<Event>, s: State, c: Call, parse: Option<Json> -> Option<Envelope>)
    requires Ends(events, s, c, parse)
    ensures !s.timer && (s.response.Some? ==> s.bodyUsed || s.aborted)
    ensures forall r | FetchResolved(r) in events :: s.response == Some(r)
  {
    EveryRunKeepsInv(events, c, parse);
  }

  /** A body comes back exactly from an ok, matching response whose JSON settled with no timeout before the end. */
  lemma ReturnsBodyIff(events: seq<Event>, s: State, c: Call, parse: Option<Json> -> Option<Envelope>, j: Json)
    requires Ends(events, s, c, parse)
    ensures s.phase.outcome == Returned(j)
       <==> && (exists r :: && FetchResolved(r) in events && 200 <= r.status <= 299
                            && r.requestId == c.requestId && r.correlationId == c.correlationId
                            && r.contractVersion == c.expectedVersion && r.sourceOwner == c.expectedOwner)
            && TimerFired !in events && BodySettled(Some(j)) in events
  {
    EveryRunKeepsInv(events, c, parse);
    if s.phase.outcome == Returned(j) {
      assert FetchResolved(s.response.value) in events;
    }
  }

  /** Once the timeout has fired, only a retryable failure, a metadata mismatch or a raising trace is left. */
  lemma TimedOutRuns(events: seq<Event>, s: State, c: Call, parse: Option<Json> -> Option<Envelope>)
    requires Ends(events, s, c, parse) && TimerFired in events
    ensures || s.phase.outcome == Threw(TransportUnavailable(true))
            || (s.phase.outcome.Threw? && s.phase.outcome.failure.reason == Metadata)
            || s.phase.outcome == TraceRaised
    ensures s.phase.outcome == Threw(TransportUnavailable(true)) ==>
      var f := s.phase.outcome.failure;
      && f.code == UNAVAILABLE && f.reason == TimedOut && f.status == None && f.retryable
      && f.factState == Some(S("service_unavailable")) && !f.coverageUnknown
  {
    EveryRunKeepsInv(events, c, parse);
  }

  /** A run without a timeout whose fetch is rejected ends in a retryable failure. */
  lemma RejectedRuns(events: seq<Event>, s: State, c: Call, parse: Option<Json> -> Option<Envelope>)
    requires Ends(events, s, c, parse) && TimerFired !in events && FetchRejected in events
    requires forall r :: FetchResolved(r) !in events
    ensures s.phase.outcome == Threw(
      Failure(UNAVAILABLE, ServiceDown, None, true, Some(S("service_unavailable")), false))
  {
    EveryRunKeepsInv(events, c, parse);
  }

  /** A received response whose metadata differ in any of the four headers ends the run in a mismatch, unread. */
  lemma MismatchedRuns(
      events: seq<Event>, s: State, c: Call, parse: Option<Json> -> Option<Envelope>, r: Response)
    requires Ends(events, s, c, parse) && FetchResolved(r) in events
    requires || r.requestId != c.requestId || r.correlationId != c.correlationId
             || r.contractVersion != c.expectedVersion || r.sourceOwner != c.expectedOwner
    ensures s.phase.outcome == Threw(Failure(CONTRACT_MISMATCH, Metadata, Some(r.status), false, None, false))
    ensures s.traces == [] && !s.bodyUsed && s.aborted
  {
    EveryRunKeepsInv(events, c, parse);
  }

  /** An error response that was read in time ends the run in its provider error. */
  lemma ErrorRuns(events: seq<Event>, s: State, c: Call, parse: Option<Json> -> Option<Envelope>,
                  r: Response, body: Option<Json>)
    requires Ends(events, s, c, parse) && TimerFired !in events
    requires FetchResolved(r) in events && BodySettled(body) in events && !(200 <= r.status <= 299)
    ensures s.phase.outcome == Threw(MapProviderError(r, body, parse))
  {
    EveryRunKeepsInv(events, c, parse);
    ReadOnce(events, s, c, parse, body);
  }

  /** The body settles at most once. */
  lemma {:induction false} ReadOnce(
      events: seq<Event>, s: State, c: Call, parse: Option<Json> -> Option<Envelope>, body: Option<Json>)
    requires Run(events, c, parse) == Some(s) && BodySettled(body) in events
    ensures forall b | BodySettled(b) in events :: b == body
    decreases |events|
  {
    var n := |events| - 1;
    var before := events[..n];
    EveryRunKeepsInv(before, c, parse);
    assert events == before + [events[n]];
    if BodySettled(body) in before {
      ReadOnce(before, Run(before, c, parse).value, c, parse, body);
    }
  }

  /** What an error response becomes: the status decides the code, the envelope the rest. */
  lemma ProviderErrorLaw(r: Response, body: Option<Json>, parse: Option<Json> -> Option<Envelope>)
    ensures parse(body).None? ==>
      MapProviderError(r, body, parse)
      == Failure(CONTRACT_MISMATCH, InvalidEnvelope, Some(r.status), false, None, false)
    ensures parse(body).Some? ==>
      var f, e := MapProviderError(r, body, parse), parse(body).value;
      && f.reason == Provider && f.status == Some(r.status) && f.retryable == e.retryable
      && (f.code == AUTH_FAILED <==> r.status == 401) && (f.code == FORBIDDEN <==> r.status == 403)
      && (f.code == NOT_FOUND <==> r.status == 404) && (f.code == RATE_LIMITED <==> r.status == 429)
      && (f.code == UNAVAILABLE <==> r.status >= 500) && f.code != CONTRACT_MISMATCH
      && (f.coverageUnknown <==> e.factState == Some(S("not_found")))
      && f.factState == if r.status >= 500 && e.factState == None then Some(S("service_unavailable")) else e.factState
  {
  }

  /** A run that returns a body: the response arrives, it is read, its JSON settles. */
  lemma BodyComesBack(c: Call, r: Response, j: Json, parse: Option<Json> -> Option<Envelope>)
    requires 200 <= r.status <= 299 && r.hasBody && r.requestId == c.requestId && r.correlationId == c.correlationId
    requires r.contractVersion == c.expectedVersion && r.sourceOwner == c.expectedOwner
    ensures var events := [FetchResolved(r), Continue(false), BodySettled(Some(j)), Continue(false)];
      Run(events, c, parse).Some? && Run(events, c, parse).value.phase == Done(Returned(j))
  {
    var e0, e1, e2, e3 := FetchResolved(r), Continue(false), BodySettled(Some(j)), Continue(false);
    assert [e0, e1, e2, e3][..3] == [e0, e1, e2] && [e0, e1, e2][..2] == [e0, e1];
    assert [e0, e1][..1] == [e0] && [e0][..0] == [];
    assert Run([e0], c, parse) == Step(INITIAL, e0, c, parse);
    assert Run([e0, e1], c, parse) == Step(Run([e0], c, parse).value, e1, c, parse);
    assert Run([e0, e1, e2], c, parse) == Step(Run([e0, e1], c, parse).value, e2, c, parse);
  }

  /** At most one trace; exactly one, of the response, when a body or a provider error comes out. */
  lemma TracesOnce(events: seq<Event>, s: State, c: Call, parse: Option<Json> -> Option<Envelope>)
    requires Ends(events, s, c, parse)
    ensures |s.traces| <= 1
    ensures c.tracing && (s.phase.outcome.Returned?
              || (s.phase.outcome.Threw? && s.phase.outcome.failure.reason in {Provider, InvalidEnvelope, NonJson}))
            ==> s.response.Some? && s.traces == [Trace(c.path, s.response.value.status, c.requestId, c.correlationId)]
  {
    EveryRunKeepsInv(events, c, parse);
  }

  /** How many events are still possible. */
  function Remaining(s: State): nat {
    (if s.timer then 1 else 0)
    + match s.phase
      case Fetching => 4
      case FetchSettled(_) => 3
      case Reading => 2
      case BodyRead(_) => 1
      case Done(_) => 0
  }

  /** No run goes on for ever: at most five events. */
  lemma {:induction false} RunsAreShort(events: seq<Event>, c: Call, parse: Option<Json> -> Option<Envelope>)
    requires Run(events, c, parse).Some?
    ensures |events| + Remaining(Run(events, c, parse).value) <= 5
    decreases |events|
  {
    if events != [] {
      RunsAreShort(events[..|events| - 1], c, parse);
    }
  }

  /** No run gets stuck: until the end, the pending promise settling or the suspended call continuing is possible. */
  lemma NeverStuck(events: seq<Event>, c: Call, parse: Option<Json> -> Option<Envelope>)
    requires Run(events, c, parse).Some? && !Run(events, c, parse).value.phase.Done?
    ensures exists e :: e != TimerFired && Run(events + [e], c, parse).Some?
  {
    EveryRunKeepsInv(events, c, parse);
    var s := Run(events, c, parse).value;
    var e := if s.phase.Fetching? then FetchRejected
             else if s.phase.Reading? then BodySettled(None)
             else Continue(false);
    assert (events + [e])[..|events|] == events;
    assert Run(events + [e], c, parse) == Step(s, e, c, parse);
  }

  // ---------- the call as an object ----------

  class JsonCall {
    const call: Call
    const parse: Option<Json> -> Option<Envelope>
    var phase: Phase
    var timer: bool
    var aborted: bool
    var response: Option<Response>
    var bodyUsed: bool
    var traces: seq<Trace>

    ghost function View(): State
      reads this
    {
      State(phase, timer, aborted, response, bodyUsed, traces)
    }

    constructor (c: Call, p: Option<Json> -> Option<Envelope>)
      ensures call == c && parse == p && View() == INITIAL
    {
      call, parse := c, p;
      phase, timer, aborted, response, bodyUsed, traces := Fetching, true, false, None, false, [];
    }

    /** The `finally` block. */
    method Finish(o: Outcome)
      modifies this
      ensures View() == Finished(old(View()), o)
    {
      phase, timer := Done(o), false;
      if response.Some? && !bodyUsed { aborted := true; }
    }

    method ContinueAfterFetch(settled: Option<Response>, traceRaises: bool)
      modifies this
      ensures View() == AfterFetch(old(View()), call, settled, traceRaises)
    {
      if settled.None? {
        Finish(Threw(TransportUnavailable(aborted)));
        return;
      }
      var r := settled.value;
      response := settled;
      if !MetadataOk(call, r) {
        Finish(Threw(Mismatch(Metadata, r)));
        return;
      }
      if call.tracing {
        traces := traces + [Trace(call.path, r.status, call.requestId, call.correlationId)];
        if traceRaises {
          Finish(TraceRaised);
          return;
        }
      }
      phase, bodyUsed := Reading, r.hasBody;
    }

    method ContinueAfterBody(r: Response, body: Option<Json>)
      requires response == Some(r)
      modifies this
      ensures View() == AfterBody(old(View()), r, body, parse)
    {
      if aborted {
        Finish(Threw(TransportUnavailable(true)));
      } else if !Ok(r) {
        Finish(Threw(MapProviderError(r, body, parse)));
      } else if body.None? {
        Finish(Threw(Mismatch(NonJson, r)));
      } else {
        Finish(Returned(body.value));
      }
    }

    /** Delivers one event. */
    method Handle(e: Event)
      requires Step(View(), e, call, parse).Some?
      modifies this
      ensures Some(View()) == Step(old(View()), e, call, parse)
    {
      match e
      case FetchResolved(r) => phase := FetchSettled(Some(r));
      case FetchRejected => phase := FetchSettled(None);
      case TimerFired => timer, aborted := false, true;
      case BodySettled(b) => phase := BodyRead(b);
      case Continue(raises) =>
        if phase.FetchSettled? {
          ContinueAfterFetch(phase.response, raises);
        } else {
          ContinueAfterBody(response.value, phase.body);
        }
    }

    /** Delivers a whole schedule: the object goes through exactly the states of the run. */
    method Drive(events: seq<Event>)
      requires View() == INITIAL && Run(events, call, parse).Some?
      modifies this
      ensures Some(View()) == Run(events, call, parse)
    {
      var i := 0;
      assert events[..0] == [];
      PrefixesRun(events, call, parse);
      while i < |events|
        invariant 0 <= i <= |events|
        invariant Some(View()) == Run(events[..i], call, parse)
      {
        assert events[..i + 1][..i] == events[..i];
        Handle(events[i]);
        i := i + 1;
      }
      assert events[..i] == events;
    }
  }

  lemma {:induction false} PrefixesRun(events: seq<Event>, c: Call, parse: Option<Json> -> Option<Envelope>)
    requires Run(events, c, parse).Some?
    ensures forall i | 0 <= i <= |events| :: Run(events[..i], c, parse).Some?
    decreases |events|
  {
    assert events[..|events|] == events;
    if events != [] {
      var before := events[..|events| - 1];
      PrefixesRun(before, c, parse);
      forall i | 0 <= i < |events| ensures Run(events[..i], c, parse).Some? {
        assert before[..i] == events[..i];
      }
    }
  }
}

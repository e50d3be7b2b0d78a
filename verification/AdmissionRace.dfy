/** The admission read raced against a timeout: which settlement wins, and what is left behind. */
module AdmissionRace {
  import opened Texts
  import opened DataUseEvidence

  /** How the read ends: with an admission, with none, or with an error. */
  datatype Settlement = Found(admission: Option<Admission>) | Failed

  datatype Winner = ByRead(settlement: Settlement) | ByTimeout

  datatype Phase = Calling | Racing | Decided(winner: Winner) | Done(admission: Option<Admission>)

  /** `timer` is true while the timeout is armed, `pending` while the read has not settled. */
  datatype State = State(phase: Phase, timer: bool, aborted: bool, pending: bool)

  /** What may happen next. A timer callback runs only when no promise continuation is waiting; its abort may settle
      the read before the timeout itself is rejected. */
  datatype Event =
    | ReadStarted
    | ReadRaised
    | ReadSettled(settlement: Settlement)
    | TimerFired(onAbort: Option<Settlement>)
    | Continue

  const INITIAL: State := State(Calling, false, false, false)

  /** The admission that the winner brings; an error and the timeout bring none. */
  function Adopted(w: Winner): Option<Admission> {
    if w.ByRead? && w.settlement.Found? then w.settlement.admission else None
  }

  /** One step, or None when the event cannot happen in this state. */
  function Step(s: State, e: Event): Option<State> {
    match e
    case ReadStarted => if s.phase.Calling? then Some(State(Racing, true, false, true)) else None
    case ReadRaised => if s.phase.Calling? then Some(s.(phase := Done(None), timer := false)) else None
    case ReadSettled(x) =>
      if s.pending then Some(s.(pending := false, phase := if s.phase.Racing? then Decided(ByRead(x)) else s.phase))
      else None
    case TimerFired(onAbort) =>
      if !s.phase.Racing? || !s.timer || !s.pending then None
      else if onAbort.Some? then Some(State(Decided(ByRead(onAbort.value)), false, true, false))
      else Some(State(Decided(ByTimeout), false, true, true))
    case Continue =>
      if s.phase.Decided? then Some(s.(phase := Done(Adopted(s.phase.winner)), timer := false)) else None
  }

  /** The state after a whole sequence of events. */
  function Run(events: seq<Event>): Option<State>
    decreases |events|
  {
    if events == [] then Some(INITIAL)
    else
      match Run(events[..|events| - 1])
      case None => None
      case Some(s) => Step(s, events[|events| - 1])
  }

  /** A run that has ended. */
  predicate Ends(events: seq<Event>, s: State) { Run(events) == Some(s) && s.phase.Done? }

  predicate Ended(events: seq<Event>) { Run(events).Some? && Run(events).value.phase.Done? }

  /** What an ended run brings. */
  function Outcome(events: seq<Event>): Option<Admission> {
    match Run(events)
    case None => None
    case Some(s) => if s.phase.Done? then s.phase.admission else None
  }

  // ---------- the first decisive event ----------

  predicate Decisive(e: Event) { e.ReadSettled? || e.TimerFired? }

  function WinnerOf(e: Event): Winner
    requires Decisive(e)
  {
    if e.ReadSettled? then ByRead(e.settlement)
    else if e.onAbort.Some? then ByRead(e.onAbort.value)
    else ByTimeout
  }

  /** The event at `i` is decisive and none before it is. */
  ghost predicate FirstDecisive(events: seq<Event>, i: nat) {
    i < |events| && Decisive(events[i]) && forall j | 0 <= j < i :: !Decisive(events[j])
  }

  ghost predicate Undecided(events: seq<Event>) { forall j | 0 <= j < |events| :: !Decisive(events[j]) }

  ghost predicate Fired(events: seq<Event>) { exists i :: 0 <= i < |events| && events[i].TimerFired? }

  ghost predicate WonBy(events: seq<Event>, w: Winner) {
    exists i: nat :: FirstDecisive(events, i) && w == WinnerOf(events[i])
  }

  ghost predicate Inv(events: seq<Event>, s: State) {
    && (s.aborted <==> Fired(events))
    && (s.aborted ==> exists i: nat :: FirstDecisive(events, i) && events[i].TimerFired?)
    && match s.phase
       case Calling => events == [] && !s.timer && !s.pending
       case Racing => Undecided(events) && s.timer && s.pending
       case Decided(w) => WonBy(events, w) && (s.timer <==> !s.aborted)
       case Done(a) =>
         && !s.timer
         && if Undecided(events) then a.None? && !s.pending else exists w :: WonBy(events, w) && a == Adopted(w)
  }

  lemma Extended(before: seq<Event>, e: Event)
    ensures forall i: nat | FirstDecisive(before, i) ::
      FirstDecisive(before + [e], i) && (before + [e])[i] == before[i]
    ensures Undecided(before) && Decisive(e) ==> FirstDecisive(before + [e], |before|)
    ensures Undecided(before + [e]) <==> Undecided(before) && !Decisive(e)
    ensures Fired(before + [e]) <==> Fired(before) || e.TimerFired?
  {
    var after := before + [e];
    assert forall i | 0 <= i < |before| :: after[i] == before[i];
    assert after[|before|] == e;
    if Fired(before) {
      var i :| 0 <= i < |before| && before[i].TimerFired?;
      assert after[i].TimerFired?;
    }
    if Undecided(after) {
      assert !Decisive(after[|before|]) && forall j | 0 <= j < |before| :: !Decisive(after[j]);
    }
  }

  lemma KeepsWinner(before: seq<Event>, e: Event, w: Winner)
    requires WonBy(before, w)
    ensures WonBy(before + [e], w) && !Undecided(before)
  {
    Extended(before, e);
    var i: nat :| FirstDecisive(before, i) && w == WinnerOf(before[i]);
    assert FirstDecisive(before + [e], i);
  }

  lemma NewWinner(before: seq<Event>, e: Event)
    requires Undecided(before) && Decisive(e)
    ensures WonBy(before + [e], WinnerOf(e))
    ensures exists i: nat :: FirstDecisive(before + [e], i) && (before + [e])[i] == e
  {
    Extended(before, e);
    assert FirstDecisive(before + [e], |before|) && (before + [e])[|before|] == e;
  }

  lemma KeepsAbort(before: seq<Event>, e: Event)
    requires exists i: nat :: FirstDecisive(before, i) && before[i].TimerFired?
    ensures exists i: nat :: FirstDecisive(before + [e], i) && (before + [e])[i].TimerFired?
  {
    Extended(before, e);
    var i: nat :| FirstDecisive(before, i) && before[i].TimerFired?;
    assert FirstDecisive(before + [e], i) && (before + [e])[i].TimerFired?;
  }

  lemma StepKeepsInv(before: seq<Event>, e: Event, s: State)
    requires Inv(before, s) && Step(s, e).Some?
    ensures Inv(before + [e], Step(s, e).value)
  {
    Extended(before, e);
    if s.aborted { KeepsAbort(before, e); }
    match s.phase
    case Calling =>
    case Racing => NewWinner(before, e);
    case Decided(w) => KeepsWinner(before, e, w);
    case Done(a) =>
      var w :| WonBy(before, w) && a == Adopted(w);
      KeepsWinner(before, e, w);
  }

  lemma {:induction false} EveryRunKeepsInv(events: seq<Event>)
    requires Run(events).Some?
    ensures Inv(events, Run(events).value)
    decreases |events|
  {
    if events != [] {
      var before := events[..|events| - 1];
      EveryRunKeepsInv(before);
      StepKeepsInv(before, events[|events| - 1], Run(before).value);
      assert events == before + [events[|events| - 1]];
    }
  }

  // ---------- the theorems ----------

  lemma OneFirstDecisive(events: seq<Event>, i: nat, j: nat)
    requires FirstDecisive(events, i) && FirstDecisive(events, j)
    ensures i == j
  {
  }

  /** The run brings an admission exactly when the first decisive event delivers it: a read that settles after the
      timeout, or after another settlement, is ignored. */
  lemma AdoptsFirstSettlement(events: seq<Event>, s: State, a: Admission)
    requires Ends(events, s)
    ensures s.phase.admission == Some(a)
       <==> exists i: nat :: FirstDecisive(events, i) && Adopted(WinnerOf(events[i])) == Some(a)
  {
    EveryRunKeepsInv(events);
    if i: nat :| FirstDecisive(events, i) && Adopted(WinnerOf(events[i])) == Some(a) {
      var w :| WonBy(events, w) && s.phase.admission == Adopted(w);
      var j: nat :| FirstDecisive(events, j) && w == WinnerOf(events[j]);
      OneFirstDecisive(events, i, j);
    }
  }

  /** However the run ends, the timer is cleared, and the signal is aborted exactly when the timer fired. */
  lemma CleansUp(events: seq<Event>, s: State)
    requires Ends(events, s)
    ensures !s.timer && (s.aborted <==> Fired(events))
  {
    EveryRunKeepsInv(events);
  }

  /** After an abort an admission is adopted exactly when the read handed it over during the abort. */
  lemma AdoptedAfterAbort(events: seq<Event>, s: State)
    requires Ends(events, s) && s.aborted
    ensures s.phase.admission.Some?
       <==> exists a :: TimerFired(Some(Found(Some(a)))) in events
  {
    EveryRunKeepsInv(events);
    var i: nat :| FirstDecisive(events, i) && events[i].TimerFired?;
    FiresOnce(events, i);
    if s.phase.admission.Some? {
      AdoptsFirstSettlement(events, s, s.phase.admission.value);
    }
    if a :| TimerFired(Some(Found(Some(a)))) in events {
      assert events[i] == TimerFired(Some(Found(Some(a))));
      AdoptsFirstSettlement(events, s, a);
    }
  }

  /** Such a run exists: the read hands over an admission while it is being aborted, and the admission is adopted. */
  lemma AbortDelivers(a: Admission)
    ensures var events := [ReadStarted, TimerFired(Some(Found(Some(a)))), Continue];
      Run(events) == Some(State(Done(Some(a)), false, true, false))
  {
    var e, f := ReadStarted, TimerFired(Some(Found(Some(a))));
    assert [e, f, Continue][..2] == [e, f] && [e, f][..1] == [e] && [e][..0] == [];
    assert Run([e]) == Step(INITIAL, e);
    assert Run([e, f]) == Step(Run([e]).value, f);
  }

  /** The timer fires at most once. */
  lemma {:induction false} FiresOnce(events: seq<Event>, i: nat)
    requires Run(events).Some? && FirstDecisive(events, i)
    ensures forall j | 0 <= j < |events| && events[j].TimerFired? :: j == i
    decreases |events|
  {
    var n := |events| - 1;
    var before := events[..n];
    if i < n {
      assert FirstDecisive(before, i);
      FiresOnce(before, i);
      EveryRunKeepsInv(before);
      assert !Undecided(before);
    }
  }

  /** How many events are still possible. */
  function Remaining(s: State): nat {
    match s.phase
    case Calling => 4
    case Racing => 3
    case Decided(_) => if s.pending then 2 else 1
    case Done(_) => if s.pending then 1 else 0
  }

  /** No run has more than four events. */
  lemma {:induction false} RunsAreShort(events: seq<Event>)
    requires Run(events).Some?
    ensures |events| + Remaining(Run(events).value) <= 4
    decreases |events|
  {
    if events != [] {
      RunsAreShort(events[..|events| - 1]);
    }
  }

  /** A read that never settles cannot hold the call: without it, some event always leads on until the end. */
  lemma NeverHangs(events: seq<Event>)
    requires Run(events).Some? && !Run(events).value.phase.Done?
    ensures exists e: Event :: !e.ReadSettled? && Run(events + [e]).Some?
  {
    EveryRunKeepsInv(events);
    var s := Run(events).value;
    var e := if s.phase.Calling? then ReadStarted else if s.phase.Racing? then TimerFired(None) else Continue;
    assert (events + [e])[..|events|] == events;
    assert Run(events + [e]) == Step(s, e);
  }

  // ---------- the call as an object ----------

  class AdmissionRead {
    var phase: Phase
    var timer: bool
    var aborted: bool
    var pending: bool

    ghost function View(): State
      reads this
    {
      State(phase, timer, aborted, pending)
    }

    constructor ()
      ensures View() == INITIAL
    {
      phase, timer, aborted, pending := Calling, false, false, false;
    }

    /** Delivers one event. */
    method Handle(e: Event)
      requires Step(View(), e).Some?
      modifies this
      ensures Some(View()) == Step(old(View()), e)
    {
      match e
      case ReadStarted => phase, timer, aborted, pending := Racing, true, false, true;
      case ReadRaised => phase, timer := Done(None), false;
      case ReadSettled(x) =>
        pending := false;
        if phase.Racing? { phase := Decided(ByRead(x)); }
      case TimerFired(onAbort) =>
        timer, aborted := false, true;
        if onAbort.Some? {
          pending, phase := false, Decided(ByRead(onAbort.value));
        } else {
          phase := Decided(ByTimeout);
        }
      case Continue => phase, timer := Done(Adopted(phase.winner)), false;
    }

    /** Delivers a whole schedule and returns the admission it brings. */
    method Drive(events: seq<Event>) returns (admission: Option<Admission>)
      requires View() == INITIAL && Ended(events)
      modifies this
      ensures Some(View()) == Run(events) && admission == Outcome(events)
    {
      PrefixesRun(events);
      assert events[..0] == [];
      for i := 0 to |events|
        invariant Some(View()) == Run(events[..i])
      {
        assert events[..i + 1][..i] == events[..i];
        Handle(events[i]);
      }
      assert events[..|events|] == events;
      admission := phase.admission;
    }
  }

  lemma {:induction false} PrefixesRun(events: seq<Event>)
    requires Run(events).Some?
    ensures forall i | 0 <= i <= |events| :: Run(events[..i]).Some?
    decreases |events|
  {
    assert events[..|events|] == events;
    if events != [] {
      var before := events[..|events| - 1];
      PrefixesRun(before);
      forall i | 0 <= i < |events| ensures Run(events[..i]).Some? {
        assert before[..i] == events[..i];
      }
    }
  }
}

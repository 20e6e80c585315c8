/**
 * The circuit breaker with its half-open probe (app/core/resilience/circuit_breaker.py) as the
 * steps of the calls in flight.  The clock is an argument of each step.
 */
module CircuitBreaker {
  import opened Wrappers

  datatype Config = Config(failureThreshold: int, recoveryTimeout: real, successThreshold: int) {
    predicate Positive() {
      failureThreshold > 0 && successThreshold > 0
    }
  }

  datatype CircuitState = Closed | Open | HalfOpen

  /** The stored state is only ever closed or open; half open is a view of open. */
  datatype Breaker = Breaker(open: bool, failureCount: nat, successCount: nat, lastFailure: Option<real>, probeInFlight: bool) {

    function State(c: Config, now: real): CircuitState {
      if open && lastFailure.Some? && now - lastFailure.value >= c.recoveryTimeout then HalfOpen
      else if open then Open else Closed
    }

    function RecordSuccess(c: Config, now: real): Breaker {
      match State(c, now)
      case HalfOpen =>
        if successCount + 1 >= c.successThreshold then this.(open := false, failureCount := 0, successCount := 0)
        else this.(successCount := successCount + 1)
      case Closed => this.(failureCount := 0)
      case Open => this
    }

    function RecordFailure(c: Config, now: real): Breaker {
      this.(failureCount := failureCount + 1, lastFailure := Some(now), successCount := 0,
            open := open || failureCount + 1 >= c.failureThreshold)
    }
  }

  const NewBreaker := Breaker(false, 0, 0, None, false)

  // ---- What a call ended with ----

  datatype Exc = ResponseError(status: int) | Timeout | WithStatus(status: int) | OtherError | BreakerOpen | Cancelled

  predicate IsServerError(e: Exc) {
    match e
    case ResponseError(status) => status >= 500
    case WithStatus(status) => status >= 500
    case _ => true
  }

  datatype Verdict = RecordsSuccess | RecordsFailure | RecordsNothing

  function FailureVerdict(e: Exc): Verdict {
    if IsServerError(e) then RecordsFailure else RecordsNothing
  }

  // What the outcome of a call says about the account, which is what is to be recorded.

  /** `call`: a cancellation says nothing. */
  function CallVerdict(raised: Option<Exc>): Verdict {
    match raised
    case None => RecordsSuccess
    case Some(e) => if e.Cancelled? then RecordsNothing else FailureVerdict(e)
  }

  /** Against the account: a response of 500 or above read to its end, or a server error.  `status` is
      that of the response, once there is one. */
  predicate CountsAgainst(status: Option<int>, raised: Option<Exc>) {
    if raised.None? then status.Some? && status.value >= 500
    else !raised.value.Cancelled? && !raised.value.BreakerOpen? && IsServerError(raised.value)
  }

  /** For the account: anything else read to its end, or a client error after a response below 500. */
  predicate CountsFor(status: Option<int>, raised: Option<Exc>) {
    if raised.None? then status.None? || status.value < 500
    else status.Some? && status.value < 500 && !IsServerError(raised.value)
  }

  function ContextVerdict(status: Option<int>, raised: Option<Exc>): Verdict {
    if CountsAgainst(status, raised) then RecordsFailure
    else if CountsFor(status, raised) then RecordsSuccess else RecordsNothing
  }

  // ---- Calls in flight ----

  datatype Phase = Running(probe: bool) | Recorded(probe: bool) | Released(probe: bool) | Rejected

  datatype System = System(breaker: Breaker, calls: seq<Phase>)

  datatype Event =
    | Check(now: real)                             // a new call asks to be let through
    | Record(call: nat, verdict: Verdict, now: real)
    | Finish(call: nat)                            // the `finally` part
  {
    predicate IsSuccess() { Record? && verdict.RecordsSuccess? }
    predicate IsFailure() { Record? && verdict.RecordsFailure? }
  }

  predicate Enabled(s: System, e: Event) {
    match e
    case Check(_) => true
    case Record(c, _, _) => c < |s.calls| && s.calls[c].Running?
    case Finish(c) => c < |s.calls| && s.calls[c].Recorded?
  }

  function AfterCheck(c: Config, s: System, now: real): System {
    match s.breaker.State(c, now)
    case Open => s.(calls := s.calls + [Rejected])
    case Closed => s.(calls := s.calls + [Running(false)])
    case HalfOpen =>
      if s.breaker.probeInFlight then s.(calls := s.calls + [Rejected])
      else System(s.breaker.(probeInFlight := true), s.calls + [Running(true)])
  }

  function AfterRecord(c: Config, b: Breaker, verdict: Verdict, now: real): Breaker {
    match verdict
    case RecordsSuccess => b.RecordSuccess(c, now)
    case RecordsFailure => b.RecordFailure(c, now)
    case RecordsNothing => b
  }

  function Next(c: Config, s: System, e: Event): System {
    if !Enabled(s, e) then s
    else match e
      case Check(now) => AfterCheck(c, s, now)
      case Record(k, verdict, now) =>
        System(AfterRecord(c, s.breaker, verdict, now), s.calls[k := Recorded(s.calls[k].probe)])
      case Finish(k) =>
        System(if s.calls[k].probe then s.breaker.(probeInFlight := false) else s.breaker,
               s.calls[k := Released(s.calls[k].probe)])
  }

  function Run(c: Config, events: seq<Event>): System {
    if events == [] then System(NewBreaker, []) else Next(c, Run(c, events[..|events| - 1]), events[|events| - 1])
  }

  // ---- The same told from the recorded outcomes alone ----

  /** Outcomes recorded by steps that were taken. */
  function Outcomes(c: Config, events: seq<Event>): seq<Event> {
    if events == [] then []
    else
      var init, e := events[..|events| - 1], events[|events| - 1];
      Outcomes(c, init) + if Enabled(Run(c, init), e) && (e.IsSuccess() || e.IsFailure()) then [e] else []
  }

  /** Server failures since the last success. */
  function Streak(outs: seq<Event>): nat {
    if outs == [] || outs[|outs| - 1].IsSuccess() then 0 else Streak(outs[..|outs| - 1]) + 1
  }

  function LastFailure(outs: seq<Event>): Option<real> {
    if outs == [] then None
    else
      var e := outs[|outs| - 1];
      if e.IsFailure() then Some(e.now) else LastFailure(outs[..|outs| - 1])
  }

  /** Successes since the last failure that came at least the recovery timeout after it. */
  function Recoveries(c: Config, outs: seq<Event>): nat {
    if outs == [] then 0
    else
      var init, e := outs[..|outs| - 1], outs[|outs| - 1];
      if e.IsFailure() then 0
      else Recoveries(c, init) +
           if e.IsSuccess() && LastFailure(init).Some? && e.now - LastFailure(init).value >= c.recoveryTimeout then 1 else 0
  }

  /** The counters are what the outcomes say. */
  ghost predicate Explained(c: Config, b: Breaker, outs: seq<Event>) {
    && b.lastFailure == LastFailure(outs)
    && (!b.open ==> b.failureCount == Streak(outs) && b.failureCount < c.failureThreshold && b.successCount == 0)
    && (b.open ==> b.lastFailure.Some? && b.successCount == Recoveries(c, outs) && b.successCount < c.successThreshold)
  }

  lemma RecordExplained(c: Config, b: Breaker, outs: seq<Event>, e: Event)
    requires c.Positive() && Explained(c, b, outs) && (e.IsSuccess() || e.IsFailure())
    ensures var after := AfterRecord(c, b, e.verdict, e.now); var more := outs + [e];
            && Explained(c, after, more)
            && (!b.open ==> (after.open <==> Streak(more) == c.failureThreshold))
            && (b.open ==> (!after.open <==> e.IsSuccess() && Recoveries(c, more) == c.successThreshold))
  {
    var more := outs + [e];
    assert more[..|more| - 1] == outs && more[|more| - 1] == e;
  }

  lemma {:induction false} RunExplained(c: Config, events: seq<Event>)
    requires c.Positive()
    ensures Explained(c, Run(c, events).breaker, Outcomes(c, events))
  {
    if events != [] {
      var init, e := events[..|events| - 1], events[|events| - 1];
      RunExplained(c, init);
      var outs := Outcomes(c, init);
      if Enabled(Run(c, init), e) && (e.IsSuccess() || e.IsFailure()) {
        RecordExplained(c, Run(c, init).breaker, outs, e);
      } else {
        assert outs + [] == outs;
      }
    }
  }

  /** Closed to open exactly at the failure that makes the streak reach the threshold; open to closed
      exactly at the success that makes the recoveries reach theirs.  No other step changes it. */
  lemma TripsAndClosesExactly(c: Config, events: seq<Event>, e: Event)
    requires c.Positive()
    ensures var before, after := Run(c, events).breaker, Run(c, events + [e]).breaker;
            var outs := Outcomes(c, events + [e]); var counts := outs != Outcomes(c, events);
            && (!before.open ==> (after.open <==> counts && e.IsFailure() && Streak(outs) == c.failureThreshold))
            && (before.open ==> (!after.open <==> counts && e.IsSuccess() && Recoveries(c, outs) == c.successThreshold))
  {
    var more := events + [e];
    assert more[..|more| - 1] == events && more[|more| - 1] == e;
    RunExplained(c, events);
    var outs := Outcomes(c, events);
    if Enabled(Run(c, events), e) && (e.IsSuccess() || e.IsFailure()) {
      RecordExplained(c, Run(c, events).breaker, outs, e);
      assert |outs + [e]| != |outs|;
      StreakOfSuccess(outs, e);
    } else {
      assert outs + [] == outs;
    }
  }

  lemma StreakOfSuccess(outs: seq<Event>, e: Event)
    ensures e.IsSuccess() ==> Streak(outs + [e]) == 0
  {
  }

  /** While open, nothing is let through until the recovery timeout has passed since the last
      recorded failure, and then only one call while a probe is out. */
  lemma NothingAdmittedBeforeRecovery(c: Config, events: seq<Event>, now: real)
    requires c.Positive() && Run(c, events).breaker.open
    ensures var last := LastFailure(Outcomes(c, events)); var s := Run(c, events);
            && last.Some?
            && (Next(c, s, Check(now)).calls[|s.calls|].Running? <==>
                now - last.value >= c.recoveryTimeout && !s.breaker.probeInFlight)
            && (Next(c, s, Check(now)).calls[|s.calls|].Running? ==> Next(c, s, Check(now)).calls[|s.calls|].probe)
  {
    RunExplained(c, events);
  }

  // ---- The probe ----

  predicate HoldsProbe(p: Phase) {
    (p.Running? || p.Recorded?) && p.probe
  }

  /** The flag is set exactly while one call holds the probe. */
  ghost predicate ProbeExclusive(s: System) {
    && (forall i, j :: 0 <= i < j < |s.calls| ==> !(HoldsProbe(s.calls[i]) && HoldsProbe(s.calls[j])))
    && (s.breaker.probeInFlight <==> exists i :: 0 <= i < |s.calls| && HoldsProbe(s.calls[i]))
  }

  lemma ProbeExclusiveKept(c: Config, s: System, e: Event)
    requires ProbeExclusive(s)
    ensures ProbeExclusive(Next(c, s, e))
  {
    var t := Next(c, s, e);
    if Enabled(s, e) {
      match e
      case Check(now) =>
        assert t.calls[..|s.calls|] == s.calls;
        assert forall i :: 0 <= i < |s.calls| ==> t.calls[i] == s.calls[i];
        if HoldsProbe(t.calls[|s.calls|]) {
          assert forall i :: 0 <= i < |s.calls| ==> !HoldsProbe(s.calls[i]);
        }
      case Record(k, _, _) =>
        assert forall i :: 0 <= i < |s.calls| ==> HoldsProbe(t.calls[i]) == HoldsProbe(s.calls[i]);
      case Finish(k) =>
        assert forall i :: 0 <= i < |s.calls| && i != k ==> t.calls[i] == s.calls[i];
        if s.calls[k].probe {
          assert HoldsProbe(s.calls[k]) && !HoldsProbe(t.calls[k]);
        }
    }
  }

  /** At most one probe is out at any time in any run, and the flag says so: when every call let
      through has finished, the flag is clear again. */
  lemma {:induction false} OneProbeAtATime(c: Config, events: seq<Event>)
    ensures ProbeExclusive(Run(c, events))
    ensures (forall i :: 0 <= i < |Run(c, events).calls| ==> Run(c, events).calls[i].Released? || Run(c, events).calls[i].Rejected?)
            ==> !Run(c, events).breaker.probeInFlight
  {
    if events != [] {
      OneProbeAtATime(c, events[..|events| - 1]);
      ProbeExclusiveKept(c, Run(c, events[..|events| - 1]), events[|events| - 1]);
    }
  }

  // ---- Who is let through, told from the outcomes and the calls alone ----

  /** The failure at `i` makes the streak reach the threshold. */
  ghost predicate TripsAt(c: Config, outs: seq<Event>, i: nat) {
    i < |outs| && outs[i].IsFailure() && Streak(outs[..i + 1]) >= c.failureThreshold
  }

  /** The success at `i` makes the recoveries since the last failure reach theirs. */
  ghost predicate ClosesAt(c: Config, outs: seq<Event>, i: nat) {
    i < |outs| && outs[i].IsSuccess() && Recoveries(c, outs[..i + 1]) >= c.successThreshold
  }

  /** Some failure tripped the breaker and no success has closed it since. */
  ghost predicate Tripped(c: Config, outs: seq<Event>) {
    exists i: nat :: TripsAt(c, outs, i) && forall j :: i < j < |outs| ==> !ClosesAt(c, outs, j)
  }

  lemma TrippedSnoc(c: Config, outs: seq<Event>, e: Event)
    requires e.IsSuccess() || e.IsFailure()
    ensures Tripped(c, outs + [e]) <==>
            if e.IsFailure() then Tripped(c, outs) || Streak(outs + [e]) >= c.failureThreshold
            else Tripped(c, outs) && Recoveries(c, outs + [e]) < c.successThreshold
  {
    AtLast(c, outs, e);
    if Tripped(c, outs) && !ClosesAt(c, outs + [e], |outs|) {
      StaysTripped(c, outs, e);
    }
    if Tripped(c, outs + [e]) && !TripsAt(c, outs + [e], |outs|) {
      WasTripped(c, outs, e);
    }
  }

  lemma AtLast(c: Config, outs: seq<Event>, e: Event)
    ensures TripsAt(c, outs + [e], |outs|) <==> e.IsFailure() && Streak(outs + [e]) >= c.failureThreshold
    ensures ClosesAt(c, outs + [e], |outs|) <==> e.IsSuccess() && Recoveries(c, outs + [e]) >= c.successThreshold
  {
    assert (outs + [e])[..|outs| + 1] == outs + [e];
  }

  lemma AtEarlier(c: Config, outs: seq<Event>, e: Event, i: nat)
    requires i < |outs|
    ensures TripsAt(c, outs + [e], i) <==> TripsAt(c, outs, i)
    ensures ClosesAt(c, outs + [e], i) <==> ClosesAt(c, outs, i)
  {
    assert (outs + [e])[..i + 1] == outs[..i + 1];
  }

  lemma StaysTripped(c: Config, outs: seq<Event>, e: Event)
    requires Tripped(c, outs) && !ClosesAt(c, outs + [e], |outs|)
    ensures Tripped(c, outs + [e])
  {
    var i: nat :| TripsAt(c, outs, i) && forall j :: i < j < |outs| ==> !ClosesAt(c, outs, j);
    AtEarlier(c, outs, e, i);
    forall j | i < j < |outs + [e]| ensures !ClosesAt(c, outs + [e], j) {
      if j < |outs| {
        AtEarlier(c, outs, e, j);
      }
    }
  }

  lemma WasTripped(c: Config, outs: seq<Event>, e: Event)
    requires Tripped(c, outs + [e]) && !TripsAt(c, outs + [e], |outs|)
    ensures Tripped(c, outs) && !ClosesAt(c, outs + [e], |outs|)
  {
    var i: nat :| TripsAt(c, outs + [e], i) && forall j :: i < j < |outs + [e]| ==> !ClosesAt(c, outs + [e], j);
    AtEarlier(c, outs, e, i);
    forall j | i < j < |outs| ensures !ClosesAt(c, outs, j) {
      AtEarlier(c, outs, e, j);
    }
  }

  lemma {:induction false} OpenIffTripped(c: Config, events: seq<Event>)
    requires c.Positive()
    ensures Run(c, events).breaker.open <==> Tripped(c, Outcomes(c, events))
  {
    if events != [] {
      var init, e := events[..|events| - 1], events[|events| - 1];
      OpenIffTripped(c, init);
      RunExplained(c, init);
      var outs := Outcomes(c, init);
      if Enabled(Run(c, init), e) && (e.IsSuccess() || e.IsFailure()) {
        RecordExplained(c, Run(c, init).breaker, outs, e);
        TrippedSnoc(c, outs, e);
        assert (outs + [e])[..|outs|] == outs;
      } else {
        assert outs + [] == outs;
      }
    }
  }

  ghost predicate ProbeIsOut(calls: seq<Phase>) {
    exists i :: 0 <= i < |calls| && HoldsProbe(calls[i])
  }

  /** In every run: a call is let through as an ordinary one exactly while the breaker is not tripped,
      as the probe exactly when it is, the recovery timeout has passed since the last failure and no
      probe is out, and refused otherwise.  The calls before it are untouched. */
  lemma AdmissionMeaning(c: Config, events: seq<Event>, now: real)
    requires c.Positive()
    ensures var outs, calls := Outcomes(c, events), Run(c, events).calls;
            && (Tripped(c, outs) ==> LastFailure(outs).Some?)
            && Run(c, events + [Check(now)]).calls == calls +
               [if !Tripped(c, outs) then Running(false)
                else if now - LastFailure(outs).value >= c.recoveryTimeout && !ProbeIsOut(calls) then Running(true)
                else Rejected]
  {
    var more := events + [Check(now)];
    assert more[..|more| - 1] == events && more[|more| - 1] == Check(now);
    RunExplained(c, events);
    OpenIffTripped(c, events);
    OneProbeAtATime(c, events);
  }

  // ---- The mutable breaker ----

  class AccountBreaker {
    const config: Config
    var open: bool
    var failureCount: nat
    var successCount: nat
    var lastFailureTime: Option<real>
    var halfOpenProbeInFlight: bool

    function View(): Breaker
      reads this
    {
      Breaker(open, failureCount, successCount, lastFailureTime, halfOpenProbeInFlight)
    }

    constructor (config: Config)
      ensures View() == NewBreaker && this.config == config
    {
      this.config := config;
      open, failureCount, successCount, lastFailureTime, halfOpenProbeInFlight := false, 0, 0, None, false;
    }

    function State(now: real): CircuitState
      reads this
    {
      if open && lastFailureTime.Some? && now - lastFailureTime.value >= config.recoveryTimeout then HalfOpen
      else if open then Open else Closed
    }

    /** Whether the call is let through, and then whether as the probe; a refused call raises. */
    method PreCallCheck(now: real) returns (phase: Phase)
      modifies this
      ensures forall calls :: System(View(), calls + [phase]) == AfterCheck(config, System(old(View()), calls), now)
    {
      var current := State(now);
      if current == Open {
        return Rejected;
      }
      if current == HalfOpen {
        if halfOpenProbeInFlight {
          return Rejected;
        }
        halfOpenProbeInFlight := true;
        return Running(true);
      }
      phase := Running(false);
    }

    method ReleaseHalfOpenProbe()
      modifies this
      ensures View() == old(View()).(probeInFlight := false)
    {
      halfOpenProbeInFlight := false;
    }

    /** The state is read twice, each time with its own reading of the clock. */
    method RecordSuccess(now: real, later: real)
      modifies this
      ensures View() == old(View()).RecordSuccess(config, now)
    {
      if State(now) == HalfOpen {
        successCount := successCount + 1;
        if successCount >= config.successThreshold {
          open := false;
          failureCount := 0;
          successCount := 0;
        }
      } else if State(later) == Closed {
        if failureCount > 0 {
          failureCount := 0;
        }
      }
    }

    method RecordFailure(e: Exc, now: real)
      modifies this
      ensures View() == AfterRecord(config, old(View()), FailureVerdict(e), now)
    {
      if !IsServerError(e) {
        return;
      }
      failureCount := failureCount + 1;
      lastFailureTime := Some(now);
      successCount := 0;
      if failureCount >= config.failureThreshold {
        open := true;
      }
    }
  }
}

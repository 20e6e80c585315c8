/**
 * The two callers that take a call through the breaker: `call`
 * (app/core/resilience/circuit_breaker.py) and `_service_circuit_breaker_context`
 * (app/core/clients/proxy.py).  Each is its own control flow over the shared breaker, with whatever
 * other tasks do at the points where it waits, and is proved to be the steps of one call: a check,
 * one record of what the outcome says, and the release.
 */
module BreakerCallers {
  import opened Wrappers
  import opened CircuitBreaker

  // ---- Runs from any state, and steps of other calls ----

  function RunFrom(c: Config, s: System, events: seq<Event>): System
    decreases |events|
  {
    if events == [] then s else RunFrom(c, Next(c, s, events[0]), events[1..])
  }

  lemma {:induction false} RunFromConcat(c: Config, s: System, xs: seq<Event>, ys: seq<Event>)
    ensures RunFrom(c, s, xs + ys) == RunFrom(c, RunFrom(c, s, xs), ys)
    decreases |xs|
  {
    if xs == [] {
      assert xs + ys == ys;
    } else {
      assert (xs + ys)[0] == xs[0] && (xs + ys)[1..] == xs[1..] + ys;
      RunFromConcat(c, Next(c, s, xs[0]), xs[1..], ys);
    }
  }

  /** Run from the start, it is the run of `CircuitBreaker`. */
  lemma {:induction false} RunFromStart(c: Config, events: seq<Event>)
    ensures RunFrom(c, System(NewBreaker, []), events) == Run(c, events)
  {
    if events != [] {
      var init, e := events[..|events| - 1], events[|events| - 1];
      assert events == init + [e];
      RunFromConcat(c, System(NewBreaker, []), init, [e]);
      RunFromStart(c, init);
      assert [e][1..] == [];
    }
  }

  /** `e` records or releases call `k`. */
  predicate StepOf(e: Event, k: nat) {
    (e.Record? || e.Finish?) && e.call == k
  }

  ghost predicate Elsewhere(events: seq<Event>, k: nat) {
    forall i :: 0 <= i < |events| ==> !StepOf(events[i], k)
  }

  lemma {:induction false} PhaseUntouched(c: Config, s: System, events: seq<Event>, k: nat)
    requires k < |s.calls| && Elsewhere(events, k)
    ensures k < |RunFrom(c, s, events).calls| && RunFrom(c, s, events).calls[k] == s.calls[k]
    decreases |events|
  {
    if events != [] {
      assert !StepOf(events[0], k);
      PhaseUntouched(c, Next(c, s, events[0]), events[1..], k);
    }
  }

  lemma {:induction false} ExclusiveKept(c: Config, s: System, events: seq<Event>)
    requires ProbeExclusive(s)
    ensures ProbeExclusive(RunFrom(c, s, events))
    decreases |events|
  {
    if events != [] {
      ProbeExclusiveKept(c, s, events[0]);
      ExclusiveKept(c, Next(c, s, events[0]), events[1..]);
    }
  }

  // ---- One call ----

  /** The phase of the call that checks in state `s`. */
  function Admission(c: Config, s: System, now: real): Phase {
    var after := Next(c, s, Check(now));
    after.calls[|s.calls|]
  }

  /** What one call does, among the steps of others: refused at the check it does nothing more;
      let through it records `verdict` once and releases once, however it ends. */
  function CallSteps(c: Config, s: System, checked: real, during: seq<Event>, verdict: Verdict, recorded: real,
                     after: seq<Event>): seq<Event> {
    var k := |s.calls|;
    if Admission(c, s, checked).Rejected? then [Check(checked)]
    else [Check(checked)] + during + [Record(k, verdict, recorded)] + after + [Finish(k)]
  }

  /** How often a step of call `k` took the flag from set to clear. */
  function Releases(c: Config, s: System, events: seq<Event>, k: nat): nat
    decreases |events|
  {
    if events == [] then 0
    else
      var next := Next(c, s, events[0]);
      Releases(c, next, events[1..], k) +
      if StepOf(events[0], k) && s.breaker.probeInFlight && !next.breaker.probeInFlight then 1 else 0
  }

  lemma {:induction false} ReleasesConcat(c: Config, s: System, xs: seq<Event>, ys: seq<Event>, k: nat)
    ensures Releases(c, s, xs + ys, k) == Releases(c, s, xs, k) + Releases(c, RunFrom(c, s, xs), ys, k)
    decreases |xs|
  {
    if xs == [] {
      assert xs + ys == ys;
    } else {
      assert (xs + ys)[0] == xs[0] && (xs + ys)[1..] == xs[1..] + ys;
      ReleasesConcat(c, Next(c, s, xs[0]), xs[1..], ys, k);
    }
  }

  lemma {:induction false} OthersReleaseNothing(c: Config, s: System, events: seq<Event>, k: nat)
    requires Elsewhere(events, k)
    ensures Releases(c, s, events, k) == 0
    decreases |events|
  {
    if events != [] {
      assert !StepOf(events[0], k);
      OthersReleaseNothing(c, Next(c, s, events[0]), events[1..], k);
    }
  }

  /** One step, as a run of one event. */
  lemma SingleStep(c: Config, s: System, e: Event, k: nat)
    ensures RunFrom(c, s, [e]) == Next(c, s, e)
    ensures Releases(c, s, [e], k) ==
            if StepOf(e, k) && s.breaker.probeInFlight && !Next(c, s, e).breaker.probeInFlight then 1 else 0
  {
    assert [e][1..] == [];
  }

  /** The steps of one call from its check on, state by state. */
  lemma CallStates(c: Config, s: System, checked: real, during: seq<Event>, verdict: Verdict, recorded: real,
                   after: seq<Event>)
    returns (s1: System, s2: System, s3: System, s4: System, s5: System)
    requires Admission(c, s, checked).Running? && Elsewhere(during, |s.calls|) && Elsewhere(after, |s.calls|)
    ensures s1 == Next(c, s, Check(checked)) && s2 == RunFrom(c, s1, during)
    ensures s3 == Next(c, s2, Record(|s.calls|, verdict, recorded)) && s4 == RunFrom(c, s3, after)
    ensures s5 == Next(c, s4, Finish(|s.calls|)) == RunFrom(c, s, CallSteps(c, s, checked, during, verdict, recorded, after))
    ensures |s.calls| < |s2.calls| && s2.calls[|s.calls|] == Admission(c, s, checked)
    ensures |s.calls| < |s4.calls| && s4.calls[|s.calls|] == Recorded(Admission(c, s, checked).probe)
    ensures Releases(c, s, CallSteps(c, s, checked, during, verdict, recorded, after), |s.calls|) ==
            if s4.breaker.probeInFlight && !s5.breaker.probeInFlight then 1 else 0
  {
    var k := |s.calls|;
    s1 := Next(c, s, Check(checked));
    s2 := RunFrom(c, s1, during);
    PhaseUntouched(c, s1, during, k);
    s3 := Next(c, s2, Record(k, verdict, recorded));
    s4 := RunFrom(c, s3, after);
    PhaseUntouched(c, s3, after, k);
    s5 := Next(c, s4, Finish(k));
    var x1, x3 := [Check(checked)], [Record(k, verdict, recorded)];
    RunFromConcat(c, s, x1, during);
    RunFromConcat(c, s, x1 + during, x3);
    RunFromConcat(c, s, x1 + during + x3, after);
    RunFromConcat(c, s, x1 + during + x3 + after, [Finish(k)]);
    ReleasesConcat(c, s, x1, during, k);
    ReleasesConcat(c, s, x1 + during, x3, k);
    ReleasesConcat(c, s, x1 + during + x3, after, k);
    ReleasesConcat(c, s, x1 + during + x3 + after, [Finish(k)], k);
    SingleStep(c, s, Check(checked), k);
    SingleStep(c, s2, Record(k, verdict, recorded), k);
    SingleStep(c, s4, Finish(k), k);
    OthersReleaseNothing(c, s1, during, k);
    OthersReleaseNothing(c, s3, after, k);
    assert s3.breaker.probeInFlight == s2.breaker.probeInFlight;
  }

  /** Releases and ending of a call let through, as `probe` or not. */
  lemma AdmittedCallReleases(c: Config, s: System, checked: real, during: seq<Event>, verdict: Verdict, recorded: real,
                             after: seq<Event>)
    requires ProbeExclusive(s) && Elsewhere(during, |s.calls|) && Elsewhere(after, |s.calls|)
    requires Admission(c, s, checked).Running?
    ensures var steps := CallSteps(c, s, checked, during, verdict, recorded, after); var k := |s.calls|;
            var probe := Admission(c, s, checked).probe; var end := RunFrom(c, s, steps);
            && Releases(c, s, steps, k) == (if probe then 1 else 0)
            && k < |end.calls| && end.calls[k] == Released(probe)
            && (probe ==> !end.breaker.probeInFlight)
  {
    var k := |s.calls|;
    var s1, s2, s3, s4, s5 := CallStates(c, s, checked, during, verdict, recorded, after);
    ProbeExclusiveKept(c, s, Check(checked));
    ExclusiveKept(c, s1, during);
    ProbeExclusiveKept(c, s2, Record(k, verdict, recorded));
    ExclusiveKept(c, s3, after);
    if Admission(c, s, checked).probe {
      assert HoldsProbe(s4.calls[k]);
    }
  }

  /** In every run, whatever other calls do meanwhile and however the call ends, it takes the flag from
      set to clear exactly once if it was let through as the probe, and never otherwise.  So nobody
      else clears or takes the flag of a probe that is out. */
  lemma ReleasedExactlyOnceIfProbe(c: Config, before: seq<Event>, checked: real, during: seq<Event>, verdict: Verdict,
                                   recorded: real, after: seq<Event>)
    requires var k := |Run(c, before).calls|; Elsewhere(during, k) && Elsewhere(after, k)
    ensures var s := Run(c, before); var k := |s.calls|; var phase := Admission(c, s, checked);
            var steps := CallSteps(c, s, checked, during, verdict, recorded, after); var end := Run(c, before + steps);
            && Releases(c, s, steps, k) == (if phase.Running? && phase.probe then 1 else 0)
            && k < |end.calls| && end.calls[k] == (if phase.Running? then Released(phase.probe) else Rejected)
            && (phase.Running? && phase.probe ==> !end.breaker.probeInFlight)
  {
    var s := Run(c, before);
    var steps := CallSteps(c, s, checked, during, verdict, recorded, after);
    OneProbeAtATime(c, before);
    RunFromStart(c, before);
    RunFromStart(c, before + steps);
    RunFromConcat(c, System(NewBreaker, []), before, steps);
    if Admission(c, s, checked).Rejected? {
      SingleStep(c, s, Check(checked), |s.calls|);
    } else {
      AdmittedCallReleases(c, s, checked, during, verdict, recorded, after);
    }
  }

  // ---- From what calls end with to who is refused ----

  /** An error that says the upstream is in trouble: a status of 500 or above, or no status at all. */
  predicate ServerSide(e: Exc) {
    match e
    case ResponseError(status) => 500 <= status
    case WithStatus(status) => 500 <= status
    case Timeout => true
    case OtherError => true
    case BreakerOpen => true
    case Cancelled => false
  }

  /** `call` counts a call against the account exactly for a server-side error, and for it exactly when
      it returned. */
  lemma CallCounts(raised: Option<Exc>)
    ensures CallVerdict(raised).RecordsFailure? <==> raised.Some? && ServerSide(raised.value)
    ensures CallVerdict(raised).RecordsSuccess? <==> raised.None?
  {
  }

  /** The service context counts a call against the account exactly when it ended without exception on a
      response of 500 or above, or in a server-side error that is not a nested refusal; and for it exactly
      when it ended without exception otherwise, or in a client-side error after a response below 500. */
  lemma ContextCounts(status: Option<int>, raised: Option<Exc>)
    ensures ContextVerdict(status, raised).RecordsFailure? <==>
            match raised
            case None => status.Some? && 500 <= status.value
            case Some(e) => ServerSide(e) && e != BreakerOpen
    ensures ContextVerdict(status, raised).RecordsSuccess? <==>
            match raised
            case None => !(status.Some? && 500 <= status.value)
            case Some(e) => status.Some? && !(500 <= status.value) && e != Cancelled && !ServerSide(e)
  {
  }

  /** Calls one after the other, all at time `t`, with these verdicts. */
  function OneByOne(verdicts: seq<Verdict>, t: real): seq<Event> {
    if verdicts == [] then []
    else
      var k := |verdicts| - 1;
      OneByOne(verdicts[..k], t) + [Check(t)] + [Record(k, verdicts[k], t)] + [Finish(k)]
  }

  lemma RunSnoc(c: Config, events: seq<Event>, e: Event)
    ensures Run(c, events + [e]) == Next(c, Run(c, events), e)
  {
    var all := events + [e];
    assert all[..|all| - 1] == events && all[|all| - 1] == e;
  }

  lemma OneMoreCall(c: Config, verdicts: seq<Verdict>, t: real)
    requires verdicts != [] && |Run(c, OneByOne(verdicts[..|verdicts| - 1], t)).calls| == |verdicts| - 1
    requires !Run(c, OneByOne(verdicts[..|verdicts| - 1], t)).breaker.open
    ensures var s, after := Run(c, OneByOne(verdicts[..|verdicts| - 1], t)), Run(c, OneByOne(verdicts, t));
            |after.calls| == |verdicts| && after.breaker == AfterRecord(c, s.breaker, verdicts[|verdicts| - 1], t)
  {
    var k := |verdicts| - 1;
    var before := OneByOne(verdicts[..k], t);
    RunSnoc(c, before, Check(t));
    RunSnoc(c, before + [Check(t)], Record(k, verdicts[k], t));
    RunSnoc(c, before + [Check(t)] + [Record(k, verdicts[k], t)], Finish(k));
  }

  lemma {:induction false} FailuresInARow(c: Config, verdicts: seq<Verdict>, t: real)
    requires c.Positive() && |verdicts| <= c.failureThreshold
    requires forall i :: 0 <= i < |verdicts| ==> verdicts[i].RecordsFailure?
    ensures var s := Run(c, OneByOne(verdicts, t)); var n := |verdicts|;
            |s.calls| == n && s.breaker == Breaker(n == c.failureThreshold, n, 0, if n == 0 then None else Some(t), false)
  {
    if verdicts != [] {
      FailuresInARow(c, verdicts[..|verdicts| - 1], t);
      OneMoreCall(c, verdicts, t);
    }
  }

  lemma {:induction false} NoFailures(c: Config, verdicts: seq<Verdict>, t: real)
    requires forall i :: 0 <= i < |verdicts| ==> !verdicts[i].RecordsFailure?
    ensures var s := Run(c, OneByOne(verdicts, t)); |s.calls| == |verdicts| && s.breaker == NewBreaker
  {
    if verdicts != [] {
      NoFailures(c, verdicts[..|verdicts| - 1], t);
      OneMoreCall(c, verdicts, t);
    }
  }

  function Verdicts(outcomes: seq<Option<Exc>>): (r: seq<Verdict>)
    ensures |r| == |outcomes| && forall i :: 0 <= i < |r| ==> r[i] == CallVerdict(outcomes[i])
  {
    seq(|outcomes|, i requires 0 <= i < |outcomes| => CallVerdict(outcomes[i]))
  }

  /** As many server-side errors in a row as the threshold, and the next call is refused until the recovery
      timeout has passed; fewer, or any number of calls that return, are cancelled or end in client-side
      errors, and it is let through. */
  lemma OnlyServerErrorsTrip(c: Config, outcomes: seq<Option<Exc>>, t: real, now: real)
    requires c.Positive()
    ensures var failing := forall i :: 0 <= i < |outcomes| ==> outcomes[i].Some? && ServerSide(outcomes[i].value);
            var harmless := forall i :: 0 <= i < |outcomes| ==> outcomes[i].None? || !ServerSide(outcomes[i].value);
            var next := Admission(c, Run(c, OneByOne(Verdicts(outcomes), t)), now);
            && (failing && |outcomes| == c.failureThreshold && now - t < c.recoveryTimeout ==> next.Rejected?)
            && (failing && |outcomes| < c.failureThreshold ==> next == Running(false))
            && (harmless ==> next == Running(false))
  {
    forall i | 0 <= i < |outcomes|
      ensures Verdicts(outcomes)[i].RecordsFailure? <==> outcomes[i].Some? && ServerSide(outcomes[i].value)
    {
      CallCounts(outcomes[i]);
    }
    if (forall i :: 0 <= i < |outcomes| ==> outcomes[i].Some? && ServerSide(outcomes[i].value)) && |outcomes| <= c.failureThreshold {
      FailuresInARow(c, Verdicts(outcomes), t);
    }
    if forall i :: 0 <= i < |outcomes| ==> outcomes[i].None? || !ServerSide(outcomes[i].value) {
      NoFailures(c, Verdicts(outcomes), t);
    }
  }

  /** How a service context ended. */
  datatype Ending = Ending(status: Option<int>, raised: Option<Exc>)

  predicate Harmful(e: Ending) {
    match e.raised
    case None => e.status.Some? && 500 <= e.status.value
    case Some(exc) => ServerSide(exc) && exc != BreakerOpen
  }

  function ContextVerdicts(endings: seq<Ending>): (r: seq<Verdict>)
    ensures |r| == |endings| && forall i :: 0 <= i < |r| ==> r[i] == ContextVerdict(endings[i].status, endings[i].raised)
  {
    seq(|endings|, i requires 0 <= i < |endings| => ContextVerdict(endings[i].status, endings[i].raised))
  }

  /** The same for service contexts: harmful are a response of 500 or above and a server-side error. */
  lemma OnlyHarmfulEndingsTrip(c: Config, endings: seq<Ending>, t: real, now: real)
    requires c.Positive()
    ensures var failing := forall i :: 0 <= i < |endings| ==> Harmful(endings[i]);
            var harmless := forall i :: 0 <= i < |endings| ==> !Harmful(endings[i]);
            var next := Admission(c, Run(c, OneByOne(ContextVerdicts(endings), t)), now);
            && (failing && |endings| == c.failureThreshold && now - t < c.recoveryTimeout ==> next.Rejected?)
            && (failing && |endings| < c.failureThreshold ==> next == Running(false))
            && (harmless ==> next == Running(false))
  {
    forall i | 0 <= i < |endings| ensures ContextVerdicts(endings)[i].RecordsFailure? <==> Harmful(endings[i]) {
      ContextCounts(endings[i].status, endings[i].raised);
    }
    if (forall i :: 0 <= i < |endings| ==> Harmful(endings[i])) && |endings| <= c.failureThreshold {
      FailuresInARow(c, ContextVerdicts(endings), t);
    }
    if forall i :: 0 <= i < |endings| ==> !Harmful(endings[i]) {
      NoFailures(c, ContextVerdicts(endings), t);
    }
  }

  // ---- The callers ----

  datatype Exit = Returns | Raises(exc: Exc)

  predicate IsException(e: Exc) {
    !e.Cancelled?
  }

  /** The breaker of one account; `calls` is how far each call that came to it is, with its `is_probe`. */
  class ProtectedCalls {
    const breaker: AccountBreaker
    var calls: seq<Phase>

    function View(): System
      reads this, breaker
    {
      System(breaker.View(), calls)
    }

    constructor (breaker: AccountBreaker)
      ensures this.breaker == breaker && calls == []
    {
      this.breaker, calls := breaker, [];
    }

    /** One step of some other task. */
    method Step(e: Event)
      modifies this, breaker
      ensures View() == Next(breaker.config, old(View()), e)
    {
      match e
      case Check(now) =>
        var phase := breaker.PreCallCheck(now);
        calls := calls + [phase];
      case Record(k, verdict, now) =>
        if k < |calls| && calls[k].Running? {
          match verdict {
            case RecordsSuccess => breaker.RecordSuccess(now, now);
            case RecordsFailure => breaker.RecordFailure(OtherError, now);
            case RecordsNothing =>
          }
          calls := calls[k := Recorded(calls[k].probe)];
        }
      case Finish(k) =>
        if k < |calls| && calls[k].Recorded? {
          if calls[k].probe {
            breaker.ReleaseHalfOpenProbe();
          }
          calls := calls[k := Released(calls[k].probe)];
        }
    }

    /** Other tasks run while this one waits. */
    method Await(events: seq<Event>)
      modifies this, breaker
      ensures View() == RunFrom(breaker.config, old(View()), events)
    {
      var i := 0;
      while i < |events|
        invariant 0 <= i <= |events|
        invariant RunFrom(breaker.config, View(), events[i..]) == RunFrom(breaker.config, old(View()), events)
      {
        assert events[i..][1..] == events[i + 1..];
        Step(events[i]);
        i := i + 1;
      }
    }

    /** `pre_call_check`, which raises for a rejected call. */
    method PreCallCheck(now: real) returns (phase: Phase)
      modifies this, breaker
      ensures View() == Next(breaker.config, old(View()), Check(now))
      ensures phase == Admission(breaker.config, old(View()), now)
    {
      phase := breaker.PreCallCheck(now);
      calls := calls + [phase];
    }

    /** The `finally` part. */
    method Finally(k: nat, isProbe: bool)
      requires k < |calls| && calls[k] == Recorded(isProbe)
      modifies this, breaker
      ensures View() == Next(breaker.config, old(View()), Finish(k))
    {
      if isProbe {
        breaker.ReleaseHalfOpenProbe();
      }
      calls := calls[k := Released(isProbe)];
    }

    /** The part of `call` between the end of the coroutine and the `finally` part. */
    method RecordCall(exit: Exit, now: real, later: real)
      modifies breaker
      ensures var raised := if exit.Returns? then None else Some(exit.exc);
              breaker.View() == AfterRecord(breaker.config, old(breaker.View()), CallVerdict(raised), now)
    {
      if exit.Returns? {
        breaker.RecordSuccess(now, later);
      } else if IsException(exit.exc) {
        breaker.RecordFailure(exit.exc, now);
      }
    }

    /** The same part of the service context, with the branches of its two handlers. */
    method RecordContext(status: Option<int>, exit: Exit, now: real, later: real)
      modifies breaker
      ensures var raised := if exit.Returns? then None else Some(exit.exc);
              breaker.View() == AfterRecord(breaker.config, old(breaker.View()), ContextVerdict(status, raised), now)
    {
      if exit.Returns? {
        if status.Some? && status.value >= 500 {
          breaker.RecordFailure(OtherError, now);
        } else {
          breaker.RecordSuccess(now, later);
        }
      } else if !exit.exc.BreakerOpen? && IsException(exit.exc) {
        if status.Some? && status.value < 500 && !IsServerError(exit.exc) {
          breaker.RecordSuccess(now, later);
        } else {
          breaker.RecordFailure(exit.exc, now);
        }
      }
    }

    /** `call`: the coroutine ends as `raised` says. */
    method Call(raised: Option<Exc>, checked: real, during: seq<Event>, recorded: real, later: real, after: seq<Event>)
      returns (exit: Exit, started: bool)
      requires Elsewhere(during, |calls|) && Elsewhere(after, |calls|)
      modifies this, breaker
      ensures View() == RunFrom(breaker.config, old(View()),
                                CallSteps(breaker.config, old(View()), checked, during, CallVerdict(raised), recorded, after))
      ensures started <==> Admission(breaker.config, old(View()), checked).Running?
      ensures exit == if !started then Raises(BreakerOpen) else if raised.None? then Returns else Raises(raised.value)
    {
      var k := |calls|;
      var phase := PreCallCheck(checked);
      if phase.Rejected? {
        SingleStep(breaker.config, old(View()), Check(checked), k);
        return Raises(BreakerOpen), false;
      }
      ghost var s1, s2, s3, s4, s5 :=
        CallStates(breaker.config, old(View()), checked, during, CallVerdict(raised), recorded, after);
      Await(during);
      exit, started := if raised.None? then Returns else Raises(raised.value), true;
      RecordCall(exit, recorded, later);
      calls := calls[k := Recorded(phase.probe)];
      assert View() == s3;
      Await(after);
      Finally(k, phase.probe);
    }

    /** The service context: entering the response's own context, the work done with it and leaving it
        end with a response of `status`, if there was one, and as `raised` says.  Without a breaker
        for the account it is the work alone. */
    method ServiceContext(guarded: bool, status: Option<int>, raised: Option<Exc>, checked: real, during: seq<Event>,
                          recorded: real, later: real, after: seq<Event>)
      returns (exit: Exit, started: bool)
      requires Elsewhere(during, |calls|) && Elsewhere(after, |calls|)
      modifies this, breaker
      ensures View() == RunFrom(breaker.config, old(View()),
                                if !guarded then during
                                else CallSteps(breaker.config, old(View()), checked, during, ContextVerdict(status, raised),
                                               recorded, after))
      ensures started <==> !guarded || Admission(breaker.config, old(View()), checked).Running?
      ensures exit == if !started then Raises(BreakerOpen) else if raised.None? then Returns else Raises(raised.value)
    {
      exit, started := if raised.None? then Returns else Raises(raised.value), true;
      if !guarded {
        Await(during);
        return;
      }
      var k := |calls|;
      var phase := PreCallCheck(checked);
      if phase.Rejected? {
        SingleStep(breaker.config, old(View()), Check(checked), k);
        return Raises(BreakerOpen), false;
      }
      ghost var s1, s2, s3, s4, s5 :=
        CallStates(breaker.config, old(View()), checked, during, ContextVerdict(status, raised), recorded, after);
      Await(during);
      RecordContext(status, exit, recorded, later);
      calls := calls[k := Recorded(phase.probe)];
      assert View() == s3;
      Await(after);
      Finally(k, phase.probe);
    }
  }
}

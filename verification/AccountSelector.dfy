/** `select_account` and the limit handlers over mutable account states (app/core/balancer/logic.py). */
module AccountSelector {
  import opened Basics
  import opened Wrappers
  import opened LexOrder
  import opened AccountSelection
  import opened SelectionMeaning

  class AccountState {
    const accountId: string
    var status: Status
    var usedPercent: Option<real>
    var resetAt: Option<real>
    var blockedAt: Option<real>
    var cooldownUntil: Option<real>
    var secondaryUsedPercent: Option<real>
    var secondaryResetAt: Option<int>
    var lastErrorAt: Option<real>
    var lastSelectedAt: Option<real>
    var errorCount: int
    var planType: Option<string>
    var capacityCredits: Option<real>
    var healthTier: int

    function View(): Account
      reads this
    {
      Account(accountId, status, usedPercent, resetAt, blockedAt, cooldownUntil, secondaryUsedPercent,
              secondaryResetAt, lastErrorAt, lastSelectedAt, errorCount, planType, capacityCredits, healthTier)
    }

    constructor (a: Account)
      ensures View() == a
    {
      accountId, status, usedPercent, resetAt, blockedAt := a.id, a.status, a.usedPercent, a.resetAt, a.blockedAt;
      cooldownUntil, secondaryUsedPercent, secondaryResetAt := a.cooldownUntil, a.secondaryUsedPercent, a.secondaryResetAt;
      lastErrorAt, lastSelectedAt, errorCount := a.lastErrorAt, a.lastSelectedAt, a.errorCount;
      planType, capacityCredits, healthTier := a.planType, a.capacityCredits, a.healthTier;
    }

    /** Lift a limit whose reset has come; false when the account stays blocked. */
    method LiftLimit(now: real) returns (active: bool)
      modifies this
      ensures View() == Lifted(old(View()), now) && active == (status == Active)
    {
      if status == Deactivated || status == Paused {
        return false;
      }
      if status == RateLimited {
        if resetAt.Some? && resetAt.value != 0.0 && now >= resetAt.value {
          status, errorCount, resetAt := Active, 0, None;
        } else {
          return false;
        }
      }
      if status == QuotaExceeded {
        if resetAt.Some? && resetAt.value != 0.0 && now >= resetAt.value {
          status, usedPercent, resetAt := Active, Some(0.0), None;
        } else {
          return false;
        }
      }
      active := true;
    }

    /** Forget errors once their backoff is over; true while it lasts. */
    method ForgiveErrors(now: real) returns (backingOff: bool)
      modifies this
      ensures View() == Forgiven(old(View()), now) && backingOff == BackingOff(old(View()), now)
    {
      if errorCount >= 3 {
        var backoff := BackoffSeconds(errorCount);
        if lastErrorAt.Some? && lastErrorAt.value != 0.0 && now - lastErrorAt.value < backoff {
          return true;
        }
        errorCount, lastErrorAt := 0, None;
      }
      backingOff := false;
    }

    /** The body of the filtering loop: lift what has expired and say where the account stands. */
    method Refresh(now: real) returns (verdict: Verdict)
      modifies this
      ensures View() == Recovered(old(View()), now) && verdict == Classify(old(View()), now)
    {
      var active := LiftLimit(now);
      if !active {
        return Skipped;
      }
      if cooldownUntil.Some? && cooldownUntil.value != 0.0 && now >= cooldownUntil.value {
        cooldownUntil, lastErrorAt, errorCount := None, None, 0;
      }
      assert View() == Thawed(Lifted(old(View()), now), now);
      if cooldownUntil.Some? && cooldownUntil.value != 0.0 && now < cooldownUntil.value {
        return Skipped;
      }
      var backingOff := ForgiveErrors(now);
      verdict := if backingOff then Backoff else Available;
    }

    /** `now`, `later` and `latest` are three readings of the clock. */
    method HandleQuotaExceeded(resets: Option<int>, now: real, later: real, latest: real)
      modifies this
      ensures status == QuotaExceeded && cooldownUntil == Some(later + 120.0)
      ensures resetAt == Some(if resets.Some? then resets.value as real else Truncated(latest + 3600.0) as real)
      ensures View() == old(View()).(status := QuotaExceeded, usedPercent := Some(100.0), blockedAt := Some(now),
                                     cooldownUntil := cooldownUntil, resetAt := resetAt)
    {
      status := QuotaExceeded;
      usedPercent := Some(100.0);
      blockedAt := Some(now);
      cooldownUntil := Some(later + 120.0);
      resetAt := Some(if resets.Some? then resets.value as real else Truncated(latest + 3600.0) as real);
    }

    /** `delay` is what the message asks for, or the jittered backoff for the new error count. */
    method HandleRateLimit(resets: Option<int>, delay: real, now: real, later: real, latest: real)
      modifies this
      ensures View() == old(View()).(status := RateLimited, errorCount := old(errorCount) + 1, lastErrorAt := Some(now),
                                     blockedAt := Some(later), cooldownUntil := Some(latest + delay),
                                     resetAt := if resets.Some? then Some(resets.value as real) else old(resetAt))
    {
      status := RateLimited;
      errorCount := errorCount + 1;
      lastErrorAt := Some(now);
      blockedAt := Some(later);
      if resets.Some? {
        resetAt := Some(resets.value as real);
      }
      cooldownUntil := Some(latest + delay);
    }
  }

  // ---- Why nobody can serve ----

  datatype Reason = PausedOrReauthenticate | AllPaused | AllReauthenticate | RetryIn(seconds: real) | NoneAvailable

  /** Seconds until a time, never negative, at most five minutes. */
  function Hint(wait: real): Reason {
    RetryIn(if wait < 0.0 then 0.0 else if wait > 300.0 then 300.0 else wait)
  }

  predicate Any(views: seq<Account>, status: Status) {
    exists i :: 0 <= i < |views| && views[i].status == status
  }

  /** Over quota, with a time when that ends. */
  predicate HasReset(a: Account) {
    a.status.QuotaExceeded? && IsSet(a.resetAt)
  }

  /** Reset times of accounts over quota. */
  function QuotaResets(views: seq<Account>): seq<real> {
    if views == [] then []
    else
      var a := views[|views| - 1];
      QuotaResets(views[..|views| - 1]) + if HasReset(a) then [a.resetAt.value] else []
  }

  function Cooldowns(views: seq<Account>, now: real): seq<real> {
    if views == [] then []
    else
      var a := views[|views| - 1];
      Cooldowns(views[..|views| - 1], now) +
      if IsSet(a.cooldownUntil) && a.cooldownUntil.value > now then [a.cooldownUntil.value] else []
  }

  function Earliest(times: seq<real>): (t: real)
    requires times != []
    ensures t in times && forall x :: x in times ==> t <= x
  {
    var n := |times| - 1;
    assert times == times[..n] + [times[n]];
    if n == 0 then times[0]
    else
      var t := Earliest(times[..n]);
      if times[n] < t then times[n] else t
  }

  function ReasonFor(views: seq<Account>, now: real): Reason {
    var limited := Any(views, RateLimited) || Any(views, QuotaExceeded);
    if Any(views, Paused) && Any(views, Deactivated) && !limited then PausedOrReauthenticate
    else if Any(views, Paused) && !limited then AllPaused
    else if Any(views, Deactivated) && !limited then AllReauthenticate
    else if QuotaResets(views) != [] then Hint(Earliest(QuotaResets(views)) - Truncated(now) as real)
    else if Cooldowns(views, now) != [] then Hint(Earliest(Cooldowns(views, now)) - now)
    else NoneAvailable
  }

  lemma {:induction false} QuotaResetsAre(views: seq<Account>, t: real)
    ensures t in QuotaResets(views) <==> exists i :: 0 <= i < |views| && HasReset(views[i]) && views[i].resetAt.value == t
  {
    if views != [] {
      QuotaResetsAre(views[..|views| - 1], t);
    }
  }

  lemma {:induction false} CooldownsAre(views: seq<Account>, now: real, t: real)
    ensures t in Cooldowns(views, now) <==>
            exists i :: 0 <= i < |views| && Cooling(views[i], now) && views[i].cooldownUntil.value == t
  {
    if views != [] {
      CooldownsAre(views[..|views| - 1], now, t);
    }
  }

  /** Some account over quota resets at `t`, and none before. */
  ghost predicate EarliestResetAt(views: seq<Account>, t: real) {
    && (exists i :: 0 <= i < |views| && HasReset(views[i]) && views[i].resetAt.value == t)
    && (forall i :: 0 <= i < |views| && HasReset(views[i]) ==> t <= views[i].resetAt.value)
  }

  /** Some account's cooldown ends at `t`, and none before. */
  ghost predicate EarliestCooldownEnd(views: seq<Account>, now: real, t: real) {
    && (exists i :: 0 <= i < |views| && Cooling(views[i], now) && views[i].cooldownUntil.value == t)
    && (forall i :: 0 <= i < |views| && Cooling(views[i], now) ==> t <= views[i].cooldownUntil.value)
  }

  lemma QuotaResetsMeaning(views: seq<Account>)
    ensures QuotaResets(views) != [] <==> exists i :: 0 <= i < |views| && HasReset(views[i])
    ensures QuotaResets(views) != [] ==> EarliestResetAt(views, Earliest(QuotaResets(views)))
  {
    var times := QuotaResets(views);
    forall i | 0 <= i < |views| && HasReset(views[i]) ensures views[i].resetAt.value in times {
      QuotaResetsAre(views, views[i].resetAt.value);
    }
    if times != [] {
      QuotaResetsAre(views, Earliest(times));
    }
  }

  lemma CooldownsMeaning(views: seq<Account>, now: real)
    ensures Cooldowns(views, now) != [] <==> exists i :: 0 <= i < |views| && Cooling(views[i], now)
    ensures Cooldowns(views, now) != [] ==> EarliestCooldownEnd(views, now, Earliest(Cooldowns(views, now)))
  {
    var times := Cooldowns(views, now);
    forall i | 0 <= i < |views| && Cooling(views[i], now) ensures views[i].cooldownUntil.value in times {
      CooldownsAre(views, now, views[i].cooldownUntil.value);
    }
    if times != [] {
      CooldownsAre(views, now, Earliest(times));
    }
  }

  /** The hint is for time `t`: the earliest quota reset, or without one the earliest end of a cooldown. */
  ghost predicate HintsAt(views: seq<Account>, now: real, t: real) {
    if exists i :: 0 <= i < |views| && HasReset(views[i])
    then EarliestResetAt(views, t) && HintsWait(ReasonFor(views, now), t - Truncated(now) as real)
    else EarliestCooldownEnd(views, now, t) && HintsWait(ReasonFor(views, now), t - now)
  }

  /** The wait itself if it is between zero and five minutes, else the nearer of the two. */
  ghost predicate HintsWait(reason: Reason, wait: real) {
    && reason.RetryIn?
    && (wait <= 0.0 ==> reason.seconds == 0.0)
    && (0.0 <= wait <= 300.0 ==> reason.seconds == wait)
    && (wait >= 300.0 ==> reason.seconds == 300.0)
  }

  /** Which message is given when nobody can serve. */
  lemma ReasonMeaning(views: seq<Account>, now: real)
    ensures var limited := exists i :: 0 <= i < |views| && (views[i].status == RateLimited || views[i].status == QuotaExceeded);
            var paused := exists i :: 0 <= i < |views| && views[i].status == Paused;
            var deactivated := exists i :: 0 <= i < |views| && views[i].status == Deactivated;
            var waiting := exists i :: 0 <= i < |views| && (HasReset(views[i]) || Cooling(views[i], now));
            match ReasonFor(views, now)
            case PausedOrReauthenticate => paused && deactivated && !limited
            case AllPaused => paused && !deactivated && !limited
            case AllReauthenticate => !paused && deactivated && !limited
            case RetryIn(_) => waiting && (limited || (!paused && !deactivated))
            case NoneAvailable => !waiting && (limited || (!paused && !deactivated))
  {
    RetryHintMeaning(views, now);
    QuotaResetsMeaning(views);
    CooldownsMeaning(views, now);
  }

  /** A retry hint is given exactly when some account has a quota reset or a cooldown to wait for,
      and nobody is paused or deactivated unless somebody is limited.  It lies between zero and five
      minutes and is, within that, the time to the earliest of them that counts. */
  lemma RetryHintMeaning(views: seq<Account>, now: real)
    ensures ReasonFor(views, now).RetryIn? <==>
            && (Any(views, RateLimited) || Any(views, QuotaExceeded) || !(Any(views, Paused) || Any(views, Deactivated)))
            && exists i :: 0 <= i < |views| && (HasReset(views[i]) || Cooling(views[i], now))
    ensures ReasonFor(views, now).RetryIn? ==>
              0.0 <= ReasonFor(views, now).seconds <= 300.0 && exists t :: HintsAt(views, now, t)
  {
    QuotaResetsMeaning(views);
    CooldownsMeaning(views, now);
    if ReasonFor(views, now).RetryIn? {
      if QuotaResets(views) != [] {
        assert HintsAt(views, now, Earliest(QuotaResets(views)));
      } else {
        assert HintsAt(views, now, Earliest(Cooldowns(views, now)));
      }
    }
  }

  // ---- The selector ----

  function Views(states: seq<AccountState>): (r: seq<Account>)
    reads states
    ensures |r| == |states| && forall i :: 0 <= i < |r| ==> r[i] == states[i].View()
  {
    seq(|states|, i requires 0 <= i < |states| reads states => states[i].View())
  }

  /** The first `k` states have been gone over. */
  ghost predicate GoneOver(states: seq<AccountState>, views: seq<Account>, done: seq<Account>, k: nat)
    requires |views| == |states| == |done| && k <= |states|
    reads states
  {
    forall i :: 0 <= i < |states| ==> states[i].View() == if states[i] in states[..k] then done[i] else views[i]
  }

  /** One state listed several times has one view. */
  ghost predicate OneView(states: seq<AccountState>, views: seq<Account>)
    requires |views| == |states|
  {
    forall i, j :: 0 <= i < |states| && 0 <= j < |states| && states[i] == states[j] ==> views[i] == views[j]
  }

  /** One turn of the loop.  A state listed before has been gone over already; again changes nothing. */
  method RefreshAt(states: seq<AccountState>, k: nat, now: real,
                   ghost views: seq<Account>, ghost done: seq<Account>, ghost verdicts: seq<Verdict>) returns (verdict: Verdict)
    requires k < |states| == |views| == |done| == |verdicts|
    requires OneView(states, views) && OneView(states, done)
    requires done[k] == Recovered(views[k], now) && verdicts[k] == Classify(views[k], now)
    requires GoneOver(states, views, done, k)
    modifies states[k]
    ensures GoneOver(states, views, done, k + 1)
    ensures verdict == verdicts[k]
  {
    RecoveredSettles(views[k], now);
    verdict := states[k].Refresh(now);
    assert states[k].View() == done[k];
    assert states[..k + 1] == states[..k] + [states[k]];
  }

  function Verdicts(views: seq<Account>, now: real): (r: seq<Verdict>)
    ensures |r| == |views| && forall i :: 0 <= i < |r| ==> r[i] == Classify(views[i], now)
  {
    seq(|views|, i requires 0 <= i < |views| => Classify(views[i], now))
  }

  function Positions(verdicts: seq<Verdict>, v: Verdict): seq<nat> {
    if verdicts == [] then []
    else Positions(verdicts[..|verdicts| - 1], v) + if verdicts[|verdicts| - 1] == v then [|verdicts| - 1] else []
  }

  lemma {:induction false} PositionsAreWhere(views: seq<Account>, now: real, v: Verdict)
    ensures Positions(Verdicts(views, now), v) == Where(views, now, v)
  {
    if views != [] {
      var n := |views| - 1;
      assert Verdicts(views, now)[..n] == Verdicts(views[..n], now);
      PositionsAreWhere(views[..n], now, v);
    }
  }

  /** The loop itself, for states with given views, recovered views and verdicts. */
  method RefreshEach(states: seq<AccountState>, now: real,
                     ghost views: seq<Account>, ghost done: seq<Account>, ghost verdicts: seq<Verdict>)
    returns (available: seq<nat>, inBackoff: seq<nat>)
    requires |states| == |views| == |done| == |verdicts|
    requires OneView(states, views) && OneView(states, done)
    requires forall i :: 0 <= i < |states| ==> done[i] == Recovered(views[i], now) && verdicts[i] == Classify(views[i], now)
    requires GoneOver(states, views, done, 0)
    modifies states
    ensures GoneOver(states, views, done, |states|)
    ensures available == Positions(verdicts, Available) && inBackoff == Positions(verdicts, Backoff)
  {
    available, inBackoff := [], [];
    for k := 0 to |states|
      invariant GoneOver(states, views, done, k)
      invariant available == Positions(verdicts[..k], Available) && inBackoff == Positions(verdicts[..k], Backoff)
    {
      assert verdicts[..k + 1][..k] == verdicts[..k];
      var verdict := RefreshAt(states, k, now, views, done, verdicts);
      if verdict == Backoff {
        inBackoff := inBackoff + [k];
      } else if verdict == Available {
        available := available + [k];
      }
    }
    assert verdicts[..|states|] == verdicts;
  }

  /** The filtering loop. */
  method RefreshAll(states: seq<AccountState>, now: real) returns (available: seq<nat>, inBackoff: seq<nat>)
    modifies states
    ensures Views(states) == RecoveredAll(old(Views(states)), now)
    ensures available == Where(old(Views(states)), now, Available)
    ensures inBackoff == Where(old(Views(states)), now, Backoff)
  {
    ghost var views := Views(states);
    ghost var done := RecoveredAll(views, now);
    available, inBackoff := RefreshEach(states, now, views, done, Verdicts(views, now));
    PositionsAreWhere(views, now, Available);
    PositionsAreWhere(views, now, Backoff);
    assert states[..|states|] == states;
    assert Views(states) == done;
  }

  lemma {:induction false} SumPositive(views: seq<Account>, pool: seq<nat>, plans: PlanCredits)
    requires Within(pool, views)
    ensures SumCredits(views, pool, plans) >= 0.0
    ensures SumCredits(views, pool, plans) <= 0.0 <==> Exhausted(views, pool, plans)
  {
    if pool != [] {
      var n := |pool| - 1;
      assert pool == pool[..n] + [pool[n]];
      SumPositive(views, pool[..n], plans);
    }
  }

  function SumCredits(views: seq<Account>, pool: seq<nat>, plans: PlanCredits): real
    requires Within(pool, views)
  {
    if pool == [] then 0.0
    else SumCredits(views, pool[..|pool| - 1], plans) + RemainingCredits(views[pool[|pool| - 1]], plans)
  }

  /** Weighted random choice: any account with credits left. */
  method SelectCapacityWeighted(views: seq<Account>, pool: seq<nat>, now: real, plans: PlanCredits) returns (k: nat)
    requires Within(pool, views) && pool != []
    ensures k in pool
    ensures if Exhausted(views, pool, plans) then k == Least(ByUsage, views, pool, now, plans)
            else RemainingCredits(views[k], plans) > 0.0
  {
    SumPositive(views, pool, plans);
    var total := SumCredits(views, pool, plans);
    if total <= 0.0 {
      return Least(ByUsage, views, pool, now, plans);
    }
    k :| k in pool && RemainingCredits(views[k], plans) > 0.0;
  }

  /** The selection as the pools have it. */
  method SelectFromPools(states: seq<AccountState>, now: real, o: Options, plans: PlanCredits) returns (result: Result<nat, Reason>)
    modifies states
    ensures Views(states) == RecoveredAll(old(Views(states)), now)
    ensures result.Ok? <==> PickPool(old(Views(states)), now, o, plans) != []
    ensures result.Ok? ==> IsSelection(old(Views(states)), now, o, plans, result.value)
    ensures result.Err? ==> result.error == ReasonFor(Views(states), now)
  {
    ghost var before := Views(states);
    PickPoolEmptyIff(before, now, o, plans);
    var available, inBackoff := RefreshAll(states, now);
    var views := Views(states);
    WhereMembers(before, now, Available);
    WhereMembers(before, now, Backoff);
    assert Within(available, views) by { assert forall i :: 0 <= i < |available| ==> available[i] in available; }
    assert Within(inBackoff, views) by { assert forall i :: 0 <= i < |inBackoff| ==> inBackoff[i] in inBackoff; }
    if available == [] {
      if o.allowBackoffFallback && (|inBackoff| > 1 || (inBackoff != [] && AnyHardBlocked(views))) {
        available := [Least(ByBackoffEnd, views, inBackoff, now, plans)];
      } else {
        return Err(ReasonFor(views, now));
      }
    }
    assert available == Candidates(before, now, o.allowBackoffFallback, plans);
    var best := BestTier(views, available);
    var pool := StrategyPool(views, best, now, o);
    assert pool == PickPool(before, now, o, plans);
    match DeterministicKind(o)
    case Some(kind) =>
      result := Ok(Least(kind, views, pool, now, plans));
    case None =>
      var k := SelectCapacityWeighted(views, pool, now, plans);
      result := Ok(k);
  }

  /** Selects an account exactly when there is a candidate, then one that is chosen by the rules, told
      from the accounts as they came in; the states are left as the filtering loop leaves them. */
  method SelectAccount(states: seq<AccountState>, now: real, o: Options, plans: PlanCredits) returns (result: Result<nat, Reason>)
    modifies states
    ensures Views(states) == RecoveredAll(old(Views(states)), now)
    ensures result.Ok? <==> exists k: nat :: Candidate(old(Views(states)), now, o, k)
    ensures result.Ok? ==> Chosen(old(Views(states)), now, o, plans, result.value)
    ensures result.Err? ==> result.error == ReasonFor(Views(states), now)
  {
    ghost var views := Views(states);
    SelectsIffCandidate(views, now, o, plans);
    result := SelectFromPools(states, now, o, plans);
    if result.Ok? {
      SelectedIffChosen(views, now, o, plans, result.value);
    }
  }
}

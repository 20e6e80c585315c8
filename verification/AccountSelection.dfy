/**
 * Choosing an account (app/core/balancer/logic.py, `select_account`): which accounts can serve,
 * which of them are candidates, and which one is picked.  Times are numbers of seconds; a time of
 * zero counts as none, as in the program.
 */
module AccountSelection {
  import opened Wrappers
  import opened LexOrder

  datatype Status = Active | RateLimited | QuotaExceeded | Paused | Deactivated

  datatype Account = Account(
    id: string, status: Status, usedPercent: Option<real>, resetAt: Option<real>, blockedAt: Option<real>,
    cooldownUntil: Option<real>, secondaryUsedPercent: Option<real>, secondaryResetAt: Option<int>,
    lastErrorAt: Option<real>, lastSelectedAt: Option<real>, errorCount: int,
    planType: Option<string>, capacityCredits: Option<real>, healthTier: int)

  predicate IsSet(t: Option<real>) {
    t.Some? && t.value != 0.0
  }

  predicate Reached(t: Option<real>, now: real) {
    IsSet(t) && now >= t.value
  }

  function Pow2(n: nat): nat {
    if n == 0 then 1 else 2 * Pow2(n - 1)
  }

  /** min(300, 30 * 2^(errors - 3)) seconds. */
  function BackoffSeconds(errors: int): real
    requires errors >= 3
  {
    var b := 30 * Pow2(errors - 3);
    if b < 300 then b as real else 300.0
  }

  // ---- One turn of the filtering loop ----

  datatype Verdict = Skipped | Backoff | Available

  /** A limit that has been reset is lifted. */
  function Lifted(a: Account, now: real): Account {
    if a.status.RateLimited? && Reached(a.resetAt, now) then a.(status := Active, errorCount := 0, resetAt := None)
    else if a.status.QuotaExceeded? && Reached(a.resetAt, now) then a.(status := Active, usedPercent := Some(0.0), resetAt := None)
    else a
  }

  function Thawed(a: Account, now: real): Account {
    if Reached(a.cooldownUntil, now) then a.(cooldownUntil := None, lastErrorAt := None, errorCount := 0) else a
  }

  predicate BackingOff(a: Account, now: real) {
    a.errorCount >= 3 && IsSet(a.lastErrorAt) && now - a.lastErrorAt.value < BackoffSeconds(a.errorCount)
  }

  function Forgiven(a: Account, now: real): Account {
    if a.errorCount >= 3 && !BackingOff(a, now) then a.(errorCount := 0, lastErrorAt := None) else a
  }

  function Classify(a: Account, now: real): Verdict {
    var lifted := Lifted(a, now);
    var thawed := Thawed(lifted, now);
    if lifted.status != Active || IsSet(thawed.cooldownUntil) then Skipped
    else if BackingOff(thawed, now) then Backoff
    else Available
  }

  /** The account as the loop leaves it. */
  function Recovered(a: Account, now: real): Account {
    var lifted := Lifted(a, now);
    var thawed := Thawed(lifted, now);
    if lifted.status != Active then a
    else if IsSet(thawed.cooldownUntil) then lifted
    else Forgiven(thawed, now)
  }

  // ---- What the verdicts mean ----

  /** Paused, deactivated, or limited with the reset still to come. */
  predicate Blocked(a: Account, now: real) {
    a.status.Paused? || a.status.Deactivated?
    || ((a.status.RateLimited? || a.status.QuotaExceeded?) && !Reached(a.resetAt, now))
  }

  predicate Cooling(a: Account, now: real) {
    IsSet(a.cooldownUntil) && now < a.cooldownUntil.value
  }

  /** In error backoff, unless a reset rate limit or an expired cooldown has wiped the errors. */
  predicate InBackoff(a: Account, now: real) {
    a.errorCount >= 3 && ErrorsStand(a, now) && !a.status.RateLimited? && !IsSet(a.cooldownUntil)
  }

  /** Too few errors to be held back, or the backoff since the last one still runs. */
  predicate ErrorsStand(a: Account, now: real) {
    a.errorCount < 3 || (IsSet(a.lastErrorAt) && now < a.lastErrorAt.value + BackoffSeconds(a.errorCount))
  }

  lemma VerdictMeaning(a: Account, now: real)
    ensures Classify(a, now).Skipped? <==> Blocked(a, now) || Cooling(a, now)
    ensures Classify(a, now).Backoff? <==> !Blocked(a, now) && !Cooling(a, now) && InBackoff(a, now)
  {
  }

  /** 30 seconds at three errors, doubling up to the ceiling of 300 from seven on. */
  lemma BackoffTable(errors: int)
    requires errors >= 3
    ensures BackoffSeconds(errors) ==
            if errors == 3 then 30.0 else if errors == 4 then 60.0 else if errors == 5 then 120.0
            else if errors == 6 then 240.0 else 300.0
  {
    assert Pow2(0) == 1 && Pow2(1) == 2 && Pow2(2) == 4 && Pow2(3) == 8 && Pow2(4) == 16;
    if errors >= 7 {
      Pow2Grows(4, errors - 3);
    }
  }

  lemma {:induction false} Pow2Grows(m: nat, n: nat)
    requires m <= n
    ensures Pow2(m) <= Pow2(n)
  {
    if m < n {
      Pow2Grows(m, n - 1);
    }
  }

  /** What going over an account does: a blocked one is left alone; a limit that is over is lifted,
      a quota also clearing usage; an expired cooldown goes, and with it the errors, as they do once a
      rate limit is lifted or their backoff is over. */
  lemma RecoveredMeaning(a: Account, now: real)
    ensures var r := Recovered(a, now);
            && (Blocked(a, now) ==> r == a)
            && (!Blocked(a, now) ==>
                  && r.status.Active?
                  && r.resetAt == (if a.status.Active? then a.resetAt else None)
                  && r.usedPercent == (if a.status.QuotaExceeded? then Some(0.0) else a.usedPercent)
                  && r.cooldownUntil == (if Reached(a.cooldownUntil, now) then None else a.cooldownUntil)
                  && r.errorCount == (if Reached(a.cooldownUntil, now) || a.status.RateLimited? then 0
                                      else if Cooling(a, now) || ErrorsStand(a, now) then a.errorCount else 0)
                  && r.lastErrorAt == (if Reached(a.cooldownUntil, now) then None
                                       else if a.status.RateLimited? || Cooling(a, now) || ErrorsStand(a, now)
                                       then a.lastErrorAt else None))
            && r.id == a.id && r.lastSelectedAt == a.lastSelectedAt && r.healthTier == a.healthTier
            && r.secondaryUsedPercent == a.secondaryUsedPercent && r.secondaryResetAt == a.secondaryResetAt
            && r.planType == a.planType && r.capacityCredits == a.capacityCredits && r.blockedAt == a.blockedAt
  {
  }

  /** Going over an account again at the same time changes nothing more. */
  lemma RecoveredSettles(a: Account, now: real)
    ensures Recovered(Recovered(a, now), now) == Recovered(a, now)
    ensures Classify(Recovered(a, now), now) == Classify(a, now)
  {
  }

  // ---- Candidates ----

  function RecoveredAll(views: seq<Account>, now: real): (r: seq<Account>)
    ensures |r| == |views| && forall i :: 0 <= i < |r| ==> r[i] == Recovered(views[i], now)
  {
    seq(|views|, i requires 0 <= i < |views| => Recovered(views[i], now))
  }

  /** Positions of the accounts with a verdict, in order. */
  function Where(views: seq<Account>, now: real, v: Verdict): seq<nat> {
    if views == [] then []
    else Where(views[..|views| - 1], now, v) + if Classify(views[|views| - 1], now) == v then [|views| - 1] else []
  }

  lemma {:induction false} WhereMembers(views: seq<Account>, now: real, v: Verdict)
    ensures forall i :: i in Where(views, now, v) <==> 0 <= i < |views| && Classify(views[i], now) == v
  {
    if views != [] {
      WhereMembers(views[..|views| - 1], now, v);
    }
  }

  predicate HardBlocked(a: Account) {
    !a.status.Active?
  }

  function BackoffEnds(a: Account): real {
    a.lastErrorAt.GetOr(0.0) + if a.errorCount >= 3 then BackoffSeconds(a.errorCount) else 0.0
  }

  datatype KeyKind = ByUsage | ByPrimaryUsage | ByResetThenUsage | ByLastSelected | ByCapacity | ByBackoffEnd

  /** Credits of a plan when the account does not say: a table outside the model. */
  type PlanCredits = Option<string> -> real

  function RemainingCredits(a: Account, plans: PlanCredits): (r: real)
    ensures r >= 0.0
  {
    if a.capacityCredits.Some? && a.capacityCredits.value <= 0.0 then 0.0
    else
      var capacity := if a.capacityCredits.Some? then a.capacityCredits.value else plans(a.planType);
      var used := a.secondaryUsedPercent.GetOr(a.usedPercent.GetOr(0.0));
      var left := capacity * (1.0 - (if used < 100.0 then used else 100.0) / 100.0);
      if left > 0.0 then left else 0.0
  }

  function ResetBucketDays(a: Account, now: real): int {
    if a.secondaryResetAt.None? then 10000
    else
      var days := ((a.secondaryResetAt.value as real - now) / 86400.0).Floor;
      if days > 0 then days else 0
  }

  function KeyOf(kind: KeyKind, a: Account, now: real, plans: PlanCredits): Key {
    var primary := a.usedPercent.GetOr(0.0);
    var secondary := a.secondaryUsedPercent.GetOr(primary);
    var last := a.lastSelectedAt.GetOr(0.0);
    match kind
    case ByUsage => Key([secondary, primary, last], a.id)
    case ByPrimaryUsage => Key([primary, secondary, last], a.id)
    case ByResetThenUsage => Key([ResetBucketDays(a, now) as real, secondary, primary, last], a.id)
    case ByLastSelected => Key([last], a.id)
    case ByCapacity => Key([-RemainingCredits(a, plans), secondary, primary, last], a.id)
    case ByBackoffEnd => Key([BackoffEnds(a)], "")
  }

  predicate Within(pool: seq<nat>, views: seq<Account>) {
    forall i :: 0 <= i < |pool| ==> pool[i] < |views|
  }

  function Keys(kind: KeyKind, views: seq<Account>, pool: seq<nat>, now: real, plans: PlanCredits): (r: seq<Key>)
    requires Within(pool, views)
    ensures |r| == |pool| && forall i :: 0 <= i < |r| ==> r[i] == KeyOf(kind, views[pool[i]], now, plans)
  {
    seq(|pool|, i requires 0 <= i < |pool| => KeyOf(kind, views[pool[i]], now, plans))
  }

  /** The pool's first account with the smallest key. */
  function Least(kind: KeyKind, views: seq<Account>, pool: seq<nat>, now: real, plans: PlanCredits): (k: nat)
    requires Within(pool, views) && pool != []
    ensures k in pool
  {
    pool[FirstMin(Keys(kind, views, pool, now, plans))]
  }

  lemma LeastIsLeast(kind: KeyKind, views: seq<Account>, pool: seq<nat>, now: real, plans: PlanCredits)
    requires Within(pool, views) && pool != []
    ensures forall i :: i in pool ==>
              !Less(KeyOf(kind, views[i], now, plans), KeyOf(kind, views[Least(kind, views, pool, now, plans)], now, plans))
  {
    var keys := Keys(kind, views, pool, now, plans);
    FirstMinIsLeast(keys);
    forall i | i in pool
      ensures !Less(KeyOf(kind, views[i], now, plans), KeyOf(kind, views[Least(kind, views, pool, now, plans)], now, plans))
    {
      var j :| 0 <= j < |pool| && pool[j] == i;
      assert !Less(keys[j], keys[FirstMin(keys)]);
    }
  }

  predicate AnyHardBlocked(views: seq<Account>) {
    exists i :: 0 <= i < |views| && HardBlocked(views[i])
  }

  predicate MayFallBack(views: seq<Account>, now: real, allowed: bool) {
    var backing := Where(views, now, Backoff);
    allowed && (|backing| > 1 || (backing != [] && AnyHardBlocked(RecoveredAll(views, now))))
  }

  /** Every available account, or else the one account allowed out of backoff. */
  function Candidates(views: seq<Account>, now: real, allowed: bool, plans: PlanCredits): (pool: seq<nat>)
    ensures Within(pool, views)
  {
    WhereMembers(views, now, Available);
    WhereMembers(views, now, Backoff);
    var available, backing := Where(views, now, Available), Where(views, now, Backoff);
    assert Within(available, views) by { assert forall i :: 0 <= i < |available| ==> available[i] in available; }
    assert Within(backing, views) by { assert forall i :: 0 <= i < |backing| ==> backing[i] in backing; }
    if available != [] then available
    else if MayFallBack(views, now, allowed) then [Least(ByBackoffEnd, RecoveredAll(views, now), backing, now, plans)]
    else []
  }

  function OfTier(views: seq<Account>, pool: seq<nat>, tier: int): (r: seq<nat>)
    requires Within(pool, views)
    ensures forall k :: k in r <==> k in pool && views[k].healthTier == tier
    ensures Within(r, views)
  {
    if pool == [] then []
    else
      var n := |pool| - 1;
      assert pool == pool[..n] + [pool[n]];
      OfTier(views, pool[..n], tier) + if views[pool[n]].healthTier == tier then [pool[n]] else []
  }

  /** Healthy before probing before draining. */
  function BestTier(views: seq<Account>, pool: seq<nat>): (r: seq<nat>)
    requires Within(pool, views)
    ensures Within(r, views) && (pool != [] ==> r != [])
    ensures forall k :: k in r ==> k in pool
  {
    var healthy, probing, draining := OfTier(views, pool, 0), OfTier(views, pool, 2), OfTier(views, pool, 1);
    if healthy != [] then healthy else if probing != [] then probing else if draining != [] then draining else pool
  }

  predicate ResetsFirst(views: seq<Account>, k: nat, all: seq<nat>, now: real)
    requires Within(all, views) && k < |views|
  {
    forall j :: j in all ==> ResetBucketDays(views[k], now) <= ResetBucketDays(views[j], now)
  }

  /** The accounts of the pool in the earliest reset bucket of `all`. */
  function EarliestReset(views: seq<Account>, pool: seq<nat>, all: seq<nat>, now: real): (r: seq<nat>)
    requires Within(pool, views) && Within(all, views)
    ensures Within(r, views)
    ensures forall k :: k in r <==> k in pool && ResetsFirst(views, k, all, now)
  {
    if pool == [] then []
    else
      var n := |pool| - 1;
      assert pool == pool[..n] + [pool[n]];
      EarliestReset(views, pool[..n], all, now) + if ResetsFirst(views, pool[n], all, now) then [pool[n]] else []
  }

  datatype Strategy = UsageWeighted | RoundRobin | CapacityWeighted

  datatype Options = Options(preferEarlierReset: bool, strategy: Strategy, allowBackoffFallback: bool,
                             deterministicProbe: bool, primaryFirst: bool)

  function DeterministicKind(o: Options): Option<KeyKind> {
    match o.strategy
    case RoundRobin => Some(ByLastSelected)
    case CapacityWeighted => if o.deterministicProbe then Some(ByCapacity) else None
    case UsageWeighted =>
      Some(if o.primaryFirst then ByPrimaryUsage else if o.preferEarlierReset then ByResetThenUsage else ByUsage)
  }

  /** The pool the strategy picks from. */
  function StrategyPool(views: seq<Account>, best: seq<nat>, now: real, o: Options): (r: seq<nat>)
    requires Within(best, views)
    ensures Within(r, views) && forall k :: k in r ==> k in best
  {
    if o.strategy.CapacityWeighted? && o.preferEarlierReset then EarliestReset(views, best, best, now) else best
  }

  predicate Exhausted(views: seq<Account>, pool: seq<nat>, plans: PlanCredits)
    requires Within(pool, views)
  {
    forall k :: k in pool ==> RemainingCredits(views[k], plans) == 0.0
  }

  /** `k` may be picked from `pool`: the least by the strategy's key, or by weight any account with
      credits left. */
  ghost predicate MayPick(views: seq<Account>, pool: seq<nat>, now: real, o: Options, plans: PlanCredits, k: nat)
    requires Within(pool, views) && pool != []
  {
    match DeterministicKind(o)
    case Some(kind) => k == Least(kind, views, pool, now, plans)
    case None =>
      if Exhausted(views, pool, plans) then k == Least(ByUsage, views, pool, now, plans)
      else k in pool && RemainingCredits(views[k], plans) > 0.0
  }

  /** The pool the pick is made from, empty when no account is eligible. */
  function PickPool(views: seq<Account>, now: real, o: Options, plans: PlanCredits): (r: seq<nat>)
    ensures Within(r, views)
  {
    var post := RecoveredAll(views, now);
    var pool := Candidates(views, now, o.allowBackoffFallback, plans);
    StrategyPool(post, BestTier(post, pool), now, o)
  }

  /** `k` is an answer `select_account` may give. */
  ghost predicate IsSelection(views: seq<Account>, now: real, o: Options, plans: PlanCredits, k: nat) {
    var post, pool := RecoveredAll(views, now), PickPool(views, now, o, plans);
    pool != [] && MayPick(post, pool, now, o, plans, k)
  }

  lemma {:induction false} EarliestResetExists(views: seq<Account>, pool: seq<nat>, now: real) returns (k: nat)
    requires Within(pool, views) && pool != []
    ensures k in pool && k < |views| && ResetsFirst(views, k, pool, now)
  {
    var n := |pool| - 1;
    assert pool == pool[..n] + [pool[n]];
    k := pool[n];
    if n > 0 {
      var j := EarliestResetExists(views, pool[..n], now);
      if ResetBucketDays(views[j], now) < ResetBucketDays(views[k], now) {
        k := j;
      }
    }
  }

  lemma StrategyPoolNonEmpty(views: seq<Account>, best: seq<nat>, now: real, o: Options)
    requires Within(best, views) && best != []
    ensures StrategyPool(views, best, now, o) != []
  {
    var k := EarliestResetExists(views, best, now);
    assert k in EarliestReset(views, best, best, now);
  }

  lemma PickPoolEmptyIff(views: seq<Account>, now: real, o: Options, plans: PlanCredits)
    ensures PickPool(views, now, o, plans) == [] <==> Candidates(views, now, o.allowBackoffFallback, plans) == []
  {
    var post, pool := RecoveredAll(views, now), Candidates(views, now, o.allowBackoffFallback, plans);
    if pool != [] {
      StrategyPoolNonEmpty(post, BestTier(post, pool), now, o);
    } else {
      assert BestTier(post, pool) == [] by { assert forall t :: OfTier(post, [], t) == []; }
    }
  }

  // ---- What a selection promises ----

  function TierRank(tier: int): int {
    if tier == 0 then 0 else if tier == 2 then 1 else if tier == 1 then 2 else 3
  }

  lemma BestTierIsBest(views: seq<Account>, pool: seq<nat>, k: nat, j: nat)
    requires Within(pool, views) && k in BestTier(views, pool) && j in pool
    ensures TierRank(views[k].healthTier) <= TierRank(views[j].healthTier)
  {
    var tier := views[j].healthTier;
    assert j in OfTier(views, pool, tier);
    assert OfTier(views, pool, tier) != [];
  }

  /** Who may come out of error backoff: nobody is available, the fallback is allowed, somebody else
      is in backoff or blocked, and no backoff ends sooner. */
  ghost predicate RightfulFallback(views: seq<Account>, now: real, o: Options, k: nat)
    requires k < |views|
  {
    && o.allowBackoffFallback
    && (forall i :: 0 <= i < |views| ==> !Classify(views[i], now).Available?)
    && (forall i :: 0 <= i < |views| && Classify(views[i], now).Backoff? ==> BackoffEnds(views[k]) <= BackoffEnds(views[i]))
    && exists i :: 0 <= i < |views| && i != k && (Classify(views[i], now).Backoff? || HardBlocked(Recovered(views[i], now)))
  }

  lemma {:induction false} WhereDistinct(views: seq<Account>, now: real, v: Verdict)
    ensures forall i, j :: 0 <= i < j < |Where(views, now, v)| ==> Where(views, now, v)[i] != Where(views, now, v)[j]
  {
    if views != [] {
      var init := views[..|views| - 1];
      WhereDistinct(init, now, v);
      WhereMembers(init, now, v);
      var w := Where(init, now, v);
      assert forall i :: 0 <= i < |w| ==> w[i] in w;
    }
  }

  lemma BackoffKeepsErrors(a: Account, now: real)
    requires Classify(a, now).Backoff?
    ensures BackoffEnds(Recovered(a, now)) == BackoffEnds(a) && Recovered(a, now).status == Active
  {
  }

  lemma EarliestBackoffEnd(views: seq<Account>, now: real, plans: PlanCredits, backing: seq<nat>, i: nat)
    requires Within(backing, views) && backing != [] && i in backing
    requires forall j :: j in backing ==> Classify(views[j], now).Backoff?
    ensures BackoffEnds(views[Least(ByBackoffEnd, RecoveredAll(views, now), backing, now, plans)]) <= BackoffEnds(views[i])
  {
    var post := RecoveredAll(views, now);
    var k := Least(ByBackoffEnd, post, backing, now, plans);
    LeastIsLeast(ByBackoffEnd, post, backing, now, plans);
    BackoffKeepsErrors(views[i], now);
    BackoffKeepsErrors(views[k], now);
    assert !Less(KeyOf(ByBackoffEnd, post[i], now, plans), KeyOf(ByBackoffEnd, post[k], now, plans));
  }

  lemma SomebodyElse(views: seq<Account>, now: real, k: nat)
    requires MayFallBack(views, now, true) && k < |views| && Classify(views[k], now).Backoff?
    ensures exists i :: 0 <= i < |views| && i != k && (Classify(views[i], now).Backoff? || HardBlocked(Recovered(views[i], now)))
  {
    var backing := Where(views, now, Backoff);
    WhereMembers(views, now, Backoff);
    if |backing| > 1 {
      WhereDistinct(views, now, Backoff);
      var other := if backing[0] == k then backing[1] else backing[0];
      assert other in backing && other != k;
    } else {
      var i :| 0 <= i < |views| && HardBlocked(RecoveredAll(views, now)[i]);
      BackoffKeepsErrors(views[k], now);
    }
  }

  lemma FallbackIsRightful(views: seq<Account>, now: real, o: Options, plans: PlanCredits, k: nat)
    requires Where(views, now, Available) == [] && MayFallBack(views, now, o.allowBackoffFallback)
    requires Candidates(views, now, o.allowBackoffFallback, plans) == [k]
    ensures k < |views| && Classify(views[k], now).Backoff? && RightfulFallback(views, now, o, k)
  {
    var backing := Where(views, now, Backoff);
    WhereMembers(views, now, Available);
    WhereMembers(views, now, Backoff);
    assert Within(backing, views) by { assert forall i :: 0 <= i < |backing| ==> backing[i] in backing; }
    forall i | i in backing ensures BackoffEnds(views[k]) <= BackoffEnds(views[i]) {
      EarliestBackoffEnd(views, now, plans, backing, i);
    }
    SomebodyElse(views, now, k);
  }

  lemma SelectionInPools(views: seq<Account>, now: real, o: Options, plans: PlanCredits, k: nat)
    requires IsSelection(views, now, o, plans, k)
    ensures k in PickPool(views, now, o, plans)
    ensures var pool := Candidates(views, now, o.allowBackoffFallback, plans);
            k in BestTier(RecoveredAll(views, now), pool) && k in pool && k < |views|
  {
  }

  lemma SelectionIsFree(views: seq<Account>, now: real, o: Options, plans: PlanCredits, k: nat)
    requires k in Candidates(views, now, o.allowBackoffFallback, plans) && k < |views|
    ensures !Blocked(views[k], now) && !Cooling(views[k], now)
    ensures InBackoff(views[k], now) ==> RightfulFallback(views, now, o, k)
  {
    VerdictMeaning(views[k], now);
    WhereMembers(views, now, Available);
    if Where(views, now, Available) == [] {
      FallbackIsRightful(views, now, o, plans, Candidates(views, now, o.allowBackoffFallback, plans)[0]);
    }
  }

  /** A selected account is not blocked or cooling down; if it is in error backoff it is the rightful
      fallback; no candidate has a better health tier; and for the deterministic strategies no
      account of the pool has a smaller key. */
  lemma SelectionIsSound(views: seq<Account>, now: real, o: Options, plans: PlanCredits, k: nat)
    requires IsSelection(views, now, o, plans, k)
    ensures k < |views| && !Blocked(views[k], now) && !Cooling(views[k], now)
    ensures InBackoff(views[k], now) ==> RightfulFallback(views, now, o, k)
    ensures forall j :: j in Candidates(views, now, o.allowBackoffFallback, plans) ==>
              TierRank(views[k].healthTier) <= TierRank(views[j].healthTier)
    ensures DeterministicKind(o).Some? ==> forall j :: j in PickPool(views, now, o, plans) ==>
              !Less(KeyOf(DeterministicKind(o).value, Recovered(views[j], now), now, plans),
                    KeyOf(DeterministicKind(o).value, Recovered(views[k], now), now, plans))
  {
    var post, pool := RecoveredAll(views, now), Candidates(views, now, o.allowBackoffFallback, plans);
    SelectionInPools(views, now, o, plans, k);
    SelectionIsFree(views, now, o, plans, k);
    forall j | j in pool ensures TierRank(views[k].healthTier) <= TierRank(views[j].healthTier) {
      BestTierIsBest(post, pool, k, j);
      assert post[k].healthTier == views[k].healthTier && post[j].healthTier == views[j].healthTier;
    }
    SelectionHasLeastKey(views, now, o, plans, k);
  }

  lemma SelectionHasLeastKey(views: seq<Account>, now: real, o: Options, plans: PlanCredits, k: nat)
    requires IsSelection(views, now, o, plans, k) && k < |views|
    ensures DeterministicKind(o).Some? ==> forall j :: j in PickPool(views, now, o, plans) ==>
              !Less(KeyOf(DeterministicKind(o).value, Recovered(views[j], now), now, plans),
                    KeyOf(DeterministicKind(o).value, Recovered(views[k], now), now, plans))
  {
    if DeterministicKind(o).Some? {
      LeastIsLeast(DeterministicKind(o).value, RecoveredAll(views, now), PickPool(views, now, o, plans), now, plans);
    }
  }

  /** What the deterministic strategies look at, in order. */
  ghost predicate Preferred(o: Options, a: Account, b: Account, now: real, plans: PlanCredits) {
    var primaryA, primaryB := a.usedPercent.GetOr(0.0), b.usedPercent.GetOr(0.0);
    var secondaryA, secondaryB := a.secondaryUsedPercent.GetOr(primaryA), b.secondaryUsedPercent.GetOr(primaryB);
    var bucketA, bucketB := ResetBucketDays(a, now), ResetBucketDays(b, now);
    match o.strategy
    case RoundRobin => a.lastSelectedAt.GetOr(0.0) <= b.lastSelectedAt.GetOr(0.0)
    case CapacityWeighted => RemainingCredits(a, plans) >= RemainingCredits(b, plans)
    case UsageWeighted =>
      if o.primaryFirst then primaryA <= primaryB && (primaryA == primaryB ==> secondaryA <= secondaryB)
      else if o.preferEarlierReset then
        && bucketA <= bucketB
        && (bucketA == bucketB ==> secondaryA <= secondaryB)
        && (bucketA == bucketB && secondaryA == secondaryB ==> primaryA <= primaryB)
      else secondaryA <= secondaryB && (secondaryA == secondaryB ==> primaryA <= primaryB)
  }

  /** Round robin takes the least recently selected; usage weighting the least used window it is told
      to look at first, within the earliest reset bucket if preferred; the capacity probe the account
      with most credits left. */
  lemma StrategyMeaning(views: seq<Account>, now: real, o: Options, plans: PlanCredits, k: nat, j: nat)
    requires IsSelection(views, now, o, plans, k) && DeterministicKind(o).Some?
    requires j in PickPool(views, now, o, plans)
    ensures k < |views| && j < |views| && Preferred(o, Recovered(views[k], now), Recovered(views[j], now), now, plans)
  {
    SelectionIsSound(views, now, o, plans, k);
    var kind, a, b := DeterministicKind(o).value, Recovered(views[k], now), Recovered(views[j], now);
    KeyOrder(KeyOf(kind, b, now, plans), KeyOf(kind, a, now, plans));
  }

  lemma KeyOrder(x: Key, y: Key)
    requires !Less(x, y) && |x.nums| == |y.nums| && |x.nums| > 0
    ensures y.nums[0] <= x.nums[0]
    ensures |x.nums| > 1 && y.nums[0] == x.nums[0] ==> y.nums[1] <= x.nums[1]
    ensures |x.nums| > 2 && y.nums[0] == x.nums[0] && y.nums[1] == x.nums[1] ==> y.nums[2] <= x.nums[2]
  {
    if x.nums[0] == y.nums[0] && |x.nums| > 1 {
      var x1, y1 := Key(x.nums[1..], x.id), Key(y.nums[1..], y.id);
      assert !Less(x1, y1);
      if x1.nums[0] == y1.nums[0] && |x1.nums| > 1 {
        assert !Less(Key(x1.nums[1..], x.id), Key(y1.nums[1..], y.id));
      }
    }
  }

  /** An account has credits left exactly when its capacity is positive and it is not fully used. */
  lemma RemainingCreditsMeaning(a: Account, plans: PlanCredits)
    ensures var capacity := if a.capacityCredits.Some? then a.capacityCredits.value else plans(a.planType);
            RemainingCredits(a, plans) > 0.0 <==>
            capacity > 0.0 && a.secondaryUsedPercent.GetOr(a.usedPercent.GetOr(0.0)) < 100.0
  {
    var capacity := if a.capacityCredits.Some? then a.capacityCredits.value else plans(a.planType);
    var used := a.secondaryUsedPercent.GetOr(a.usedPercent.GetOr(0.0));
    var capped := if used < 100.0 then used else 100.0;
    var share := 1.0 - capped / 100.0;
    assert share > 0.0 <==> used < 100.0;
    PositiveProduct(capacity, share);
    assert !(a.capacityCredits.Some? && a.capacityCredits.value <= 0.0) ==>
        RemainingCredits(a, plans) == if capacity * share > 0.0 then capacity * share else 0.0;
  }

  lemma PositiveProduct(x: real, y: real)
    requires y >= 0.0
    ensures x * y > 0.0 <==> x > 0.0 && y > 0.0
  {
    if x > 0.0 && y > 0.0 {
      assert x * y > 0.0;
    } else if x <= 0.0 {
      assert x * y <= 0.0;
    }
  }

  lemma {:induction false} WhereSettles(views: seq<Account>, now: real, v: Verdict)
    ensures Where(RecoveredAll(views, now), now, v) == Where(views, now, v)
  {
    if views != [] {
      var n := |views| - 1;
      assert RecoveredAll(views, now)[..n] == RecoveredAll(views[..n], now);
      WhereSettles(views[..n], now, v);
      RecoveredSettles(views[n], now);
    }
  }

  /** Selecting again at the same time, from the states the first call left, offers the same pool. */
  lemma RepeatedSelectionSamePool(views: seq<Account>, now: real, o: Options, plans: PlanCredits)
    ensures RecoveredAll(RecoveredAll(views, now), now) == RecoveredAll(views, now)
    ensures PickPool(RecoveredAll(views, now), now, o, plans) == PickPool(views, now, o, plans)
  {
    var post := RecoveredAll(views, now);
    forall i | 0 <= i < |views| ensures Recovered(post[i], now) == post[i] {
      RecoveredSettles(views[i], now);
    }
    assert RecoveredAll(post, now) == post;
    WhereSettles(views, now, Available);
    WhereSettles(views, now, Backoff);
  }
}

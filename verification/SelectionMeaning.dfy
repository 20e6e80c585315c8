/**
 * Which account `select_account` (app/core/balancer/logic.py) may pick, told from the accounts as they
 * come in and from the clock alone: who can serve, who of them is considered, and who is preferred.
 */
module SelectionMeaning {
  import opened Wrappers
  import opened LexOrder
  import opened AccountSelection

  // ---- Quantities of one account ----

  /** Usage of the primary window; a quota that is over counts as unused. */
  function Primary(a: Account): real {
    if a.status.QuotaExceeded? then 0.0 else a.usedPercent.GetOr(0.0)
  }

  function Secondary(a: Account): real {
    a.secondaryUsedPercent.GetOr(Primary(a))
  }

  /** Whole days until the secondary reset: none once it is less than one away, 10000 if unknown. */
  ghost predicate ResetsInDays(a: Account, now: real, days: int) {
    if a.secondaryResetAt.None? then days == 10000
    else
      var wait := a.secondaryResetAt.value as real - now;
      if wait < 86400.0 then days == 0 else days as real * 86400.0 <= wait < (days + 1) as real * 86400.0
  }

  lemma ResetsInDaysUnique(a: Account, now: real, d: int, e: int)
    requires ResetsInDays(a, now, d) && ResetsInDays(a, now, e)
    ensures d == e
  {
    if a.secondaryResetAt.Some? && a.secondaryResetAt.value as real - now >= 86400.0 {
      assert (d as real) < (e + 1) as real && (e as real) < (d + 1) as real;
    }
  }

  lemma BucketIsDays(a: Account, now: real)
    ensures ResetsInDays(a, now, ResetBucketDays(a, now))
    ensures ResetBucketDays(Recovered(a, now), now) == ResetBucketDays(a, now)
  {
    if a.secondaryResetAt.Some? {
      var wait := a.secondaryResetAt.value as real - now;
      FloorOfDays(wait);
    }
  }

  lemma FloorOfDays(wait: real)
    ensures var d := (wait / 86400.0).Floor; d as real * 86400.0 <= wait < (d + 1) as real * 86400.0
    ensures wait < 86400.0 <==> (wait / 86400.0).Floor <= 0
  {
    var q := wait / 86400.0;
    assert q * 86400.0 == wait;
    assert q.Floor as real <= q < (q.Floor + 1) as real;
  }

  /** `a` resets no later than `b`, day by day. */
  ghost predicate ResetsNoLater(a: Account, b: Account, now: real) {
    forall d, e :: ResetsInDays(a, now, d) && ResetsInDays(b, now, e) ==> d <= e
  }

  lemma BucketOrder(a: Account, b: Account, now: real)
    ensures ResetsNoLater(a, b, now) <==> ResetBucketDays(a, now) <= ResetBucketDays(b, now)
  {
    BucketIsDays(a, now);
    BucketIsDays(b, now);
    forall d, e | ResetsInDays(a, now, d) && ResetsInDays(b, now, e)
      ensures d == ResetBucketDays(a, now) && e == ResetBucketDays(b, now)
    {
      ResetsInDaysUnique(a, now, d, ResetBucketDays(a, now));
      ResetsInDaysUnique(b, now, e, ResetBucketDays(b, now));
    }
  }

  /** Credits left: the unused hundredths of the capacity, none without capacity or when fully used. */
  ghost predicate CreditsLeft(a: Account, plans: PlanCredits, credits: real) {
    var capacity := if a.capacityCredits.Some? then a.capacityCredits.value else plans(a.planType);
    if capacity <= 0.0 || Secondary(a) >= 100.0 then credits == 0.0
    else credits * 100.0 == capacity * (100.0 - Secondary(a))
  }

  lemma CreditsAmount(a: Account, now: real, plans: PlanCredits)
    requires !Blocked(a, now)
    ensures CreditsLeft(a, plans, RemainingCredits(Recovered(a, now), plans))
  {
    var r := Recovered(a, now);
    UsageAfterRecovery(a, now);
    var capacity := if a.capacityCredits.Some? then a.capacityCredits.value else plans(a.planType);
    var used := Secondary(a);
    var capped := if used < 100.0 then used else 100.0;
    assert r.secondaryUsedPercent.GetOr(r.usedPercent.GetOr(0.0)) == used;
    var left := capacity * (1.0 - capped / 100.0);
    if used >= 100.0 {
      assert 1.0 - capped / 100.0 == 0.0;
    } else {
      LeftOver(capacity, used);
    }
  }

  lemma LeftOver(capacity: real, used: real)
    requires used < 100.0
    ensures capacity * (1.0 - used / 100.0) * 100.0 == capacity * (100.0 - used)
    ensures capacity * (1.0 - used / 100.0) > 0.0 <==> capacity > 0.0
  {
    var share := 1.0 - used / 100.0;
    assert share * 100.0 == 100.0 - used && share > 0.0;
    assert capacity * share * 100.0 == capacity * (share * 100.0);
    PositiveProduct(capacity, share);
  }

  /** What the loop leaves of the fields the strategies look at. */
  lemma UsageAfterRecovery(a: Account, now: real)
    requires !Blocked(a, now)
    ensures var r := Recovered(a, now);
            && r.usedPercent.GetOr(0.0) == Primary(a) && r.secondaryUsedPercent == a.secondaryUsedPercent
            && r.lastSelectedAt == a.lastSelectedAt && r.id == a.id && r.healthTier == a.healthTier
            && r.secondaryResetAt == a.secondaryResetAt && r.capacityCredits == a.capacityCredits && r.planType == a.planType
  {
    RecoveredMeaning(a, now);
  }

  // ---- Who can serve ----

  predicate Serving(a: Account, now: real) {
    !Blocked(a, now) && !Cooling(a, now) && !InBackoff(a, now)
  }

  predicate Held(a: Account, now: real) {
    !Blocked(a, now) && !Cooling(a, now) && InBackoff(a, now)
  }

  /** When the backoff of a held account ends. */
  function HeldUntil(a: Account): real
    requires a.errorCount >= 3 && a.lastErrorAt.Some?
  {
    a.lastErrorAt.value + BackoffSeconds(a.errorCount)
  }

  /** The one account let out of backoff: allowed, nobody serves, somebody else is held or blocked, and
      its backoff ends first, in the order of the accounts if several do. */
  ghost predicate LetOut(views: seq<Account>, now: real, allowed: bool, k: nat)
    requires k < |views|
  {
    && allowed && Held(views[k], now)
    && (forall i :: 0 <= i < |views| ==> !Serving(views[i], now))
    && (exists i :: 0 <= i < |views| && i != k && (Held(views[i], now) || Blocked(views[i], now)))
    && (forall i :: 0 <= i < |views| && Held(views[i], now) ==>
          HeldUntil(views[k]) <= HeldUntil(views[i]) && (HeldUntil(views[k]) == HeldUntil(views[i]) ==> k <= i))
  }

  ghost predicate Candidate(views: seq<Account>, now: real, o: Options, k: nat) {
    k < |views| && (Serving(views[k], now) || LetOut(views, now, o.allowBackoffFallback, k))
  }

  /** Candidates of the best health tier. */
  ghost predicate Contender(views: seq<Account>, now: real, o: Options, k: nat) {
    && Candidate(views, now, o, k)
    && forall j: nat :: Candidate(views, now, o, j) ==> TierRank(views[k].healthTier) <= TierRank(views[j].healthTier)
  }

  /** Of these, for capacity weighting that prefers earlier resets, those that reset on the first day. */
  ghost predicate Finalist(views: seq<Account>, now: real, o: Options, k: nat) {
    && Contender(views, now, o, k)
    && (o.strategy.CapacityWeighted? && o.preferEarlierReset ==>
          forall j: nat :: Contender(views, now, o, j) ==> ResetsNoLater(views[k], views[j], now))
  }

  // ---- The pools are these ----

  lemma VerdictsAre(views: seq<Account>, now: real, k: nat)
    requires k < |views|
    ensures Classify(views[k], now).Available? <==> Serving(views[k], now)
    ensures Classify(views[k], now).Backoff? <==> Held(views[k], now)
    ensures HardBlocked(Recovered(views[k], now)) <==> Blocked(views[k], now)
  {
    VerdictMeaning(views[k], now);
    RecoveredMeaning(views[k], now);
  }

  predicate Ascending(pool: seq<nat>) {
    forall i, j :: 0 <= i < j < |pool| ==> pool[i] < pool[j]
  }

  lemma {:induction false} WhereAscending(views: seq<Account>, now: real, v: Verdict)
    ensures Ascending(Where(views, now, v))
  {
    if views != [] {
      var init := views[..|views| - 1];
      WhereAscending(init, now, v);
      WhereMembers(init, now, v);
      var w := Where(init, now, v);
      assert forall i :: 0 <= i < |w| ==> w[i] in w;
    }
  }

  lemma {:induction false} OfTierAscending(views: seq<Account>, pool: seq<nat>, tier: int)
    requires Within(pool, views) && Ascending(pool)
    ensures Ascending(OfTier(views, pool, tier))
  {
    if pool != [] {
      var init := pool[..|pool| - 1];
      OfTierAscending(views, init, tier);
      var r := OfTier(views, init, tier);
      assert forall i :: 0 <= i < |r| ==> r[i] in r && r[i] in init;
    }
  }

  lemma {:induction false} EarliestResetAscending(views: seq<Account>, pool: seq<nat>, all: seq<nat>, now: real)
    requires Within(pool, views) && Within(all, views) && Ascending(pool)
    ensures Ascending(EarliestReset(views, pool, all, now))
  {
    if pool != [] {
      var init := pool[..|pool| - 1];
      EarliestResetAscending(views, init, all, now);
      var r := EarliestReset(views, init, all, now);
      assert forall i :: 0 <= i < |r| ==> r[i] in r && r[i] in init;
    }
  }

  lemma PickPoolAscending(views: seq<Account>, now: real, o: Options, plans: PlanCredits)
    ensures Ascending(PickPool(views, now, o, plans))
  {
    var post, pool := RecoveredAll(views, now), Candidates(views, now, o.allowBackoffFallback, plans);
    WhereAscending(views, now, Available);
    OfTierAscending(post, pool, 0);
    OfTierAscending(post, pool, 1);
    OfTierAscending(post, pool, 2);
    EarliestResetAscending(post, BestTier(post, pool), BestTier(post, pool), now);
  }

  /** `Least` is the first of the smallest. */
  lemma LeastIsFirst(kind: KeyKind, views: seq<Account>, pool: seq<nat>, now: real, plans: PlanCredits, j: nat)
    requires Within(pool, views) && Ascending(pool) && j in pool
    ensures var k := Least(kind, views, pool, now, plans); var x, y := KeyOf(kind, views[k], now, plans), KeyOf(kind, views[j], now, plans);
            Less(x, y) || (x == y && k <= j)
  {
    var keys := Keys(kind, views, pool, now, plans);
    var m := FirstMin(keys);
    FirstMinIsLeast(keys);
    var i :| 0 <= i < |pool| && pool[i] == j;
    LessTotal(keys[m], keys[i]);
    assert !Less(keys[i], keys[m]);
    if i < m {
      assert Less(keys[m], keys[i]);
    }
  }

  lemma BackoffKey(views: seq<Account>, now: real, plans: PlanCredits, k: nat)
    requires k < |views| && Held(views[k], now)
    ensures KeyOf(ByBackoffEnd, RecoveredAll(views, now)[k], now, plans) == Key([HeldUntil(views[k])], "")
  {
    VerdictsAre(views, now, k);
    BackoffKeepsErrors(views[k], now);
  }

  lemma KeyOfOne(x: real, y: real)
    ensures Less(Key([x], ""), Key([y], "")) <==> x < y
  {
    assert [x][1..] == [] && [y][1..] == [];
  }

  lemma BackingIsHeld(views: seq<Account>, now: real)
    ensures var backing := Where(views, now, Backoff);
            Within(backing, views) && forall i: nat :: i in backing <==> i < |views| && Held(views[i], now)
    ensures var available := Where(views, now, Available);
            Within(available, views) && forall i: nat :: i in available <==> i < |views| && Serving(views[i], now)
  {
    var backing, available := Where(views, now, Backoff), Where(views, now, Available);
    WhereMembers(views, now, Backoff);
    WhereMembers(views, now, Available);
    forall i: nat | i < |views|
      ensures (Classify(views[i], now).Backoff? <==> Held(views[i], now)) && (Classify(views[i], now).Available? <==> Serving(views[i], now))
    {
      VerdictsAre(views, now, i);
    }
    assert forall i :: 0 <= i < |backing| ==> backing[i] in backing;
    assert forall i :: 0 <= i < |available| ==> available[i] in available;
  }

  /** The fallback is let out, and nobody else is. */
  lemma FallbackIsLetOut(views: seq<Account>, now: real, plans: PlanCredits, j: nat)
    requires MayFallBack(views, now, true) && Where(views, now, Available) == []
    requires var backing := Where(views, now, Backoff); Within(backing, views) && backing != [] && j in backing
    ensures var k := Least(ByBackoffEnd, RecoveredAll(views, now), Where(views, now, Backoff), now, plans);
            && k < |views| && j < |views| && Held(views[k], now) && Held(views[j], now)
            && HeldUntil(views[k]) <= HeldUntil(views[j]) && (HeldUntil(views[k]) == HeldUntil(views[j]) ==> k <= j)
  {
    var post, backing := RecoveredAll(views, now), Where(views, now, Backoff);
    var k := Least(ByBackoffEnd, post, backing, now, plans);
    BackingIsHeld(views, now);
    WhereAscending(views, now, Backoff);
    LeastIsFirst(ByBackoffEnd, post, backing, now, plans, j);
    BackoffKey(views, now, plans, k);
    BackoffKey(views, now, plans, j);
    KeyOfOne(HeldUntil(views[k]), HeldUntil(views[j]));
    assert [HeldUntil(views[k])][0] == HeldUntil(views[k]) && [HeldUntil(views[j])][0] == HeldUntil(views[j]);
  }

  lemma MayFallBackIff(views: seq<Account>, now: real, allowed: bool, k: nat)
    requires k < |views| && Held(views[k], now)
    ensures MayFallBack(views, now, allowed) <==>
            allowed && exists i :: 0 <= i < |views| && i != k && (Held(views[i], now) || Blocked(views[i], now))
  {
    var backing, post := Where(views, now, Backoff), RecoveredAll(views, now);
    BackingIsHeld(views, now);
    forall i: nat | i < |views| ensures HardBlocked(post[i]) <==> Blocked(views[i], now) {
      VerdictsAre(views, now, i);
    }
    if MayFallBack(views, now, allowed) {
      VerdictsAre(views, now, k);
      SomebodyElse(views, now, k);
      var i :| 0 <= i < |views| && i != k && (Classify(views[i], now).Backoff? || HardBlocked(Recovered(views[i], now)));
      VerdictsAre(views, now, i);
    }
    if i :| 0 <= i < |views| && i != k && (Held(views[i], now) || Blocked(views[i], now)) {
      if Held(views[i], now) {
        assert i in backing && k in backing;
        TwoMembers(backing, i, k);
      } else {
        assert HardBlocked(post[i]);
      }
    }
  }

  lemma TwoMembers(s: seq<nat>, x: nat, y: nat)
    requires x in s && y in s && x != y
    ensures |s| > 1
  {
    var i :| 0 <= i < |s| && s[i] == x;
    var j :| 0 <= j < |s| && s[j] == y;
    assert i != j;
  }

  lemma CandidatesAre(views: seq<Account>, now: real, o: Options, plans: PlanCredits, j: nat)
    ensures j in Candidates(views, now, o.allowBackoffFallback, plans) <==> Candidate(views, now, o, j)
  {
    var available, backing := Where(views, now, Available), Where(views, now, Backoff);
    BackingIsHeld(views, now);
    if available != [] {
      assert available[0] in available;
    } else {
      if j < |views| && Held(views[j], now) {
        MayFallBackIff(views, now, o.allowBackoffFallback, j);
        if MayFallBack(views, now, o.allowBackoffFallback) {
          OnlyOneLetOut(views, now, o, plans, j);
        }
      }
      if MayFallBack(views, now, o.allowBackoffFallback) {
        var k := Least(ByBackoffEnd, RecoveredAll(views, now), backing, now, plans);
        assert Held(views[k], now);
      }
    }
  }

  lemma OnlyOneLetOut(views: seq<Account>, now: real, o: Options, plans: PlanCredits, j: nat)
    requires Where(views, now, Available) == [] && MayFallBack(views, now, o.allowBackoffFallback)
    requires j < |views| && Held(views[j], now)
    ensures j in Candidates(views, now, o.allowBackoffFallback, plans) <==> LetOut(views, now, o.allowBackoffFallback, j)
  {
    var backing := Where(views, now, Backoff);
    BackingIsHeld(views, now);
    var k := Least(ByBackoffEnd, RecoveredAll(views, now), backing, now, plans);
    MayFallBackIff(views, now, o.allowBackoffFallback, j);
    forall i: nat | i in backing
      ensures HeldUntil(views[k]) <= HeldUntil(views[i]) && (HeldUntil(views[k]) == HeldUntil(views[i]) ==> k <= i)
    {
      FallbackIsLetOut(views, now, plans, i);
    }
  }

  lemma TierKept(views: seq<Account>, now: real)
    ensures forall i :: 0 <= i < |views| ==> RecoveredAll(views, now)[i].healthTier == views[i].healthTier
  {
  }

  lemma BestRankedIsIn(views: seq<Account>, pool: seq<nat>, k: nat)
    requires Within(pool, views) && k in pool
    requires forall j: nat :: j in pool ==> TierRank(views[k].healthTier) <= TierRank(views[j].healthTier)
    ensures k in BestTier(views, pool)
  {
    var healthy, probing, draining := OfTier(views, pool, 0), OfTier(views, pool, 2), OfTier(views, pool, 1);
    if healthy != [] {
      assert healthy[0] in healthy;
    } else if probing != [] {
      assert probing[0] in probing;
    } else if draining != [] {
      assert draining[0] in draining;
    }
  }

  /** The best tier of a pool, told by rank. */
  lemma BestTierIs(views: seq<Account>, pool: seq<nat>, k: nat)
    requires Within(pool, views)
    ensures k in BestTier(views, pool) <==>
            k in pool && forall j: nat :: j in pool ==> TierRank(views[k].healthTier) <= TierRank(views[j].healthTier)
  {
    if k in BestTier(views, pool) {
      forall j: nat | j in pool ensures TierRank(views[k].healthTier) <= TierRank(views[j].healthTier) {
        BestTierIsBest(views, pool, k, j);
      }
    }
    if k in pool && forall j: nat :: j in pool ==> TierRank(views[k].healthTier) <= TierRank(views[j].healthTier) {
      BestRankedIsIn(views, pool, k);
    }
  }

  lemma ContendersAre(views: seq<Account>, now: real, o: Options, plans: PlanCredits, k: nat)
    ensures var pool := Candidates(views, now, o.allowBackoffFallback, plans);
            k in BestTier(RecoveredAll(views, now), pool) <==> Contender(views, now, o, k)
  {
    var post, pool := RecoveredAll(views, now), Candidates(views, now, o.allowBackoffFallback, plans);
    forall j: nat ensures j in pool <==> Candidate(views, now, o, j) {
      CandidatesAre(views, now, o, plans, j);
    }
    TierKept(views, now);
    BestTierIs(post, pool, k);
  }

  /** The accounts the strategy picks from are the finalists: no more and no fewer. */
  lemma FinalistsAre(views: seq<Account>, now: real, o: Options, plans: PlanCredits, k: nat)
    ensures k in PickPool(views, now, o, plans) <==> Finalist(views, now, o, k)
  {
    var post := RecoveredAll(views, now);
    var best := BestTier(post, Candidates(views, now, o.allowBackoffFallback, plans));
    forall j: nat ensures j in best <==> Contender(views, now, o, j) {
      ContendersAre(views, now, o, plans, j);
    }
    if o.strategy.CapacityWeighted? && o.preferEarlierReset && k in best {
      forall j: nat | j in best
        ensures ResetBucketDays(post[k], now) <= ResetBucketDays(post[j], now) <==> ResetsNoLater(views[k], views[j], now)
      {
        BucketIsDays(views[k], now);
        BucketIsDays(views[j], now);
        BucketOrder(views[k], views[j], now);
      }
    }
  }

  // ---- Who is preferred ----

  ghost function Days(a: Account, now: real): (days: int)
    ensures ResetsInDays(a, now, days)
  {
    BucketIsDays(a, now);
    ResetBucketDays(a, now)
  }

  function Credits(a: Account, plans: PlanCredits): (credits: real)
    ensures CreditsLeft(a, plans, credits)
  {
    var capacity := if a.capacityCredits.Some? then a.capacityCredits.value else plans(a.planType);
    if capacity <= 0.0 || Secondary(a) >= 100.0 then 0.0 else capacity * (100.0 - Secondary(a)) / 100.0
  }

  datatype Order = LeastUsed | LeastPrimaryUsed | EarliestThenLeastUsed | LeastRecent | MostCredits

  /** What an order looks at, in turn: smaller is better. */
  ghost function Rank(ord: Order, a: Account, now: real, plans: PlanCredits): seq<real> {
    var last := a.lastSelectedAt.GetOr(0.0);
    match ord
    case LeastUsed => [Secondary(a), Primary(a), last]
    case LeastPrimaryUsed => [Primary(a), Secondary(a), last]
    case EarliestThenLeastUsed => [Days(a, now) as real, Secondary(a), Primary(a), last]
    case LeastRecent => [last]
    case MostCredits => [-Credits(a, plans), Secondary(a), Primary(a), last]
  }

  /** `j` comes before `k`: better rank, then the smaller id, then the earlier place. */
  ghost predicate Before(ord: Order, views: seq<Account>, now: real, plans: PlanCredits, j: nat, k: nat)
    requires j < |views| && k < |views|
  {
    var x, y := Rank(ord, views[j], now, plans), Rank(ord, views[k], now, plans);
    || SmallerFirst(x, y)
    || (x == y && Alphabetical(views[j].id, views[k].id))
    || (x == y && views[j].id == views[k].id && j < k)
  }

  /** The finalist that comes before all others. */
  ghost predicate First(ord: Order, views: seq<Account>, now: real, o: Options, plans: PlanCredits, k: nat) {
    && k < |views| && Finalist(views, now, o, k)
    && forall j: nat :: j < |views| && Finalist(views, now, o, j) ==> !Before(ord, views, now, plans, j, k)
  }

  ghost predicate SomebodyHasCredits(views: seq<Account>, now: real, o: Options, plans: PlanCredits) {
    exists j: nat :: j < |views| && Finalist(views, now, o, j) && Credits(views[j], plans) > 0.0
  }

  /** The order a strategy goes by, unless it draws by weight. */
  function OrderOf(o: Options): Option<Order> {
    match o.strategy
    case RoundRobin => Some(LeastRecent)
    case UsageWeighted =>
      Some(if o.primaryFirst then LeastPrimaryUsed else if o.preferEarlierReset then EarliestThenLeastUsed else LeastUsed)
    case CapacityWeighted => if o.deterministicProbe then Some(MostCredits) else None
  }

  /** Who may be picked: the first by the strategy's order; drawn by weight, anybody with credits left,
      and if nobody has any the least used. */
  ghost predicate Chosen(views: seq<Account>, now: real, o: Options, plans: PlanCredits, k: nat) {
    if OrderOf(o).Some? then First(OrderOf(o).value, views, now, o, plans, k)
    else if SomebodyHasCredits(views, now, o, plans)
    then k < |views| && Finalist(views, now, o, k) && Credits(views[k], plans) > 0.0
    else First(LeastUsed, views, now, o, plans, k)
  }

  function KindOf(ord: Order): KeyKind {
    match ord
    case LeastUsed => ByUsage
    case LeastPrimaryUsed => ByPrimaryUsage
    case EarliestThenLeastUsed => ByResetThenUsage
    case LeastRecent => ByLastSelected
    case MostCredits => ByCapacity
  }

  lemma CreditsUnique(a: Account, plans: PlanCredits, x: real, y: real)
    requires CreditsLeft(a, plans, x) && CreditsLeft(a, plans, y)
    ensures x == y
  {
  }

  lemma RankIsKey(ord: Order, a: Account, now: real, plans: PlanCredits)
    requires !Blocked(a, now)
    ensures KeyOf(KindOf(ord), Recovered(a, now), now, plans) == Key(Rank(ord, a, now, plans), a.id)
    ensures RemainingCredits(Recovered(a, now), plans) == Credits(a, plans)
  {
    UsageAfterRecovery(a, now);
    BucketIsDays(a, now);
    ResetsInDaysUnique(a, now, Days(a, now), ResetBucketDays(a, now));
    CreditsAmount(a, now, plans);
    CreditsUnique(a, plans, Credits(a, plans), RemainingCredits(Recovered(a, now), plans));
  }

  lemma FinalistIsFree(views: seq<Account>, now: real, o: Options, k: nat)
    requires Finalist(views, now, o, k)
    ensures k < |views| && !Blocked(views[k], now)
  {
  }

  lemma RankLength(ord: Order, a: Account, b: Account, now: real, plans: PlanCredits)
    ensures |Rank(ord, a, now, plans)| == |Rank(ord, b, now, plans)|
  {
  }

  /** Before, as the keys have it. */
  lemma BeforeByKey(ord: Order, views: seq<Account>, now: real, plans: PlanCredits, j: nat, k: nat)
    requires j < |views| && k < |views| && !Blocked(views[j], now) && !Blocked(views[k], now)
    ensures var post := RecoveredAll(views, now);
            var x, y := KeyOf(KindOf(ord), post[j], now, plans), KeyOf(KindOf(ord), post[k], now, plans);
            Before(ord, views, now, plans, j, k) <==> Less(x, y) || (x == y && j < k)
  {
    RankIsKey(ord, views[j], now, plans);
    RankIsKey(ord, views[k], now, plans);
    RankLength(ord, views[j], views[k], now, plans);
    LessMeaning(Key(Rank(ord, views[j], now, plans), views[j].id), Key(Rank(ord, views[k], now, plans), views[k].id));
  }

  lemma LeastIsTheFirst(ord: Order, views: seq<Account>, now: real, o: Options, plans: PlanCredits, k: nat)
    requires PickPool(views, now, o, plans) != []
    ensures k == Least(KindOf(ord), RecoveredAll(views, now), PickPool(views, now, o, plans), now, plans) <==>
            First(ord, views, now, o, plans, k)
  {
    var post, pool := RecoveredAll(views, now), PickPool(views, now, o, plans);
    var m := Least(KindOf(ord), post, pool, now, plans);
    PickPoolAscending(views, now, o, plans);
    forall j: nat ensures j in pool <==> Finalist(views, now, o, j) {
      FinalistsAre(views, now, o, plans, j);
    }
    forall j: nat | j in pool
      ensures !Before(ord, views, now, plans, j, m) && (j != m ==> Before(ord, views, now, plans, m, j))
    {
      NoneBeforeLeast(ord, views, now, o, plans, j);
    }
  }

  lemma NoneBeforeLeast(ord: Order, views: seq<Account>, now: real, o: Options, plans: PlanCredits, j: nat)
    requires var pool := PickPool(views, now, o, plans); pool != [] && j in pool && Ascending(pool)
    ensures var m := Least(KindOf(ord), RecoveredAll(views, now), PickPool(views, now, o, plans), now, plans);
            && m < |views| && j < |views|
            && !Before(ord, views, now, plans, j, m) && (j != m ==> Before(ord, views, now, plans, m, j))
  {
    var post, pool := RecoveredAll(views, now), PickPool(views, now, o, plans);
    var m := Least(KindOf(ord), post, pool, now, plans);
    FinalistsAre(views, now, o, plans, j);
    FinalistsAre(views, now, o, plans, m);
    FinalistIsFree(views, now, o, j);
    FinalistIsFree(views, now, o, m);
    LeastIsFirst(KindOf(ord), post, pool, now, plans, j);
    BeforeByKey(ord, views, now, plans, j, m);
    BeforeByKey(ord, views, now, plans, m, j);
    LessTotal(KeyOf(KindOf(ord), post[m], now, plans), KeyOf(KindOf(ord), post[j], now, plans));
  }

  lemma ExhaustedIff(views: seq<Account>, now: real, o: Options, plans: PlanCredits)
    ensures Exhausted(RecoveredAll(views, now), PickPool(views, now, o, plans), plans) <==>
            !SomebodyHasCredits(views, now, o, plans)
    ensures forall k: nat :: k in PickPool(views, now, o, plans) ==>
              RemainingCredits(RecoveredAll(views, now)[k], plans) == Credits(views[k], plans)
  {
    var post, pool := RecoveredAll(views, now), PickPool(views, now, o, plans);
    forall j: nat ensures j in pool <==> Finalist(views, now, o, j) {
      FinalistsAre(views, now, o, plans, j);
    }
    forall k: nat | k in pool ensures RemainingCredits(post[k], plans) == Credits(views[k], plans) {
      FinalistIsFree(views, now, o, k);
      RankIsKey(MostCredits, views[k], now, plans);
    }
  }

  lemma NobodyWithoutPool(views: seq<Account>, now: real, o: Options, plans: PlanCredits, k: nat)
    requires PickPool(views, now, o, plans) == []
    ensures !Chosen(views, now, o, plans, k)
  {
    FinalistsAre(views, now, o, plans, k);
  }

  lemma OrderIsKind(o: Options)
    ensures OrderOf(o).Some? <==> DeterministicKind(o).Some?
    ensures OrderOf(o).Some? ==> KindOf(OrderOf(o).value) == DeterministicKind(o).value
  {
  }

  lemma DrawnIffChosen(views: seq<Account>, now: real, o: Options, plans: PlanCredits, k: nat)
    requires OrderOf(o).None? && PickPool(views, now, o, plans) != []
    ensures MayPick(RecoveredAll(views, now), PickPool(views, now, o, plans), now, o, plans, k) <==> Chosen(views, now, o, plans, k)
  {
    OrderIsKind(o);
    ExhaustedIff(views, now, o, plans);
    FinalistsAre(views, now, o, plans, k);
    LeastIsTheFirst(LeastUsed, views, now, o, plans, k);
  }

  /** An account may be selected exactly when it is chosen by the rules above. */
  lemma SelectedIffChosen(views: seq<Account>, now: real, o: Options, plans: PlanCredits, k: nat)
    ensures IsSelection(views, now, o, plans, k) <==> Chosen(views, now, o, plans, k)
  {
    OrderIsKind(o);
    if PickPool(views, now, o, plans) == [] {
      NobodyWithoutPool(views, now, o, plans, k);
    } else if OrderOf(o).Some? {
      LeastIsTheFirst(OrderOf(o).value, views, now, o, plans, k);
    } else {
      DrawnIffChosen(views, now, o, plans, k);
    }
  }

  /** Somebody is selected exactly when there is a candidate: somebody serves, or is let out. */
  lemma SelectsIffCandidate(views: seq<Account>, now: real, o: Options, plans: PlanCredits)
    ensures PickPool(views, now, o, plans) != [] <==> exists k: nat :: Candidate(views, now, o, k)
  {
    var pool := Candidates(views, now, o.allowBackoffFallback, plans);
    PickPoolEmptyIff(views, now, o, plans);
    forall k: nat ensures k in pool <==> Candidate(views, now, o, k) {
      CandidatesAre(views, now, o, plans, k);
    }
    if pool != [] {
      assert pool[0] in pool;
    }
  }
}

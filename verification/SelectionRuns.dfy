/** Properties of the account selector over runs of selections (app/core/balancer/logic.py). */
module SelectionRuns {
  import opened Basics
  import opened Wrappers
  import opened LexOrder
  import opened AccountSelection

  // ---- Round robin is fair ----

  function LastOf(a: Account): real {
    a.lastSelectedAt.GetOr(0.0)
  }

  /** One selection of a run: the states before it, the clock, the pick, and the time stamped on it. */
  datatype Turn = Turn(views: seq<Account>, now: real, pick: nat, stamp: real)

  /** All accounts are available and of one tier, the pick is a round-robin selection and its stamp
      is later than every one before. */
  ghost predicate FairTurn(t: Turn, o: Options, plans: PlanCredits) {
    && o.strategy.RoundRobin?
    && (forall i :: 0 <= i < |t.views| ==> Classify(t.views[i], t.now).Available?)
    && (forall i, j :: 0 <= i < |t.views| && 0 <= j < |t.views| ==> t.views[i].healthTier == t.views[j].healthTier)
    && IsSelection(t.views, t.now, o, plans, t.pick)
    && (forall i :: 0 <= i < |t.views| ==> LastOf(t.views[i]) < t.stamp)
  }

  /** The next turn sees the stamp; anything else about the accounts may have changed. */
  ghost predicate Follows(t: Turn, u: Turn) {
    && |t.views| == |u.views|
    && forall i :: 0 <= i < |t.views| ==> LastOf(u.views[i]) == if i == t.pick then t.stamp else LastOf(t.views[i])
  }

  ghost predicate FairRun(turns: seq<Turn>, o: Options, plans: PlanCredits) {
    && (forall t :: 0 <= t < |turns| ==> FairTurn(turns[t], o, plans))
    && (forall t, u :: 0 <= t && u == t + 1 < |turns| ==> Follows(turns[t], turns[u]))
  }

  lemma RecoveredKeeps(a: Account, now: real)
    ensures Recovered(a, now).lastSelectedAt == a.lastSelectedAt && Recovered(a, now).healthTier == a.healthTier
    ensures Recovered(a, now).id == a.id
  {
  }

  /** Everybody of one tier is in the pool. */
  lemma SameTierPool(views: seq<Account>, pool: seq<nat>, j: nat)
    requires Within(pool, views) && j in pool
    requires forall i, k :: i in pool && k in pool ==> views[i].healthTier == views[k].healthTier
    ensures j in BestTier(views, pool)
  {
    var tier := views[j].healthTier;
    forall t ensures t != tier ==> OfTier(views, pool, t) == [] {
      var r := OfTier(views, pool, t);
      assert r != [] ==> r[0] in r;
    }
    assert j in OfTier(views, pool, tier);
  }

  lemma FairPool(t: Turn, o: Options, plans: PlanCredits, j: nat)
    requires FairTurn(t, o, plans) && j < |t.views|
    ensures j in PickPool(t.views, t.now, o, plans)
  {
    var post, pool := RecoveredAll(t.views, t.now), Candidates(t.views, t.now, o.allowBackoffFallback, plans);
    WhereMembers(t.views, t.now, Available);
    assert j in Where(t.views, t.now, Available);
    assert j in pool;
    forall i | 0 <= i < |post| ensures post[i].healthTier == t.views[i].healthTier {
      RecoveredKeeps(t.views[i], t.now);
    }
    SameTierPool(post, pool, j);
  }

  /** The pick was selected least recently. */
  lemma FairPick(t: Turn, o: Options, plans: PlanCredits, j: nat)
    requires FairTurn(t, o, plans) && j < |t.views|
    ensures t.pick < |t.views| && LastOf(t.views[t.pick]) <= LastOf(t.views[j])
  {
    FairPool(t, o, plans, j);
    SelectionIsSound(t.views, t.now, o, plans, t.pick);
    var x, y := Recovered(t.views[j], t.now), Recovered(t.views[t.pick], t.now);
    RecoveredKeeps(t.views[j], t.now);
    RecoveredKeeps(t.views[t.pick], t.now);
    assert !Less(KeyOf(ByLastSelected, x, t.now, plans), KeyOf(ByLastSelected, y, t.now, plans));
  }

  /** What fairness depends on: when each account was last selected, the pick and its stamp. */
  datatype Beat = Beat(lasts: seq<real>, pick: nat, stamp: real)

  /** The pick was selected least recently, and is stamped later than all. */
  ghost predicate GoodBeat(b: Beat) {
    b.pick < |b.lasts| && forall j :: 0 <= j < |b.lasts| ==> b.lasts[b.pick] <= b.lasts[j] < b.stamp
  }

  ghost predicate GoodBeats(beats: seq<Beat>, n: nat) {
    && (forall t :: 0 <= t < |beats| ==> |beats[t].lasts| == n && GoodBeat(beats[t]))
    && (forall t :: 0 <= t < |beats| - 1 ==> Stamped(beats, t))
  }

  ghost predicate Stamped(beats: seq<Beat>, t: nat)
    requires t + 1 < |beats|
  {
    var b := beats[t];
    b.pick < |b.lasts| && beats[t + 1].lasts == b.lasts[b.pick := b.stamp]
  }

  function Beats(turns: seq<Turn>): (r: seq<Beat>)
    ensures |r| == |turns|
    ensures forall t :: 0 <= t < |turns| ==> r[t] == BeatOf(turns[t])
  {
    seq(|turns|, t requires 0 <= t < |turns| => BeatOf(turns[t]))
  }

  function BeatOf(t: Turn): Beat {
    Beat(seq(|t.views|, i requires 0 <= i < |t.views| => LastOf(t.views[i])), t.pick, t.stamp)
  }

  lemma FairTurnIsGood(t: Turn, o: Options, plans: PlanCredits)
    requires FairTurn(t, o, plans)
    ensures GoodBeat(BeatOf(t))
  {
    SelectionIsSound(t.views, t.now, o, plans, t.pick);
    forall j | 0 <= j < |t.views| ensures LastOf(t.views[t.pick]) <= LastOf(t.views[j]) {
      FairPick(t, o, plans, j);
    }
  }

  lemma {:induction false} FairRunSizes(turns: seq<Turn>, o: Options, plans: PlanCredits, t: nat)
    requires FairRun(turns, o, plans) && t < |turns|
    ensures |turns[t].views| == |turns[0].views|
  {
    if t > 0 {
      FairRunSizes(turns, o, plans, t - 1);
      assert Follows(turns[t - 1], turns[t]);
    }
  }

  lemma FairRunIsGood(turns: seq<Turn>, o: Options, plans: PlanCredits)
    requires FairRun(turns, o, plans) && turns != []
    ensures GoodBeats(Beats(turns), |turns[0].views|)
  {
    forall t | 0 <= t < |turns| ensures |BeatOf(turns[t]).lasts| == |turns[0].views| && GoodBeat(BeatOf(turns[t])) {
      FairRunSizes(turns, o, plans, t);
      FairTurnIsGood(turns[t], o, plans);
    }
    forall t | 0 <= t < |turns| - 1 ensures Stamped(Beats(turns), t) {
      assert GoodBeat(BeatOf(turns[t]));
    }
  }

  /** Accounts picked in beats s, ..., t - 1. */
  ghost function PickedIn(beats: seq<Beat>, s: nat, t: nat): set<nat>
    requires s <= t <= |beats|
  {
    set i | s <= i < t :: beats[i].pick
  }

  lemma PickedInSnoc(beats: seq<Beat>, s: nat, t: nat)
    requires s < t <= |beats|
    ensures PickedIn(beats, s, t) == PickedIn(beats, s, t - 1) + {beats[t - 1].pick}
  {
  }

  ghost predicate DistinctPicks(beats: seq<Beat>, s: nat, t: nat)
    requires s <= t <= |beats|
  {
    forall i, j :: s <= i < j < t ==> beats[i].pick != beats[j].pick
  }

  lemma {:induction false} PickedInSize(beats: seq<Beat>, s: nat, t: nat)
    requires s <= t <= |beats|
    ensures |PickedIn(beats, s, t)| <= t - s
    ensures DistinctPicks(beats, s, t) ==> |PickedIn(beats, s, t)| == t - s
  {
    if s < t {
      PickedInSize(beats, s, t - 1);
      PickedInSnoc(beats, s, t);
    } else {
      assert PickedIn(beats, s, t) == {};
    }
  }

  /** Times of selection only grow, and grow only by being picked. */
  lemma {:induction false} LastGrows(beats: seq<Beat>, n: nat, s: nat, t: nat, j: nat)
    requires GoodBeats(beats, n) && s <= t < |beats| && j < n
    ensures beats[s].lasts[j] <= beats[t].lasts[j]
    ensures j !in PickedIn(beats, s, t) ==> beats[t].lasts[j] == beats[s].lasts[j]
    decreases t
  {
    if s < t {
      LastGrows(beats, n, s, t - 1, j);
      assert GoodBeat(beats[t - 1]) && Stamped(beats, t - 1);
      PickedInSnoc(beats, s, t);
    }
  }

  function UpTo(n: nat): (s: set<nat>)
    ensures |s| == n && forall i: nat :: i in s <==> i < n
  {
    if n == 0 then {} else UpTo(n - 1) + {n - 1}
  }

  /** Between two picks of one account every other account has its turn. */
  lemma NoEarlyRepeat(beats: seq<Beat>, n: nat, s: nat, t: nat)
    requires GoodBeats(beats, n) && s < t < |beats| && beats[s].pick == beats[t].pick
    ensures t - s >= n
  {
    var k := beats[s].pick;
    assert GoodBeat(beats[s]) && GoodBeat(beats[t]) && Stamped(beats, s);
    LastGrows(beats, n, s + 1, t, k);
    forall j | j in UpTo(n) - {k} ensures j in PickedIn(beats, s + 1, t) {
      LastGrows(beats, n, s + 1, t, j);
    }
    PickedInSize(beats, s + 1, t);
    SubsetSize(UpTo(n) - {k}, PickedIn(beats, s + 1, t));
  }

  lemma WindowDistinct(beats: seq<Beat>, n: nat, s: nat)
    requires GoodBeats(beats, n) && s + n <= |beats|
    ensures DistinctPicks(beats, s, s + n)
  {
    forall i, j | s <= i < j < s + n ensures beats[i].pick != beats[j].pick {
      if beats[i].pick == beats[j].pick { NoEarlyRepeat(beats, n, i, j); }
    }
  }

  lemma WindowHitsAll(beats: seq<Beat>, n: nat, s: nat)
    requires GoodBeats(beats, n) && s + n <= |beats|
    ensures PickedIn(beats, s, s + n) == UpTo(n)
  {
    WindowDistinct(beats, n, s);
    PickedInSize(beats, s, s + n);
    SubsetSize(PickedIn(beats, s, s + n), UpTo(n));
  }

  /** In n consecutive beats account `k` is picked, and only once. */
  lemma BeatsAreFair(beats: seq<Beat>, n: nat, s: nat, k: nat) returns (i: nat)
    requires GoodBeats(beats, n) && s + n <= |beats| && k < n
    ensures s <= i < s + n && beats[i].pick == k
    ensures forall j :: s <= j < s + n && beats[j].pick == k ==> j == i
  {
    WindowDistinct(beats, n, s);
    WindowHitsAll(beats, n, s);
    assert k in PickedIn(beats, s, s + n);
    i :| s <= i < s + n && beats[i].pick == k;
  }

  /** Any n consecutive round-robin picks over n such accounts hit each account exactly once. */
  lemma RoundRobinIsFair(turns: seq<Turn>, o: Options, plans: PlanCredits, s: nat, k: nat) returns (i: nat)
    requires FairRun(turns, o, plans) && turns != [] && s + |turns[0].views| <= |turns| && k < |turns[0].views|
    ensures s <= i < s + |turns[0].views| && turns[i].pick == k
    ensures forall j :: s <= j < s + |turns[0].views| && turns[j].pick == k ==> j == i
  {
    FairRunIsGood(turns, o, plans);
    i := BeatsAreFair(Beats(turns), |turns[0].views|, s, k);
  }

  // ---- A quota lasts until its reset and its cooldown ----

  /** The account after selections at the given times. */
  function AfterSelections(a: Account, times: seq<real>): Account {
    if times == [] then a else Recovered(AfterSelections(a, times[..|times| - 1]), times[|times| - 1])
  }

  predicate NonDecreasing(times: seq<real>) {
    forall i, j :: 0 <= i <= j < |times| ==> times[i] <= times[j]
  }

  /** Not selectable before both times: still limited, or the limit lifted and still cooling down,
      or both times past. */
  ghost predicate HeldBack(a: Account, reset: real, cooldown: real, now: real) {
    || (a.status.QuotaExceeded? && a.resetAt == Some(reset) && a.cooldownUntil == Some(cooldown))
    || (now >= reset && a.cooldownUntil == Some(cooldown) && a.status.Active?)
    || (now >= reset && now >= cooldown)
  }

  lemma {:induction false} HeldBackAlong(a: Account, reset: real, cooldown: real, times: seq<real>, now: real)
    requires a.status.QuotaExceeded? && a.resetAt == Some(reset) && a.cooldownUntil == Some(cooldown) && cooldown != 0.0
    requires NonDecreasing(times + [now])
    ensures HeldBack(AfterSelections(a, times), reset, cooldown, now)
  {
    if times != [] {
      var n := |times| - 1;
      var all := times + [now];
      assert all[n] == times[n] && all[|all| - 1] == now;
      assert times[..n] + [times[n]] == times;
      assert NonDecreasing(times) by {
        assert forall i :: 0 <= i < |times| ==> all[i] == times[i];
      }
      HeldBackAlong(a, reset, cooldown, times[..n], times[n]);
    }
  }

  /** After a quota is recorded, no selection of any run with a clock that does not go back returns
      the account before both its reset and its cooldown. */
  lemma QuotaHoldsUntilReset(a: Account, reset: real, cooldown: real, times: seq<real>, now: real,
                             views: seq<Account>, o: Options, plans: PlanCredits, k: nat)
    requires a.status.QuotaExceeded? && a.resetAt == Some(reset) && a.cooldownUntil == Some(cooldown) && cooldown != 0.0
    requires NonDecreasing(times + [now])
    requires k < |views| && views[k] == AfterSelections(a, times) && IsSelection(views, now, o, plans, k)
    ensures now >= reset && now >= cooldown
  {
    HeldBackAlong(a, reset, cooldown, times, now);
    SelectionIsSound(views, now, o, plans, k);
  }
}

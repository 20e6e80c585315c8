/**
 * Sliding-window limits: the in-process retry budget (app/core/resilience/retry_budget.py) and the
 * shared attempts table (app/core/rate_limiter/db_rate_limiter.py).
 */
module RateLimits {
  import opened Basics
  import opened Wrappers

  /** How many of the times lie in a closed interval. */
  function CountIn(times: seq<real>, lo: real, hi: real): nat {
    if times == [] then 0
    else CountIn(times[..|times| - 1], lo, hi) + if lo <= times[|times| - 1] <= hi then 1 else 0
  }

  predicate Ascending(times: seq<real>) {
    forall i, j :: 0 <= i <= j < |times| ==> times[i] <= times[j]
  }

  // ---- The retry budget ----

  function DropOld(times: seq<real>, cutoff: real): seq<real> {
    if times != [] && times[0] < cutoff then DropOld(times[1..], cutoff) else times
  }

  datatype Budget = Budget(maxRetries: int, window: real)

  /** The deque, and every time a retry was granted. */
  datatype BudgetState = BudgetState(recent: seq<real>, granted: seq<real>)

  predicate Grants(b: Budget, recent: seq<real>, now: real) {
    |DropOld(recent, now - b.window)| < b.maxRetries
  }

  function Acquired(b: Budget, s: BudgetState, now: real): BudgetState {
    var kept := DropOld(s.recent, now - b.window);
    if Grants(b, s.recent, now) then BudgetState(kept + [now], s.granted + [now]) else BudgetState(kept, s.granted)
  }

  function AfterAcquires(b: Budget, times: seq<real>): BudgetState {
    if times == [] then BudgetState([], []) else Acquired(b, AfterAcquires(b, times[..|times| - 1]), times[|times| - 1])
  }

  lemma {:induction false} DropOldSplits(times: seq<real>, cutoff: real) returns (n: nat)
    ensures n <= |times| && DropOld(times, cutoff) == times[n..]
    ensures forall i :: 0 <= i < n ==> times[i] < cutoff
    ensures n < |times| ==> times[n] >= cutoff
  {
    if times != [] && times[0] < cutoff {
      var m := DropOldSplits(times[1..], cutoff);
      n := m + 1;
      assert times[1..][m..] == times[n..];
      forall i | 0 <= i < n ensures times[i] < cutoff {
        if i > 0 { assert times[1..][i - 1] < cutoff; }
      }
    } else {
      n := 0;
    }
  }

  /** The deque is the end of the grants; what was dropped lies before every window still open. */
  ghost predicate Tracks(b: Budget, s: BudgetState, now: real) {
    && |s.recent| <= |s.granted| && s.granted[|s.granted| - |s.recent|..] == s.recent
    && Ascending(s.granted)
    && (forall i :: 0 <= i < |s.granted| ==> s.granted[i] <= now)
    && (forall i :: 0 <= i < |s.granted| - |s.recent| ==> s.granted[i] < now - b.window)
  }

  lemma DroppingTracks(b: Budget, s: BudgetState, before: real, now: real)
    requires Tracks(b, s, before) && before <= now
    ensures Tracks(b, BudgetState(DropOld(s.recent, now - b.window), s.granted), now)
  {
    var n := DropOldSplits(s.recent, now - b.window);
    var d := |s.granted| - |s.recent|;
    assert s.granted[d..][n..] == s.granted[d + n..];
    forall i | 0 <= i < d + n ensures s.granted[i] < now - b.window {
      if i >= d {
        assert s.granted[i] == s.recent[i - d];
      } else {
        assert s.granted[i] < before - b.window;
      }
    }
  }

  lemma AcquiredTracks(b: Budget, s: BudgetState, before: real, now: real)
    requires Tracks(b, s, before) && before <= now
    ensures Tracks(b, Acquired(b, s, now), now)
  {
    DroppingTracks(b, s, before, now);
  }

  lemma {:induction false} RunTracks(b: Budget, times: seq<real>, now: real)
    requires Ascending(times) && forall i :: 0 <= i < |times| ==> times[i] <= now
    ensures Tracks(b, AfterAcquires(b, times), now)
  {
    if times != [] {
      var init, last := times[..|times| - 1], times[|times| - 1];
      RunTracks(b, init, last);
      AcquiredTracks(b, AfterAcquires(b, init), last, last);
    }
  }

  lemma {:induction false} CountAppend(a: seq<real>, c: seq<real>, lo: real, hi: real)
    ensures CountIn(a + c, lo, hi) == CountIn(a, lo, hi) + CountIn(c, lo, hi)
  {
    if c == [] {
      assert a + c == a;
    } else {
      assert (a + c)[..|a + c| - 1] == a + c[..|c| - 1];
      CountAppend(a, c[..|c| - 1], lo, hi);
    }
  }

  lemma {:induction false} CountAtMost(times: seq<real>, lo: real, hi: real)
    ensures CountIn(times, lo, hi) <= |times|
  {
    if times != [] {
      CountAtMost(times[..|times| - 1], lo, hi);
    }
  }

  lemma {:induction false} CountNone(times: seq<real>, lo: real, hi: real)
    requires forall i :: 0 <= i < |times| ==> times[i] < lo
    ensures CountIn(times, lo, hi) == 0
  {
    if times != [] {
      CountNone(times[..|times| - 1], lo, hi);
    }
  }

  /** Grants in a window that ends now are all still in the deque. */
  lemma RecentCoversWindow(b: Budget, s: BudgetState, now: real, lo: real, hi: real)
    requires Tracks(b, s, now) && lo >= now - b.window
    ensures CountIn(s.granted, lo, hi) <= |s.recent|
  {
    var d := |s.granted| - |s.recent|;
    var dropped := s.granted[..d];
    assert s.granted == dropped + s.recent;
    CountAppend(dropped, s.recent, lo, hi);
    forall i | 0 <= i < |dropped| ensures dropped[i] < lo {
      assert dropped[i] == s.granted[i];
    }
    CountNone(dropped, lo, hi);
    CountAtMost(s.recent, lo, hi);
  }

  lemma GrantKeepsBudget(b: Budget, s: BudgetState, t: BudgetState, now: real, x: real)
    requires t.granted == s.granted + [now] && Tracks(b, t, now) && |t.recent| <= b.maxRetries
    requires CountIn(s.granted, x, x + b.window) <= b.maxRetries
    ensures CountIn(t.granted, x, x + b.window) <= b.maxRetries
  {
    if x <= now <= x + b.window {
      RecentCoversWindow(b, t, now, x, x + b.window);
    } else {
      CountAppend(s.granted, [now], x, x + b.window);
    }
  }

  /** With a clock that does not go back, no closed interval as long as the window holds more grants
      than the budget allows. */
  lemma {:induction false} BudgetNeverExceeded(b: Budget, times: seq<real>, x: real)
    requires Ascending(times)
    ensures CountIn(AfterAcquires(b, times).granted, x, x + b.window) <= if b.maxRetries > 0 then b.maxRetries else 0
  {
    if times != [] {
      var init, now := times[..|times| - 1], times[|times| - 1];
      BudgetNeverExceeded(b, init, x);
      var s := AfterAcquires(b, init);
      if Grants(b, s.recent, now) {
        RunTracks(b, times, now);
        GrantKeepsBudget(b, s, AfterAcquires(b, times), now, x);
      }
    }
  }

  function Remaining(b: Budget, recent: seq<real>, now: real): int {
    var left := b.maxRetries - CountFrom(recent, now - b.window);
    if left > 0 then left else 0
  }

  function CountFrom(times: seq<real>, cutoff: real): nat {
    if times == [] then 0
    else CountFrom(times[..|times| - 1], cutoff) + if times[|times| - 1] >= cutoff then 1 else 0
  }

  lemma {:induction false} CountFromSorted(times: seq<real>, cutoff: real, n: nat)
    requires Ascending(times) && n <= |times|
    requires (forall i :: 0 <= i < n ==> times[i] < cutoff) && (n < |times| ==> times[n] >= cutoff)
    ensures CountFrom(times, cutoff) == |times| - n
    decreases |times|
  {
    if times != [] {
      var init := times[..|times| - 1];
      CountFromSorted(init, cutoff, if n < |times| then n else n - 1);
    }
  }

  lemma CountFromDropOld(times: seq<real>, cutoff: real)
    requires Ascending(times)
    ensures CountFrom(times, cutoff) == |DropOld(times, cutoff)|
  {
    var n := DropOldSplits(times, cutoff);
    CountFromSorted(times, cutoff, n);
  }

  /** The remaining budget is zero exactly when the next acquire would be refused. */
  lemma RemainingZeroIffRefused(b: Budget, times: seq<real>, now: real)
    requires Ascending(times)
    ensures var recent := AfterAcquires(b, times).recent;
            Remaining(b, recent, now) == 0 <==> !Grants(b, recent, now)
  {
    RecentStaysAscending(b, times);
    CountFromDropOld(AfterAcquires(b, times).recent, now - b.window);
  }

  lemma RecentStaysAscending(b: Budget, times: seq<real>)
    requires Ascending(times)
    ensures Ascending(AfterAcquires(b, times).recent)
  {
    var last := if times == [] then 0.0 else times[|times| - 1];
    RunTracks(b, times, last);
  }

  class RetryBudget {
    const budget: Budget
    var timestamps: seq<real>

    constructor (budget: Budget)
      ensures this.budget == budget && timestamps == []
    {
      this.budget := budget;
      timestamps := [];
    }

    method TryAcquire(now: real) returns (granted: bool)
      modifies this
      ensures granted == Grants(budget, old(timestamps), now)
      ensures forall earlier :: Acquired(budget, BudgetState(old(timestamps), earlier), now) ==
                BudgetState(timestamps, if granted then earlier + [now] else earlier)
    {
      var cutoff := now - budget.window;
      while timestamps != [] && timestamps[0] < cutoff
        invariant DropOld(timestamps, cutoff) == DropOld(old(timestamps), cutoff)
        decreases |timestamps|
      {
        timestamps := timestamps[1..];
      }
      if |timestamps| >= budget.maxRetries {
        return false;
      }
      timestamps := timestamps + [now];
      granted := true;
    }
  }

  // ---- The attempts table ----

  datatype Row = Row(key: string, kind: string, at: real)

  /** A limiter: all limiters of one kind have the same limits. */
  datatype Limiter = Limiter(kind: string, maxAttempts: int, window: real)

  predicate Matches(r: Row, key: string, kind: string) {
    r.key == key && r.kind == kind
  }

  /** Attempts at or after a time: the subquery's count. */
  function CountSince(rows: seq<Row>, key: string, kind: string, since: real): nat {
    if rows == [] then 0
    else
      var r := rows[|rows| - 1];
      CountSince(rows[..|rows| - 1], key, kind, since) + if Matches(r, key, kind) && r.at >= since then 1 else 0
  }

  function CountWindow(rows: seq<Row>, key: string, kind: string, lo: real, hi: real): nat {
    if rows == [] then 0
    else
      var r := rows[|rows| - 1];
      CountWindow(rows[..|rows| - 1], key, kind, lo, hi) + if Matches(r, key, kind) && lo <= r.at <= hi then 1 else 0
  }

  predicate Admits(l: Limiter, rows: seq<Row>, key: string, now: real) {
    CountSince(rows, key, l.kind, now - l.window) < l.maxAttempts
  }

  datatype TableEvent =
    | CheckAndIncrement(limiter: Limiter, key: string, now: real)
    | ClearForKey(kind: string, key: string)
    | Cleanup(cutoff: real)

  function DeleteMatching(rows: seq<Row>, key: string, kind: string): seq<Row> {
    if rows == [] then []
    else DeleteMatching(rows[..|rows| - 1], key, kind) +
         if Matches(rows[|rows| - 1], key, kind) then [] else [rows[|rows| - 1]]
  }

  function DeleteBefore(rows: seq<Row>, cutoff: real): seq<Row> {
    if rows == [] then []
    else DeleteBefore(rows[..|rows| - 1], cutoff) + if rows[|rows| - 1].at < cutoff then [] else [rows[|rows| - 1]]
  }

  function AfterEvent(rows: seq<Row>, e: TableEvent): seq<Row> {
    match e
    case CheckAndIncrement(l, key, now) => if Admits(l, rows, key, now) then rows + [Row(key, l.kind, now)] else rows
    case ClearForKey(kind, key) => DeleteMatching(rows, key, kind)
    case Cleanup(cutoff) => DeleteBefore(rows, cutoff)
  }

  function AfterEvents(events: seq<TableEvent>): seq<Row> {
    if events == [] then [] else AfterEvent(AfterEvents(events[..|events| - 1]), events[|events| - 1])
  }

  lemma {:induction false} WindowWithinSince(rows: seq<Row>, key: string, kind: string, lo: real, hi: real, since: real)
    requires since <= lo
    ensures CountWindow(rows, key, kind, lo, hi) <= CountSince(rows, key, kind, since)
  {
    if rows != [] {
      WindowWithinSince(rows[..|rows| - 1], key, kind, lo, hi, since);
    }
  }

  lemma {:induction false} ClearingLowersCounts(rows: seq<Row>, key: string, kind: string, lo: real, hi: real, k: string, t: string)
    ensures CountWindow(DeleteMatching(rows, k, t), key, kind, lo, hi) <= CountWindow(rows, key, kind, lo, hi)
  {
    if rows != [] {
      var init, r := rows[..|rows| - 1], rows[|rows| - 1];
      ClearingLowersCounts(init, key, kind, lo, hi, k, t);
      assert DeleteMatching(init, k, t) + [] == DeleteMatching(init, k, t);
    }
  }

  lemma {:induction false} CleanupLowersCounts(rows: seq<Row>, key: string, kind: string, lo: real, hi: real, cutoff: real)
    ensures CountWindow(DeleteBefore(rows, cutoff), key, kind, lo, hi) <= CountWindow(rows, key, kind, lo, hi)
  {
    if rows != [] {
      var init, r := rows[..|rows| - 1], rows[|rows| - 1];
      CleanupLowersCounts(init, key, kind, lo, hi, cutoff);
      assert DeleteBefore(init, cutoff) + [] == DeleteBefore(init, cutoff);
    }
  }

  /** Clearing a key forgets its attempts and no others. */
  lemma {:induction false} ClearingForgetsOneKey(rows: seq<Row>, k: string, t: string, key: string, kind: string, since: real)
    ensures CountSince(DeleteMatching(rows, k, t), key, kind, since) ==
            if key == k && kind == t then 0 else CountSince(rows, key, kind, since)
  {
    if rows != [] {
      var init, r := rows[..|rows| - 1], rows[|rows| - 1];
      ClearingForgetsOneKey(init, k, t, key, kind, since);
      assert DeleteMatching(init, k, t) + [] == DeleteMatching(init, k, t);
    }
  }

  /** Cleaning up attempts that no window reaches changes no count, so no decision. */
  lemma {:induction false} CleanupKeepsCounts(rows: seq<Row>, cutoff: real, key: string, kind: string, since: real)
    requires cutoff <= since
    ensures CountSince(DeleteBefore(rows, cutoff), key, kind, since) == CountSince(rows, key, kind, since)
  {
    if rows != [] {
      var init, r := rows[..|rows| - 1], rows[|rows| - 1];
      CleanupKeepsCounts(init, cutoff, key, kind, since);
      assert DeleteBefore(init, cutoff) + [] == DeleteBefore(init, cutoff);
    }
  }

  lemma AdmittingKeepsLimit(l: Limiter, rows: seq<Row>, k: string, now: real, key: string, x: real)
    requires CountWindow(rows, key, l.kind, x, x + l.window) <= l.maxAttempts
    ensures CountWindow(AfterEvent(rows, CheckAndIncrement(l, k, now)), key, l.kind, x, x + l.window) <= l.maxAttempts
  {
    if x <= now <= x + l.window {
      WindowWithinSince(rows, key, l.kind, x, x + l.window, now - l.window);
    }
  }

  /** Whatever the order of the recorded clocks, the attempts still recorded for a key never put more
      than the maximum into any closed interval as long as the window. */
  lemma {:induction false} LimitNeverExceeded(events: seq<TableEvent>, l: Limiter, key: string, x: real)
    requires l.maxAttempts > 0
    requires forall i :: 0 <= i < |events| && events[i].CheckAndIncrement? && events[i].limiter.kind == l.kind ==> events[i].limiter == l
    ensures CountWindow(AfterEvents(events), key, l.kind, x, x + l.window) <= l.maxAttempts
  {
    if events != [] {
      var init, e := events[..|events| - 1], events[|events| - 1];
      LimitNeverExceeded(init, l, key, x);
      var rows := AfterEvents(init);
      match e
      case CheckAndIncrement(m, k, now) =>
        if m.kind == l.kind {
          AdmittingKeepsLimit(l, rows, k, now, key, x);
        }
      case ClearForKey(t, k) => ClearingLowersCounts(rows, key, l.kind, x, x + l.window, k, t);
      case Cleanup(cutoff) => CleanupLowersCounts(rows, key, l.kind, x, x + l.window, cutoff);
    }
  }

  /** `r` is counted, and no attempt counted is earlier. */
  ghost predicate EarliestCounted(rows: seq<Row>, key: string, kind: string, since: real, r: Row) {
    && r in rows && Matches(r, key, kind) && r.at >= since
    && forall q :: q in rows && Matches(q, key, kind) && q.at >= since ==> r.at <= q.at
  }

  /** The wait is until `r` leaves the window, in whole seconds, and at least one. */
  ghost predicate WaitsFor(r: Row, l: Limiter, now: real, seconds: int) {
    var wait := Truncated(r.at + l.window - now);
    seconds == if wait > 1 then wait else 1
  }

  class AttemptsTable {
    var rows: seq<Row>

    constructor ()
      ensures rows == []
    {
      rows := [];
    }

    /** None when the attempt was recorded, otherwise the seconds to wait: until the earliest counted
        attempt leaves the window, and at least one. */
    method TryAttempt(l: Limiter, key: string, now: real) returns (retryAfter: Option<int>)
      requires l.maxAttempts > 0
      modifies this
      ensures rows == AfterEvent(old(rows), CheckAndIncrement(l, key, now))
      ensures retryAfter.None? <==> Admits(l, old(rows), key, now)
      ensures retryAfter.Some? ==> retryAfter.value >= 1
      ensures retryAfter.Some? ==>
                exists r :: EarliestCounted(rows, key, l.kind, now - l.window, r) && WaitsFor(r, l, now, retryAfter.value)
    {
      var since := now - l.window;
      if CountSince(rows, key, l.kind, since) < l.maxAttempts {
        rows := rows + [Row(key, l.kind, now)];
        return None;
      }
      var oldest := OldestSince(rows, key, l.kind, since);
      var wait := Truncated(oldest.at + l.window - now);
      retryAfter := Some(if wait > 1 then wait else 1);
      assert EarliestCounted(rows, key, l.kind, since, oldest) && WaitsFor(oldest, l, now, retryAfter.value);
    }

    method ClearKey(kind: string, key: string)
      modifies this
      ensures rows == AfterEvent(old(rows), ClearForKey(kind, key))
    {
      rows := DeleteMatching(rows, key, kind);
    }

    method CleanUp(cutoff: real)
      modifies this
      ensures rows == AfterEvent(old(rows), Cleanup(cutoff))
    {
      rows := DeleteBefore(rows, cutoff);
    }
  }

  /** The earliest attempt counted: ORDER BY attempted_at LIMIT 1. */
  function OldestSince(rows: seq<Row>, key: string, kind: string, since: real): (r: Row)
    requires CountSince(rows, key, kind, since) > 0
    ensures EarliestCounted(rows, key, kind, since, r)
  {
    var init, last := rows[..|rows| - 1], rows[|rows| - 1];
    assert rows == init + [last];
    var counts := Matches(last, key, kind) && last.at >= since;
    if CountSince(init, key, kind, since) == 0 then
      NoneSince(init, key, kind, since);
      last
    else
      var r := OldestSince(init, key, kind, since);
      if counts && last.at < r.at then last else r
  }

  lemma {:induction false} NoneSince(rows: seq<Row>, key: string, kind: string, since: real)
    requires CountSince(rows, key, kind, since) == 0
    ensures forall q :: q in rows && Matches(q, key, kind) ==> q.at < since
  {
    if rows != [] {
      NoneSince(rows[..|rows| - 1], key, kind, since);
      assert rows == rows[..|rows| - 1] + [rows[|rows| - 1]];
    }
  }
}

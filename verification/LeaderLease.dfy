/**
 * The scheduler's leader lease on its database path (app/core/scheduling/leader_election.py): one
 * row, taken by a conditional upsert and prolonged by its owner.  Each statement is one step, with
 * the clock reading its caller made before it.
 */
module LeaderLease {
  import opened Wrappers

  datatype Row = Row(leader: string, acquiredAt: real, expiresAt: real)

  /** A statement that changed the row: its leader holds the lease from `start` to `end`. */
  datatype Claim = Claim(leader: string, start: real, end: real)

  /** `claims` and `since`, the time of the last change of owner, are history read by no step. */
  datatype Lease = Lease(row: Option<Row>, claims: seq<Claim>, since: real)

  datatype Event = TryAcquire(leader: string, now: real) | Renew(leader: string, now: real)

  /** The WHERE clauses: whether the statement changes the row. */
  predicate Effective(row: Option<Row>, e: Event) {
    match e
    case TryAcquire(leader, now) => row.None? || row.value.expiresAt < now || row.value.leader == leader
    case Renew(leader, _) => row.Some? && row.value.leader == leader
  }

  function NewRow(row: Option<Row>, e: Event, ttl: real): Option<Row> {
    if !Effective(row, e) then row
    else match e
      case TryAcquire(leader, now) => Some(Row(leader, now, now + ttl))
      case Renew(_, now) => Some(row.value.(expiresAt := now + ttl))
  }

  function Next(s: Lease, e: Event, ttl: real): Lease {
    if !Effective(s.row, e) then s
    else Lease(NewRow(s.row, e, ttl), s.claims + [Claim(e.leader, e.now, e.now + ttl)],
               if s.row.Some? && s.row.value.leader == e.leader then s.since else e.now)
  }

  function Run(events: seq<Event>, ttl: real): Lease {
    if events == [] then Lease(None, [], 0.0) else Next(Run(events[..|events| - 1], ttl), events[|events| - 1], ttl)
  }

  /** The row changes owner only when the new owner's clock is past the stored expiry. */
  lemma OwnerChangesAfterExpiry(row: Option<Row>, e: Event, ttl: real)
    requires row.Some? && NewRow(row, e, ttl).value.leader != row.value.leader
    ensures e.TryAcquire? && NewRow(row, e, ttl).value.leader == e.leader && e.now > row.value.expiresAt
  {
  }

  /** Each replica's statements commit in the order of its clock. */
  predicate ClockOrder(events: seq<Event>) {
    forall i, j :: 0 <= i < j < |events| && events[i].leader == events[j].leader ==> events[i].now <= events[j].now
  }

  /** Claims of other leaders, and of earlier tenures, ended before the tenure began; every claim ended
      by the stored expiry, which the owner's last statement set. */
  ghost predicate Tenured(s: Lease, events: seq<Event>, ttl: real) {
    && (s.row.None? <==> s.claims == [])
    && (s.row.Some? ==>
          && (forall k :: 0 <= k < |s.claims| ==> s.claims[k].end <= s.row.value.expiresAt)
          && (forall k :: 0 <= k < |s.claims| && s.claims[k].leader != s.row.value.leader ==> s.claims[k].end < s.since)
          && (exists i :: 0 <= i < |events| && events[i].leader == s.row.value.leader && events[i].now >= s.since
                          && s.row.value.expiresAt == events[i].now + ttl))
  }

  lemma NextTenured(s: Lease, events: seq<Event>, e: Event, ttl: real)
    requires ttl >= 0.0 && Tenured(s, events, ttl) && ClockOrder(events + [e])
    ensures Tenured(Next(s, e, ttl), events + [e], ttl)
    ensures Effective(s.row, e) ==> forall k :: 0 <= k < |s.claims| && s.claims[k].leader != e.leader ==> s.claims[k].end < e.now
  {
    var all, t := events + [e], Next(s, e, ttl);
    assert all[|events|] == e;
    assert forall i :: 0 <= i < |events| ==> all[i] == events[i];
    if s.row.Some? {
      var i :| 0 <= i < |events| && events[i].leader == s.row.value.leader && events[i].now >= s.since
               && s.row.value.expiresAt == events[i].now + ttl;
      assert all[i] == events[i];
      if Effective(s.row, e) && e.leader == s.row.value.leader {
        assert all[i].now <= all[|events|].now;
      }
    }
    if Effective(s.row, e) {
      assert all[|events|].leader == t.row.value.leader && all[|events|].now >= t.since
             && t.row.value.expiresAt == all[|events|].now + ttl;
    }
  }

  lemma {:induction false} RunTenured(events: seq<Event>, ttl: real)
    requires ttl >= 0.0 && ClockOrder(events)
    ensures Tenured(Run(events, ttl), events, ttl)
  {
    if events != [] {
      var init, e := events[..|events| - 1], events[|events| - 1];
      assert init + [e] == events;
      RunTenured(init, ttl);
      NextTenured(Run(init, ttl), init, e, ttl);
    }
  }

  /** When each replica's statements commit in its clock order, claims of different leaders never
      overlap: the earlier one ended before the later one starts. */
  lemma {:induction false} TenuresNeverOverlap(events: seq<Event>, ttl: real, j: nat, k: nat)
    requires ttl >= 0.0 && ClockOrder(events)
    requires j < k < |Run(events, ttl).claims|
    requires Run(events, ttl).claims[j].leader != Run(events, ttl).claims[k].leader
    ensures Run(events, ttl).claims[j].end < Run(events, ttl).claims[k].start
  {
    var init, e := events[..|events| - 1], events[|events| - 1];
    assert init + [e] == events;
    var s := Run(init, ttl);
    if k < |s.claims| {
      TenuresNeverOverlap(init, ttl, j, k);
    } else {
      RunTenured(init, ttl);
      NextTenured(s, init, e, ttl);
    }
  }

  /** Without that order they can: a renewal stamped in the past shortens a lease already claimed. */
  lemma StaleRenewalCanOverlap()
    ensures var events := [TryAcquire("a", 10.0), Renew("a", 0.0), TryAcquire("b", 6.0)];
            var claims := Run(events, 5.0).claims;
            |claims| == 3 && claims[0].leader != claims[2].leader
            && claims[2].start <= claims[0].start <= claims[2].end
  {
    var e1, e2, e3 := TryAcquire("a", 10.0), Renew("a", 0.0), TryAcquire("b", 6.0);
    assert [e1, e2, e3][..2] == [e1, e2] && [e1, e2][..1] == [e1] && [e1][..0] == [];
    assert Run([e1], 5.0) == Lease(Some(Row("a", 10.0, 15.0)), [Claim("a", 10.0, 15.0)], 10.0);
    assert Run([e1, e2], 5.0) ==
           Lease(Some(Row("a", 10.0, 5.0)), [Claim("a", 10.0, 15.0), Claim("a", 0.0, 5.0)], 10.0);
  }

  // ---- The table and its callers ----

  function RowAfter(row: Option<Row>, events: seq<Event>, ttl: real): Option<Row>
    decreases |events|
  {
    if events == [] then row else RowAfter(NewRow(row, events[0], ttl), events[1..], ttl)
  }

  /** The row after a run is what the statements make of it, one after the other. */
  lemma {:induction false} RowAfterRun(events: seq<Event>, more: seq<Event>, ttl: real)
    ensures RowAfter(Run(events, ttl).row, more, ttl) == Run(events + more, ttl).row
    decreases |more|
  {
    if more == [] {
      assert events + more == events;
    } else {
      var next := events + [more[0]];
      assert next[..|next| - 1] == events && next[|next| - 1] == more[0];
      assert next + more[1..] == events + more;
      RowAfterRun(next, more[1..], ttl);
    }
  }

  /** Statements of others leave the row alone while their clocks are not past its expiry, so an owner
      that reads it back by then finds itself. */
  lemma {:induction false} UndisturbedUntilExpiry(row: Option<Row>, events: seq<Event>, ttl: real)
    requires row.Some?
    requires forall i :: 0 <= i < |events| ==> events[i].leader != row.value.leader && events[i].now <= row.value.expiresAt
    ensures RowAfter(row, events, ttl) == row
    decreases |events|
  {
    if events != [] {
      assert !Effective(row, events[0]);
      UndisturbedUntilExpiry(row, events[1..], ttl);
    }
  }

  class LeaseTable {
    var row: Option<Row>

    constructor ()
      ensures row.None?
    {
      row := None;
    }

    method Execute(e: Event, ttl: real)
      modifies this
      ensures row == NewRow(old(row), e, ttl)
    {
      match e
      case TryAcquire(leader, now) =>
        if row.None? {
          row := Some(Row(leader, now, now + ttl));
        } else if row.value.expiresAt < now || row.value.leader == leader {
          row := Some(Row(leader, now, now + ttl));
        }
      case Renew(leader, now) =>
        if row.Some? && row.value.leader == leader {
          row := Some(Row(row.value.leader, row.value.acquiredAt, now + ttl));
        }
    }

    method ExecuteAll(events: seq<Event>, ttl: real)
      modifies this
      ensures row == RowAfter(old(row), events, ttl)
    {
      for k := 0 to |events|
        invariant RowAfter(row, events[k..], ttl) == RowAfter(old(row), events, ttl)
      {
        assert events[k..][0] == events[k] && events[k..][1..] == events[k + 1..];
        Execute(events[k], ttl);
      }
    }
  }

  class LeaderElection {
    const leaderId: string
    var isLeader: bool

    constructor (leaderId: string)
      ensures this.leaderId == leaderId && !isLeader
    {
      this.leaderId := leaderId;
      isLeader := false;
    }

    /** Upsert and commit, then read back who leads; `between` is what other replicas commit in between.
        A database that fails at either makes nobody a leader, whatever the row says. */
    method Acquire(table: LeaseTable, now: real, ttl: real, written: bool, between: seq<Event>, readBack: bool)
      returns (leading: bool)
      modifies this, table
      ensures leading == isLeader
      ensures table.row == if written then RowAfter(NewRow(old(table.row), TryAcquire(leaderId, now), ttl), between, ttl)
                           else old(table.row)
      ensures leading <==> written && readBack && table.row.Some? && table.row.value.leader == leaderId
    {
      if written {
        table.Execute(TryAcquire(leaderId, now), ttl);
        table.ExecuteAll(between, ttl);
        if readBack {
          isLeader := table.row.Some? && table.row.value.leader == leaderId;
          return isLeader;
        }
      }
      isLeader := false;
      leading := false;
    }

    /** Reports success whenever the statement ran, whether or not the row was still its own. */
    method Prolong(table: LeaseTable, now: real, ttl: real, databaseUp: bool) returns (done: bool)
      modifies table
      ensures done == (isLeader && databaseUp)
      ensures table.row == if done then NewRow(old(table.row), Renew(leaderId, now), ttl) else old(table.row)
    {
      if !isLeader || !databaseUp {
        return false;
      }
      table.Execute(Renew(leaderId, now), ttl);
      done := true;
    }
  }
}

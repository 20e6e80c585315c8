/**
 * Cross-replica invalidation (app/core/cache/invalidation.py): version rows in the database that
 * writers bump, and a poller on each replica that runs a namespace's callbacks when its row moved.
 */
module InvalidationPoller {
  import opened Wrappers

  type Versions = map<string, nat>

  /** The upsert in `bump`: one atomic statement. */
  function Bumped(rows: Versions, namespace: string): Versions {
    rows[namespace := if namespace in rows then rows[namespace] + 1 else 1]
  }

  datatype Poller = Poller(known: Versions, initialized: bool) {

    /** Whether the row (namespace, version) makes the callbacks run. */
    predicate Moved(namespace: string, version: nat) {
      if namespace in known then version != known[namespace] else initialized && version > 0
    }

    predicate Fires(rows: Versions, namespace: string) {
      namespace in rows && Moved(namespace, rows[namespace])
    }

    /** After a successful poll of `rows`. */
    function Polled(rows: Versions): Poller {
      Poller(known + rows, true)
    }
  }

  const NewPoller := Poller(map[], false)

  // ---- Every run of bumps and polls ----

  /** What happens to one replica; a failed poll changes nothing. */
  datatype Event = Bump(namespace: string) | Poll | FailedPoll

  function RowsAfter(events: seq<Event>): Versions {
    if events == [] then map[]
    else
      var rows, e := RowsAfter(events[..|events| - 1]), events[|events| - 1];
      if e.Bump? then Bumped(rows, e.namespace) else rows
  }

  function PollerAfter(events: seq<Event>): Poller {
    if events == [] then NewPoller
    else
      var poller, e := PollerAfter(events[..|events| - 1]), events[|events| - 1];
      if e.Poll? then poller.Polled(RowsAfter(events[..|events| - 1])) else poller
  }

  /** Bumps of `namespace` among the events. */
  function Bumps(events: seq<Event>, namespace: string): nat {
    if events == [] then 0
    else Bumps(events[..|events| - 1], namespace) + if events[|events| - 1] == Bump(namespace) then 1 else 0
  }

  predicate NoPoll(events: seq<Event>) {
    forall i :: 0 <= i < |events| ==> !events[i].Poll?
  }

  lemma {:induction false} RowCountsBumps(events: seq<Event>, namespace: string)
    ensures namespace in RowsAfter(events) <==> Bumps(events, namespace) > 0
    ensures namespace in RowsAfter(events) ==> RowsAfter(events)[namespace] == Bumps(events, namespace)
  {
    if events != [] {
      RowCountsBumps(events[..|events| - 1], namespace);
    }
  }

  lemma {:induction false} BumpsAppend(a: seq<Event>, b: seq<Event>, namespace: string)
    ensures Bumps(a + b, namespace) == Bumps(a, namespace) + Bumps(b, namespace)
  {
    if b == [] {
      assert a + b == a;
    } else {
      assert (a + b)[..|a + b| - 1] == a + b[..|b| - 1];
      BumpsAppend(a, b[..|b| - 1], namespace);
    }
  }

  lemma {:induction false} PollerWithoutPoll(a: seq<Event>, b: seq<Event>)
    requires NoPoll(b)
    ensures PollerAfter(a + b) == PollerAfter(a)
  {
    if b == [] {
      assert a + b == a;
    } else {
      assert (a + b)[..|a + b| - 1] == a + b[..|b| - 1];
      PollerWithoutPoll(a, b[..|b| - 1]);
    }
  }

  /** Known versions never run ahead of the rows. */
  lemma {:induction false} KnownFromRows(events: seq<Event>, namespace: string)
    requires namespace in PollerAfter(events).known
    ensures namespace in RowsAfter(events)
  {
    var init := events[..|events| - 1];
    if namespace in PollerAfter(init).known {
      KnownFromRows(init, namespace);
    }
  }

  /** After a first successful poll, however many bumps coalesce and however many polls fail in
      between, the next successful poll runs a namespace's callbacks exactly when its row was bumped
      since the last successful one. */
  lemma PollFiresIffBumped(before: seq<Event>, between: seq<Event>, namespace: string)
    requires NoPoll(between)
    ensures var events := before + [Poll] + between;
            PollerAfter(events).Fires(RowsAfter(events), namespace) <==> Bumps(between, namespace) > 0
  {
    var polled := before + [Poll];
    var events := polled + between;
    PollerWithoutPoll(polled, between);
    BumpsAppend(polled, between, namespace);
    BumpsAppend(before, [Poll], namespace);
    assert [Poll][..0] == [] && Bumps([Poll], namespace) == 0;
    RowCountsBumps(events, namespace);
    RowCountsBumps(before, namespace);
    assert polled[..|polled| - 1] == before;
    if namespace in PollerAfter(before).known {
      KnownFromRows(before, namespace);
    }
  }

  /** The first successful poll runs no callbacks, whatever was bumped before. */
  lemma FirstPollIsSilent(events: seq<Event>, namespace: string)
    requires NoPoll(events)
    ensures !PollerAfter(events).Fires(RowsAfter(events), namespace)
  {
    PollerWithoutPoll([], events);
    assert [] + events == events;
  }

  // ---- The poller ----

  class CacheInvalidationPoller {
    var knownVersions: Versions
    var pollInitialized: bool

    function View(): Poller
      reads this
    {
      Poller(knownVersions, pollInitialized)
    }

    constructor ()
      ensures View() == NewPoller
    {
      knownVersions, pollInitialized := map[], false;
    }

    /** `result` is the rows read, None when the query failed.  `fired` lists the namespaces whose
        callbacks ran, in the order of the rows. */
    method PollOnce(result: Option<seq<(string, nat)>>) returns (fired: seq<string>)
      requires result.Some? ==> forall i, j :: 0 <= i < j < |result.value| ==> result.value[i].0 != result.value[j].0
      modifies this
      ensures result.None? ==> View() == old(View()) && fired == []
      ensures result.Some? ==> View() == old(View()).Polled(Table(result.value))
      ensures result.Some? ==> forall ns :: ns in fired <==> old(View()).Fires(Table(result.value), ns)
    {
      fired := [];
      if result.None? {
        return;
      }
      var rows := result.value;
      for k := 0 to |rows|
        invariant pollInitialized == old(pollInitialized)
        invariant knownVersions == old(knownVersions) + Table(rows[..k])
        invariant forall ns :: ns in fired <==> old(View()).Fires(Table(rows[..k]), ns)
      {
        var (ns, version) := rows[k];
        TableSnoc(rows, k);
        FiresNext(old(View()), rows, k);
        assert ns in knownVersions <==> ns in old(knownVersions);
        if ns in knownVersions {
          if version != knownVersions[ns] {
            fired := fired + [ns];
          }
        } else if pollInitialized && version > 0 {
          fired := fired + [ns];
        }
        assert knownVersions[ns := version] == old(knownVersions) + Table(rows[..k + 1]);
        knownVersions := knownVersions[ns := version];
      }
      assert rows[..|rows|] == rows;
      pollInitialized := true;
    }
  }

  /** Rows with distinct namespaces as a map. */
  function Table(rows: seq<(string, nat)>): Versions {
    if rows == [] then map[] else Table(rows[..|rows| - 1])[rows[|rows| - 1].0 := rows[|rows| - 1].1]
  }

  lemma {:induction false} TableKeys(rows: seq<(string, nat)>, ns: string)
    ensures ns in Table(rows) ==> exists i :: 0 <= i < |rows| && rows[i].0 == ns
  {
    if rows != [] && rows[|rows| - 1].0 != ns && ns in Table(rows) {
      TableKeys(rows[..|rows| - 1], ns);
      var i :| 0 <= i < |rows| - 1 && rows[..|rows| - 1][i].0 == ns;
      assert rows[i].0 == ns;
    }
  }

  lemma FiresNext(p: Poller, rows: seq<(string, nat)>, k: nat)
    requires k < |rows| && forall i, j :: 0 <= i < j < |rows| ==> rows[i].0 != rows[j].0
    ensures forall ns :: p.Fires(Table(rows[..k + 1]), ns) <==>
              p.Fires(Table(rows[..k]), ns) || (ns == rows[k].0 && p.Moved(ns, rows[k].1))
  {
    TableSnoc(rows, k);
  }

  lemma TableSnoc(rows: seq<(string, nat)>, k: nat)
    requires k < |rows| && forall i, j :: 0 <= i < j < |rows| ==> rows[i].0 != rows[j].0
    ensures Table(rows[..k + 1]) == Table(rows[..k])[rows[k].0 := rows[k].1]
    ensures rows[k].0 !in Table(rows[..k])
  {
    assert rows[..k + 1][..k] == rows[..k];
    TableKeys(rows[..k], rows[k].0);
  }
}

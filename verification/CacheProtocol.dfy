/**
 * Readers and writers of the API-key caches of several replicas over one database
 * (app/core/auth/dependencies.py `_validate_api_key_token`, app/core/auth/api_key_cache.py,
 * app/core/cache/invalidation.py, wired in app/main.py).  A step is what runs between two awaits.
 */
module CacheProtocol {
  import opened Wrappers
  import opened InvalidationPoller

  type Key = string
  type Value = string

  const ApiKeyNamespace := "api_key"

  /** One committed transaction; None is a key that is gone or no longer valid. */
  datatype Write = Write(changes: map<Key, Option<Value>>)

  /** What the database holds for a key after the commits in `log`. */
  function Latest(log: seq<Write>, k: Key): Option<Value> {
    if log == [] then None
    else if k in log[|log| - 1].changes then log[|log| - 1].changes[k]
    else Latest(log[..|log| - 1], k)
  }

  /** A cached value, and how many commits had happened when it was read. */
  datatype Cached = Cached(value: Value, readAt: nat)

  /** What a writer drops from its own replica's cache after committing. */
  datatype Scope = OneKey(key: Key) | AllKeys

  /** `stamp`, `floor` and `keyFloor` record how many commits had happened at the last change of
      version, the last clear, and the last invalidation of each key; `base` is the version row seen
      by the first poll.  They are history, read by no step. */
  datatype Replica = Replica(
    cache: map<Key, Cached>, version: nat, poller: Poller, polling: Option<Versions>,
    stamp: nat, floor: nat, keyFloor: map<Key, nat>, base: nat)

  /** `Dropping`: found the key expired and waits to invalidate it. */
  datatype ReaderPhase = Dropping | Snapped(version: nat) | Fetched(version: nat, value: Value, readAt: nat) | Finished

  datatype Reader = Reader(replica: nat, key: Key, phase: ReaderPhase)

  datatype WriterPhase = Committed | Invalidated | BumpedTo(version: nat)

  /** Writer number i made commit number i. */
  datatype Writer = Writer(replica: nat, scope: Scope, phase: WriterPhase)

  datatype State = State(log: seq<Write>, rows: Versions, replicas: seq<Replica>, readers: seq<Reader>, writers: seq<Writer>)

  datatype Event =
    | Join
    | Commit(replica: nat, scope: Scope, changes: map<Key, Option<Value>>)
    | DropLocal(writer: nat)
    | BumpRow(writer: nat)
    | Lookup(replica: nat, key: Key, live: bool, keyExpired: bool)
    | DropExpired(reader: nat)
    | Fetch(reader: nat)
    | Store(reader: nat, victim: Option<Key>)
    | PollRead(replica: nat)
    | PollApply(replica: nat)

  const EmptyState := State([], map[], [], [], [])

  const NewReplica := Replica(map[], 0, NewPoller, None, 0, 0, map[], 0)

  // ---- Cache operations with their history ----

  function Invalidate(r: Replica, k: Key, now: nat): Replica {
    r.(cache := r.cache - {k}, version := r.version + 1, stamp := now, keyFloor := r.keyFloor[k := now])
  }

  function Clear(r: Replica, now: nat): Replica {
    r.(cache := map[], version := r.version + 1, stamp := now, floor := now)
  }

  function ApplyPoll(r: Replica, rows: Versions, now: nat): Replica {
    var cleared := if r.poller.Fires(rows, ApiKeyNamespace) then Clear(r, now) else r;
    cleared.(poller := r.poller.Polled(rows), polling := None,
             base := if r.poller.initialized then r.base else RowVersion(rows))
  }

  function RowVersion(rows: Versions): nat {
    if ApiKeyNamespace in rows then rows[ApiKeyNamespace] else 0
  }

  function DropFor(r: Replica, scope: Scope, now: nat): Replica {
    match scope
    case OneKey(k) => Invalidate(r, k, now)
    case AllKeys => Clear(r, now)
  }

  // ---- One step ----

  predicate InRange(s: State) {
    && |s.writers| == |s.log|
    && (forall i :: 0 <= i < |s.readers| ==> s.readers[i].replica < |s.replicas|)
    && (forall i :: 0 <= i < |s.writers| ==> s.writers[i].replica < |s.replicas|)
  }

  predicate Enabled(s: State, e: Event) {
    match e
    case Join => true
    case Commit(r, scope, changes) => r < |s.replicas| && (scope.OneKey? ==> changes.Keys <= {scope.key})
    case DropLocal(w) => w < |s.writers| && s.writers[w].phase.Committed? && s.writers[w].replica < |s.replicas|
    case BumpRow(w) => w < |s.writers| && s.writers[w].phase.Invalidated?
    case Lookup(r, _, _, _) => r < |s.replicas|
    case DropExpired(i) => i < |s.readers| && s.readers[i].phase.Dropping? && s.readers[i].replica < |s.replicas|
    case Fetch(i) => i < |s.readers| && s.readers[i].phase.Snapped?
    case Store(i, _) => i < |s.readers| && s.readers[i].phase.Fetched? && s.readers[i].replica < |s.replicas|
    case PollRead(r) => r < |s.replicas|
    case PollApply(r) => r < |s.replicas| && s.replicas[r].polling.Some?
  }

  function AfterLookup(s: State, r: nat, k: Key, live: bool, keyExpired: bool): State
    requires r < |s.replicas|
  {
    var hit := k in s.replicas[r].cache && live;
    if hit && !keyExpired then s  // served from the cache
    else s.(readers := s.readers + [Reader(r, k, if hit then Dropping else Snapped(s.replicas[r].version))])
  }

  /** The invalidation of an expired key, whatever has happened to its entry since the lookup, and the
      snapshot of the version. */
  function AfterDropExpired(s: State, i: nat): State
    requires Enabled(s, DropExpired(i))
  {
    var reader := s.readers[i];
    var now := Invalidate(s.replicas[reader.replica], reader.key, |s.log|);
    s.(replicas := s.replicas[reader.replica := now], readers := s.readers[i := reader.(phase := Snapped(now.version))])
  }

  function AfterFetch(s: State, i: nat): State
    requires i < |s.readers| && s.readers[i].phase.Snapped?
  {
    var reader := s.readers[i];
    var phase := match Latest(s.log, reader.key)
      case None => Finished  // the key is refused and nothing is cached
      case Some(v) => Fetched(reader.phase.version, v, |s.log|);
    s.(readers := s.readers[i := reader.(phase := phase)])
  }

  /** The conditional set: dropped if the version moved since the snapshot. */
  function AfterStore(s: State, i: nat, victim: Option<Key>): State
    requires Enabled(s, Store(i, victim))
  {
    var reader := s.readers[i];
    var replica, phase := s.replicas[reader.replica], reader.phase;
    var done := s.(readers := s.readers[i := reader.(phase := Finished)]);
    if phase.version != replica.version then done
    else
      var kept := if victim.Some? then replica.cache - {victim.value} else replica.cache;
      var stored := replica.(cache := kept[reader.key := Cached(phase.value, phase.readAt)]);
      done.(replicas := s.replicas[reader.replica := stored])
  }

  function Next(s: State, e: Event): State {
    if !Enabled(s, e) then s
    else match e
      case Join => s.(replicas := s.replicas + [NewReplica])
      case Commit(r, scope, changes) =>
        s.(log := s.log + [Write(changes)], writers := s.writers + [Writer(r, scope, Committed)])
      case DropLocal(w) =>
        var r := s.writers[w].replica;
        s.(replicas := s.replicas[r := DropFor(s.replicas[r], s.writers[w].scope, |s.log|)],
           writers := s.writers[w := s.writers[w].(phase := Invalidated)])
      case BumpRow(w) =>
        var rows := Bumped(s.rows, ApiKeyNamespace);
        s.(rows := rows, writers := s.writers[w := s.writers[w].(phase := BumpedTo(rows[ApiKeyNamespace]))])
      case Lookup(r, k, live, keyExpired) => AfterLookup(s, r, k, live, keyExpired)
      case DropExpired(i) => AfterDropExpired(s, i)
      case Fetch(i) => AfterFetch(s, i)
      case Store(i, victim) => AfterStore(s, i, victim)
      case PollRead(r) => s.(replicas := s.replicas[r := s.replicas[r].(polling := Some(s.rows))])
      case PollApply(r) =>
        s.(replicas := s.replicas[r := ApplyPoll(s.replicas[r], s.replicas[r].polling.value, |s.log|)])
  }

  // ---- What every step keeps ----

  /** `value` is what the database held for `k` after `readAt` commits. */
  ghost predicate WasRead(log: seq<Write>, k: Key, value: Value, readAt: nat) {
    readAt <= |log| && Latest(log[..readAt], k) == Some(value)
  }

  ghost predicate ReplicaOk(log: seq<Write>, r: Replica) {
    && r.floor <= r.stamp <= |log|
    && (forall k :: k in r.keyFloor ==> r.keyFloor[k] <= r.stamp)
    && (forall k :: k in r.cache ==>
          && WasRead(log, k, r.cache[k].value, r.cache[k].readAt)
          && r.floor <= r.cache[k].readAt
          && (k in r.keyFloor ==> r.keyFloor[k] <= r.cache[k].readAt))
  }

  /** A reader that may still store read after the last change of version. */
  ghost predicate ReaderOk(log: seq<Write>, r: Replica, x: Reader) {
    match x.phase
    case Finished => true
    case Dropping => true
    case Snapped(version) => version <= r.version
    case Fetched(version, value, readAt) =>
      version <= r.version && WasRead(log, x.key, value, readAt) && (version == r.version ==> r.stamp <= readAt)
  }

  /** A finished write number `n` lies before the floor of what it dropped. */
  ghost predicate WriterOk(log: seq<Write>, rows: Versions, r: Replica, w: Writer, n: nat) {
    && n < |log|
    && (w.scope.OneKey? ==> log[n].changes.Keys <= {w.scope.key})
    && (!w.phase.Committed? ==>
          match w.scope
          case OneKey(k) => k in r.keyFloor && n < r.keyFloor[k]
          case AllKeys => n < r.floor)
    && (w.phase.BumpedTo? ==> w.phase.version <= RowVersion(rows))
  }

  /** A bump made after the first poll and known to the replica lies before its last clear. */
  ghost predicate PolledOk(r: Replica, w: Writer, n: nat) {
    w.phase.BumpedTo? && r.poller.initialized && r.base < w.phase.version <= RowVersion(r.poller.known) ==> n < r.floor
  }

  /** The replica's record of the version row does not run ahead of the row. */
  ghost predicate PollerOk(r: Replica, rows: Versions) {
    && RowVersion(r.poller.known) <= RowVersion(rows)
    && (r.polling.Some? ==> RowVersion(r.poller.known) <= RowVersion(r.polling.value) <= RowVersion(rows))
    && r.base <= RowVersion(rows)
    && (!r.poller.initialized ==> r.poller.known == map[])
  }

  ghost predicate Inv(s: State) {
    && InRange(s)
    && (forall r :: 0 <= r < |s.replicas| ==> ReplicaOk(s.log, s.replicas[r]) && PollerOk(s.replicas[r], s.rows))
    && (forall i :: 0 <= i < |s.readers| ==> ReaderOk(s.log, s.replicas[s.readers[i].replica], s.readers[i]))
    && (forall n :: 0 <= n < |s.writers| ==> WriterOk(s.log, s.rows, s.replicas[s.writers[n].replica], s.writers[n], n))
    && (forall r, n :: 0 <= r < |s.replicas| && 0 <= n < |s.writers| ==> PolledOk(s.replicas[r], s.writers[n], n))
  }

  /** A replica may move on like this without upsetting readers and writers. */
  ghost predicate MovesOn(r: Replica, r': Replica) {
    && r.version <= r'.version && (r.version == r'.version ==> r.stamp == r'.stamp)
    && r.floor <= r'.floor
    && (forall k :: k in r.keyFloor ==> k in r'.keyFloor && r.keyFloor[k] <= r'.keyFloor[k])
  }

  lemma ReplaceKeeps(s: State, r: nat, next: Replica)
    requires Inv(s) && r < |s.replicas| && MovesOn(s.replicas[r], next)
    requires ReplicaOk(s.log, next) && PollerOk(next, s.rows)
    requires forall n :: 0 <= n < |s.writers| ==> PolledOk(next, s.writers[n], n)
    ensures Inv(s.(replicas := s.replicas[r := next]))
  {
    var t := s.(replicas := s.replicas[r := next]);
    forall i | 0 <= i < |t.readers| ensures ReaderOk(t.log, t.replicas[t.readers[i].replica], t.readers[i]) {
      assert ReaderOk(s.log, s.replicas[s.readers[i].replica], s.readers[i]);
    }
    forall n | 0 <= n < |t.writers| ensures WriterOk(t.log, t.rows, t.replicas[t.writers[n].replica], t.writers[n], n) {
      assert WriterOk(s.log, s.rows, s.replicas[s.writers[n].replica], s.writers[n], n);
    }
  }

  lemma InvalidateKeeps(s: State, r: nat, k: Key)
    requires Inv(s) && r < |s.replicas|
    ensures Inv(s.(replicas := s.replicas[r := Invalidate(s.replicas[r], k, |s.log|)]))
  {
    var prev, next := s.replicas[r], Invalidate(s.replicas[r], k, |s.log|);
    assert ReplicaOk(s.log, prev) && PollerOk(prev, s.rows);
    forall n | 0 <= n < |s.writers| ensures PolledOk(next, s.writers[n], n) {
      assert PolledOk(prev, s.writers[n], n);
    }
    ReplaceKeeps(s, r, next);
  }

  lemma PollApplyKeeps(s: State, r: nat)
    requires Inv(s) && Enabled(s, PollApply(r))
    ensures Inv(Next(s, PollApply(r)))
  {
    var prev, rows := s.replicas[r], s.replicas[r].polling.value;
    var next := ApplyPoll(prev, rows, |s.log|);
    assert ReplicaOk(s.log, prev) && PollerOk(prev, s.rows);
    forall n | 0 <= n < |s.writers| ensures PolledOk(next, s.writers[n], n) {
      assert PolledOk(prev, s.writers[n], n);
    }
    ReplaceKeeps(s, r, next);
  }

  lemma PollReadKeeps(s: State, r: nat)
    requires Inv(s) && Enabled(s, PollRead(r))
    ensures Inv(Next(s, PollRead(r)))
  {
    var prev, next := s.replicas[r], s.replicas[r].(polling := Some(s.rows));
    assert ReplicaOk(s.log, prev) && PollerOk(prev, s.rows);
    forall n | 0 <= n < |s.writers| ensures PolledOk(next, s.writers[n], n) {
      assert PolledOk(prev, s.writers[n], n);
    }
    ReplaceKeeps(s, r, next);
  }

  lemma WasReadGrows(log: seq<Write>, w: Write, k: Key, value: Value, readAt: nat)
    requires WasRead(log, k, value, readAt)
    ensures WasRead(log + [w], k, value, readAt)
  {
    assert (log + [w])[..readAt] == log[..readAt];
  }

  lemma CommitKeeps(s: State, r: nat, scope: Scope, changes: map<Key, Option<Value>>)
    requires Inv(s) && Enabled(s, Commit(r, scope, changes))
    ensures Inv(Next(s, Commit(r, scope, changes)))
  {
    var t, w := Next(s, Commit(r, scope, changes)), Write(changes);
    forall x | 0 <= x < |t.replicas| ensures ReplicaOk(t.log, t.replicas[x]) && PollerOk(t.replicas[x], t.rows) {
      var replica := s.replicas[x];
      assert ReplicaOk(s.log, replica) && PollerOk(replica, s.rows);
      forall k | k in replica.cache ensures WasRead(t.log, k, replica.cache[k].value, replica.cache[k].readAt) {
        WasReadGrows(s.log, w, k, replica.cache[k].value, replica.cache[k].readAt);
      }
    }
    forall i | 0 <= i < |t.readers| ensures ReaderOk(t.log, t.replicas[t.readers[i].replica], t.readers[i]) {
      var x := s.readers[i];
      assert ReaderOk(s.log, s.replicas[x.replica], x);
      if x.phase.Fetched? {
        WasReadGrows(s.log, w, x.key, x.phase.value, x.phase.readAt);
      }
    }
    forall n | 0 <= n < |t.writers| ensures WriterOk(t.log, t.rows, t.replicas[t.writers[n].replica], t.writers[n], n) {
      if n < |s.writers| {
        assert WriterOk(s.log, s.rows, s.replicas[s.writers[n].replica], s.writers[n], n);
        assert t.log[n] == s.log[n];
      }
    }
    forall x, n | 0 <= x < |t.replicas| && 0 <= n < |t.writers| ensures PolledOk(t.replicas[x], t.writers[n], n) {
      if n < |s.writers| { assert PolledOk(s.replicas[x], s.writers[n], n); }
    }
  }

  /** Only one writer's phase changes. */
  lemma PhaseKeeps(s: State, w: nat, phase: WriterPhase, rows: Versions)
    requires Inv(s) && w < |s.writers| && RowVersion(s.rows) <= RowVersion(rows)
    requires WriterOk(s.log, rows, s.replicas[s.writers[w].replica], s.writers[w].(phase := phase), w)
    requires forall r :: 0 <= r < |s.replicas| ==> PolledOk(s.replicas[r], s.writers[w].(phase := phase), w)
    ensures Inv(s.(rows := rows, writers := s.writers[w := s.writers[w].(phase := phase)]))
  {
    var t := s.(rows := rows, writers := s.writers[w := s.writers[w].(phase := phase)]);
    forall n | 0 <= n < |t.writers| ensures WriterOk(t.log, t.rows, t.replicas[t.writers[n].replica], t.writers[n], n) {
      assert WriterOk(s.log, s.rows, s.replicas[s.writers[n].replica], s.writers[n], n);
    }
    forall r, n | 0 <= r < |t.replicas| && 0 <= n < |t.writers| ensures PolledOk(t.replicas[r], t.writers[n], n) {
      assert PolledOk(s.replicas[r], s.writers[n], n);
    }
    forall r | 0 <= r < |t.replicas| ensures PollerOk(t.replicas[r], t.rows) {
      assert PollerOk(s.replicas[r], s.rows);
    }
  }

  lemma DropLocalKeeps(s: State, w: nat)
    requires Inv(s) && Enabled(s, DropLocal(w))
    ensures Inv(Next(s, DropLocal(w)))
  {
    var writer := s.writers[w];
    var mid := s.(replicas := s.replicas[writer.replica := DropFor(s.replicas[writer.replica], writer.scope, |s.log|)]);
    match writer.scope {
      case OneKey(k) => InvalidateKeeps(s, writer.replica, k);
      case AllKeys =>
    }
    assert WriterOk(s.log, s.rows, s.replicas[writer.replica], writer, w);
    PhaseKeeps(mid, w, Invalidated, mid.rows);
  }

  lemma LookupKeeps(s: State, r: nat, k: Key, live: bool, keyExpired: bool)
    requires Inv(s) && r < |s.replicas|
    ensures Inv(AfterLookup(s, r, k, live, keyExpired))
  {
    var t := AfterLookup(s, r, k, live, keyExpired);
    forall i | 0 <= i < |t.readers| ensures ReaderOk(t.log, t.replicas[t.readers[i].replica], t.readers[i]) {
      if i < |s.readers| {
        assert ReaderOk(s.log, s.replicas[s.readers[i].replica], s.readers[i]);
      }
    }
  }

  lemma DropExpiredKeeps(s: State, i: nat)
    requires Inv(s) && Enabled(s, DropExpired(i))
    ensures Inv(AfterDropExpired(s, i))
  {
    var reader := s.readers[i];
    var mid := s.(replicas := s.replicas[reader.replica := Invalidate(s.replicas[reader.replica], reader.key, |s.log|)]);
    var t := AfterDropExpired(s, i);
    InvalidateKeeps(s, reader.replica, reader.key);
    forall j | 0 <= j < |t.readers| ensures ReaderOk(t.log, t.replicas[t.readers[j].replica], t.readers[j]) {
      assert ReaderOk(mid.log, mid.replicas[mid.readers[j].replica], mid.readers[j]);
    }
  }

  lemma FetchKeeps(s: State, i: nat)
    requires Inv(s) && Enabled(s, Fetch(i))
    ensures Inv(Next(s, Fetch(i)))
  {
    var reader := s.readers[i];
    assert ReaderOk(s.log, s.replicas[reader.replica], reader) && ReplicaOk(s.log, s.replicas[reader.replica]);
    assert s.log[..|s.log|] == s.log;
  }

  lemma StoreKeeps(s: State, i: nat, victim: Option<Key>)
    requires Inv(s) && Enabled(s, Store(i, victim))
    ensures Inv(AfterStore(s, i, victim))
  {
    var reader := s.readers[i];
    var replica := s.replicas[reader.replica];
    assert ReaderOk(s.log, replica, reader) && ReplicaOk(s.log, replica) && PollerOk(replica, s.rows);
    var done := s.readers[i := reader.(phase := Finished)];
    if reader.phase.version == replica.version {
      var kept := if victim.Some? then replica.cache - {victim.value} else replica.cache;
      var stored := replica.(cache := kept[reader.key := Cached(reader.phase.value, reader.phase.readAt)]);
      forall n | 0 <= n < |s.writers| ensures PolledOk(stored, s.writers[n], n) {
        assert PolledOk(replica, s.writers[n], n);
      }
      ReplaceKeeps(s.(readers := done), reader.replica, stored);
    }
  }

  lemma JoinKeeps(s: State)
    requires Inv(s)
    ensures Inv(Next(s, Join))
  {
    var t := Next(s, Join);
    forall i | 0 <= i < |t.readers| ensures ReaderOk(t.log, t.replicas[t.readers[i].replica], t.readers[i]) {
      assert ReaderOk(s.log, s.replicas[s.readers[i].replica], s.readers[i]);
    }
    forall n | 0 <= n < |t.writers| ensures WriterOk(t.log, t.rows, t.replicas[t.writers[n].replica], t.writers[n], n) {
      assert WriterOk(s.log, s.rows, s.replicas[s.writers[n].replica], s.writers[n], n);
    }
  }

  lemma BumpRowKeeps(s: State, w: nat)
    requires Inv(s) && Enabled(s, BumpRow(w))
    ensures Inv(Next(s, BumpRow(w)))
  {
    var rows := Bumped(s.rows, ApiKeyNamespace);
    assert WriterOk(s.log, s.rows, s.replicas[s.writers[w].replica], s.writers[w], w);
    forall r | 0 <= r < |s.replicas| ensures PolledOk(s.replicas[r], s.writers[w].(phase := BumpedTo(rows[ApiKeyNamespace])), w) {
      assert PollerOk(s.replicas[r], s.rows);
    }
    PhaseKeeps(s, w, BumpedTo(rows[ApiKeyNamespace]), rows);
  }

  lemma InvKept(s: State, e: Event)
    requires Inv(s)
    ensures Inv(Next(s, e))
  {
    if Enabled(s, e) {
      match e
      case Join => JoinKeeps(s);
      case Commit(r, scope, changes) => CommitKeeps(s, r, scope, changes);
      case DropLocal(w) => DropLocalKeeps(s, w);
      case BumpRow(w) => BumpRowKeeps(s, w);
      case Lookup(r, k, live, keyExpired) => LookupKeeps(s, r, k, live, keyExpired);
      case DropExpired(i) => DropExpiredKeeps(s, i);
      case Fetch(i) => FetchKeeps(s, i);
      case Store(i, victim) => StoreKeeps(s, i, victim);
      case PollRead(r) => PollReadKeeps(s, r);
      case PollApply(r) => PollApplyKeeps(s, r);
    }
  }

  // ---- Every interleaving ----

  function Run(events: seq<Event>): State {
    if events == [] then EmptyState else Next(Run(events[..|events| - 1]), events[|events| - 1])
  }

  lemma {:induction false} RunKeepsInv(events: seq<Event>)
    ensures Inv(Run(events))
  {
    if events != [] {
      RunKeepsInv(events[..|events| - 1]);
      InvKept(Run(events[..|events| - 1]), events[|events| - 1]);
    }
  }

  /** A cached value was read from the database after every finished write to its key: once a write
      has dropped the key from the replica's cache, the old value is not served there again. */
  lemma NoStaleValueAfterWrite(events: seq<Event>, r: nat, k: Key, n: nat)
    requires var s := Run(events);
             && r < |s.replicas| && k in s.replicas[r].cache
             && n < |s.writers| && n < |s.log| && s.writers[n].replica == r
             && !s.writers[n].phase.Committed? && k in s.log[n].changes
    ensures var s := Run(events); var entry := s.replicas[r].cache[k];
            n < entry.readAt && WasRead(s.log, k, entry.value, entry.readAt)
  {
    var s := Run(events);
    RunKeepsInv(events);
    assert ReplicaOk(s.log, s.replicas[r]);
    assert WriterOk(s.log, s.rows, s.replicas[r], s.writers[n], n);
  }

  lemma {:induction false} LatestUnchanged(log: seq<Write>, m: nat, k: Key)
    requires m <= |log| && forall i :: m <= i < |log| ==> k !in log[i].changes
    ensures Latest(log, k) == Latest(log[..m], k)
  {
    if m < |log| {
      LatestUnchanged(log[..|log| - 1], m, k);
      assert log[..|log| - 1][..m] == log[..m];
    } else {
      assert log[..m] == log;
    }
  }

  // ---- Across replicas ----

  /** The row was bumped for write `n` after the replica's first poll. */
  ghost predicate BumpedForReplica(s: State, r: nat, n: nat) {
    && r < |s.replicas| && n < |s.writers| && s.replicas[r].poller.initialized
    && s.writers[n].phase.BumpedTo? && s.replicas[r].base < s.writers[n].phase.version
  }

  /** A poll that read the row after the bump is under way. */
  ghost predicate PollCovers(s: State, r: nat, n: nat) {
    && BumpedForReplica(s, r, n) && s.replicas[r].polling.Some?
    && s.writers[n].phase.version <= RowVersion(s.replicas[r].polling.value)
  }

  /** The replica knows the bump. */
  ghost predicate Learned(s: State, r: nat, n: nat) {
    BumpedForReplica(s, r, n) && s.writers[n].phase.version <= RowVersion(s.replicas[r].poller.known)
  }

  lemma BumpedForReplicaStays(s: State, e: Event, r: nat, n: nat)
    requires Inv(s) && BumpedForReplica(s, r, n)
    ensures BumpedForReplica(Next(s, e), r, n) && Next(s, e).writers[n] == s.writers[n]
  {
  }

  lemma BumpReachesReplicas(s: State, r: nat, n: nat)
    requires Inv(s) && r < |s.replicas| && s.replicas[r].poller.initialized && Enabled(s, BumpRow(n))
    ensures BumpedForReplica(Next(s, BumpRow(n)), r, n)
  {
    assert PollerOk(s.replicas[r], s.rows);
  }

  lemma PollReadCovers(s: State, r: nat, n: nat)
    requires Inv(s) && BumpedForReplica(s, r, n)
    ensures PollCovers(Next(s, PollRead(r)), r, n)
  {
    assert WriterOk(s.log, s.rows, s.replicas[s.writers[n].replica], s.writers[n], n);
  }

  lemma PollCoversStays(s: State, e: Event, r: nat, n: nat)
    requires Inv(s) && PollCovers(s, r, n) && e != PollApply(r) && e != PollRead(r)
    ensures PollCovers(Next(s, e), r, n)
  {
    BumpedForReplicaStays(s, e, r, n);
  }

  lemma PollApplyLearns(s: State, r: nat, n: nat)
    requires Inv(s) && PollCovers(s, r, n)
    ensures Learned(Next(s, PollApply(r)), r, n)
  {
    BumpedForReplicaStays(s, PollApply(r), r, n);
  }

  lemma LearnedStays(s: State, e: Event, r: nat, n: nat)
    requires Inv(s) && Learned(s, r, n)
    ensures Learned(Next(s, e), r, n)
  {
    BumpedForReplicaStays(s, e, r, n);
    assert PollerOk(s.replicas[r], s.rows);
  }

  /** Once a replica has learned of a bump, everything it caches was read after the bumped write. */
  lemma LearnedIsFresh(s: State, r: nat, n: nat, k: Key)
    requires Inv(s) && Learned(s, r, n) && k in s.replicas[r].cache
    ensures n < s.replicas[r].cache[k].readAt && WasRead(s.log, k, s.replicas[r].cache[k].value, s.replicas[r].cache[k].readAt)
  {
    assert ReplicaOk(s.log, s.replicas[r]) && PolledOk(s.replicas[r], s.writers[n], n);
  }

  lemma RunStep(events: seq<Event>, i: nat)
    requires i < |events|
    ensures Run(events[..i + 1]) == Next(Run(events[..i]), events[i])
  {
    assert events[..i + 1][..i] == events[..i];
  }

  lemma {:induction false} BumpedAlong(events: seq<Event>, i: nat, j: nat, r: nat, n: nat)
    requires i <= j <= |events| && BumpedForReplica(Run(events[..i]), r, n)
    ensures BumpedForReplica(Run(events[..j]), r, n)
    decreases j
  {
    if i < j {
      BumpedAlong(events, i, j - 1, r, n);
      RunStep(events, j - 1);
      RunKeepsInv(events[..j - 1]);
      BumpedForReplicaStays(Run(events[..j - 1]), events[j - 1], r, n);
    }
  }

  lemma {:induction false} CoveredAlong(events: seq<Event>, i: nat, j: nat, r: nat, n: nat)
    requires i <= j <= |events| && PollCovers(Run(events[..i]), r, n)
    requires forall m :: i <= m < j ==> events[m] != PollApply(r) && events[m] != PollRead(r)
    ensures PollCovers(Run(events[..j]), r, n)
    decreases j
  {
    if i < j {
      CoveredAlong(events, i, j - 1, r, n);
      RunStep(events, j - 1);
      RunKeepsInv(events[..j - 1]);
      PollCoversStays(Run(events[..j - 1]), events[j - 1], r, n);
    }
  }

  lemma {:induction false} LearnedAlong(events: seq<Event>, i: nat, j: nat, r: nat, n: nat)
    requires i <= j <= |events| && Learned(Run(events[..i]), r, n)
    ensures Learned(Run(events[..j]), r, n)
    decreases j
  {
    if i < j {
      LearnedAlong(events, i, j - 1, r, n);
      RunStep(events, j - 1);
      RunKeepsInv(events[..j - 1]);
      LearnedStays(Run(events[..j - 1]), events[j - 1], r, n);
    }
  }

  /** The replica has polled before, and the bump for write `n` is the event at `b`. */
  ghost predicate BumpAt(events: seq<Event>, r: nat, n: nat, b: nat) {
    && b < |events| && events[b] == BumpRow(n) && Enabled(Run(events[..b]), BumpRow(n))
    && r < |Run(events[..b]).replicas| && Run(events[..b]).replicas[r].poller.initialized
  }

  /** One poll of the replica reads the rows at `p` and finishes at `q`. */
  ghost predicate PollAt(events: seq<Event>, r: nat, p: nat, q: nat) {
    && p < q < |events| && events[p] == PollRead(r) && events[q] == PollApply(r)
    && forall m :: p < m < q ==> events[m] != PollApply(r) && events[m] != PollRead(r)
  }

  lemma BumpedAfter(events: seq<Event>, r: nat, n: nat, b: nat)
    requires BumpAt(events, r, n, b)
    ensures BumpedForReplica(Run(events[..b + 1]), r, n)
  {
    RunStep(events, b);
    RunKeepsInv(events[..b]);
    BumpReachesReplicas(Run(events[..b]), r, n);
  }

  lemma CoveredAfter(events: seq<Event>, r: nat, n: nat, p: nat)
    requires p < |events| && events[p] == PollRead(r) && BumpedForReplica(Run(events[..p]), r, n)
    ensures PollCovers(Run(events[..p + 1]), r, n)
  {
    RunStep(events, p);
    RunKeepsInv(events[..p]);
    PollReadCovers(Run(events[..p]), r, n);
  }

  lemma LearnedAfter(events: seq<Event>, r: nat, n: nat, q: nat)
    requires q < |events| && events[q] == PollApply(r) && PollCovers(Run(events[..q]), r, n)
    ensures Learned(Run(events[..q + 1]), r, n)
  {
    RunStep(events, q);
    RunKeepsInv(events[..q]);
    PollApplyLearns(Run(events[..q]), r, n);
  }

  lemma PollCoversBump(events: seq<Event>, r: nat, n: nat, b: nat, p: nat, q: nat)
    requires BumpAt(events, r, n, b) && PollAt(events, r, p, q) && b < p
    ensures PollCovers(Run(events[..q]), r, n)
  {
    BumpedAfter(events, r, n, b);
    BumpedAlong(events, b + 1, p, r, n);
    CoveredAfter(events, r, n, p);
    CoveredAlong(events, p + 1, q, r, n);
  }

  lemma LearnedToEnd(events: seq<Event>, i: nat, r: nat, n: nat)
    requires i <= |events| && Learned(Run(events[..i]), r, n)
    ensures Learned(Run(events), r, n)
  {
    LearnedAlong(events, i, |events|, r, n);
    assert events[..|events|] == events;
  }

  lemma PolledReplicaLearns(events: seq<Event>, r: nat, n: nat, b: nat, p: nat, q: nat)
    requires BumpAt(events, r, n, b) && PollAt(events, r, p, q) && b < p
    ensures Learned(Run(events), r, n)
  {
    PollCoversBump(events, r, n, b, p, q);
    LearnedAfter(events, r, n, q);
    LearnedToEnd(events, q + 1, r, n);
  }

  /** A bump made after the replica's first poll, then a poll that read the rows after the bump and
      finished: from then on everything the replica caches was read after the bumped write. */
  lemma PolledReplicaIsFresh(events: seq<Event>, r: nat, n: nat, b: nat, p: nat, q: nat, k: Key)
    requires BumpAt(events, r, n, b) && PollAt(events, r, p, q) && b < p
    requires r < |Run(events).replicas| && k in Run(events).replicas[r].cache
    ensures var s := Run(events); var entry := s.replicas[r].cache[k];
            n < entry.readAt && WasRead(s.log, k, entry.value, entry.readAt)
  {
    PolledReplicaLearns(events, r, n, b, p, q);
    LearnedRunIsFresh(events, r, n, k);
  }

  lemma LearnedRunIsFresh(events: seq<Event>, r: nat, n: nat, k: Key)
    requires Learned(Run(events), r, n) && k in Run(events).replicas[r].cache
    ensures var s := Run(events); var entry := s.replicas[r].cache[k];
            n < entry.readAt && WasRead(s.log, k, entry.value, entry.readAt)
  {
    RunKeepsInv(events);
    LearnedIsFresh(Run(events), r, n, k);
  }

  /** The replica is done with write `n`: it made and finished it, or has learned of its bump. */
  ghost predicate Settled(s: State, r: nat, n: nat) {
    (n < |s.writers| && s.writers[n].replica == r && !s.writers[n].phase.Committed?) || Learned(s, r, n)
  }

  /** When a replica is done with every write to a key, wherever it was made, what its cache holds for
      the key is what the database holds now. */
  lemma CachedIsCurrent(events: seq<Event>, r: nat, k: Key)
    requires var s := Run(events);
             && r < |s.replicas| && k in s.replicas[r].cache
             && forall n :: 0 <= n < |s.log| && k in s.log[n].changes ==> Settled(s, r, n)
    ensures Latest(Run(events).log, k) == Some(Run(events).replicas[r].cache[k].value)
  {
    var s := Run(events);
    var entry := s.replicas[r].cache[k];
    RunKeepsInv(events);
    assert ReplicaOk(s.log, s.replicas[r]);
    forall n | 0 <= n < |s.log| && k in s.log[n].changes ensures n < entry.readAt {
      assert Settled(s, r, n);
      if Learned(s, r, n) {
        LearnedRunIsFresh(events, r, n, k);
      } else {
        NoStaleValueAfterWrite(events, r, k, n);
      }
    }
    LatestUnchanged(s.log, entry.readAt, k);
  }

  // ---- Reads and writes get through ----

  lemma RunSnoc(events: seq<Event>, e: Event)
    ensures Run(events + [e]) == Next(Run(events), e)
  {
    var all := events + [e];
    assert all[..|all| - 1] == events && all[|all| - 1] == e;
  }

  /** A replica can join at any time, with an empty cache, and from then on read and write any key. */
  lemma ReplicaCanJoin(events: seq<Event>, scope: Scope, changes: map<Key, Option<Value>>)
    ensures Run(events + [Join]).replicas == Run(events).replicas + [NewReplica]
    ensures (scope.OneKey? ==> changes.Keys <= {scope.key}) ==>
              Enabled(Run(events + [Join]), Commit(|Run(events).replicas|, scope, changes))
    ensures NewReplica.cache == map[] && !NewReplica.poller.initialized
  {
    RunSnoc(events, Join);
  }

  /** A lookup is answered from the cache exactly when the entry is there, alive and its key has not
      expired; otherwise a reader starts. */
  lemma LookupMeaning(events: seq<Event>, r: nat, k: Key, live: bool, keyExpired: bool)
    requires r < |Run(events).replicas|
    ensures var s, t := Run(events), Run(events + [Lookup(r, k, live, keyExpired)]);
            && (t == s <==> k in s.replicas[r].cache && live && !keyExpired)
            && (t != s ==> t == s.(readers := t.readers) && |t.readers| == |s.readers| + 1 && t.readers[..|s.readers|] == s.readers
                           && t.readers[|s.readers|].replica == r && t.readers[|s.readers|].key == k)
  {
    RunSnoc(events, Lookup(r, k, live, keyExpired));
  }

  /** The steps of the reader that starts at a lookup. */
  function ReadThrough(i: nat, r: nat, k: Key, live: bool, hit: bool): seq<Event> {
    [Lookup(r, k, live, true)] + (if hit then [DropExpired(i)] else []) + [Fetch(i)] + [Store(i, None)]
  }

  /** Reader `i` has just taken its snapshot of the version. */
  ghost predicate JustSnapped(s: State, i: nat, r: nat, k: Key) {
    r < |s.replicas| && i < |s.readers| && s.readers[i] == Reader(r, k, Snapped(s.replicas[r].version))
  }

  lemma FetchThenStore(s: State, i: nat, r: nat, k: Key)
    requires JustSnapped(s, i, r, k)
    ensures var t := Next(Next(s, Fetch(i)), Store(i, None));
            && t.log == s.log && |t.replicas| == |s.replicas|
            && t.replicas[r].cache == match Latest(s.log, k)
                                      case Some(v) => s.replicas[r].cache[k := Cached(v, |s.log|)]
                                      case None => s.replicas[r].cache
  {
  }

  /** A read that nothing disturbs caches what the database holds for a valid key, and leaves nothing
      cached for one that is gone. */
  lemma ReadThroughCaches(events: seq<Event>, r: nat, k: Key, live: bool)
    requires r < |Run(events).replicas|
    ensures var s := Run(events); var hit := k in s.replicas[r].cache && live;
            var t := Run(events + ReadThrough(|s.readers|, r, k, live, hit));
            && t.log == s.log && r < |t.replicas|
            && match Latest(s.log, k)
               case Some(v) => k in t.replicas[r].cache && t.replicas[r].cache[k] == Cached(v, |s.log|)
               case None => k in t.replicas[r].cache ==> k in s.replicas[r].cache && !live
  {
    var s := Run(events);
    var i, hit := |s.readers|, k in s.replicas[r].cache && live;
    var looked := events + [Lookup(r, k, live, true)];
    var snapped := if hit then looked + [DropExpired(i)] else looked;
    RunSnoc(events, Lookup(r, k, live, true));
    if hit {
      RunSnoc(looked, DropExpired(i));
    }
    LookupSnaps(s, r, k, live);
    FetchThenStore(Run(snapped), i, r, k);
    RunSnoc(snapped, Fetch(i));
    RunSnoc(snapped + [Fetch(i)], Store(i, None));
    ReadThroughIs(events, i, r, k, live, hit);
  }

  /** The state once the reader of an expired or missing key has its snapshot. */
  lemma LookupSnaps(s: State, r: nat, k: Key, live: bool)
    requires r < |s.replicas|
    ensures var i, hit := |s.readers|, k in s.replicas[r].cache && live;
            var looked := Next(s, Lookup(r, k, live, true)); var t := if hit then Next(looked, DropExpired(i)) else looked;
            && JustSnapped(t, i, r, k) && t.log == s.log
            && t.replicas[r].cache == if hit then s.replicas[r].cache - {k} else s.replicas[r].cache
  {
  }

  lemma ReadThroughIs(events: seq<Event>, i: nat, r: nat, k: Key, live: bool, hit: bool)
    ensures var looked := events + [Lookup(r, k, live, true)];
            events + ReadThrough(i, r, k, live, hit) ==
            (if hit then looked + [DropExpired(i)] else looked) + [Fetch(i)] + [Store(i, None)]
  {
  }

  /** A committed write is in the database at once; its writer can then drop what it changed from its
      own cache and bump the row, by one. */
  lemma WriteGoesThrough(events: seq<Event>, r: nat, scope: Scope, changes: map<Key, Option<Value>>, k: Key)
    requires r < |Run(events).replicas| && (scope.OneKey? ==> changes.Keys <= {scope.key})
    requires k in changes
    ensures var s := Run(events); var w := |s.writers|;
            var t := Run(events + [Commit(r, scope, changes)] + [DropLocal(w)] + [BumpRow(w)]);
            && Latest(Run(events + [Commit(r, scope, changes)]).log, k) == changes[k]
            && t.log == s.log + [Write(changes)] && r < |t.replicas| && k !in t.replicas[r].cache
            && w < |t.writers| && t.writers[w].phase == BumpedTo(RowVersion(s.rows) + 1)
            && RowVersion(t.rows) == RowVersion(s.rows) + 1
  {
    var w := |Run(events).writers|;
    var committed := events + [Commit(r, scope, changes)];
    RunKeepsInv(events);
    RunSnoc(events, Commit(r, scope, changes));
    RunSnoc(committed, DropLocal(w));
    RunSnoc(committed + [DropLocal(w)], BumpRow(w));
  }
}

/**
 * Ref-counted HTTP clients (app/core/clients/http.py): leases, replacement by refresh, retirement
 * and forced shutdown.  A step is what one task does between two awaits; only the building of a
 * new client waits while holding the lock.
 */
module HttpClientPool {
  import opened Wrappers

  type ClientId = nat
  type LeaseId = nat

  /** `closeTask`: a task that closes the client has been made.  `closeStarts` counts how many were. */
  datatype Client = Client(activeLeases: int, closeRequested: bool, closeTask: bool, closeStarts: nat, closed: bool) {
    function Starting(): Client {
      this.(closeTask := true, closeStarts := closeStarts + 1)
    }
  }

  const NewClient := Client(0, false, false, 0, false)

  /** `Releasing`: marked closed, waiting for the lock.  `Abandoned`: cancelled while waiting. */
  datatype Phase = Open | Releasing | Abandoned | Released

  datatype Lease = Lease(client: ClientId, phase: Phase)

  datatype Lock = Free | Building(refresh: bool, previous: Option<ClientId>)

  /** A `close_http_client` call past its locked part: it waits for `waitFor` to be closed.
      `known` is how many clients had been made by then. */
  datatype Shutdown = Shutdown(waitFor: seq<ClientId>, known: nat, returned: bool)

  datatype Pool = Pool(
    clients: seq<Client>, leases: seq<Lease>, current: Option<ClientId>,
    retired: seq<ClientId>, closing: seq<ClientId>, lock: Lock, shutdowns: seq<Shutdown>)

  const EmptyPool := Pool([], [], None, [], [], Free, [])

  datatype Event =
    | Init
    | Refresh
    | Built
    | BuildFailed
    | Acquire
    | LeaseClose(lease: LeaseId)
    | Release(lease: LeaseId)
    | CancelRelease(lease: LeaseId)
    | CloseFinished(client: ClientId)
    | CloseCallback(client: ClientId)
    | CloseAll
    | CloseAllReturn(shutdown: nat)

  // ---- The helpers called with the lock held ----

  function RemoveFirst(s: seq<ClientId>, x: ClientId): seq<ClientId> {
    if s == [] then [] else if s[0] == x then s[1..] else [s[0]] + RemoveFirst(s[1..], x)
  }

  function StartClose(p: Pool, c: ClientId): Pool
    requires c < |p.clients|
  {
    if p.clients[c].closeTask then p
    else p.(retired := RemoveFirst(p.retired, c), closing := p.closing + [c],
            clients := p.clients[c := p.clients[c].Starting()])
  }

  function RequestClose(p: Pool, c: ClientId, force: bool): Pool
    requires c < |p.clients|
  {
    var q := p.(clients := p.clients[c := p.clients[c].(closeRequested := true)]);
    if p.clients[c].activeLeases > 0 && !force
    then if c in p.retired then q else q.(retired := p.retired + [c])
    else StartClose(q, c)
  }

  function ForceAll(p: Pool, ids: seq<ClientId>): (q: Pool)
    requires forall i :: 0 <= i < |ids| ==> ids[i] < |p.clients|
    ensures |q.clients| == |p.clients|
    decreases |ids|
  {
    if ids == [] then p else ForceAll(RequestClose(p, ids[0], true), ids[1..])
  }

  function Everyone(p: Pool): seq<ClientId> {
    (if p.current.Some? then [p.current.value] else []) + p.retired + p.closing
  }

  // ---- One step ----

  predicate InRange(p: Pool) {
    && (forall i :: 0 <= i < |p.leases| ==> p.leases[i].client < |p.clients|)
    && (p.current.Some? ==> p.current.value < |p.clients|)
    && (forall i :: 0 <= i < |p.retired| ==> p.retired[i] < |p.clients|)
    && (forall i :: 0 <= i < |p.closing| ==> p.closing[i] < |p.clients|)
    && (p.lock.Building? ==> p.lock.previous == p.current && (!p.lock.refresh ==> p.current.None?))
  }

  function AfterRelease(p: Pool, l: LeaseId): Pool
    requires InRange(p) && l < |p.leases|
  {
    var c := p.leases[l].client;
    var client := p.clients[c].(activeLeases := p.clients[c].activeLeases - 1);
    var q := p.(leases := p.leases[l := p.leases[l].(phase := Released)], clients := p.clients[c := client]);
    if client.closeRequested && client.activeLeases == 0 then StartClose(q, c) else q
  }

  function AfterBuilt(p: Pool): Pool
    requires InRange(p) && p.lock.Building?
  {
    var q := p.(clients := p.clients + [NewClient], current := Some(|p.clients|), lock := Free);
    if p.lock.refresh && p.lock.previous.Some? then RequestClose(q, p.lock.previous.value, false) else q
  }

  function AfterCloseAll(p: Pool): Pool
    requires InRange(p)
  {
    var q := ForceAll(p.(current := None), Everyone(p));
    q.(shutdowns := q.shutdowns + [Shutdown(Everyone(p), |p.clients|, false)])
  }

  /** Whether the step can be taken now: steps that need the lock wait for it. */
  predicate Enabled(p: Pool, e: Event) {
    match e
    case Init => p.lock.Free? && p.current.None?
    case Refresh => p.lock.Free?
    case Built => p.lock.Building?
    case BuildFailed => p.lock.Building?
    case Acquire => p.lock.Free? && p.current.Some?
    case LeaseClose(l) => l < |p.leases| && p.leases[l].phase.Open?
    case Release(l) => p.lock.Free? && l < |p.leases| && p.leases[l].phase.Releasing?
    case CancelRelease(l) => l < |p.leases| && p.leases[l].phase.Releasing?
    case CloseFinished(c) => c < |p.clients| && p.clients[c].closeTask && !p.clients[c].closed
    case CloseCallback(c) => c < |p.clients| && p.clients[c].closed
    case CloseAll => p.lock.Free?
    case CloseAllReturn(i) =>
      i < |p.shutdowns| && forall k :: 0 <= k < |p.shutdowns[i].waitFor| ==>
        p.shutdowns[i].waitFor[k] < |p.clients| && p.clients[p.shutdowns[i].waitFor[k]].closed
  }

  function Next(p: Pool, e: Event): Pool
    requires InRange(p)
  {
    if !Enabled(p, e) then p
    else match e
      case Init => p.(lock := Building(false, p.current))
      case Refresh => p.(lock := Building(true, p.current))
      case Built => AfterBuilt(p)
      case BuildFailed => p.(lock := Free)
      case Acquire =>
        var c := p.current.value;
        p.(leases := p.leases + [Lease(c, Open)],
           clients := p.clients[c := p.clients[c].(activeLeases := p.clients[c].activeLeases + 1)])
      case LeaseClose(l) => p.(leases := p.leases[l := p.leases[l].(phase := Releasing)])
      case Release(l) => AfterRelease(p, l)
      case CancelRelease(l) => p.(leases := p.leases[l := p.leases[l].(phase := Abandoned)])
      case CloseFinished(c) => p.(clients := p.clients[c := p.clients[c].(closed := true)])
      case CloseCallback(c) => p.(closing := RemoveFirst(p.closing, c))
      case CloseAll => AfterCloseAll(p)
      case CloseAllReturn(i) => p.(shutdowns := p.shutdowns[i := p.shutdowns[i].(returned := true)])
  }

  // ---- What every step keeps ----

  function Weight(l: Lease, c: ClientId): nat {
    if l.client == c && !l.phase.Released? then 1 else 0
  }

  /** Leases on client `c` that have not been given back. */
  function Held(leases: seq<Lease>, c: ClientId): nat {
    if leases == [] then 0 else Held(leases[..|leases| - 1], c) + Weight(leases[|leases| - 1], c)
  }

  predicate NoDuplicates(s: seq<ClientId>) {
    forall i, j :: 0 <= i < j < |s| ==> s[i] != s[j]
  }

  /** What holds of each client whatever its place in the pool. */
  ghost predicate ClientSound(p: Pool, c: ClientId)
    requires c < |p.clients|
  {
    var client := p.clients[c];
    && client.activeLeases == Held(p.leases, c)
    && client.closeStarts == (if client.closeTask then 1 else 0)
    && (client.closeTask ==> client.closeRequested)
    && (client.closed ==> client.closeTask)
    && (c in p.retired ==> client.closeRequested && !client.closeTask)
    && (c in p.closing ==> client.closeTask)
    && (client.closeTask && !client.closed ==> c in p.closing)
  }

  /** The current client is in use; any other is closing or closed, or retired with leases out. */
  ghost predicate Accounted(p: Pool, c: ClientId)
    requires c < |p.clients|
  {
    var client := p.clients[c];
    if p.current == Some(c) then !client.closeRequested
    else client.closeRequested && (!client.closeTask ==> client.activeLeases > 0 && c in p.retired)
  }

  ghost predicate Sound(p: Pool) {
    && InRange(p)
    && NoDuplicates(p.retired) && NoDuplicates(p.closing)
    && (forall c :: 0 <= c < |p.clients| ==> ClientSound(p, c))
    && (forall i :: 0 <= i < |p.shutdowns| ==> Awaited(p, p.shutdowns[i]))
  }

  /** Every client known to a shutdown call is one it waits for or is closed already. */
  ghost predicate Awaited(p: Pool, s: Shutdown) {
    && s.known <= |p.clients|
    && (forall c :: 0 <= c < s.known ==> c in s.waitFor || p.clients[c].closed)
    && (s.returned ==> forall c :: 0 <= c < s.known ==> p.clients[c].closed)
  }

  ghost predicate Inv(p: Pool) {
    Sound(p) && forall c :: 0 <= c < |p.clients| ==> Accounted(p, c)
  }

  // ---- Lists and counts ----

  lemma {:induction false} RemoveFirstMembers(s: seq<ClientId>, x: ClientId)
    requires NoDuplicates(s)
    ensures NoDuplicates(RemoveFirst(s, x))
    ensures forall y :: y in RemoveFirst(s, x) <==> y in s && y != x
  {
    if s != [] {
      assert s == [s[0]] + s[1..];
      assert s[0] !in s[1..];
      RemoveFirstMembers(s[1..], x);
      if s[0] != x {
        var r := RemoveFirst(s[1..], x);
        assert forall i :: 0 <= i < |r| ==> r[i] in r;
      }
    }
  }

  lemma {:induction false} HeldUpdate(leases: seq<Lease>, l: LeaseId, x: Lease, c: ClientId)
    requires l < |leases|
    ensures Held(leases[l := x], c) + Weight(leases[l], c) == Held(leases, c) + Weight(x, c)
  {
    var n := |leases| - 1;
    if l < n {
      HeldUpdate(leases[..n], l, x, c);
      assert leases[l := x][..n] == leases[..n][l := x];
    } else {
      assert leases[l := x][..n] == leases[..n];
    }
  }

  lemma {:induction false} HeldNone(leases: seq<Lease>, c: ClientId)
    requires forall i :: 0 <= i < |leases| ==> leases[i].client != c
    ensures Held(leases, c) == 0
  {
    if leases != [] {
      HeldNone(leases[..|leases| - 1], c);
    }
  }

  lemma {:induction false} HeldPositive(leases: seq<Lease>, l: LeaseId)
    requires l < |leases| && !leases[l].phase.Released?
    ensures Held(leases, leases[l].client) > 0
  {
    if l < |leases| - 1 {
      HeldPositive(leases[..|leases| - 1], l);
    }
  }

  // ---- Starting and requesting a close ----

  lemma StartCloseKeeps(p: Pool, c: ClientId)
    requires Sound(p) && c < |p.clients| && p.clients[c].closeRequested
    ensures Sound(StartClose(p, c)) && StartClose(p, c).clients[c].closeStarts == 1
    ensures forall d :: 0 <= d < |p.clients| && d != c ==> StartClose(p, c).clients[d] == p.clients[d]
    ensures forall d :: d in StartClose(p, c).retired <==> d in p.retired && d != c
    ensures StartClose(p, c).clients[c] == if p.clients[c].closeTask then p.clients[c] else p.clients[c].Starting()
  {
    assert ClientSound(p, c);
    if !p.clients[c].closeTask {
      RemoveFirstMembers(p.retired, c);
      var q := StartClose(p, c);
      forall d | 0 <= d < |q.clients| ensures ClientSound(q, d) {
        assert ClientSound(p, d);
      }
      forall i | 0 <= i < |q.retired| ensures q.retired[i] < |q.clients| {
        assert q.retired[i] in q.retired;
      }
      forall i | 0 <= i < |q.shutdowns| ensures Awaited(q, q.shutdowns[i]) {
        assert Awaited(p, p.shutdowns[i]);
      }
    }
  }

  /** Marking a client alone breaks nothing that Sound says. */
  lemma MarkKeeps(p: Pool, c: ClientId)
    requires Sound(p) && c < |p.clients|
    ensures Sound(p.(clients := p.clients[c := p.clients[c].(closeRequested := true)]))
  {
    var q := p.(clients := p.clients[c := p.clients[c].(closeRequested := true)]);
    forall d | 0 <= d < |q.clients| ensures ClientSound(q, d) {
      assert ClientSound(p, d);
    }
    forall i | 0 <= i < |q.shutdowns| ensures Awaited(q, q.shutdowns[i]) {
      assert Awaited(p, p.shutdowns[i]);
    }
  }

  lemma ForceKeeps(p: Pool, c: ClientId)
    requires Sound(p) && c < |p.clients|
    ensures var q := RequestClose(p, c, true);
            && Sound(q) && q.clients[c].closeStarts == 1
            && (forall d :: 0 <= d < |p.clients| && d != c ==> q.clients[d] == p.clients[d])
            && q.current == p.current && q.leases == p.leases && q.shutdowns == p.shutdowns && q.lock == p.lock
  {
    var q := p.(clients := p.clients[c := p.clients[c].(closeRequested := true)]);
    MarkKeeps(p, c);
    StartCloseKeeps(q, c);
  }

  lemma {:induction false} ForceAllKeeps(p: Pool, ids: seq<ClientId>)
    requires Sound(p) && forall i :: 0 <= i < |ids| ==> ids[i] < |p.clients|
    ensures var q := ForceAll(p, ids);
            && Sound(q)
            && (forall d :: 0 <= d < |p.clients| && (d in ids || p.clients[d].closeStarts == 1) ==> q.clients[d].closeStarts == 1)
            && (forall d :: 0 <= d < |p.clients| && d !in ids ==> q.clients[d] == p.clients[d])
            && q.current == p.current && q.leases == p.leases && q.shutdowns == p.shutdowns && q.lock == p.lock
    decreases |ids|
  {
    if ids != [] {
      ForceKeeps(p, ids[0]);
      ForceAllKeeps(RequestClose(p, ids[0], true), ids[1..]);
      assert forall d :: d in ids <==> d == ids[0] || d in ids[1..];
    }
  }

  lemma DropCurrentKeeps(p: Pool)
    requires Sound(p) && p.lock.Free?
    ensures Sound(p.(current := None))
  {
    var q := p.(current := None);
    forall d | 0 <= d < |q.clients| ensures ClientSound(q, d) { assert ClientSound(p, d); }
    forall i | 0 <= i < |q.shutdowns| ensures Awaited(q, q.shutdowns[i]) { assert Awaited(p, p.shutdowns[i]); }
  }

  lemma AddShutdownKeeps(p: Pool, s: Shutdown)
    requires Sound(p) && Awaited(p, s)
    ensures Sound(p.(shutdowns := p.shutdowns + [s]))
  {
    var q := p.(shutdowns := p.shutdowns + [s]);
    forall d | 0 <= d < |q.clients| ensures ClientSound(q, d) { assert ClientSound(p, d); }
    forall i | 0 <= i < |q.shutdowns| ensures Awaited(q, q.shutdowns[i]) {
      if i < |p.shutdowns| { assert Awaited(p, p.shutdowns[i]); } else { assert Awaited(p, s); }
    }
  }

  /** After a shutdown's locked part, every client ever made is closing or closed. */
  lemma CloseAllStartsEveryClose(p: Pool)
    requires Inv(p) && p.lock.Free?
    ensures Inv(AfterCloseAll(p))
    ensures forall c :: 0 <= c < |p.clients| ==> AfterCloseAll(p).clients[c].closeStarts == 1
  {
    var ids, start := Everyone(p), p.(current := None);
    DropCurrentKeeps(p);
    ForceAllKeeps(start, ids);
    var forced := ForceAll(start, ids);
    forall c | 0 <= c < |p.clients| ensures forced.clients[c].closeStarts == 1 && (c in ids || forced.clients[c].closed) {
      assert ClientSound(p, c) && Accounted(p, c);
    }
    AddShutdownKeeps(forced, Shutdown(ids, |p.clients|, false));
    forall c | 0 <= c < |p.clients| ensures Accounted(AfterCloseAll(p), c) {
      assert ClientSound(forced, c);
    }
  }

  // ---- The other steps ----

  lemma SameButLeases(p: Pool, q: Pool)
    requires Inv(p) && q == p.(leases := q.leases, lock := q.lock) && InRange(q)
    requires forall c :: 0 <= c < |p.clients| ==> Held(q.leases, c) == Held(p.leases, c)
    ensures Inv(q)
  {
    forall d | 0 <= d < |q.clients| ensures ClientSound(q, d) && Accounted(q, d) {
      assert ClientSound(p, d) && Accounted(p, d);
    }
    forall i | 0 <= i < |q.shutdowns| ensures Awaited(q, q.shutdowns[i]) { assert Awaited(p, p.shutdowns[i]); }
  }

  lemma PhaseChangeKeeps(p: Pool, l: LeaseId, phase: Phase)
    requires Inv(p) && l < |p.leases| && !p.leases[l].phase.Released? && !phase.Released?
    ensures Inv(p.(leases := p.leases[l := p.leases[l].(phase := phase)]))
  {
    var q := p.(leases := p.leases[l := p.leases[l].(phase := phase)]);
    forall c | 0 <= c < |p.clients| ensures Held(q.leases, c) == Held(p.leases, c) {
      HeldUpdate(p.leases, l, q.leases[l], c);
    }
    SameButLeases(p, q);
  }

  lemma AcquireKeeps(p: Pool)
    requires Inv(p) && Enabled(p, Acquire)
    ensures Inv(Next(p, Acquire))
  {
    var q, c := Next(p, Acquire), p.current.value;
    forall d | 0 <= d < |q.clients| ensures ClientSound(q, d) && Accounted(q, d) {
      assert ClientSound(p, d) && Accounted(p, d);
    }
    forall i | 0 <= i < |q.shutdowns| ensures Awaited(q, q.shutdowns[i]) { assert Awaited(p, p.shutdowns[i]); }
  }

  /** The lease count is still positive when a lease is given back. */
  lemma ReleaseNeverNegative(p: Pool, l: LeaseId)
    requires Inv(p) && Enabled(p, Release(l))
    ensures p.clients[p.leases[l].client].activeLeases - 1 >= 0
  {
    assert ClientSound(p, p.leases[l].client);
    HeldPositive(p.leases, l);
  }

  lemma ReleaseKeeps(p: Pool, l: LeaseId)
    requires Inv(p) && Enabled(p, Release(l))
    ensures Inv(Next(p, Release(l)))
  {
    var c := p.leases[l].client;
    var client := p.clients[c].(activeLeases := p.clients[c].activeLeases - 1);
    var given := p.leases[l].(phase := Released);
    var mid := p.(leases := p.leases[l := given], clients := p.clients[c := client]);
    ReleaseNeverNegative(p, l);
    forall d | 0 <= d < |mid.clients| ensures ClientSound(mid, d) && (d != c ==> Accounted(mid, d)) {
      HeldUpdate(p.leases, l, given, d);
      assert ClientSound(p, d) && Accounted(p, d);
    }
    forall i | 0 <= i < |mid.shutdowns| ensures Awaited(mid, mid.shutdowns[i]) { assert Awaited(p, p.shutdowns[i]); }
    assert Sound(mid);
    assert Accounted(p, c);
    if client.closeRequested && client.activeLeases == 0 {
      StartCloseKeeps(mid, c);
      var q := StartClose(mid, c);
      forall d | 0 <= d < |q.clients| ensures Accounted(q, d) { assert d != c ==> Accounted(mid, d); }
    }
  }

  lemma AddClientKeeps(p: Pool)
    requires Inv(p) && p.lock.Building?
    ensures var q := p.(clients := p.clients + [NewClient], current := Some(|p.clients|), lock := Free);
            && Sound(q)
            && (forall c :: 0 <= c < |q.clients| && p.current != Some(c) ==> Accounted(q, c))
  {
    var n := |p.clients|;
    var q := p.(clients := p.clients + [NewClient], current := Some(n), lock := Free);
    HeldNone(p.leases, n);
    forall d | 0 <= d < |q.clients| ensures ClientSound(q, d) && (p.current != Some(d) ==> Accounted(q, d)) {
      if d < n { assert ClientSound(p, d) && Accounted(p, d); }
    }
    forall i | 0 <= i < |q.shutdowns| ensures Awaited(q, q.shutdowns[i]) { assert Awaited(p, p.shutdowns[i]); }
  }

  /** Replacing a client: the old one is closed at once if unused, else retired until its leases are back. */
  lemma RetireKeeps(p: Pool, c: ClientId)
    requires Sound(p) && c < |p.clients| && p.current != Some(c)
    requires !p.clients[c].closeRequested
    requires forall d :: 0 <= d < |p.clients| && d != c ==> Accounted(p, d)
    ensures Inv(RequestClose(p, c, false))
  {
    var mid := p.(clients := p.clients[c := p.clients[c].(closeRequested := true)]);
    MarkKeeps(p, c);
    assert ClientSound(p, c);
    var q := RequestClose(p, c, false);
    if p.clients[c].activeLeases > 0 {
      forall d | 0 <= d < |q.clients| ensures ClientSound(q, d) && Accounted(q, d) {
        assert ClientSound(mid, d) && (d != c ==> Accounted(p, d));
      }
      forall i | 0 <= i < |q.shutdowns| ensures Awaited(q, q.shutdowns[i]) { assert Awaited(mid, mid.shutdowns[i]); }
    } else {
      StartCloseKeeps(mid, c);
      forall d | 0 <= d < |q.clients| ensures Accounted(q, d) { assert d != c ==> Accounted(p, d); }
    }
  }

  lemma BuiltKeeps(p: Pool)
    requires Inv(p) && p.lock.Building?
    ensures Inv(AfterBuilt(p))
  {
    AddClientKeeps(p);
    if p.current.Some? {
      var c := p.current.value;
      assert Accounted(p, c);
      RetireKeeps(p.(clients := p.clients + [NewClient], current := Some(|p.clients|), lock := Free), c);
    }
  }

  lemma CloseProgressKeeps(p: Pool, e: Event)
    requires Inv(p) && Enabled(p, e) && (e.CloseFinished? || e.CloseCallback?)
    ensures Inv(Next(p, e))
  {
    var q := Next(p, e);
    if e.CloseCallback? {
      RemoveFirstMembers(p.closing, e.client);
      assert forall i :: 0 <= i < |q.closing| ==> q.closing[i] in q.closing;
    }
    forall d | 0 <= d < |q.clients| ensures ClientSound(q, d) && Accounted(q, d) {
      assert ClientSound(p, d) && Accounted(p, d);
    }
    forall i | 0 <= i < |q.shutdowns| ensures Awaited(q, q.shutdowns[i]) { assert Awaited(p, p.shutdowns[i]); }
  }

  lemma ReturnKeeps(p: Pool, k: nat)
    requires Inv(p) && Enabled(p, CloseAllReturn(k))
    ensures Inv(Next(p, CloseAllReturn(k)))
  {
    var q := Next(p, CloseAllReturn(k));
    forall d | 0 <= d < |q.clients| ensures ClientSound(q, d) && Accounted(q, d) {
      assert ClientSound(p, d) && Accounted(p, d);
    }
    forall i | 0 <= i < |q.shutdowns| ensures Awaited(q, q.shutdowns[i]) { assert Awaited(p, p.shutdowns[i]); }
  }

  lemma InvKept(p: Pool, e: Event)
    requires Inv(p)
    ensures Inv(Next(p, e))
  {
    if Enabled(p, e) {
      match e
      case Init => SameButLeases(p, Next(p, e));
      case Refresh => SameButLeases(p, Next(p, e));
      case Built => BuiltKeeps(p);
      case BuildFailed => SameButLeases(p, Next(p, e));
      case Acquire => AcquireKeeps(p);
      case LeaseClose(l) => PhaseChangeKeeps(p, l, Releasing);
      case Release(l) => ReleaseKeeps(p, l);
      case CancelRelease(l) => PhaseChangeKeeps(p, l, Abandoned);
      case CloseFinished(_) => CloseProgressKeeps(p, e);
      case CloseCallback(_) => CloseProgressKeeps(p, e);
      case CloseAll => CloseAllStartsEveryClose(p);
      case CloseAllReturn(k) => ReturnKeeps(p, k);
    }
  }

  // ---- Every interleaving ----

  /** The pool after any interleaving of steps; a step that cannot be taken changes nothing. */
  ghost function Run(events: seq<Event>): (p: Pool)
    ensures Inv(p)
  {
    if events == [] then EmptyPool
    else
      var before := Run(events[..|events| - 1]);
      InvKept(before, events[|events| - 1]);
      Next(before, events[|events| - 1])
  }

  /** In every interleaving: lease counts are exact, no close starts twice, an unused client that is
      not current is closing or closed, and the current one is neither. */
  lemma PoolSafety(events: seq<Event>, c: ClientId)
    requires c < |Run(events).clients|
    ensures var p := Run(events); var client := p.clients[c];
            && client.activeLeases == Held(p.leases, c)
            && client.closeStarts <= 1
            && (p.current != Some(c) && client.activeLeases == 0 ==> client.closeStarts == 1)
            && (p.current == Some(c) ==> client.closeStarts == 0)
  {
    assert ClientSound(Run(events), c) && Accounted(Run(events), c);
  }

  /** The error for a lease released too often is unreachable. */
  lemma NeverReleasedTooOften(events: seq<Event>, l: LeaseId)
    requires Enabled(Run(events), Release(l))
    ensures var p := Run(events); p.clients[p.leases[l].client].activeLeases - 1 >= 0
  {
    ReleaseNeverNegative(Run(events), l);
  }

  lemma CloseWithLeases(p: Pool, e: Event, c: ClientId)
    requires Inv(p) && c < |p.clients| && p.clients[c].closeStarts == 0
    requires Next(p, e).clients[c].closeStarts > 0 && Held(Next(p, e).leases, c) > 0
    ensures e.CloseAll?
  {
    InvKept(p, e);
    assert Next(p, e).clients[c].activeLeases > 0 by { assert ClientSound(Next(p, e), c); }
  }

  /** A client's close starts while leases on it are out only in a forced shutdown. */
  lemma CloseWithLeasesOnlyByShutdown(events: seq<Event>, e: Event, c: ClientId)
    requires c < |Run(events).clients| && Run(events).clients[c].closeStarts == 0
    requires Next(Run(events), e).clients[c].closeStarts > 0
    requires Held(Next(Run(events), e).leases, c) > 0
    ensures e.CloseAll?
  {
    CloseWithLeases(Run(events), e, c);
  }

  /** When a shutdown call returns, every client made before it is closed. */
  lemma ShutdownReturnsWhenAllClosed(events: seq<Event>, k: nat, c: ClientId)
    requires k < |Run(events).shutdowns|
    requires Run(events).shutdowns[k].returned && c < Run(events).shutdowns[k].known
    ensures c < |Run(events).clients| && Run(events).clients[c].closed
  {
    assert Awaited(Run(events), Run(events).shutdowns[k]);
  }

  // ---- Which client a lease is on ----

  lemma RunSnoc(events: seq<Event>, e: Event)
    ensures Run(events + [e]) == Next(Run(events), e)
  {
    var all := events + [e];
    assert all[..|all| - 1] == events && all[|all| - 1] == e;
  }

  /** A new lease is on the client current at that time, which nobody has asked to close, and the
      leases out before are untouched. */
  lemma LeaseIsOnCurrentClient(events: seq<Event>)
    requires Enabled(Run(events), Acquire)
    ensures var p, q := Run(events), Run(events + [Acquire]); var c := p.current.value;
            && q.leases == p.leases + [Lease(c, Open)]
            && q.current == Some(c) && c < |q.clients|
            && q.clients[c].closeStarts == 0 && !q.clients[c].closeRequested && !q.clients[c].closed
            && q.clients[c].activeLeases == p.clients[c].activeLeases + 1
  {
    RunSnoc(events, Acquire);
    assert ClientSound(Run(events), Run(events).current.value) && Accounted(Run(events), Run(events).current.value);
  }

  lemma {:induction false} ForceAllKeepsLeases(p: Pool, ids: seq<ClientId>)
    requires forall i :: 0 <= i < |ids| ==> ids[i] < |p.clients|
    ensures ForceAll(p, ids).leases == p.leases && ForceAll(p, ids).current == p.current
    decreases |ids|
  {
    if ids != [] {
      ForceAllKeepsLeases(RequestClose(p, ids[0], true), ids[1..]);
    }
  }

  ghost predicate SameLeaseClients(p: Pool, q: Pool) {
    |p.leases| <= |q.leases| && forall l :: 0 <= l < |p.leases| ==> q.leases[l].client == p.leases[l].client
  }

  lemma StepKeepsLeaseClients(p: Pool, e: Event)
    requires InRange(p)
    ensures SameLeaseClients(p, Next(p, e))
  {
    if e.CloseAll? && Enabled(p, e) {
      ForceAllKeepsLeases(p.(current := None), Everyone(p));
    }
  }

  lemma SameLeaseClientsThen(p: Pool, q: Pool, r: Pool)
    requires SameLeaseClients(p, q) && SameLeaseClients(q, r)
    ensures SameLeaseClients(p, r)
  {
  }

  /** A lease stays on its client, whatever becomes current or is closed. */
  lemma {:induction false} LeasesKeepTheirClients(events: seq<Event>, more: seq<Event>)
    ensures SameLeaseClients(Run(events), Run(events + more))
    decreases |more|
  {
    if more == [] {
      assert events + more == events;
    } else {
      var init, e := more[..|more| - 1], more[|more| - 1];
      LeasesKeepTheirClients(events, init);
      assert events + more == (events + init) + [e];
      RunSnoc(events + init, e);
      StepKeepsLeaseClients(Run(events + init), e);
      SameLeaseClientsThen(Run(events), Run(events + init), Run(events + more));
    }
  }

  // ---- Building, releasing and shutting down get somewhere ----

  /** `q` has a new current client; the one replaced is to be closed: at once without leases, else it
      is retired. */
  ghost predicate Installed(p: Pool, q: Pool) {
    var n := |p.clients|;
    && q.current == Some(n) && |q.clients| == n + 1 && q.clients[n] == NewClient && q.lock.Free? && q.leases == p.leases
    && (p.current.Some? ==>
          var c := p.current.value;
          && c < n && q.clients[c].closeRequested
          && (q.clients[c].closeStarts == 1 <==> p.clients[c].activeLeases == 0)
          && (p.clients[c].activeLeases > 0 ==> c in q.retired))
  }

  lemma BuiltInstalls(p: Pool, e: Event)
    requires Inv(p) && (e.Init? || e.Refresh?) && Enabled(p, e)
    ensures InRange(Next(p, e)) && Next(p, e).lock.Building? && Installed(p, AfterBuilt(Next(p, e)))
  {
    if p.current.Some? {
      assert ClientSound(p, p.current.value) && Accounted(p, p.current.value);
    }
  }

  /** Init or refresh makes the new client current once it is built; if that fails nothing has changed. */
  lemma BuildInstallsNewClient(events: seq<Event>, e: Event)
    requires (e.Init? || e.Refresh?) && Enabled(Run(events), e)
    ensures Installed(Run(events), Run(events + [e] + [Built]))
    ensures Run(events + [e] + [BuildFailed]) == Run(events)
  {
    RunSnoc(events, e);
    RunSnoc(events + [e], Built);
    RunSnoc(events + [e], BuildFailed);
    BuiltInstalls(Run(events), e);
  }

  ghost predicate GivenBack(p: Pool, q: Pool, l: LeaseId) {
    && l < |p.leases| && l < |q.leases| && p.leases[l].client < |p.clients| && p.leases[l].client < |q.clients|
    && var c := p.leases[l].client;
       && q.leases[l].phase.Released? && q.clients[c].activeLeases == p.clients[c].activeLeases - 1
       && (p.clients[c].closeRequested && q.clients[c].activeLeases == 0 ==> q.clients[c].closeStarts == 1)
  }

  lemma ClosedThenReleased(p: Pool, l: LeaseId)
    requires Inv(p) && p.lock.Free? && l < |p.leases| && p.leases[l].phase.Open?
    ensures InRange(Next(p, LeaseClose(l))) && Enabled(Next(p, LeaseClose(l)), Release(l))
    ensures InRange(AfterRelease(Next(p, LeaseClose(l)), l)) && GivenBack(p, AfterRelease(Next(p, LeaseClose(l)), l), l)
  {
    var mid := Next(p, LeaseClose(l));
    PhaseChangeKeeps(p, l, Releasing);
    ReleaseKeeps(mid, l);
    assert ClientSound(AfterRelease(mid, l), p.leases[l].client);
  }

  /** Closing an open lease gives it back: its client has one lease less, and the last one back on a
      replaced client starts that client's close.  A second close of the lease does nothing. */
  lemma ClosedLeaseIsGivenBack(events: seq<Event>, l: LeaseId)
    requires Run(events).lock.Free? && l < |Run(events).leases| && Run(events).leases[l].phase.Open?
    ensures GivenBack(Run(events), Run(events + [LeaseClose(l)] + [Release(l)]), l)
    ensures Run(events + [LeaseClose(l)] + [Release(l)] + [LeaseClose(l)]) == Run(events + [LeaseClose(l)] + [Release(l)])
  {
    var more := events + [LeaseClose(l)];
    RunSnoc(events, LeaseClose(l));
    RunSnoc(more, Release(l));
    RunSnoc(more + [Release(l)], LeaseClose(l));
    ClosedThenReleased(Run(events), l);
  }

  /** Whoever a shutdown waits for has its close started. */
  ghost predicate WaitsForStarted(p: Pool, s: Shutdown) {
    forall j :: 0 <= j < |s.waitFor| ==> s.waitFor[j] < |p.clients| && p.clients[s.waitFor[j]].closeTask
  }

  /** No client is ever dropped from the record, and no close taken back. */
  ghost predicate OnlyCloses(p: Pool, q: Pool) {
    && |p.clients| <= |q.clients|
    && forall c :: 0 <= c < |p.clients| ==>
         (p.clients[c].closeTask ==> q.clients[c].closeTask) && (p.clients[c].closed ==> q.clients[c].closed)
  }

  lemma CloseAllOnlyCloses(p: Pool)
    requires Inv(p) && p.lock.Free?
    ensures OnlyCloses(p, AfterCloseAll(p))
    ensures AfterCloseAll(p).shutdowns == p.shutdowns + [Shutdown(Everyone(p), |p.clients|, false)]
    ensures WaitsForStarted(AfterCloseAll(p), Shutdown(Everyone(p), |p.clients|, false))
  {
    var start, ids := p.(current := None), Everyone(p);
    DropCurrentKeeps(p);
    ForceAllKeeps(start, ids);
    var q := ForceAll(start, ids);
    forall c | 0 <= c < |p.clients| ensures p.clients[c].closeTask ==> q.clients[c].closeTask {
      assert ClientSound(start, c) && ClientSound(q, c);
    }
    forall j | 0 <= j < |ids| ensures q.clients[ids[j]].closeTask {
      assert ids[j] in ids && ClientSound(q, ids[j]);
    }
    ForcedKeepClosed(start, ids);
  }

  lemma {:induction false} ForcedKeepClosed(p: Pool, ids: seq<ClientId>)
    requires forall i :: 0 <= i < |ids| ==> ids[i] < |p.clients|
    ensures forall c :: 0 <= c < |p.clients| ==> ForceAll(p, ids).clients[c].closed == p.clients[c].closed
    decreases |ids|
  {
    if ids != [] {
      ForcedKeepClosed(RequestClose(p, ids[0], true), ids[1..]);
    }
  }

  lemma StepOnlyCloses(p: Pool, e: Event)
    requires Inv(p)
    ensures OnlyCloses(p, Next(p, e))
    ensures forall i :: 0 <= i < |Next(p, e).shutdowns| ==>
              if i < |p.shutdowns| then Next(p, e).shutdowns[i].waitFor == p.shutdowns[i].waitFor
              else WaitsForStarted(Next(p, e), Next(p, e).shutdowns[i])
  {
    if e.CloseAll? && Enabled(p, e) {
      CloseAllOnlyCloses(p);
    }
  }

  lemma {:induction false} ShutdownsStarted(events: seq<Event>)
    ensures forall i :: 0 <= i < |Run(events).shutdowns| ==> WaitsForStarted(Run(events), Run(events).shutdowns[i])
  {
    if events != [] {
      var init, e := events[..|events| - 1], events[|events| - 1];
      ShutdownsStarted(init);
      StepOnlyCloses(Run(init), e);
      forall i | 0 <= i < |Run(events).shutdowns| ensures WaitsForStarted(Run(events), Run(events).shutdowns[i]) {
        if i < |Run(init).shutdowns| {
          assert WaitsForStarted(Run(init), Run(init).shutdowns[i]);
        }
      }
    }
  }

  ghost predicate TakenDown(p: Pool, q: Pool) {
    && q.current.None? && q.leases == p.leases && |q.clients| == |p.clients|
    && (forall c :: 0 <= c < |q.clients| ==> q.clients[c].closeStarts == 1)
    && |q.shutdowns| == |p.shutdowns| + 1
    && (forall c :: 0 <= c < |q.clients| ==> c in q.shutdowns[|p.shutdowns|].waitFor || q.clients[c].closed)
  }

  lemma CloseAllTakesDown(p: Pool)
    requires Inv(p) && p.lock.Free?
    ensures Next(p, CloseAll) == AfterCloseAll(p) && TakenDown(p, Next(p, CloseAll))
  {
    CloseAllStartsEveryClose(p);
    CloseAllOnlyCloses(p);
    ForceAllKeepsLeases(p.(current := None), Everyone(p));
    assert Awaited(AfterCloseAll(p), AfterCloseAll(p).shutdowns[|p.shutdowns|]);
  }

  /** Whenever the lock is free a shutdown can go through its locked part: then there is no current
      client, every client made so far is closing or closed, and the shutdown waits for those not closed. */
  lemma ShutdownTakesAll(events: seq<Event>)
    requires Run(events).lock.Free?
    ensures TakenDown(Run(events), Run(events + [CloseAll]))
  {
    CloseAllTakesDown(Run(events));
    assert Run(events + [CloseAll]) == Next(Run(events), CloseAll) by {
      RunSnoc(events, CloseAll);
    }
  }

  function Finishing(ids: seq<ClientId>): seq<Event> {
    seq(|ids|, i requires 0 <= i < |ids| => CloseFinished(ids[i]))
  }

  ghost function CloseEach(p: Pool, ids: seq<ClientId>): (q: Pool)
    requires InRange(p)
    ensures InRange(q)
  {
    if ids == [] then p else Next(CloseEach(p, ids[..|ids| - 1]), CloseFinished(ids[|ids| - 1]))
  }

  lemma {:induction false} FinishingIsCloseEach(events: seq<Event>, ids: seq<ClientId>)
    ensures Run(events + Finishing(ids)) == CloseEach(Run(events), ids)
    decreases |ids|
  {
    if ids == [] {
      assert events + Finishing(ids) == events;
    } else {
      var n := |ids| - 1;
      FinishingIsCloseEach(events, ids[..n]);
      FinishingSnoc(events, ids);
      RunSnoc(events + Finishing(ids[..n]), CloseFinished(ids[n]));
    }
  }

  lemma FinishingSnoc(events: seq<Event>, ids: seq<ClientId>)
    requires ids != []
    ensures var n := |ids| - 1;
            events + Finishing(ids) == (events + Finishing(ids[..n])) + [CloseFinished(ids[n])]
  {
  }

  lemma {:induction false} CloseEachCloses(p: Pool, ids: seq<ClientId>)
    requires InRange(p) && forall i :: 0 <= i < |ids| ==> ids[i] < |p.clients| && p.clients[ids[i]].closeTask
    ensures var q := CloseEach(p, ids);
            && |q.clients| == |p.clients| && q.shutdowns == p.shutdowns
            && (forall c :: 0 <= c < |p.clients| ==> q.clients[c].closeTask == p.clients[c].closeTask)
            && (forall c :: 0 <= c < |p.clients| && c in ids ==> q.clients[c].closed)
  {
    if ids != [] {
      CloseEachCloses(p, ids[..|ids| - 1]);
    }
  }

  /** Every close that was started can finish, and once those it waits for have, a shutdown returns. */
  lemma ShutdownCanReturn(events: seq<Event>, k: nat)
    requires k < |Run(events).shutdowns|
    ensures var q := Run(events + Finishing(Run(events).shutdowns[k].waitFor) + [CloseAllReturn(k)]);
            k < |q.shutdowns| && q.shutdowns[k].returned
  {
    var p := Run(events);
    var ids := p.shutdowns[k].waitFor;
    ShutdownsStarted(events);
    assert WaitsForStarted(p, p.shutdowns[k]);
    CloseEachCloses(p, ids);
    FinishingIsCloseEach(events, ids);
    RunSnoc(events + Finishing(ids), CloseAllReturn(k));
    ReturnEnabled(CloseEach(p, ids), k);
  }

  lemma ReturnEnabled(p: Pool, k: nat)
    requires InRange(p) && k < |p.shutdowns|
    requires forall i :: 0 <= i < |p.shutdowns[k].waitFor| ==>
               p.shutdowns[k].waitFor[i] < |p.clients| && p.clients[p.shutdowns[k].waitFor[i]].closed
    ensures |Next(p, CloseAllReturn(k)).shutdowns| == |p.shutdowns| && Next(p, CloseAllReturn(k)).shutdowns[k].returned
  {
  }

  // ---- The module's mutable state ----

  class HttpClients {
    var clients: seq<Client>
    var leases: seq<Lease>
    var current: Option<ClientId>
    var retired: seq<ClientId>
    var closing: seq<ClientId>
    var lock: Lock
    var shutdowns: seq<Shutdown>

    function View(): Pool
      reads this
    {
      Pool(clients, leases, current, retired, closing, lock, shutdowns)
    }

    constructor ()
      ensures View() == EmptyPool
    {
      clients, leases, current, retired, closing, lock, shutdowns := [], [], None, [], [], Free, [];
    }

    method StartCloseLocked(c: ClientId)
      requires c < |clients|
      modifies this
      ensures View() == StartClose(old(View()), c)
    {
      if clients[c].closeTask {
        return;
      }
      retired := RemoveFirst(retired, c);
      closing := closing + [c];
      clients := clients[c := clients[c].(closeTask := true, closeStarts := clients[c].closeStarts + 1)];
    }

    method RequestCloseLocked(c: ClientId, force: bool)
      requires c < |clients|
      modifies this
      ensures View() == RequestClose(old(View()), c, force)
    {
      clients := clients[c := clients[c].(closeRequested := true)];
      if clients[c].activeLeases > 0 && !force {
        if c !in retired {
          retired := retired + [c];
        }
        return;
      }
      StartCloseLocked(c);
    }

    /** None is the error for a pool that was not initialised. */
    method AcquireClient() returns (lease: Option<LeaseId>)
      requires InRange(View()) && lock.Free?
      modifies this
      ensures View() == Next(old(View()), Acquire)
      ensures lease == if old(current).Some? then Some(|old(leases)|) else None
    {
      if current.None? {
        return None;
      }
      var c := current.value;
      clients := clients[c := clients[c].(activeLeases := clients[c].activeLeases + 1)];
      leases := leases + [Lease(c, Open)];
      lease := Some(|leases| - 1);
    }

    /** The first half of closing a lease, before waiting for the lock; a second close does nothing. */
    method CloseLease(l: LeaseId) returns (mustRelease: bool)
      requires InRange(View()) && l < |leases|
      modifies this
      ensures View() == Next(old(View()), LeaseClose(l))
      ensures mustRelease == old(leases)[l].phase.Open?
    {
      if !leases[l].phase.Open? {
        return false;
      }
      leases := leases[l := leases[l].(phase := Releasing)];
      mustRelease := true;
    }

    method ReleaseClient(l: LeaseId) returns (raised: bool)
      requires InRange(View()) && Enabled(View(), Release(l))
      modifies this
      ensures raised <==> old(clients[leases[l].client].activeLeases) - 1 < 0
      ensures !raised ==> View() == Next(old(View()), Release(l))
      ensures old(Inv(View())) ==> !raised && Inv(View())
    {
      if Inv(View()) {
        ReleaseNeverNegative(View(), l);
        ReleaseKeeps(View(), l);
      }
      var c := leases[l].client;
      clients := clients[c := clients[c].(activeLeases := clients[c].activeLeases - 1)];
      leases := leases[l := leases[l].(phase := Released)];
      if clients[c].activeLeases < 0 {
        return true;
      }
      raised := false;
      if clients[c].closeRequested && clients[c].activeLeases == 0 {
        StartCloseLocked(c);
      }
    }

    method BeginInit() returns (existing: bool)
      requires InRange(View()) && lock.Free?
      modifies this
      ensures View() == Next(old(View()), Init) && existing == old(current).Some?
    {
      if current.Some? {
        return true;
      }
      lock := Building(false, current);
      existing := false;
    }

    method BeginRefresh()
      requires InRange(View()) && lock.Free?
      modifies this
      ensures View() == Next(old(View()), Refresh)
    {
      lock := Building(true, current);
    }

    /** The rest of init or refresh once the new client is there, or could not be built. */
    method FinishBuild(built: bool)
      requires InRange(View()) && lock.Building?
      modifies this
      ensures View() == Next(old(View()), if built then Built else BuildFailed)
    {
      var refresh, previous := lock.refresh, lock.previous;
      lock := Free;
      if built {
        clients := clients + [NewClient];
        current := Some(|clients| - 1);
        if refresh && previous.Some? {
          RequestCloseLocked(previous.value, false);
        }
      }
    }

    method ForceAllLocked(ids: seq<ClientId>)
      requires forall i :: 0 <= i < |ids| ==> ids[i] < |clients|
      modifies this
      ensures View() == ForceAll(old(View()), ids)
    {
      assert ids[0..] == ids;
      for k := 0 to |ids|
        invariant |clients| == |old(clients)|
        invariant ForceAll(View(), ids[k..]) == ForceAll(old(View()), ids)
      {
        RequestCloseLocked(ids[k], true);
      }
    }

    /** The locked part of a shutdown. */
    method CloseAllLocked()
      requires InRange(View()) && lock.Free?
      modifies this
      ensures View() == Next(old(View()), CloseAll)
    {
      var ids := Everyone(View());
      current := None;
      ForceAllLocked(ids);
      shutdowns := shutdowns + [Shutdown(ids, |clients|, false)];
    }
  }

}

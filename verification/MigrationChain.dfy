/**
 * The migration-chain checker (scripts/rewrite_alembic_revisions.py, `_validate_chain`).  A file is
 * given by its name and what the two assignment patterns matched in it.
 */
module MigrationChain {
  import opened Basics
  import opened Wrappers

  datatype Down = NotFound | NoneLiteral | Target(revision: string)

  datatype File = File(name: string, revision: Option<string>, down: Down)

  datatype Error =
    | MissingRevision(file: string)
    | MissingDownRevision(file: string)
    | DuplicateRevision(revision: string)
    | FilenameMismatch(revision: string, file: string)
    | MissingTarget(target: string, revision: string)
    | RootCount(count: nat)
    | HeadCount(count: nat)
    | CycleAt(revision: string)
    | Unreachable(missing: set<string>)

  /** Revision to down-revision. */
  type Revisions = map<string, Option<string>>

  // ---- What a correct set of revisions is ----

  /** `chain` lists every revision once, root first, each revising the one before it. */
  ghost predicate IsChain(revs: Revisions, chain: seq<string>) {
    && chain != []
    && (forall i, j :: 0 <= i < j < |chain| ==> chain[i] != chain[j])
    && (forall r :: r in revs <==> r in chain)
    && revs[chain[0]] == None
    && (forall i :: 0 < i < |chain| ==> Revises(revs, chain, i))
  }

  ghost predicate Revises(revs: Revisions, chain: seq<string>, i: nat)
    requires 0 < i < |chain|
  {
    chain[i] in revs && revs[chain[i]] == Some(chain[i - 1])
  }

  ghost predicate Linear(revs: Revisions) {
    exists chain :: IsChain(revs, chain)
  }

  // ---- Walking down the parents ----

  function Parent(revs: Revisions, r: string): Option<string> {
    if r in revs then revs[r] else None
  }

  function Ancestor(revs: Revisions, r: string, n: nat): Option<string> {
    if n == 0 then Some(r)
    else match Ancestor(revs, r, n - 1)
      case None => None
      case Some(x) => Parent(revs, x)
  }

  ghost predicate OnCycle(revs: Revisions, r: string) {
    exists n :: n > 0 && Ancestor(revs, r, n) == Some(r)
  }

  lemma {:induction false} AncestorPlus(revs: Revisions, r: string, m: nat, n: nat)
    ensures Ancestor(revs, r, m + n) ==
            match Ancestor(revs, r, m) { case None => None case Some(x) => Ancestor(revs, x, n) }
  {
    if n > 0 {
      AncestorPlus(revs, r, m, n - 1);
    }
  }

  /** The distinct revisions met from `start`, in order. */
  ghost predicate IsPath(revs: Revisions, start: string, path: seq<string>) {
    && (forall i :: 0 <= i < |path| ==> Ancestor(revs, start, i) == Some(path[i]))
    && (forall i, j :: 0 <= i < j < |path| ==> path[i] != path[j])
  }

  /** Where the walk met a revision again, that revision lies on a cycle. */
  lemma RevisitIsCycle(revs: Revisions, start: string, path: seq<string>, j: nat)
    requires IsPath(revs, start, path) && j < |path|
    requires Ancestor(revs, start, |path|) == Some(path[j])
    ensures OnCycle(revs, path[j])
  {
    AncestorPlus(revs, start, j, |path| - j);
    assert Ancestor(revs, path[j], |path| - j) == Some(path[j]);
  }

  /** If the start lies on a cycle, it is itself the first revision met again. */
  lemma {:induction false} CycleStartIsRevisited(revs: Revisions, start: string, path: seq<string>, j: nat, n: nat)
    requires IsPath(revs, start, path) && j < |path|
    requires Ancestor(revs, start, |path|) == Some(path[j])
    requires n > 0 && Ancestor(revs, start, n) == Some(start)
    ensures j == 0
    decreases n
  {
    var m := |path|;
    assert path[0] == start;
    if j > 0 {
      assert n >= m;
      AncestorPlus(revs, start, m, n - m);
      AncestorPlus(revs, start, j, n - m);
      CycleStartIsRevisited(revs, start, path, j, j + n - m);
    }
  }

  /** A walk that ends meets no cycle. */
  lemma EndedMeetsNoCycle(revs: Revisions, start: string, n: nat)
    requires Ancestor(revs, start, n).None?
    ensures !OnCycle(revs, start)
  {
    if OnCycle(revs, start) {
      var k :| k > 0 && Ancestor(revs, start, k) == Some(start);
      AncestorMultiple(revs, start, k, n);
      AncestorNoneStays(revs, start, n, k * n);
    }
  }

  lemma {:induction false} AncestorMultiple(revs: Revisions, r: string, k: nat, n: nat)
    requires k > 0 && Ancestor(revs, r, k) == Some(r)
    ensures k * n >= n && Ancestor(revs, r, k * n) == Some(r)
  {
    if n > 0 {
      AncestorMultiple(revs, r, k, n - 1);
      AncestorPlus(revs, r, k * (n - 1), k);
      assert k * n == k * (n - 1) + k;
    }
  }

  lemma AncestorNoneStays(revs: Revisions, r: string, n: nat, m: nat)
    requires n <= m && Ancestor(revs, r, n).None?
    ensures Ancestor(revs, r, m).None?
  {
    AncestorPlus(revs, r, n, m - n);
  }

  /** The universe a walk stays in. */
  function Mentioned(revs: Revisions): set<string> {
    revs.Keys + set r | r in revs && revs[r].Some? :: revs[r].value
  }

  lemma PathStaysMentioned(revs: Revisions, start: string, n: nat)
    requires start in revs && Ancestor(revs, start, n).Some?
    ensures Ancestor(revs, start, n).value in Mentioned(revs)
  {
    if n > 0 {
      var x := Ancestor(revs, start, n - 1).value;
      assert revs[x].Some?;
    }
  }

  ghost function Elements(s: seq<string>): set<string> {
    set x | x in s
  }

  lemma {:induction false} DistinctSize(s: seq<string>)
    requires forall i, j :: 0 <= i < j < |s| ==> s[i] != s[j]
    ensures |Elements(s)| == |s|
  {
    if s != [] {
      var init, last := s[..|s| - 1], s[|s| - 1];
      DistinctSize(init);
      assert Elements(s) == Elements(init) + {last};
      assert last !in init;
    }
  }

  /** What a walk that ended has seen: exactly the ancestors of its start. */
  ghost predicate SeenAncestors(revs: Revisions, start: string, seen: set<string>) {
    && (forall n: nat :: Ancestor(revs, start, n).Some? ==> Ancestor(revs, start, n).value in seen)
    && (forall r :: r in seen ==> exists n: nat :: Ancestor(revs, start, n) == Some(r))
  }

  lemma EndedPath(revs: Revisions, start: string, path: seq<string>)
    requires IsPath(revs, start, path) && Ancestor(revs, start, |path|).None?
    ensures SeenAncestors(revs, start, Elements(path)) && !OnCycle(revs, start)
  {
    EndedMeetsNoCycle(revs, start, |path|);
    forall n: nat | Ancestor(revs, start, n).Some? ensures Ancestor(revs, start, n).value in Elements(path) {
      if n >= |path| {
        AncestorNoneStays(revs, start, |path|, n);
        assert false;
      }
      assert path[n] in path;
    }
    forall r | r in Elements(path) ensures exists n: nat :: Ancestor(revs, start, n) == Some(r) {
      var i: nat :| i < |path| && path[i] == r;
      assert Ancestor(revs, start, i) == Some(r);
    }
  }

  lemma RevisitedPath(revs: Revisions, start: string, path: seq<string>, current: string)
    requires IsPath(revs, start, path) && Ancestor(revs, start, |path|) == Some(current) && current in path
    ensures OnCycle(revs, current)
    ensures OnCycle(revs, start) ==> current == start
    ensures forall n: nat :: Ancestor(revs, start, n).Some?
  {
    var j :| 0 <= j < |path| && path[j] == current;
    RevisitIsCycle(revs, start, path, j);
    forall n: nat ensures Ancestor(revs, start, n).Some? {
      if Ancestor(revs, start, n).None? {
        AncestorNoneStays(revs, start, n, j + n);
        AncestorPlus(revs, start, j, n);
        EndedMeetsNoCycle(revs, current, n);
      }
    }
    if OnCycle(revs, start) {
      var n :| n > 0 && Ancestor(revs, start, n) == Some(start);
      CycleStartIsRevisited(revs, start, path, j, n);
    }
  }

  lemma PathExtends(revs: Revisions, start: string, path: seq<string>, current: string)
    requires IsPath(revs, start, path)
    requires Ancestor(revs, start, |path|) == Some(current) && current !in path
    ensures IsPath(revs, start, path + [current])
  {
    var longer := path + [current];
    forall i, j | 0 <= i < j < |longer| ensures longer[i] != longer[j] {
      assert path[i] in path;
    }
  }

  lemma PathGrows(revs: Revisions, start: string, path: seq<string>, current: string)
    requires start in revs && IsPath(revs, start, path) && Elements(path) <= Mentioned(revs)
    requires Ancestor(revs, start, |path|) == Some(current) && current !in path
    ensures IsPath(revs, start, path + [current]) && Elements(path + [current]) == Elements(path) + {current}
    ensures Elements(path + [current]) <= Mentioned(revs) && |path| < |Mentioned(revs)|
  {
    PathExtends(revs, start, path, current);
    PathStaysMentioned(revs, start, |path|);
    DistinctSize(path + [current]);
    SubsetSize(Elements(path + [current]), Mentioned(revs));
  }

  /** The inner loop: walk the parents of `start` until one has none or is met again. */
  method Walk(revs: Revisions, start: string) returns (revisited: Option<string>, seen: set<string>)
    requires start in revs
    ensures start in seen && seen <= Mentioned(revs)
    ensures revisited.None? <==> exists n: nat :: Ancestor(revs, start, n).None?
    ensures revisited.None? ==> SeenAncestors(revs, start, seen)
    ensures revisited.Some? ==> OnCycle(revs, revisited.value)
    ensures OnCycle(revs, start) ==> revisited == Some(start)
  {
    ghost var path: seq<string> := [];
    seen := {};
    var current := start;
    while true
      invariant IsPath(revs, start, path) && seen == Elements(path)
      invariant Ancestor(revs, start, |path|) == Some(current)
      invariant current == start || start in seen
      invariant seen <= Mentioned(revs)
      decreases |Mentioned(revs)| - |path|
    {
      if current in seen {
        RevisitedPath(revs, start, path, current);
        return Some(current), seen;
      }
      PathGrows(revs, start, path, current);
      seen := seen + {current};
      path := path + [current];
      var down := Parent(revs, current);
      if down.None? {
        EndedPath(revs, start, path);
        return None, seen;
      }
      current := down.value;
    }
  }

  // ---- Reading the files ----

  function DownOf(f: File): Option<string> {
    if f.down.Target? then Some(f.down.revision) else None
  }

  /** The revision is taken from the file. */
  predicate Accepted(revs: Revisions, f: File) {
    f.revision.Some? && !f.down.NotFound? && f.revision.value !in revs
  }

  function Revs(files: seq<File>): Revisions {
    if files == [] then map[]
    else
      var before, f := Revs(files[..|files| - 1]), files[|files| - 1];
      if Accepted(before, f) then before[f.revision.value := DownOf(f)] else before
  }

  function FileErrors(revs: Revisions, f: File): seq<Error> {
    if f.revision.None? then [MissingRevision(f.name)]
    else if f.down.NotFound? then [MissingDownRevision(f.name)]
    else if f.revision.value in revs then [DuplicateRevision(f.revision.value)]
    else if f.name != f.revision.value + ".py" then [FilenameMismatch(f.revision.value, f.name)]
    else []
  }

  function ReadErrors(files: seq<File>): seq<Error> {
    if files == [] then []
    else ReadErrors(files[..|files| - 1]) + FileErrors(Revs(files[..|files| - 1]), files[|files| - 1])
  }

  function Targets(revs: Revisions): set<string> {
    set r | r in revs && revs[r].Some? :: revs[r].value
  }

  predicate FileOk(f: File) {
    f.revision.Some? && !f.down.NotFound? && f.name == f.revision.value + ".py"
  }

  /** Every file assigns both revisions, is named after its own, and no two share one. */
  ghost predicate WellFormed(files: seq<File>) {
    && (forall i :: 0 <= i < |files| ==> FileOk(files[i]))
    && (forall i, j :: 0 <= i < j < |files| ==> files[i].revision != files[j].revision)
  }

  /** `revs` is the files' assignments, each file's own. */
  ghost predicate ReadsFiles(files: seq<File>, revs: Revisions) {
    && (forall i :: 0 <= i < |files| ==>
          files[i].revision.Some? && files[i].revision.value in revs && revs[files[i].revision.value] == DownOf(files[i]))
    && (forall r :: r in revs ==> exists i :: 0 <= i < |files| && files[i].revision == Some(r))
  }

  lemma {:induction false} RevsFromFiles(files: seq<File>, r: string)
    requires r in Revs(files)
    ensures exists i :: 0 <= i < |files| && files[i].revision == Some(r)
  {
    var n := |files| - 1;
    if r in Revs(files[..n]) {
      RevsFromFiles(files[..n], r);
      var i :| 0 <= i < n && files[..n][i].revision == Some(r);
      assert files[i].revision == Some(r);
    } else {
      assert files[n].revision == Some(r);
    }
  }

  lemma WellFormedSnoc(init: seq<File>, f: File)
    ensures WellFormed(init + [f]) <==>
            WellFormed(init) && FileOk(f) && forall i :: 0 <= i < |init| ==> init[i].revision != f.revision
  {
    var files := init + [f];
    assert forall i :: 0 <= i < |init| ==> files[i] == init[i];
    assert files[|init|] == f;
  }

  lemma {:induction false} WellFormedReads(files: seq<File>)
    requires WellFormed(files)
    ensures ReadsFiles(files, Revs(files))
  {
    if files != [] {
      var init, f := files[..|files| - 1], files[|files| - 1];
      assert files == init + [f];
      WellFormedSnoc(init, f);
      WellFormedReads(init);
      assert f.revision.value !in Revs(init);
      forall r | r in Revs(files) ensures exists i :: 0 <= i < |files| && files[i].revision == Some(r) {
        RevsFromFiles(files, r);
      }
    }
  }

  lemma {:induction false} NoReadErrorsIffWellFormed(files: seq<File>)
    ensures ReadErrors(files) == [] <==> WellFormed(files)
  {
    if files != [] {
      var init, f := files[..|files| - 1], files[|files| - 1];
      assert files == init + [f];
      WellFormedSnoc(init, f);
      NoReadErrorsIffWellFormed(init);
      if WellFormed(init) && FileOk(f) {
        WellFormedReads(init);
        assert f.revision.value in Revs(init) <==> exists i :: 0 <= i < |init| && init[i].revision == f.revision;
      }
    }
  }

  // ---- The checks together say: one linear chain ----

  function Roots(revs: Revisions): set<string> {
    set r | r in revs && revs[r].None?
  }

  function Heads(revs: Revisions): set<string> {
    set r | r in revs && r !in Targets(revs)
  }

  ghost predicate Acyclic(revs: Revisions) {
    forall r :: r in revs ==> !OnCycle(revs, r)
  }

  ghost predicate PassesChecks(revs: Revisions) {
    Targets(revs) <= revs.Keys && |Roots(revs)| == 1 && |Heads(revs)| == 1 && Acyclic(revs)
  }

  /** Without cycles a walk comes to an end: it cannot meet more revisions than there are. */
  lemma {:induction false} PathToEnd(revs: Revisions, start: string, path: seq<string>, current: string)
    returns (full: seq<string>)
    requires Acyclic(revs) && start in revs && Elements(path) <= Mentioned(revs)
    requires IsPath(revs, start, path) && Ancestor(revs, start, |path|) == Some(current)
    ensures IsPath(revs, start, full) && full != [] && Ancestor(revs, start, |full|).None?
    decreases |Mentioned(revs)| - |path|
  {
    if current in path {
      RevisitedPath(revs, start, path, current);
      assert Ancestor(revs, start, |path| + 1).Some?;
      assert false;
    }
    PathGrows(revs, start, path, current);
    full := path + [current];
    if Parent(revs, current).Some? {
      full := PathToEnd(revs, start, full, Parent(revs, current).value);
    }
  }

  lemma {:induction false} ImageSize(revs: Revisions, s: set<string>)
    requires forall r :: r in s ==> r in revs && revs[r].Some?
    ensures |set r | r in s :: revs[r].value| <= |s|
  {
    var image := set r | r in s :: revs[r].value;
    if s != {} {
      var x :| x in s;
      ImageSize(revs, s - {x});
      var rest := set r | r in s - {x} :: revs[r].value;
      assert image == rest + {revs[x].value};
    } else {
      assert image == {};
    }
  }

  ghost predicate HasChildIn(revs: Revisions, s: set<string>, r: string) {
    exists c :: c in s && c in revs && revs[c] == Some(r)
  }

  ghost predicate HasParentIn(revs: Revisions, s: set<string>, r: string) {
    r in revs && revs[r].Some? && revs[r].value in s
  }

  /** Revisions left out that each have a child among them also have their parents among them:
      there are no more parents than children. */
  lemma LeftOutIsClosed(revs: Revisions, s: set<string>, r: string)
    requires s <= revs.Keys && r in s
    requires forall x {:trigger HasChildIn(revs, s, x)} :: x in s ==> HasChildIn(revs, s, x)
    ensures HasParentIn(revs, s, r)
  {
    var children := set c | c in s && revs[c].Some?;
    var image := set c | c in children :: revs[c].value;
    ImageSize(revs, children);
    forall x | x in s ensures x in image {
      assert HasChildIn(revs, s, x);
      var c :| c in s && c in revs && revs[c] == Some(x);
      assert c in children;
    }
    SubsetSize(s, image);
    SubsetSize(children, s);
    assert r in children;
    assert revs[r].value in image;
  }

  lemma {:induction false} ClosedNeverEnds(revs: Revisions, s: set<string>, r: string, n: nat)
    requires s <= revs.Keys && r in s
    requires forall x {:trigger HasParentIn(revs, s, x)} :: x in s ==> HasParentIn(revs, s, x)
    ensures Ancestor(revs, r, n).Some? && Ancestor(revs, r, n).value in s
  {
    if n > 0 {
      ClosedNeverEnds(revs, s, r, n - 1);
      assert HasParentIn(revs, s, Ancestor(revs, r, n - 1).value);
    }
  }

  /** A revision off the walk from the only head has a child off it too. */
  lemma LeftOutHasChild(revs: Revisions, h: string, path: seq<string>, r: string)
    requires Heads(revs) == {h} && IsPath(revs, h, path) && path != [] && Ancestor(revs, h, |path|).None?
    requires r in revs && r !in path
    ensures HasChildIn(revs, revs.Keys - Elements(path), r)
  {
    assert path[0] == h && r !in Heads(revs);
    var c :| c in revs && revs[c].Some? && revs[c].value == r;
    if c in path {
      ParentOnPath(revs, h, path, c);
    }
  }

  lemma ParentOnPath(revs: Revisions, h: string, path: seq<string>, c: string)
    requires IsPath(revs, h, path) && Ancestor(revs, h, |path|).None?
    requires c in path && c in revs && revs[c].Some?
    ensures revs[c].value in path
  {
    var i :| 0 <= i < |path| && path[i] == c;
    assert Ancestor(revs, h, i + 1) == revs[c];
    assert path[i + 1] in path;
  }

  /** Every revision lies on the walk from the only head. */
  lemma HeadReachesAll(revs: Revisions, h: string, path: seq<string>, r: string)
    requires Acyclic(revs) && Heads(revs) == {h} && r in revs
    requires IsPath(revs, h, path) && path != [] && Ancestor(revs, h, |path|).None?
    ensures r in path
  {
    if r !in path {
      var s := revs.Keys - Elements(path);
      forall x | x in s ensures HasChildIn(revs, s, x) {
        LeftOutHasChild(revs, h, path, x);
      }
      forall x | x in s ensures HasParentIn(revs, s, x) {
        LeftOutIsClosed(revs, s, x);
      }
      var full := PathToEnd(revs, r, [], r);
      ClosedNeverEnds(revs, s, r, |full|);
    }
  }

  lemma {:induction false} PathInRevs(revs: Revisions, start: string, path: seq<string>, i: nat)
    requires Targets(revs) <= revs.Keys && start in revs && IsPath(revs, start, path) && i < |path|
    ensures path[i] in revs
    ensures i + 1 < |path| ==> revs[path[i]] == Some(path[i + 1])
  {
    if i > 0 {
      PathInRevs(revs, start, path, i - 1);
      assert path[i] in Targets(revs);
    } else {
      assert path[0] == start;
    }
  }

  ghost function Reverse(path: seq<string>): (r: seq<string>)
    ensures |r| == |path| && forall i :: 0 <= i < |r| ==> r[i] == path[|path| - 1 - i]
    ensures forall x :: x in r <==> x in path
  {
    var r := seq(|path|, i requires 0 <= i < |path| => path[|path| - 1 - i]);
    assert forall i :: 0 <= i < |path| ==> path[i] == r[|path| - 1 - i];
    r
  }

  lemma PathRevises(revs: Revisions, h: string, path: seq<string>, i: nat)
    requires Targets(revs) <= revs.Keys && h in revs && IsPath(revs, h, path) && 0 < i < |path|
    ensures Revises(revs, Reverse(path), i)
  {
    PathInRevs(revs, h, path, |path| - 1 - i);
  }

  lemma PathRoot(revs: Revisions, h: string, path: seq<string>)
    requires Targets(revs) <= revs.Keys && h in revs
    requires IsPath(revs, h, path) && path != [] && Ancestor(revs, h, |path|).None?
    ensures path[|path| - 1] in revs && revs[path[|path| - 1]] == None
  {
    PathInRevs(revs, h, path, |path| - 1);
    assert Ancestor(revs, h, |path| - 1) == Some(path[|path| - 1]);
  }

  lemma PathMembers(revs: Revisions, h: string, path: seq<string>, r: string)
    requires Targets(revs) <= revs.Keys && h in revs && IsPath(revs, h, path) && r in path
    ensures r in revs
  {
    var i :| 0 <= i < |path| && path[i] == r;
    PathInRevs(revs, h, path, i);
  }

  lemma FullPathIsChain(revs: Revisions, h: string, path: seq<string>)
    requires Targets(revs) <= revs.Keys && h in revs
    requires IsPath(revs, h, path) && path != [] && Ancestor(revs, h, |path|).None?
    requires forall r :: r in revs ==> r in path
    ensures IsChain(revs, Reverse(path))
  {
    var chain := Reverse(path);
    forall r | r in path ensures r in revs {
      PathMembers(revs, h, path, r);
    }
    PathRoot(revs, h, path);
    forall i: nat | 0 < i < |path| ensures Revises(revs, chain, i) {
      PathRevises(revs, h, path, i);
    }
  }

  lemma ChecksGiveChain(revs: Revisions)
    requires PassesChecks(revs)
    ensures Linear(revs)
  {
    var h :| h in Heads(revs);
    assert Heads(revs) == {h} by { SubsetSize({h}, Heads(revs)); }
    var path := PathToEnd(revs, h, [], h);
    forall r | r in revs ensures r in path {
      HeadReachesAll(revs, h, path, r);
    }
    FullPathIsChain(revs, h, path);
  }

  lemma {:induction false} ChainAncestor(revs: Revisions, chain: seq<string>, i: nat, n: nat)
    requires IsChain(revs, chain) && i < |chain|
    ensures Ancestor(revs, chain[i], n) == if n <= i then Some(chain[i - n]) else None
  {
    if n > 0 {
      ChainAncestor(revs, chain, i, n - 1);
      if n <= i {
        assert Revises(revs, chain, i - n + 1);
      }
    }
  }

  lemma ChainRootAndTargets(revs: Revisions, chain: seq<string>)
    requires IsChain(revs, chain)
    ensures Roots(revs) == {chain[0]} && Targets(revs) <= revs.Keys
  {
    forall r | r in revs ensures (revs[r].None? <==> r == chain[0]) && (revs[r].Some? ==> revs[r].value in revs) {
      var i :| 0 <= i < |chain| && chain[i] == r;
      if i > 0 {
        assert Revises(revs, chain, i) && chain[i - 1] in chain;
      }
    }
    assert chain[0] in chain;
  }

  lemma ChainChild(revs: Revisions, chain: seq<string>, c: string)
    requires IsChain(revs, chain) && c in revs && revs[c].Some?
    ensures revs[c].value != chain[|chain| - 1]
  {
    var j :| 0 <= j < |chain| && chain[j] == c;
    assert j > 0 && Revises(revs, chain, j);
  }

  lemma ChainHead(revs: Revisions, chain: seq<string>)
    requires IsChain(revs, chain)
    ensures Heads(revs) == {chain[|chain| - 1]}
  {
    var m := |chain|;
    assert chain[m - 1] in chain;
    forall c | c in revs && revs[c].Some? ensures revs[c].value != chain[m - 1] {
      ChainChild(revs, chain, c);
    }
    forall r | r in revs && r != chain[m - 1] ensures r in Targets(revs) {
      var i :| 0 <= i < m && chain[i] == r;
      assert Revises(revs, chain, i + 1);
    }
  }

  lemma ChainPassesChecks(revs: Revisions, chain: seq<string>)
    requires IsChain(revs, chain)
    ensures PassesChecks(revs)
  {
    ChainRootAndTargets(revs, chain);
    ChainHead(revs, chain);
    forall r | r in revs ensures !OnCycle(revs, r) {
      var i :| 0 <= i < |chain| && chain[i] == r;
      forall n: nat | n > 0 ensures Ancestor(revs, r, n) != Some(r) {
        ChainAncestor(revs, chain, i, n);
      }
    }
  }

  lemma LinearIffPassesChecks(revs: Revisions)
    ensures Linear(revs) <==> PassesChecks(revs)
  {
    if Linear(revs) {
      var chain :| IsChain(revs, chain);
      ChainPassesChecks(revs, chain);
    }
    if PassesChecks(revs) {
      ChecksGiveChain(revs);
    }
  }

  // ---- The checker ----

  function Order(files: seq<File>): seq<string> {
    if files == [] then []
    else
      var init, f := files[..|files| - 1], files[|files| - 1];
      Order(init) + if Accepted(Revs(init), f) then [f.revision.value] else []
  }

  /** File `n` is the first that gives revision `r`. */
  ghost predicate FirstGiven(files: seq<File>, n: nat, r: string) {
    && n < |files| && files[n].revision == Some(r) && !files[n].down.NotFound?
    && forall m :: 0 <= m < n ==> files[m].revision != Some(r) || files[m].down.NotFound?
  }

  lemma FirstGivenPrefix(files: seq<File>, n: nat, r: string)
    requires files != [] && FirstGiven(files[..|files| - 1], n, r)
    ensures FirstGiven(files, n, r)
  {
    assert forall m :: 0 <= m < |files| - 1 ==> files[m] == files[..|files| - 1][m];
  }

  lemma {:induction false} GivenIffRead(files: seq<File>, r: string)
    ensures r in Revs(files) <==>
            exists m :: 0 <= m < |files| && files[m].revision == Some(r) && !files[m].down.NotFound?
  {
    if files != [] {
      var init := files[..|files| - 1];
      GivenIffRead(init, r);
      assert files == init + [files[|files| - 1]];
    }
  }

  lemma AcceptedIsFirst(files: seq<File>)
    requires files != [] && Accepted(Revs(files[..|files| - 1]), files[|files| - 1])
    ensures FirstGiven(files, |files| - 1, files[|files| - 1].revision.value)
  {
    var init := files[..|files| - 1];
    GivenIffRead(init, files[|files| - 1].revision.value);
    assert forall m :: 0 <= m < |files| - 1 ==> files[m] == init[m];
  }

  /** The order lists every revision read, each once, as the files that give them first come. */
  lemma {:induction false} OrderMeaning(files: seq<File>) returns (at: seq<nat>)
    ensures |at| == |Order(files)| && forall i :: 0 <= i < |at| ==> FirstGiven(files, at[i], Order(files)[i])
    ensures forall i, j :: 0 <= i < j < |at| ==> at[i] < at[j]
    ensures forall r :: r in Order(files) <==> r in Revs(files)
    ensures forall i, j :: 0 <= i < j < |Order(files)| ==> Order(files)[i] != Order(files)[j]
  {
    if files == [] {
      at := [];
    } else {
      var n := |files| - 1;
      var init, f := files[..n], files[n];
      at := OrderMeaning(init);
      forall i | 0 <= i < |at| ensures FirstGiven(files, at[i], Order(init)[i]) {
        FirstGivenPrefix(files, at[i], Order(init)[i]);
      }
      if Accepted(Revs(init), f) {
        AcceptedIsFirst(files);
        at := at + [n];
      }
    }
  }

  predicate Gives(f: File, r: string) {
    f.revision == Some(r) && !f.down.NotFound?
  }

  /** File `n` is to be complained about like this. */
  ghost predicate Complaint(files: seq<File>, n: nat, e: Error)
    requires n < |files|
  {
    var f := files[n];
    match e
    case MissingRevision(name) => f.revision.None? && f.name == name
    case MissingDownRevision(name) => f.revision.Some? && f.down.NotFound? && f.name == name
    case DuplicateRevision(r) => Gives(f, r) && exists m :: 0 <= m < n && Gives(files[m], r)
    case FilenameMismatch(r, name) => FirstGiven(files, n, r) && f.name == name && name != r + ".py"
    case _ => false
  }

  lemma LastComplaint(files: seq<File>, e: Error)
    requires files != []
    ensures e in FileErrors(Revs(files[..|files| - 1]), files[|files| - 1]) <==> Complaint(files, |files| - 1, e)
  {
    var n := |files| - 1;
    var init, f := files[..n], files[n];
    assert forall m :: 0 <= m < n ==> init[m] == files[m];
    if f.revision.Some? {
      GivenIffRead(init, f.revision.value);
    }
  }

  lemma EarlierComplaint(files: seq<File>, n: nat, e: Error)
    requires files != [] && n < |files| - 1
    ensures Complaint(files, n, e) <==> Complaint(files[..|files| - 1], n, e)
  {
    var init := files[..|files| - 1];
    assert forall m :: 0 <= m < |init| ==> init[m] == files[m];
  }

  /** The errors of reading are exactly the complaints about the single files. */
  lemma {:induction false} ReadErrorsMeaning(files: seq<File>, e: Error)
    ensures e in ReadErrors(files) <==> exists n :: 0 <= n < |files| && Complaint(files, n, e)
  {
    if files != [] {
      var init := files[..|files| - 1];
      ReadErrorsMeaning(init, e);
      LastComplaint(files, e);
      forall n | 0 <= n < |init| ensures Complaint(files, n, e) <==> Complaint(init, n, e) {
        EarlierComplaint(files, n, e);
      }
    }
  }

  method ReadFiles(files: seq<File>) returns (revs: Revisions, order: seq<string>, targets: set<string>, errors: seq<Error>)
    ensures revs == Revs(files) && errors == ReadErrors(files) && targets == Targets(revs)
    ensures order == Order(files)
  {
    revs, order, targets, errors := map[], [], {}, [];
    for k := 0 to |files|
      invariant revs == Revs(files[..k]) && errors == ReadErrors(files[..k]) && targets == Targets(revs)
      invariant order == Order(files[..k])
    {
      var f := files[k];
      assert files[..k + 1][..k] == files[..k];
      if f.revision.None? {
        errors := errors + [MissingRevision(f.name)];
        continue;
      }
      if f.down.NotFound? {
        errors := errors + [MissingDownRevision(f.name)];
        continue;
      }
      var revision := f.revision.value;
      if revision in revs {
        errors := errors + [DuplicateRevision(revision)];
        continue;
      }
      ghost var before := revs;
      var down := if f.down.Target? then Some(f.down.revision) else None;
      revs := revs[revision := down];
      order := order + [revision];
      if down.Some? {
        targets := targets + {down.value};
      }
      TargetsGrow(before, revision, down);
      if f.name != revision + ".py" {
        errors := errors + [FilenameMismatch(revision, f.name)];
      }
    }
    assert files[..|files|] == files;
  }

  lemma TargetsGrow(revs: Revisions, r: string, down: Option<string>)
    requires r !in revs
    ensures Targets(revs[r := down]) == Targets(revs) + if down.Some? then {down.value} else {}
  {
    var more := revs[r := down];
    assert forall x :: x in revs ==> more[x] == revs[x];
    assert r in more && more[r] == down;
  }

  method FindMissingTargets(revs: Revisions, order: seq<string>) returns (errors: seq<Error>)
    requires forall r :: r in revs <==> r in order
    ensures forall e :: e in errors <==>
              e.MissingTarget? && e.revision in revs && revs[e.revision] == Some(e.target) && e.target !in revs
  {
    errors := [];
    for k := 0 to |order|
      invariant forall e :: e in errors <==>
                  e.MissingTarget? && e.revision in order[..k] && revs[e.revision] == Some(e.target) && e.target !in revs
    {
      var r := order[k];
      assert order[..k + 1] == order[..k] + [r];
      if revs[r].Some? && revs[r].value !in revs {
        errors := errors + [MissingTarget(revs[r].value, r)];
      }
    }
    assert order[..|order|] == order;
  }

  /** Walk from every revision; report where a walk came back, and gather what was visited. */
  method FindCycles(revs: Revisions, order: seq<string>) returns (errors: seq<Error>, visited: set<string>)
    requires forall r :: r in revs <==> r in order
    ensures forall e :: e in errors ==> e.CycleAt? && OnCycle(revs, e.revision)
    ensures forall r :: r in revs && OnCycle(revs, r) ==> CycleAt(r) in errors
    ensures visited == Mentioned(revs)
  {
    errors, visited := [], {};
    for k := 0 to |order|
      invariant forall e :: e in errors ==> e.CycleAt? && OnCycle(revs, e.revision)
      invariant forall r :: r in order[..k] && OnCycle(revs, r) ==> CycleAt(r) in errors
      invariant visited <= Mentioned(revs)
      invariant forall r :: r in order[..k] ==> r in visited
      invariant forall r :: r in order[..k] && revs[r].Some? && revs[r].value !in revs ==> revs[r].value in visited
    {
      var r := order[k];
      assert order[..k + 1] == order[..k] + [r];
      var revisited, seen := Walk(revs, r);
      if revisited.Some? {
        errors := errors + [CycleAt(revisited.value)];
      }
      if revs[r].Some? && revs[r].value !in revs {
        MissingTargetIsSeen(revs, r, seen, revisited);
      }
      visited := visited + seen;
    }
    assert order[..|order|] == order;
    VisitedEverything(revs, visited);
  }

  lemma MissingTargetIsSeen(revs: Revisions, r: string, seen: set<string>, revisited: Option<string>)
    requires r in revs && revs[r].Some? && revs[r].value !in revs
    requires revisited.None? <==> exists n: nat :: Ancestor(revs, r, n).None?
    requires revisited.None? ==> SeenAncestors(revs, r, seen)
    ensures revs[r].value in seen
  {
    assert Ancestor(revs, r, 0) == Some(r);
    assert Ancestor(revs, r, 1) == revs[r];
    assert Ancestor(revs, r, 2).None?;
  }

  lemma VisitedEverything(revs: Revisions, visited: set<string>)
    requires visited <= Mentioned(revs) && forall r :: r in revs ==> r in visited
    requires forall r :: r in revs && revs[r].Some? && revs[r].value !in revs ==> revs[r].value in visited
    ensures visited == Mentioned(revs)
  {
  }

  lemma MentionedSize(revs: Revisions)
    ensures |Mentioned(revs)| == |revs| <==> Targets(revs) <= revs.Keys
    ensures revs.Keys - Mentioned(revs) == {}
  {
    SubsetSize(revs.Keys, Mentioned(revs));
    assert |revs| == |revs.Keys|;
    assert Mentioned(revs) == revs.Keys + Targets(revs);
    if Targets(revs) <= revs.Keys {
      assert Mentioned(revs) == revs.Keys;
    } else {
      var t :| t in Targets(revs) && t !in revs.Keys;
      assert t in Mentioned(revs);
    }
  }

  /** The findings about the revision graph are exactly these. */
  ghost predicate Finding(revs: Revisions, e: Error) {
    match e
    case MissingTarget(target, r) => r in revs && revs[r] == Some(target) && target !in revs
    case CycleAt(r) => OnCycle(revs, r)
    case RootCount(n) => n == |Roots(revs)| && n != 1
    case HeadCount(n) => n == |Heads(revs)| && n != 1
    case Unreachable(missing) => missing == {} && !(Targets(revs) <= revs.Keys)
    case _ => false
  }

  lemma FindingsTogether(revs: Revisions, missing: seq<Error>, roots: seq<Error>, heads: seq<Error>,
                         cycles: seq<Error>, unreachable: seq<Error>)
    requires forall x :: x in missing <==> x.MissingTarget? && Finding(revs, x)
    requires roots == if |Roots(revs)| != 1 then [RootCount(|Roots(revs)|)] else []
    requires heads == if |Heads(revs)| != 1 then [HeadCount(|Heads(revs)|)] else []
    requires forall x :: x in cycles <==> x.CycleAt? && Finding(revs, x)
    requires unreachable == if Targets(revs) <= revs.Keys then [] else [Unreachable({})]
    ensures forall e :: e in missing + roots + heads + cycles + unreachable <==> Finding(revs, e)
  {
    forall e ensures e in missing + roots + heads + cycles + unreachable <==> Finding(revs, e) {
      match e
      case MissingTarget(_, _) =>
      case CycleAt(_) =>
      case RootCount(_) =>
      case HeadCount(_) =>
      case Unreachable(_) =>
      case _ =>
    }
  }

  /** The checks on the revision graph. */
  method FindProblems(revs: Revisions, order: seq<string>, targets: set<string>) returns (findings: seq<Error>)
    requires targets == Targets(revs) && forall r :: r in revs <==> r in order
    ensures forall e :: e in findings <==> Finding(revs, e)
  {
    var missingTargets := FindMissingTargets(revs, order);
    var roots := set r | r in revs && revs[r].None?;
    var rootErrors := if |roots| != 1 then [RootCount(|roots|)] else [];
    var heads := set r | r in revs && r !in targets;
    var headErrors := if |heads| != 1 then [HeadCount(|heads|)] else [];
    var cycles, visited := FindCycles(revs, order);
    var unreachable := if |visited| != |revs| then [Unreachable(revs.Keys - visited)] else [];
    MentionedSize(revs);
    CyclesAreRevisions(revs);
    assert roots == Roots(revs) && heads == Heads(revs);
    findings := missingTargets + rootErrors + headErrors + cycles + unreachable;
    FindingsTogether(revs, missingTargets, rootErrors, headErrors, cycles, unreachable);
  }

  /** No errors exactly when the files are well formed and their revisions make one linear chain;
      otherwise the errors are those of reading the files and every finding about the graph. */
  method ValidateChain(files: seq<File>) returns (errors: seq<Error>)
    ensures errors == [] <==> WellFormed(files) && Linear(Revs(files))
    ensures forall e :: e in errors <==> e in ReadErrors(files) || Finding(Revs(files), e)
  {
    var revs, order, targets, readErrors := ReadFiles(files);
    ghost var at := OrderMeaning(files);
    var findings := FindProblems(revs, order, targets);
    NoFindingsIffLinear(revs, findings);
    NoReadErrorsIffWellFormed(files);
    errors := readErrors + findings;
  }

  lemma NoFindingsIffLinear(revs: Revisions, findings: seq<Error>)
    requires forall e :: e in findings <==> Finding(revs, e)
    ensures findings == [] <==> Linear(revs)
  {
    LinearIffPassesChecks(revs);
    if findings != [] {
      assert Finding(revs, findings[0]);
      assert !PassesChecks(revs) by {
        CyclesAreRevisions(revs);
        if findings[0].MissingTarget? { assert findings[0].target in Targets(revs); }
      }
    } else {
      forall e ensures !Finding(revs, e) { assert e !in findings; }
      assert !Finding(revs, RootCount(|Roots(revs)|)) && !Finding(revs, HeadCount(|Heads(revs)|)) && !Finding(revs, Unreachable({}));
      forall r | r in revs ensures !OnCycle(revs, r) { assert !Finding(revs, CycleAt(r)); }
    }
  }

  lemma CyclesAreRevisions(revs: Revisions)
    ensures forall r :: OnCycle(revs, r) ==> r in revs
  {
    forall r | OnCycle(revs, r) ensures r in revs {
      var n: nat :| n > 0 && Ancestor(revs, r, n) == Some(r);
      if r !in revs {
        assert Ancestor(revs, r, 1).None?;
        AncestorNoneStays(revs, r, 1, n);
      }
    }
  }
}

/**
 * Canonical tool lists (app/core/openai/requests.py, `_canonicalize_tools`, `_sort_keys_recursive`):
 * tools sorted by name and object keys sorted at every depth.
 */
module CanonicalTools {
  import opened Wrappers
  import opened JsonValue
  import opened LexOrder

  // ---- What a JSON value means, key order aside ----

  datatype Meaning =
    | MNull | MBool(b: bool) | MInt(i: int) | MFloat(f: real) | MStr(s: string)
    | MArr(items: seq<Meaning>)
    | MObj(fields: map<string, Meaning>)

  function MeaningOf(j: Json): Meaning
    decreases j
  {
    match j
    case Null => MNull
    case Bool(b) => MBool(b)
    case Int(i) => MInt(i)
    case Float(f) => MFloat(f)
    case Str(s) => MStr(s)
    case Arr(items) => MArr(MeaningOfAll(items))
    case Obj(fields) => MObj(MeaningOfFields(fields))
  }

  function MeaningOfAll(items: seq<Json>): (r: seq<Meaning>)
    ensures |r| == |items| && forall i :: 0 <= i < |r| ==> r[i] == MeaningOf(items[i])
    decreases items
  {
    if items == [] then [] else [MeaningOf(items[0])] + MeaningOfAll(items[1..])
  }

  function MeaningOfFields(fields: seq<Field>): map<string, Meaning>
    decreases fields
  {
    if fields == [] then map[] else MeaningOfFields(fields[1..])[fields[0].key := MeaningOf(fields[0].value)]
  }

  // ---- Sorting ----

  /** `sorted` by key: stable. */
  function Sort(s: seq<Field>): seq<Field> {
    if s == [] then [] else Insert(s[0], Sort(s[1..]))
  }

  function Insert(x: Field, s: seq<Field>): seq<Field> {
    if s == [] || !StringLess(s[0].key, x.key) then [x] + s else [s[0]] + Insert(x, s[1..])
  }

  predicate Sorted(s: seq<Field>) {
    forall i, j :: 0 <= i < j < |s| ==> !StringLess(s[j].key, s[i].key)
  }

  lemma {:induction false} InsertMultiset(x: Field, s: seq<Field>)
    ensures multiset(Insert(x, s)) == multiset(s) + multiset{x}
  {
    if s != [] && StringLess(s[0].key, x.key) {
      InsertMultiset(x, s[1..]);
      assert s == [s[0]] + s[1..];
    }
  }

  lemma {:induction false} SortMultiset(s: seq<Field>)
    ensures multiset(Sort(s)) == multiset(s)
  {
    if s != [] {
      SortMultiset(s[1..]);
      InsertMultiset(s[0], Sort(s[1..]));
      assert s == [s[0]] + s[1..];
    }
  }

  lemma NotLessTransitive(a: string, b: string, c: string)
    requires !StringLess(b, a) && !StringLess(c, b)
    ensures !StringLess(c, a)
  {
    StringLessTotal(a, b);
    StringLessTotal(b, c);
    if a != b && b != c {
      StringLessTransitive(a, b, c);
      StringLessTotal(a, c);
    }
  }

  lemma {:induction false} InsertSorted(x: Field, s: seq<Field>)
    requires Sorted(s)
    ensures Sorted(Insert(x, s))
  {
    if s == [] {
    } else if !StringLess(s[0].key, x.key) {
      var r := [x] + s;
      forall i, j | 0 <= i < j < |r| ensures !StringLess(r[j].key, r[i].key) {
        if i == 0 {
          StringLessIrreflexive(s[0].key);
          NotLessTransitive(x.key, s[0].key, s[j - 1].key);
        }
      }
    } else {
      InsertSorted(x, s[1..]);
      InsertMultiset(x, s[1..]);
      var rest := Insert(x, s[1..]);
      var r := [s[0]] + rest;
      StringLessTotal(s[0].key, x.key);
      forall j | 0 <= j < |rest| ensures !StringLess(rest[j].key, s[0].key) {
        assert rest[j] in multiset(rest);
        if rest[j] != x {
          assert rest[j] in s[1..];
        }
      }
    }
  }

  lemma {:induction false} SortSorted(s: seq<Field>)
    ensures Sorted(Sort(s))
  {
    if s != [] {
      SortSorted(s[1..]);
      InsertSorted(s[0], Sort(s[1..]));
    }
  }

  /** The fields with one key, in order. */
  function WithKey(s: seq<Field>, key: string): seq<Field> {
    if s == [] then [] else (if s[0].key == key then [s[0]] else []) + WithKey(s[1..], key)
  }

  lemma {:induction false} InsertStable(x: Field, s: seq<Field>, key: string)
    ensures WithKey(Insert(x, s), key) == (if x.key == key then [x] else []) + WithKey(s, key)
  {
    if s == [] || !StringLess(s[0].key, x.key) {
    } else {
      InsertStable(x, s[1..], key);
      assert s == [s[0]] + s[1..];
      StringLessIrreflexive(x.key);
    }
  }

  /** Sorting keeps the order of equal keys. */
  lemma {:induction false} SortStable(s: seq<Field>, key: string)
    ensures WithKey(Sort(s), key) == WithKey(s, key)
  {
    if s != [] {
      SortStable(s[1..], key);
      InsertStable(s[0], Sort(s[1..]), key);
    }
  }

  lemma FirstIsLeast(s: seq<Field>, x: Field)
    requires Sorted(s) && x in s
    ensures !StringLess(x.key, s[0].key)
  {
    var j :| 0 <= j < |s| && s[j] == x;
    StringLessIrreflexive(s[0].key);
  }

  lemma SortedFirst(s: seq<Field>, t: seq<Field>)
    requires Sorted(s) && Sorted(t) && DistinctKeys(s) && multiset(s) == multiset(t) && s != [] && t != []
    ensures s[0] == t[0]
  {
    assert s[0] in multiset(t) && t[0] in multiset(s);
    FirstIsLeast(t, s[0]);
    FirstIsLeast(s, t[0]);
    StringLessTotal(s[0].key, t[0].key);
    var j :| 0 <= j < |s| && s[j] == t[0];
  }

  /** Distinct keys leave one sorted order. */
  lemma {:induction false} SortedUnique(s: seq<Field>, t: seq<Field>)
    requires Sorted(s) && Sorted(t) && DistinctKeys(s) && multiset(s) == multiset(t)
    ensures s == t
    decreases |s|
  {
    assert |s| == |multiset(s)| == |multiset(t)| == |t|;
    if s != [] {
      SortedFirst(s, t);
      assert s == [s[0]] + s[1..] && t == [t[0]] + t[1..];
      assert multiset(s[1..]) == multiset(s) - multiset{s[0]};
      assert multiset(t[1..]) == multiset(t) - multiset{t[0]};
      SortedUnique(s[1..], t[1..]);
    }
  }

  // ---- Sorted keys at every depth ----

  function SortKeys(j: Json): Json
    decreases j
  {
    match j
    case Obj(fields) => Obj(Sort(SortKeysOfFields(fields)))
    case Arr(items) => Arr(SortKeysOfAll(items))
    case _ => j
  }

  function SortKeysOfAll(items: seq<Json>): (r: seq<Json>)
    ensures |r| == |items| && forall i :: 0 <= i < |r| ==> r[i] == SortKeys(items[i])
    decreases items
  {
    if items == [] then [] else [SortKeys(items[0])] + SortKeysOfAll(items[1..])
  }

  function SortKeysOfFields(fields: seq<Field>): (r: seq<Field>)
    ensures |r| == |fields|
    ensures forall i :: 0 <= i < |r| ==> r[i] == Field(fields[i].key, SortKeys(fields[i].value))
    decreases fields
  {
    if fields == [] then []
    else [Field(fields[0].key, SortKeys(fields[0].value))] + SortKeysOfFields(fields[1..])
  }

  lemma {:induction false} FieldMeaning(fields: seq<Field>, i: nat)
    requires DistinctKeys(fields) && i < |fields|
    ensures fields[i].key in MeaningOfFields(fields)
    ensures MeaningOfFields(fields)[fields[i].key] == MeaningOf(fields[i].value)
  {
    if i > 0 {
      assert fields[0].key != fields[i].key;
      FieldMeaning(fields[1..], i - 1);
    }
  }

  lemma {:induction false} KeyHasField(fields: seq<Field>, key: string) returns (i: nat)
    requires key in MeaningOfFields(fields)
    ensures i < |fields| && fields[i].key == key
  {
    if fields[0].key == key {
      i := 0;
    } else {
      i := KeyHasField(fields[1..], key);
      i := i + 1;
    }
  }

  /** The same fields in another order mean the same. */
  lemma PermutedFields(s: seq<Field>, t: seq<Field>)
    requires DistinctKeys(s) && DistinctKeys(t) && multiset(s) == multiset(t)
    ensures MeaningOfFields(s) == MeaningOfFields(t)
  {
    forall k | k in MeaningOfFields(s)
      ensures k in MeaningOfFields(t) && MeaningOfFields(t)[k] == MeaningOfFields(s)[k]
    {
      SameMeaningAt(s, t, k);
    }
    forall k | k in MeaningOfFields(t) ensures k in MeaningOfFields(s) {
      SameMeaningAt(t, s, k);
    }
  }

  lemma SameMeaningAt(s: seq<Field>, t: seq<Field>, k: string)
    requires DistinctKeys(s) && DistinctKeys(t) && multiset(s) == multiset(t) && k in MeaningOfFields(s)
    ensures k in MeaningOfFields(t) && MeaningOfFields(t)[k] == MeaningOfFields(s)[k]
  {
    var i := KeyHasField(s, k);
    FieldMeaning(s, i);
    assert s[i] in multiset(t);
    var j :| 0 <= j < |t| && t[j] == s[i];
    FieldMeaning(t, j);
  }

  lemma {:induction false} DistinctPermuted(s: seq<Field>, t: seq<Field>)
    requires DistinctKeys(s) && multiset(s) == multiset(t)
    ensures DistinctKeys(t)
  {
    forall i, j | 0 <= i < j < |t| ensures t[i].key != t[j].key {
      DistinctPair(s, t, i, j);
    }
  }

  lemma DistinctPair(s: seq<Field>, t: seq<Field>, i: nat, j: nat)
    requires DistinctKeys(s) && multiset(s) == multiset(t) && i < j < |t|
    ensures t[i].key != t[j].key
  {
    if t[i] == t[j] {
      CountTwice(t, i, j);
      CountOnce(s, t[i]);
    } else {
      assert t[i] in multiset(s) && t[j] in multiset(s);
      var a :| 0 <= a < |s| && s[a] == t[i];
      var b :| 0 <= b < |s| && s[b] == t[j];
      assert a < b || b < a;
    }
  }

  lemma CountTwice(t: seq<Field>, i: nat, j: nat)
    requires i < j < |t| && t[i] == t[j]
    ensures multiset(t)[t[i]] >= 2
  {
    assert t == t[..i] + [t[i]] + t[i + 1..j] + [t[j]] + t[j + 1..];
    assert multiset(t) == multiset(t[..i]) + multiset{t[i]} + multiset(t[i + 1..j]) + multiset{t[j]} + multiset(t[j + 1..]);
  }

  lemma {:induction false} CountOnce(s: seq<Field>, x: Field)
    requires DistinctKeys(s)
    ensures multiset(s)[x] <= 1
  {
    if s != [] {
      assert s == [s[0]] + s[1..];
      CountOnce(s[1..], x);
      if s[0] == x {
        assert x !in s[1..];
      }
    }
  }

  /** Sorting keys loses and changes no value. */
  lemma {:induction false} SortKeysKeepsMeaning(j: Json)
    requires Proper(j)
    ensures MeaningOf(SortKeys(j)) == MeaningOf(j) && Proper(SortKeys(j))
    decreases j
  {
    match j
    case Arr(items) =>
      forall i | 0 <= i < |items| ensures MeaningOf(SortKeys(items[i])) == MeaningOf(items[i]) && Proper(SortKeys(items[i])) {
        SortKeysKeepsMeaning(items[i]);
      }
      assert MeaningOfAll(SortKeysOfAll(items)) == MeaningOfAll(items);
    case Obj(fields) =>
      forall i | 0 <= i < |fields|
        ensures MeaningOf(SortKeys(fields[i].value)) == MeaningOf(fields[i].value) && Proper(SortKeys(fields[i].value))
      {
        SortKeysKeepsMeaning(fields[i].value);
      }
      var g := SortKeysOfFields(fields);
      SameFieldMeanings(fields, g);
      SortMultiset(g);
      DistinctPermuted(g, Sort(g));
      PermutedFields(g, Sort(g));
      forall i | 0 <= i < |Sort(g)| ensures Proper(Sort(g)[i].value) {
        assert Sort(g)[i] in multiset(g);
      }
    case _ =>
  }

  lemma {:induction false} SameFieldMeanings(f: seq<Field>, g: seq<Field>)
    requires |f| == |g|
    requires forall i :: 0 <= i < |f| ==> f[i].key == g[i].key && MeaningOf(f[i].value) == MeaningOf(g[i].value)
    ensures MeaningOfFields(f) == MeaningOfFields(g)
  {
    if f != [] {
      SameFieldMeanings(f[1..], g[1..]);
    }
  }

  lemma SameMembersSameMultiset(f: seq<Field>, g: seq<Field>)
    requires DistinctKeys(f) && DistinctKeys(g)
    requires forall x :: x in f <==> x in g
    ensures multiset(f) == multiset(g)
  {
    forall x: Field ensures multiset(f)[x] == multiset(g)[x] {
      CountOnce(f, x);
      CountOnce(g, x);
      assert x in multiset(f) <==> x in f;
      assert x in multiset(g) <==> x in g;
    }
  }

  /** Values that mean the same print the same once their keys are sorted. */
  lemma {:induction false} SortKeysCanonical(a: Json, b: Json)
    requires Proper(a) && Proper(b) && MeaningOf(a) == MeaningOf(b)
    ensures SortKeys(a) == SortKeys(b)
    decreases a
  {
    match a
    case Arr(items) =>
      assert MeaningOfAll(items) == MeaningOfAll(b.items);
      forall i | 0 <= i < |items| ensures SortKeys(items[i]) == SortKeys(b.items[i]) {
        assert MeaningOfAll(items)[i] == MeaningOfAll(b.items)[i];
        SortKeysCanonical(items[i], b.items[i]);
      }
      assert SortKeysOfAll(items) == SortKeysOfAll(b.items);
    case Obj(fields) =>
      var f, g := SortKeysOfFields(fields), SortKeysOfFields(b.fields);
      forall i | 0 <= i < |fields| ensures f[i] in g {
        var j := SameFieldIn(fields, b.fields, i);
        SortKeysCanonical(fields[i].value, b.fields[j].value);
        assert g[j] == f[i];
      }
      forall j | 0 <= j < |b.fields| ensures g[j] in f {
        var i := SameFieldIn(b.fields, fields, j);
        SortKeysCanonical(fields[i].value, b.fields[j].value);
        assert f[i] == g[j];
      }
      SortEqual(f, g);
    case _ =>
  }

  lemma SameFieldIn(a: seq<Field>, b: seq<Field>, i: nat) returns (j: nat)
    requires DistinctKeys(a) && DistinctKeys(b) && MeaningOfFields(a) == MeaningOfFields(b) && i < |a|
    ensures j < |b| && b[j].key == a[i].key && MeaningOf(b[j].value) == MeaningOf(a[i].value)
  {
    FieldMeaning(a, i);
    j := KeyHasField(b, a[i].key);
    FieldMeaning(b, j);
  }

  lemma SortEqual(f: seq<Field>, g: seq<Field>)
    requires DistinctKeys(f) && DistinctKeys(g)
    requires forall x :: x in f <==> x in g
    ensures Sort(f) == Sort(g)
  {
    SameMembersSameMultiset(f, g);
    SortMultiset(f);
    SortMultiset(g);
    SortSorted(f);
    SortSorted(g);
    DistinctPermuted(f, Sort(f));
    SortedUnique(Sort(f), Sort(g));
  }

  // ---- Tool lists ----

  function ToolSortKey(tool: Json): string {
    if !tool.Obj? then ""
    else
      var name, inner := Get(tool.fields, "name"), Get(tool.fields, "function");
      if name.Str? then name.s
      else if inner.Obj? && Get(inner.fields, "name").Str? then Get(inner.fields, "name").s
      else ""
  }

  function Keyed(tools: seq<Json>): (r: seq<Field>)
    ensures |r| == |tools| && forall i :: 0 <= i < |r| ==> r[i] == Field(ToolSortKey(tools[i]), tools[i])
  {
    seq(|tools|, i requires 0 <= i < |tools| => Field(ToolSortKey(tools[i]), tools[i]))
  }

  function Values(fields: seq<Field>): (r: seq<Json>)
    ensures |r| == |fields| && forall i :: 0 <= i < |r| ==> r[i] == fields[i].value
  {
    seq(|fields|, i requires 0 <= i < |fields| => fields[i].value)
  }

  function Canonical(tools: seq<Json>): seq<Json> {
    SortKeysOfAll(Values(Sort(Keyed(tools))))
  }

  predicate ProperTools(tools: seq<Json>) {
    forall i :: 0 <= i < |tools| ==> Proper(tools[i])
  }

  /** No two tools share a sort key. */
  predicate DistinctTools(tools: seq<Json>) {
    DistinctKeys(Keyed(tools))
  }

  /** The same tools, whatever their order and the order of their keys. */
  ghost predicate SameTools(a: seq<Json>, b: seq<Json>) {
    multiset(MeaningOfAll(a)) == multiset(MeaningOfAll(b))
  }

  function Meanings(fields: seq<Field>): seq<Meaning> {
    MeaningOfAll(Values(fields))
  }

  lemma MeaningsCons(x: Field, s: seq<Field>)
    ensures Meanings([x] + s) == [MeaningOf(x.value)] + Meanings(s)
  {
  }

  lemma {:induction false} InsertMeanings(x: Field, s: seq<Field>)
    ensures multiset(Meanings(Insert(x, s))) == multiset(Meanings(s)) + multiset{MeaningOf(x.value)}
  {
    if s == [] || !StringLess(s[0].key, x.key) {
      MeaningsCons(x, s);
    } else {
      InsertMeanings(x, s[1..]);
      MeaningsCons(s[0], Insert(x, s[1..]));
      MeaningsCons(s[0], s[1..]);
      assert s == [s[0]] + s[1..];
    }
  }

  lemma {:induction false} SortMeanings(s: seq<Field>)
    ensures multiset(Meanings(Sort(s))) == multiset(Meanings(s))
  {
    if s != [] {
      SortMeanings(s[1..]);
      InsertMeanings(s[0], Sort(s[1..]));
      MeaningsCons(s[0], s[1..]);
      assert s == [s[0]] + s[1..];
    }
  }

  /** Canonicalising loses no tool and no value in one. */
  lemma CanonicalLosesNothing(tools: seq<Json>)
    requires ProperTools(tools)
    ensures SameTools(Canonical(tools), tools) && |Canonical(tools)| == |tools|
  {
    var sorted := Sort(Keyed(tools));
    SortMeanings(Keyed(tools));
    SortMultiset(Keyed(tools));
    assert Values(Keyed(tools)) == tools;
    assert |sorted| == |multiset(sorted)| == |multiset(Keyed(tools))| == |tools|;
    forall i | 0 <= i < |sorted| ensures MeaningOf(SortKeys(sorted[i].value)) == MeaningOf(sorted[i].value) {
      assert sorted[i] in multiset(Keyed(tools));
      SortKeysKeepsMeaning(sorted[i].value);
    }
    assert MeaningOfAll(Canonical(tools)) == Meanings(sorted);
  }

  lemma {:induction false} GetMeaning(fields: seq<Field>, key: string)
    ensures MeaningOf(Get(fields, key)) == if key in MeaningOfFields(fields) then MeaningOfFields(fields)[key] else MNull
  {
    if fields != [] {
      GetMeaning(fields[1..], key);
    }
  }

  lemma SameGet(a: seq<Field>, b: seq<Field>, key: string)
    requires MeaningOfFields(a) == MeaningOfFields(b)
    ensures MeaningOf(Get(a, key)) == MeaningOf(Get(b, key))
  {
    GetMeaning(a, key);
    GetMeaning(b, key);
  }

  lemma SortKeyByMeaning(a: Json, b: Json)
    requires MeaningOf(a) == MeaningOf(b)
    ensures ToolSortKey(a) == ToolSortKey(b)
  {
    if a.Obj? {
      SameGet(a.fields, b.fields, "name");
      var f, g := Get(a.fields, "function"), Get(b.fields, "function");
      SameGet(a.fields, b.fields, "function");
      if f.Obj? {
        SameGet(f.fields, g.fields, "name");
      }
    }
  }

  /** A tool's name: its own, else that of its function, else empty. */
  ghost predicate NamedTool(tool: Json, name: string) {
    if At(tool, ["name"]).Str? then name == At(tool, ["name"]).s
    else if At(tool, ["function", "name"]).Str? then name == At(tool, ["function", "name"]).s
    else name == ""
  }

  lemma SortKeyIsName(tool: Json, name: string)
    ensures NamedTool(tool, name) <==> name == ToolSortKey(tool)
  {
    AtOne(tool, "name");
    AtOne(tool, "function");
    AtTwo(tool, "function", "name");
    AtOne(At(tool, ["function"]), "name");
  }

  /** The canonical list comes in the order of the names. */
  lemma CanonicalByName(tools: seq<Json>, i: nat, j: nat, first: string, second: string)
    requires ProperTools(tools) && i < j < |Canonical(tools)|
    requires NamedTool(Canonical(tools)[i], first) && NamedTool(Canonical(tools)[j], second)
    ensures first == second || Alphabetical(first, second)
  {
    var sorted := Sort(Keyed(tools));
    SortSorted(Keyed(tools));
    CanonicalNamed(tools, i, first);
    CanonicalNamed(tools, j, second);
    assert !StringLess(sorted[j].key, sorted[i].key);
    StringLessTotal(first, second);
    StringLessMeaning(first, second);
  }

  lemma CanonicalNamed(tools: seq<Json>, i: nat, name: string)
    requires ProperTools(tools) && i < |Canonical(tools)| && NamedTool(Canonical(tools)[i], name)
    ensures i < |Sort(Keyed(tools))| && Sort(Keyed(tools))[i].key == name
  {
    var sorted := Sort(Keyed(tools));
    SortMultiset(Keyed(tools));
    assert sorted[i] in multiset(sorted) && sorted[i] in multiset(Keyed(tools));
    SortKeysKeepsMeaning(sorted[i].value);
    SortKeyByMeaning(SortKeys(sorted[i].value), sorted[i].value);
    SortKeyIsName(Canonical(tools)[i], name);
  }

  lemma {:induction false} InsertMapped(x: Field, s: seq<Field>)
    ensures SortKeysOfFields(Insert(x, s)) == Insert(Field(x.key, SortKeys(x.value)), SortKeysOfFields(s))
  {
    if s != [] && StringLess(s[0].key, x.key) {
      InsertMapped(x, s[1..]);
      assert SortKeysOfFields(s)[1..] == SortKeysOfFields(s[1..]);
    }
  }

  /** Sorting looks at keys only, so values may be rewritten before or after. */
  lemma {:induction false} SortMapped(s: seq<Field>)
    ensures SortKeysOfFields(Sort(s)) == Sort(SortKeysOfFields(s))
  {
    if s != [] {
      SortMapped(s[1..]);
      InsertMapped(s[0], Sort(s[1..]));
      assert SortKeysOfFields(s)[1..] == SortKeysOfFields(s[1..]);
    }
  }

  lemma CanonicalBySortedKeys(tools: seq<Json>)
    ensures Canonical(tools) == Values(Sort(SortKeysOfFields(Keyed(tools))))
  {
    SortMapped(Keyed(tools));
    assert Canonical(tools) == Values(SortKeysOfFields(Sort(Keyed(tools))));
  }

  lemma KeyedMember(a: seq<Json>, b: seq<Json>, i: nat)
    requires ProperTools(a) && ProperTools(b) && SameTools(a, b) && i < |a|
    ensures SortKeysOfFields(Keyed(a))[i] in SortKeysOfFields(Keyed(b))
  {
    assert MeaningOfAll(a)[i] in multiset(MeaningOfAll(a));
    var j :| 0 <= j < |b| && MeaningOfAll(b)[j] == MeaningOf(a[i]);
    SortKeyByMeaning(a[i], b[j]);
    SortKeysCanonical(a[i], b[j]);
    assert SortKeysOfFields(Keyed(b))[j] == SortKeysOfFields(Keyed(a))[i];
  }

  /** Two tool lists with distinct sort keys have one canonical form exactly when they are the same
      tools, in whatever order and with their keys in whatever order. */
  lemma CanonicalIffSameTools(a: seq<Json>, b: seq<Json>)
    requires ProperTools(a) && ProperTools(b) && DistinctTools(a) && DistinctTools(b)
    ensures Canonical(a) == Canonical(b) <==> SameTools(a, b)
  {
    CanonicalLosesNothing(a);
    CanonicalLosesNothing(b);
    if SameTools(a, b) {
      var f, g := SortKeysOfFields(Keyed(a)), SortKeysOfFields(Keyed(b));
      forall i | 0 <= i < |f| ensures f[i] in g { KeyedMember(a, b, i); }
      forall j | 0 <= j < |g| ensures g[j] in f { KeyedMember(b, a, j); }
      SortEqual(f, g);
      CanonicalBySortedKeys(a);
      CanonicalBySortedKeys(b);
    }
  }
}

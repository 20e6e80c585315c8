/** JSON values as the program sees them after parsing: objects keep their key order. */
module JsonValue {
  import opened Wrappers

  datatype Json =
    | Null
    | Bool(b: bool)
    | Int(i: int)
    | Float(f: real)
    | Str(s: string)
    | Arr(items: seq<Json>)
    | Obj(fields: seq<Field>)

  datatype Field = Field(key: string, value: Json)

  predicate HasKey(fields: seq<Field>, key: string) {
    exists i :: 0 <= i < |fields| && fields[i].key == key
  }

  /** `mapping.get(key)`: a missing key reads as null. */
  function Get(fields: seq<Field>, key: string): Json {
    if fields == [] then Null
    else if fields[0].key == key then fields[0].value
    else Get(fields[1..], key)
  }

  /** Keys of one object are distinct. */
  predicate DistinctKeys(fields: seq<Field>) {
    forall i, j :: 0 <= i < j < |fields| ==> fields[i].key != fields[j].key
  }

  /** Object keys are distinct at every depth, as in any parsed value. */
  predicate Proper(j: Json)
    decreases j
  {
    match j
    case Arr(items) => forall i :: 0 <= i < |items| ==> Proper(items[i])
    case Obj(fields) => DistinctKeys(fields) && forall i :: 0 <= i < |fields| ==> Proper(fields[i].value)
    case _ => true
  }

  /** The value a path of keys leads to, null where there is none. */
  function At(v: Json, path: seq<string>): Json
    decreases |path|
  {
    if path == [] then v else if v.Obj? then At(Get(v.fields, path[0]), path[1..]) else Null
  }

  lemma AtOne(v: Json, a: string)
    ensures At(v, [a]) == if v.Obj? then Get(v.fields, a) else Null
  {
    assert [a][1..] == [];
  }

  lemma AtTwo(v: Json, a: string, b: string)
    ensures At(v, [a, b]) == At(At(v, [a]), [b])
  {
    AtOne(v, a);
    assert [a, b][1..] == [b];
    assert !v.Obj? ==> At(Null, [b]) == Null;
  }

  lemma AtThree(v: Json, a: string, b: string, c: string)
    ensures At(v, [a, b, c]) == At(At(v, [a, b]), [c])
  {
    AtTwo(v, a, b);
    AtOne(v, a);
    assert [a, b, c][1..] == [b, c];
    if v.Obj? {
      AtTwo(Get(v.fields, a), b, c);
    } else {
      AtOne(Null, b);
      AtOne(Null, c);
    }
  }

  predicate HasAnyKey(fields: seq<Field>, keys: seq<string>) {
    exists i :: 0 <= i < |keys| && HasKey(fields, keys[i])
  }

  /** The first argument that is a non-empty string. */
  function FirstStr(values: seq<Json>): (r: Option<string>)
    ensures r.Some? ==> r.value != ""
  {
    if values == [] then None
    else if values[0].Str? && values[0].s != "" then Some(values[0].s)
    else FirstStr(values[1..])
  }

  predicate StartsWith(s: string, prefix: string) {
    prefix <= s
  }

  predicate EndsWith(s: string, suffix: string) {
    |suffix| <= |s| && s[|s| - |suffix|..] == suffix
  }

  predicate Contains(s: string, sub: string) {
    sub <= s || (s != "" && Contains(s[1..], sub))
  }

  /** `sub` occurs in `s` at some place. */
  ghost predicate OccursIn(sub: string, s: string) {
    exists i :: 0 <= i <= |s| && sub <= s[i..]
  }

  lemma {:induction false} ContainsMeaning(s: string, sub: string)
    ensures Contains(s, sub) <==> OccursIn(sub, s)
  {
    assert s[0..] == s;
    if s != "" {
      ContainsMeaning(s[1..], sub);
      if OccursIn(sub, s[1..]) {
        var i :| 0 <= i <= |s[1..]| && sub <= s[1..][i..];
        assert s[1..][i..] == s[i + 1..];
      }
      if OccursIn(sub, s) && !(sub <= s) {
        var i :| 0 <= i <= |s| && sub <= s[i..];
        assert i > 0 && s[1..][i - 1..] == s[i..];
      }
    }
  }

  lemma EndsWithMeaning(s: string, suffix: string)
    ensures EndsWith(s, suffix) <==> exists n :: 0 <= n <= |s| && s[n..] == suffix
  {
    if n :| 0 <= n <= |s| && s[n..] == suffix {
      assert n == |s| - |suffix|;
    }
  }
}

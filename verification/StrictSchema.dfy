/**
 * Strict JSON schema validation (app/core/openai/strict_schema.py, `_find_violation`): the walker is
 * proved to report the first violating node of a traversal that visits every reachable subschema.
 */
module StrictSchema {
  import opened Wrappers
  import opened JsonValue

  // ---- Sizes, for recursion through lookups ----

  function Size(j: Json): nat
    decreases j
  {
    match j
    case Arr(items) => 1 + SizeAll(items)
    case Obj(fields) => 1 + SizeFields(fields)
    case _ => 1
  }

  function SizeAll(items: seq<Json>): (n: nat)
    ensures forall i :: 0 <= i < |items| ==> Size(items[i]) <= n
    decreases items
  {
    if items == [] then 0 else Size(items[0]) + SizeAll(items[1..])
  }

  function SizeFields(fields: seq<Field>): (n: nat)
    ensures forall i :: 0 <= i < |fields| ==> Size(fields[i].value) <= n
    decreases fields
  {
    if fields == [] then 0 else Size(fields[0].value) + SizeFields(fields[1..])
  }

  lemma {:induction false} GetSize(fields: seq<Field>, key: string)
    ensures Size(Get(fields, key)) <= SizeFields(fields) + 1
    ensures !Get(fields, key).Null? ==> Size(Get(fields, key)) <= SizeFields(fields)
  {
    if fields != [] {
      GetSize(fields[1..], key);
    }
  }

  // ---- The rules for one node ----

  datatype Reason = MissingType | AdditionalPropertiesNotFalse | NotRequired(names: seq<string>)

  predicate HasCombinator(node: seq<Field>) {
    Get(node, "anyOf").Arr? || Get(node, "oneOf").Arr? || Get(node, "allOf").Arr?
  }

  predicate Requires(required: Json, name: string) {
    required.Arr? && Str(name) in required.items
  }

  /** Properties that are not listed as required, in order. */
  function NotListed(properties: seq<Field>, required: Json): seq<string> {
    if properties == [] then []
    else NotListed(properties[..|properties| - 1], required) +
         if Requires(required, properties[|properties| - 1].key) then [] else [properties[|properties| - 1].key]
  }

  predicate IsObjectSchema(node: seq<Field>) {
    Get(node, "type") == Str("object") || HasKey(node, "properties")
  }

  function RuleBroken(j: Json): Option<Reason> {
    if !j.Obj? then None
    else
      var node := j.fields;
      var properties := Get(node, "properties");
      if !HasKey(node, "type") && !HasCombinator(node) && !Get(node, "$ref").Str? then Some(MissingType)
      else if IsObjectSchema(node) && Get(node, "additionalProperties") != Bool(false) then Some(AdditionalPropertiesNotFalse)
      else if IsObjectSchema(node) && properties.Obj? && NotListed(properties.fields, Get(node, "required")) != []
      then Some(NotRequired(NotListed(properties.fields, Get(node, "required"))))
      else None
  }

  lemma {:induction false} NotListedEmptyIff(properties: seq<Field>, required: Json)
    ensures NotListed(properties, required) == [] <==>
            forall i :: 0 <= i < |properties| ==> Requires(required, properties[i].key)
  {
    if properties != [] {
      var init, last := properties[..|properties| - 1], properties[|properties| - 1];
      NotListedEmptyIff(init, required);
      assert NotListed(properties, required) == [] <==> NotListed(init, required) == [] && Requires(required, last.key);
      assert forall i :: 0 <= i < |init| ==> properties[i] == init[i];
    }
  }

  /** The rules of strict mode for one node: it says what it is, an object schema forbids other
      properties, and it requires each of its own. */
  predicate KeepsRules(j: Json) {
    j.Obj? ==>
      var node := j.fields;
      && (HasKey(node, "type") || HasCombinator(node) || Get(node, "$ref").Str?)
      && (IsObjectSchema(node) ==>
            && Get(node, "additionalProperties") == Bool(false)
            && (Get(node, "properties").Obj? ==>
                  forall i :: 0 <= i < |Get(node, "properties").fields| ==>
                    Requires(Get(node, "required"), Get(node, "properties").fields[i].key)))
  }

  lemma NoRuleBrokenIffKept(j: Json)
    ensures RuleBroken(j).None? <==> KeepsRules(j)
  {
    if j.Obj? && Get(j.fields, "properties").Obj? {
      NotListedEmptyIff(Get(j.fields, "properties").fields, Get(j.fields, "required"));
    }
  }

  // ---- The walker ----

  datatype Violation = Violation(path: seq<string>, reason: Reason)

  function NatToString(n: nat): string {
    if n < 10 then ["0123456789"[n]] else NatToString(n / 10) + ["0123456789"[n % 10]]
  }

  /** Python's truth value of a JSON value. */
  predicate Truthy(j: Json) {
    match j
    case Null => false
    case Bool(b) => b
    case Int(i) => i != 0
    case Float(f) => f != 0.0
    case Str(s) => s != ""
    case Arr(items) => items != []
    case Obj(fields) => fields != []
  }

  function Definitions(node: seq<Field>): Json {
    if Truthy(Get(node, "$defs")) then Get(node, "$defs") else Get(node, "definitions")
  }

  /** Definitions are those under "$defs", or under "definitions" where that is missing or empty. */
  lemma DefinitionsMeaning(node: seq<Field>)
    ensures var defs := Get(node, "$defs");
            Definitions(node) ==
            if defs == Null || defs == Bool(false) || defs == Int(0) || defs == Float(0.0) || defs == Str("")
               || defs == Arr([]) || defs == Obj([])
            then Get(node, "definitions") else defs
  {
  }

  /** Walk the values of an object, named `step` and their key. */
  function WalkFields(fields: seq<Field>, step: string, path: seq<string>, bound: nat): Option<Violation>
    requires SizeFields(fields) < bound
    decreases bound, |fields|
  {
    if fields == [] then None
    else match FindViolation(fields[0].value, path + [step, fields[0].key])
      case Some(v) => Some(v)
      case None => WalkFields(fields[1..], step, path, bound)
  }

  function WalkItems(items: seq<Json>, first: nat, step: string, path: seq<string>, bound: nat): Option<Violation>
    requires SizeAll(items) < bound
    decreases bound, |items|
  {
    if items == [] then None
    else match FindViolation(items[0], path + [step, NatToString(first)])
      case Some(v) => Some(v)
      case None => WalkItems(items[1..], first + 1, step, path, bound)
  }

  function InProperties(node: seq<Field>, path: seq<string>): Option<Violation>
    decreases SizeFields(node) + 1, 1
  {
    GetSize(node, "properties");
    var properties := Get(node, "properties");
    if IsObjectSchema(node) && properties.Obj?
    then WalkFields(properties.fields, "properties", path, SizeFields(node)) else None
  }

  function InItems(node: seq<Field>, path: seq<string>): Option<Violation>
    decreases SizeFields(node) + 1, 1
  {
    GetSize(node, "items");
    var items := Get(node, "items");
    if (Get(node, "type") == Str("array") || HasKey(node, "items")) && !items.Null?
    then FindViolation(items, path + ["items"]) else None
  }

  function InCombinator(node: seq<Field>, step: string, path: seq<string>): Option<Violation>
    decreases SizeFields(node) + 1, 1
  {
    GetSize(node, step);
    var candidates := Get(node, step);
    if candidates.Arr? then WalkItems(candidates.items, 0, step, path, SizeFields(node)) else None
  }

  function InDefinitions(node: seq<Field>, path: seq<string>): Option<Violation>
    decreases SizeFields(node) + 1, 1
  {
    GetSize(node, "$defs");
    GetSize(node, "definitions");
    var defs := Definitions(node);
    if defs.Obj? then WalkFields(defs.fields, "$defs", path, SizeFields(node)) else None
  }

  function FindViolation(j: Json, path: seq<string>): Option<Violation>
    decreases Size(j) + 1, 0
  {
    if !j.Obj? then None
    else if RuleBroken(j).Some? then Some(Violation(path, RuleBroken(j).value))
    else
      var node := j.fields;
      OrElse(InProperties(node, path), OrElse(InItems(node, path),
      OrElse(InCombinator(node, "anyOf", path), OrElse(InCombinator(node, "oneOf", path),
      OrElse(InCombinator(node, "allOf", path), InDefinitions(node, path))))))
  }

  // ---- The traversal, as a list ----

  /** A subschema directly under a node, and the steps that lead to it. */
  datatype Kid = Kid(steps: seq<string>, node: Json)

  function FieldKids(fields: seq<Field>, step: string): (r: seq<Kid>)
    ensures |r| == |fields| && forall i :: 0 <= i < |r| ==> r[i] == Kid([step, fields[i].key], fields[i].value)
  {
    seq(|fields|, i requires 0 <= i < |fields| => Kid([step, fields[i].key], fields[i].value))
  }

  function ItemKids(items: seq<Json>, first: nat, step: string): (r: seq<Kid>)
    ensures |r| == |items| && forall i :: 0 <= i < |r| ==> r[i] == Kid([step, NatToString(first + i)], items[i])
  {
    seq(|items|, i requires 0 <= i < |items| => Kid([step, NatToString(first + i)], items[i]))
  }

  function ObjectKids(j: Json, step: string): seq<Kid> {
    if j.Obj? then FieldKids(j.fields, step) else []
  }

  function ArrayKids(j: Json, step: string): seq<Kid> {
    if j.Arr? then ItemKids(j.items, 0, step) else []
  }

  function SingleKid(j: Json, step: string): seq<Kid> {
    if j.Null? then [] else [Kid([step], j)]
  }

  /** Subschemas in the order of the traversal. */
  function Kids(j: Json): seq<Kid> {
    if !j.Obj? then []
    else
      var node := j.fields;
      ObjectKids(Get(node, "properties"), "properties") + SingleKid(Get(node, "items"), "items")
      + CombinatorKids(node) + ObjectKids(Definitions(node), "$defs")
  }

  function CombinatorKids(node: seq<Field>): seq<Kid> {
    ArrayKids(Get(node, "anyOf"), "anyOf") + ArrayKids(Get(node, "oneOf"), "oneOf") + ArrayKids(Get(node, "allOf"), "allOf")
  }

  predicate AllSmaller(kids: seq<Kid>, bound: nat) {
    forall i :: 0 <= i < |kids| ==> Size(kids[i].node) < bound
  }

  lemma AllSmallerAppend(a: seq<Kid>, b: seq<Kid>, bound: nat)
    requires AllSmaller(a, bound) && AllSmaller(b, bound)
    ensures AllSmaller(a + b, bound)
  {
  }

  lemma PartSmaller(node: seq<Field>, key: string, step: string)
    ensures AllSmaller(ObjectKids(Get(node, key), step), SizeFields(node) + 1)
    ensures AllSmaller(ArrayKids(Get(node, key), step), SizeFields(node) + 1)
    ensures AllSmaller(SingleKid(Get(node, key), step), SizeFields(node) + 1)
  {
    GetSize(node, key);
  }

  lemma KidsSmaller(j: Json)
    ensures AllSmaller(Kids(j), Size(j))
  {
    if j.Obj? {
      var node, bound := j.fields, Size(j);
      PartSmaller(node, "properties", "properties");
      PartSmaller(node, "items", "items");
      PartSmaller(node, "anyOf", "anyOf");
      PartSmaller(node, "oneOf", "oneOf");
      PartSmaller(node, "allOf", "allOf");
      PartSmaller(node, "$defs", "$defs");
      PartSmaller(node, "definitions", "$defs");
      var anyOf, oneOf, allOf := ArrayKids(Get(node, "anyOf"), "anyOf"), ArrayKids(Get(node, "oneOf"), "oneOf"), ArrayKids(Get(node, "allOf"), "allOf");
      AllSmallerAppend(anyOf, oneOf, bound);
      AllSmallerAppend(anyOf + oneOf, allOf, bound);
      var properties, items := ObjectKids(Get(node, "properties"), "properties"), SingleKid(Get(node, "items"), "items");
      AllSmallerAppend(properties, items, bound);
      AllSmallerAppend(properties + items, CombinatorKids(node), bound);
      AllSmallerAppend(properties + items + CombinatorKids(node), ObjectKids(Definitions(node), "$defs"), bound);
    }
  }

  datatype Visit = Visit(path: seq<string>, node: Json)

  function Prefixed(steps: seq<string>, visits: seq<Visit>): (r: seq<Visit>)
    ensures |r| == |visits| && forall i :: 0 <= i < |r| ==> r[i] == Visit(steps + visits[i].path, visits[i].node)
  {
    seq(|visits|, i requires 0 <= i < |visits| => Visit(steps + visits[i].path, visits[i].node))
  }

  /** Every node reached, parents before children, in the order of the traversal. */
  function Visits(j: Json): seq<Visit>
    decreases Size(j) + 1, 0
  {
    KidsSmaller(j);
    [Visit([], j)] + VisitKids(Kids(j), Size(j))
  }

  function VisitKids(kids: seq<Kid>, bound: nat): seq<Visit>
    requires AllSmaller(kids, bound)
    decreases bound, |kids|
  {
    if kids == [] then [] else Prefixed(kids[0].steps, Visits(kids[0].node)) + VisitKids(kids[1..], bound)
  }

  /** The first visited node that breaks a rule. */
  function FirstBroken(visits: seq<Visit>): Option<Violation> {
    if visits == [] then None
    else if RuleBroken(visits[0].node).Some? then Some(Violation(visits[0].path, RuleBroken(visits[0].node).value))
    else FirstBroken(visits[1..])
  }

  function Under(path: seq<string>, v: Option<Violation>): Option<Violation> {
    if v.Some? then Some(Violation(path + v.value.path, v.value.reason)) else None
  }

  lemma {:induction false} FirstBrokenAppend(a: seq<Visit>, b: seq<Visit>)
    ensures FirstBroken(a + b) == OrElse(FirstBroken(a), FirstBroken(b))
  {
    if a == [] {
      assert a + b == b;
    } else {
      assert (a + b)[1..] == a[1..] + b;
      FirstBrokenAppend(a[1..], b);
    }
  }

  lemma {:induction false} FirstBrokenPrefixed(steps: seq<string>, visits: seq<Visit>)
    ensures FirstBroken(Prefixed(steps, visits)) == Under(steps, FirstBroken(visits))
  {
    if visits != [] {
      assert Prefixed(steps, visits)[1..] == Prefixed(steps, visits[1..]);
      FirstBrokenPrefixed(steps, visits[1..]);
    }
  }

  lemma UnderUnder(a: seq<string>, b: seq<string>, v: Option<Violation>)
    ensures Under(a, Under(b, v)) == Under(a + b, v)
  {
    if v.Some? {
      assert a + (b + v.value.path) == (a + b) + v.value.path;
    }
  }

  /** The first violation among the subtrees of `kids`. */
  function FirstInKids(kids: seq<Kid>): Option<Violation> {
    if kids == [] then None
    else OrElse(Under(kids[0].steps, FirstBroken(Visits(kids[0].node))), FirstInKids(kids[1..]))
  }

  lemma {:induction false} FirstInKidsIs(kids: seq<Kid>, bound: nat)
    requires AllSmaller(kids, bound)
    ensures FirstBroken(VisitKids(kids, bound)) == FirstInKids(kids)
  {
    if kids != [] {
      FirstInKidsIs(kids[1..], bound);
      FirstBrokenAppend(Prefixed(kids[0].steps, Visits(kids[0].node)), VisitKids(kids[1..], bound));
      FirstBrokenPrefixed(kids[0].steps, Visits(kids[0].node));
    }
  }

  lemma {:induction false} FirstInKidsAppend(a: seq<Kid>, b: seq<Kid>)
    ensures FirstInKids(a + b) == OrElse(FirstInKids(a), FirstInKids(b))
  {
    if a == [] {
      assert a + b == b;
    } else {
      assert (a + b)[1..] == a[1..] + b;
      FirstInKidsAppend(a[1..], b);
    }
  }

  // ---- The walker finds the first ----

  lemma {:induction false} WalkFieldsFinds(fields: seq<Field>, step: string, path: seq<string>, bound: nat)
    requires SizeFields(fields) < bound
    ensures WalkFields(fields, step, path, bound) == Under(path, FirstInKids(FieldKids(fields, step)))
    decreases bound, |fields|
  {
    if fields != [] {
      WalkerFindsFirst(fields[0].value, path + [step, fields[0].key]);
      UnderUnder(path, [step, fields[0].key], FirstBroken(Visits(fields[0].value)));
      WalkFieldsFinds(fields[1..], step, path, bound);
      assert FieldKids(fields, step)[1..] == FieldKids(fields[1..], step);
    }
  }

  lemma {:induction false} WalkItemsFinds(items: seq<Json>, first: nat, step: string, path: seq<string>, bound: nat)
    requires SizeAll(items) < bound
    ensures WalkItems(items, first, step, path, bound) == Under(path, FirstInKids(ItemKids(items, first, step)))
    decreases bound, |items|
  {
    if items != [] {
      WalkerFindsFirst(items[0], path + [step, NatToString(first)]);
      UnderUnder(path, [step, NatToString(first)], FirstBroken(Visits(items[0])));
      WalkItemsFinds(items[1..], first + 1, step, path, bound);
      assert ItemKids(items, first, step)[1..] == ItemKids(items[1..], first + 1, step);
    }
  }

  lemma NonNullHasKey(fields: seq<Field>, key: string)
    ensures !Get(fields, key).Null? ==> HasKey(fields, key)
  {
    if fields != [] {
      NonNullHasKey(fields[1..], key);
      assert HasKey(fields[1..], key) ==> HasKey(fields, key) by {
        assert fields == [fields[0]] + fields[1..];
      }
    }
  }

  /** The walker's answer at any node is the first rule broken in its traversal. */
  lemma {:induction false} WalkerFindsFirst(j: Json, path: seq<string>)
    ensures FindViolation(j, path) == Under(path, FirstBroken(Visits(j)))
    decreases Size(j) + 1, 0
  {
    KidsSmaller(j);
    FirstInKidsIs(Kids(j), Size(j));
    assert Visits(j)[0] == Visit([], j) && Visits(j)[1..] == VisitKids(Kids(j), Size(j));
    if RuleBroken(j).Some? {
      assert path + [] == path;
    } else if j.Obj? {
      WalkerFindsFirstBelow(j, path);
    }
  }

  lemma {:induction false} PropertiesFound(node: seq<Field>, path: seq<string>)
    ensures InProperties(node, path) == Under(path, FirstInKids(ObjectKids(Get(node, "properties"), "properties")))
    decreases SizeFields(node) + 1, 1
  {
    GetSize(node, "properties");
    NonNullHasKey(node, "properties");
    var properties := Get(node, "properties");
    if properties.Obj? {
      WalkFieldsFinds(properties.fields, "properties", path, SizeFields(node));
    }
  }

  lemma {:induction false} ItemsFound(node: seq<Field>, path: seq<string>)
    ensures InItems(node, path) == Under(path, FirstInKids(SingleKid(Get(node, "items"), "items")))
    decreases SizeFields(node) + 1, 1
  {
    GetSize(node, "items");
    NonNullHasKey(node, "items");
    var items := Get(node, "items");
    if !items.Null? {
      WalkerFindsFirst(items, path + ["items"]);
      UnderUnder(path, ["items"], FirstBroken(Visits(items)));
      assert [Kid(["items"], items)][1..] == [];
    }
  }

  lemma {:induction false} CombinatorFound(node: seq<Field>, step: string, path: seq<string>)
    ensures InCombinator(node, step, path) == Under(path, FirstInKids(ArrayKids(Get(node, step), step)))
    decreases SizeFields(node) + 1, 1
  {
    GetSize(node, step);
    var candidates := Get(node, step);
    if candidates.Arr? {
      WalkItemsFinds(candidates.items, 0, step, path, SizeFields(node));
    }
  }

  lemma {:induction false} DefinitionsFound(node: seq<Field>, path: seq<string>)
    ensures InDefinitions(node, path) == Under(path, FirstInKids(ObjectKids(Definitions(node), "$defs")))
    decreases SizeFields(node) + 1, 1
  {
    GetSize(node, "$defs");
    GetSize(node, "definitions");
    var defs := Definitions(node);
    if defs.Obj? {
      WalkFieldsFinds(defs.fields, "$defs", path, SizeFields(node));
    }
  }

  lemma FirstInThree(a: seq<Kid>, b: seq<Kid>, c: seq<Kid>)
    ensures FirstInKids(a + b + c) == OrElse(FirstInKids(a), OrElse(FirstInKids(b), FirstInKids(c)))
  {
    FirstInKidsAppend(a, b);
    FirstInKidsAppend(a + b, c);
  }

  lemma {:induction false} CombinatorsFound(node: seq<Field>, path: seq<string>)
    ensures OrElse(InCombinator(node, "anyOf", path), OrElse(InCombinator(node, "oneOf", path), InCombinator(node, "allOf", path)))
            == Under(path, FirstInKids(CombinatorKids(node)))
    decreases SizeFields(node) + 1, 2
  {
    CombinatorFound(node, "anyOf", path);
    CombinatorFound(node, "oneOf", path);
    CombinatorFound(node, "allOf", path);
    FirstInThree(ArrayKids(Get(node, "anyOf"), "anyOf"), ArrayKids(Get(node, "oneOf"), "oneOf"), ArrayKids(Get(node, "allOf"), "allOf"));
  }

  lemma {:induction false} WalkerFindsFirstBelow(j: Json, path: seq<string>)
    requires j.Obj? && RuleBroken(j).None?
    ensures FindViolation(j, path) == Under(path, FirstInKids(Kids(j)))
    decreases Size(j), 3
  {
    var node := j.fields;
    PropertiesFound(node, path);
    ItemsFound(node, path);
    CombinatorsFound(node, path);
    DefinitionsFound(node, path);
    var properties, items := ObjectKids(Get(node, "properties"), "properties"), SingleKid(Get(node, "items"), "items");
    FirstInThree(properties, items, CombinatorKids(node));
    FirstInKidsAppend(properties + items + CombinatorKids(node), ObjectKids(Definitions(node), "$defs"));
  }

  // ---- Following a path ----

  function ItemNamed(items: seq<Json>, first: nat, name: string): Option<Json> {
    if items == [] then None
    else if NatToString(first) == name then Some(items[0])
    else ItemNamed(items[1..], first + 1, name)
  }

  function FieldNamed(j: Json, name: string): Option<Json> {
    if j.Obj? && HasKey(j.fields, name) then Some(Get(j.fields, name)) else None
  }

  predicate IsCombinator(step: string) {
    step == "anyOf" || step == "oneOf" || step == "allOf"
  }

  /** How many names the first step of a path takes. */
  function StepLength(path: seq<string>): nat
    requires path != []
  {
    if path[0] == "items" then 1 else 2
  }

  /** The subschema that the first step of a path names.  "$defs" stands for whichever of the two
      definition keywords the walker reads. */
  function Child(node: seq<Field>, path: seq<string>): Option<Json>
    requires path != []
  {
    if path[0] == "items" then
      if Get(node, "items").Null? then None else Some(Get(node, "items"))
    else if |path| < 2 then None
    else if path[0] == "properties" then FieldNamed(Get(node, "properties"), path[1])
    else if IsCombinator(path[0]) then
      if Get(node, path[0]).Arr? then ItemNamed(Get(node, path[0]).items, 0, path[1]) else None
    else if path[0] == "$defs" then FieldNamed(Definitions(node), path[1])
    else None
  }

  /** The node a path leads to. */
  function Navigate(j: Json, path: seq<string>): Option<Json>
    decreases |path|
  {
    if path == [] then Some(j)
    else if !j.Obj? || Child(j.fields, path).None? then None
    else
      Navigate(Child(j.fields, path).value, path[StepLength(path)..])
  }

  // ---- Steps name children, one each ----

  lemma {:induction false} NatToStringInjective(m: nat, n: nat)
    requires NatToString(m) == NatToString(n)
    ensures m == n
  {
    var a, b := NatToString(m), NatToString(n);
    assert a[|a| - 1] == "0123456789"[m % 10] && b[|b| - 1] == "0123456789"[n % 10];
    if m >= 10 {
      assert a[..|a| - 1] == NatToString(m / 10) && b[..|b| - 1] == NatToString(n / 10);
      NatToStringInjective(m / 10, n / 10);
    }
  }

  lemma {:induction false} ItemNamedAt(items: seq<Json>, first: nat, i: nat)
    requires i < |items|
    ensures ItemNamed(items, first, NatToString(first + i)) == Some(items[i])
  {
    if i > 0 {
      if NatToString(first) == NatToString(first + i) {
        NatToStringInjective(first, first + i);
      }
      ItemNamedAt(items[1..], first + 1, i - 1);
    }
  }

  lemma {:induction false} ItemNamedIs(items: seq<Json>, first: nat, name: string) returns (i: nat)
    requires ItemNamed(items, first, name).Some?
    ensures i < |items| && name == NatToString(first + i) && ItemNamed(items, first, name) == Some(items[i])
  {
    if NatToString(first) == name {
      i := 0;
    } else {
      i := ItemNamedIs(items[1..], first + 1, name);
      i := i + 1;
    }
  }

  lemma {:induction false} GetAt(fields: seq<Field>, i: nat)
    requires DistinctKeys(fields) && i < |fields|
    ensures Get(fields, fields[i].key) == fields[i].value
  {
    if i > 0 {
      assert fields[0].key != fields[i].key;
      GetAt(fields[1..], i - 1);
    }
  }

  lemma {:induction false} GetProper(fields: seq<Field>, key: string)
    requires forall i :: 0 <= i < |fields| ==> Proper(fields[i].value)
    ensures Proper(Get(fields, key))
  {
    if fields != [] {
      GetProper(fields[1..], key);
    }
  }

  lemma FieldNamedIffKid(j: Json, step: string, name: string, x: Json)
    requires Proper(j)
    ensures FieldNamed(j, name) == Some(x) <==> Kid([step, name], x) in ObjectKids(j, step)
  {
    if j.Obj? {
      if FieldNamed(j, name) == Some(x) {
        var i :| 0 <= i < |j.fields| && j.fields[i].key == name;
        GetAt(j.fields, i);
        assert ObjectKids(j, step)[i] == Kid([step, name], x);
      }
      if Kid([step, name], x) in ObjectKids(j, step) {
        var i :| 0 <= i < |j.fields| && ObjectKids(j, step)[i] == Kid([step, name], x);
        assert [step, name][1] == [step, j.fields[i].key][1];
        GetAt(j.fields, i);
      }
    }
  }

  lemma ItemNamedIffKid(j: Json, step: string, name: string, x: Json)
    ensures (j.Arr? && ItemNamed(j.items, 0, name) == Some(x)) <==> Kid([step, name], x) in ArrayKids(j, step)
  {
    if j.Arr? {
      if ItemNamed(j.items, 0, name) == Some(x) {
        var i := ItemNamedIs(j.items, 0, name);
        assert ArrayKids(j, step)[i] == Kid([step, name], x);
      }
      if Kid([step, name], x) in ArrayKids(j, step) {
        var i :| 0 <= i < |j.items| && ArrayKids(j, step)[i] == Kid([step, name], x);
        assert [step, name][1] == [step, NatToString(0 + i)][1];
        ItemNamedAt(j.items, 0, i);
      }
    }
  }

  lemma KidGroups(j: Json, k: Kid)
    requires j.Obj?
    ensures var node := j.fields;
            k in Kids(j) <==> || k in ObjectKids(Get(node, "properties"), "properties")
                              || k in SingleKid(Get(node, "items"), "items")
                              || k in ArrayKids(Get(node, "anyOf"), "anyOf")
                              || k in ArrayKids(Get(node, "oneOf"), "oneOf")
                              || k in ArrayKids(Get(node, "allOf"), "allOf")
                              || k in ObjectKids(Definitions(node), "$defs")
  {
  }

  /** A kid is the subschema its own steps name. */
  lemma KidIsChild(j: Json, steps: seq<string>, x: Json)
    requires Proper(j) && j.Obj? && steps != [] && |steps| == StepLength(steps)
    ensures Child(j.fields, steps) == Some(x) <==> Kid(steps, x) in Kids(j)
  {
    var node, k := j.fields, Kid(steps, x);
    KidGroups(j, k);
    if |steps| == 2 {
      var step, name := steps[0], steps[1];
      assert steps == [step, name];
      GetProper(node, "properties");
      GetProper(node, "$defs");
      GetProper(node, "definitions");
      if step == "properties" {
        FieldNamedIffKid(Get(node, "properties"), step, name, x);
      } else if step == "$defs" {
        FieldNamedIffKid(Definitions(node), step, name, x);
      } else if IsCombinator(step) {
        ItemNamedIffKid(Get(node, step), step, name, x);
      }
    } else {
      assert steps == ["items"];
    }
  }

  lemma KidStepLength(j: Json, k: Kid)
    requires k in Kids(j)
    ensures j.Obj? && k.steps != [] && |k.steps| == StepLength(k.steps)
  {
    KidGroups(j, k);
  }

  /** Only the names of the first step matter. */
  lemma ChildOfPrefix(node: seq<Field>, steps: seq<string>, rest: seq<string>)
    requires steps != [] && |steps| == StepLength(steps)
    ensures Child(node, steps + rest) == Child(node, steps) && StepLength(steps + rest) == |steps|
  {
    assert forall i :: 0 <= i < |steps| ==> (steps + rest)[i] == steps[i];
  }

  lemma NavigateKid(j: Json, k: Kid, rest: seq<string>)
    requires Proper(j) && k in Kids(j)
    ensures Navigate(j, k.steps + rest) == Navigate(k.node, rest)
  {
    KidStepLength(j, k);
    KidIsChild(j, k.steps, k.node);
    ChildOfPrefix(j.fields, k.steps, rest);
    assert (k.steps + rest)[|k.steps|..] == rest;
  }

  lemma {:induction false} VisitKidsMembers(kids: seq<Kid>, bound: nat, v: Visit)
    requires AllSmaller(kids, bound)
    ensures v in VisitKids(kids, bound) <==>
            exists k :: k in kids && k.steps <= v.path && Visit(v.path[|k.steps|..], v.node) in Visits(k.node)
  {
    if kids != [] {
      var head, tail := kids[0], kids[1..];
      VisitKidsMembers(tail, bound, v);
      PrefixedMembers(head.steps, Visits(head.node), v);
      assert kids == [head] + tail;
    }
  }

  lemma PrefixedMembers(steps: seq<string>, visits: seq<Visit>, v: Visit)
    ensures v in Prefixed(steps, visits) <==> steps <= v.path && Visit(v.path[|steps|..], v.node) in visits
  {
    var p := Prefixed(steps, visits);
    if v in p {
      var i :| 0 <= i < |p| && p[i] == v;
      assert (steps + visits[i].path)[|steps|..] == visits[i].path;
      assert visits[i] in visits;
    }
    if steps <= v.path && Visit(v.path[|steps|..], v.node) in visits {
      var i :| 0 <= i < |visits| && visits[i] == Visit(v.path[|steps|..], v.node);
      assert steps + visits[i].path == v.path;
      assert p[i] == v;
    }
  }

  lemma ProperKid(j: Json, k: Kid)
    requires Proper(j) && k in Kids(j)
    ensures Proper(k.node)
  {
    KidGroups(j, k);
    var node := j.fields;
    GetProper(node, "properties");
    GetProper(node, "items");
    GetProper(node, "anyOf");
    GetProper(node, "oneOf");
    GetProper(node, "allOf");
    GetProper(node, "$defs");
    GetProper(node, "definitions");
  }

  ghost predicate ReachedThrough(j: Json, v: Visit, k: Kid) {
    k in Kids(j) && k.steps <= v.path && Visit(v.path[|k.steps|..], v.node) in Visits(k.node)
  }

  lemma VisitsMembers(j: Json, v: Visit)
    ensures v in Visits(j) <==> v == Visit([], j) || exists k :: ReachedThrough(j, v, k)
  {
    KidsSmaller(j);
    VisitKidsMembers(Kids(j), Size(j), v);
    assert v in Visits(j) <==> v == Visit([], j) || v in VisitKids(Kids(j), Size(j));
    if v in VisitKids(Kids(j), Size(j)) {
      var k :| k in Kids(j) && k.steps <= v.path && Visit(v.path[|k.steps|..], v.node) in Visits(k.node);
      assert ReachedThrough(j, v, k);
    }
  }

  /** The traversal visits exactly the nodes that paths lead to, each with its path. */
  lemma {:induction false} VisitedIffReachable(j: Json, v: Visit)
    requires Proper(j)
    ensures v in Visits(j) <==> Navigate(j, v.path) == Some(v.node)
    decreases Size(j), 1
  {
    VisitsMembers(j, v);
    if k :| ReachedThrough(j, v, k) {
      ThroughKid(j, v, k);
    }
    if v.path != [] && Navigate(j, v.path) == Some(v.node) {
      NavigatedIsVisited(j, v);
    }
  }

  lemma {:induction false} ThroughKid(j: Json, v: Visit, k: Kid)
    requires Proper(j) && ReachedThrough(j, v, k)
    ensures Navigate(j, v.path) == Some(v.node)
    decreases Size(j), 0
  {
    var rest := v.path[|k.steps|..];
    KidFacts(j, k);
    VisitedIffReachable(k.node, Visit(rest, v.node));
    NavigateThrough(j, k, v.path);
  }

  lemma KidFacts(j: Json, k: Kid)
    requires Proper(j) && k in Kids(j)
    ensures Size(k.node) < Size(j) && Proper(k.node)
  {
    KidsSmaller(j);
    ProperKid(j, k);
  }

  lemma NavigateThrough(j: Json, k: Kid, path: seq<string>)
    requires Proper(j) && k in Kids(j) && k.steps <= path
    ensures Navigate(j, path) == Navigate(k.node, path[|k.steps|..])
  {
    SplitPath(k.steps, path);
    NavigateKid(j, k, path[|k.steps|..]);
  }

  lemma SplitPath(steps: seq<string>, path: seq<string>)
    requires steps <= path
    ensures steps + path[|steps|..] == path
  {
  }

  lemma {:induction false} NavigatedIsVisited(j: Json, v: Visit)
    requires Proper(j) && v.path != [] && Navigate(j, v.path) == Some(v.node)
    ensures exists k :: ReachedThrough(j, v, k)
    decreases Size(j), 0
  {
    var n := StepLength(v.path);
    var steps, rest := v.path[..n], v.path[n..];
    var k := Kid(steps, Child(j.fields, v.path).value);
    assert steps + rest == v.path;
    ChildOfPrefix(j.fields, steps, rest);
    KidIsChild(j, steps, k.node);
    KidFacts(j, k);
    VisitedIffReachable(k.node, Visit(rest, v.node));
    assert ReachedThrough(j, v, k);
  }

  // ---- The result ----

  lemma {:induction false} FirstBrokenIs(visits: seq<Visit>)
    ensures FirstBroken(visits).None? <==> forall i :: 0 <= i < |visits| ==> RuleBroken(visits[i].node).None?
    ensures FirstBroken(visits).Some? ==> exists i :: IsFirstBroken(visits, i, FirstBroken(visits).value)
  {
    if visits != [] {
      FirstBrokenIs(visits[1..]);
      assert visits == [visits[0]] + visits[1..];
      if RuleBroken(visits[0].node).Some? {
        assert IsFirstBroken(visits, 0, FirstBroken(visits).value);
      } else if FirstBroken(visits).Some? {
        var i :| IsFirstBroken(visits[1..], i, FirstBroken(visits).value);
        assert IsFirstBroken(visits, i + 1, FirstBroken(visits).value);
      }
    }
  }

  /** Visit `i` is the first to break a rule, and `v` says so. */
  ghost predicate IsFirstBroken(visits: seq<Visit>, i: int, v: Violation) {
    && 0 <= i < |visits|
    && v.path == visits[i].path && RuleBroken(visits[i].node) == Some(v.reason)
    && forall k :: 0 <= k < i ==> RuleBroken(visits[k].node).None?
  }

  /** Nothing is reported exactly when every reachable subschema keeps the rules. */
  lemma NoViolationIffAllKeepRules(j: Json)
    requires Proper(j)
    ensures FindViolation(j, []).None? <==>
            forall path :: Navigate(j, path).Some? ==> KeepsRules(Navigate(j, path).value)
  {
    WalkerFindsFirst(j, []);
    var visits := Visits(j);
    FirstBrokenIs(visits);
    if FirstBroken(visits).None? {
      forall path | Navigate(j, path).Some? ensures KeepsRules(Navigate(j, path).value) {
        var v := Visit(path, Navigate(j, path).value);
        VisitedIffReachable(j, v);
        var i :| 0 <= i < |visits| && visits[i] == v;
        NoRuleBrokenIffKept(v.node);
      }
    } else {
      var i :| IsFirstBroken(visits, i, FirstBroken(visits).value);
      VisitedIffReachable(j, visits[i]);
      assert visits[i] in visits;
      NoRuleBrokenIffKept(visits[i].node);
    }
  }

  /** A reported path leads to a node that breaks the reported rule, and no node visited before it
      breaks any. */
  lemma ViolationIsFirst(j: Json)
    requires Proper(j) && FindViolation(j, []).Some?
    ensures var v := FindViolation(j, []).value;
            && Navigate(j, v.path).Some? && RuleBroken(Navigate(j, v.path).value) == Some(v.reason)
            && exists i :: IsFirstBroken(Visits(j), i, v)
  {
    WalkerFindsFirst(j, []);
    var visits := Visits(j);
    FirstBrokenIs(visits);
    var first := FirstBroken(visits).value;
    assert [] + first.path == first.path;
    var i :| IsFirstBroken(visits, i, first);
    VisitedIffReachable(j, visits[i]);
    assert visits[i] in visits;
  }
}

/**
 * Reading a tool-call event out of a Responses payload
 * (app/core/openai/chat_responses.py, `_tool_call_delta_from_payload` and the helpers it calls).
 */
module ToolCallEvents {
  import opened Wrappers
  import opened JsonValue

  type Payload = seq<Field>

  /** Everything the translator uses of one tool-call event. */
  datatype ToolEvent = ToolEvent(
    outputIndex: Option<int>,
    callId: Option<string>,
    name: Option<string>,
    arguments: Option<string>,
    toolType: Option<string>,
    routingId: Option<string>,  // call id, else item id: what the slot is looked up by
    alias: Option<string>,      // item id recorded beside the call id
    hasItem: bool,
    replace: bool               // a snapshot of the arguments, not a fragment
  )

  predicate NamesTool(v: Json) {
    v.Str? && (Contains(v.s, "tool") || Contains(v.s, "function"))
  }

  predicate ItemIsToolCall(item: Json) {
    item.Obj? && (NamesTool(Get(item.fields, "type"))
                  || HasAnyKey(item.fields, ["call_id", "tool_call_id", "arguments", "function", "name"]))
  }

  predicate IsToolCallEvent(p: Payload) {
    var eventType := Get(p, "type");
    || (eventType.Str? && (Contains(eventType.s, "tool_call") || Contains(eventType.s, "function_call")))
    || ItemIsToolCall(Get(p, "item"))
    || HasAnyKey(p, ["call_id", "tool_call_id"])
    || (HasKey(p, "arguments") && HasAnyKey(p, ["name", "function"]))
  }

  /** The object that carries the call's fields: the item when it is a tool call, else the payload. */
  function Candidate(p: Payload): seq<Field> {
    var item := Get(p, "item");
    if ItemIsToolCall(item) then item.fields else p
  }

  function NestedStr(v: Json, key: string): Option<string> {
    if v.Obj? then FirstStr([Get(v.fields, key)]) else None
  }

  function NestedFunction(v: Json): Json {
    if v.Obj? then Get(v.fields, "function") else Null
  }

  function CallIdOf(c: seq<Field>): (r: Option<string>)
    ensures r.Some? ==> r.value != ""
  {
    var delta := Get(c, "delta");
    OrElse(FirstStr([Get(c, "call_id"), Get(c, "tool_call_id"), Get(c, "id")]),
           if delta.Obj?
           then FirstStr([Get(delta.fields, "id"), Get(delta.fields, "call_id"), Get(delta.fields, "tool_call_id")])
           else None)
  }

  function NameOf(c: seq<Field>): (r: Option<string>)
    ensures r.Some? ==> r.value != ""
  {
    var delta := Get(c, "delta");
    OrElse(FirstStr([Get(c, "name"), Get(c, "tool_name")]),
    OrElse(NestedStr(delta, "name"),
    OrElse(NestedStr(Get(c, "function"), "name"),
           NestedStr(NestedFunction(delta), "name"))))
  }

  /** Arguments may be the empty string, unlike ids and names. */
  function ArgumentsOf(c: seq<Field>): Option<string> {
    var arguments := Get(c, "arguments");
    var delta := Get(c, "delta");
    if arguments.Str? then Some(arguments.s)
    else if delta.Str? then Some(delta.s)
    else if delta.Obj? then
      var nested := Get(delta.fields, "arguments");
      var inner := NestedFunction(delta);
      if nested.Str? then Some(nested.s)
      else if inner.Obj? && Get(inner.fields, "arguments").Str? then Some(Get(inner.fields, "arguments").s)
      else None
    else None
  }

  function ToolTypeOf(c: seq<Field>): (r: Option<string>)
    ensures r.Some? ==> r.value != ""
  {
    match FirstStr([Get(c, "tool_type"), Get(c, "type")])
    case None => None
    case Some(t) =>
      if StartsWith(t, "response.") then None
      else if t == "tool_call" || t == "function_call" then Some("function")
      else Some(t)
  }

  /** Python counts booleans as integers. */
  function OutputIndexOf(p: Payload): Option<int> {
    match Get(p, "output_index")
    case Int(i) => Some(i)
    case Bool(b) => Some(if b then 1 else 0)
    case _ => None
  }

  function AliasOf(p: Payload): (r: Option<string>)
    ensures r.Some? ==> r.value != ""
  {
    var item := Get(p, "item");
    if item.Obj? && Get(item.fields, "id").Str? && Get(item.fields, "id").s != ""
       && Get(item.fields, "id") != Get(item.fields, "call_id")
    then Some(Get(item.fields, "id").s)
    else None
  }

  predicate IsSnapshot(p: Payload) {
    var eventType := Get(p, "type");
    !(eventType.Str? && EndsWith(eventType.s, ".delta"))
  }

  /** The tool-call event in a payload, if it is one and says anything. */
  function ToolEventOf(p: Payload): (r: Option<ToolEvent>)
    ensures r.Some? ==> (r.value.callId.Some? ==> r.value.callId.value != "")
                        && (r.value.name.Some? ==> r.value.name.value != "")
                        && (r.value.toolType.Some? ==> r.value.toolType.value != "")
  {
    var c := Candidate(p);
    var callId, name, arguments := CallIdOf(c), NameOf(c), ArgumentsOf(c);
    var item := Get(p, "item");
    if !IsToolCallEvent(p) || (callId.None? && name.None? && arguments.None?) then None
    else Some(ToolEvent(
      OutputIndexOf(p), callId, name, arguments, ToolTypeOf(c),
      OrElse(callId, FirstStr([Get(p, "item_id"), if item.Obj? then Get(item.fields, "id") else Null])),
      AliasOf(p), item.Obj?, IsSnapshot(p)))
  }

  // ---- Where an event is read from ----

  /** What each path leads to, in turn. */
  function Along(c: seq<Field>, paths: seq<seq<string>>): (r: seq<Json>)
    ensures |r| == |paths| && forall i :: 0 <= i < |r| ==> r[i] == At(Obj(c), paths[i])
  {
    seq(|paths|, i requires 0 <= i < |paths| => At(Obj(c), paths[i]))
  }

  const CallIdPaths := [["call_id"], ["tool_call_id"], ["id"], ["delta", "id"], ["delta", "call_id"], ["delta", "tool_call_id"]]
  const NamePaths := [["name"], ["tool_name"], ["delta", "name"], ["function", "name"], ["delta", "function", "name"]]
  const ArgumentsPaths := [["arguments"], ["delta"], ["delta", "arguments"], ["delta", "function", "arguments"]]

  /** `x` is the first of the values that is a non-empty string; None when none is. */
  ghost predicate IsFirstStr(values: seq<Json>, x: Option<string>) {
    match x
    case None => forall i :: 0 <= i < |values| ==> !values[i].Str? || values[i].s == ""
    case Some(t) => exists i :: 0 <= i < |values| && FirstStrAt(values, t, i)
  }

  ghost predicate FirstStrAt(values: seq<Json>, t: string, i: nat)
    requires i < |values|
  {
    t != "" && values[i] == Str(t) && forall j :: 0 <= j < i ==> !values[j].Str? || values[j].s == ""
  }

  /** `x` is the first of the values that is a string, empty or not. */
  ghost predicate IsFirstText(values: seq<Json>, x: Option<string>) {
    match x
    case None => forall i :: 0 <= i < |values| ==> !values[i].Str?
    case Some(t) => exists i :: 0 <= i < |values| && values[i] == Str(t) && forall j :: 0 <= j < i ==> !values[j].Str?
  }

  lemma {:induction false} FirstStrMeaning(values: seq<Json>)
    ensures IsFirstStr(values, FirstStr(values))
  {
    if values != [] {
      if values[0].Str? && values[0].s != "" {
        assert FirstStrAt(values, values[0].s, 0);
      } else {
        FirstStrMeaning(values[1..]);
        if FirstStr(values[1..]).Some? {
          var t := FirstStr(values[1..]).value;
          var i :| 0 <= i < |values[1..]| && FirstStrAt(values[1..], t, i);
          assert forall j :: 0 < j < |values| ==> values[j] == values[1..][j - 1];
          assert FirstStrAt(values, t, i + 1);
        } else {
          assert forall j :: 0 < j < |values| ==> values[j] == values[1..][j - 1];
        }
      }
    }
  }

  lemma {:induction false} FirstStrAppend(a: seq<Json>, b: seq<Json>)
    ensures FirstStr(a + b) == OrElse(FirstStr(a), FirstStr(b))
  {
    if a == [] {
      assert a + b == b;
    } else {
      assert (a + b)[0] == a[0] && (a + b)[1..] == a[1..] + b;
      FirstStrAppend(a[1..], b);
    }
  }

  /** A key below another key. */
  lemma Below(c: seq<Field>, a: string, b: string)
    ensures At(Obj(c), [a]) == Get(c, a)
    ensures At(Obj(c), [a, b]) == if Get(c, a).Obj? then Get(Get(c, a).fields, b) else Null
  {
    AtOne(Obj(c), a);
    AtTwo(Obj(c), a, b);
    AtOne(Get(c, a), b);
  }

  lemma DeltaFunction(c: seq<Field>, key: string)
    ensures var inner := NestedFunction(Get(c, "delta"));
            At(Obj(c), ["delta", "function", key]) == if inner.Obj? then Get(inner.fields, key) else Null
  {
    Below(c, "delta", "function");
    AtThree(Obj(c), "delta", "function", key);
    AtOne(At(Obj(c), ["delta", "function"]), key);
  }

  /** The call id is the first that is given on these paths. */
  lemma CallIdByPath(c: seq<Field>)
    ensures IsFirstStr(Along(c, CallIdPaths), CallIdOf(c))
  {
    Below(c, "call_id", "");
    Below(c, "tool_call_id", "");
    Below(c, "id", "");
    Below(c, "delta", "id");
    Below(c, "delta", "call_id");
    Below(c, "delta", "tool_call_id");
    var own := [Get(c, "call_id"), Get(c, "tool_call_id"), Get(c, "id")];
    var delta := Get(c, "delta");
    var nested := if delta.Obj? then [Get(delta.fields, "id"), Get(delta.fields, "call_id"), Get(delta.fields, "tool_call_id")]
                  else [Null, Null, Null];
    assert Along(c, CallIdPaths) == own + nested;
    FirstStrAppend(own, nested);
    if !delta.Obj? {
      FirstOfBlank(nested);
    }
    FirstStrMeaning(own + nested);
  }

  lemma FirstStrSingle(v: Json)
    ensures FirstStr([v]) == if v.Str? && v.s != "" then Some(v.s) else None
  {
    assert [v][1..] == [];
  }

  /** The name is the first that is given on these paths. */
  lemma NameByPath(c: seq<Field>)
    ensures IsFirstStr(Along(c, NamePaths), NameOf(c))
  {
    var delta := Get(c, "delta");
    Below(c, "name", "");
    Below(c, "tool_name", "");
    Below(c, "delta", "name");
    Below(c, "function", "name");
    DeltaFunction(c, "name");
    var own := [Get(c, "name"), Get(c, "tool_name")];
    var x, y, z := At(Obj(c), ["delta", "name"]), At(Obj(c), ["function", "name"]), At(Obj(c), ["delta", "function", "name"]);
    assert Along(c, NamePaths) == own + ([x] + ([y] + [z]));
    FirstStrAppend(own, [x] + ([y] + [z]));
    FirstStrAppend([x], [y] + [z]);
    FirstStrAppend([y], [z]);
    FirstStrSingle(x);
    FirstStrSingle(y);
    FirstStrSingle(z);
    FirstStrMeaning(own + ([x] + ([y] + [z])));
  }

  /** The arguments are the first text on these paths, empty or not. */
  lemma ArgumentsByPath(c: seq<Field>)
    ensures IsFirstText(Along(c, ArgumentsPaths), ArgumentsOf(c))
  {
    Below(c, "arguments", "");
    Below(c, "delta", "arguments");
    DeltaFunction(c, "arguments");
    var values := Along(c, ArgumentsPaths);
    assert values[0] == Get(c, "arguments") && values[1] == Get(c, "delta");
    assert values[2] == At(Obj(c), ["delta", "arguments"]) && values[3] == At(Obj(c), ["delta", "function", "arguments"]);
  }

  ghost predicate TypeOccurs(p: seq<Field>, sub: string) {
    Get(p, "type").Str? && OccursIn(sub, Get(p, "type").s)
  }

  /** An output item that is a tool call, by its type or by a field only a tool call has. */
  ghost predicate ToolItem(item: Json) {
    item.Obj? && (TypeOccurs(item.fields, "tool") || TypeOccurs(item.fields, "function")
                  || HasKey(item.fields, "call_id") || HasKey(item.fields, "tool_call_id") || HasKey(item.fields, "arguments")
                  || HasKey(item.fields, "function") || HasKey(item.fields, "name"))
  }

  /** A payload about a tool call: by its type, its item, or the fields it has. */
  ghost predicate AboutTool(p: Payload) {
    TypeOccurs(p, "tool_call") || TypeOccurs(p, "function_call") || ToolItem(Get(p, "item"))
    || HasKey(p, "call_id") || HasKey(p, "tool_call_id")
    || (HasKey(p, "arguments") && (HasKey(p, "name") || HasKey(p, "function")))
  }

  lemma AnyOfFive(fields: seq<Field>, a: string, b: string, c: string, d: string, e: string)
    ensures HasAnyKey(fields, [a, b, c, d, e]) <==>
            HasKey(fields, a) || HasKey(fields, b) || HasKey(fields, c) || HasKey(fields, d) || HasKey(fields, e)
    ensures HasAnyKey(fields, [a, b]) <==> HasKey(fields, a) || HasKey(fields, b)
  {
    assert [a, b, c, d, e][0] == a && [a, b, c, d, e][1] == b && [a, b, c, d, e][2] == c && [a, b, c, d, e][3] == d
           && [a, b, c, d, e][4] == e;
    assert [a, b][0] == a && [a, b][1] == b;
  }

  lemma ToolItemIs(item: Json)
    ensures ItemIsToolCall(item) <==> ToolItem(item)
  {
    if item.Obj? {
      AnyOfFive(item.fields, "call_id", "tool_call_id", "arguments", "function", "name");
      if Get(item.fields, "type").Str? {
        ContainsMeaning(Get(item.fields, "type").s, "tool");
        ContainsMeaning(Get(item.fields, "type").s, "function");
      }
    }
  }

  lemma AboutToolIs(p: Payload)
    ensures IsToolCallEvent(p) <==> AboutTool(p)
  {
    ToolItemIs(Get(p, "item"));
    AnyOfFive(p, "call_id", "tool_call_id", "", "", "");
    AnyOfFive(p, "name", "function", "", "", "");
    if Get(p, "type").Str? {
      ContainsMeaning(Get(p, "type").s, "tool_call");
      ContainsMeaning(Get(p, "type").s, "function_call");
    }
  }

  /** The fields an event is read from: those of a tool item, else the payload's own. */
  ghost function Source(p: Payload): seq<Field> {
    if ToolItem(Get(p, "item")) then Get(p, "item").fields else p
  }

  ghost predicate Says(c: seq<Field>, ev: ToolEvent) {
    && IsFirstStr(Along(c, CallIdPaths), ev.callId) && IsFirstStr(Along(c, NamePaths), ev.name)
    && IsFirstText(Along(c, ArgumentsPaths), ev.arguments)
  }

  /** How the event stands to the rest of the payload: it is routed by the call id, else the item id; the
      item's own id is an alias when it is not the call id; and it is a fragment for a delta type only. */
  ghost predicate Stands(p: Payload, ev: ToolEvent) {
    var item, t := Get(p, "item"), Get(p, "type");
    && (ev.callId.Some? ==> ev.routingId == ev.callId)
    && (ev.callId.None? ==> IsFirstStr([At(Obj(p), ["item_id"]), At(Obj(p), ["item", "id"])], ev.routingId))
    && (ev.hasItem <==> item.Obj?)
    && ev.alias == (if item.Obj? && Get(item.fields, "id").Str? && Get(item.fields, "id").s != ""
                       && Get(item.fields, "id") != Get(item.fields, "call_id")
                    then Some(Get(item.fields, "id").s) else None)
    && (ev.replace <==> !(t.Str? && exists n :: 0 <= n <= |t.s| && t.s[n..] == ".delta"))
    && ev.outputIndex == (match Get(p, "output_index")
                          case Int(i) => Some(i)
                          case Bool(b) => Some(if b then 1 else 0)
                          case _ => None)
  }

  lemma SaysIs(c: seq<Field>, says: ToolEvent)
    requires Says(c, says)
    ensures says.callId == CallIdOf(c) && says.name == NameOf(c) && says.arguments == ArgumentsOf(c)
  {
    CallIdByPath(c);
    NameByPath(c);
    ArgumentsByPath(c);
    FirstStrUnique(Along(c, CallIdPaths), says.callId, CallIdOf(c));
    FirstStrUnique(Along(c, NamePaths), says.name, NameOf(c));
    FirstTextUnique(Along(c, ArgumentsPaths), says.arguments, ArgumentsOf(c));
  }

  lemma EventStands(p: Payload)
    requires ToolEventOf(p).Some?
    ensures Stands(p, ToolEventOf(p).value)
  {
    Below(p, "item_id", "");
    Below(p, "item", "id");
    FirstStrMeaning([Get(p, "item_id"), if Get(p, "item").Obj? then Get(Get(p, "item").fields, "id") else Null]);
    if Get(p, "type").Str? {
      EndsWithMeaning(Get(p, "type").s, ".delta");
    }
  }

  /** A payload gives an event exactly when it is about a tool call and says an id, a name or arguments;
      the event has what the paths lead to, and stands to the payload as told above. */
  lemma ToolEventMeaning(p: Payload, says: ToolEvent)
    requires Says(Source(p), says)
    ensures ToolEventOf(p).Some? <==> AboutTool(p) && (says.callId.Some? || says.name.Some? || says.arguments.Some?)
    ensures ToolEventOf(p).Some? ==>
              var ev := ToolEventOf(p).value;
              ev.callId == says.callId && ev.name == says.name && ev.arguments == says.arguments && Stands(p, ev)
  {
    AboutToolIs(p);
    ToolItemIs(Get(p, "item"));
    SaysIs(Candidate(p), says);
    if ToolEventOf(p).Some? {
      EventStands(p);
    }
  }

  lemma FirstTextUnique(values: seq<Json>, x: Option<string>, y: Option<string>)
    requires IsFirstText(values, x) && IsFirstText(values, y)
    ensures x == y
  {
    if x.Some? && y.Some? {
      var i :| 0 <= i < |values| && values[i] == Str(x.value) && forall j :: 0 <= j < i ==> !values[j].Str?;
      var k :| 0 <= k < |values| && values[k] == Str(y.value) && forall j :: 0 <= j < k ==> !values[j].Str?;
      assert i == k;
    }
  }

  lemma FirstStrUnique(values: seq<Json>, x: Option<string>, y: Option<string>)
    requires IsFirstStr(values, x) && IsFirstStr(values, y)
    ensures x == y
  {
    if x.Some? && y.Some? {
      var i :| 0 <= i < |values| && FirstStrAt(values, x.value, i);
      var j :| 0 <= j < |values| && FirstStrAt(values, y.value, j);
      assert i == j;
    }
  }

  /** The type is that of the call, under its usual name, and not that of the event. */
  lemma ToolTypeMeaning(c: seq<Field>, t: string)
    requires IsFirstStr([Get(c, "tool_type"), Get(c, "type")], Some(t))
    ensures ToolTypeOf(c) == if |t| >= 9 && t[..9] == "response." then None
                             else if t == "tool_call" || t == "function_call" then Some("function") else Some(t)
  {
    var values := [Get(c, "tool_type"), Get(c, "type")];
    FirstStrMeaning(values);
    FirstStrUnique(values, Some(t), FirstStr(values));
  }

  // ---- The documented event shapes, whatever other fields the payload has ----

  /** Absent, not a string, or empty: nothing to identify a call by. */
  predicate Blank(v: Json) {
    !v.Str? || v.s == ""
  }

  lemma {:induction false} FirstOfBlank(values: seq<Json>)
    requires forall i :: 0 <= i < |values| ==> Blank(values[i])
    ensures FirstStr(values).None?
  {
    if values != [] {
      FirstOfBlank(values[1..]);
    }
  }

  lemma SecondStr(first: Json, second: string)
    requires Blank(first) && second != ""
    ensures FirstStr([first, Str(second)]) == Some(second)
  {
    assert [first, Str(second)][1..] == [Str(second)];
  }

  /** An arguments delta: a piece of text and an item id, but no item, call id or name. */
  predicate IsFragment(p: Payload, kind: string, itemId: string, text: string) {
    && Get(p, "type") == Str(kind)
    && Contains(kind, "function_call") && StartsWith(kind, "response.") && EndsWith(kind, ".delta")
    && Get(p, "item_id") == Str(itemId) && itemId != "" && Get(p, "delta") == Str(text)
    && !Get(p, "item").Obj? && !Get(p, "arguments").Str? && !Get(p, "function").Obj? && Blank(Get(p, "tool_type"))
    && Blank(Get(p, "call_id")) && Blank(Get(p, "tool_call_id")) && Blank(Get(p, "id"))
    && Blank(Get(p, "name")) && Blank(Get(p, "tool_name"))
  }

  lemma BareDelta(p: Payload, kind: string, itemId: string, text: string)
    requires IsFragment(p, kind, itemId, text)
    ensures CallIdOf(p).None? && NameOf(p).None? && ArgumentsOf(p) == Some(text) && ToolTypeOf(p).None?
  {
    FirstOfBlank([Get(p, "call_id"), Get(p, "tool_call_id"), Get(p, "id")]);
    FirstOfBlank([Get(p, "name"), Get(p, "tool_name")]);
    assert kind != "";
    SecondStr(Get(p, "tool_type"), kind);
  }

  /** An arguments delta is a fragment for the call whose item id it carries; it has no call id. */
  lemma FragmentRead(p: Payload, kind: string, itemId: string, text: string)
    requires IsFragment(p, kind, itemId, text)
    ensures ToolEventOf(p) ==
            Some(ToolEvent(OutputIndexOf(p), None, None, Some(text), None, Some(itemId), None, false, false))
  {
    BareDelta(p, kind, itemId, text);
    assert Candidate(p) == p;
    assert FirstStr([Str(itemId), Null]) == Some(itemId);
  }

  /** An output item that is a function call with all its fields. */
  predicate IsFunctionCall(item: seq<Field>, id: string, callId: string, name: string, arguments: string) {
    && Get(item, "type") == Str("function_call") && Blank(Get(item, "tool_type"))
    && Get(item, "id") == Str(id) && Get(item, "call_id") == Str(callId) && Get(item, "name") == Str(name)
    && Get(item, "arguments") == Str(arguments)
    && id != "" && callId != "" && name != ""
  }

  lemma FunctionCallType(c: seq<Field>)
    requires Blank(Get(c, "tool_type")) && Get(c, "type") == Str("function_call")
    ensures ToolTypeOf(c) == Some("function") && NamesTool(Get(c, "type"))
  {
    SecondStr(Get(c, "tool_type"), "function_call");
    assert "function_call"[0] != "response."[0];
    assert "function" <= "function_call";
  }

  /** An output item is a snapshot under its call id; its item id becomes an alias when it differs. */
  lemma ItemRead(p: Payload, item: seq<Field>, id: string, callId: string, name: string, arguments: string)
    requires Get(p, "item") == Obj(item) && IsFunctionCall(item, id, callId, name, arguments)
    requires Get(p, "type").Str? ==> !EndsWith(Get(p, "type").s, ".delta")
    ensures ToolEventOf(p) ==
            Some(ToolEvent(OutputIndexOf(p), Some(callId), Some(name), Some(arguments), Some("function"), Some(callId),
                           if id != callId then Some(id) else None, true, true))
  {
    FunctionCallType(item);
    assert Candidate(p) == item && IsToolCallEvent(p);
  }
}

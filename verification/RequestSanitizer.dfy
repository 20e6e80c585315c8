/**
 * Cleaning the input items of a request (app/core/openai/requests.py, `_sanitize_input_items` and its
 * helpers): reasoning fields and parts are dropped, assistant and tool items put into one shape.
 * JSON printing is outside the model and passed in as `dump`.
 */
module RequestSanitizer {
  import opened Wrappers
  import opened JsonValue
  import opened CanonicalTools

  const ReasoningKeys: set<string> := {"reasoning_content", "reasoning_details", "tool_calls", "function_call"}
  const ReasoningTypes: set<string> := {"reasoning", "reasoning_content", "reasoning_details"}
  const AssistantTextTypes: set<string> := {"text", "input_text", "output_text"}
  const ToolTextTypes: set<string> := {"text", "input_text", "output_text", "refusal"}

  type Printer = Json -> string

  /** The error for a tool item without a call id. */
  datatype SanitizeError = MissingToolCallId

  // ---- Dropping reasoning.  Null stands for None: dropped. ----

  function DropKeys(fields: seq<Field>): seq<Field> {
    if fields == [] then []
    else if fields[0].key in ReasoningKeys then DropKeys(fields[1..])
    else [fields[0]] + DropKeys(fields[1..])
  }

  predicate IsReasoningPart(fields: seq<Field>) {
    Get(fields, "type").Str? && Get(fields, "type").s in ReasoningTypes
  }

  function SanitizePart(part: Json): Json {
    if !part.Obj? then part
    else if IsReasoningPart(part.fields) then Null
    else Obj(DropKeys(part.fields))
  }

  function SanitizeParts(parts: seq<Json>): seq<Json> {
    if parts == [] then []
    else SanitizeParts(parts[..|parts| - 1]) +
         if SanitizePart(parts[|parts| - 1]).Null? then [] else [SanitizePart(parts[|parts| - 1])]
  }

  function SanitizeContent(content: Json): Json {
    if content.Arr? then Arr(SanitizeParts(content.items)) else SanitizePart(content)
  }

  function SanitizeField(f: Field): seq<Field> {
    if f.key in ReasoningKeys then []
    else if f.key == "content" then
      if SanitizeContent(f.value).Null? then [] else [Field("content", SanitizeContent(f.value))]
    else [f]
  }

  function SanitizeFields(fields: seq<Field>): seq<Field> {
    if fields == [] then [] else SanitizeFields(fields[..|fields| - 1]) + SanitizeField(fields[|fields| - 1])
  }

  function SanitizeItem(item: Json): Json {
    if item.Obj? then Obj(SanitizeFields(item.fields)) else item
  }

  // ---- One shape for assistant and tool items ----

  function TextOf(part: Json, allowed: set<string>): Option<string> {
    if !part.Obj? then None
    else
      var kind, text, refusal := Get(part.fields, "type"), Get(part.fields, "text"), Get(part.fields, "refusal");
      if ((kind.Str? && kind.s in allowed) || kind.Null?) && text.Str? then Some(text.s)
      else if kind == Str("refusal") && refusal.Str? then Some(refusal.s)
      else None
  }

  function OutputText(s: string): Json {
    Obj([Field("type", Str("output_text")), Field("text", Str(s))])
  }

  function NormalizePart(part: Json): Json {
    if part.Str? then OutputText(part.s)
    else match TextOf(part, AssistantTextTypes)
      case Some(text) => OutputText(text)
      case None => part
  }

  function NormalizeParts(parts: seq<Json>): (r: seq<Json>)
    ensures |r| == |parts| && forall i :: 0 <= i < |r| ==> r[i] == NormalizePart(parts[i])
  {
    seq(|parts|, i requires 0 <= i < |parts| => NormalizePart(parts[i]))
  }

  function NormalizeContent(content: Json): Json {
    match content
    case Str(s) => Arr([OutputText(s)])
    case Arr(items) => Arr(NormalizeParts(items))
    case Obj(_) => Arr([NormalizePart(content)])
    case _ => content
  }

  function Put(fields: seq<Field>, key: string, value: Json): seq<Field> {
    if fields == [] then [Field(key, value)]
    else if fields[0].key == key then [Field(key, value)] + fields[1..]
    else [fields[0]] + Put(fields[1..], key, value)
  }

  /** Equality of values ignores key order; an unchanged item is left as it is. */
  function NormalizeAssistant(fields: seq<Field>): Json {
    var content := Get(fields, "content");
    var normalized := NormalizeContent(content);
    if MeaningOf(normalized) == MeaningOf(content) then Obj(fields) else Obj(Put(fields, "content", normalized))
  }

  function PartText(part: Json): Option<string> {
    if part.Str? then Some(part.s) else TextOf(part, ToolTextTypes)
  }

  function ToolTexts(parts: seq<Json>): seq<string> {
    if parts == [] then []
    else
      var text := PartText(parts[|parts| - 1]);
      ToolTexts(parts[..|parts| - 1]) + if text.Some? then [text.value] else []
  }

  function Join(texts: seq<string>): string {
    if texts == [] then "" else texts[0] + Join(texts[1..])
  }

  function ToolOutput(content: Json, dump: Printer): string {
    match content
    case Null => ""
    case Str(s) => s
    case Arr(items) => if ToolTexts(items) != [] then Join(ToolTexts(items)) else dump(content)
    case Obj(_) => TextOf(content, ToolTextTypes).GetOr(dump(content))
    case _ => dump(content)
  }

  function CallIdOf(fields: seq<Field>): Option<string> {
    FirstStr([Get(fields, "tool_call_id"), Get(fields, "toolCallId"), Get(fields, "call_id")])
  }

  function NormalizeTool(fields: seq<Field>, dump: Printer): Result<Json, SanitizeError> {
    match CallIdOf(fields)
    case None => Err(MissingToolCallId)
    case Some(callId) =>
      var output := if Get(fields, "output").Null? then Get(fields, "content") else Get(fields, "output");
      Ok(Obj([Field("type", Str("function_call_output")), Field("call_id", Str(callId)),
              Field("output", Str(ToolOutput(output, dump)))]))
  }

  function NormalizeRole(item: Json, dump: Printer): Result<Json, SanitizeError> {
    if !item.Obj? then Ok(item)
    else
      var role := Get(item.fields, "role");
      if role == Str("assistant") then Ok(NormalizeAssistant(item.fields))
      else if role == Str("tool") then NormalizeTool(item.fields, dump)
      else Ok(item)
  }

  /** One item: dropped, rewritten, or refused. */
  function SanitizeOne(item: Json, dump: Printer): Result<seq<Json>, SanitizeError> {
    if SanitizeItem(item).Null? then Ok([])
    else match NormalizeRole(SanitizeItem(item), dump)
      case Ok(v) => Ok([v])
      case Err(e) => Err(e)
  }

  function Sanitize(items: seq<Json>, dump: Printer): Result<seq<Json>, SanitizeError> {
    if items == [] then Ok([])
    else match Sanitize(items[..|items| - 1], dump)
      case Err(e) => Err(e)
      case Ok(done) =>
        match SanitizeOne(items[|items| - 1], dump)
        case Err(e) => Err(e)
        case Ok(more) => Ok(done + more)
  }

  // ---- Cleaning twice is cleaning once ----

  lemma {:induction false} DropKeysIdempotent(fields: seq<Field>)
    ensures DropKeys(DropKeys(fields)) == DropKeys(fields)
  {
    if fields != [] {
      DropKeysIdempotent(fields[1..]);
      if fields[0].key !in ReasoningKeys {
        assert DropKeys(fields)[1..] == DropKeys(fields[1..]);
      }
    }
  }

  lemma {:induction false} DropKeysGet(fields: seq<Field>, key: string)
    requires key !in ReasoningKeys
    ensures Get(DropKeys(fields), key) == Get(fields, key)
  {
    if fields != [] {
      DropKeysGet(fields[1..], key);
      if fields[0].key !in ReasoningKeys {
        assert DropKeys(fields)[1..] == DropKeys(fields[1..]);
      }
    }
  }

  lemma PartIdempotent(part: Json)
    ensures !SanitizePart(part).Null? ==> SanitizePart(SanitizePart(part)) == SanitizePart(part)
  {
    if part.Obj? {
      DropKeysIdempotent(part.fields);
      DropKeysGet(part.fields, "type");
    }
  }

  /** Parts that sanitising keeps as they are. */
  predicate CleanParts(parts: seq<Json>) {
    forall i :: 0 <= i < |parts| ==> !parts[i].Null? && SanitizePart(parts[i]) == parts[i]
  }

  lemma {:induction false} PartsClean(parts: seq<Json>)
    ensures CleanParts(SanitizeParts(parts))
  {
    if parts != [] {
      PartsClean(parts[..|parts| - 1]);
      PartIdempotent(parts[|parts| - 1]);
    }
  }

  lemma {:induction false} CleanPartsKept(parts: seq<Json>)
    requires CleanParts(parts)
    ensures SanitizeParts(parts) == parts
  {
    if parts != [] {
      CleanPartsKept(parts[..|parts| - 1]);
    }
  }

  /** Content that sanitising keeps as it is. */
  predicate CleanContent(content: Json) {
    !content.Null? && SanitizeContent(content) == content
  }

  lemma ContentIdempotent(content: Json)
    ensures !SanitizeContent(content).Null? ==> CleanContent(SanitizeContent(content))
  {
    if content.Arr? {
      PartsClean(content.items);
      CleanPartsKept(SanitizeParts(content.items));
    } else {
      PartIdempotent(content);
    }
  }

  /** Fields that sanitising keeps as they are. */
  predicate CleanFields(fields: seq<Field>) {
    forall i :: 0 <= i < |fields| ==>
      fields[i].key !in ReasoningKeys && (fields[i].key == "content" ==> CleanContent(fields[i].value))
  }

  lemma {:induction false} FieldsClean(fields: seq<Field>)
    ensures CleanFields(SanitizeFields(fields))
  {
    if fields != [] {
      FieldsClean(fields[..|fields| - 1]);
      ContentIdempotent(fields[|fields| - 1].value);
    }
  }

  lemma {:induction false} CleanFieldsKept(fields: seq<Field>)
    requires CleanFields(fields)
    ensures SanitizeFields(fields) == fields
  {
    if fields != [] {
      CleanFieldsKept(fields[..|fields| - 1]);
      assert fields == fields[..|fields| - 1] + [fields[|fields| - 1]];
    }
  }

  lemma NormalizePartIdempotent(part: Json)
    ensures NormalizePart(NormalizePart(part)) == NormalizePart(part)
    ensures !part.Null? && SanitizePart(part) == part ==>
              !NormalizePart(part).Null? && SanitizePart(NormalizePart(part)) == NormalizePart(part)
  {
    if NormalizePart(part) != part {
      var text := if part.Str? then part.s else TextOf(part, AssistantTextTypes).value;
      OutputTextClean(text);
    }
  }

  lemma OutputTextClean(s: string)
    ensures SanitizePart(OutputText(s)) == OutputText(s) && NormalizePart(OutputText(s)) == OutputText(s)
  {
    var kind, text := Field("type", Str("output_text")), Field("text", Str(s));
    assert [kind, text][1..] == [text] && [text][1..] == [];
    assert Get([kind, text], "type") == Str("output_text") && Get([text], "text") == Str(s);
    assert DropKeys([text]) == [text] && DropKeys([kind, text]) == [kind, text];
  }

  lemma NormalizedContentClean(content: Json)
    requires CleanContent(content)
    ensures CleanContent(NormalizeContent(content))
    ensures NormalizeContent(NormalizeContent(content)) == NormalizeContent(content)
  {
    match content
    case Str(s) =>
      OutputTextClean(s);
      CleanPartsKept([OutputText(s)]);
    case Arr(items) =>
      PartsClean(items);
      var parts := NormalizeParts(items);
      forall i | 0 <= i < |parts|
        ensures !parts[i].Null? && SanitizePart(parts[i]) == parts[i] && NormalizePart(parts[i]) == parts[i]
      {
        NormalizePartIdempotent(items[i]);
      }
      CleanPartsKept(parts);
      assert NormalizeParts(parts) == parts;
    case Obj(_) =>
      NormalizePartIdempotent(content);
      var parts := [NormalizePart(content)];
      CleanPartsKept(parts);
      assert NormalizeParts(parts) == parts;
    case _ =>
  }

  lemma {:induction false} GetPut(fields: seq<Field>, key: string, value: Json, other: string)
    ensures Get(Put(fields, key, value), other) == if other == key then value else Get(fields, other)
  {
    if fields == [] {
      assert Put(fields, key, value)[1..] == [];
    } else if fields[0].key == key {
      assert Put(fields, key, value)[1..] == fields[1..];
    } else {
      GetPut(fields[1..], key, value, other);
      assert Put(fields, key, value)[1..] == Put(fields[1..], key, value);
    }
  }

  lemma {:induction false} PutClean(fields: seq<Field>, value: Json)
    requires CleanFields(fields) && CleanContent(value)
    ensures CleanFields(Put(fields, "content", value))
  {
    if fields != [] && fields[0].key != "content" {
      PutClean(fields[1..], value);
    }
  }

  lemma {:induction false} GetClean(fields: seq<Field>)
    requires CleanFields(fields)
    ensures Get(fields, "content").Null? || CleanContent(Get(fields, "content"))
  {
    if fields != [] && fields[0].key != "content" {
      GetClean(fields[1..]);
    }
  }

  lemma CleanItemKept(fields: seq<Field>)
    requires CleanFields(fields)
    ensures SanitizeItem(Obj(fields)) == Obj(fields)
  {
    CleanFieldsKept(fields);
  }

  lemma AssistantSettles(fields: seq<Field>, dump: Printer)
    requires CleanFields(fields) && Get(fields, "role") == Str("assistant")
    ensures SanitizeOne(NormalizeAssistant(fields), dump) == Ok([NormalizeAssistant(fields)])
  {
    var content := Get(fields, "content");
    var normalized := NormalizeContent(content);
    GetClean(fields);
    if MeaningOf(normalized) == MeaningOf(content) {
      CleanItemKept(fields);
    } else {
      NormalizedContentClean(content);
      var updated := Put(fields, "content", normalized);
      PutClean(fields, normalized);
      CleanItemKept(updated);
      GetPut(fields, "content", normalized, "content");
      GetPut(fields, "content", normalized, "role");
    }
  }

  lemma ToolSettles(fields: seq<Field>, dump: Printer)
    requires NormalizeTool(fields, dump).Ok?
    ensures SanitizeOne(NormalizeTool(fields, dump).value, dump) == Ok([NormalizeTool(fields, dump).value])
  {
    var out := NormalizeTool(fields, dump).value.fields;
    assert out[1..] == [out[1], out[2]] && [out[1], out[2]][1..] == [out[2]] && [out[2]][1..] == [];
    assert Get([out[2]], "role") == Null && Get([out[1], out[2]], "role") == Null;
    CleanItemKept(out);
  }

  lemma OneSettles(item: Json, dump: Printer)
    requires SanitizeOne(item, dump).Ok?
    ensures Sanitize(SanitizeOne(item, dump).value, dump) == SanitizeOne(item, dump)
  {
    var clean := SanitizeItem(item);
    if !clean.Null? {
      var v := NormalizeRole(clean, dump).value;
      SanitizeSingle(v, dump);
      if clean.Obj? {
        FieldsClean(item.fields);
        if Get(clean.fields, "role") == Str("assistant") {
          AssistantSettles(clean.fields, dump);
        } else if Get(clean.fields, "role") == Str("tool") {
          ToolSettles(clean.fields, dump);
        } else {
          CleanItemKept(clean.fields);
        }
      }
    }
  }

  lemma SanitizeSingle(item: Json, dump: Printer)
    ensures Sanitize([item], dump) == SanitizeOne(item, dump)
  {
    assert [item][..0] == [];
    assert Sanitize([item][..0], dump) == Ok([]);
    if SanitizeOne(item, dump).Ok? {
      assert [] + SanitizeOne(item, dump).value == SanitizeOne(item, dump).value;
    }
  }

  lemma {:induction false} SanitizeAppend(a: seq<Json>, b: seq<Json>, dump: Printer)
    requires Sanitize(a, dump).Ok? && Sanitize(b, dump).Ok?
    ensures Sanitize(a + b, dump) == Ok(Sanitize(a, dump).value + Sanitize(b, dump).value)
  {
    if b == [] {
      assert a + b == a && Sanitize(a, dump).value + [] == Sanitize(a, dump).value;
    } else {
      var init, last := b[..|b| - 1], b[|b| - 1];
      assert (a + b)[..|a + b| - 1] == a + init;
      SanitizeAppend(a, init, dump);
      var x, y, z := Sanitize(a, dump).value, Sanitize(init, dump).value, SanitizeOne(last, dump).value;
      assert x + (y + z) == (x + y) + z;
    }
  }

  /** Sanitising what was sanitised changes nothing, wherever sanitising succeeds. */
  lemma {:induction false} SanitizeIdempotent(items: seq<Json>, dump: Printer)
    requires Sanitize(items, dump).Ok?
    ensures Sanitize(Sanitize(items, dump).value, dump) == Sanitize(items, dump)
  {
    if items != [] {
      var init, last := items[..|items| - 1], items[|items| - 1];
      SanitizeIdempotent(init, dump);
      OneSettles(last, dump);
      SanitizeAppend(Sanitize(init, dump).value, SanitizeOne(last, dump).value, dump);
    }
  }

  // ---- What sanitising achieves, and when it refuses ----

  /** No reasoning key or part is left, no tool item, and assistant content is in its one shape. */
  predicate CleanItem(item: Json) {
    !item.Null? && (item.Obj? ==>
      && CleanFields(item.fields)
      && Get(item.fields, "role") != Str("tool")
      && (Get(item.fields, "role") == Str("assistant") ==>
            MeaningOf(NormalizeContent(Get(item.fields, "content"))) == MeaningOf(Get(item.fields, "content"))))
  }

  lemma OneIsClean(item: Json, dump: Printer)
    requires SanitizeOne(item, dump).Ok?
    ensures forall v :: v in SanitizeOne(item, dump).value ==> CleanItem(v)
  {
    var clean := SanitizeItem(item);
    if clean.Obj? {
      FieldsClean(item.fields);
      var fields := clean.fields;
      if Get(fields, "role") == Str("assistant") {
        GetClean(fields);
        var normalized := NormalizeContent(Get(fields, "content"));
        if MeaningOf(normalized) != MeaningOf(Get(fields, "content")) {
          NormalizedContentClean(Get(fields, "content"));
          PutClean(fields, normalized);
          GetPut(fields, "content", normalized, "content");
          GetPut(fields, "content", normalized, "role");
        }
      } else if Get(fields, "role") == Str("tool") {
        ToolOutputClean(fields, dump);
      }
    }
  }

  lemma ToolOutputClean(fields: seq<Field>, dump: Printer)
    requires NormalizeTool(fields, dump).Ok?
    ensures CleanItem(NormalizeTool(fields, dump).value)
  {
    var out := NormalizeTool(fields, dump).value.fields;
    assert out[1..] == [out[1], out[2]] && [out[1], out[2]][1..] == [out[2]] && [out[2]][1..] == [];
    assert Get([out[2]], "role") == Null && Get([out[1], out[2]], "role") == Null;
  }

  lemma {:induction false} SanitizedIsClean(items: seq<Json>, dump: Printer)
    requires Sanitize(items, dump).Ok?
    ensures forall v :: v in Sanitize(items, dump).value ==> CleanItem(v)
  {
    if items != [] {
      SanitizedIsClean(items[..|items| - 1], dump);
      OneIsClean(items[|items| - 1], dump);
    }
  }

  // ---- What sanitising keeps ----

  function NonNull(items: seq<Json>): seq<Json> {
    if items == [] then []
    else NonNull(items[..|items| - 1]) + if items[|items| - 1].Null? then [] else [items[|items| - 1]]
  }

  /** What comes out is, in order, what each item that is not null becomes by itself. */
  lemma {:induction false} SanitizeDropsOnlyNull(items: seq<Json>, dump: Printer)
    requires Sanitize(items, dump).Ok?
    ensures var out, kept := Sanitize(items, dump).value, NonNull(items);
            |out| == |kept| && forall i :: 0 <= i < |kept| ==> SanitizeOne(kept[i], dump) == Ok([out[i]])
  {
    if items != [] {
      SanitizeDropsOnlyNull(items[..|items| - 1], dump);
    }
  }

  /** An item that is no tool item keeps every field but reasoning and content. */
  lemma ItemKeepsFields(item: Json, dump: Printer, key: string)
    requires item.Obj? && Get(item.fields, "role") != Str("tool") && key !in ReasoningKeys && key != "content"
    ensures var out := SanitizeOne(item, dump);
            out.Ok? && |out.value| == 1 && out.value[0].Obj? && Get(out.value[0].fields, key) == Get(item.fields, key)
  {
    var fields := SanitizeFields(item.fields);
    SanitizeFieldsGet(item.fields, key);
    SanitizeFieldsGet(item.fields, "role");
    GetPut(fields, "content", NormalizeContent(Get(fields, "content")), key);
  }

  /** An item that is no object goes through unchanged. */
  lemma PlainItemKept(item: Json, dump: Printer)
    requires !item.Obj? && !item.Null?
    ensures SanitizeOne(item, dump) == Ok([item])
  {
  }

  /** A part that is no reasoning part keeps every field but reasoning. */
  lemma PartKeepsFields(part: Json, key: string)
    requires part.Obj? && !IsReasoningPart(part.fields) && key !in ReasoningKeys
    ensures SanitizePart(part).Obj? && Get(SanitizePart(part).fields, key) == Get(part.fields, key)
  {
    DropKeysGet(part.fields, key);
  }

  /** Putting an assistant part into its one shape keeps its text. */
  lemma NormalizeKeepsText(part: Json)
    ensures TextOf(NormalizePart(part), AssistantTextTypes) ==
            if part.Str? then Some(part.s) else TextOf(part, AssistantTextTypes)
  {
    if NormalizePart(part) != part {
      var text := if part.Str? then part.s else TextOf(part, AssistantTextTypes).value;
      OutputTextRead(text);
    }
  }

  lemma OutputTextRead(s: string)
    ensures TextOf(OutputText(s), AssistantTextTypes) == Some(s)
  {
    var kind, text := Field("type", Str("output_text")), Field("text", Str(s));
    assert [kind, text][1..] == [text];
    assert Get([kind, text], "type") == Str("output_text") && Get([kind, text], "text") == Str(s);
  }

  predicate ToolWithoutId(item: Json) {
    item.Obj? && Get(item.fields, "role") == Str("tool") && CallIdOf(item.fields).None?
  }

  lemma {:induction false} GetSnoc(fields: seq<Field>, f: Field, key: string)
    ensures Get(fields + [f], key) == if HasKey(fields, key) || f.key != key then Get(fields, key) else f.value
    ensures HasKey(fields + [f], key) <==> HasKey(fields, key) || f.key == key
  {
    assert (fields + [f])[|fields|] == f;
    assert forall i :: 0 <= i < |fields| ==> (fields + [f])[i] == fields[i];
    if fields == [] {
      assert fields + [f] == [f] && [f][1..] == [];
    } else {
      assert (fields + [f])[1..] == fields[1..] + [f];
      GetSnoc(fields[1..], f, key);
      assert HasKey(fields, key) <==> fields[0].key == key || HasKey(fields[1..], key) by {
        assert fields == [fields[0]] + fields[1..];
      }
    }
  }

  lemma {:induction false} SanitizeFieldsGet(fields: seq<Field>, key: string)
    requires key !in ReasoningKeys && key != "content"
    ensures HasKey(SanitizeFields(fields), key) == HasKey(fields, key)
    ensures Get(SanitizeFields(fields), key) == Get(fields, key)
  {
    if fields != [] {
      var init, f := fields[..|fields| - 1], fields[|fields| - 1];
      SanitizeFieldsGet(init, key);
      assert fields == init + [f];
      GetSnoc(init, f, key);
      GetAppend(SanitizeFields(init), SanitizeField(f), key);
    }
  }

  lemma GetAppend(done: seq<Field>, more: seq<Field>, key: string)
    requires |more| <= 1
    ensures Get(done + more, key) ==
            if more == [] || HasKey(done, key) || more[0].key != key then Get(done, key) else more[0].value
    ensures HasKey(done + more, key) <==> HasKey(done, key) || (more != [] && more[0].key == key)
  {
    if more == [] {
      assert done + more == done;
    } else {
      assert done + more == done + [more[0]];
      GetSnoc(done, more[0], key);
    }
  }

  lemma CallIdKept(fields: seq<Field>)
    ensures CallIdOf(SanitizeFields(fields)) == CallIdOf(fields)
  {
    SanitizeFieldsGet(fields, "tool_call_id");
    SanitizeFieldsGet(fields, "toolCallId");
    SanitizeFieldsGet(fields, "call_id");
  }

  lemma OneRefusedIff(item: Json, dump: Printer)
    ensures SanitizeOne(item, dump).Err? <==> ToolWithoutId(item)
  {
    if item.Obj? {
      SanitizeFieldsGet(item.fields, "role");
      CallIdKept(item.fields);
    }
  }

  /** Sanitising refuses exactly when some item is a tool item without a call id. */
  lemma {:induction false} RefusedIffToolWithoutId(items: seq<Json>, dump: Printer)
    ensures Sanitize(items, dump).Err? <==> exists i :: 0 <= i < |items| && ToolWithoutId(items[i])
  {
    if items != [] {
      var init, last := items[..|items| - 1], items[|items| - 1];
      RefusedIffToolWithoutId(init, dump);
      OneRefusedIff(last, dump);
      assert items == init + [last];
      if Sanitize(init, dump).Err? {
        var i :| 0 <= i < |init| && ToolWithoutId(init[i]);
        assert ToolWithoutId(items[i]);
      } else if ToolWithoutId(last) {
        assert ToolWithoutId(items[|items| - 1]);
      }
    }
  }

  // ---- What becomes of a tool item ----

  /** The texts of the parts, one after the other. */
  function Concat(parts: seq<Json>): string {
    if parts == [] then "" else Concat(parts[..|parts| - 1]) + PartText(parts[|parts| - 1]).GetOr("")
  }

  predicate AnyText(parts: seq<Json>) {
    exists i :: 0 <= i < |parts| && PartText(parts[i]).Some?
  }

  lemma {:induction false} JoinSnoc(texts: seq<string>, last: string)
    ensures Join(texts + [last]) == Join(texts) + last
  {
    if texts == [] {
      assert [last][1..] == [] && last + "" == last;
    } else {
      assert (texts + [last])[1..] == texts[1..] + [last];
      JoinSnoc(texts[1..], last);
      assert texts[0] + (Join(texts[1..]) + last) == (texts[0] + Join(texts[1..])) + last;
    }
  }

  lemma AnyTextSnoc(parts: seq<Json>)
    requires parts != []
    ensures AnyText(parts) <==> AnyText(parts[..|parts| - 1]) || PartText(parts[|parts| - 1]).Some?
  {
    var init := parts[..|parts| - 1];
    if AnyText(init) {
      var i :| 0 <= i < |init| && PartText(init[i]).Some?;
      assert PartText(parts[i]).Some?;
    }
  }

  lemma {:induction false} ToolTextsConcat(parts: seq<Json>)
    ensures Join(ToolTexts(parts)) == Concat(parts)
    ensures ToolTexts(parts) != [] <==> AnyText(parts)
  {
    if parts != [] {
      var init, text := parts[..|parts| - 1], PartText(parts[|parts| - 1]);
      ToolTextsConcat(init);
      AnyTextSnoc(parts);
      if text.Some? {
        JoinSnoc(ToolTexts(init), text.value);
      } else {
        assert ToolTexts(init) + [] == ToolTexts(init) && Concat(init) + "" == Concat(init);
      }
    }
  }

  /** A reasoning part has no text, and dropping reasoning keys takes none. */
  lemma PartTextKept(part: Json)
    ensures PartText(SanitizePart(part)) == PartText(part)
  {
    if part.Obj? {
      DropKeysGet(part.fields, "type");
      DropKeysGet(part.fields, "text");
      DropKeysGet(part.fields, "refusal");
    }
  }

  lemma {:induction false} PartTextsKept(parts: seq<Json>)
    ensures Concat(SanitizeParts(parts)) == Concat(parts)
    ensures AnyText(SanitizeParts(parts)) <==> AnyText(parts)
  {
    if parts != [] {
      var init, last := parts[..|parts| - 1], parts[|parts| - 1];
      PartTextsKept(init);
      PartTextKept(last);
      AnyTextSnoc(parts);
      var done, more := SanitizeParts(init), SanitizePart(last);
      if more.Null? {
        assert done + [] == done && Concat(init) + "" == Concat(init);
      } else {
        assert (done + [more])[..|done|] == done;
        AnyTextSnoc(done + [more]);
      }
    }
  }

  /** The text of a tool output; None when it is not text. */
  function TextIn(v: Json): Option<string> {
    match v
    case Null => Some("")
    case Arr(items) => if AnyText(items) then Some(Concat(items)) else None
    case _ => PartText(v)
  }

  lemma ContentTextKept(content: Json)
    ensures TextIn(content).Some? ==> TextIn(SanitizeContent(content)) == TextIn(content)
  {
    if content.Arr? {
      PartTextsKept(content.items);
    } else {
      PartTextKept(content);
    }
  }

  lemma ToolOutputText(v: Json, dump: Printer)
    ensures ToolOutput(v, dump) == TextIn(v).GetOr(dump(v))
  {
    if v.Arr? {
      ToolTextsConcat(v.items);
    }
  }

  lemma ContentOfField(f: Field)
    ensures var more := SanitizeField(f);
            && |more| <= 1 && (f.key != "content" && more != [] ==> more[0].key != "content")
            && (f.key == "content" ==> if more == [] then SanitizeContent(f.value).Null?
                                       else more[0] == Field("content", SanitizeContent(f.value)))
  {
  }

  lemma ContentOfSnoc(init: seq<Field>, f: Field)
    requires Get(SanitizeFields(init), "content") == SanitizeContent(Get(init, "content"))
    requires HasKey(SanitizeFields(init), "content") ==> HasKey(init, "content")
    requires f.key == "content" ==> !HasKey(init, "content")
    ensures Get(SanitizeFields(init) + SanitizeField(f), "content") == SanitizeContent(Get(init + [f], "content"))
    ensures HasKey(SanitizeFields(init) + SanitizeField(f), "content") ==> HasKey(init + [f], "content")
  {
    ContentOfField(f);
    GetSnoc(init, f, "content");
    GetAppend(SanitizeFields(init), SanitizeField(f), "content");
    if f.key == "content" {
      AbsentReadsNull(init, "content");
    }
  }

  lemma {:induction false} ContentGet(fields: seq<Field>)
    requires DistinctKeys(fields)
    ensures Get(SanitizeFields(fields), "content") == SanitizeContent(Get(fields, "content"))
    ensures HasKey(SanitizeFields(fields), "content") ==> HasKey(fields, "content")
  {
    if fields != [] {
      var init, f := fields[..|fields| - 1], fields[|fields| - 1];
      ContentGet(init);
      ContentOfSnoc(init, f);
      assert fields == init + [f];
    }
  }

  lemma {:induction false} AbsentReadsNull(fields: seq<Field>, key: string)
    requires !HasKey(fields, key)
    ensures Get(fields, key).Null?
  {
    if fields != [] {
      assert forall i :: 0 <= i < |fields[1..]| ==> fields[1..][i] == fields[i + 1];
      AbsentReadsNull(fields[1..], key);
    }
  }

  /** A tool item becomes an output under its call id.  The output is the text of its `output`, or
      without one of its `content`, whole even where reasoning is dropped; what has no text is printed. */
  lemma ToolItemMeaning(item: Json, dump: Printer)
    requires item.Obj? && DistinctKeys(item.fields)
    requires Get(item.fields, "role") == Str("tool") && CallIdOf(item.fields).Some?
    ensures var output, content := Get(item.fields, "output"), Get(item.fields, "content");
            var text := TextIn(if output.Null? then content else output);
            var printed := if output.Null? then SanitizeContent(content) else output;
            SanitizeOne(item, dump) ==
            Ok([Obj([Field("type", Str("function_call_output")), Field("call_id", Str(CallIdOf(item.fields).value)),
                     Field("output", Str(if text.Some? then text.value else if printed.Null? then "" else dump(printed)))])])
  {
    var output, content := Get(item.fields, "output"), Get(item.fields, "content");
    SanitizeFieldsGet(item.fields, "role");
    SanitizeFieldsGet(item.fields, "output");
    CallIdKept(item.fields);
    ContentGet(item.fields);
    ContentTextKept(content);
    if TextIn(content).None? && !SanitizeContent(content).Null? {
      PrintedHasNoText(content);
    }
    ToolOutputText(if output.Null? then SanitizeContent(content) else output, dump);
  }

  /** Content without text has none after sanitising, unless nothing is left of it. */
  lemma PrintedHasNoText(content: Json)
    requires TextIn(content).None? && !SanitizeContent(content).Null?
    ensures TextIn(SanitizeContent(content)).None?
  {
    if content.Arr? {
      PartTextsKept(content.items);
    } else {
      PartTextKept(content);
    }
  }

  // ---- The loops ----

  method SanitizeContentLoop(content: Json) returns (r: Json)
    ensures r == SanitizeContent(content)
  {
    if content.Arr? {
      var parts := content.items;
      var kept: seq<Json> := [];
      for k := 0 to |parts|
        invariant kept == SanitizeParts(parts[..k])
      {
        assert parts[..k + 1][..k] == parts[..k];
        var part := SanitizePart(parts[k]);
        if part.Null? {
          continue;
        }
        kept := kept + [part];
      }
      assert parts[..|parts|] == parts;
      return Arr(kept);
    }
    r := SanitizePart(content);
  }

  method SanitizeItemLoop(item: Json) returns (r: Json)
    ensures r == SanitizeItem(item)
  {
    if !item.Obj? {
      return item;
    }
    var fields := item.fields;
    var kept: seq<Field> := [];
    for k := 0 to |fields|
      invariant kept == SanitizeFields(fields[..k])
    {
      assert fields[..k + 1][..k] == fields[..k];
      var f := fields[k];
      if f.key in ReasoningKeys {
        continue;
      }
      if f.key == "content" {
        var content := SanitizeContentLoop(f.value);
        if content.Null? {
          continue;
        }
        kept := kept + [Field("content", content)];
        continue;
      }
      kept := kept + [f];
    }
    assert fields[..|fields|] == fields;
    r := Obj(kept);
  }

  method SanitizeInputItems(items: seq<Json>, dump: Printer) returns (r: Result<seq<Json>, SanitizeError>)
    ensures r == Sanitize(items, dump)
  {
    var done: seq<Json> := [];
    for k := 0 to |items|
      invariant Sanitize(items[..k], dump) == Ok(done)
    {
      assert items[..k + 1][..k] == items[..k];
      var item := SanitizeItemLoop(items[k]);
      if item.Null? {
        assert done + [] == done;
        continue;
      }
      match NormalizeRole(item, dump) {
        case Err(e) =>
          RefusedEarly(items, k + 1, dump);
          return Err(e);
        case Ok(v) =>
          done := done + [v];
      }
    }
    assert items[..|items|] == items;
    r := Ok(done);
  }

  /** Once an item is refused the rest does not matter. */
  lemma {:induction false} RefusedEarly(items: seq<Json>, k: nat, dump: Printer)
    requires k <= |items| && Sanitize(items[..k], dump).Err?
    ensures Sanitize(items, dump) == Sanitize(items[..k], dump)
    decreases |items|
  {
    if k == |items| {
      assert items[..k] == items;
    } else {
      assert items[..|items| - 1][..k] == items[..k];
      RefusedEarly(items[..|items| - 1], k, dump);
    }
  }

  // ---- The payload, updated in place ----

  class RequestPayload {
    var fields: seq<Field>

    constructor (fields: seq<Field>)
      ensures this.fields == fields
    {
      this.fields := fields;
    }

    /** Clean the "input" list, if it is one.  A refusal leaves the payload as it was. */
    method SanitizeInput(dump: Printer) returns (error: Option<SanitizeError>)
      modifies this
      ensures var input := Get(old(fields), "input");
              if !input.Arr? then fields == old(fields) && error.None?
              else match Sanitize(input.items, dump)
                   case Err(e) => fields == old(fields) && error == Some(e)
                   case Ok(items) => fields == Put(old(fields), "input", Arr(items)) && error.None?
    {
      var input := Get(fields, "input");
      if !input.Arr? {
        return None;
      }
      var cleaned := SanitizeInputItems(input.items, dump);
      match cleaned
      case Err(e) =>
        return Some(e);
      case Ok(items) =>
        fields := Put(fields, "input", Arr(items));
        return None;
    }

    /** Put the "tools" list, if there is a non-empty one, into canonical form. */
    method CanonicalizeTools()
      modifies this
      ensures var tools := Get(old(fields), "tools");
              fields == if tools.Arr? && tools.items != [] then Put(old(fields), "tools", Arr(Canonical(tools.items)))
                        else old(fields)
    {
      var tools := Get(fields, "tools");
      if !tools.Arr? || tools.items == [] {
        return;
      }
      var sorted := Sort(Keyed(tools.items));
      fields := Put(fields, "tools", Arr(SortKeysOfAll(Values(sorted))));
    }
  }
}

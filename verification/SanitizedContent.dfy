/**
 * What becomes of the fields and the content of an input item (app/core/openai/requests.py,
 * `_sanitize_input_items`), told from the item alone: which fields and parts go, which stay as they
 * are, and which text parts of an assistant are rewritten.
 */
module SanitizedContent {
  import opened Wrappers
  import opened JsonValue
  import opened CanonicalTools
  import opened RequestSanitizer

  // ---- What goes and what is text ----

  predicate IsReasoningKey(key: string) {
    key == "reasoning_content" || key == "reasoning_details" || key == "tool_calls" || key == "function_call"
  }

  predicate IsReasoning(part: Json) {
    part.Obj? && (Get(part.fields, "type") == Str("reasoning") || Get(part.fields, "type") == Str("reasoning_content")
                  || Get(part.fields, "type") == Str("reasoning_details"))
  }

  /** The parts that stay, in order. */
  function Staying(parts: seq<Json>): seq<Json> {
    if parts == [] then []
    else
      var last := parts[|parts| - 1];
      Staying(parts[..|parts| - 1]) + if last.Null? || IsReasoning(last) then [] else [last]
  }

  predicate PlainTextType(t: Json) {
    t.Null? || t == Str("text") || t == Str("input_text") || t == Str("output_text")
  }

  /** The text of an assistant's part: a string, a text part, or a refusal. */
  function AssistantText(part: Json): Option<string> {
    match part
    case Str(s) => Some(s)
    case Obj(fields) =>
      if PlainTextType(Get(fields, "type")) && Get(fields, "text").Str? then Some(Get(fields, "text").s)
      else if Get(fields, "type") == Str("refusal") && Get(fields, "refusal").Str? then Some(Get(fields, "refusal").s)
      else None
    case _ => None
  }

  /** The text of a tool output part: as an assistant's, and a refusal part may say it as text. */
  lemma ToolPartText(part: Json)
    ensures PartText(part) ==
            if part.Obj? && Get(part.fields, "type") == Str("refusal") && Get(part.fields, "text").Str?
            then Some(Get(part.fields, "text").s) else AssistantText(part)
  {
  }

  lemma AssistantPartText(part: Json)
    ensures (if part.Str? then Some(part.s) else TextOf(part, AssistantTextTypes)) == AssistantText(part)
  {
  }

  // ---- What a part becomes ----

  ghost predicate WithoutReasoning(before: seq<Field>, after: seq<Field>) {
    forall key :: Get(after, key) == if IsReasoningKey(key) then Null else Get(before, key)
  }

  /** An assistant's text becomes an output_text part; anything else stays, without reasoning fields. */
  ghost predicate PartBecomes(before: Json, after: Json, assistant: bool) {
    if assistant && AssistantText(before).Some? then
      MeaningOf(after) == MeaningOf(Obj([Field("type", Str("output_text")), Field("text", Str(AssistantText(before).value))]))
    else if before.Obj? then after.Obj? && WithoutReasoning(before.fields, after.fields)
    else after == before
  }

  ghost predicate PartsBecome(before: seq<Json>, after: seq<Json>, assistant: bool) {
    |after| == |Staying(before)| && forall i :: 0 <= i < |after| ==> PartBecomes(Staying(before)[i], after[i], assistant)
  }

  lemma {:induction false} DroppedKeysGet(fields: seq<Field>, key: string)
    ensures Get(DropKeys(fields), key) == if IsReasoningKey(key) then Null else Get(fields, key)
  {
    if fields != [] {
      DroppedKeysGet(fields[1..], key);
      if fields[0].key !in ReasoningKeys {
        assert DropKeys(fields)[1..] == DropKeys(fields[1..]);
      }
    }
  }

  lemma SanitizedPart(part: Json)
    ensures SanitizePart(part).Null? <==> part.Null? || IsReasoning(part)
    ensures !SanitizePart(part).Null? ==> PartBecomes(part, SanitizePart(part), false)
    ensures !SanitizePart(part).Null? ==> AssistantText(SanitizePart(part)) == AssistantText(part)
  {
    if part.Obj? {
      forall key ensures Get(DropKeys(part.fields), key) == if IsReasoningKey(key) then Null else Get(part.fields, key) {
        DroppedKeysGet(part.fields, key);
      }
    }
  }

  lemma {:induction false} SanitizedParts(parts: seq<Json>)
    ensures PartsBecome(parts, SanitizeParts(parts), false)
    ensures |SanitizeParts(parts)| == |Staying(parts)|
    ensures forall i :: 0 <= i < |Staying(parts)| ==> SanitizeParts(parts)[i] == SanitizePart(Staying(parts)[i])
                                                      && !SanitizePart(Staying(parts)[i]).Null?
  {
    if parts != [] {
      SanitizedParts(parts[..|parts| - 1]);
      SanitizedPart(parts[|parts| - 1]);
    }
  }

  /** Normalising a part that was sanitised, whether or not the result is written back. */
  lemma NormalizedPart(part: Json, after: Json)
    requires !SanitizePart(part).Null? && MeaningOf(after) == MeaningOf(NormalizePart(SanitizePart(part)))
    requires after == SanitizePart(part) || after == NormalizePart(SanitizePart(part))
    ensures PartBecomes(part, after, true)
  {
    SanitizedPart(part);
    AssistantPartText(SanitizePart(part));
  }

  lemma NormalizedParts(parts: seq<Json>, after: seq<Json>)
    requires |after| == |SanitizeParts(parts)|
    requires forall i :: 0 <= i < |after| ==>
               && MeaningOf(after[i]) == MeaningOf(NormalizePart(SanitizeParts(parts)[i]))
               && (after[i] == SanitizeParts(parts)[i] || after[i] == NormalizePart(SanitizeParts(parts)[i]))
    ensures PartsBecome(parts, after, true)
  {
    SanitizedParts(parts);
    forall i | 0 <= i < |after| ensures PartBecomes(Staying(parts)[i], after[i], true) {
      NormalizedPart(Staying(parts)[i], after[i]);
    }
  }

  // ---- What content becomes ----

  /** Content of an item that is neither an assistant's nor a tool's. */
  ghost predicate ContentBecomes(before: Json, after: Json) {
    match before
    case Arr(parts) => after.Arr? && PartsBecome(parts, after.items, false)
    case Obj(_) => if IsReasoning(before) then after.Null? else PartBecomes(before, after, false)
    case _ => after == before
  }

  /** Content of an assistant's item: always a list of parts, if there is any. */
  ghost predicate AssistantContentBecomes(before: Json, after: Json) {
    match before
    case Arr(parts) => after.Arr? && PartsBecome(parts, after.items, true)
    case Obj(_) => if IsReasoning(before) then after.Null? else after.Arr? && PartsBecome([before], after.items, true)
    case Str(_) => after.Arr? && PartsBecome([before], after.items, true)
    case _ => after == before
  }

  lemma SanitizedContentBecomes(content: Json)
    ensures ContentBecomes(content, SanitizeContent(content))
  {
    if content.Arr? {
      SanitizedParts(content.items);
    } else {
      SanitizedPart(content);
    }
  }

  lemma SinglePart(part: Json)
    requires !part.Null? && !IsReasoning(part)
    ensures SanitizeParts([part]) == [SanitizePart(part)] && Staying([part]) == [part]
  {
    SanitizedPart(part);
    assert [part][..0] == [];
  }

  lemma SameMeaningParts(a: seq<Json>, b: seq<Json>)
    requires |a| == |b|
    ensures MeaningOf(Arr(a)) == MeaningOf(Arr(b)) ==> forall i :: 0 <= i < |a| ==> MeaningOf(a[i]) == MeaningOf(b[i])
  {
    if MeaningOf(Arr(a)) == MeaningOf(Arr(b)) {
      assert MeaningOfAll(a) == MeaningOfAll(b);
      forall i | 0 <= i < |a| ensures MeaningOf(a[i]) == MeaningOf(b[i]) {
        assert MeaningOfAll(a)[i] == MeaningOfAll(b)[i];
      }
    }
  }

  /** What is left of the content of an assistant's item: as it is if normalising changes nothing. */
  function Written(clean: Json): Json {
    if MeaningOf(NormalizeContent(clean)) == MeaningOf(clean) then clean else NormalizeContent(clean)
  }

  lemma NormalizedList(parts: seq<Json>)
    ensures var after := Written(Arr(SanitizeParts(parts))); after.Arr? && PartsBecome(parts, after.items, true)
  {
    var items := SanitizeParts(parts);
    var after := Written(Arr(items));
    SameMeaningParts(items, NormalizeParts(items));
    NormalizedParts(parts, after.items);
  }

  lemma NormalizedSingle(part: Json)
    requires (part.Str? || part.Obj?) && !IsReasoning(part)
    ensures var after := Written(SanitizePart(part)); after.Arr? && PartsBecome([part], after.items, true)
  {
    SanitizedPart(part);
    SinglePart(part);
    var after := Written(SanitizePart(part));
    assert after == Arr([NormalizePart(SanitizePart(part))]);
    NormalizedParts([part], after.items);
  }

  lemma NormalizedContentBecomes(content: Json)
    ensures AssistantContentBecomes(content, Written(SanitizeContent(content)))
  {
    match content
    case Arr(parts) => NormalizedList(parts);
    case Str(_) => NormalizedSingle(content);
    case Obj(_) =>
      SanitizedPart(content);
      if !IsReasoning(content) {
        NormalizedSingle(content);
      }
    case _ =>
  }

  // ---- What an item becomes ----

  lemma {:induction false} SanitizedFieldsGet(fields: seq<Field>, key: string)
    requires key != "content"
    ensures Get(SanitizeFields(fields), key) == if IsReasoningKey(key) then Null else Get(fields, key)
    ensures IsReasoningKey(key) ==> !HasKey(SanitizeFields(fields), key)
  {
    if !IsReasoningKey(key) {
      SanitizeFieldsGet(fields, key);
    } else if fields != [] {
      var init, f := fields[..|fields| - 1], fields[|fields| - 1];
      SanitizedFieldsGet(init, key);
      GetAppend(SanitizeFields(init), SanitizeField(f), key);
    }
  }

  /** Every item that is an object, and no tool item, keeps its fields without the reasoning ones and
      its content as told above. */
  lemma ItemBecomes(item: Json, dump: Printer)
    requires item.Obj? && DistinctKeys(item.fields) && Get(item.fields, "role") != Str("tool")
    ensures var out := SanitizeOne(item, dump);
            && out.Ok? && |out.value| == 1 && out.value[0].Obj?
            && var after := out.value[0].fields; var content := Get(item.fields, "content");
            && (forall key :: key != "content" ==>
                  Get(after, key) == if IsReasoningKey(key) then Null else Get(item.fields, key))
            && if Get(item.fields, "role") == Str("assistant") then AssistantContentBecomes(content, Get(after, "content"))
               else ContentBecomes(content, Get(after, "content"))
  {
    var fields := SanitizeFields(item.fields);
    var clean := Get(fields, "content");
    ContentGet(item.fields);
    SanitizedFieldsGet(item.fields, "role");
    SanitizedContentBecomes(Get(item.fields, "content"));
    var after := SanitizeOne(item, dump).value[0].fields;
    forall key | key != "content" ensures Get(after, key) == if IsReasoningKey(key) then Null else Get(item.fields, key) {
      SanitizedFieldsGet(item.fields, key);
      GetPut(fields, "content", NormalizeContent(clean), key);
    }
    if Get(item.fields, "role") == Str("assistant") {
      GetPut(fields, "content", NormalizeContent(clean), "content");
      NormalizedContentBecomes(Get(item.fields, "content"));
    }
  }
}

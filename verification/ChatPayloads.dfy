/**
 * What the translator (app/core/openai/chat_responses.py) makes of the payloads of a stream, by the
 * text of their "type" and of the fields that go with it: which text is content and which refusal,
 * which payloads end or fail the stream, and the finish reason.
 */
module ChatPayloads {
  import opened Basics
  import opened Wrappers
  import opened JsonValue
  import opened ToolCallEvents
  import opened ToolCallSlots
  import opened ChatStream
  import opened ChatRefinement

  type Input = Option<Payload>

  const TextType := "response.output_text.delta"
  const RefusalType := "response.refusal.delta"

  predicate HasType(p: Input, t: string) {
    p.Some? && Get(p.value, "type") == Str(t)
  }

  function In(p: Input, path: seq<string>): Json {
    if p.Some? then At(Obj(p.value), path) else Null
  }

  /** The text of the payload's delta, if it has that type. */
  function DeltaOf(p: Input, t: string): string {
    if HasType(p, t) && In(p, ["delta"]).Str? then In(p, ["delta"]).s else ""
  }

  /** The deltas of all payloads of that type, joined. */
  function JoinDeltas(ps: seq<Input>, t: string): string {
    if ps == [] then "" else DeltaOf(ps[0], t) + JoinDeltas(ps[1..], t)
  }

  predicate Fails(p: Input) {
    HasType(p, "response.failed") || HasType(p, "error")
  }

  /** The error object of a payload that fails. */
  function ErrorOf(p: Input): Option<Json> {
    var error := if HasType(p, "response.failed") then In(p, ["response", "error"]) else In(p, ["error"]);
    if error.Obj? then Some(error) else None
  }

  /** The payload ends the streamed answer: completed, incomplete, or failed with an error object. */
  predicate Stops(p: Input) {
    HasType(p, "response.completed") || HasType(p, "response.incomplete") || (Fails(p) && ErrorOf(p).Some?)
  }

  /** Why the answer is incomplete, as the finish reason of a chat completion. */
  function ReasonGiven(p: Input): string {
    var reason := In(p, ["response", "incomplete_details", "reason"]);
    if !HasType(p, "response.incomplete") then "stop"
    else if reason == Str("max_output_tokens") || reason == Str("max_tokens") then "length"
    else if reason == Str("content_filter") then "content_filter"
    else "stop"
  }

  // ---- One payload ----

  /** What a payload is, by the text of its type. */
  lemma KindRead(p: Payload)
    ensures var kind, here := KindOf(p), Some(p);
            && (kind.TextDelta? <==> HasType(here, TextType))
            && (kind.RefusalDelta? <==> HasType(here, RefusalType))
            && (kind.Failure? <==> Fails(here))
            && (kind.Completed? <==> HasType(here, "response.completed"))
            && (kind.Incomplete? <==> HasType(here, "response.incomplete"))
  {
  }

  lemma DeltaRead(p: Payload, tool: Option<ToolEvent>)
    ensures LineText(Some(Event(KindOf(p), tool))) == DeltaOf(Some(p), TextType)
    ensures LineRefusal(Some(Event(KindOf(p), tool))) == DeltaOf(Some(p), RefusalType)
  {
    AtOne(Obj(p), "delta");
  }

  lemma ErrorRead(p: Payload)
    requires Fails(Some(p))
    ensures KindOf(p).Failure? && KindOf(p).error == ErrorOf(Some(p))
  {
    KindRead(p);
    AtOne(Obj(p), "error");
    AtOne(Obj(p), "response");
    AtTwo(Obj(p), "response", "error");
    AtOne(Get(p, "response"), "error");
  }

  lemma ReasonOfPayload(p: Payload, tool: Option<ToolEvent>)
    ensures FinishReason(Event(KindOf(p), tool), false) == ReasonGiven(Some(p))
    ensures KindOf(p).Incomplete? ==> KindOf(p).response == In(Some(p), ["response"])
  {
    KindRead(p);
    AtOne(Obj(p), "response");
    AtTwo(Obj(p), "response", "incomplete_details");
    AtOne(Get(p, "response"), "incomplete_details");
    AtThree(Obj(p), "response", "incomplete_details", "reason");
    AtOne(At(Obj(p), ["response", "incomplete_details"]), "reason");
  }

  lemma InputRead(p: Input)
    ensures LineText(ReadLine(p)) == DeltaOf(p, TextType) && LineRefusal(ReadLine(p)) == DeltaOf(p, RefusalType)
    ensures EndsStream(ReadLine(p)) <==> Stops(p)
    ensures Fails(p) <==> ReadLine(p).Some? && ReadLine(p).value.kind.Failure?
    ensures Fails(p) ==> ReadLine(p).value.kind.error == ErrorOf(p)
    ensures ReadLine(p).Some? ==> FinishReason(ReadLine(p).value, false) == ReasonGiven(p)
    ensures ReasonOf(ReadLine(p)) ==
            if HasType(p, "response.incomplete") && In(p, ["response"]).Obj? then Some(ReasonGiven(p)) else None
  {
    if p.Some? && p.value != [] {
      var tool := ToolEventOf(p.value);
      assert ReadLine(p) == Some(Event(KindOf(p.value), tool));
      KindRead(p.value);
      DeltaRead(p.value, tool);
      ReasonOfPayload(p.value, tool);
      if Fails(p) {
        ErrorRead(p.value);
      }
    }
  }

  // ---- What is collected ----

  lemma {:induction false} TextRead(ps: seq<Input>)
    ensures AllText(ReadLines(ps)) == JoinDeltas(ps, TextType)
    ensures AllRefusal(ReadLines(ps)) == JoinDeltas(ps, RefusalType)
  {
    if ps != [] {
      TextRead(ps[1..]);
      InputRead(ps[0]);
      assert ReadLines(ps)[1..] == ReadLines(ps[1..]);
    }
  }

  /** The reason of the last incomplete payload with a response. */
  function LastReasonGiven(ps: seq<Input>): Option<string> {
    if ps == [] then None
    else if LastReasonGiven(ps[1..]).Some? then LastReasonGiven(ps[1..])
    else if HasType(ps[0], "response.incomplete") && In(ps[0], ["response"]).Obj? then Some(ReasonGiven(ps[0]))
    else None
  }

  lemma {:induction false} ReasonRead(ps: seq<Input>)
    ensures LastReason(ReadLines(ps)) == LastReasonGiven(ps)
  {
    if ps != [] {
      ReasonRead(ps[1..]);
      InputRead(ps[0]);
      assert ReadLines(ps)[1..] == ReadLines(ps[1..]);
    }
  }

  /** Unless a payload fails, the content is the joined text deltas, the refusal the joined refusal
      deltas, and the finish reason that of the tool calls or the last one given. */
  lemma CollectedFromPayloads(ps: seq<Input>)
    requires forall i :: 0 <= i < |ps| ==> !Fails(ps[i])
    ensures Collect(NothingCollected, ReadLines(ps)).Ok?
    ensures var m := Collect(NothingCollected, ReadLines(ps)).value;
            var text, refusal := JoinDeltas(ps, TextType), JoinDeltas(ps, RefusalType);
            && m.content == (if text == "" && (m.toolCalls != [] || refusal != "") then None else Some(text))
            && m.refusal == (if refusal == "" then None else Some(refusal))
            && m.finish == (if m.toolCalls != [] then "tool_calls" else LastReasonGiven(ps).GetOr("stop"))
  {
    forall i | 0 <= i < |ps| ensures ReadLines(ps)[i].None? || !ReadLines(ps)[i].value.kind.Failure? {
      InputRead(ps[i]);
    }
    CollectedMessage(ReadLines(ps));
    CollectTakesAll(NothingCollected, ReadLines(ps));
    TakenText(NothingCollected, ReadLines(ps));
    TextRead(ps);
    ReasonRead(ps);
  }

  lemma {:induction false} CollectUpTo(col: Collected, lines: seq<Line>, i: nat)
    requires i < |lines| && lines[i].Some? && lines[i].value.kind.Failure?
    requires forall j :: 0 <= j < i ==> lines[j].None? || !lines[j].value.kind.Failure?
    ensures Collect(col, lines) ==
            Err(if lines[i].value.kind.error.Some? then Upstream(lines[i].value.kind.error.value) else DefaultError)
    decreases i
  {
    if i > 0 {
      assert lines[0].None? || !lines[0].value.kind.Failure?;
      CollectUpTo(if lines[0].None? then col else col.Take(lines[0].value), lines[1..], i - 1);
    }
  }

  /** The first payload that fails is what collecting reports. */
  lemma CollectedFailure(ps: seq<Input>, i: nat)
    requires i < |ps| && Fails(ps[i]) && forall j :: 0 <= j < i ==> !Fails(ps[j])
    ensures Collect(NothingCollected, ReadLines(ps)) ==
            Err(if ErrorOf(ps[i]).Some? then Upstream(ErrorOf(ps[i]).value) else DefaultError)
  {
    forall j | 0 <= j <= i
      ensures Fails(ps[j]) <==> ReadLines(ps)[j].Some? && ReadLines(ps)[j].value.kind.Failure?
    {
      InputRead(ps[j]);
    }
    InputRead(ps[i]);
    CollectUpTo(NothingCollected, ReadLines(ps), i);
  }

  // ---- What is streamed ----

  function ContentText(chunk: Chunk): string {
    if chunk.TextChunk? then chunk.content.GetOr("") else ""
  }

  function RefusalText(chunk: Chunk): string {
    if chunk.RefusalChunk? then chunk.refusal.GetOr("") else ""
  }

  function StreamedText(chunks: seq<Chunk>): string {
    if chunks == [] then "" else ContentText(chunks[0]) + StreamedText(chunks[1..])
  }

  function StreamedRefusal(chunks: seq<Chunk>): string {
    if chunks == [] then "" else RefusalText(chunks[0]) + StreamedRefusal(chunks[1..])
  }

  predicate AnyCall(chunks: seq<Chunk>) {
    exists i :: 0 <= i < |chunks| && chunks[i].CallChunk?
  }

  lemma {:induction false} StreamedAppend(a: seq<Chunk>, b: seq<Chunk>)
    ensures StreamedText(a + b) == StreamedText(a) + StreamedText(b)
    ensures StreamedRefusal(a + b) == StreamedRefusal(a) + StreamedRefusal(b)
    ensures AnyCall(a + b) <==> AnyCall(a) || AnyCall(b)
  {
    if a == [] {
      assert a + b == b;
    } else {
      assert (a + b)[0] == a[0] && (a + b)[1..] == a[1..] + b;
      StreamedAppend(a[1..], b);
      Reassociate(ContentText(a[0]), StreamedText(a[1..]), StreamedText(b));
      Reassociate(RefusalText(a[0]), StreamedRefusal(a[1..]), StreamedRefusal(b));
    }
    AnyCallAppend(a, b);
  }

  lemma AnyCallAppend(a: seq<Chunk>, b: seq<Chunk>)
    ensures AnyCall(a + b) <==> AnyCall(a) || AnyCall(b)
  {
    assert forall i :: 0 <= i < |a| ==> (a + b)[i] == a[i];
    assert forall i :: 0 <= i < |b| ==> (a + b)[|a| + i] == b[i];
  }

  /** What some chunks add: text, refusal, and whether there is a tool call among them. */
  ghost predicate Adds(out: seq<Chunk>, text: string, refusal: string, call: bool) {
    StreamedText(out) == text && StreamedRefusal(out) == refusal && (AnyCall(out) <==> call)
  }

  lemma AddsBoth(a: seq<Chunk>, b: seq<Chunk>, text: string, refusal: string, call: bool)
    requires Adds(a, text, refusal, call)
    ensures Adds(a + b, text + StreamedText(b), refusal + StreamedRefusal(b), call || AnyCall(b))
  {
    StreamedAppend(a, b);
  }

  lemma SingleChunk(chunk: Chunk)
    ensures Adds([chunk], ContentText(chunk), RefusalText(chunk), chunk.CallChunk?)
  {
    var out := [chunk];
    assert out[1..] == [] && out[0] == chunk;
    assert StreamedText([]) == "" && StreamedRefusal([]) == "";
    assert ContentText(chunk) + "" == ContentText(chunk) && RefusalText(chunk) + "" == RefusalText(chunk);
  }

  lemma TextStageAdds(st: StreamState, e: Event)
    ensures Adds(TextStage(st, e).chunks, LineText(Some(e)), LineRefusal(Some(e)), false)
    ensures TextStage(st, e).state.sawToolCall == st.sawToolCall
  {
    var chunks := TextStage(st, e).chunks;
    if chunks != [] {
      SingleChunk(chunks[0]);
      assert chunks == [chunks[0]];
    }
  }

  lemma ToolStageAdds(st: StreamState, e: Event)
    ensures var out := ToolStage(st, e);
            Adds(out.chunks, "", "", out.chunks != []) && (out.state.sawToolCall <==> st.sawToolCall || out.chunks != [])
  {
    var chunks := ToolStage(st, e).chunks;
    if chunks != [] {
      SingleChunk(chunks[0]);
      assert chunks == [chunks[0]];
    }
  }

  lemma DeltasAdd(st: StreamState, e: Event)
    ensures var out := Deltas(st, e);
            && Adds(out.chunks, LineText(Some(e)), LineRefusal(Some(e)), AnyCall(out.chunks))
            && (out.state.sawToolCall <==> st.sawToolCall || AnyCall(out.chunks))
  {
    var text := TextStage(st, e);
    var tool := ToolStage(text.state, e);
    TextStageAdds(st, e);
    ToolStageAdds(text.state, e);
    AddsBoth(text.chunks, tool.chunks, LineText(Some(e)), LineRefusal(Some(e)), false);
    assert LineText(Some(e)) + "" == LineText(Some(e)) && LineRefusal(Some(e)) + "" == LineRefusal(Some(e));
  }

  /** A stretch of lines that do not end the stream. */
  lemma {:induction false} LinesAdd(st: StreamState, lines: seq<Line>)
    requires forall i :: 0 <= i < |lines| ==> !EndsStream(lines[i])
    ensures var out := Stream(st, lines);
            && !out.ended && Adds(out.chunks, AllText(lines), AllRefusal(lines), AnyCall(out.chunks))
            && (out.state.sawToolCall <==> st.sawToolCall || AnyCall(out.chunks))
    decreases |lines|
  {
    if lines != [] {
      var first := StepLine(st, lines[0]);
      var rest := Stream(first.state, lines[1..]);
      LinesAdd(first.state, lines[1..]);
      if lines[0].Some? {
        DeltasAdd(st, lines[0].value);
      }
      StreamedAppend(first.chunks, rest.chunks);
    }
  }

  function Closing(e: Event, call: bool): Chunk
    requires EndsStream(Some(e))
  {
    if e.kind.Failure? then ErrorChunk(e.kind.error.value) else FinishChunk(FinishReason(e, call))
  }

  lemma EndingStep(st: StreamState, e: Event)
    requires EndsStream(Some(e)) && FlushFrom(Deltas(st, e).state, 0) == Emission(Deltas(st, e).state, [])
    ensures var deltas := Deltas(st, e);
            StepLine(st, Some(e)) ==
            Step(deltas.state, deltas.chunks + [Closing(e, deltas.state.sawToolCall), DoneChunk], true)
  {
    assert Deltas(st, e).chunks + [] == Deltas(st, e).chunks;
  }

  /** The chunks of the line that ends a stream. */
  lemma LastLineAdds(lines: seq<Line>, e: Event)
    requires (forall i :: 0 <= i < |lines| ==> !EndsStream(lines[i])) && EndsStream(Some(e))
    ensures var before := Stream(EmptyStream, lines); var deltas := Deltas(before.state, e);
            var all := before.chunks + deltas.chunks;
            && Adds(all, AllText(lines) + LineText(Some(e)), AllRefusal(lines) + LineRefusal(Some(e)), AnyCall(all))
            && StepLine(before.state, Some(e)) == Step(deltas.state, deltas.chunks + [Closing(e, AnyCall(all)), DoneChunk], true)
  {
    var before := Stream(EmptyStream, lines);
    var deltas := Deltas(before.state, e);
    LinesAdd(EmptyStream, lines);
    DeltasAdd(before.state, e);
    AddsBoth(before.chunks, deltas.chunks, AllText(lines), AllRefusal(lines), AnyCall(before.chunks));
    FinalFlushIsSilent(lines, e);
    EndingStep(before.state, e);
    assert deltas.state.sawToolCall <==> AnyCall(before.chunks) || AnyCall(deltas.chunks);
  }

  /** The stream goes on through the payloads that do not stop it: it carries their joined text and
      refusal deltas, and nothing but deltas. */
  lemma StreamGoesOn(ps: seq<Input>)
    requires forall i :: 0 <= i < |ps| ==> !Stops(ps[i])
    ensures var out := Stream(EmptyStream, ReadLines(ps));
            && !out.ended && StreamedText(out.chunks) == JoinDeltas(ps, TextType)
            && StreamedRefusal(out.chunks) == JoinDeltas(ps, RefusalType)
            && forall i :: 0 <= i < |out.chunks| ==> IsDelta(out.chunks[i])
  {
    LinesDoNotEnd(ps);
    LinesAdd(EmptyStream, ReadLines(ps));
    TextRead(ps);
    StreamAnnouncesRoleOnce(EmptyStream, ReadLines(ps));
  }

  lemma {:induction false} JoinSnoc(ps: seq<Input>, p: Input, t: string)
    ensures JoinDeltas(ps + [p], t) == JoinDeltas(ps, t) + DeltaOf(p, t)
  {
    if ps == [] {
      assert [p][1..] == [] && (ps + [p]) == [p];
      assert JoinDeltas([], t) == "" && DeltaOf(p, t) + "" == DeltaOf(p, t) && "" + DeltaOf(p, t) == DeltaOf(p, t);
    } else {
      assert (ps + [p])[0] == ps[0] && (ps + [p])[1..] == ps[1..] + [p];
      JoinSnoc(ps[1..], p, t);
      Reassociate(DeltaOf(ps[0], t), JoinDeltas(ps[1..], t), DeltaOf(p, t));
    }
  }

  /** What a stopped stream has sent: `all`, then the chunk that says how it ended, then the mark. */
  ghost predicate StoppedAfter(out: Step, all: seq<Chunk>, closing: Chunk) {
    out.ended && out.chunks == all + [closing, DoneChunk]
  }

  lemma StopLine(lines: seq<Line>, e: Event, rest: seq<Line>) returns (all: seq<Chunk>)
    requires (forall i :: 0 <= i < |lines| ==> !EndsStream(lines[i])) && EndsStream(Some(e))
    ensures StoppedAfter(Stream(EmptyStream, lines + ([Some(e)] + rest)), all, Closing(e, AnyCall(all)))
    ensures Adds(all, AllText(lines) + LineText(Some(e)), AllRefusal(lines) + LineRefusal(Some(e)), AnyCall(all))
  {
    LastLineAdds(lines, e);
    var first := Stream(EmptyStream, lines);
    var deltas := Deltas(first.state, e);
    all := first.chunks + deltas.chunks;
    StreamPastQuiet(EmptyStream, lines, [Some(e)] + rest);
    FirstLineEnds(first.state, e, rest);
    ThenThen(first.chunks, deltas.chunks, Step(deltas.state, [Closing(e, AnyCall(all)), DoneChunk], true));
  }

  lemma FirstLineEnds(st: StreamState, e: Event, rest: seq<Line>)
    requires StepLine(st, Some(e)).ended
    ensures Stream(st, [Some(e)] + rest) == StepLine(st, Some(e))
  {
    assert ([Some(e)] + rest)[0] == Some(e);
  }

  /** The first payload that stops the stream ends it: with its error if it fails, else with the finish
      reason, which is tool calls exactly when some were streamed; whatever follows is not read. */
  lemma StreamStops(before: seq<Input>, p: Input, rest: seq<Input>) returns (all: seq<Chunk>)
    requires (forall i :: 0 <= i < |before| ==> !Stops(before[i])) && Stops(p)
    ensures StoppedAfter(Stream(EmptyStream, ReadLines(before + [p] + rest)), all,
                         if Fails(p) then ErrorChunk(ErrorOf(p).value)
                         else FinishChunk(if AnyCall(all) then "tool_calls" else ReasonGiven(p)))
    ensures StreamedText(all) == JoinDeltas(before + [p], TextType)
    ensures StreamedRefusal(all) == JoinDeltas(before + [p], RefusalType)
  {
    var e := StoppingEvent(p);
    LinesDoNotEnd(before);
    all := StopLine(ReadLines(before), e, ReadLines(rest));
    ReadLinesSplit(before, p, rest);
    TextRead(before);
    JoinSnoc(before, p, TextType);
    JoinSnoc(before, p, RefusalType);
  }

  lemma ReadLinesSplit(before: seq<Input>, p: Input, rest: seq<Input>)
    ensures ReadLines(before + [p] + rest) == ReadLines(before) + ([ReadLine(p)] + ReadLines(rest))
  {
    MappedAppend(ReadLine, before + [p], rest);
    MappedAppend(ReadLine, before, [p]);
    Reordered(Mapped(ReadLine, before), Mapped(ReadLine, [p]), Mapped(ReadLine, rest));
  }

  lemma Reordered(a: seq<Line>, b: seq<Line>, c: seq<Line>)
    requires |b| == 1
    ensures (a + b) + c == a + ([b[0]] + c)
  {
  }

  lemma LinesDoNotEnd(ps: seq<Input>)
    requires forall i :: 0 <= i < |ps| ==> !Stops(ps[i])
    ensures forall i :: 0 <= i < |ps| ==> !EndsStream(ReadLines(ps)[i])
  {
    forall i | 0 <= i < |ps| ensures !EndsStream(ReadLines(ps)[i]) {
      InputRead(ps[i]);
    }
  }

  lemma StoppingEvent(p: Input) returns (e: Event)
    requires Stops(p)
    ensures ReadLine(p) == Some(e) && EndsStream(Some(e))
    ensures forall call :: Closing(e, call) == if Fails(p) then ErrorChunk(ErrorOf(p).value)
                                               else FinishChunk(if call then "tool_calls" else ReasonGiven(p))
    ensures LineText(Some(e)) == DeltaOf(p, TextType) && LineRefusal(Some(e)) == DeltaOf(p, RefusalType)
  {
    InputRead(p);
    e := ReadLine(p).value;
  }
}

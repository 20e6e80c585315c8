/**
 * Translating a Responses event stream into chat-completion chunks, and collecting it into one
 * completion (app/core/openai/chat_responses.py, `iter_chat_chunks`, `stream_chat_chunks`,
 * `collect_chat_completion`), both as functions of the lines.  ChatRefinement compares the two;
 * ChatTranslator holds the loops.
 */
module ChatStream {
  import opened Basics
  import opened Wrappers
  import opened JsonValue
  import opened ToolCallEvents
  import opened ToolCallRouting
  import opened ToolCallSlots

  // ---- Reading events ----

  /** What an event is, by its type. */
  datatype Kind =
    | TextDelta(text: Option<string>)
    | RefusalDelta(text: Option<string>)
    | Failure(error: Option<Json>)
    | Completed
    | Incomplete(response: Json)
    | Other

  datatype Event = Event(kind: Kind, tool: Option<ToolEvent>) {
    predicate IsTerminal() {
      kind.Completed? || kind.Incomplete?
    }
  }

  /** One line of the stream; None when it carries no JSON object or an empty one. */
  type Line = Option<Event>

  function StringOrNone(v: Json): Option<string> {
    if v.Str? then Some(v.s) else None
  }

  function ErrorIn(holder: Json): Option<Json> {
    if holder.Obj? && Get(holder.fields, "error").Obj? then Some(Get(holder.fields, "error")) else None
  }

  function KindOf(p: Payload): Kind {
    var t := Get(p, "type");
    if t == Str("response.output_text.delta") then TextDelta(StringOrNone(Get(p, "delta")))
    else if t == Str("response.refusal.delta") then RefusalDelta(StringOrNone(Get(p, "delta")))
    else if t == Str("response.failed") then Failure(ErrorIn(Get(p, "response")))
    else if t == Str("error") then Failure(ErrorIn(Obj(p)))
    else if t == Str("response.completed") then Completed
    else if t == Str("response.incomplete") then Incomplete(Get(p, "response"))
    else Other
  }

  function ReadLine(payload: Option<Payload>): Line {
    if payload.None? || payload.value == [] then None
    else Some(Event(KindOf(payload.value), ToolEventOf(payload.value)))
  }

  function ReadLines(lines: seq<Option<Payload>>): (r: seq<Line>)
    ensures |r| == |lines| && forall i :: 0 <= i < |r| ==> r[i] == ReadLine(lines[i])
  {
    Mapped(ReadLine, lines)
  }

  function FinishOfIncomplete(response: Json): string {
    if !response.Obj? || !Get(response.fields, "incomplete_details").Obj? then "stop"
    else
      var reason := Get(Get(response.fields, "incomplete_details").fields, "reason");
      if reason == Str("max_output_tokens") || reason == Str("max_tokens") then "length"
      else if reason == Str("content_filter") then "content_filter"
      else "stop"
  }

  // ---- Tool calls: shared by streaming and collecting ----

  function Pad(slots: seq<Slot>, n: nat): (r: seq<Slot>)
    ensures |r| == if |slots| < n then n else |slots|
    ensures slots <= r
    ensures forall i :: |slots| <= i < |r| ==> r[i] == FreshSlot
    decreases n - |slots|
  {
    if |slots| < n then Pad(slots + [FreshSlot], n) else slots
  }

  function Merge(slots: seq<Slot>, k: nat, ev: ToolEvent): seq<Slot> {
    var padded := Pad(slots, k + 1);
    padded[k := Apply(padded[k], ev)]
  }

  datatype Table = Table(index: Index, slots: seq<Slot>) {
    function Accept(ev: ToolEvent): Table {
      Table(index.Routed(ev), Merge(slots, index.Slot(ev), ev))
    }

    function AcceptOpt(ev: Option<ToolEvent>): Table {
      if ev.Some? then Accept(ev.value) else this
    }
  }

  const EmptyTable := Table(EmptyIndex, [])

  // ---- Streaming ----

  datatype FunctionPart = FunctionPart(name: Option<string>, arguments: Option<string>)

  datatype ToolChunk = ToolChunk(index: nat, id: Option<string>, toolType: string, call: Option<FunctionPart>)

  datatype Chunk =
    | TextChunk(role: bool, content: Option<string>)
    | RefusalChunk(role: bool, refusal: Option<string>)
    | CallChunk(role: bool, tool: ToolChunk)
    | ErrorChunk(error: Json)
    | FinishChunk(reason: string)
    | DoneChunk

  function BuildFunction(name: Option<string>, arguments: Option<string>): Option<FunctionPart> {
    if name.None? && arguments.None? then None else Some(FunctionPart(name, arguments))
  }

  function ToChunkCall(index: nat, d: Delta): ToolChunk {
    ToolChunk(index, d.id, d.toolType, BuildFunction(d.name, d.arguments))
  }

  datatype StreamState = StreamState(table: Table, sawToolCall: bool, sentRole: bool)

  const EmptyStream := StreamState(EmptyTable, false, false)

  datatype Emission = Emission(state: StreamState, chunks: seq<Chunk>)

  function TextStage(st: StreamState, e: Event): Emission {
    match e.kind
    case TextDelta(text) => Emission(st.(sentRole := true), [TextChunk(!st.sentRole, text)])
    case RefusalDelta(text) => Emission(st.(sentRole := true), [RefusalChunk(!st.sentRole, text)])
    case _ => Emission(st, [])
  }

  /** Send what is pending for slot `k`. */
  function FlushSlot(st: StreamState, k: nat): Emission
    requires k < |st.table.slots|
  {
    var s := st.table.slots[k];
    match PendingDelta(s)
    case None => Emission(st, [])
    case Some(d) =>
      Emission(StreamState(st.table.(slots := st.table.slots[k := Flushed(s)]), true, true),
               [CallChunk(!st.sentRole, ToChunkCall(k, d))])
  }

  function ToolStage(st: StreamState, e: Event): Emission {
    match e.tool
    case None => Emission(st, [])
    case Some(ev) => FlushSlot(st.(table := st.table.Accept(ev)), st.table.index.Slot(ev))
  }

  /** Send what is pending for every slot from `k` on. */
  function FlushFrom(st: StreamState, k: nat): Emission
    decreases |st.table.slots| - k
  {
    if k >= |st.table.slots| then Emission(st, [])
    else
      var here := FlushSlot(st, k);
      var rest := FlushFrom(here.state, k + 1);
      Emission(rest.state, here.chunks + rest.chunks)
  }

  function FinishReason(e: Event, sawToolCall: bool): string {
    if sawToolCall then "tool_calls"
    else if e.kind.Incomplete? then FinishOfIncomplete(e.kind.response)
    else "stop"
  }

  /** One line: the chunks it yields, and whether the stream is over. */
  datatype Step = Step(state: StreamState, chunks: seq<Chunk>, ended: bool)

  /** The text and tool-call chunks of one event. */
  function Deltas(st: StreamState, e: Event): Emission {
    var text := TextStage(st, e);
    var tool := ToolStage(text.state, e);
    Emission(tool.state, text.chunks + tool.chunks)
  }

  function StepLine(st: StreamState, line: Line): Step {
    if line.None? then Step(st, [], false)
    else
      var e := line.value;
      var deltas := Deltas(st, e);
      if e.kind.Failure? && e.kind.error.Some? then
        Step(deltas.state, deltas.chunks + [ErrorChunk(e.kind.error.value), DoneChunk], true)
      else if e.IsTerminal() then
        var flush := FlushFrom(deltas.state, 0);
        var finish := FinishChunk(FinishReason(e, flush.state.sawToolCall));
        Step(flush.state, deltas.chunks + flush.chunks + [finish, DoneChunk], true)
      else Step(deltas.state, deltas.chunks, false)
  }

  function Stream(st: StreamState, lines: seq<Line>): Step
    decreases |lines|
  {
    if lines == [] then Step(st, [], false)
    else
      var first := StepLine(st, lines[0]);
      if first.ended then first
      else
        var rest := Stream(first.state, lines[1..]);
        Step(rest.state, first.chunks + rest.chunks, rest.ended)
  }

  /** What comes of a stream once `before` has been emitted and `after` is what the rest gives. */
  function Then(before: seq<Chunk>, after: Step): Step {
    Step(after.state, before + after.chunks, after.ended)
  }

  lemma ThenThen(a: seq<Chunk>, b: seq<Chunk>, after: Step)
    ensures Then(a, Then(b, after)) == Then(a + b, after)
  {
    assert a + (b + after.chunks) == (a + b) + after.chunks;
  }

  /** With `chunks` emitted and `lines` still to come from state `st`, the outcome will be `all`. */
  ghost predicate Pending(all: Step, chunks: seq<Chunk>, st: StreamState, lines: seq<Line>) {
    all == Then(chunks, Stream(st, lines))
  }

  lemma PendingNext(all: Step, chunks: seq<Chunk>, st: StreamState, lines: seq<Line>, n: nat)
    requires n < |lines| && Pending(all, chunks, st, lines[n..])
    ensures var first := StepLine(st, lines[n]);
            if first.ended then all == Step(first.state, chunks + first.chunks, true)
            else Pending(all, chunks + first.chunks, first.state, lines[n + 1..])
  {
    var first := StepLine(st, lines[n]);
    assert lines[n..][0] == lines[n] && lines[n..][1..] == lines[n + 1..];
    if !first.ended {
      ThenThen(chunks, first.chunks, Stream(first.state, lines[n + 1..]));
    }
  }

  lemma PendingStart(st: StreamState, lines: seq<Line>)
    ensures Pending(Stream(st, lines), [], st, lines[0..])
  {
    assert lines[0..] == lines;
    assert [] + Stream(st, lines).chunks == Stream(st, lines).chunks;
  }

  lemma PendingEnd(all: Step, chunks: seq<Chunk>, st: StreamState, lines: seq<Line>)
    requires Pending(all, chunks, st, lines[|lines|..])
    ensures all == Step(st, chunks, false)
  {
    assert chunks + [] == chunks;
  }

  // ---- Collecting ----

  datatype MessageCall = MessageCall(id: Option<string>, toolType: string, call: Option<FunctionPart>)

  datatype Message = Message(content: Option<string>, refusal: Option<string>, toolCalls: seq<MessageCall>, finish: string)

  datatype CollectError = Upstream(error: Json) | DefaultError

  function NonEmpty(s: string): Option<string> {
    if s == "" then None else Some(s)
  }

  function ToMessageCall(s: Slot): Option<MessageCall> {
    var call := BuildFunction(s.name, NonEmpty(s.arguments));
    if s.callId.None? && call.None? then None else Some(MessageCall(s.callId, TypeOf(s), call))
  }

  function Compact(slots: seq<Slot>): seq<MessageCall> {
    if slots == [] then []
    else Compact(slots[..|slots| - 1]) +
         match ToMessageCall(slots[|slots| - 1]) { case None => [] case Some(c) => [c] }
  }

  function BuildMessage(text: string, refusal: string, calls: seq<MessageCall>, finish: string): Message {
    Message(if (calls != [] || refusal != "") && text == "" then None else Some(text),
            NonEmpty(refusal), calls, finish)
  }

  datatype Collected = Collected(table: Table, text: string, refusal: string, incomplete: Option<string>) {

    /** One event that is not a failure. */
    function Take(e: Event): Collected {
      Collected(
        table.AcceptOpt(e.tool),
        if e.kind.TextDelta? then text + e.kind.text.GetOr("") else text,
        if e.kind.RefusalDelta? then refusal + e.kind.text.GetOr("") else refusal,
        if e.kind.Incomplete? && e.kind.response.Obj? then Some(FinishOfIncomplete(e.kind.response)) else incomplete)
    }

    function Completion(): Message {
      var calls := Compact(table.slots);
      BuildMessage(text, refusal, calls, if calls != [] then "tool_calls" else incomplete.GetOr("stop"))
    }
  }

  const NothingCollected := Collected(EmptyTable, "", "", None)

  function Collect(c: Collected, lines: seq<Line>): Result<Message, CollectError>
    decreases |lines|
  {
    if lines == [] then Ok(c.Completion())
    else if lines[0].None? then Collect(c, lines[1..])
    else
      var e := lines[0].value;
      if e.kind.Failure? then Err(if e.kind.error.Some? then Upstream(e.kind.error.value) else DefaultError)
      else Collect(c.Take(e), lines[1..])
  }

  // ---- A client that puts the chunks together ----

  datatype Client = Client(text: string, refusal: string, calls: seq<ClientCall>, finish: Option<string>) {

    function CallAt(k: nat): ClientCall {
      if k < |calls| then calls[k] else BlankCall
    }

    function PutCall(k: nat, c: ClientCall): Client {
      if k < |calls| then this.(calls := calls[k := c])
      else this.(calls := calls + seq(k - |calls|, i => BlankCall) + [c])
    }

    function See(chunk: Chunk): Client {
      match chunk
      case TextChunk(_, content) => this.(text := text + content.GetOr(""))
      case RefusalChunk(_, r) => this.(refusal := refusal + r.GetOr(""))
      case CallChunk(_, t) => PutCall(t.index, Receive(CallAt(t.index), FromChunkCall(t)))
      case FinishChunk(reason) => this.(finish := Some(reason))
      case ErrorChunk(_) => this
      case DoneChunk => this
    }

    function SeeAll(chunks: seq<Chunk>): Client
      decreases |chunks|
    {
      if chunks == [] then this else See(chunks[0]).SeeAll(chunks[1..])
    }

    function Reassembled(): Message {
      BuildMessage(text, refusal, seq(|calls|, i requires 0 <= i < |calls| => ClientMessageCall(calls[i])),
                   finish.GetOr("stop"))
    }
  }

  const NewClient := Client("", "", [], None)

  function FromChunkCall(t: ToolChunk): Delta {
    Delta(t.id, if t.call.Some? then t.call.value.name else None,
          if t.call.Some? then t.call.value.arguments else None, t.toolType)
  }

  function ClientMessageCall(c: ClientCall): MessageCall {
    MessageCall(c.id, c.toolType.GetOr("function"), BuildFunction(c.name, NonEmpty(c.arguments)))
  }
}

/**
 * Streaming refines collecting: the chunks of a stream, put together by a client, are the message
 * that collecting the same stream gives, and exactly when.
 */
module ChatRefinement {
  import opened Wrappers
  import opened JsonValue
  import opened ToolCallEvents
  import opened ToolCallRouting
  import opened ToolCallSlots
  import opened ChatStream

  // ---- Merging never creates filler slots ----

  /** Every recorded slot exists, and the next new slot is at most the next position. */
  ghost predicate Bounded(t: Table) {
    && t.index.next <= |t.slots|
    && (forall k :: k in t.index.indexes ==> t.index.indexes[k] < |t.slots|)
    && (forall o :: o in t.index.outputs ==> t.index.outputs[o] < |t.slots|)
  }

  lemma SlotWithinTable(t: Table, ev: ToolEvent)
    requires Bounded(t)
    ensures t.index.Slot(ev) <= |t.slots|
  {
    var o, k := ev.outputIndex, KeyOf(ev);
    if o.Some? && o.value in t.index.outputs {
      var x: int := o.value;
      assert t.index.outputs[x] < |t.slots|;
    }
  }

  lemma AcceptBounded(t: Table, ev: ToolEvent)
    requires Bounded(t)
    ensures Bounded(t.Accept(ev))
    ensures |t.Accept(ev).slots| <= |t.slots| + 1
  {
    SlotWithinTable(t, ev);
    var slot, after := t.index.Slot(ev), t.index.Routed(ev);
    assert after.next <= |Merge(t.slots, slot, ev)|;
    assert forall k :: k in after.indexes ==> after.indexes[k] == if k in t.index.indexes then t.index.indexes[k] else slot;
    assert forall o :: o in after.outputs ==> after.outputs[o] == if o in t.index.outputs then t.index.outputs[o] else slot;
  }

  function TableAfter(evs: seq<ToolEvent>): Table {
    if evs == [] then EmptyTable else TableAfter(evs[..|evs| - 1]).Accept(evs[|evs| - 1])
  }

  lemma {:induction false} TableBounded(evs: seq<ToolEvent>)
    ensures Bounded(TableAfter(evs))
    ensures TableAfter(evs).index == After(evs)
  {
    if evs != [] {
      TableBounded(evs[..|evs| - 1]);
      AcceptBounded(TableAfter(evs[..|evs| - 1]), evs[|evs| - 1]);
    }
  }

  /** In every run each slot is there because some event was routed to it. */
  lemma {:induction false} NoFillerSlots(evs: seq<ToolEvent>, k: nat)
    requires k < |TableAfter(evs).slots|
    ensures exists i :: 0 <= i < |evs| && SlotAt(evs, i) == k
  {
    var n := |evs| - 1;
    if k < |TableAfter(evs[..n]).slots| {
      NoFillerSlots(evs[..n], k);
      var i :| 0 <= i < n && SlotAt(evs[..n], i) == k;
      SlotAtPrefix(evs, n, i);
    } else {
      LastIsRouted(evs, k);
    }
  }

  lemma SlotAtPrefix(evs: seq<ToolEvent>, n: nat, i: nat)
    requires i < n <= |evs|
    ensures SlotAt(evs[..n], i) == SlotAt(evs, i)
  {
    assert evs[..n][..i] == evs[..i];
  }

  lemma LastIsRouted(evs: seq<ToolEvent>, k: nat)
    requires evs != [] && |TableAfter(evs[..|evs| - 1]).slots| <= k < |TableAfter(evs).slots|
    ensures SlotAt(evs, |evs| - 1) == k
  {
    TableBounded(evs[..|evs| - 1]);
    NewSlotIsRouted(TableAfter(evs[..|evs| - 1]), evs[|evs| - 1], k);
  }

  lemma NewSlotIsRouted(t: Table, ev: ToolEvent, k: nat)
    requires Bounded(t) && |t.slots| <= k < |t.Accept(ev).slots|
    ensures t.index.Slot(ev) == k
  {
    SlotWithinTable(t, ev);
  }

  /** The events of a run that were routed to slot `k`. */
  function RoutedTo(evs: seq<ToolEvent>, k: nat): seq<ToolEvent> {
    if evs == [] then []
    else
      var init, last := evs[..|evs| - 1], evs[|evs| - 1];
      RoutedTo(init, k) + if After(init).Slot(last) == k then [last] else []
  }

  /** In every run each slot holds what its own events told it, in order, and nothing else. */
  lemma {:induction false} SlotHoldsItsEvents(evs: seq<ToolEvent>, k: nat)
    requires k < |TableAfter(evs).slots|
    ensures TableAfter(evs).slots[k] == ApplyAll(RoutedTo(evs, k))
  {
    var n := |evs| - 1;
    var init, last := evs[..n], evs[n];
    var t := TableAfter(init);
    TableBounded(init);
    SlotWithinTable(t, last);
    if k < |t.slots| {
      SlotHoldsItsEvents(init, k);
    } else {
      NothingRoutedBeyond(init, k);
    }
    var before := RoutedTo(init, k);
    assert (before + [last])[..|before|] == before && before + [] == before;
  }

  lemma {:induction false} NothingRoutedBeyond(evs: seq<ToolEvent>, k: nat)
    requires k >= |TableAfter(evs).slots|
    ensures RoutedTo(evs, k) == []
  {
    if evs != [] {
      TableBounded(evs[..|evs| - 1]);
      NothingRoutedBeyond(evs[..|evs| - 1], k);
    }
  }

  // ---- The client keeps up with the translator ----

  /** The client holds what is current, unless sent arguments were rewritten since. */
  ghost predicate Synced(s: Slot) {
    && s.sentId == s.callId && s.sentName == s.name && s.sentType == Some(TypeOf(s))
    && (s.sentArguments == s.arguments || !(s.sentArguments <= s.arguments))
  }

  ghost predicate Mirrored(slots: seq<Slot>, calls: seq<ClientCall>) {
    && |calls| == |slots|
    && forall i :: 0 <= i < |slots| ==> Synced(slots[i]) && calls[i] == Mirror(slots[i])
  }

  ghost predicate KeptUp(st: StreamState, c: Client) {
    && Bounded(st.table)
    && Mirrored(st.table.slots, c.calls)
    && (st.sawToolCall <==> st.table.slots != [])
  }

  lemma {:induction false} SeeAllAppend(c: Client, a: seq<Chunk>, b: seq<Chunk>)
    ensures c.SeeAll(a + b) == c.SeeAll(a).SeeAll(b)
    decreases |a|
  {
    if a == [] {
      assert a + b == b;
    } else {
      assert (a + b)[1..] == a[1..] + b;
      SeeAllAppend(c.See(a[0]), a[1..], b);
    }
  }

  /** The slot an event is applied to, before it is. */
  function Target(t: Table, ev: ToolEvent): Slot {
    if t.index.Slot(ev) < |t.slots| then t.slots[t.index.Slot(ev)] else FreshSlot
  }

  lemma ToolStageResult(st: StreamState, ev: ToolEvent, kind: Kind)
    requires Bounded(st.table)
    ensures var k, s, out := st.table.index.Slot(ev), Apply(Target(st.table, ev), ev), ToolStage(st, Event(kind, Some(ev)));
            && k <= |st.table.slots|
            && out.state.table.index == st.table.index.Routed(ev)
            && out.state.table.slots == Pad(st.table.slots, k + 1)[k := Flushed(s)]
            && out.state.sawToolCall == (st.sawToolCall || PendingDelta(s).Some?)
            && out.chunks == if PendingDelta(s).Some? then [CallChunk(!st.sentRole, ToChunkCall(k, PendingDelta(s).value))] else []
  {
    SlotWithinTable(st.table, ev);
    var k := st.table.index.Slot(ev);
    assert st.table.Accept(ev).slots[k] == Apply(Target(st.table, ev), ev);
  }

  lemma PutCallMirrors(slots: seq<Slot>, c: Client, k: nat, s: Slot)
    requires Mirrored(slots, c.calls) && k <= |slots| && Synced(s)
    ensures Mirrored(Pad(slots, k + 1)[k := s], c.PutCall(k, Mirror(s)).calls)
    ensures k < |slots| && Mirror(slots[k]) == Mirror(s) ==> Mirrored(Pad(slots, k + 1)[k := s], c.calls)
  {
  }

  lemma SeeCall(c: Client, role: bool, k: nat, d: Delta)
    ensures c.SeeAll([CallChunk(role, ToChunkCall(k, d))]) == c.PutCall(k, Receive(c.CallAt(k), d))
  {
    var chunks := [CallChunk(role, ToChunkCall(k, d))];
    assert chunks[1..] == [];
    assert FromChunkCall(ToChunkCall(k, d)) == d;
  }

  lemma ToolStageKeepsUp(st: StreamState, c: Client, e: Event)
    requires KeptUp(st, c)
    ensures KeptUp(ToolStage(st, e).state, c.SeeAll(ToolStage(st, e).chunks))
    ensures var seen := c.SeeAll(ToolStage(st, e).chunks); seen.(calls := c.calls) == c
  {
    if e.tool.Some? {
      var ev := e.tool.value;
      ToolStageResult(st, ev, e.kind);
      AcceptBounded(st.table, ev);
      var k, s, out := st.table.index.Slot(ev), Target(st.table, ev), ToolStage(st, e);
      FlushReachesClient(Apply(s, ev));
      assert Mirror(Apply(s, ev)) == Mirror(s) == c.CallAt(k);
      PutCallMirrors(st.table.slots, c, k, Flushed(Apply(s, ev)));
      if PendingDelta(Apply(s, ev)).Some? {
        SeeCall(c, !st.sentRole, k, PendingDelta(Apply(s, ev)).value);
      }
    }
  }

  // ---- Streaming and collecting go in step ----

  /** A slot without its record of what was sent: all that collecting keeps. */
  function Core(s: Slot): Slot {
    s.(sentId := None, sentName := None, sentArguments := "", sentType := None)
  }

  ghost predicate SameCore(a: seq<Slot>, b: seq<Slot>) {
    |a| == |b| && forall i :: 0 <= i < |a| ==> Core(a[i]) == Core(b[i])
  }

  ghost predicate Agree(st: StreamState, c: Client, col: Collected) {
    && KeptUp(st, c)
    && col.table.index == st.table.index
    && SameCore(st.table.slots, col.table.slots)
    && c.text == col.text && c.refusal == col.refusal
  }

  lemma MergeSameCore(a: seq<Slot>, b: seq<Slot>, k: nat, ev: ToolEvent, s: Slot)
    requires SameCore(a, b) && k <= |a|
    requires Core(s) == Core(Apply(if k < |a| then a[k] else FreshSlot, ev))
    ensures SameCore(Pad(a, k + 1)[k := s], Merge(b, k, ev))
  {
  }

  lemma ToolStageAgrees(st: StreamState, c: Client, col: Collected, e: Event)
    requires Agree(st, c, col)
    ensures Agree(ToolStage(st, e).state, c.SeeAll(ToolStage(st, e).chunks),
                  col.(table := col.table.AcceptOpt(e.tool)))
    ensures c.SeeAll(ToolStage(st, e).chunks).finish == c.finish
  {
    ToolStageKeepsUp(st, c, e);
    if e.tool.Some? {
      var ev := e.tool.value;
      ToolStageResult(st, ev, e.kind);
      MergeSameCore(st.table.slots, col.table.slots, st.table.index.Slot(ev), ev, Flushed(Apply(Target(st.table, ev), ev)));
    }
  }

  lemma TextStageAgrees(st: StreamState, c: Client, col: Collected, e: Event)
    requires Agree(st, c, col)
    ensures Agree(TextStage(st, e).state, c.SeeAll(TextStage(st, e).chunks),
                  col.Take(e).(table := col.table, incomplete := col.incomplete))
    ensures c.SeeAll(TextStage(st, e).chunks).finish == c.finish
  {
    var chunks := TextStage(st, e).chunks;
    if chunks != [] {
      assert chunks[1..] == [];
      assert c.SeeAll(chunks) == c.See(chunks[0]);
    }
  }

  lemma DeltasAgree(st: StreamState, c: Client, col: Collected, e: Event)
    requires Agree(st, c, col)
    ensures Agree(Deltas(st, e).state, c.SeeAll(Deltas(st, e).chunks), col.Take(e))
    ensures c.SeeAll(Deltas(st, e).chunks).finish == c.finish
  {
    var text := TextStage(st, e);
    TextStageAgrees(st, c, col, e);
    var mid := col.Take(e).(table := col.table, incomplete := col.incomplete);
    ToolStageAgrees(text.state, c.SeeAll(text.chunks), mid, e);
    SeeAllAppend(c, text.chunks, ToolStage(text.state, e).chunks);
  }

  // ---- Every slot is flushed when it changes ----

  lemma {:induction false} SyncedFlush(st: StreamState, k: nat)
    requires forall i :: k <= i < |st.table.slots| ==> Synced(st.table.slots[i])
    ensures FlushFrom(st, k) == Emission(st, [])
    decreases |st.table.slots| - k
  {
    if k < |st.table.slots| {
      SyncedFlush(st, k + 1);
    }
  }

  /** The streaming side ends here. */
  predicate EndsStream(line: Line) {
    line.Some? && (line.value.IsTerminal() || (line.value.kind.Failure? && line.value.kind.error.Some?))
  }

  function ToolOf(line: Line): seq<ToolEvent> {
    if line.Some? && line.value.tool.Some? then [line.value.tool.value] else []
  }

  /** The tool events of a stream, up to the line that ends it. */
  function ToolsOf(lines: seq<Line>): seq<ToolEvent> {
    if lines == [] then []
    else ToolOf(lines[0]) + if EndsStream(lines[0]) then [] else ToolsOf(lines[1..])
  }

  /** Slot `s` holds what the events `evs` told it, and what was streamed of them. */
  ghost predicate Holds(s: Slot, evs: seq<ToolEvent>) {
    Synced(s) && Core(s) == Core(ApplyAll(evs)) && s.sentArguments == SentText(evs)
  }

  /** The stream's table is that of the tool events, and every slot is flushed. */
  ghost predicate Tracks(t: Table, evs: seq<ToolEvent>) {
    && t.index == After(evs)
    && |t.slots| == |TableAfter(evs).slots|
    && forall k :: 0 <= k < |t.slots| ==> Holds(t.slots[k], RoutedTo(evs, k))
  }

  lemma TrackedIsBounded(t: Table, evs: seq<ToolEvent>)
    requires Tracks(t, evs)
    ensures Bounded(t)
  {
    TableBounded(evs);
  }

  lemma FlushHolds(s: Slot, evs: seq<ToolEvent>, ev: ToolEvent)
    requires Holds(s, evs) || (s == FreshSlot && evs == [])
    ensures Holds(Flushed(Apply(s, ev)), evs + [ev])
  {
    assert (evs + [ev])[..|evs|] == evs;
    var next := Apply(s, ev);
    assert Core(next) == Core(ApplyAll(evs + [ev]));
  }

  lemma RoutedSnoc(evs: seq<ToolEvent>, ev: ToolEvent, k: nat)
    ensures RoutedTo(evs + [ev], k) == if After(evs).Slot(ev) == k then RoutedTo(evs, k) + [ev] else RoutedTo(evs, k)
    ensures TableAfter(evs + [ev]) == TableAfter(evs).Accept(ev) && After(evs + [ev]) == After(evs).Routed(ev)
  {
    assert (evs + [ev])[..|evs|] == evs;
    assert RoutedTo(evs, k) + [] == RoutedTo(evs, k);
  }

  lemma ToolStageTracks(st: StreamState, evs: seq<ToolEvent>, ev: ToolEvent, kind: Kind)
    requires Tracks(st.table, evs)
    ensures Tracks(ToolStage(st, Event(kind, Some(ev))).state.table, evs + [ev])
  {
    TableBounded(evs);
    TrackedIsBounded(st.table, evs);
    ToolStageResult(st, ev, kind);
    var n, t := st.table.index.Slot(ev), ToolStage(st, Event(kind, Some(ev))).state.table;
    RoutedSnoc(evs, ev, n);
    forall k | 0 <= k < |t.slots| ensures Holds(t.slots[k], RoutedTo(evs + [ev], k)) {
      RoutedSnoc(evs, ev, k);
      if k == n {
        if n == |st.table.slots| {
          NothingRoutedBeyond(evs, n);
        }
        FlushHolds(Target(st.table, ev), RoutedTo(evs, n), ev);
      }
    }
  }

  lemma LineTracks(st: StreamState, evs: seq<ToolEvent>, line: Line)
    requires Tracks(st.table, evs)
    ensures var after := if line.None? then st else Deltas(st, line.value).state;
            && Tracks(after.table, evs + ToolOf(line))
            && StepLine(st, line).state == after && FlushFrom(after, 0) == Emission(after, [])
            && StepLine(st, line).ended == EndsStream(line)
  {
    assert evs + [] == evs;
    if line.Some? {
      var e := line.value;
      assert TextStage(st, e).state.table == st.table;
      if e.tool.Some? {
        ToolStageTracks(TextStage(st, e).state, evs, e.tool.value, e.kind);
      }
      SyncedFlush(Deltas(st, e).state, 0);
    } else {
      SyncedFlush(st, 0);
    }
  }

  lemma {:induction false} StreamTracks(st: StreamState, evs: seq<ToolEvent>, lines: seq<Line>)
    requires Tracks(st.table, evs)
    ensures Tracks(Stream(st, lines).state.table, evs + ToolsOf(lines))
    decreases |lines|
  {
    if lines == [] {
      assert evs + [] == evs;
    } else {
      LineTracks(st, evs, lines[0]);
      FirstLine(st, evs, lines);
      if !EndsStream(lines[0]) {
        StreamTracks(StepLine(st, lines[0]).state, evs + ToolOf(lines[0]), lines[1..]);
      }
    }
  }

  lemma FirstLine(st: StreamState, evs: seq<ToolEvent>, lines: seq<Line>)
    requires lines != [] && StepLine(st, lines[0]).ended == EndsStream(lines[0])
    ensures var first := StepLine(st, lines[0]);
            if EndsStream(lines[0]) then Stream(st, lines) == first && evs + ToolsOf(lines) == evs + ToolOf(lines[0])
            else && Stream(st, lines).state == Stream(first.state, lines[1..]).state
                 && evs + ToolsOf(lines) == evs + ToolOf(lines[0]) + ToolsOf(lines[1..])
  {
  }

  /** After any lines the flush has nothing to send and changes nothing; nor has it after the chunks
      of the event that ends a stream, which is where the code flushes. */
  lemma FinalFlushIsSilent(lines: seq<Line>, last: Event)
    ensures var st := Stream(EmptyStream, lines).state;
            && FlushFrom(st, 0) == Emission(st, [])
            && FlushFrom(Deltas(st, last).state, 0) == Emission(Deltas(st, last).state, [])
  {
    var st := Stream(EmptyStream, lines).state;
    StreamTracks(EmptyStream, [], lines);
    assert [] + ToolsOf(lines) == ToolsOf(lines);
    LineTracks(st, ToolsOf(lines), None);
    LineTracks(st, ToolsOf(lines), Some(last));
  }

  // ---- When the two messages are the same ----

  /** The slot shows in a message, and what was streamed of its arguments was not rewritten. */
  predicate Deliverable(s: Slot) {
    ToMessageCall(s).Some? && s.sentArguments <= s.arguments
  }

  ghost predicate NoneEmpty(slots: seq<Slot>) {
    forall i :: 0 <= i < |slots| ==> ToMessageCall(slots[i]).Some?
  }

  lemma CompactSnoc(init: seq<Slot>, last: Slot)
    ensures Compact(init + [last]) ==
            if ToMessageCall(last).Some? then Compact(init) + [ToMessageCall(last).value] else Compact(init)
    ensures NoneEmpty(init + [last]) <==> NoneEmpty(init) && ToMessageCall(last).Some?
  {
    var all := init + [last];
    assert all[..|all| - 1] == init && all[|all| - 1] == last;
    assert forall i :: 0 <= i < |init| ==> all[i] == init[i];
    assert Compact(init) + [] == Compact(init);
  }

  lemma {:induction false} CompactLength(slots: seq<Slot>)
    ensures |Compact(slots)| <= |slots|
    ensures |Compact(slots)| == |slots| <==> NoneEmpty(slots)
    ensures NoneEmpty(slots) ==> forall i :: 0 <= i < |slots| ==> Compact(slots)[i] == ToMessageCall(slots[i]).value
  {
    if slots != [] {
      var init, last := slots[..|slots| - 1], slots[|slots| - 1];
      CompactLength(init);
      CompactSnoc(init, last);
      assert slots == init + [last];
    }
  }

  lemma {:induction false} CompactOfCore(a: seq<Slot>, b: seq<Slot>)
    requires SameCore(a, b)
    ensures Compact(a) == Compact(b)
  {
    if a != [] {
      CompactOfCore(a[..|a| - 1], b[..|b| - 1]);
      var x, y := a[|a| - 1], b[|b| - 1];
      assert Core(x) == Core(y);
      assert ToMessageCall(x) == ToMessageCall(Core(x)) && ToMessageCall(y) == ToMessageCall(Core(y));
    }
  }

  lemma CallsDelivered(slots: seq<Slot>, calls: seq<ClientCall>, built: seq<MessageCall>)
    requires Mirrored(slots, calls) && |built| == |calls|
    requires forall i :: 0 <= i < |calls| ==> built[i] == ClientMessageCall(calls[i])
    ensures built == Compact(slots) <==> forall i :: 0 <= i < |slots| ==> Deliverable(slots[i])
  {
    CompactLength(slots);
    if NoneEmpty(slots) {
      forall i | 0 <= i < |slots|
        ensures built[i] == Compact(slots)[i] <==> Deliverable(slots[i])
      {
      }
      if built == Compact(slots) {
        assert forall i :: 0 <= i < |slots| ==> built[i] == Compact(slots)[i];
      }
    }
  }

  ghost predicate AllDeliverable(slots: seq<Slot>) {
    forall i :: 0 <= i < |slots| ==> Deliverable(slots[i])
  }

  lemma TerminalStep(st: StreamState, c: Client, e: Event)
    requires KeptUp(Deltas(st, e).state, c) && e.IsTerminal()
    ensures StepLine(st, Some(e)) ==
            Step(Deltas(st, e).state,
                 Deltas(st, e).chunks + [FinishChunk(FinishReason(e, Deltas(st, e).state.sawToolCall)), DoneChunk], true)
  {
    var deltas := Deltas(st, e);
    SyncedFlush(deltas.state, 0);
    assert deltas.chunks + [] == deltas.chunks;
  }

  lemma FinishedMessage(st: StreamState, c: Client, col: Collected, e: Event)
    requires Agree(st, c, col)
    requires FinishReason(e, false) == col.incomplete.GetOr("stop")
    ensures c.(finish := Some(FinishReason(e, st.sawToolCall))).Reassembled() == col.Completion()
            <==> AllDeliverable(st.table.slots)
  {
    var slots := st.table.slots;
    var done := c.(finish := Some(FinishReason(e, st.sawToolCall))).Reassembled();
    CallsDelivered(slots, c.calls, done.toolCalls);
    CompactOfCore(slots, col.table.slots);
  }

  lemma TerminalAgrees(st: StreamState, c: Client, col: Collected, e: Event)
    requires Agree(st, c, col) && e.IsTerminal() && col.incomplete.None?
    ensures var step := StepLine(st, Some(e));
            step.ended && (c.SeeAll(step.chunks).Reassembled() == col.Take(e).Completion()
                           <==> AllDeliverable(step.state.table.slots))
  {
    var deltas := Deltas(st, e);
    DeltasAgree(st, c, col, e);
    var mid := c.SeeAll(deltas.chunks);
    TerminalStep(st, mid, e);
    var reason := FinishReason(e, deltas.state.sawToolCall);
    SeeAllAppend(c, deltas.chunks, [FinishChunk(reason), DoneChunk]);
    SeeFinish(mid, reason);
    FinishedMessage(deltas.state, mid, col.Take(e), e);
  }

  lemma SeeFinish(c: Client, reason: string)
    ensures c.SeeAll([FinishChunk(reason), DoneChunk]) == c.(finish := Some(reason))
  {
    assert [FinishChunk(reason), DoneChunk][1..] == [DoneChunk] && [DoneChunk][1..] == [];
  }

  /** Neither a failure nor the end: the stream goes on. */
  predicate Quiet(line: Line) {
    line.None? || !(line.value.kind.Failure? || line.value.IsTerminal())
  }

  /** The stream ends at its first completed or incomplete event, and no failure comes before it. */
  predicate EndsAtTerminal(lines: seq<Line>) {
    && lines != []
    && (forall i :: 0 <= i < |lines| - 1 ==> Quiet(lines[i]))
    && lines[|lines| - 1].Some? && lines[|lines| - 1].value.IsTerminal()
  }

  lemma QuietStepAgrees(st: StreamState, c: Client, col: Collected, line: Line)
    requires Agree(st, c, col) && col.incomplete.None? && Quiet(line)
    ensures var step := StepLine(st, line); var next := if line.None? then col else col.Take(line.value);
            !step.ended && Agree(step.state, c.SeeAll(step.chunks), next) && next.incomplete.None?
  {
    if line.Some? {
      DeltasAgree(st, c, col, line.value);
    }
  }

  lemma {:induction false} RefinesFrom(st: StreamState, c: Client, col: Collected, lines: seq<Line>)
    requires Agree(st, c, col) && col.incomplete.None? && EndsAtTerminal(lines)
    ensures var streamed := Stream(st, lines);
            streamed.ended && Collect(col, lines).Ok?
            && (c.SeeAll(streamed.chunks).Reassembled() == Collect(col, lines).value
                <==> AllDeliverable(streamed.state.table.slots))
    decreases |lines|
  {
    if |lines| == 1 {
      TerminalAgrees(st, c, col, lines[0].value);
      assert lines[1..] == [];
    } else {
      var first := StepLine(st, lines[0]);
      assert Quiet(lines[0]);
      QuietStepAgrees(st, c, col, lines[0]);
      var next := if lines[0].None? then col else col.Take(lines[0].value);
      RefinesFrom(first.state, c.SeeAll(first.chunks), next, lines[1..]);
      SeeAllAppend(c, first.chunks, Stream(first.state, lines[1..]).chunks);
    }
  }

  /** A call told by these events shows in a message, and its arguments still begin with what was
      streamed of them. */
  predicate Delivered(evs: seq<ToolEvent>) {
    ToMessageCall(ApplyAll(evs)).Some? && SentText(evs) <= ApplyAll(evs).arguments
  }

  /** Every call of the stream is delivered. */
  ghost predicate AllDelivered(lines: seq<Line>) {
    forall k: nat :: RoutedTo(ToolsOf(lines), k) != [] ==> Delivered(RoutedTo(ToolsOf(lines), k))
  }

  lemma {:induction false} RoutedIffSlot(evs: seq<ToolEvent>, k: nat)
    ensures RoutedTo(evs, k) != [] <==> k < |TableAfter(evs).slots|
  {
    if evs != [] {
      var init, last := evs[..|evs| - 1], evs[|evs| - 1];
      RoutedIffSlot(init, k);
      TableBounded(init);
      SlotWithinTable(TableAfter(init), last);
    }
  }

  lemma DeliverableIffDelivered(lines: seq<Line>)
    ensures AllDeliverable(Stream(EmptyStream, lines).state.table.slots) <==> AllDelivered(lines)
  {
    var t, evs := Stream(EmptyStream, lines).state.table, ToolsOf(lines);
    StreamTracks(EmptyStream, [], lines);
    assert [] + evs == evs;
    forall k: nat ensures RoutedTo(evs, k) != [] <==> k < |t.slots| {
      RoutedIffSlot(evs, k);
    }
    forall k | 0 <= k < |t.slots| ensures Deliverable(t.slots[k]) <==> Delivered(RoutedTo(evs, k)) {
      assert Holds(t.slots[k], RoutedTo(evs, k));
      assert ToMessageCall(t.slots[k]) == ToMessageCall(Core(t.slots[k]));
      assert ToMessageCall(ApplyAll(RoutedTo(evs, k))) == ToMessageCall(Core(ApplyAll(RoutedTo(evs, k))));
      assert t.slots[k].arguments == Core(t.slots[k]).arguments;
    }
  }

  /** A client that puts the streamed chunks together gets the collected message, with the same
      text, refusal, tool calls and finish reason, exactly when every call of the stream is delivered. */
  lemma StreamingRefinesCollecting(lines: seq<Line>)
    requires EndsAtTerminal(lines)
    ensures var streamed := Stream(EmptyStream, lines);
            streamed.ended && Collect(NothingCollected, lines).Ok?
            && (NewClient.SeeAll(streamed.chunks).Reassembled() == Collect(NothingCollected, lines).value
                <==> AllDelivered(lines))
  {
    RefinesFrom(EmptyStream, NewClient, NothingCollected, lines);
    DeliverableIffDelivered(lines);
  }

  // ---- Where the two differ ----

  const CompletedLine: Line := Some(Event(Completed, None))

  /** A snapshot of the arguments of the call at output 0. */
  function SnapshotLine(id: string, arguments: string): Line {
    Some(Event(Other, Some(ToolEvent(Some(0), Some(id), None, Some(arguments), None, Some(id), None, true, true))))
  }

  lemma BothAtSlotZero(x: ToolEvent, y: ToolEvent, output: int)
    requires x.outputIndex == Some(output) && y.outputIndex == Some(output)
    ensures RoutedTo([x, y], 0) == [x, y]
  {
    RoutedSnoc([], x, 0);
    RoutedSnoc([x], y, 0);
    assert output in After([x]).outputs;
  }

  lemma RewrittenIsNotDelivered(x: ToolEvent, y: ToolEvent)
    requires x.replace && x.arguments.Some? && y.replace && y.arguments.Some?
    requires !(x.arguments.value <= y.arguments.value)
    ensures !Delivered([x, y])
  {
    assert [x, y][..1] == [x] && [x][..0] == [];
    assert ApplyAll([x]).arguments == x.arguments.value && ApplyAll([x, y]).arguments == y.arguments.value;
    assert SentText([x]) == x.arguments.value;
  }

  /** A snapshot that takes back streamed arguments cannot be streamed: the client keeps the old ones. */
  lemma RewrittenArgumentsDiffer(id: string, a: string, b: string)
    requires !(a <= b)
    ensures var lines := [SnapshotLine(id, a), SnapshotLine(id, b), CompletedLine];
            Collect(NothingCollected, lines).Ok?
            && NewClient.SeeAll(Stream(EmptyStream, lines).chunks).Reassembled() != Collect(NothingCollected, lines).value
  {
    var lines := [SnapshotLine(id, a), SnapshotLine(id, b), CompletedLine];
    var x, y := lines[0].value.tool.value, lines[1].value.tool.value;
    ToolsOfThree(lines);
    BothAtSlotZero(x, y, 0);
    RewrittenIsNotDelivered(x, y);
    assert !AllDelivered(lines) by {
      assert RoutedTo(ToolsOf(lines), 0) == [x, y];
    }
    StreamingRefinesCollecting(lines);
  }

  lemma ToolsOfThree(lines: seq<Line>)
    requires |lines| == 3 && lines[2] == CompletedLine
    requires forall i :: 0 <= i < 2 ==> lines[i].Some? && lines[i].value.kind.Other? && lines[i].value.tool.Some?
    ensures ToolsOf(lines) == [lines[0].value.tool.value, lines[1].value.tool.value]
    ensures EndsAtTerminal(lines)
  {
    assert lines[1..][1..] == [lines[2]];
    assert ToolsOf([lines[2]]) == [];
  }

  lemma NothingToDeliver(ev: ToolEvent)
    requires ev.callId.None? && ev.name.None? && ev.arguments.GetOr("") == ""
    ensures !Delivered([ev])
  {
    var one := [ev];
    assert one[..|one| - 1] == [] && one[|one| - 1] == ev;
    assert ApplyAll([]) == FreshSlot;
    assert ApplyAll(one) == Apply(FreshSlot, ev);
  }

  /** A call with neither id, name nor arguments is announced to the client and not collected. */
  lemma EmptyCallDiffers(output: int, toolType: Option<string>)
    ensures var nothing := ToolEvent(Some(output), None, None, Some(""), toolType, None, None, false, false);
            var lines := [Some(Event(Other, Some(nothing))), CompletedLine];
            Collect(NothingCollected, lines).Ok?
            && NewClient.SeeAll(Stream(EmptyStream, lines).chunks).Reassembled() != Collect(NothingCollected, lines).value
  {
    var nothing := ToolEvent(Some(output), None, None, Some(""), toolType, None, None, false, false);
    var lines := [Some(Event(Other, Some(nothing))), CompletedLine];
    assert lines[1..] == [CompletedLine];
    assert ToolsOf([CompletedLine]) == [];
    assert ToolsOf(lines) == [nothing];
    RoutedSnoc([], nothing, 0);
    NothingToDeliver(nothing);
    assert !AllDelivered(lines) by {
      assert RoutedTo(ToolsOf(lines), 0) == [nothing];
    }
    StreamingRefinesCollecting(lines);
  }

  /** A failure without an error object fails the collection; the stream goes on and finishes. */
  lemma SilentFailureDiffers()
    ensures var lines := [Some(Event(Failure(None), None)), CompletedLine];
            && Collect(NothingCollected, lines) == Err(DefaultError)
            && Stream(EmptyStream, lines).ended && Stream(EmptyStream, lines).chunks == [FinishChunk("stop"), DoneChunk]
  {
    var failure := Event(Failure(None), None);
    var lines := [Some(failure), CompletedLine];
    assert lines[1..] == [CompletedLine];
    assert FlushFrom(EmptyStream, 0) == Emission(EmptyStream, []);
    assert StepLine(EmptyStream, CompletedLine) == Step(EmptyStream, [FinishChunk("stop"), DoneChunk], true);
    assert StepLine(EmptyStream, Some(failure)) == Step(EmptyStream, [], false);
    assert Stream(EmptyStream, [CompletedLine]) == StepLine(EmptyStream, CompletedLine);
  }

  // ---- Streams whose snapshots only extend ----

  function TableOf(t: Table, lines: seq<Line>): Table
    decreases |lines|
  {
    if lines == [] then t
    else TableOf(if lines[0].Some? then t.AcceptOpt(lines[0].value.tool) else t, lines[1..])
  }

  /** No event takes back arguments its slot already has. */
  ghost predicate OnlyExtends(t: Table, lines: seq<Line>)
    decreases |lines|
  {
    lines != [] ==>
      && (lines[0].Some? && lines[0].value.tool.Some? ==>
            var ev := lines[0].value.tool.value;
            Target(t, ev).arguments <= MergeArguments(Target(t, ev).arguments, ev))
      && OnlyExtends(if lines[0].Some? then t.AcceptOpt(lines[0].value.tool) else t, lines[1..])
  }

  ghost predicate AllSent(slots: seq<Slot>) {
    forall i :: 0 <= i < |slots| ==> slots[i].sentArguments == slots[i].arguments
  }

  lemma ToolStageSendsAll(st: StreamState, ev: ToolEvent, kind: Kind)
    requires Bounded(st.table) && AllSent(st.table.slots)
    requires Target(st.table, ev).arguments <= MergeArguments(Target(st.table, ev).arguments, ev)
    ensures AllSent(ToolStage(st, Event(kind, Some(ev))).state.table.slots)
  {
    ToolStageResult(st, ev, kind);
  }

  lemma DeltasSendAll(st: StreamState, c: Client, col: Collected, e: Event)
    requires Agree(st, c, col) && AllSent(st.table.slots)
    requires e.tool.Some? ==> var s := Target(col.table, e.tool.value);
                              s.arguments <= MergeArguments(s.arguments, e.tool.value)
    ensures AllSent(Deltas(st, e).state.table.slots)
  {
    var mid := TextStage(st, e).state;
    assert mid.table == st.table;
    if e.tool.Some? {
      ToolStageSendsAll(mid, e.tool.value, e.kind);
    }
  }

  lemma {:induction false} ExtendingFrom(st: StreamState, c: Client, col: Collected, lines: seq<Line>)
    requires Agree(st, c, col) && col.incomplete.None? && EndsAtTerminal(lines)
    requires AllSent(st.table.slots) && OnlyExtends(col.table, lines)
    ensures var slots := Stream(st, lines).state.table.slots;
            AllSent(slots) && SameCore(slots, TableOf(col.table, lines).slots)
    decreases |lines|
  {
    if |lines| == 1 {
      var e := lines[0].value;
      DeltasAgree(st, c, col, e);
      DeltasSendAll(st, c, col, e);
      TerminalStep(st, c.SeeAll(Deltas(st, e).chunks), e);
      assert TableOf(col.table, lines) == col.Take(e).table;
    } else {
      var first := StepLine(st, lines[0]);
      assert Quiet(lines[0]);
      QuietStepAgrees(st, c, col, lines[0]);
      if lines[0].Some? {
        DeltasSendAll(st, c, col, lines[0].value);
      }
      var next := if lines[0].None? then col else col.Take(lines[0].value);
      ExtendingFrom(first.state, c.SeeAll(first.chunks), next, lines[1..]);
    }
  }

  /** When snapshots only extend, the two messages are the same exactly when no slot is empty,
      that is, without id, name and arguments. */
  lemma ExtendingStreamsAgree(lines: seq<Line>)
    requires EndsAtTerminal(lines) && OnlyExtends(EmptyTable, lines)
    ensures Collect(NothingCollected, lines) == Ok(NewClient.SeeAll(Stream(EmptyStream, lines).chunks).Reassembled())
            <==> NoneEmpty(TableOf(EmptyTable, lines).slots)
  {
    RefinesFrom(EmptyStream, NewClient, NothingCollected, lines);
    ExtendingFrom(EmptyStream, NewClient, NothingCollected, lines);
  }

  // ---- What collecting collects ----

  function LineText(line: Line): string {
    if line.Some? && line.value.kind.TextDelta? then line.value.kind.text.GetOr("") else ""
  }

  function LineRefusal(line: Line): string {
    if line.Some? && line.value.kind.RefusalDelta? then line.value.kind.text.GetOr("") else ""
  }

  function AllText(lines: seq<Line>): string {
    if lines == [] then "" else LineText(lines[0]) + AllText(lines[1..])
  }

  function AllRefusal(lines: seq<Line>): string {
    if lines == [] then "" else LineRefusal(lines[0]) + AllRefusal(lines[1..])
  }

  /** Everything taken in, line by line. */
  function TakeAll(col: Collected, lines: seq<Line>): Collected
    decreases |lines|
  {
    if lines == [] then col else TakeAll(TakeLine(col, lines[0]), lines[1..])
  }

  predicate NoFailure(lines: seq<Line>) {
    forall i :: 0 <= i < |lines| ==> lines[i].None? || !lines[i].value.kind.Failure?
  }

  lemma {:induction false} CollectTakesAll(col: Collected, lines: seq<Line>)
    requires NoFailure(lines)
    ensures Collect(col, lines) == Ok(TakeAll(col, lines).Completion())
    decreases |lines|
  {
    if lines != [] {
      CollectTakesAll(TakeLine(col, lines[0]), lines[1..]);
    }
  }

  function TakeLine(col: Collected, line: Line): (next: Collected)
    ensures next.text == col.text + LineText(line) && next.refusal == col.refusal + LineRefusal(line)
  {
    if line.None? then col else col.Take(line.value)
  }

  lemma {:induction false} TakenText(col: Collected, lines: seq<Line>)
    ensures TakeAll(col, lines).text == col.text + AllText(lines)
    ensures TakeAll(col, lines).refusal == col.refusal + AllRefusal(lines)
    decreases |lines|
  {
    if lines != [] {
      var next := TakeLine(col, lines[0]);
      TakenText(next, lines[1..]);
      Reassociate(col.text, LineText(lines[0]), AllText(lines[1..]));
      Reassociate(col.refusal, LineRefusal(lines[0]), AllRefusal(lines[1..]));
    }
  }

  lemma Reassociate(a: string, b: string, c: string)
    ensures (a + b) + c == a + (b + c)
  {
  }

  lemma {:induction false} TakenTable(col: Collected, lines: seq<Line>)
    ensures TakeAll(col, lines).table == TableOf(col.table, lines)
    decreases |lines|
  {
    if lines != [] {
      TakenTable(TakeLine(col, lines[0]), lines[1..]);
    }
  }

  /** The finish reason an incomplete event gives, if its response is an object. */
  function ReasonOf(line: Line): Option<string> {
    if line.Some? && line.value.kind.Incomplete? && line.value.kind.response.Obj?
    then Some(FinishOfIncomplete(line.value.kind.response)) else None
  }

  /** The last reason given. */
  function LastReason(lines: seq<Line>): Option<string> {
    if lines == [] then None
    else if LastReason(lines[1..]).Some? then LastReason(lines[1..])
    else ReasonOf(lines[0])
  }

  lemma {:induction false} TakenReason(col: Collected, lines: seq<Line>)
    ensures TakeAll(col, lines).incomplete == if LastReason(lines).Some? then LastReason(lines) else col.incomplete
    decreases |lines|
  {
    if lines != [] {
      TakenReason(TakeLine(col, lines[0]), lines[1..]);
    }
  }

  /** Without failure the collected message holds all text, all refusal and every tool call that is
      not empty, in order; with tool calls it finishes with them, else for the last reason given. */
  lemma CollectedMessage(lines: seq<Line>)
    requires NoFailure(lines)
    ensures Collect(NothingCollected, lines).Ok?
    ensures var m := Collect(NothingCollected, lines).value;
            && m.content.GetOr("") == AllText(lines) && m.refusal.GetOr("") == AllRefusal(lines)
            && m.toolCalls == Compact(TableOf(EmptyTable, lines).slots)
            && (m.content.None? <==> AllText(lines) == "" && (m.toolCalls != [] || AllRefusal(lines) != ""))
            && m.finish == (if m.toolCalls != [] then "tool_calls" else LastReason(lines).GetOr("stop"))
  {
    CollectTakesAll(NothingCollected, lines);
    TakenText(NothingCollected, lines);
    TakenTable(NothingCollected, lines);
    TakenReason(NothingCollected, lines);
  }

  // ---- The tool calls of a message, told from the events ----

  function AllTools(lines: seq<Line>): seq<ToolEvent> {
    if lines == [] then [] else ToolOf(lines[0]) + AllTools(lines[1..])
  }

  function Fold(t: Table, evs: seq<ToolEvent>): Table
    decreases |evs|
  {
    if evs == [] then t else Fold(t.Accept(evs[0]), evs[1..])
  }

  lemma {:induction false} TableOfFolds(t: Table, lines: seq<Line>)
    ensures TableOf(t, lines) == Fold(t, AllTools(lines))
    decreases |lines|
  {
    if lines != [] {
      var tool, rest := ToolOf(lines[0]), AllTools(lines[1..]);
      TableOfFolds(if lines[0].Some? then t.AcceptOpt(lines[0].value.tool) else t, lines[1..]);
      if tool == [] {
        assert tool + rest == rest;
      } else {
        assert (tool + rest)[0] == tool[0] && (tool + rest)[1..] == rest;
      }
    }
  }

  ghost predicate Fills(t: Table, evs: seq<ToolEvent>) {
    t == TableAfter(evs)
  }

  lemma FillsMore(t: Table, evs: seq<ToolEvent>, ev: ToolEvent)
    requires Fills(t, evs)
    ensures Fills(t.Accept(ev), evs + [ev])
  {
    RoutedSnoc(evs, ev, 0);
  }

  lemma {:induction false} FoldFills(t: Table, before: seq<ToolEvent>, evs: seq<ToolEvent>, all: seq<ToolEvent>)
    requires Fills(t, before) && all == before + evs
    ensures Fills(Fold(t, evs), all)
    decreases |evs|
  {
    if evs == [] {
      assert all == before;
    } else {
      FillsMore(t, before, evs[0]);
      assert all == (before + [evs[0]]) + evs[1..];
      FoldFills(t.Accept(evs[0]), before + [evs[0]], evs[1..], all);
    }
  }

  /** What a message says of a call with these events: the last id, name and type, and the arguments; nothing
      when there is neither id, name nor arguments. */
  function CallTold(evs: seq<ToolEvent>): seq<MessageCall> {
    var id, name, arguments := LastGiven(CallIds(evs)), LastGiven(Names(evs)), ApplyAll(evs).arguments;
    if id.None? && name.None? && arguments == "" then []
    else [MessageCall(id, LastGiven(Types(evs)).GetOr("function"),
                      if name.None? && arguments == "" then None
                      else Some(FunctionPart(name, if arguments == "" then None else Some(arguments))))]
  }

  /** The calls at the first `n` slots. */
  function CallsTold(tools: seq<ToolEvent>, n: nat): seq<MessageCall> {
    if n == 0 then [] else CallsTold(tools, n - 1) + CallTold(RoutedTo(tools, n - 1))
  }

  lemma ShownIsTold(evs: seq<ToolEvent>)
    ensures CallTold(evs) == match ToMessageCall(ApplyAll(evs)) { case None => [] case Some(c) => [c] }
  {
    LastIdAndName(evs);
    LastType(evs);
  }

  lemma {:induction false} CompactIsTold(tools: seq<ToolEvent>, n: nat)
    requires n <= |TableAfter(tools).slots|
    ensures Compact(TableAfter(tools).slots[..n]) == CallsTold(tools, n)
  {
    if n > 0 {
      var slots := TableAfter(tools).slots;
      CompactIsTold(tools, n - 1);
      SlotHoldsItsEvents(tools, n - 1);
      CompactOneMore(slots, n - 1, RoutedTo(tools, n - 1));
    }
  }

  lemma CompactOneMore(slots: seq<Slot>, n: nat, evs: seq<ToolEvent>)
    requires n < |slots| && slots[n] == ApplyAll(evs)
    ensures Compact(slots[..n + 1]) == Compact(slots[..n]) + CallTold(evs)
  {
    var some := slots[..n + 1];
    assert some[..|some| - 1] == slots[..n] && some[|some| - 1] == slots[n];
    ShownIsTold(evs);
  }

  /** Without failure the tool calls of the collected message are those the events tell of, slot by slot. */
  lemma CollectedCalls(lines: seq<Line>)
    requires NoFailure(lines)
    ensures Collect(NothingCollected, lines).Ok?
    ensures var tools := AllTools(lines);
            Collect(NothingCollected, lines).value.toolCalls == CallsTold(tools, |TableAfter(tools).slots|)
  {
    var slots := TableAfter(AllTools(lines)).slots;
    CollectedMessage(lines);
    TableOfFolds(EmptyTable, lines);
    FoldFills(EmptyTable, [], AllTools(lines), AllTools(lines));
    CompactIsTold(AllTools(lines), |slots|);
    assert slots[..|slots|] == slots;
  }

  // ---- Failures and roles ----

  lemma {:induction false} StreamPastQuiet(st: StreamState, quiet: seq<Line>, rest: seq<Line>)
    requires forall i :: 0 <= i < |quiet| ==> !EndsStream(quiet[i])
    ensures !Stream(st, quiet).ended
    ensures Stream(st, quiet + rest) == Then(Stream(st, quiet).chunks, Stream(Stream(st, quiet).state, rest))
    decreases |quiet|
  {
    if quiet == [] {
      assert quiet + rest == rest;
      assert [] + Stream(st, rest).chunks == Stream(st, rest).chunks;
    } else {
      var first := StepLine(st, quiet[0]);
      assert quiet == [quiet[0]] + quiet[1..];
      assert quiet + rest == [quiet[0]] + (quiet[1..] + rest);
      StreamPastQuiet(first.state, quiet[1..], rest);
      var before := Stream(first.state, quiet[1..]);
      ThenThen(first.chunks, before.chunks, Stream(before.state, rest));
    }
  }

  lemma {:induction false} CollectPastQuiet(col: Collected, quiet: seq<Line>, failure: Event, rest: seq<Line>)
    requires forall i :: 0 <= i < |quiet| ==> Quiet(quiet[i])
    requires failure.kind.Failure?
    ensures var error := failure.kind.error;
            Collect(col, quiet + [Some(failure)] + rest) == Err(if error.Some? then Upstream(error.value) else DefaultError)
    decreases |quiet|
  {
    var lines := quiet + [Some(failure)] + rest;
    if quiet != [] {
      assert Quiet(quiet[0]) && lines[0] == quiet[0];
      assert lines[1..] == quiet[1..] + [Some(failure)] + rest;
      CollectPastQuiet(if quiet[0].None? then col else col.Take(quiet[0].value), quiet[1..], failure, rest);
    }
  }

  /** At the first failure event collecting always reports an error.  Streaming ends there with
      that error when the event carries an error object; without one it goes on with the rest. */
  lemma FirstFailure(quiet: seq<Line>, failure: Event, rest: seq<Line>)
    requires forall i :: 0 <= i < |quiet| ==> Quiet(quiet[i])
    requires failure.kind.Failure?
    ensures Collect(NothingCollected, quiet + [Some(failure)] + rest) ==
            Err(if failure.kind.error.Some? then Upstream(failure.kind.error.value) else DefaultError)
    ensures var before := Stream(EmptyStream, quiet); var deltas := Deltas(before.state, failure);
            Stream(EmptyStream, quiet + [Some(failure)] + rest) ==
            Then(before.chunks + deltas.chunks,
                 match failure.kind.error
                 case Some(error) => Step(deltas.state, [ErrorChunk(error), DoneChunk], true)
                 case None => Stream(deltas.state, rest))
  {
    CollectPastQuiet(NothingCollected, quiet, failure, rest);
    assert quiet + [Some(failure)] + rest == quiet + ([Some(failure)] + rest);
    StreamPastQuiet(EmptyStream, quiet, [Some(failure)] + rest);
    var before := Stream(EmptyStream, quiet);
    var deltas := Deltas(before.state, failure);
    ThenThen(before.chunks, deltas.chunks,
             match failure.kind.error
             case Some(error) => Step(deltas.state, [ErrorChunk(error), DoneChunk], true)
             case None => Stream(deltas.state, rest));
  }

  predicate IsDelta(chunk: Chunk) {
    chunk.TextChunk? || chunk.RefusalChunk? || chunk.CallChunk?
  }

  /** Only deltas; the role is on the first one, unless it was sent before. */
  ghost predicate DeltaRun(before: bool, out: Emission) {
    && (forall i :: 0 <= i < |out.chunks| ==> IsDelta(out.chunks[i]) && (out.chunks[i].role <==> !before && i == 0))
    && out.state.sentRole == (before || out.chunks != [])
  }

  lemma {:induction false} FlushFromRun(st: StreamState, k: nat)
    ensures DeltaRun(st.sentRole, FlushFrom(st, k))
    decreases |st.table.slots| - k
  {
    if k < |st.table.slots| {
      FlushFromRun(FlushSlot(st, k).state, k + 1);
    }
  }

  lemma DeltasRun(st: StreamState, e: Event)
    ensures DeltaRun(st.sentRole, Deltas(st, e))
  {
  }

  /** The role is announced on the first delta, never again; only the last two chunks are not deltas. */
  ghost predicate RoleOnce(before: bool, step: Step) {
    && (forall i :: 0 <= i < |step.chunks| ==>
          if IsDelta(step.chunks[i]) then step.chunks[i].role <==> !before && i == 0
          else step.ended && i >= |step.chunks| - 2)
    && (!step.ended ==> step.state.sentRole == (before || step.chunks != []))
  }

  lemma RunAppend(before: bool, first: Emission, second: Emission)
    requires DeltaRun(before, first) && DeltaRun(first.state.sentRole, second)
    ensures DeltaRun(before, Emission(second.state, first.chunks + second.chunks))
  {
  }

  lemma RunClosed(before: bool, out: Emission, last: Chunk)
    requires DeltaRun(before, out) && !IsDelta(last)
    ensures RoleOnce(before, Step(out.state, out.chunks + [last, DoneChunk], true))
  {
  }

  lemma StepRoleOnce(st: StreamState, line: Line)
    ensures RoleOnce(st.sentRole, StepLine(st, line))
  {
    if line.Some? {
      var e := line.value;
      var deltas := Deltas(st, e);
      DeltasRun(st, e);
      if e.kind.Failure? && e.kind.error.Some? {
        RunClosed(st.sentRole, deltas, ErrorChunk(e.kind.error.value));
      } else if e.IsTerminal() {
        var flush := FlushFrom(deltas.state, 0);
        FlushFromRun(deltas.state, 0);
        RunAppend(st.sentRole, deltas, flush);
        RunClosed(st.sentRole, Emission(flush.state, deltas.chunks + flush.chunks),
                  FinishChunk(FinishReason(e, flush.state.sawToolCall)));
      }
    }
  }

  lemma ThenRoleOnce(before: bool, first: Step, rest: Step)
    requires RoleOnce(before, first) && !first.ended && RoleOnce(first.state.sentRole, rest)
    ensures RoleOnce(before, Then(first.chunks, rest))
  {
  }

  lemma {:induction false} StreamAnnouncesRoleOnce(st: StreamState, lines: seq<Line>)
    ensures RoleOnce(st.sentRole, Stream(st, lines))
    decreases |lines|
  {
    if lines != [] {
      var first := StepLine(st, lines[0]);
      StepRoleOnce(st, lines[0]);
      if !first.ended {
        StreamAnnouncesRoleOnce(first.state, lines[1..]);
        ThenRoleOnce(st.sentRole, first, Stream(first.state, lines[1..]));
      }
    }
  }
}

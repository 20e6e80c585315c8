/**
 * The loops of app/core/openai/chat_responses.py over their mutable state, proved against the
 * functions of ChatStream.
 */
module ChatTranslator {
  import opened Wrappers
  import opened ToolCallEvents
  import opened ToolCallRouting
  import opened ToolCallSlots
  import opened ChatStream

  /** A ToolCallIndex and the list of ToolCallState it indexes. */
  class ToolCallTable {
    const index: ToolCallIndex
    var calls: seq<ToolCallState>

    ghost predicate Valid()
      reads this, calls
    {
      && (forall i, j :: 0 <= i < j < |calls| ==> calls[i] != calls[j])
      && (forall i :: 0 <= i < |calls| ==> calls[i].index == i)
    }

    ghost function Slots(): (s: seq<Slot>)
      reads this, calls
      ensures |s| == |calls| && forall i :: 0 <= i < |s| ==> s[i] == calls[i].View()
    {
      seq(|calls|, i requires 0 <= i < |calls| reads this, calls => calls[i].View())
    }

    ghost function View(): Table
      reads this, index, calls
    {
      Table(index.View(), Slots())
    }

    ghost function Repr(): set<object>
      reads this
    {
      {this, index} + set c | c in calls
    }

    constructor ()
      ensures Valid() && fresh(Repr()) && View() == EmptyTable
    {
      index := new ToolCallIndex();
      calls := [];
    }

    method MergeDelta(k: nat, ev: ToolEvent)
      requires Valid()
      modifies this, calls
      ensures Valid() && fresh(Repr() - old(Repr())) && k < |calls|
      ensures Slots() == Merge(old(Slots()), k, ev)
    {
      while |calls| <= k
        invariant Valid() && fresh(Repr() - old(Repr()))
        invariant old(calls) <= calls && forall c :: c in old(calls) ==> unchanged(c)
        invariant Pad(Slots(), k + 1) == Pad(old(Slots()), k + 1)
        decreases k + 1 - |calls|
      {
        ghost var before := Slots();
        var call := new ToolCallState(|calls|);
        calls := calls + [call];
        assert Slots() == before + [FreshSlot];
      }
      ghost var padded := Slots();
      calls[k].ApplyDelta(ev);
      assert Slots() == padded[k := Apply(padded[k], ev)];
    }

    method CompactCalls() returns (cleaned: seq<MessageCall>)
      requires Valid()
      ensures cleaned == Compact(Slots())
    {
      cleaned := [];
      for k := 0 to |calls|
        invariant cleaned == Compact(Slots()[..k])
      {
        assert Slots()[..k + 1][..k] == Slots()[..k];
        var c := calls[k];
        var part := BuildFunction(c.name, NonEmpty(c.arguments));
        if !(c.callId.None? && part.None?) {
          cleaned := cleaned + [MessageCall(c.callId, if c.toolType == "" then "function" else c.toolType, part)];
        }
      }
      assert Slots()[..|calls|] == Slots();
    }

    /** Route one event to its slot and merge it there. */
    method AcceptEvent(ev: ToolEvent) returns (k: nat)
      requires Valid()
      modifies this, index, calls
      ensures Valid() && fresh(Repr() - old(Repr())) && k < |calls|
      ensures View() == old(View()).Accept(ev) && k == old(View()).index.Slot(ev)
    {
      k := index.RouteEvent(ev);
      MergeDelta(k, ev);
    }
  }

  class ChatChunkState {
    const table: ToolCallTable
    var sawToolCall: bool
    var sentRole: bool

    ghost predicate Valid()
      reads this, table, table.calls
    {
      table.Valid()
    }

    ghost function View(): StreamState
      reads this, table, table.index, table.calls
    {
      StreamState(table.View(), sawToolCall, sentRole)
    }

    ghost function Repr(): set<object>
      reads this, table
    {
      {this} + table.Repr()
    }

    constructor ()
      ensures Valid() && fresh(Repr()) && View() == EmptyStream
    {
      table := new ToolCallTable();
      sawToolCall, sentRole := false, false;
    }

    /** Whether this chunk carries the role; afterwards it has been sent. */
    method TakeRole() returns (role: bool)
      modifies this`sentRole
      ensures sentRole && role == !old(sentRole)
    {
      role := !sentRole;
      sentRole := true;
    }

    method FlushCall(k: nat) returns (chunks: seq<Chunk>)
      requires Valid() && k < |table.calls|
      modifies this, table.calls[k]
      ensures Valid() && Emission(View(), chunks) == FlushSlot(old(View()), k)
    {
      ghost var before := table.Slots();
      var delta := table.calls[k].BuildStreamDelta();
      assert table.Slots() == before[k := Flushed(before[k])];
      match delta
      case None =>
        assert Flushed(before[k]) == before[k];
        assert table.Slots() == before;
        chunks := [];
      case Some(d) =>
        sawToolCall := true;
        var role := TakeRole();
        chunks := [CallChunk(role, ToChunkCall(table.calls[k].index, d))];
    }
  
    method EmitText(e: Event) returns (chunks: seq<Chunk>)
      modifies this`sentRole
      ensures Emission(View(), chunks) == TextStage(old(View()), e)
    {
      chunks := [];
      if e.kind.RefusalDelta? {
        var role := TakeRole();
        chunks := [RefusalChunk(role, e.kind.text)];
      } else if e.kind.TextDelta? {
        var role := TakeRole();
        chunks := [TextChunk(role, e.kind.text)];
      }
    }

    method EmitCall(e: Event) returns (chunks: seq<Chunk>)
      requires Valid()
      modifies Repr()
      ensures Valid() && fresh(Repr() - old(Repr()))
      ensures Emission(View(), chunks) == ToolStage(old(View()), e)
    {
      chunks := [];
      if e.tool.Some? {
        ghost var before := View();
        var k := table.AcceptEvent(e.tool.value);
        assert View() == before.(table := before.table.Accept(e.tool.value));
        chunks := FlushCall(k);
      }
    }

    method EmitDeltas(e: Event) returns (chunks: seq<Chunk>)
      requires Valid()
      modifies Repr()
      ensures Valid() && fresh(Repr() - old(Repr()))
      ensures Emission(View(), chunks) == Deltas(old(View()), e)
    {
      chunks := EmitText(e);
      var calls := EmitCall(e);
      chunks := chunks + calls;
    }

    /** Send what is pending for every slot. */
    method FlushCalls() returns (chunks: seq<Chunk>)
      requires Valid()
      modifies Repr()
      ensures Valid() && Repr() == old(Repr())
      ensures Emission(View(), chunks) == FlushFrom(old(View()), 0)
    {
      chunks := [];
      for k := 0 to |table.calls|
        invariant Valid() && table.calls == old(table.calls)
        invariant var rest := FlushFrom(View(), k);
                  FlushFrom(old(View()), 0) == Emission(rest.state, chunks + rest.chunks)
      {
        ghost var rest := FlushFrom(FlushSlot(View(), k).state, k + 1).chunks;
        ghost var earlier := chunks;
        var more := FlushCall(k);
        assert earlier + (more + rest) == (earlier + more) + rest;
        chunks := chunks + more;
      }
      assert chunks + [] == chunks;
    }

    /** The body of the loop over lines: the chunks of one event, and whether the stream is over. */
    method EmitEvent(e: Event) returns (chunks: seq<Chunk>, ended: bool)
      requires Valid()
      modifies Repr()
      ensures Valid() && fresh(Repr() - old(Repr()))
      ensures Step(View(), chunks, ended) == StepLine(old(View()), Some(e))
    {
      chunks := EmitDeltas(e);
      ended := false;
      if e.kind.Failure? && e.kind.error.Some? {
        chunks := chunks + [ErrorChunk(e.kind.error.value), DoneChunk];
        return chunks, true;
      }
      if e.IsTerminal() {
        var flushed := FlushCalls();
        var reason := if sawToolCall then "tool_calls" else "stop";
        if e.kind.Incomplete? && !sawToolCall {
          reason := FinishOfIncomplete(e.kind.response);
        }
        chunks := chunks + flushed + [FinishChunk(reason), DoneChunk];
        ended := true;
      }
    }
  }

  method IterChatChunks(lines: seq<Option<Payload>>, state: ChatChunkState) returns (chunks: seq<Chunk>, ended: bool)
    requires state.Valid()
    modifies state.Repr()
    ensures state.Valid() && fresh(state.Repr() - old(state.Repr()))
    ensures Step(state.View(), chunks, ended) == Stream(old(state.View()), ReadLines(lines))
  {
    chunks, ended := [], false;
    ghost var all := ReadLines(lines);
    ghost var outcome := Stream(state.View(), all);
    PendingStart(state.View(), all);
    for n := 0 to |lines|
      invariant state.Valid() && fresh(state.Repr() - old(state.Repr())) && !ended
      invariant Pending(outcome, chunks, state.View(), all[n..])
    {
      var line := ReadLine(lines[n]);
      PendingNext(outcome, chunks, state.View(), all, n);
      if line.Some? {
        var more;
        more, ended := state.EmitEvent(line.value);
        chunks := chunks + more;
        if ended {
          return;
        }
      } else {
        assert chunks + [] == chunks;
      }
    }
    PendingEnd(outcome, chunks, state.View(), all);
  }

  lemma StreamOneLine(st: StreamState, line: Line)
    ensures Stream(st, [line]) == StepLine(st, line)
  {
    var first := StepLine(st, line);
    assert [line][1..] == [];
    assert first.chunks + [] == first.chunks;
  }

  /** Feeding the lines one at a time over shared state, until the closing marker has been sent. */
  method StreamChatChunks(lines: seq<Option<Payload>>) returns (chunks: seq<Chunk>)
    ensures chunks == Stream(EmptyStream, ReadLines(lines)).chunks
  {
    var state := new ChatChunkState();
    var terminalSent := false;
    chunks := [];
    ghost var all := ReadLines(lines);
    ghost var outcome := Stream(EmptyStream, all);
    PendingStart(EmptyStream, all);
    for n := 0 to |lines|
      invariant state.Valid() && fresh(state.Repr())
      invariant if terminalSent then chunks == outcome.chunks else Pending(outcome, chunks, state.View(), all[n..])
    {
      if terminalSent {
        continue;
      }
      PendingNext(outcome, chunks, state.View(), all, n);
      StreamOneLine(state.View(), all[n]);
      assert ReadLines([lines[n]]) == [all[n]];
      var more;
      more, terminalSent := IterChatChunks([lines[n]], state);
      chunks := chunks + more;
    }
    if !terminalSent {
      PendingEnd(outcome, chunks, state.View(), all);
    }
  }

  /** The body of the collecting loop for an event that is not a failure. */
  method TakeEvent(table: ToolCallTable, text: string, refusal: string, incomplete: Option<string>, e: Event)
    returns (text': string, refusal': string, incomplete': Option<string>)
    requires table.Valid()
    modifies table.Repr()
    ensures table.Valid() && fresh(table.Repr() - old(table.Repr()))
    ensures Collected(table.View(), text', refusal', incomplete') ==
            Collected(old(table.View()), text, refusal, incomplete).Take(e)
  {
    text', refusal', incomplete' := text, refusal, incomplete;
    if e.kind.TextDelta? && e.kind.text.Some? {
      text' := text + e.kind.text.value;
    }
    if e.kind.RefusalDelta? && e.kind.text.Some? {
      refusal' := refusal + e.kind.text.value;
    }
    if e.tool.Some? {
      var _ := table.AcceptEvent(e.tool.value);
    }
    if e.kind.Incomplete? && e.kind.response.Obj? {
      incomplete' := Some(FinishOfIncomplete(e.kind.response));
    }
    assert text + "" == text && refusal + "" == refusal;
  }

  /** With `c` collected and `lines` still to come, the outcome will be `all`. */
  ghost predicate Collecting(all: Result<Message, CollectError>, c: Collected, lines: seq<Line>) {
    all == Collect(c, lines)
  }

  lemma CollectingNext(all: Result<Message, CollectError>, c: Collected, lines: seq<Line>, n: nat)
    requires n < |lines| && Collecting(all, c, lines[n..])
    ensures match lines[n]
            case None => Collecting(all, c, lines[n + 1..])
            case Some(e) =>
              if e.kind.Failure? then all == Err(if e.kind.error.Some? then Upstream(e.kind.error.value) else DefaultError)
              else Collecting(all, c.Take(e), lines[n + 1..])
  {
    assert lines[n..][0] == lines[n] && lines[n..][1..] == lines[n + 1..];
  }

  lemma CollectingEnd(all: Result<Message, CollectError>, c: Collected, lines: seq<Line>)
    requires Collecting(all, c, lines[|lines|..])
    ensures all == Ok(c.Completion())
  {
  }

  lemma CollectingStart(lines: seq<Line>) returns (all: Result<Message, CollectError>)
    ensures all == Collect(NothingCollected, lines) && Collecting(all, NothingCollected, lines[0..])
  {
    all := Collect(NothingCollected, lines);
    assert lines[0..] == lines;
  }

  /** The loop over the lines once they are read: what was taken in, or the failure that ended it. */
  method GatherLines(table: ToolCallTable, lines: seq<Line>)
    returns (text: string, refusal: string, incomplete: Option<string>, failure: Option<CollectError>)
    requires table.Valid() && table.View() == EmptyTable
    modifies table.Repr()
    ensures table.Valid() && fresh(table.Repr() - old(table.Repr()))
    ensures match failure
            case Some(error) => Collect(NothingCollected, lines) == Err(error)
            case None => Collect(NothingCollected, lines) == Ok(Collected(table.View(), text, refusal, incomplete).Completion())
  {
    text, refusal, incomplete, failure := "", "", None, None;
    ghost var outcome := CollectingStart(lines);
    ghost var taken := NothingCollected;
    for n := 0 to |lines|
      invariant table.Valid() && fresh(table.Repr() - old(table.Repr())) && failure.None?
      invariant taken == Collected(table.View(), text, refusal, incomplete)
      invariant Collecting(outcome, taken, lines[n..])
    {
      CollectingNext(outcome, taken, lines, n);
      if lines[n].None? {
        continue;
      }
      var e := lines[n].value;
      if e.kind.Failure? {
        failure := Some(if e.kind.error.Some? then Upstream(e.kind.error.value) else DefaultError);
        return;
      }
      text, refusal, incomplete := TakeEvent(table, text, refusal, incomplete, e);
      taken := taken.Take(e);
    }
    CollectingEnd(outcome, taken, lines);
  }

  method CollectLines(lines: seq<Line>) returns (result: Result<Message, CollectError>)
    ensures result == Collect(NothingCollected, lines)
  {
    var table := new ToolCallTable();
    var text, refusal, incomplete, failure := GatherLines(table, lines);
    if failure.Some? {
      return Err(failure.value);
    }
    var calls := table.CompactCalls();
    var finish := if calls != [] then "tool_calls" else incomplete.GetOr("stop");
    result := Ok(BuildMessage(text, refusal, calls, finish));
  }

  method CollectChatCompletion(lines: seq<Option<Payload>>) returns (result: Result<Message, CollectError>)
    ensures result == Collect(NothingCollected, ReadLines(lines))
  {
    result := CollectLines(ReadLines(lines));
  }
}

/**
 * The state kept for one tool call, and the append-only fragments streamed from it
 * (app/core/openai/chat_responses.py, `ToolCallState`).
 */
module ToolCallSlots {
  import opened Wrappers
  import opened ToolCallEvents

  datatype Slot = Slot(
    callId: Option<string>, name: Option<string>, arguments: string, toolType: string,
    sentId: Option<string>, sentName: Option<string>, sentArguments: string, sentType: Option<string>)

  const FreshSlot := Slot(None, None, "", "function", None, None, "", None)

  /** What is streamed for a slot; absent parts did not change. */
  datatype Delta = Delta(id: Option<string>, name: Option<string>, arguments: Option<string>, toolType: string)

  predicate Truthy(x: Option<string>) {
    x.Some? && x.value != ""
  }

  function MergeArguments(current: string, ev: ToolEvent): string {
    if ev.arguments.None? then current
    else if ev.replace then ev.arguments.value
    else current + ev.arguments.value
  }

  function Apply(s: Slot, ev: ToolEvent): Slot {
    s.(callId := if Truthy(ev.callId) then ev.callId else s.callId,
       name := if Truthy(ev.name) then ev.name else s.name,
       arguments := MergeArguments(s.arguments, ev),
       toolType := if Truthy(ev.toolType) then ev.toolType.value else s.toolType)
  }

  function PendingValue(sent: Option<string>, current: Option<string>): Option<string> {
    if current.Some? && sent != current then current else None
  }

  /** The part of `current` not yet sent.  A snapshot that rewrites sent text cannot be streamed. */
  function PendingArguments(sent: string, current: string): Option<string> {
    if current == "" || current == sent then None
    else if sent == "" then Some(current)
    else if sent <= current then Some(current[|sent|..])
    else None
  }

  function TypeOf(s: Slot): string {
    if s.toolType == "" then "function" else s.toolType
  }

  function PendingDelta(s: Slot): Option<Delta> {
    var id, name := PendingValue(s.sentId, s.callId), PendingValue(s.sentName, s.name);
    var arguments := PendingArguments(s.sentArguments, s.arguments);
    if id.None? && name.None? && arguments.None? && s.sentType == Some(TypeOf(s)) then None
    else Some(Delta(id, name, arguments, TypeOf(s)))
  }

  /** The slot once its pending delta has been sent. */
  function Flushed(s: Slot): Slot {
    match PendingDelta(s)
    case None => s
    case Some(d) =>
      s.(sentId := if d.id.Some? then s.callId else s.sentId,
         sentName := if d.name.Some? then s.name else s.sentName,
         sentArguments := if d.arguments.Some? then s.arguments else s.sentArguments,
         sentType := Some(d.toolType))
  }

  // ---- The receiving end ----

  /** A tool call as a client puts it together: ids and names replaced, arguments appended. */
  datatype ClientCall = ClientCall(id: Option<string>, name: Option<string>, arguments: string, toolType: Option<string>)

  const BlankCall := ClientCall(None, None, "", None)

  function Receive(c: ClientCall, d: Delta): ClientCall {
    ClientCall(if d.id.Some? then d.id else c.id,
               if d.name.Some? then d.name else c.name,
               c.arguments + d.arguments.GetOr(""),
               Some(d.toolType))
  }

  /** What the slot believes has been sent. */
  function Mirror(s: Slot): ClientCall {
    ClientCall(s.sentId, s.sentName, s.sentArguments, s.sentType)
  }

  // ---- One slot over every run ----

  datatype Op = ApplyOp(ev: ToolEvent) | FlushOp

  function RunSlot(ops: seq<Op>): (Slot, seq<Delta>) {
    if ops == [] then (FreshSlot, [])
    else
      var (s, sent) := RunSlot(ops[..|ops| - 1]);
      match ops[|ops| - 1]
      case ApplyOp(ev) => (Apply(s, ev), sent)
      case FlushOp => (Flushed(s), sent + if PendingDelta(s).Some? then [PendingDelta(s).value] else [])
  }

  function ReceiveAll(c: ClientCall, ds: seq<Delta>): ClientCall {
    if ds == [] then c else Receive(ReceiveAll(c, ds[..|ds| - 1]), ds[|ds| - 1])
  }

  lemma FlushReachesClient(s: Slot)
    ensures match PendingDelta(s)
            case None => Flushed(s) == s
            case Some(d) => Receive(Mirror(s), d) == Mirror(Flushed(s))
  {
    if s.sentArguments <= s.arguments {
      assert s.sentArguments + s.arguments[|s.sentArguments|..] == s.arguments;
    }
    assert s.sentArguments + "" == s.sentArguments;
    assert "" + s.arguments == s.arguments;
  }

  /** Over every run the fragments sent add up to exactly what the slot recorded as sent. */
  lemma {:induction false} FragmentsAddUp(ops: seq<Op>)
    ensures ReceiveAll(BlankCall, RunSlot(ops).1) == Mirror(RunSlot(ops).0)
  {
    if ops != [] {
      var init := ops[..|ops| - 1];
      FragmentsAddUp(init);
      var (s, sent) := RunSlot(init);
      if ops[|ops| - 1].FlushOp? {
        FlushReachesClient(s);
        if PendingDelta(s).Some? {
          assert (sent + [PendingDelta(s).value])[..|sent|] == sent;
        } else {
          assert sent + [] == sent;
        }
      }
    }
  }

  /** Flushing twice in a row sends nothing the second time, and after a flush the arguments sent
      are the current ones or have been rewritten. */
  lemma SecondFlushIsSilent(ops: seq<Op>)
    ensures RunSlot(ops + [FlushOp, FlushOp]) == RunSlot(ops + [FlushOp])
    ensures var s := RunSlot(ops + [FlushOp]).0;
            s.sentArguments == s.arguments || !(s.sentArguments <= s.arguments)
  {
    var once := ops + [FlushOp];
    var twice := ops + [FlushOp, FlushOp];
    assert twice[..|twice| - 1] == once && once[..|once| - 1] == ops;
    assert RunSlot(once).1 + [] == RunSlot(once).1;
  }

  // ---- What a slot has been told ----

  function ApplyAll(evs: seq<ToolEvent>): Slot {
    if evs == [] then FreshSlot else Apply(ApplyAll(evs[..|evs| - 1]), evs[|evs| - 1])
  }

  /** The arguments streamed when every event is followed by a flush: all of them, unless they no
      longer begin with what was sent before. */
  function SentText(evs: seq<ToolEvent>): string {
    if evs == [] then ""
    else
      var before, current := SentText(evs[..|evs| - 1]), ApplyAll(evs).arguments;
      if before <= current then current else before
  }

  /** The last non-empty value given. */
  function LastGiven(values: seq<Option<string>>): Option<string> {
    if values == [] then None
    else if values[|values| - 1].GetOr("") != "" then values[|values| - 1]
    else LastGiven(values[..|values| - 1])
  }

  function CallIds(evs: seq<ToolEvent>): seq<Option<string>> {
    seq(|evs|, i requires 0 <= i < |evs| => evs[i].callId)
  }

  function Names(evs: seq<ToolEvent>): seq<Option<string>> {
    seq(|evs|, i requires 0 <= i < |evs| => evs[i].name)
  }

  /** The fragments of the events, joined. */
  function Fragments(evs: seq<ToolEvent>): string {
    if evs == [] then "" else Fragments(evs[..|evs| - 1]) + evs[|evs| - 1].arguments.GetOr("")
  }

  predicate IsSnapshotEvent(ev: ToolEvent) {
    ev.replace && ev.arguments.Some?
  }

  /** After the last snapshot at `n`, if any, only fragments: the arguments are that snapshot and the
      fragments since. */
  lemma {:induction false} ArgumentsSinceSnapshot(evs: seq<ToolEvent>, n: nat)
    requires n <= |evs| && forall i :: n <= i < |evs| ==> !IsSnapshotEvent(evs[i])
    requires n == 0 || IsSnapshotEvent(evs[n - 1])
    ensures ApplyAll(evs).arguments == (if n == 0 then "" else evs[n - 1].arguments.value) + Fragments(evs[n..])
    decreases |evs|
  {
    if n < |evs| {
      var init, last := evs[..|evs| - 1], evs[|evs| - 1];
      ArgumentsSinceSnapshot(init, n);
      assert evs[n..][..|evs[n..]| - 1] == init[n..];
      assert !IsSnapshotEvent(last);
      var before := if n == 0 then "" else evs[n - 1].arguments.value;
      assert (before + Fragments(init[n..])) + last.arguments.GetOr("") == before + (Fragments(init[n..]) + last.arguments.GetOr(""));
      assert ApplyAll(init).arguments + "" == ApplyAll(init).arguments;
    } else {
      assert evs[n..] == [];
    }
  }

  /** Id and name are the last ones given. */
  lemma {:induction false} LastIdAndName(evs: seq<ToolEvent>)
    ensures ApplyAll(evs).callId == LastGiven(CallIds(evs)) && ApplyAll(evs).name == LastGiven(Names(evs))
  {
    if evs != [] {
      LastIdAndName(evs[..|evs| - 1]);
      assert CallIds(evs)[..|evs| - 1] == CallIds(evs[..|evs| - 1]);
      assert Names(evs)[..|evs| - 1] == Names(evs[..|evs| - 1]);
    }
  }

  /** The events among the operations. */
  function Told(ops: seq<Op>): seq<ToolEvent> {
    if ops == [] then []
    else Told(ops[..|ops| - 1]) + if ops[|ops| - 1].ApplyOp? then [ops[|ops| - 1].ev] else []
  }

  /** Flushing changes nothing a slot has been told. */
  lemma {:induction false} RunHoldsWhatItWasTold(ops: seq<Op>)
    ensures var s, told := RunSlot(ops).0, ApplyAll(Told(ops));
            s.callId == told.callId && s.name == told.name && s.arguments == told.arguments && s.toolType == told.toolType
  {
    if ops != [] {
      var init := ops[..|ops| - 1];
      RunHoldsWhatItWasTold(init);
      var before := Told(init);
      if ops[|ops| - 1].ApplyOp? {
        assert (before + [ops[|ops| - 1].ev])[..|before|] == before;
      } else {
        assert before + [] == before;
      }
    }
  }

  function Types(evs: seq<ToolEvent>): seq<Option<string>> {
    seq(|evs|, i requires 0 <= i < |evs| => evs[i].toolType)
  }

  /** The type is the last one given, a function call if none was. */
  lemma {:induction false} LastType(evs: seq<ToolEvent>)
    ensures TypeOf(ApplyAll(evs)) == LastGiven(Types(evs)).GetOr("function")
  {
    if evs != [] {
      LastType(evs[..|evs| - 1]);
      assert Types(evs)[..|evs| - 1] == Types(evs[..|evs| - 1]);
    }
  }

  // ---- The mutable state ----

  class ToolCallState {
    const index: nat
    var callId: Option<string>
    var name: Option<string>
    var arguments: string
    var toolType: string
    var emittedCallId: Option<string>
    var emittedName: Option<string>
    var emittedArguments: string
    var emittedToolType: Option<string>

    function View(): Slot
      reads this
    {
      Slot(callId, name, arguments, toolType, emittedCallId, emittedName, emittedArguments, emittedToolType)
    }

    constructor (index: nat)
      ensures View() == FreshSlot && this.index == index
    {
      this.index := index;
      callId, name, arguments, toolType := None, None, "", "function";
      emittedCallId, emittedName, emittedArguments, emittedToolType := None, None, "", None;
    }

    method ApplyDelta(ev: ToolEvent)
      modifies this
      ensures View() == Apply(old(View()), ev)
    {
      if Truthy(ev.callId) {
        callId := ev.callId;
      }
      if Truthy(ev.name) {
        name := ev.name;
      }
      if ev.arguments.Some? {
        if ev.replace {
          arguments := ev.arguments.value;
        } else if ev.arguments.value != "" {
          arguments := arguments + ev.arguments.value;
        }
      }
      if Truthy(ev.toolType) {
        toolType := ev.toolType.value;
      }
    }

    method BuildStreamDelta() returns (delta: Option<Delta>)
      modifies this
      ensures View() == Flushed(old(View())) && delta == PendingDelta(old(View()))
    {
      var id := PendingValue(emittedCallId, callId);
      var newName := PendingValue(emittedName, name);
      var fragment := PendingArguments(emittedArguments, arguments);
      var kind := if toolType == "" then "function" else toolType;
      if id.None? && newName.None? && fragment.None? && emittedToolType == Some(kind) {
        return None;
      }
      if id.Some? {
        emittedCallId := callId;
      }
      if newName.Some? {
        emittedName := name;
      }
      if fragment.Some? {
        emittedArguments := arguments;
      }
      emittedToolType := Some(kind);
      delta := Some(Delta(id, newName, fragment, kind));
    }
  }
}

/**
 * Slots for tool calls (app/core/openai/chat_responses.py, `ToolCallIndex`): each event is given
 * the slot of the call it belongs to, from whichever identifiers it happens to carry.
 */
module ToolCallRouting {
  import opened Wrappers
  import opened ToolCallEvents

  function ToolCallKey(id: Option<string>, name: Option<string>): Option<string> {
    if id.Some? && id.value != "" then Some("id:" + id.value)
    else if name.Some? && name.value != "" then Some("name:" + name.value)
    else None
  }

  function KeyOf(ev: ToolEvent): Option<string> {
    ToolCallKey(ev.routingId, ev.name)
  }

  function AliasKey(ev: ToolEvent): Option<string> {
    if ev.alias.Some? then Some("id:" + ev.alias.value) else None
  }

  /** Record an identifier, unless there is none or it is recorded already. */
  function PutMissing<K(!new)>(m: map<K, nat>, k: Option<K>, slot: nat): (r: map<K, nat>)
    ensures forall x :: x in r <==> x in m || k == Some(x)
    ensures forall x :: x in r ==> r[x] == if x in m then m[x] else slot
  {
    if k.Some? && k.value !in m then m[k.value := slot] else m
  }

  datatype Index = Index(indexes: map<string, nat>, next: nat, outputs: map<int, nat>) {

    /** The slot the identifiers already stand for: output index first, then the key. */
    function Known(output: Option<int>, key: Option<string>): Option<nat> {
      if output.Some? && output.value in outputs then Some(outputs[output.value])
      else if key.Some? && key.value in indexes then Some(indexes[key.value])
      else None
    }

    /** A known slot, a new one, or slot 0 when there is nothing to go by. */
    function SlotFor(output: Option<int>, key: Option<string>): nat {
      if Known(output, key).Some? then Known(output, key).value
      else if output.None? && key.None? then 0
      else next
    }

    /** Record every identifier, and count a newly used slot. */
    function Resolved(output: Option<int>, key: Option<string>): Index {
      var slot := SlotFor(output, key);
      var isNew := Known(output, key).None? && (output.Some? || key.Some?);
      Index(PutMissing(indexes, key, slot), if isNew then next + 1 else next, PutMissing(outputs, output, slot))
    }

    function Slot(ev: ToolEvent): nat {
      SlotFor(ev.outputIndex, KeyOf(ev))
    }

    function Routed(ev: ToolEvent): Index {
      var r := Resolved(ev.outputIndex, KeyOf(ev));
      r.(indexes := PutMissing(r.indexes, AliasKey(ev), Slot(ev)))
    }
  }

  const EmptyIndex := Index(map[], 0, map[])

  /** Mappings recorded once never change. */
  ghost predicate Extends(a: Index, b: Index) {
    && a.next <= b.next
    && (forall k :: k in a.indexes ==> k in b.indexes && b.indexes[k] == a.indexes[k])
    && (forall o :: o in a.outputs ==> o in b.outputs && b.outputs[o] == a.outputs[o])
  }

  function After(evs: seq<ToolEvent>): Index {
    if evs == [] then EmptyIndex else After(evs[..|evs| - 1]).Routed(evs[|evs| - 1])
  }

  /** The slot given to event `i` of a run. */
  function SlotAt(evs: seq<ToolEvent>, i: nat): nat
    requires i < |evs|
  {
    After(evs[..i]).Slot(evs[i])
  }

  lemma AfterSnoc(evs: seq<ToolEvent>, n: nat)
    requires 0 < n <= |evs|
    ensures After(evs[..n]) == After(evs[..n - 1]).Routed(evs[n - 1])
  {
    assert evs[..n][..n - 1] == evs[..n - 1];
  }

  lemma {:induction false} MappingsNeverChange(evs: seq<ToolEvent>, i: nat, j: nat)
    requires i <= j <= |evs|
    ensures Extends(After(evs[..i]), After(evs[..j]))
    decreases j
  {
    if i < j {
      MappingsNeverChange(evs, i, j - 1);
      AfterSnoc(evs, j);
    }
  }

  // ---- Which identifiers are recorded, read off the events ----

  ghost predicate SeenOutput(evs: seq<ToolEvent>, o: int) {
    exists i :: 0 <= i < |evs| && evs[i].outputIndex == Some(o)
  }

  ghost predicate SeenKey(evs: seq<ToolEvent>, k: string) {
    exists i :: 0 <= i < |evs| && (KeyOf(evs[i]) == Some(k) || AliasKey(evs[i]) == Some(k))
  }

  lemma SeenSnoc(evs: seq<ToolEvent>, ev: ToolEvent)
    ensures forall o :: SeenOutput(evs + [ev], o) <==> SeenOutput(evs, o) || ev.outputIndex == Some(o)
    ensures forall k :: SeenKey(evs + [ev], k) <==> SeenKey(evs, k) || KeyOf(ev) == Some(k) || AliasKey(ev) == Some(k)
  {
    var all := evs + [ev];
    assert all[|evs|] == ev;
    assert forall i :: 0 <= i < |evs| ==> all[i] == evs[i];
  }

  lemma {:induction false} RecordedExactlySeen(evs: seq<ToolEvent>)
    ensures forall o :: o in After(evs).outputs <==> SeenOutput(evs, o)
    ensures forall k :: k in After(evs).indexes <==> SeenKey(evs, k)
  {
    if evs != [] {
      var init, last := evs[..|evs| - 1], evs[|evs| - 1];
      RecordedExactlySeen(init);
      assert evs == init + [last];
      SeenSnoc(init, last);
    }
  }

  // ---- One slot per logical call ----

  /** Who the identifiers belong to, outside the program: `call[i]` is the call of event `i`. */
  datatype Calls = Calls(call: seq<int>, ofOutput: map<int, int>, ofKey: map<string, int>)

  /** Every identifier of `ev` belongs to `c`, and there is one to look it up by. */
  ghost predicate Belongs(ev: ToolEvent, w: Calls, c: int) {
    && (ev.outputIndex.Some? ==> ev.outputIndex.value in w.ofOutput && w.ofOutput[ev.outputIndex.value] == c)
    && (KeyOf(ev).Some? ==> KeyOf(ev).value in w.ofKey && w.ofKey[KeyOf(ev).value] == c)
    && (AliasKey(ev).Some? ==> AliasKey(ev).value in w.ofKey && w.ofKey[AliasKey(ev).value] == c)
    && (ev.outputIndex.Some? || KeyOf(ev).Some?)
  }

  /** Every identifier belongs to one call, every event carries one it can be looked up by, and
      an event that is not the first of its call carries one seen before. */
  ghost predicate WellKeyed(evs: seq<ToolEvent>, w: Calls) {
    && |w.call| == |evs|
    && forall i :: 0 <= i < |evs| ==>
         && Belongs(evs[i], w, w.call[i])
         && (w.call[i] in w.call[..i] ==>
               || (evs[i].outputIndex.Some? && SeenOutput(evs[..i], evs[i].outputIndex.value))
               || (KeyOf(evs[i]).Some? && SeenKey(evs[..i], KeyOf(evs[i]).value)))
  }

  /** `slotOf` explains the index: one slot per call seen, every mapping leads to its call's slot. */
  ghost predicate Explains(ix: Index, w: Calls, slotOf: map<int, nat>) {
    && (forall c :: c in slotOf ==> slotOf[c] < ix.next)
    && (forall c, d :: c in slotOf && d in slotOf && slotOf[c] == slotOf[d] ==> c == d)
    && (forall k :: k in ix.indexes ==> k in w.ofKey && w.ofKey[k] in slotOf && ix.indexes[k] == slotOf[w.ofKey[k]])
    && (forall o :: o in ix.outputs ==> o in w.ofOutput && w.ofOutput[o] in slotOf && ix.outputs[o] == slotOf[w.ofOutput[o]])
  }

  /** Routing gives the call's slot: the old one, or a new one when the call is new. */
  lemma SlotExplained(ix: Index, ev: ToolEvent, w: Calls, c: int, slotOf: map<int, nat>)
    requires Explains(ix, w, slotOf) && Belongs(ev, w, c)
    requires c in slotOf ==> ix.Known(ev.outputIndex, KeyOf(ev)).Some?
    ensures c in slotOf <==> ix.Known(ev.outputIndex, KeyOf(ev)).Some?
    ensures ix.Slot(ev) == if c in slotOf then slotOf[c] else ix.next
  {
    var o, k := ev.outputIndex, KeyOf(ev);
    if o.Some? && o.value in ix.outputs {
      var x: int := o.value;
      assert x in ix.outputs;
      assert x in w.ofOutput && w.ofOutput[x] in slotOf;
      assert w.ofOutput[x] == c;
    }
  }

  lemma RouteExplained(ix: Index, ev: ToolEvent, w: Calls, c: int, slotOf: map<int, nat>)
    requires Explains(ix, w, slotOf) && Belongs(ev, w, c)
    requires c in slotOf ==> ix.Known(ev.outputIndex, KeyOf(ev)).Some?
    ensures Explains(ix.Routed(ev), w, slotOf[c := ix.Slot(ev)])
  {
    SlotExplained(ix, ev, w, c, slotOf);
    var after, slot := ix.Routed(ev), ix.Slot(ev);
    assert after.next == if c in slotOf then ix.next else ix.next + 1;
    assert forall k :: k in after.indexes ==> after.indexes[k] == if k in ix.indexes then ix.indexes[k] else slot;
    assert forall o :: o in after.outputs ==> after.outputs[o] == if o in ix.outputs then ix.outputs[o] else slot;
    RecordingExplained(ix, after, ev, w, c, slotOf, slot);
  }

  lemma RecordingExplained(ix: Index, after: Index, ev: ToolEvent, w: Calls, c: int, slotOf: map<int, nat>, slot: nat)
    requires Explains(ix, w, slotOf) && Belongs(ev, w, c)
    requires if c in slotOf then slot == slotOf[c] && after.next == ix.next else slot == ix.next && after.next == ix.next + 1
    requires forall k :: k in after.indexes <==> k in ix.indexes || KeyOf(ev) == Some(k) || AliasKey(ev) == Some(k)
    requires forall k :: k in after.indexes ==> after.indexes[k] == if k in ix.indexes then ix.indexes[k] else slot
    requires forall o :: o in after.outputs <==> o in ix.outputs || ev.outputIndex == Some(o)
    requires forall o :: o in after.outputs ==> after.outputs[o] == if o in ix.outputs then ix.outputs[o] else slot
    ensures Explains(after, w, slotOf[c := slot])
  {
  }

  /** A later event of a call finds its slot. */
  lemma KnownWhenSeen(evs: seq<ToolEvent>, w: Calls, n: nat)
    requires WellKeyed(evs, w) && n < |evs|
    ensures w.call[n] in w.call[..n] ==> After(evs[..n]).Known(evs[n].outputIndex, KeyOf(evs[n])).Some?
  {
    RecordedExactlySeen(evs[..n]);
  }

  /** The slot of each call among the first `n` events. */
  ghost function SlotOf(evs: seq<ToolEvent>, w: Calls, n: nat): map<int, nat>
    requires n <= |evs| && n <= |w.call|
  {
    if n == 0 then map[] else SlotOf(evs, w, n - 1)[w.call[n - 1] := SlotAt(evs, n - 1)]
  }

  lemma {:induction false} SlotOfDomain(evs: seq<ToolEvent>, w: Calls, n: nat)
    requires n <= |evs| && n <= |w.call|
    ensures forall c :: c in SlotOf(evs, w, n) <==> c in w.call[..n]
  {
    if n > 0 {
      SlotOfDomain(evs, w, n - 1);
      assert w.call[..n] == w.call[..n - 1] + [w.call[n - 1]];
    }
  }

  /** One more event, given the bookkeeping for those before it. */
  lemma EventExplained(evs: seq<ToolEvent>, w: Calls, n: nat)
    requires WellKeyed(evs, w) && n < |evs|
    requires Explains(After(evs[..n]), w, SlotOf(evs, w, n))
    ensures Explains(After(evs[..n]).Routed(evs[n]), w, SlotOf(evs, w, n)[w.call[n] := SlotAt(evs, n)])
    ensures w.call[n] in SlotOf(evs, w, n) ==> SlotOf(evs, w, n)[w.call[n]] == SlotAt(evs, n)
  {
    KnownWhenSeen(evs, w, n);
    SlotOfDomain(evs, w, n);
    SlotExplained(After(evs[..n]), evs[n], w, w.call[n], SlotOf(evs, w, n));
    RouteExplained(After(evs[..n]), evs[n], w, w.call[n], SlotOf(evs, w, n));
  }

  lemma {:induction false} RunExplained(evs: seq<ToolEvent>, w: Calls, n: nat)
    requires WellKeyed(evs, w) && n <= |evs|
    ensures Explains(After(evs[..n]), w, SlotOf(evs, w, n))
  {
    if n > 0 {
      RunExplained(evs, w, n - 1);
      EventExplained(evs, w, n - 1);
      AfterSnoc(evs, n);
      assert SlotOf(evs, w, n) == SlotOf(evs, w, n - 1)[w.call[n - 1] := SlotAt(evs, n - 1)];
    }
  }

  lemma CallKeepsSlot(evs: seq<ToolEvent>, w: Calls, n: nat)
    requires WellKeyed(evs, w) && n < |evs|
    ensures w.call[n] in SlotOf(evs, w, n) ==> SlotOf(evs, w, n)[w.call[n]] == SlotAt(evs, n)
  {
    RunExplained(evs, w, n);
    EventExplained(evs, w, n);
  }

  /** Later events never move a call to another slot. */
  lemma {:induction false} SlotOfStable(evs: seq<ToolEvent>, w: Calls, i: nat, n: nat)
    requires WellKeyed(evs, w) && i < n <= |evs|
    ensures w.call[i] in SlotOf(evs, w, n) && SlotOf(evs, w, n)[w.call[i]] == SlotAt(evs, i)
  {
    if i < n - 1 {
      SlotOfStable(evs, w, i, n - 1);
      CallKeepsSlot(evs, w, n - 1);
    }
  }

  /** Two events share a slot exactly when they belong to the same call. */
  lemma SameSlotIffSameCall(evs: seq<ToolEvent>, w: Calls, i: nat, j: nat)
    requires WellKeyed(evs, w) && i < |evs| && j < |evs|
    ensures SlotAt(evs, i) == SlotAt(evs, j) <==> w.call[i] == w.call[j]
  {
    RunExplained(evs, w, |evs|);
    SlotOfStable(evs, w, i, |evs|);
    SlotOfStable(evs, w, j, |evs|);
  }

  // ---- Which identifier decides ----

  /** Event `i` is the first to carry `k`, as its key or as its alias. */
  ghost predicate Introduces(evs: seq<ToolEvent>, i: nat, k: string)
    requires i < |evs|
  {
    (KeyOf(evs[i]) == Some(k) || AliasKey(evs[i]) == Some(k)) && !SeenKey(evs[..i], k)
  }

  lemma RecordedWithSlot(evs: seq<ToolEvent>, i: nat, j: nat)
    requires i < j <= |evs|
    ensures evs[i].outputIndex.Some? ==>
              var o: int := evs[i].outputIndex.value; var ix := After(evs[..j]);
              o in ix.outputs && ix.outputs[o] == SlotAt(evs, i)
    ensures forall k :: Introduces(evs, i, k) ==> k in After(evs[..j]).indexes && After(evs[..j]).indexes[k] == SlotAt(evs, i)
  {
    AfterSnoc(evs, i + 1);
    RecordedExactlySeen(evs[..i]);
    MappingsNeverChange(evs, i + 1, j);
    var now := After(evs[..i + 1]);
    if evs[i].outputIndex.Some? {
      var o: int := evs[i].outputIndex.value;
      assert o in now.outputs && now.outputs[o] == SlotAt(evs, i);
    }
    assert forall k :: Introduces(evs, i, k) ==> k in now.indexes && now.indexes[k] == SlotAt(evs, i);
  }

  /** Two events of a run with the same output index are given the same slot, whatever their other
      identifiers and whatever lies between. */
  lemma OutputIndexDecides(evs: seq<ToolEvent>, i: nat, j: nat)
    requires i < j < |evs| && evs[i].outputIndex.Some? && evs[j].outputIndex == evs[i].outputIndex
    ensures SlotAt(evs, j) == SlotAt(evs, i)
  {
    RecordedWithSlot(evs, i, j);
  }

  /** Without an output index seen before, an event goes to the slot of the event that introduced
      its key, as key or alias. */
  lemma IntroducerDecides(evs: seq<ToolEvent>, i: nat, j: nat, k: string)
    requires i < j < |evs| && Introduces(evs, i, k) && KeyOf(evs[j]) == Some(k)
    requires evs[j].outputIndex.Some? ==> !SeenOutput(evs[..j], evs[j].outputIndex.value)
    ensures SlotAt(evs, j) == SlotAt(evs, i)
  {
    RecordedWithSlot(evs, i, j);
    RecordedExactlySeen(evs[..j]);
  }

  /** Any later event that knows a call only by its item id goes to the slot of the output item that
      introduced that id. */
  lemma FragmentFollowsItem(evs: seq<ToolEvent>, i: nat, j: nat)
    requires i < j < |evs| && AliasKey(evs[i]).Some? && Introduces(evs, i, AliasKey(evs[i]).value)
    requires evs[j].routingId == evs[i].alias && evs[j].routingId.value != ""
    requires var o := evs[j].outputIndex; o.None? || o == evs[i].outputIndex || !SeenOutput(evs[..j], o.value)
    ensures SlotAt(evs, j) == SlotAt(evs, i)
  {
    if evs[j].outputIndex.Some? && evs[j].outputIndex == evs[i].outputIndex {
      OutputIndexDecides(evs, i, j);
    } else {
      IntroducerDecides(evs, i, j, AliasKey(evs[i]).value);
    }
  }

  // ---- The mutable index ----

  class ToolCallIndex {
    var indexes: map<string, nat>
    var nextIndex: nat
    var outputIndexMap: map<int, nat>

    function View(): Index
      reads this
    {
      Index(indexes, nextIndex, outputIndexMap)
    }

    constructor ()
      ensures View() == EmptyIndex
    {
      indexes, nextIndex, outputIndexMap := map[], 0, map[];
    }

    method IndexForOutputIndex(output: Option<int>, callId: Option<string>, name: Option<string>) returns (slot: nat)
      modifies this
      ensures slot == old(View()).SlotFor(output, ToolCallKey(callId, name))
      ensures View() == old(View()).Resolved(output, ToolCallKey(callId, name))
    {
      var key := ToolCallKey(callId, name);
      if output.Some? && output.value in outputIndexMap {
        slot := outputIndexMap[output.value];
        if key.Some? && key.value !in indexes {
          indexes := indexes[key.value := slot];
        }
        return;
      }
      if key.None? {
        if output.Some? {
          slot := nextIndex;
          outputIndexMap := outputIndexMap[output.value := slot];
          if nextIndex < slot + 1 {
            nextIndex := slot + 1;
          }
          return;
        }
        return 0;
      }
      if key.value !in indexes {
        indexes := indexes[key.value := nextIndex];
        nextIndex := nextIndex + 1;
      }
      slot := indexes[key.value];
      if output.Some? && output.value !in outputIndexMap {
        outputIndexMap := outputIndexMap[output.value := slot];
      }
    }

    method RegisterAlias(alias: string, slot: nat)
      modifies this
      ensures View() == old(View()).(indexes := PutMissing(old(indexes), Some("id:" + alias), slot))
    {
      var key := "id:" + alias;
      if key !in indexes {
        indexes := indexes[key := slot];
      }
    }

    method RegisterOutputIndex(output: int, slot: nat)
      modifies this
      ensures View() == old(View()).(outputs := PutMissing(old(outputIndexMap), Some(output), slot))
    {
      if output !in outputIndexMap {
        outputIndexMap := outputIndexMap[output := slot];
      }
    }

    /** Slot of one event; every identifier it carries is recorded. */
    method RouteEvent(ev: ToolEvent) returns (slot: nat)
      modifies this
      ensures slot == old(View()).Slot(ev) && View() == old(View()).Routed(ev)
    {
      slot := IndexForOutputIndex(ev.outputIndex, ev.routingId, ev.name);
      if ev.alias.Some? {
        RegisterAlias(ev.alias.value, slot);
      }
      if ev.hasItem && ev.outputIndex.Some? {
        RegisterOutputIndex(ev.outputIndex.value, slot);
      }
    }
  }
}

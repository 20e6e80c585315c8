/**
 * The incremental event framer of the upstream reader
 * (app/core/clients/proxy.py, `_find_sse_separator`, `_pop_sse_event`,
 * `_iter_sse_events`).  Events are byte strings closed by CR LF CR LF or LF LF.
 */
module SseFraming {
  import opened Wrappers

  newtype byte = x: int | 0 <= x < 256

  const CR: byte := 13
  const LF: byte := 10
  const CrLfCrLf: seq<byte> := [CR, LF, CR, LF]
  const LfLf: seq<byte> := [LF, LF]

  predicate OccursAt(b: seq<byte>, sep: seq<byte>, i: int) {
    0 <= i && i + |sep| <= |b| && b[i..i + |sep|] == sep
  }

  /** `bytearray.find`: the first occurrence at or after `from`. */
  function Find(b: seq<byte>, sep: seq<byte>, from: nat): (r: Option<nat>)
    requires from <= |b|
    ensures r.Some? ==> from <= r.value && OccursAt(b, sep, r.value)
                        && forall j :: from <= j < r.value ==> !OccursAt(b, sep, j)
    ensures r.None? ==> forall j :: from <= j ==> !OccursAt(b, sep, j)
    decreases |b| - from
  {
    if OccursAt(b, sep, from) then Some(from)
    else if from == |b| then None
    else Find(b, sep, from + 1)
  }

  /** Some event separator ends exactly at position `e`. */
  predicate EndsEvent(b: seq<byte>, e: int) {
    OccursAt(b, CrLfCrLf, e - 4) || OccursAt(b, LfLf, e - 2)
  }

  /** CR LF CR LF starting first also ends first: LF LF can only begin inside it at its very end. */
  lemma SeparatorsDoNotCross(b: seq<byte>, i: int, j: int)
    requires OccursAt(b, CrLfCrLf, i) && OccursAt(b, LfLf, j) && i <= j
    ensures i + 4 <= j + 2
  {
    assert b[i] == b[i..i + 4][0] == CR && b[i + 1] == b[i..i + 4][1] == LF && b[i + 2] == b[i..i + 4][2] == CR;
    assert b[j] == b[j..j + 2][0] == LF && b[j + 1] == b[j..j + 2][1] == LF;
  }

  /** Position and length of the separator that starts first. */
  function FindSeparator(b: seq<byte>): (r: Option<(nat, nat)>)
    ensures r.Some? ==> 0 < r.value.1 && r.value.0 + r.value.1 <= |b|
  {
    match (Find(b, CrLfCrLf, 0), Find(b, LfLf, 0))
    case (None, None) => None
    case (Some(i), None) => Some((i, 4))
    case (None, Some(j)) => Some((j, 2))
    case (Some(i), Some(j)) => if i <= j then Some((i, 4)) else Some((j, 2))
  }

  /** Where the first event of `b` ends. */
  function FirstEnd(b: seq<byte>): (r: Option<nat>)
    ensures r.Some? ==> 0 < r.value <= |b|
  {
    match FindSeparator(b)
    case None => None
    case Some((i, n)) => Some(i + n)
  }

  /** The separator that starts first is also the one that ends first. */
  lemma FirstEndIsEarliest(b: seq<byte>)
    ensures FirstEnd(b).None? <==> forall e :: !EndsEvent(b, e)
    ensures FirstEnd(b).Some? ==> EndsEvent(b, FirstEnd(b).value)
                                  && forall e :: e < FirstEnd(b).value ==> !EndsEvent(b, e)
  {
    var crlf := Find(b, CrLfCrLf, 0);
    var lf := Find(b, LfLf, 0);
    if crlf.Some? && lf.Some? && crlf.value <= lf.value {
      SeparatorsDoNotCross(b, crlf.value, lf.value);
    }
    if crlf.Some? { assert EndsEvent(b, crlf.value + 4); }
    if lf.Some? { assert EndsEvent(b, lf.value + 2); }
    forall e | EndsEvent(b, e) ensures FirstEnd(b).Some? && FirstEnd(b).value <= e {
      EndsAfterFound(b, e);
    }
  }

  /** A separator that ends at `e` was found, or one before it. */
  lemma EndsAfterFound(b: seq<byte>, e: int)
    requires EndsEvent(b, e)
    ensures var crlf, lf := Find(b, CrLfCrLf, 0), Find(b, LfLf, 0);
            (crlf.Some? && crlf.value + 4 <= e) || (lf.Some? && lf.value + 2 <= e)
  {
    if OccursAt(b, CrLfCrLf, e - 4) {
      assert Find(b, CrLfCrLf, 0).Some?;
    } else {
      assert Find(b, LfLf, 0).Some?;
    }
  }

  /** `bytes.strip()` leaves nothing: only ASCII white space. */
  predicate Blank(b: seq<byte>) {
    forall i :: 0 <= i < |b| ==> b[i] == 32 || 9 <= b[i] <= 13
  }

  /** Tab, line feed, vertical tab, form feed, carriage return and space. */
  lemma BlankMeaning(b: seq<byte>)
    ensures Blank(b) <==> forall i :: 0 <= i < |b| ==> b[i] in {9, 10, 11, 12, 13, 32}
  {
    if Blank(b) {
      forall i | 0 <= i < |b| ensures b[i] in {9, 10, 11, 12, 13, 32} {
      }
    }
  }

  function Flatten(chunks: seq<seq<byte>>): seq<byte> {
    if chunks == [] then [] else chunks[0] + Flatten(chunks[1..])
  }

  /** What the reader hands on: the events yielded, and whether it then failed with
      StreamEventTooLargeError. */
  datatype Framing = Framing(events: seq<seq<byte>>, tooLarge: bool) {
    function After(earlier: seq<seq<byte>>): Framing {
      Framing(earlier + events, tooLarge)
    }
  }

  /** The events among the popped pieces that the reader hands on. */
  function Visible(raw: seq<byte>): seq<seq<byte>> {
    if Blank(raw) then [] else [raw]
  }

  /** The outcome as a function of the bytes alone: no chunks, no buffer. */
  function Frames(b: seq<byte>, cap: int): Framing
    decreases |b|
  {
    match FirstEnd(b)
    case None =>
      if b == [] then Framing([], false)
      else if |b| > cap then Framing([], true)
      else Framing([b], false)
    case Some(end) =>
      if end > cap then Framing([], true)
      else Frames(b[end..], cap).After(Visible(b[..end]))
  }

  // ---- Extending the input never changes what was already decided ----

  lemma OccursAppend(a: seq<byte>, b: seq<byte>, sep: seq<byte>, i: int)
    requires i + |sep| <= |a|
    ensures OccursAt(a + b, sep, i) <==> OccursAt(a, sep, i)
  {
    if 0 <= i {
      assert (a + b)[i..i + |sep|] == a[i..i + |sep|];
    }
  }

  lemma EndsEventAppend(a: seq<byte>, b: seq<byte>, e: int)
    requires e <= |a|
    ensures EndsEvent(a + b, e) <==> EndsEvent(a, e)
  {
    OccursAppend(a, b, CrLfCrLf, e - 4);
    OccursAppend(a, b, LfLf, e - 2);
  }

  /** An end found in a prefix stays the first end; a new first end lies beyond the prefix. */
  lemma FirstEndAppend(a: seq<byte>, b: seq<byte>)
    ensures FirstEnd(a).Some? ==> FirstEnd(a + b) == FirstEnd(a)
    ensures FirstEnd(a).None? && FirstEnd(a + b).Some? ==> |a| < FirstEnd(a + b).value
  {
    FirstEndIsEarliest(a);
    FirstEndIsEarliest(a + b);
    if FirstEnd(a).Some? {
      EndsEventAppend(a, b, FirstEnd(a).value);
    }
    if FirstEnd(a + b).Some? && FirstEnd(a + b).value <= |a| {
      EndsEventAppend(a, b, FirstEnd(a + b).value);
    }
  }

  /** A buffer already over the cap without a separator fails whatever follows. */
  lemma OversizeIsFinal(a: seq<byte>, b: seq<byte>, cap: int)
    requires FirstEnd(a).None? && |a| > cap && a != []
    ensures Frames(a + b, cap) == Framing([], true)
  {
    FirstEndAppend(a, b);
  }

  lemma FramesPop(raw: seq<byte>, after: seq<byte>, rest: seq<byte>, cap: int)
    requires FirstEnd(raw + after) == Some(|raw|)
    ensures Frames(raw + after + rest, cap) ==
            if |raw| > cap then Framing([], true) else Frames(after + rest, cap).After(Visible(raw))
  {
    FirstEndAppend(raw + after, rest);
    var all := raw + after + rest;
    assert all[..|raw|] == raw;
    assert all[|raw|..] == after + rest;
  }

  lemma AfterAfter(f: Framing, first: seq<seq<byte>>, second: seq<seq<byte>>)
    ensures f.After(second).After(first) == f.After(first + second)
  {
    assert first + (second + f.events) == (first + second) + f.events;
  }

  lemma FlattenSplit(chunks: seq<seq<byte>>, k: nat)
    requires k < |chunks|
    ensures Flatten(chunks[k..]) == chunks[k] + Flatten(chunks[k + 1..])
  {
    assert chunks[k..][1..] == chunks[k + 1..];
  }

  // ---- The reader ----

  class ByteBuffer {
    var bytes: seq<byte>

    constructor ()
      ensures bytes == []
    {
      bytes := [];
    }

    /** Removes and returns the first complete event, if there is one. */
    method PopEvent() returns (event: Option<seq<byte>>)
      modifies this
      ensures event.None? ==> bytes == old(bytes) && FirstEnd(bytes).None?
      ensures event.Some? ==> event.value + bytes == old(bytes) && FirstEnd(old(bytes)) == Some(|event.value|)
    {
      match FindSeparator(bytes)
      case None =>
        event := None;
      case Some((i, n)) =>
        event := Some(bytes[..i + n]);
        bytes := bytes[i + n..];
    }
  }

  /** `yielded` so far, with `pending` still to be framed, will lead to the outcome for `input`. */
  ghost predicate OnTrack(input: seq<byte>, cap: int, yielded: seq<seq<byte>>, pending: seq<byte>) {
    Frames(input, cap) == Frames(pending, cap).After(yielded)
  }

  lemma PopKeepsTrack(input: seq<byte>, cap: int, yielded: seq<seq<byte>>,
                      raw: seq<byte>, after: seq<byte>, rest: seq<byte>)
    requires OnTrack(input, cap, yielded, raw + after + rest)
    requires FirstEnd(raw + after) == Some(|raw|)
    ensures |raw| > cap ==> Frames(input, cap) == Framing(yielded, true)
    ensures |raw| <= cap ==> OnTrack(input, cap, yielded + Visible(raw), after + rest)
  {
    FramesPop(raw, after, rest, cap);
    if |raw| <= cap {
      AfterAfter(Frames(after + rest, cap), yielded, Visible(raw));
    }
  }

  /** The inner loop: hand on every complete event in the buffer, checking sizes. */
  method Drain(buffer: ByteBuffer, cap: int, earlier: seq<seq<byte>>, ghost input: seq<byte>, ghost rest: seq<byte>)
    returns (yielded: seq<seq<byte>>, tooLarge: bool)
    requires buffer.bytes != []
    requires OnTrack(input, cap, earlier, buffer.bytes + rest)
    modifies buffer
    ensures tooLarge ==> Frames(input, cap) == Framing(yielded, true)
    ensures !tooLarge ==> OnTrack(input, cap, yielded, buffer.bytes + rest)
    ensures !tooLarge ==> FirstEnd(buffer.bytes).None? && |buffer.bytes| <= cap
  {
    yielded, tooLarge := earlier, false;
    while true
      invariant OnTrack(input, cap, yielded, buffer.bytes + rest)
      invariant buffer.bytes != [] || 0 <= cap
      decreases |buffer.bytes|
    {
      ghost var before := buffer.bytes;
      var event := buffer.PopEvent();
      match event
      case None =>
        if |buffer.bytes| > cap {
          OversizeIsFinal(buffer.bytes, rest, cap);
          tooLarge := true;
        }
        return;
      case Some(raw) =>
        PopKeepsTrack(input, cap, yielded, raw, buffer.bytes, rest);
        if |raw| > cap {
          tooLarge := true;
          return;
        }
        if !Blank(raw) {
          yielded := yielded + [raw];
        } else {
          assert yielded + Visible(raw) == yielded;
        }
    }
  }

  /** Framing does not depend on how the bytes were cut into chunks: the events and the
      outcome are a function of their concatenation. */
  method IterEvents(chunks: seq<seq<byte>>, cap: int) returns (yielded: seq<seq<byte>>, tooLarge: bool)
    ensures Framing(yielded, tooLarge) == Frames(Flatten(chunks), cap)
  {
    var buffer := new ByteBuffer();
    yielded, tooLarge := [], false;
    ghost var input := Flatten(chunks);
    assert buffer.bytes + Flatten(chunks[0..]) == input by {
      assert chunks[0..] == chunks;
    }
    for k := 0 to |chunks|
      invariant !tooLarge && FirstEnd(buffer.bytes).None?
      invariant buffer.bytes == [] || |buffer.bytes| <= cap
      invariant OnTrack(input, cap, yielded, buffer.bytes + Flatten(chunks[k..]))
    {
      FlattenSplit(chunks, k);
      ghost var rest := Flatten(chunks[k + 1..]);
      if chunks[k] == [] {
        assert chunks[k] + rest == rest;
        continue;
      }
      assert buffer.bytes + (chunks[k] + rest) == buffer.bytes + chunks[k] + rest;
      buffer.bytes := buffer.bytes + chunks[k];
      yielded, tooLarge := Drain(buffer, cap, yielded, input, rest);
      if tooLarge {
        return;
      }
    }
    assert buffer.bytes + Flatten(chunks[|chunks|..]) == buffer.bytes;
    if buffer.bytes != [] {
      tooLarge := |buffer.bytes| > cap;
      if !tooLarge {
        yielded := yielded + [buffer.bytes];
      }
    }
  }

  // ---- What framing means, without following the buffer ----

  /** A piece whose only separator is the one that closes it. */
  ghost predicate Complete(piece: seq<byte>) {
    EndsEvent(piece, |piece|) && forall e :: e < |piece| ==> !EndsEvent(piece, e)
  }

  /** `b` is cut into complete pieces and a rest without a separator; nothing is lost or added. */
  ghost predicate IsFraming(b: seq<byte>, pieces: seq<seq<byte>>, rest: seq<byte>) {
    && Flatten(pieces) + rest == b
    && (forall i :: 0 <= i < |pieces| ==> Complete(pieces[i]))
    && forall e :: !EndsEvent(rest, e)
  }

  function VisibleAll(pieces: seq<seq<byte>>): seq<seq<byte>> {
    if pieces == [] then [] else Visible(pieces[0]) + VisibleAll(pieces[1..])
  }

  ghost predicate Fits(pieces: seq<seq<byte>>, cap: int) {
    forall i :: 0 <= i < |pieces| ==> |pieces[i]| <= cap
  }

  lemma CompleteIsFirst(piece: seq<byte>, tail: seq<byte>)
    requires Complete(piece)
    ensures FirstEnd(piece + tail) == Some(|piece|)
  {
    FirstEndIsEarliest(piece);
    FirstEndAppend(piece, tail);
  }

  lemma FramingHead(b: seq<byte>, pieces: seq<seq<byte>>, rest: seq<byte>)
    requires IsFraming(b, pieces, rest)
    ensures pieces == [] <==> FirstEnd(b).None?
    ensures pieces != [] ==> FirstEnd(b) == Some(|pieces[0]|) && b[..|pieces[0]|] == pieces[0]
                             && IsFraming(b[|pieces[0]|..], pieces[1..], rest)
  {
    if pieces == [] {
      assert b == rest;
      FirstEndIsEarliest(rest);
    } else {
      var tail := Flatten(pieces[1..]) + rest;
      assert b == pieces[0] + tail;
      CompleteIsFirst(pieces[0], tail);
    }
  }

  /** Every byte string has a framing ... */
  lemma {:induction false} FramingExists(b: seq<byte>) returns (pieces: seq<seq<byte>>, rest: seq<byte>)
    ensures IsFraming(b, pieces, rest)
    decreases |b|
  {
    FirstEndIsEarliest(b);
    match FirstEnd(b)
    case None =>
      pieces, rest := [], b;
    case Some(end) =>
      var more;
      more, rest := FramingExists(b[end..]);
      pieces := [b[..end]] + more;
      assert pieces[1..] == more;
      assert b == b[..end] + b[end..];
      FirstPieceComplete(b, end);
  }

  lemma FirstPieceComplete(b: seq<byte>, end: nat)
    requires FirstEnd(b) == Some(end)
    ensures Complete(b[..end])
  {
    FirstEndIsEarliest(b);
    EndsInPrefix(b, end, end);
    forall e | e < end ensures !EndsEvent(b[..end], e) {
      EndsInPrefix(b, end, e);
    }
  }

  lemma EndsInPrefix(b: seq<byte>, n: nat, e: int)
    requires e <= n <= |b|
    ensures EndsEvent(b[..n], e) <==> EndsEvent(b, e)
  {
    assert b[..n] + b[n..] == b;
    EndsEventAppend(b[..n], b[n..], e);
  }

  /** ... and only one. */
  lemma {:induction false} FramingUnique(b: seq<byte>, pieces: seq<seq<byte>>, rest: seq<byte>,
                                         pieces': seq<seq<byte>>, rest': seq<byte>)
    requires IsFraming(b, pieces, rest) && IsFraming(b, pieces', rest')
    ensures pieces == pieces' && rest == rest'
    decreases |pieces|
  {
    FramingHead(b, pieces, rest);
    FramingHead(b, pieces', rest');
    if pieces != [] {
      FramingUnique(b[|pieces[0]|..], pieces[1..], rest, pieces'[1..], rest');
      assert pieces == [pieces[0]] + pieces[1..] && pieces' == [pieces'[0]] + pieces'[1..];
    } else {
      assert rest == b && rest' == b;
    }
  }

  lemma {:induction false} FailsIffOversize(b: seq<byte>, pieces: seq<seq<byte>>, rest: seq<byte>, cap: int)
    requires IsFraming(b, pieces, rest)
    ensures Frames(b, cap).tooLarge <==> !Fits(pieces, cap) || (rest != [] && |rest| > cap)
    decreases |pieces|
  {
    FramingHead(b, pieces, rest);
    if pieces == [] {
      assert b == rest;
    } else {
      FailsIffOversize(b[|pieces[0]|..], pieces[1..], rest, cap);
      FitsCons(pieces, cap);
      FramesStep(b, |pieces[0]|, cap);
    }
  }

  function Delivered(pieces: seq<seq<byte>>, rest: seq<byte>): seq<seq<byte>> {
    VisibleAll(pieces) + if rest == [] then [] else [rest]
  }

  lemma DeliveredCons(pieces: seq<seq<byte>>, rest: seq<byte>)
    requires pieces != []
    ensures Delivered(pieces, rest) == Visible(pieces[0]) + Delivered(pieces[1..], rest)
  {
    var x, y, z := Visible(pieces[0]), VisibleAll(pieces[1..]), if rest == [] then [] else [rest];
    assert (x + y) + z == x + (y + z);
  }

  lemma {:induction false} DeliversAll(b: seq<byte>, pieces: seq<seq<byte>>, rest: seq<byte>, cap: int)
    requires IsFraming(b, pieces, rest) && !Frames(b, cap).tooLarge
    ensures Frames(b, cap).events == Delivered(pieces, rest)
    decreases |pieces|
  {
    FramingHead(b, pieces, rest);
    if pieces == [] {
      assert b == rest;
    } else {
      FramesStep(b, |pieces[0]|, cap);
      DeliversAll(b[|pieces[0]|..], pieces[1..], rest, cap);
      DeliveredCons(pieces, rest);
    }
  }

  /** The reader's outcome read off the framing: it fails exactly when some piece or the rest is
      over the cap; if it does not, every non-blank piece and a non-empty rest are delivered. */
  lemma FramesMeaning(b: seq<byte>, pieces: seq<seq<byte>>, rest: seq<byte>, cap: int)
    requires IsFraming(b, pieces, rest)
    ensures Frames(b, cap).tooLarge <==> !Fits(pieces, cap) || (rest != [] && |rest| > cap)
    ensures !Frames(b, cap).tooLarge ==> Frames(b, cap).events == Delivered(pieces, rest)
  {
    FailsIffOversize(b, pieces, rest, cap);
    if !Frames(b, cap).tooLarge {
      DeliversAll(b, pieces, rest, cap);
    }
  }

  lemma FitsCons(pieces: seq<seq<byte>>, cap: int)
    requires pieces != []
    ensures Fits(pieces, cap) <==> |pieces[0]| <= cap && Fits(pieces[1..], cap)
  {
    assert pieces == [pieces[0]] + pieces[1..];
  }

  lemma FramesStep(b: seq<byte>, end: nat, cap: int)
    requires FirstEnd(b) == Some(end)
    ensures Frames(b, cap) ==
            if end > cap then Framing([], true) else Frames(b[end..], cap).After(Visible(b[..end]))
  {
  }

  /** When it fails, what was delivered before is every non-blank piece ahead of the first one
      over the cap. */
  lemma {:induction false} FramesBeforeFailure(b: seq<byte>, pieces: seq<seq<byte>>, rest: seq<byte>, cap: int, k: nat)
    requires IsFraming(b, pieces, rest) && k <= |pieces|
    requires Fits(pieces[..k], cap)
    requires if k < |pieces| then |pieces[k]| > cap else rest != [] && |rest| > cap
    ensures Frames(b, cap) == Framing(VisibleAll(pieces[..k]), true)
    decreases |pieces|
  {
    FramingHead(b, pieces, rest);
    if pieces == [] {
      assert b == rest;
    } else if k > 0 {
      assert pieces[..k][0] == pieces[0];
      assert pieces[..k][1..] == pieces[1..][..k - 1];
      FramesBeforeFailure(b[|pieces[0]|..], pieces[1..], rest, cap, k - 1);
    }
  }
}

/**
 * Printing and parsing of event blocks (app/core/utils/sse.py) and the round trip through the
 * framer.  JSON printing is outside the model: a payload carries its printed text.
 */
module SseText {
  import opened Wrappers
  import opened SseFraming

  /** The characters at which `str.splitlines` breaks. */
  predicate IsLineBreak(c: char) {
    c == '\n' || c == '\r' || c == '\U{0B}' || c == '\U{0C}' || c == '\U{1C}' || c == '\U{1D}' || c == '\U{1E}'
    || c == '\U{85}' || c == '\U{2028}' || c == '\U{2029}'
  }

  /** The characters that `str.strip` removes. */
  predicate IsSpace(c: char) {
    IsLineBreak(c) || c == ' ' || c == '\t' || c == '\U{1F}' || c == '\U{A0}' || c == '\U{1680}'
    || '\U{2000}' <= c <= '\U{200A}' || c == '\U{202F}' || c == '\U{205F}' || c == '\U{3000}'
  }

  predicate OneLine(s: string) {
    forall i :: 0 <= i < |s| ==> !IsLineBreak(s[i])
  }

  function LineLength(s: string): (n: nat)
    ensures n <= |s| && OneLine(s[..n]) && (n < |s| ==> IsLineBreak(s[n]))
  {
    if s == "" || IsLineBreak(s[0]) then 0
    else
      var n := LineLength(s[1..]);
      assert s[..n + 1] == [s[0]] + s[1..][..n];
      n + 1
  }

  function SplitLines(s: string): seq<string>
    decreases |s|
  {
    if s == "" then []
    else
      var n := LineLength(s);
      if n == |s| then [s]
      else if s[n] == '\r' && n + 1 < |s| && s[n + 1] == '\n' then [s[..n]] + SplitLines(s[n + 2..])
      else [s[..n]] + SplitLines(s[n + 1..])
  }

  function Strip(s: string): string {
    StripRight(StripLeft(s))
  }

  function StripLeft(s: string): string {
    if s != "" && IsSpace(s[0]) then StripLeft(s[1..]) else s
  }

  function StripRight(s: string): string {
    if s != "" && IsSpace(s[|s| - 1]) then StripRight(s[..|s| - 1]) else s
  }

  function ColonAt(line: string): (n: nat)
    ensures n <= |line| && ':' !in line[..n] && (n < |line| ==> line[n] == ':')
  {
    if line == "" || line[0] == ':' then 0
    else
      var n := ColonAt(line[1..]);
      assert line[..n + 1] == [line[0]] + line[1..][..n];
      n + 1
  }

  /** Field name and value of one line; a single space after the colon is dropped. */
  function ParseField(line: string): (string, string) {
    var n := ColonAt(line);
    if n == |line| then (line, "")
    else
      var value := line[n + 1..];
      (line[..n], if value != "" && value[0] == ' ' then value[1..] else value)
  }

  /** The value a line contributes to the event's data, if any. */
  function DataOfLine(line: string): seq<string> {
    if line == "" || line[0] == ':' then []
    else
      var (field, value) := ParseField(line);
      if field == "data" then [value] else []
  }

  function DataOfLines(lines: seq<string>): seq<string> {
    if lines == [] then [] else DataOfLines(lines[..|lines| - 1]) + DataOfLine(lines[|lines| - 1])
  }

  method ExtractDataLines(block: string) returns (data: Option<seq<string>>)
    ensures data == if DataOfLines(SplitLines(block)) == [] then None else Some(DataOfLines(SplitLines(block)))
  {
    var lines := SplitLines(block);
    var values: seq<string> := [];
    for k := 0 to |lines|
      invariant values == DataOfLines(lines[..k])
    {
      var line := lines[k];
      assert lines[..k + 1][..k] == lines[..k];
      if line == "" || line[0] == ':' {
        continue;
      }
      var (field, value) := ParseField(line);
      if field == "data" {
        values := values + [value];
      }
    }
    assert lines[..|lines|] == lines;
    data := if values == [] then None else Some(values);
  }

  function JoinLines(lines: seq<string>): string {
    if lines == [] then "" else if |lines| == 1 then lines[0] else lines[0] + "\n" + JoinLines(lines[1..])
  }

  function ExtractData(block: string): Option<string> {
    var lines := DataOfLines(SplitLines(block));
    if lines == [] then None
    else
      var data := JoinLines(lines);
      if Strip(data) == "" || Strip(data) == "[DONE]" then None else Some(data)
  }

  // ---- Printing ----

  /** A payload: its "type" member when that is a string, and the text `json.dumps` gives it. */
  datatype Payload = Payload(eventType: Option<string>, json: string)

  function DataLine(p: Payload): string {
    "data: " + p.json
  }

  function EventLine(t: string): string {
    "event: " + t
  }

  function DataBlock(p: Payload): string {
    DataLine(p) + ("\n" + "\n")
  }

  function FormatEvent(p: Payload): string {
    if p.eventType.Some? && p.eventType.value != ""
    then EventLine(p.eventType.value) + ("\n" + DataBlock(p))
    else DataBlock(p)
  }

  /** Text of a JSON object printed with ensure_ascii: braces around printable ASCII. */
  predicate ObjectText(s: string) {
    |s| >= 2 && s[0] == '{' && s[|s| - 1] == '}' && forall i :: 0 <= i < |s| ==> ' ' <= s[i] <= '~'
  }

  predicate Printable(p: Payload) {
    ObjectText(p.json) && (p.eventType.Some? ==> OneLine(p.eventType.value))
  }

  lemma {:induction false} LineLengthUnique(line: string, tail: string)
    requires OneLine(line) && (tail == "" || IsLineBreak(tail[0]))
    ensures LineLength(line + tail) == |line|
  {
    var s := line + tail;
    assert s[..|line|] == line;
    if line == "" {
      assert s == tail;
    } else {
      assert s[1..] == line[1..] + tail;
      LineLengthUnique(line[1..], tail);
    }
  }

  lemma SplitFirstLine(line: string, tail: string)
    requires OneLine(line)
    ensures SplitLines(line + ("\n" + tail)) == [line] + SplitLines(tail)
  {
    var s := line + ("\n" + tail);
    LineLengthUnique(line, "\n" + tail);
    assert s[..|line|] == line && s[|line| + 1..] == tail && s[|line|] == '\n';
  }

  lemma {:induction false} ColonAtUnique(field: string, tail: string)
    requires ':' !in field
    ensures ColonAt(field + ":" + tail) == |field|
  {
    if field != "" {
      assert (field + ":" + tail)[1..] == field[1..] + ":" + tail;
      ColonAtUnique(field[1..], tail);
    }
  }

  lemma ParseFieldPrinted(field: string, value: string)
    requires ':' !in field
    ensures ParseField(field + ": " + value) == (field, value)
  {
    var line := field + ": " + value;
    assert line == field + ":" + (" " + value);
    ColonAtUnique(field, " " + value);
    assert line[..|field|] == field && line[|field| + 1..] == " " + value;
  }

  /** A line without a colon is a field name with an empty value. */
  lemma ParseFieldBare(line: string)
    requires ':' !in line
    ensures ParseField(line) == (line, "")
  {
  }

  lemma StripObjectText(s: string)
    requires ObjectText(s)
    ensures Strip(s) == s
  {
  }

  lemma DataLineIsOneLine(p: Payload)
    requires ObjectText(p.json)
    ensures OneLine(DataLine(p)) && DataOfLine(DataLine(p)) == [p.json]
  {
    forall i | 0 <= i < |DataLine(p)| ensures !IsLineBreak(DataLine(p)[i]) {
      assert DataLine(p)[i] == if i < 6 then "data: "[i] else p.json[i - 6];
    }
    assert DataLine(p) == "data" + ": " + p.json;
    ParseFieldPrinted("data", p.json);
  }

  lemma LinesOfDataBlock(p: Payload)
    requires ObjectText(p.json)
    ensures SplitLines(DataBlock(p)) == [DataLine(p), ""]
  {
    DataLineIsOneLine(p);
    SplitFirstLine(DataLine(p), "\n");
    SplitFirstLine("", "");
    assert "" + ("\n" + "") == "\n";
  }

  lemma DataLinesOfPrinted(p: Payload)
    requires Printable(p)
    ensures DataOfLines(SplitLines(FormatEvent(p))) == [p.json]
  {
    DataLineIsOneLine(p);
    LinesOfDataBlock(p);
    if p.eventType.Some? && p.eventType.value != "" {
      var t := p.eventType.value;
      SplitFirstLine(EventLine(t), DataBlock(p));
      assert [EventLine(t)] + [DataLine(p), ""] == [EventLine(t), DataLine(p), ""];
      DataOfThree(EventLine(t), DataLine(p), "");
    } else {
      DataOfTwo(DataLine(p), "");
    }
  }

  lemma DataOfTwo(a: string, b: string)
    ensures DataOfLines([a, b]) == DataOfLine(a) + DataOfLine(b)
  {
    assert [a, b][..1] == [a] && [a][..0] == [];
    assert DataOfLines([a]) == DataOfLine(a);
  }

  lemma DataOfThree(a: string, b: string, c: string)
    ensures DataOfLines([a, b, c]) == DataOfLine(a) + DataOfLine(b) + DataOfLine(c)
  {
    assert [a, b, c][..2] == [a, b];
    DataOfTwo(a, b);
  }

  /** Printing then parsing gives the JSON text back. */
  lemma PrintParse(p: Payload)
    requires Printable(p)
    ensures ExtractData(FormatEvent(p)) == Some(p.json)
  {
    DataLinesOfPrinted(p);
    StripObjectText(p.json);
  }

  // ---- Through the wire ----

  function Encode(codec: char -> seq<byte>, s: string): seq<byte> {
    if s == "" then [] else codec(s[0]) + Encode(codec, s[1..])
  }

  /** What the round trip needs of UTF-8: ASCII is encoded as itself and every other character
      as bytes outside ASCII, and `decode` undoes it. */
  ghost predicate AsciiTransparent(codec: char -> seq<byte>) {
    forall c: char :: if c < '\U{80}' then codec(c) == [c as int as byte]
                      else |codec(c)| > 0 && forall i :: 0 <= i < |codec(c)| ==> codec(c)[i] >= 128
  }

  ghost predicate Undoes(decode: seq<byte> -> string, codec: char -> seq<byte>) {
    forall s: string :: decode(Encode(codec, s)) == s
  }

  predicate NoBreakBytes(b: seq<byte>) {
    LF !in b && CR !in b
  }

  lemma {:induction false} EncodeAppend(codec: char -> seq<byte>, s: string, t: string)
    ensures Encode(codec, s + t) == Encode(codec, s) + Encode(codec, t)
  {
    if s == "" {
      assert s + t == t;
    } else {
      assert (s + t)[1..] == s[1..] + t;
      EncodeAppend(codec, s[1..], t);
    }
  }

  lemma {:induction false} EncodeOneLine(codec: char -> seq<byte>, s: string)
    requires AsciiTransparent(codec) && OneLine(s)
    ensures NoBreakBytes(Encode(codec, s)) && |Encode(codec, s)| >= |s|
  {
    if s != "" {
      EncodeOneLine(codec, s[1..]);
    }
  }

  /** Lines without line breaks in them, each closed by LF, with a blank line last, make one piece. */
  lemma TwoLinesComplete(a: seq<byte>, b: seq<byte>)
    requires NoBreakBytes(a) && NoBreakBytes(b) && b != []
    ensures Complete(a + [LF] + b + [LF, LF])
  {
    var s := a + [LF] + b + [LF, LF];
    var n := |a|;
    forall i | 0 <= i < |s| ensures s[i] == LF <==> i == n || i >= |s| - 2 {
      assert s[i] == if i < n then a[i] else if i == n then LF else if i < |s| - 2 then b[i - n - 1] else LF;
    }
    EndsOnlyAtLineFeeds(s);
  }

  lemma OneLineComplete(b: seq<byte>)
    requires NoBreakBytes(b) && b != []
    ensures Complete(b + [LF, LF])
  {
    var s := b + [LF, LF];
    forall i | 0 <= i < |s| ensures s[i] == LF <==> i >= |s| - 2 {
      assert s[i] == if i < |s| - 2 then b[i] else LF;
    }
    EndsOnlyAtLineFeeds(s);
  }

  /** If no two adjacent bytes but the last two are line feeds, the piece has one end only. */
  lemma EndsOnlyAtLineFeeds(s: seq<byte>)
    requires |s| >= 2 && CR !in s && s[|s| - 2] == LF && s[|s| - 1] == LF
    requires forall i :: 0 <= i < |s| - 2 ==> !(s[i] == LF && s[i + 1] == LF)
    ensures Complete(s)
  {
    assert s[|s| - 2..] == LfLf;
    forall e | e < |s| ensures !EndsEvent(s, e) {
      if 4 <= e { assert s[e - 4..e][0] != CR; }
      if 2 <= e { assert s[e - 2..e][0] == s[e - 2] && s[e - 2..e][1] == s[e - 1]; }
    }
  }

  lemma EncodeDataBlock(codec: char -> seq<byte>, p: Payload)
    requires AsciiTransparent(codec) && ObjectText(p.json)
    ensures Encode(codec, DataBlock(p)) == Encode(codec, DataLine(p)) + [LF, LF]
    ensures NoBreakBytes(Encode(codec, DataLine(p)))
    ensures |Encode(codec, DataLine(p))| > 0 && Encode(codec, DataLine(p))[0] == 100
  {
    DataLineIsOneLine(p);
    EncodeOneLine(codec, DataLine(p));
    EncodeAppend(codec, DataLine(p), "\n" + "\n");
    EncodeAscii(codec, '\n', "\n");
    EncodeAscii(codec, '\n', "");
    EncodeAscii(codec, 'd', DataLine(p)[1..]);
    assert DataLine(p) == ['d'] + DataLine(p)[1..];
  }

  lemma EncodeTyped(codec: char -> seq<byte>, t: string, block: string)
    requires AsciiTransparent(codec) && OneLine(t)
    ensures Encode(codec, EventLine(t) + ("\n" + block)) == Encode(codec, EventLine(t)) + [LF] + Encode(codec, block)
    ensures NoBreakBytes(Encode(codec, EventLine(t)))
    ensures |Encode(codec, EventLine(t))| > 0 && Encode(codec, EventLine(t))[0] == 101
  {
    EncodeOneLine(codec, EventLine(t));
    EncodeAppend(codec, EventLine(t), "\n" + block);
    EncodeAscii(codec, '\n', block);
    EncodeAscii(codec, 'e', EventLine(t)[1..]);
    assert EventLine(t) == ['e'] + EventLine(t)[1..];
  }

  lemma PrintedIsComplete(codec: char -> seq<byte>, p: Payload)
    requires AsciiTransparent(codec) && Printable(p)
    ensures Complete(Encode(codec, FormatEvent(p))) && !Blank(Encode(codec, FormatEvent(p)))
  {
    var printed := Encode(codec, FormatEvent(p));
    var line := Encode(codec, DataLine(p));
    EncodeDataBlock(codec, p);
    if p.eventType.Some? && p.eventType.value != "" {
      var head := Encode(codec, EventLine(p.eventType.value));
      EncodeTyped(codec, p.eventType.value, DataBlock(p));
      assert printed == head + [LF] + line + [LF, LF];
      TwoLinesComplete(head, line);
      assert printed[0] == 101;
    } else {
      OneLineComplete(line);
      assert printed[0] == 100;
    }
  }

  lemma EncodeAscii(codec: char -> seq<byte>, c: char, s: string)
    requires AsciiTransparent(codec) && c < '\U{80}'
    ensures Encode(codec, [c] + s) == [c as int as byte] + Encode(codec, s)
  {
    assert ([c] + s)[1..] == s;
  }

  function Wire(codec: char -> seq<byte>, ps: seq<Payload>): seq<seq<byte>> {
    seq(|ps|, i requires 0 <= i < |ps| => Encode(codec, FormatEvent(ps[i])))
  }

  lemma {:induction false} AllVisible(pieces: seq<seq<byte>>)
    requires forall i :: 0 <= i < |pieces| ==> !Blank(pieces[i])
    ensures VisibleAll(pieces) == pieces
  {
    if pieces != [] {
      AllVisible(pieces[1..]);
    }
  }

  /** Print, cut anywhere, frame and parse: every payload's JSON text comes back, in order.
      `Frames` is what `IterEvents` computes for any chunking of these bytes. */
  lemma PrintFrameParse(codec: char -> seq<byte>, decode: seq<byte> -> string, ps: seq<Payload>, cap: int)
    requires AsciiTransparent(codec) && Undoes(decode, codec)
    requires forall i :: 0 <= i < |ps| ==> Printable(ps[i])
    requires forall i :: 0 <= i < |ps| ==> |Encode(codec, FormatEvent(ps[i]))| <= cap
    ensures var f := Frames(Flatten(Wire(codec, ps)), cap);
            && !f.tooLarge && |f.events| == |ps|
            && forall i :: 0 <= i < |ps| ==> ExtractData(decode(f.events[i])) == Some(ps[i].json)
  {
    var pieces := Wire(codec, ps);
    forall i | 0 <= i < |ps| ensures Complete(pieces[i]) && !Blank(pieces[i]) {
      PrintedIsComplete(codec, ps[i]);
    }
    var b := Flatten(pieces);
    assert b + [] == b;
    FramesMeaning(b, pieces, [], cap);
    AllVisible(pieces);
    assert pieces + [] == pieces;
    forall i | 0 <= i < |ps| ensures ExtractData(decode(pieces[i])) == Some(ps[i].json) {
      PrintParse(ps[i]);
    }
  }
}

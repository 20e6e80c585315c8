/**
 * What the event parser (app/core/utils/sse.py) makes of a block that a server wrote: comments,
 * fields with and without a space after the colon, several data lines, LF and CR LF endings.
 */
module SseBlocks {
  import opened Wrappers
  import opened SseText

  /** One line as written. */
  datatype BlockLine = Empty | Comment(text: string) | FieldLine(name: string, spaced: bool, value: string) | NameOnly(name: string)

  datatype Ending = Lf | CrLf

  datatype Written = Written(line: BlockLine, ending: Ending)

  function LineText(l: BlockLine): string {
    match l
    case Empty => ""
    case Comment(text) => ":" + text
    case FieldLine(name, spaced, value) => name + (if spaced then ": " else ":") + value
    case NameOnly(name) => name
  }

  /** No line break inside, a name without colon, and the space after the colon counted as such. */
  predicate WellWritten(l: BlockLine) {
    && OneLine(LineText(l))
    && match l
       case FieldLine(name, spaced, value) => name != "" && ':' !in name && (!spaced ==> value == "" || value[0] != ' ')
       case NameOnly(name) => name != "" && ':' !in name
       case _ => true
  }

  function EndingText(e: Ending): string {
    if e.Lf? then "\n" else "\r\n"
  }

  function BlockText(lines: seq<Written>): string {
    if lines == [] then "" else LineText(lines[0].line) + (EndingText(lines[0].ending) + BlockText(lines[1..]))
  }

  /** The values of the data fields, in order. */
  function Data(lines: seq<Written>): seq<string> {
    if lines == [] then []
    else
      (match lines[0].line
       case FieldLine(name, _, value) => if name == "data" then [value] else []
       case NameOnly(name) => if name == "data" then [""] else []
       case _ => []) + Data(lines[1..])
  }

  function Texts(lines: seq<Written>): seq<string> {
    if lines == [] then [] else [LineText(lines[0].line)] + Texts(lines[1..])
  }

  lemma SplitLine(line: string, ending: Ending, tail: string)
    requires OneLine(line)
    ensures SplitLines(line + (EndingText(ending) + tail)) == [line] + SplitLines(tail)
  {
    if ending.Lf? {
      SplitFirstLine(line, tail);
    } else {
      SplitAtCrLf(line, tail);
    }
  }

  lemma SplitAtCrLf(line: string, tail: string)
    requires OneLine(line)
    ensures SplitLines(line + ("\r\n" + tail)) == [line] + SplitLines(tail)
  {
    var s, n := line + ("\r\n" + tail), |line|;
    LineLengthUnique(line, "\r\n" + tail);
    assert s[..n] == line && s[n] == '\r' && s[n + 1] == '\n' && s[n + 2..] == tail;
  }

  lemma {:induction false} BlockSplits(lines: seq<Written>)
    requires forall i :: 0 <= i < |lines| ==> WellWritten(lines[i].line)
    ensures SplitLines(BlockText(lines)) == Texts(lines)
  {
    if lines != [] {
      BlockSplits(lines[1..]);
      SplitLine(LineText(lines[0].line), lines[0].ending, BlockText(lines[1..]));
    }
  }

  /** The value of a field: what follows the colon, without one space if there is one. */
  lemma FieldRead(name: string, spaced: bool, value: string)
    requires ':' !in name && (!spaced ==> value == "" || value[0] != ' ')
    ensures ParseField(LineText(FieldLine(name, spaced, value))) == (name, value)
  {
    if spaced {
      ParseFieldPrinted(name, value);
    } else {
      var line := name + ":" + value;
      ColonAtUnique(name, value);
      assert line[..|name|] == name && line[|name| + 1..] == value;
    }
  }

  lemma LineRead(w: Written)
    requires WellWritten(w.line)
    ensures DataOfLine(LineText(w.line)) == Data([w])
  {
    assert Data([w][1..]) == [];
    match w.line
    case FieldLine(name, spaced, value) =>
      FieldRead(name, spaced, value);
      assert LineText(w.line)[0] == name[0];
    case NameOnly(name) => ParseFieldBare(name);
    case Comment(text) => assert LineText(w.line)[0] == ':';
    case Empty =>
  }

  lemma {:induction false} DataOfCons(line: string, rest: seq<string>)
    ensures DataOfLines([line] + rest) == DataOfLine(line) + DataOfLines(rest)
  {
    var all := [line] + rest;
    if rest == [] {
      assert all[..|all| - 1] == [] && all[|all| - 1] == line;
    } else {
      var init, last := rest[..|rest| - 1], rest[|rest| - 1];
      DataOfCons(line, init);
      assert all[..|all| - 1] == [line] + init && all[|all| - 1] == last;
      assert DataOfLine(line) + DataOfLines(init) + DataOfLine(last) == DataOfLine(line) + (DataOfLines(init) + DataOfLine(last));
    }
  }

  lemma {:induction false} BlockData(lines: seq<Written>)
    requires forall i :: 0 <= i < |lines| ==> WellWritten(lines[i].line)
    ensures DataOfLines(Texts(lines)) == Data(lines)
  {
    if lines != [] {
      BlockData(lines[1..]);
      LineRead(lines[0]);
      DataOfCons(LineText(lines[0].line), Texts(lines[1..]));
      DataCons(lines);
    }
  }

  lemma DataCons(lines: seq<Written>)
    requires lines != []
    ensures Data(lines) == Data([lines[0]]) + Data(lines[1..])
  {
    assert [lines[0]][1..] == [];
    assert Data([]) == [];
  }

  /** A block gives its data values joined by line feeds, or nothing: without data lines, with only
      white space, or for the closing mark. */
  lemma BlockMeaning(lines: seq<Written>)
    requires forall i :: 0 <= i < |lines| ==> WellWritten(lines[i].line)
    ensures var joined := JoinLines(Data(lines));
            ExtractData(BlockText(lines)) ==
            if Data(lines) == [] || Strip(joined) == "" || Strip(joined) == "[DONE]" then None else Some(joined)
  {
    BlockSplits(lines);
    BlockData(lines);
  }

  /** Joining puts a line feed between every two values: splitting gives them back. */
  lemma {:induction false} JoinedSplits(values: seq<string>)
    requires values != [] && values[|values| - 1] != "" && forall i :: 0 <= i < |values| ==> OneLine(values[i])
    ensures SplitLines(JoinLines(values)) == values
  {
    if |values| == 1 {
      LineLengthUnique(values[0], "");
      assert values[0] + "" == values[0];
    } else {
      JoinedSplits(values[1..]);
      assert values[0] + "\n" + JoinLines(values[1..]) == values[0] + (EndingText(Lf) + JoinLines(values[1..]));
      SplitLine(values[0], Lf, JoinLines(values[1..]));
      assert values == [values[0]] + values[1..];
    }
  }

  predicate AllSpace(s: string) {
    forall i :: 0 <= i < |s| ==> IsSpace(s[i])
  }

  lemma {:induction false} StripLeftMeaning(s: string) returns (a: string)
    ensures s == a + StripLeft(s) && AllSpace(a) && (StripLeft(s) != "" ==> !IsSpace(StripLeft(s)[0]))
  {
    a := "";
    if s != "" && IsSpace(s[0]) {
      var rest := StripLeftMeaning(s[1..]);
      a := [s[0]] + rest;
    }
  }

  lemma {:induction false} StripRightMeaning(s: string) returns (b: string)
    ensures s == StripRight(s) + b && AllSpace(b) && (StripRight(s) != "" ==> !IsSpace(StripRight(s)[|StripRight(s)| - 1]))
    ensures StripRight(s) != "" ==> s != "" && StripRight(s)[0] == s[0]
  {
    b := "";
    if s != "" && IsSpace(s[|s| - 1]) {
      var rest := StripRightMeaning(s[..|s| - 1]);
      b := rest + [s[|s| - 1]];
    }
  }

  /** Stripping removes white space at both ends and nothing else. */
  lemma StripMeaning(s: string) returns (a: string, b: string)
    ensures s == a + Strip(s) + b && AllSpace(a) && AllSpace(b)
    ensures Strip(s) != "" ==> !IsSpace(Strip(s)[0]) && !IsSpace(Strip(s)[|Strip(s)| - 1])
  {
    a := StripLeftMeaning(s);
    b := StripRightMeaning(StripLeft(s));
  }
}

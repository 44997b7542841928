/**
 * Reading files line by line (packages/core/src/io/file-readers.ts:16-137 and 155-159).  Both readers
 * keep the index of the next line; blank lines and rows mapped to null are passed over.
 */
module FileReaders {
  import opened Common
  import opened Checkpoint
  import opened Csv
  import opened Text

  type Row = map<string, string>

  datatype ReadError = NoSuchLine | MappingThrew(code: int)

  // ---------------------------------------------------------------- splitting

  const BOM := '\U{FEFF}'

  function WithoutBom(text: string): string {
    if text != "" && text[0] == BOM then text[1..] else text
  }

  function ReplaceCrLf(text: string): string {
    if |text| < 2 then text
    else if text[0] == '\r' && text[1] == '\n' then "\n" + ReplaceCrLf(text[2..])
    else [text[0]] + ReplaceCrLf(text[1..])
  }

  function ReplaceCr(text: string): string {
    if text == "" then "" else [if text[0] == '\r' then '\n' else text[0]] + ReplaceCr(text[1..])
  }

  function Split(text: string): (lines: seq<string>)
    ensures |lines| > 0
  {
    if text == "" then [""]
    else if text[0] == '\n' then [""] + Split(text[1..])
    else var lines := Split(text[1..]); [[text[0]] + lines[0]] + lines[1..]
  }

  function SplitLines(raw: string): (lines: seq<string>)
    ensures |lines| > 0
  {
    Split(ReplaceCr(ReplaceCrLf(WithoutBom(raw))))
  }

  predicate OneLine(text: string) {
    '\n' !in text && '\r' !in text
  }

  lemma {:induction false} NoReturnLeft(text: string)
    ensures '\r' !in ReplaceCr(text)
  {
    if text != "" { NoReturnLeft(text[1..]); }
  }

  lemma {:induction false} SplitIsClean(text: string, i: nat)
    requires '\r' !in text && i < |Split(text)|
    ensures OneLine(Split(text)[i])
  {
    if text != "" {
      assert '\r' !in text[1..];
      if text[0] == '\n' {
        if i > 0 { SplitIsClean(text[1..], i - 1); }
      } else {
        SplitIsClean(text[1..], i);
      }
    }
  }

  /** Whatever the file holds, no line has a line break in it. */
  lemma LinesAreClean(raw: string, i: nat)
    requires i < |SplitLines(raw)|
    ensures OneLine(SplitLines(raw)[i])
  {
    NoReturnLeft(ReplaceCrLf(WithoutBom(raw)));
    SplitIsClean(ReplaceCr(ReplaceCrLf(WithoutBom(raw))), i);
  }

  /** Lines, each ended by a line feed. */
  function Terminated(lines: seq<string>): string {
    if lines == [] then "" else lines[0] + "\n" + Terminated(lines[1..])
  }

  lemma {:induction false} NoReturnKept(text: string)
    requires '\r' !in text
    ensures ReplaceCrLf(text) == text && ReplaceCr(text) == text
  {
    if text != "" {
      NoReturnKept(text[1..]);
      assert [text[0]] + text[1..] == text;
    }
  }

  lemma {:induction false} SplitFirst(line: string, after: string)
    requires '\n' !in line
    ensures Split(line + "\n" + after) == [line] + Split(after)
  {
    var text := line + "\n" + after;
    if line == "" {
      assert text[1..] == after;
    } else {
      assert text[1..] == line[1..] + "\n" + after && text[0] == line[0];
      SplitFirst(line[1..], after);
      assert [line[0]] + line[1..] == line;
    }
  }

  lemma {:induction false} SplitTerminated(lines: seq<string>)
    requires forall i :: 0 <= i < |lines| ==> OneLine(lines[i])
    ensures Split(Terminated(lines)) == lines + [""] && '\r' !in Terminated(lines)
  {
    if lines != [] {
      SplitTerminated(lines[1..]);
      SplitFirst(lines[0], Terminated(lines[1..]));
      assert [lines[0]] + (lines[1..] + [""]) == lines + [""];
    }
  }

  /** Terminated lines come back, followed by the empty rest; only a leading byte order mark is lost. */
  lemma TerminatedLinesSplit(lines: seq<string>)
    requires lines != [] && forall i :: 0 <= i < |lines| ==> OneLine(lines[i])
    ensures SplitLines(Terminated(lines)) == [WithoutBom(lines[0])] + lines[1..] + [""]
  {
    hide Split, ReplaceCr, ReplaceCrLf, OneLine;
    var bare := [WithoutBom(lines[0])] + lines[1..];
    BomOnFirstLine(lines);
    forall i | 0 <= i < |bare| ensures OneLine(bare[i]) {
      assert OneLine(lines[i]);
      if i == 0 { ShorterIsClean(lines[0]); }
    }
    SplitTerminated(bare);
    NoReturnKept(Terminated(bare));
  }

  lemma ShorterIsClean(line: string)
    requires OneLine(line)
    ensures OneLine(WithoutBom(line))
  {
  }

  lemma BomOnFirstLine(lines: seq<string>)
    requires lines != []
    ensures WithoutBom(Terminated(lines)) == Terminated([WithoutBom(lines[0])] + lines[1..])
  {
    var rest := "\n" + Terminated(lines[1..]);
    var bare := [WithoutBom(lines[0])] + lines[1..];
    assert bare[1..] == lines[1..];
    assert Terminated(lines) == lines[0] + rest && Terminated(bare) == bare[0] + rest;
    hide Terminated;
    BomOfPrefix(lines[0], rest);
  }

  lemma BomOfPrefix(line: string, rest: string)
    requires rest != "" && rest[0] != BOM
    ensures WithoutBom(line + rest) == WithoutBom(line) + rest
  {
    if line == "" {
      assert line + rest == rest;
    } else {
      assert (line + rest)[1..] == line[1..] + rest;
    }
  }

  // Any text, cut at its line breaks.

  datatype Break = LineFeed | ReturnAndFeed | Return

  ghost function Written(b: Break): string {
    match b
    case LineFeed => "\n"
    case ReturnAndFeed => "\r\n"
    case Return => "\r"
  }

  /** Lines, each ended by a break of its own. */
  ghost function Ended(lines: seq<string>, breaks: seq<Break>): string
    requires |lines| == |breaks|
  {
    if lines == [] then "" else lines[0] + Written(breaks[0]) + Ended(lines[1..], breaks[1..])
  }

  /** No carriage return ends a line that is followed by an empty one ended by a line feed: the two would be one break. */
  ghost predicate Unmerged(lines: seq<string>, breaks: seq<Break>)
    requires |lines| == |breaks|
  {
    forall i :: 0 < i < |lines| && breaks[i - 1].Return? && breaks[i].LineFeed? ==> lines[i] != ""
  }

  ghost predicate AllOneLine(lines: seq<string>) {
    forall i :: 0 <= i < |lines| ==> OneLine(lines[i])
  }

  ghost function Normal(text: string): string {
    ReplaceCr(ReplaceCrLf(text))
  }

  lemma {:induction false} CleanPrefix(line: string, rest: string)
    requires OneLine(line)
    ensures Normal(line + rest) == line + Normal(rest)
  {
    if line == "" {
      assert line + rest == rest;
    } else {
      var text := line + rest;
      assert text[1..] == line[1..] + rest;
      CleanPrefix(line[1..], rest);
      if |text| < 2 {
        assert rest == "" && line == [line[0]] && text == line;
      } else {
        var inner := [text[0]] + ReplaceCrLf(text[1..]);
        assert inner[1..] == ReplaceCrLf(text[1..]);
      }
    }
  }

  lemma BreakNormal(b: Break, after: string)
    requires b.Return? ==> after == "" || after[0] != '\n'
    ensures Normal(Written(b) + after) == "\n" + Normal(after)
  {
    var text := Written(b) + after;
    if b.ReturnAndFeed? {
      assert text[2..] == after;
    } else {
      assert text[1..] == after;
    }
    var replaced := (if b.Return? then "\r" else "\n") + ReplaceCrLf(after);
    assert replaced[1..] == ReplaceCrLf(after);
    if after == "" {
      assert ReplaceCrLf(text) == replaced;
    }
  }

  lemma FirstCut(line: string, b: Break, after: string)
    requires OneLine(line) && (b.Return? ==> after == "" || after[0] != '\n')
    ensures Split(Normal(line + Written(b) + after)) == [line] + Split(Normal(after))
  {
    hide Normal, Split, Written;
    BreakNormal(b, after);
    CleanPrefix(line, Written(b) + after);
    SplitFirst(line, Normal(after));
    assert line + Written(b) + after == line + (Written(b) + after);
    assert line + "\n" + Normal(after) == line + ("\n" + Normal(after));
  }

  lemma {:induction false} SplitClean(text: string)
    requires OneLine(text)
    ensures Split(Normal(text)) == [text]
  {
    CleanPrefix(text, "");
    assert text + "" == text && Normal("") == "";
    SplitWhole(text);
  }

  lemma {:induction false} SplitWhole(text: string)
    requires '\n' !in text
    ensures Split(text) == [text]
  {
    if text != "" {
      SplitWhole(text[1..]);
      assert [text[0]] + text[1..] == text;
    }
  }

  /** What follows the first break. */
  ghost function Rest(lines: seq<string>, breaks: seq<Break>, last: string): string
    requires |lines| == |breaks| && lines != []
  {
    Ended(lines[1..], breaks[1..]) + last
  }

  lemma LineStarts(line: string, b: Break, after: string)
    requires OneLine(line)
    ensures var text := line + Written(b) + after; text != "" && (text[0] == '\n' <==> line == "" && b.LineFeed?)
  {
  }

  lemma EndedFirst(lines: seq<string>, breaks: seq<Break>, last: string)
    requires |lines| == |breaks| && lines != []
    ensures Ended(lines, breaks) + last == lines[0] + Written(breaks[0]) + Rest(lines, breaks, last)
  {
    hide Written;
  }

  lemma RestStarts(lines: seq<string>, breaks: seq<Break>, last: string)
    requires |lines| == |breaks| && lines != [] && AllOneLine(lines) && OneLine(last)
    ensures var rest := Rest(lines, breaks, last);
      (rest != "" && rest[0] == '\n') <==> (|lines| > 1 && lines[1] == "" && breaks[1].LineFeed?)
    ensures Ended(lines, breaks) + last == lines[0] + Written(breaks[0]) + Rest(lines, breaks, last)
  {
    EndedFirst(lines, breaks, last);
    if |lines| == 1 {
      assert Ended(lines[1..], breaks[1..]) == "" && Rest(lines, breaks, last) == last;
    } else {
      hide Written, Ended, OneLine;
      EndedFirst(lines[1..], breaks[1..], last);
      LineStarts(lines[1..][0], breaks[1..][0], Rest(lines[1..], breaks[1..], last));
    }
  }

  /** The lines come back, if no two breaks merge. */
  lemma {:induction false} UnmergedSplit(lines: seq<string>, breaks: seq<Break>, last: string)
    requires |lines| == |breaks| && AllOneLine(lines) && OneLine(last) && Unmerged(lines, breaks)
    ensures Split(Normal(Ended(lines, breaks) + last)) == lines + [last]
  {
    hide Normal, Split, OneLine, Written;
    if lines == [] {
      SplitClean(last);
      assert "" + last == last && [] + [last] == [last];
    } else {
      RestStarts(lines, breaks, last);
      UnmergedSplit(lines[1..], breaks[1..], last);
      FirstCut(lines[0], breaks[0], Rest(lines, breaks, last));
      assert [lines[0]] + (lines[1..] + [last]) == lines + [last];
    }
  }

  lemma MergedEnded(lines: seq<string>, breaks: seq<Break>, last: string)
    requires |lines| == |breaks| > 1 && lines[1] == "" && breaks[0].Return? && breaks[1].LineFeed?
    ensures Ended(lines, breaks) + last == Ended([lines[0]] + lines[2..], [ReturnAndFeed] + breaks[2..]) + last
  {
    var (ls, bs) := ([lines[0]] + lines[2..], [ReturnAndFeed] + breaks[2..]);
    assert lines[1..][1..] == lines[2..] && breaks[1..][1..] == breaks[2..] && ls[1..] == lines[2..] && bs[1..] == breaks[2..];
    EndedFirst(lines, breaks, last);
    EndedFirst(lines[1..], breaks[1..], last);
    EndedFirst(ls, bs, last);
    hide Ended;
    MergedBreak(lines[0], Ended(lines[2..], breaks[2..]) + last);
  }

  lemma MergedBreak(line: string, rest: string)
    ensures line + "\r" + ("" + "\n" + rest) == line + "\r\n" + rest
  {
  }

  /** No line too many comes back, and one too few where two breaks merge. */
  lemma {:induction false} LinesAtMost(lines: seq<string>, breaks: seq<Break>, last: string)
    requires |lines| == |breaks| && AllOneLine(lines) && OneLine(last)
    ensures |Split(Normal(Ended(lines, breaks) + last))| <= |lines| + (if Unmerged(lines, breaks) then 1 else 0)
    decreases |lines|
  {
    if Unmerged(lines, breaks) {
      UnmergedSplit(lines, breaks, last);
    } else if breaks[0].Return? && lines[1] == "" && breaks[1].LineFeed? {
      hide Normal, Split, OneLine, Ended;
      MergedEnded(lines, breaks, last);
      LinesAtMost([lines[0]] + lines[2..], [ReturnAndFeed] + breaks[2..], last);
    } else {
      hide Normal, Split, OneLine, Written, Ended;
      var i :| 0 < i < |lines| && breaks[i - 1].Return? && breaks[i].LineFeed? && lines[i] == "";
      assert breaks[1..][i - 2].Return? && breaks[1..][i - 1].LineFeed? && lines[1..][i - 1] == "";
      RestStarts(lines, breaks, last);
      LinesAtMost(lines[1..], breaks[1..], last);
      FirstCut(lines[0], breaks[0], Rest(lines, breaks, last));
    }
  }

  ghost function Unmarked(lines: seq<string>): seq<string>
    requires lines != []
  {
    [if lines[0] != "" && lines[0][0] == '\U{FEFF}' then lines[0][1..] else lines[0]] + lines[1..]
  }

  /**
   * Lines ended by any mix of line feeds, carriage returns and pairs of both come back, the last one ended or
   * not and a leading byte order mark dropped, if and only if no carriage return is followed by a line feed
   * that is meant to end an empty line of its own.
   */
  lemma AnyBreaksSplitIff(lines: seq<string>, breaks: seq<Break>, last: string)
    requires |lines| == |breaks| && AllOneLine(lines) && OneLine(last)
    ensures SplitLines(Ended(lines, breaks) + last) == Unmarked(lines + [last]) <==> Unmerged(lines, breaks)
  {
    if lines == [] {
      assert "" + last == last && ([] + [last])[1..] == [];
      ShorterIsClean(last);
      SplitClean(WithoutBom(last));
      hide *;
    } else {
      var bare := Unmarked(lines);
      BomBeforeBreak(lines, breaks, last);
      ShorterIsClean(lines[0]);
      assert AllOneLine(bare) by { hide WithoutBom, OneLine; }
      assert SplitLines(Ended(lines, breaks) + last) == Split(Normal(Ended(bare, breaks) + last));
      hide *;
      UnmarkedLines(lines, breaks, last);
      SplitIffUnmerged(bare, breaks, last);
    }
  }

  lemma UnmarkedLines(lines: seq<string>, breaks: seq<Break>, last: string)
    requires |lines| == |breaks| && lines != []
    ensures Unmerged(Unmarked(lines), breaks) <==> Unmerged(lines, breaks)
    ensures Unmarked(lines + [last]) == Unmarked(lines) + [last] && |Unmarked(lines)| == |lines|
  {
    var bare := Unmarked(lines);
    assert forall i :: 0 < i < |lines| ==> bare[i] == lines[i];
    assert (lines + [last])[1..] == lines[1..] + [last];
  }

  lemma SplitIffUnmerged(lines: seq<string>, breaks: seq<Break>, last: string)
    requires |lines| == |breaks| && AllOneLine(lines) && OneLine(last)
    ensures Split(Normal(Ended(lines, breaks) + last)) == lines + [last] <==> Unmerged(lines, breaks)
  {
    hide *;
    LinesAtMost(lines, breaks, last);
    if Unmerged(lines, breaks) {
      UnmergedSplit(lines, breaks, last);
    }
  }

  /** Terminated lines are those ended by a line feed each. */
  lemma {:induction false} TerminatedIsEnded(lines: seq<string>, breaks: seq<Break>)
    requires |lines| == |breaks| && forall i :: 0 <= i < |breaks| ==> breaks[i] == LineFeed
    ensures Terminated(lines) == Ended(lines, breaks)
  {
    if lines != [] {
      TerminatedIsEnded(lines[1..], breaks[1..]);
    }
  }

  lemma BomBeforeBreak(lines: seq<string>, breaks: seq<Break>, last: string)
    requires |lines| == |breaks| && lines != []
    ensures WithoutBom(Ended(lines, breaks) + last) == Ended(Unmarked(lines), breaks) + last
  {
    hide Ended, Written, WithoutBom;
    var bare := Unmarked(lines);
    assert bare[1..] == lines[1..];
    EndedFirst(lines, breaks, last);
    EndedFirst(bare, breaks, last);
    BomOfLine(lines[0], breaks[0], Rest(lines, breaks, last));
  }

  lemma BomOfLine(line: string, b: Break, rest: string)
    ensures WithoutBom(line + Written(b) + rest) == Unmarked([line])[0] + Written(b) + rest
  {
    var after := Written(b) + rest;
    BomOfPrefix(line, after);
    assert WithoutBom(line) == Unmarked([line])[0];
    hide Written, WithoutBom, Unmarked;
    assert line + Written(b) + rest == line + after;
    assert Unmarked([line])[0] + Written(b) + rest == Unmarked([line])[0] + after;
  }

  /** Every text is such a list of lines with their breaks, so the condition says what every file is split into. */
  lemma {:induction false} EveryTextIsLines(text: string) returns (lines: seq<string>, breaks: seq<Break>, last: string)
    ensures |lines| == |breaks| && AllOneLine(lines) && OneLine(last) && Unmerged(lines, breaks)
    ensures text == Ended(lines, breaks) + last
    ensures SplitLines(text) == Unmarked(lines + [last])
  {
    lines, breaks, last := CutUp(text);
    hide *;
    AnyBreaksSplitIff(lines, breaks, last);
  }

  /** A break put before lines is one line more. */
  lemma BreakBefore(b: Break, lines: seq<string>, breaks: seq<Break>, last: string)
    requires |lines| == |breaks| && AllOneLine(lines) && OneLine(last) && Unmerged(lines, breaks)
    requires b.Return? ==> Ended(lines, breaks) + last == "" || (Ended(lines, breaks) + last)[0] != '\n'
    ensures AllOneLine([""] + lines) && Unmerged([""] + lines, [b] + breaks)
    ensures Written(b) + (Ended(lines, breaks) + last) == Ended([""] + lines, [b] + breaks) + last
  {
    var (ls, bs) := ([""] + lines, [b] + breaks);
    assert ls[1..] == lines && bs[1..] == breaks;
    EndedFirst(ls, bs, last);
    RestStarts(ls, bs, last);
    hide Written, Ended;
    assert "" + Written(b) == Written(b);
    forall i | 0 < i < |ls| && bs[i - 1].Return? && bs[i].LineFeed? ensures ls[i] != "" {
      if i > 1 { assert breaks[i - 2].Return? && breaks[i - 1].LineFeed?; }
    }
  }

  lemma {:induction false} CutUp(text: string) returns (lines: seq<string>, breaks: seq<Break>, last: string)
    ensures |lines| == |breaks| && AllOneLine(lines) && OneLine(last) && Unmerged(lines, breaks)
    ensures text == Ended(lines, breaks) + last
    decreases |text|
  {
    hide Ended;
    if text == "" {
      lines, breaks, last := NoLines();
    } else if text[0] == '\n' || text[0] == '\r' {
      var b := if text[0] == '\n' then LineFeed else if |text| > 1 && text[1] == '\n' then ReturnAndFeed else Return;
      var after := text[|Written(b)|..];
      assert text == Written(b) + after;
      lines, breaks, last := CutUp(after);
      BreakBefore(b, lines, breaks, last);
      lines, breaks := [""] + lines, [b] + breaks;
    } else {
      lines, breaks, last := CutUp(text[1..]);
      lines, last := CharacterBefore(text[0], lines, breaks, last);
    }
  }

  lemma NoLines() returns (lines: seq<string>, breaks: seq<Break>, last: string)
    ensures |lines| == |breaks| && AllOneLine(lines) && OneLine(last) && Unmerged(lines, breaks)
    ensures Ended(lines, breaks) + last == ""
  {
    lines, breaks, last := [], [], "";
  }

  lemma CharacterBefore(c: char, lines: seq<string>, breaks: seq<Break>, last: string) returns (lines': seq<string>, last': string)
    requires |lines| == |breaks| && AllOneLine(lines) && OneLine(last) && Unmerged(lines, breaks) && OneLine([c])
    ensures |lines'| == |breaks| && AllOneLine(lines') && OneLine(last') && Unmerged(lines', breaks)
    ensures Ended(lines', breaks) + last' == [c] + (Ended(lines, breaks) + last)
  {
    if lines == [] {
      lines', last' := [], [c] + last;
    } else {
      lines', last' := [[c] + lines[0]] + lines[1..], last;
      assert lines'[1..] == lines[1..];
      EndedFirst(lines, breaks, last);
      EndedFirst(lines', breaks, last);
      assert OneLine(lines[0]);
      hide Ended, Written;
      assert [c] + lines[0] + Written(breaks[0]) + Rest(lines, breaks, last) == [c] + (lines[0] + Written(breaks[0]) + Rest(lines, breaks, last));
    }
  }

  // ---------------------------------------------------------------- reading by index

  /** The items still to come from a line index on; `pick` passes a line over with None. */
  function Items<T>(lines: seq<string>, pick: (string, nat) -> Option<T>, index: nat): seq<T>
    decreases |lines| - index
  {
    if index >= |lines| then []
    else match pick(lines[index], index)
      case None => Items(lines, pick, index + 1)
      case Some(item) => [item] + Items(lines, pick, index + 1)
  }

  function PickLine<T>(skipBlankLines: bool, mapLine: (string, nat) -> Option<T>): (string, nat) -> Option<T> {
    (line: string, lineIndex: nat) => if skipBlankLines && Trim(line) == "" then None else mapLine(line, lineIndex)
  }

  function RowFrom(headers: seq<string>, fields: seq<string>, i: nat, row: Row): Row
    requires i <= |headers|
    decreases |headers| - i
  {
    if i == |headers| then row
    else RowFrom(headers, fields, i + 1, row[headers[i] := if i < |fields| then fields[i] else ""])
  }

  function PickRow<T>(headers: seq<string>, delimiter: string, skipBlankLines: bool, mapRow: (Row, nat) -> Option<T>):
    (string, nat) -> Option<T>
  {
    PickLine(skipBlankLines, (line: string, lineIndex: nat) => mapRow(RowFrom(headers, Parse(line, delimiter), 0, map[]), lineIndex))
  }

  /** The last of the first n headers with the given name. */
  ghost predicate NamesLast(headers: seq<string>, n: nat, name: string, k: nat)
    requires n <= |headers|
  {
    k < n && headers[k] == name && forall j :: k < j < n ==> headers[j] != name
  }

  /**
   * The row of a line has the headers for its keys.  A header named twice has the field of its last place, and
   * one beyond the fields of the line the empty text.
   */
  lemma RowMeaning(headers: seq<string>, fields: seq<string>, name: string)
    ensures name in RowFrom(headers, fields, 0, map[]) <==> name in headers
    ensures forall k: nat :: NamesLast(headers, |headers|, name, k) ==>
      RowFrom(headers, fields, 0, map[])[name] == if k < |fields| then fields[k] else ""
  {
    assert headers[0..] == headers;
    RowFilled(headers, fields, 0, map[], name);
  }

  lemma {:induction false} RowFilled(headers: seq<string>, fields: seq<string>, i: nat, row: Row, name: string)
    requires i <= |headers|
    ensures var full := RowFrom(headers, fields, i, row);
      && (name in full <==> name in row || name in headers[i..])
      && (name !in headers[i..] && name in row ==> full[name] == row[name])
      && forall k: nat :: i <= k && NamesLast(headers, |headers|, name, k) ==> full[name] == if k < |fields| then fields[k] else ""
    decreases |headers| - i
  {
    if i < |headers| {
      RowFilled(headers, fields, i + 1, row[headers[i] := if i < |fields| then fields[i] else ""], name);
      assert headers[i..] == [headers[i]] + headers[i + 1..];
    }
  }

  lemma {:induction false} BlankIff(line: string)
    ensures Trim(line) == "" <==> forall i :: 0 <= i < |line| ==> Whitespace(line[i])
  {
    EmptyIff(line);
    hide Whitespace;
    var start := TrimStart(line);
    if start != "" {
      StartTrimmed(line);
      EndKeepsFirst(start);
    }
  }

  lemma {:induction false} EmptyIff(line: string)
    ensures TrimStart(line) == "" <==> forall i :: 0 <= i < |line| ==> Whitespace(line[i])
  {
    hide Whitespace;
    if line != "" && Whitespace(line[0]) {
      EmptyIff(line[1..]);
      assert forall i :: 0 < i < |line| ==> line[i] == line[1..][i - 1];
    }
  }

  lemma {:induction false} EndKeepsFirst(s: string)
    requires s != "" && !Whitespace(s[0])
    ensures TrimEnd(s) != ""
  {
    hide Whitespace;
    if Whitespace(s[|s| - 1]) { EndKeepsFirst(s[..|s| - 1]); }
  }

  /** A line that is read: not a blank one that is to be skipped, and not one the mapping gives nothing for. */
  ghost predicate Kept<T>(line: string, lineIndex: nat, skipBlankLines: bool, mapLine: (string, nat) -> Option<T>) {
    && (skipBlankLines ==> exists i :: 0 <= i < |line| && !Whitespace(line[i]))
    && mapLine(line, lineIndex).Some?
  }

  /** The items are those of the kept lines from the index on, each line once and in order. */
  lemma {:induction false} ItemsMeaning<T>(lines: seq<string>, skipBlankLines: bool, mapLine: (string, nat) -> Option<T>, index: nat)
    returns (from: seq<nat>)
    ensures |from| == |Items(lines, PickLine(skipBlankLines, mapLine), index)|
    ensures forall k :: 0 <= k < |from| ==>
      && index <= from[k] < |lines| && Kept(lines[from[k]], from[k], skipBlankLines, mapLine)
      && mapLine(lines[from[k]], from[k]) == Some(Items(lines, PickLine(skipBlankLines, mapLine), index)[k])
    ensures forall j, k :: 0 <= j < k < |from| ==> from[j] < from[k]
    ensures forall i :: index <= i < |lines| && Kept(lines[i], i, skipBlankLines, mapLine) ==> i in from
    decreases |lines| - index
  {
    if index >= |lines| {
      from := [];
    } else {
      BlankIff(lines[index]);
      from := ItemsMeaning(lines, skipBlankLines, mapLine, index + 1);
      hide Trim, Whitespace;
      if Kept(lines[index], index, skipBlankLines, mapLine) {
        from := [index] + from;
      }
    }
  }

  /** A mapping function gives an item, or null to pass the line over, or throws. */
  type Mapping<!A, T> = (A, nat) -> Result<Option<T>, ReadError>

  /** What a read makes of a line: nothing, an item, or the error of the mapping function. */
  function Tried<A, T>(mapping: Mapping<A, T>): (A, nat) -> Option<Result<T, ReadError>> {
    (line: A, lineIndex: nat) =>
      match mapping(line, lineIndex)
      case Ok(None) => None
      case Ok(Some(item)) => Some(Result.Ok(item))
      case Thrown(error) => Some(Thrown(error))
  }

  /** A mapping that passes over the lines on which the given one throws. */
  function Sparing<A, T>(mapping: Mapping<A, T>): (A, nat) -> Option<T> {
    (line: A, lineIndex: nat) =>
      match mapping(line, lineIndex)
      case Ok(picked) => picked
      case Thrown(_) => None
  }

  function Given<T>(answers: seq<Result<T, ReadError>>): seq<T> {
    if answers == [] then [] else (if answers[0].Ok? then [answers[0].value] else []) + Given(answers[1..])
  }

  function Errors<T>(answers: seq<Result<T, ReadError>>): seq<ReadError> {
    if answers == [] then [] else (if answers[0].Thrown? then [answers[0].error] else []) + Errors(answers[1..])
  }

  /** The answer of one read. */
  function Answered<T>(remaining: seq<Result<T, ReadError>>): Result<Option<T>, ReadError> {
    if remaining == [] then Ok(None)
    else match remaining[0]
      case Ok(item) => Ok(Some(item))
      case Thrown(error) => Thrown(error)
  }

  function Behind<T>(remaining: seq<T>): seq<T> {
    if remaining == [] then [] else remaining[1..]
  }

  /** One read takes the first answer away. */
  lemma FirstAnswered<T>(remaining: seq<Result<T, ReadError>>)
    ensures match Answered(remaining)
            case Ok(None) => remaining == [] && Given(remaining) == [] && Errors(remaining) == []
            case Ok(Some(item)) =>
              |Behind(remaining)| < |remaining| && Given(remaining) == [item] + Given(Behind(remaining)) && Errors(remaining) == Errors(Behind(remaining))
            case Thrown(error) =>
              |Behind(remaining)| < |remaining| && Given(remaining) == Given(Behind(remaining)) && Errors(remaining) == [error] + Errors(Behind(remaining))
  {
  }

  lemma NothingBehind<T>(remaining: seq<Result<T, ReadError>>)
    ensures remaining == [] ==> Behind(remaining) == [] && Given(remaining) == [] && Errors(remaining) == []
  {
  }

  /** What is left of an answer if errors are passed over. */
  function Spared<T>(picked: Option<Result<T, ReadError>>): Option<T> {
    if picked.Some? && picked.value.Ok? then Some(picked.value.value) else None
  }

  lemma {:induction false} GivenItems<T>(lines: seq<string>, pick: (string, nat) -> Option<Result<T, ReadError>>,
                                         sparing: (string, nat) -> Option<T>, index: nat)
    requires forall line, i: nat :: sparing(line, i) == Spared(pick(line, i))
    ensures Given(Items(lines, pick, index)) == Items(lines, sparing, index)
    decreases |lines| - index
  {
    if index < |lines| {
      GivenItems(lines, pick, sparing, index + 1);
      assert sparing(lines[index], index) == Spared(pick(lines[index], index));
      var rest := Items(lines, pick, index + 1);
      var answers := Items(lines, pick, index);
      assert pick(lines[index], index).Some? ==> answers[1..] == rest;
    }
  }

  /** Exactly the lines on which the mapping throws are lost to a reader that reads on. */
  lemma ThrowingLinesLost<T>(lines: seq<string>, skipBlankLines: bool, mapping: Mapping<string, T>, index: nat)
    ensures Given(Items(lines, PickLine(skipBlankLines, Tried(mapping)), index))
         == Items(lines, PickLine(skipBlankLines, Sparing(mapping)), index)
  {
    hide Trim;
    GivenItems(lines, PickLine(skipBlankLines, Tried(mapping)), PickLine(skipBlankLines, Sparing(mapping)), index);
  }

  lemma ThrowingRowsLost<T>(lines: seq<string>, headers: seq<string>, delimiter: string, skipBlankLines: bool, mapping: Mapping<Row, T>, index: nat)
    ensures Given(Items(lines, PickRow(headers, delimiter, skipBlankLines, Tried(mapping)), index))
         == Items(lines, PickRow(headers, delimiter, skipBlankLines, Sparing(mapping)), index)
  {
    hide Trim, Parse, RowFrom;
    GivenItems(lines, PickRow(headers, delimiter, skipBlankLines, Tried(mapping)),
               PickRow(headers, delimiter, skipBlankLines, Sparing(mapping)), index);
  }

  /** The line reader; without a mapping function of its own `mapLine` gives every line back. */
  class LineReader<T> {
    const key: string
    const skipLines: Option<nat>
    const skipBlankLines: Option<bool>
    const mapLine: Mapping<string, T>
    var lines: seq<string>
    var index: nat

    constructor (path: string, key: Option<string>, skipLines: Option<nat>, skipBlankLines: Option<bool>,
                 mapLine: Mapping<string, T>)
      ensures Remaining() == []
    {
      this.key := if key.Some? then key.value else "file-line:" + path;
      this.skipLines, this.skipBlankLines, this.mapLine := skipLines, skipBlankLines, mapLine;
      lines, index := [], 0;
    }

    function Pick(): (string, nat) -> Option<Result<T, ReadError>> {
      PickLine(skipBlankLines == Some(true), Tried(mapLine))
    }

    ghost function Remaining(): seq<Result<T, ReadError>>
      reads this
    {
      Items(lines, Pick(), index)
    }

    /** A negative saved index has no line and is outside of this model. */
    method Open(raw: string, context: Json)
      requires ReadCheckpointNumber(context, key, "index", 0) >= 0
      modifies this
      ensures lines == SplitLines(raw)
      ensures index == ReadCheckpointNumber(context, key, "index", if skipLines.Some? then skipLines.value else 0)
    {
      lines := SplitLines(raw);
      index := ReadCheckpointNumber(context, key, "index", if skipLines.Some? then skipLines.value else 0);
    }

    /** The index has moved on before the mapping is called, so a line on which it throws is not read again. */
    method Read() returns (item: Result<Option<T>, ReadError>)
      modifies this
      ensures lines == old(lines)
      ensures item == Answered(old(Remaining())) && Remaining() == Behind(old(Remaining()))
    {
      while index < |lines|
        invariant lines == old(lines) && Remaining() == old(Remaining())
      {
        var lineIndex, line := index, lines[index];
        index := index + 1;
        if skipBlankLines == Some(true) && Trim(line) == "" {
          continue;
        }
        var mapped := mapLine(line, lineIndex);
        if mapped == Ok(None) {
          continue;
        }
        return mapped;
      }
      return Ok(None);
    }

    method Update(context: Json) returns (saved: Json)
      ensures saved == WriteCheckpoint(context, key, map["index" := JNumber(index)])
    {
      saved := WriteCheckpoint(context, key, map["index" := JNumber(index)]);
    }

    method Close()
      modifies this
      ensures Remaining() == []
    {
      lines := [];
    }
  }

  /** The CSV reader; without a mapping function of its own `mapRow` gives every row back. */
  class CsvReader<T> {
    const key: string
    const delimiter: string
    const givenHeaders: Option<seq<string>>
    const hasHeader: Option<bool>
    const skipBlankLines: Option<bool>
    const mapRow: Mapping<Row, T>
    var lines: seq<string>
    var headers: seq<string>
    var index: int

    constructor (path: string, key: Option<string>, delimiter: Option<string>, givenHeaders: Option<seq<string>>,
                 hasHeader: Option<bool>, skipBlankLines: Option<bool>, mapRow: Mapping<Row, T>)
      ensures Remaining() == []
      ensures this.delimiter == (if delimiter.Some? then delimiter.value else ",")
      ensures this.givenHeaders == givenHeaders && this.hasHeader == hasHeader && this.skipBlankLines == skipBlankLines
      ensures this.mapRow == mapRow && this.key == (if key.Some? then key.value else "csv:" + path)
    {
      this.key := if key.Some? then key.value else "csv:" + path;
      this.delimiter := if delimiter.Some? then delimiter.value else ",";
      this.givenHeaders, this.hasHeader, this.skipBlankLines, this.mapRow := givenHeaders, hasHeader, skipBlankLines, mapRow;
      lines, headers, index := [], [], 0;
    }

    function FirstDataLine(): nat {
      if (if hasHeader.Some? then hasHeader.value else givenHeaders.None?) then 1 else 0
    }

    function Pick(headers: seq<string>): (string, nat) -> Option<Result<T, ReadError>> {
      PickRow(headers, delimiter, skipBlankLines != Some(false), Tried(mapRow))
    }

    ghost function Remaining(): seq<Result<T, ReadError>>
      reads this
    {
      Items(lines, Pick(headers), Max(0, index))
    }

    method Open(raw: string, context: Json)
      modifies this
      ensures lines == SplitLines(raw)
      ensures headers == if givenHeaders.Some? then givenHeaders.value else Parse(lines[0], delimiter)
      ensures index == ReadCheckpointNumber(context, key, "index", if hasHeader == Some(true) || (hasHeader == None && givenHeaders == None) then 1 else 0)
    {
      lines := SplitLines(raw);
      if givenHeaders.Some? {
        headers := givenHeaders.value;
      } else {
        headers := ParseDelimitedLine(lines[0], delimiter);
      }
      index := ReadCheckpointNumber(context, key, "index", FirstDataLine());
    }

    /** There is no line at a negative index: the read throws, and moves on by one all the same, as it does when the mapping throws. */
    method Read() returns (item: Result<Option<T>, ReadError>)
      modifies this
      ensures lines == old(lines) && headers == old(headers)
      ensures old(index) < 0 ==> item == Thrown(NoSuchLine) && index == old(index) + 1 && Remaining() == old(Remaining())
      ensures old(index) >= 0 ==> index >= 0 && item == Answered(old(Remaining())) && Remaining() == Behind(old(Remaining()))
    {
      while index < |lines|
        invariant lines == old(lines) && headers == old(headers) && Remaining() == old(Remaining())
        invariant if old(index) < 0 then index == old(index) else index >= 0
      {
        var lineIndex := index;
        index := index + 1;
        if lineIndex < 0 {
          return Thrown(NoSuchLine);
        }
        var line := lines[lineIndex];
        if skipBlankLines != Some(false) && Trim(line) == "" {
          continue;
        }
        var fields := ParseDelimitedLine(line, delimiter);
        var row := map[];
        for i := 0 to |headers|
          invariant RowFrom(headers, fields, i, row) == RowFrom(headers, fields, 0, map[])
        {
          row := row[headers[i] := if i < |fields| then fields[i] else ""];
        }
        var mapped := mapRow(row, lineIndex);
        if mapped == Ok(None) {
          continue;
        }
        return mapped;
      }
      return Ok(None);
    }

    method Update(context: Json) returns (saved: Json)
      ensures saved == WriteCheckpoint(context, key, map["index" := JNumber(index)])
    {
      saved := WriteCheckpoint(context, key, map["index" := JNumber(index)]);
    }

    method Close()
      modifies this
      ensures Remaining() == []
    {
      lines := [];
      headers := [];
    }
  }

  /**
   * Reading on after every error, as a retried or skipped read does, gives the items of all lines but those on
   * which the mapping throws, and one error for each of these.
   */
  method ReadOn<T>(reader: LineReader<T>) returns (items: seq<T>, errors: seq<ReadError>)
    modifies reader
    ensures items == Items(reader.lines, PickLine(reader.skipBlankLines == Some(true), Sparing(reader.mapLine)), old(reader.index))
    ensures errors == Errors(old(reader.Remaining())) && reader.lines == old(reader.lines) && reader.Remaining() == []
  {
    hide Items, PickLine, Tried, Sparing, Given, Errors, Answered, Behind;
    ThrowingLinesLost(reader.lines, reader.skipBlankLines == Some(true), reader.mapLine, reader.index);
    items, errors := [], [];
    ghost var all := reader.Remaining();
    var more := true;
    while more
      invariant reader.lines == old(reader.lines)
      invariant items + Given(reader.Remaining()) == Given(all) && errors + Errors(reader.Remaining()) == Errors(all)
      invariant !more ==> reader.Remaining() == []
      decreases |reader.Remaining()|, more
    {
      ghost var left := reader.Remaining();
      FirstAnswered(left);
      var item := reader.Read();
      match item {
        case Thrown(error) =>
          assert errors + Errors(left) == (errors + [error]) + Errors(Behind(left));
          errors := errors + [error];
        case Ok(Some(value)) =>
          assert items + Given(left) == (items + [value]) + Given(Behind(left));
          items := items + [value];
        case Ok(None) =>
          NothingBehind(left);
          more := false;
      }
    }
    NothingBehind(reader.Remaining());
  }

  /** The same for the rows of a CSV file. */
  method ReadRowsOn<T>(reader: CsvReader<T>) returns (rows: seq<T>, errors: seq<ReadError>)
    requires reader.index >= 0
    modifies reader
    ensures rows == Items(reader.lines, PickRow(reader.headers, reader.delimiter, reader.skipBlankLines != Some(false), Sparing(reader.mapRow)),
                          old(reader.index))
    ensures errors == Errors(old(reader.Remaining())) && reader.Remaining() == []
    ensures reader.lines == old(reader.lines) && reader.headers == old(reader.headers)
  {
    hide Items, PickRow, Tried, Sparing, Given, Errors, Answered, Behind;
    ThrowingRowsLost(reader.lines, reader.headers, reader.delimiter, reader.skipBlankLines != Some(false), reader.mapRow, reader.index);
    rows, errors := [], [];
    ghost var all := reader.Remaining();
    var more := true;
    while more
      invariant reader.index >= 0 && reader.lines == old(reader.lines) && reader.headers == old(reader.headers)
      invariant rows + Given(reader.Remaining()) == Given(all) && errors + Errors(reader.Remaining()) == Errors(all)
      invariant !more ==> reader.Remaining() == []
      decreases |reader.Remaining()|, more
    {
      ghost var left := reader.Remaining();
      FirstAnswered(left);
      var item := reader.Read();
      match item {
        case Thrown(error) =>
          assert errors + Errors(left) == (errors + [error]) + Errors(Behind(left));
          errors := errors + [error];
        case Ok(Some(value)) =>
          assert rows + Given(left) == (rows + [value]) + Given(Behind(left));
          rows := rows + [value];
        case Ok(None) =>
          NothingBehind(left);
          more := false;
      }
    }
    NothingBehind(reader.Remaining());
  }

  /** A reader that is stopped after its save and opened again by another one goes on with the same items. */
  method ResumeCsv<T>(reader: CsvReader<T>, successor: CsvReader<T>, raw: string, context: Json)
    requires reader != successor && reader.lines == SplitLines(raw)
    requires reader.headers == if reader.givenHeaders.Some? then reader.givenHeaders.value else Parse(reader.lines[0], reader.delimiter)
    requires successor.key == reader.key && successor.delimiter == reader.delimiter && successor.mapRow == reader.mapRow
    requires successor.givenHeaders == reader.givenHeaders && successor.skipBlankLines == reader.skipBlankLines
    modifies reader, successor
    ensures successor.Remaining() == old(reader.Remaining()) && successor.index == old(reader.index)
  {
    var saved := reader.Update(context);
    reader.Close();
    successor.Open(raw, saved);
  }
}

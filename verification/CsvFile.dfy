/**
 * Writing CSV files in appended batches (packages/core/src/io/file-writers.ts:32-86) and reading them
 * back with the CSV reader: exactly when the rows survive.
 */
module CsvFile {
  import opened Common
  import opened Checkpoint
  import opened Csv
  import opened FileReaders
  import opened Text

  // ---------------------------------------------------------------- what the writer appends

  /** A missing value is written as the empty text; other values stand for their text. */
  function Cell(item: Row, header: string): string {
    if header in item then item[header] else ""
  }

  function Cells(headers: seq<string>, item: Row): (fields: seq<string>)
    ensures |fields| == |headers|
    ensures forall i :: 0 <= i < |headers| ==> fields[i] == Cell(item, headers[i])
  {
    if headers == [] then [] else [Cell(item, headers[0])] + Cells(headers[1..], item)
  }

  function RowLines(headers: seq<string>, delimiter: string, items: seq<Row>): (lines: seq<string>)
    ensures |lines| == |items|
    ensures forall i :: 0 <= i < |items| ==> lines[i] == Line(Cells(headers, items[i]), delimiter)
  {
    if items == [] then [] else [Line(Cells(headers, items[0]), delimiter)] + RowLines(headers, delimiter, items[1..])
  }

  /** What one write appends; nothing, not even the header, for no items. */
  function Appended(headers: seq<string>, delimiter: string, headerDue: bool, items: seq<Row>): string {
    if items == [] then ""
    else Terminated((if headerDue then [Line(headers, delimiter)] else []) + RowLines(headers, delimiter, items))
  }

  datatype WriteError = AppendFailed

  class CsvWriter {
    const key: string
    const headers: seq<string>
    const delimiter: string
    const writeHeader: bool
    var headerWritten: bool
    var file: string // the content of the file at the writer's path

    constructor (path: string, key: Option<string>, headers: seq<string>, delimiter: Option<string>, writeHeader: Option<bool>)
      ensures !headerWritten && file == "" && this.headers == headers
      ensures this.delimiter == (if delimiter.Some? then delimiter.value else ",")
      ensures this.writeHeader == (if writeHeader.Some? then writeHeader.value else true)
      ensures this.key == (if key.Some? then key.value else "csv-writer:" + path)
    {
      this.key := if key.Some? then key.value else "csv-writer:" + path;
      this.headers := headers;
      this.delimiter := if delimiter.Some? then delimiter.value else ",";
      this.writeHeader := if writeHeader.Some? then writeHeader.value else true;
      headerWritten, file := false, "";
    }

    /** The saved flag is a boolean or absent. */
    method Open(context: Json)
      modifies this
      ensures file == old(file)
      ensures headerWritten <==> ReadCheckpointValue(context, key, "headerWritten", JBool(false)) == JBool(true)
    {
      headerWritten := ReadCheckpointValue(context, key, "headerWritten", JBool(false)) == JBool(true);
    }

    /** The flag is set before the append, so an append that throws leaves it set with nothing in the file. */
    method Write(items: seq<Row>, appendThrows: bool) returns (result: Result<(), WriteError>)
      modifies this
      ensures result.Thrown? <==> appendThrows && items != []
      ensures result.Ok? ==> file == old(file) + Appended(headers, delimiter, writeHeader && !old(headerWritten), items)
      ensures result.Thrown? ==> file == old(file)
      ensures headerWritten <==> old(headerWritten) || (writeHeader && items != [])
    {
      hide Line, Join, RowLines, Appended, Cells, Cell;
      if |items| == 0 {
        NothingToAppend(headers, delimiter, writeHeader && !headerWritten);
        return Ok(());
      }
      var lines: seq<string> := [];
      if writeHeader && !headerWritten {
        lines := lines + [Line(headers, delimiter)];
        headerWritten := true;
      }
      ghost var head, rows := lines, RowLines(headers, delimiter, items);
      for i := 0 to |items|
        invariant lines == head + rows[..i]
      {
        lines := lines + [Line(Cells(headers, items[i]), delimiter)];
        assert rows[..i + 1] == rows[..i] + [rows[i]];
      }
      assert rows[..|items|] == rows;
      if appendThrows {
        return Thrown(AppendFailed);
      }
      AppendedIs(headers, delimiter, writeHeader && !old(headerWritten), items, lines);
      var text := Join(lines, "\n") + "\n";
      file := file + text;
      return Ok(());
    }

    method Update(context: Json) returns (saved: Json)
      ensures saved == WriteCheckpoint(context, key, map["headerWritten" := JBool(headerWritten)])
    {
      saved := WriteCheckpoint(context, key, map["headerWritten" := JBool(headerWritten)]);
    }
  }

  lemma NothingToAppend(headers: seq<string>, delimiter: string, headerDue: bool)
    ensures Appended(headers, delimiter, headerDue, []) == ""
  {
  }

  /** The lines of a write, joined and ended as it appends them. */
  lemma AppendedIs(headers: seq<string>, delimiter: string, headerDue: bool, items: seq<Row>, lines: seq<string>)
    requires items != [] && lines == (if headerDue then [Line(headers, delimiter)] else []) + RowLines(headers, delimiter, items)
    ensures Appended(headers, delimiter, headerDue, items) == Join(lines, "\n") + "\n"
  {
    hide Line, RowLines, Join, Terminated;
    JoinedLines(lines);
  }

  lemma {:induction false} JoinedLines(lines: seq<string>)
    requires lines != []
    ensures Join(lines, "\n") + "\n" == Terminated(lines)
  {
    if |lines| == 1 {
      assert Terminated(lines[1..]) == "";
    } else {
      JoinedLines(lines[1..]);
    }
  }

  // ---------------------------------------------------------------- batches

  function Flatten(batches: seq<seq<Row>>): seq<Row> {
    if batches == [] then [] else batches[0] + Flatten(batches[1..])
  }

  /** The file after a write for every batch, by the contract of CsvWriter.Write. */
  function AppendedBatches(headers: seq<string>, delimiter: string, headerDue: bool, batches: seq<seq<Row>>): string {
    if batches == [] then "" else
    Appended(headers, delimiter, headerDue, batches[0])
    + AppendedBatches(headers, delimiter, headerDue && batches[0] == [], batches[1..])
  }

  lemma {:induction false} TerminatedConcat(a: seq<string>, b: seq<string>)
    ensures Terminated(a + b) == Terminated(a) + Terminated(b)
  {
    if a == [] {
      assert a + b == b;
    } else {
      TerminatedConcat(a[1..], b);
      assert (a + b)[1..] == a[1..] + b;
    }
  }

  lemma {:induction false} RowLinesConcat(headers: seq<string>, delimiter: string, a: seq<Row>, b: seq<Row>)
    ensures RowLines(headers, delimiter, a + b) == RowLines(headers, delimiter, a) + RowLines(headers, delimiter, b)
  {
  }

  /** However the items are cut into chunks, the file is the same, with one header in front. */
  lemma {:induction false} BatchesAddUp(headers: seq<string>, delimiter: string, headerDue: bool, batches: seq<seq<Row>>)
    ensures AppendedBatches(headers, delimiter, headerDue, batches) == Appended(headers, delimiter, headerDue, Flatten(batches))
    decreases |batches|
  {
    hide Line, Terminated, RowLines;
    if batches != [] {
      var first, rest := batches[0], Flatten(batches[1..]);
      BatchesAddUp(headers, delimiter, headerDue && first == [], batches[1..]);
      if first == [] {
        assert first + rest == rest;
      } else if rest == [] {
        assert first + rest == first;
      } else {
        var head := if headerDue then [Line(headers, delimiter)] else [];
        RowLinesConcat(headers, delimiter, first, rest);
        var before, after := head + RowLines(headers, delimiter, first), RowLines(headers, delimiter, rest);
        assert [] + after == after && head + (RowLines(headers, delimiter, first) + after) == before + after;
        TerminatedConcat(before, after);
      }
    }
  }

  // ---------------------------------------------------------------- reading back

  function Whole(row: Row, lineIndex: nat): Option<Row> {
    Some(row)
  }

  /** A reader's mapping that gives every row back. */
  function WholeRow(row: Row, lineIndex: nat): Result<Option<Row>, ReadError> {
    Ok(Some(row))
  }

  /** The rows a CSV reader with default options gives for a file. */
  function ReadBack(raw: string, delimiter: string): seq<Row> {
    var lines := SplitLines(raw);
    Items(lines, PickRow(Parse(lines[0], delimiter), delimiter, true, Whole), 1)
  }

  /** An item as far as the headers go; what it lacks reads back as the empty text. */
  function Projected(headers: seq<string>, item: Row): Row {
    map header | header in headers :: if header in item then item[header] else ""
  }

  function ProjectedAll(headers: seq<string>, items: seq<Row>): (rows: seq<Row>)
    ensures |rows| == |items|
    ensures forall i :: 0 <= i < |items| ==> rows[i] == Projected(headers, items[i])
  {
    if items == [] then [] else [Projected(headers, items[0])] + ProjectedAll(headers, items[1..])
  }

  /** No line break in a header or in a written value. */
  predicate BreakFree(headers: seq<string>, items: seq<Row>) {
    && (forall h :: h in headers ==> OneLine(h))
    && (forall i, h :: 0 <= i < |items| && h in headers ==> OneLine(Cell(items[i], h)))
  }

  predicate NoBlankRow(headers: seq<string>, delimiter: string, items: seq<Row>) {
    forall i :: 0 <= i < |items| ==> Trim(Line(Cells(headers, items[i]), delimiter)) != ""
  }

  predicate StartsWithBom(line: string) {
    line != "" && line[0] == BOM
  }

  predicate UsableDelimiter(delimiter: string) {
    Splits(delimiter) && OneLine(delimiter)
  }

  predicate Distinct(headers: seq<string>) {
    forall i, j :: 0 <= i < j < |headers| ==> headers[i] != headers[j]
  }

  /** The same fields become the same row whether the item or its line is looked at. */
  lemma {:induction false} RowOfCells(headers: seq<string>, item: Row, i: nat)
    requires i <= |headers|
    ensures RowFrom(headers, Cells(headers, item), i, Projected(headers[..i], item)) == Projected(headers, item)
    decreases |headers| - i
  {
    if i == |headers| {
      assert headers[..i] == headers;
    } else {
      hide Cells, Cell, Projected;
      RowOfCells(headers, item, i + 1);
      OneMoreCell(headers, item, i);
    }
  }

  lemma OneMoreCell(headers: seq<string>, item: Row, i: nat)
    requires i < |headers|
    ensures Projected(headers[..i], item)[headers[i] := Cell(item, headers[i])] == Projected(headers[..i + 1], item)
  {
    assert headers[..i + 1] == headers[..i] + [headers[i]];
  }

  lemma RowPicked(headers: seq<string>, delimiter: string, line: string, index: nat)
    ensures PickRow(headers, delimiter, true, Whole)(line, index)
         == if Trim(line) == "" then None else Some(RowFrom(headers, Parse(line, delimiter), 0, map[]))
  {
    hide Trim, Parse, RowFrom;
    var row := RowFrom(headers, Parse(line, delimiter), 0, map[]);
    assert Whole(row, index) == Some(row);
    assert PickRow(headers, delimiter, true, Whole)(line, index) == if Trim(line) == "" then None else Whole(row, index);
  }

  lemma CleanLine(fields: seq<string>, delimiter: string)
    requires OneLine(delimiter) && forall f :: f in fields ==> OneLine(f)
    ensures OneLine(Line(fields, delimiter))
  {
    hide Line;
    assert forall i :: 0 <= i < |fields| ==> fields[i] in fields && OneLine(fields[i]);
    if '\n' in Line(fields, delimiter) { LineCharacters(fields, delimiter, '\n'); }
    if '\r' in Line(fields, delimiter) { LineCharacters(fields, delimiter, '\r'); }
  }

  lemma CleanRowLine(headers: seq<string>, delimiter: string, items: seq<Row>, i: nat)
    requires OneLine(delimiter) && BreakFree(headers, items) && i < |items|
    ensures OneLine(RowLines(headers, delimiter, items)[i])
  {
    hide OneLine, Line;
    var fields := Cells(headers, items[i]);
    forall f | f in fields ensures OneLine(f) {
      var j :| 0 <= j < |fields| && fields[j] == f;
      assert headers[j] in headers;
    }
    CleanLine(fields, delimiter);
  }

  /** The lines of the file: the header without a byte order mark, the rows, and the empty rest. */
  lemma FileLines(headers: seq<string>, delimiter: string, items: seq<Row>)
    requires OneLine(delimiter) && BreakFree(headers, items) && items != []
    ensures SplitLines(Appended(headers, delimiter, true, items))
         == [WithoutBom(Line(headers, delimiter))] + RowLines(headers, delimiter, items) + [""]
  {
    hide Line, SplitLines, Terminated, OneLine;
    var lines := [Line(headers, delimiter)] + RowLines(headers, delimiter, items);
    CleanLine(headers, delimiter);
    forall i | 0 <= i < |lines| ensures OneLine(lines[i]) {
      if i > 0 { CleanRowLine(headers, delimiter, items, i - 1); }
    }
    TerminatedLinesSplit(lines);
    assert lines[1..] == RowLines(headers, delimiter, items);
  }

  lemma RowLineRead(headers: seq<string>, delimiter: string, item: Row, index: nat)
    requires |headers| > 0 && Splits(delimiter) && Trim(Line(Cells(headers, item), delimiter)) != ""
    ensures PickRow(headers, delimiter, true, Whole)(Line(Cells(headers, item), delimiter), index) == Some(Projected(headers, item))
  {
    hide Line, Parse, Trim, RowFrom, PickRow, Cells, Cell;
    var fields := Cells(headers, item);
    LineParsed(fields, delimiter);
    assert headers[..0] == [] && Projected([], item) == map[];
    RowOfCells(headers, item, 0);
    RowPicked(headers, delimiter, Line(fields, delimiter), index);
  }

  /** From the k-th row line on, the reader gives the rows from the k-th on. */
  lemma {:induction false} RowsRead(headers: seq<string>, delimiter: string, items: seq<Row>, header: string, k: nat)
    requires |headers| > 0 && Splits(delimiter) && NoBlankRow(headers, delimiter, items) && k <= |items|
    ensures Items([header] + RowLines(headers, delimiter, items) + [""], PickRow(headers, delimiter, true, Whole), k + 1)
         == ProjectedAll(headers, items)[k..]
    decreases |items| - k
  {
    hide Line, Parse, Trim, RowFrom, PickRow, Cells, RowLines, ProjectedAll, Projected;
    var lines := [header] + RowLines(headers, delimiter, items) + [""];
    if k == |items| {
      TrimEmpty();
      RowPicked(headers, delimiter, "", k + 1);
      assert lines[k + 1] == "";
    } else {
      assert lines[k + 1] == Line(Cells(headers, items[k]), delimiter);
      RowLineRead(headers, delimiter, items[k], k + 1);
      RowsRead(headers, delimiter, items, header, k + 1);
      assert [ProjectedAll(headers, items)[k]] + ProjectedAll(headers, items)[k + 1..] == ProjectedAll(headers, items)[k..];
    }
  }

  lemma TrimEmpty()
    ensures Trim("") == ""
  {
  }

  /** Every row comes back, in order and nothing else; repeated headers do no harm here. */
  lemma FileRoundTrip(headers: seq<string>, delimiter: string, items: seq<Row>)
    requires UsableDelimiter(delimiter) && BreakFree(headers, items) && NoBlankRow(headers, delimiter, items)
    requires !StartsWithBom(Line(headers, delimiter))
    ensures ReadBack(Appended(headers, delimiter, true, items), delimiter) == ProjectedAll(headers, items)
  {
    hide *;
    if items == [] {
      NothingToAppend(headers, delimiter, true);
      NothingReadBack(delimiter);
    } else {
      Usable(delimiter, Line(headers, delimiter));
      SomeHeaders(headers, delimiter, items);
      FileLines(headers, delimiter, items);
      LineParsed(headers, delimiter);
      RowsRead(headers, delimiter, items, Line(headers, delimiter), 0);
      LinesReadBack(Appended(headers, delimiter, true, items), delimiter,
                    [Line(headers, delimiter)] + RowLines(headers, delimiter, items) + [""]);
      assert ProjectedAll(headers, items)[0..] == ProjectedAll(headers, items);
    }
  }

  lemma Usable(delimiter: string, line: string)
    requires UsableDelimiter(delimiter)
    ensures Splits(delimiter) && OneLine(delimiter) && (!StartsWithBom(line) ==> WithoutBom(line) == line)
  {
  }

  lemma LinesReadBack(raw: string, delimiter: string, lines: seq<string>)
    requires SplitLines(raw) == lines
    ensures lines != [] && ReadBack(raw, delimiter) == Items(lines, PickRow(Parse(lines[0], delimiter), delimiter, true, Whole), 1)
  {
    hide Items, PickRow, Parse;
  }

  lemma SomeHeaders(headers: seq<string>, delimiter: string, items: seq<Row>)
    requires items != [] && NoBlankRow(headers, delimiter, items)
    ensures headers != []
  {
    assert Trim(Line(Cells([], items[0]), delimiter)) == "";
  }

  // ---------------------------------------------------------------- when rows do not come back

  lemma {:induction false} ItemPicked<T>(lines: seq<string>, pick: (string, nat) -> Option<T>, index: nat, i: nat)
    requires i < |Items(lines, pick, index)|
    ensures exists j: nat :: j < |lines| && pick(lines[j], j) == Some(Items(lines, pick, index)[i])
    decreases |lines| - index
  {
    if pick(lines[index], index).None? {
      ItemPicked(lines, pick, index + 1, i);
    } else if i > 0 {
      ItemPicked(lines, pick, index + 1, i - 1);
    }
  }

  lemma {:induction false} RowKeys(headers: seq<string>, fields: seq<string>, i: nat, row: Row)
    requires i <= |headers|
    ensures forall h :: h in RowFrom(headers, fields, i, row) <==> h in row || h in headers[i..]
    ensures forall h :: h in RowFrom(headers, fields, i, row) ==>
      var v := RowFrom(headers, fields, i, row)[h]; v == "" || v in fields || (h in row && v == row[h])
    decreases |headers| - i
  {
    if i < |headers| {
      RowKeys(headers, fields, i + 1, row[headers[i] := if i < |fields| then fields[i] else ""]);
      assert headers[i..] == [headers[i]] + headers[i + 1..];
    }
  }

  lemma ParsedClean(line: string, delimiter: string, text: string)
    requires OneLine(line) && text in Parse(line, delimiter)
    ensures OneLine(text)
  {
    var i :| 0 <= i < |Parse(line, delimiter)| && Parse(line, delimiter)[i] == text;
    if '\n' in text { ParsedCharacters(line, delimiter, "", false, i, '\n'); }
    if '\r' in text { ParsedCharacters(line, delimiter, "", false, i, '\r'); }
  }

  /** Whatever the file, no row that is read has a line break in a header or a value. */
  lemma ReadRowsClean(raw: string, delimiter: string, i: nat, header: string)
    requires i < |ReadBack(raw, delimiter)| && header in ReadBack(raw, delimiter)[i]
    ensures OneLine(header) && OneLine(ReadBack(raw, delimiter)[i][header])
  {
    hide SplitLines, Parse, Items, OneLine, RowFrom, Trim, PickRow;
    var lines := SplitLines(raw);
    var headers := Parse(lines[0], delimiter);
    ItemPicked(lines, PickRow(headers, delimiter, true, Whole), 1, i);
    var j: nat :| j < |lines| && PickRow(headers, delimiter, true, Whole)(lines[j], j) == Some(ReadBack(raw, delimiter)[i]);
    RowPicked(headers, delimiter, lines[j], j);
    var fields := Parse(lines[j], delimiter);
    RowKeys(headers, fields, 0, map[]);
    LinesAreClean(raw, 0);
    LinesAreClean(raw, j);
    assert headers[0..] == headers;
    ParsedClean(lines[0], delimiter, header);
    var v := ReadBack(raw, delimiter)[i][header];
    assert v == "" || v in fields;
    if v in fields { ParsedClean(lines[j], delimiter, v); } else { EmptyIsClean(); }
  }

  lemma EmptyIsClean()
    ensures OneLine("")
  {
  }

  /** Every line passed over is a row missing. */
  lemma {:induction false} MissingRows<T>(lines: seq<string>, pick: (string, nat) -> Option<T>, index: nat, missed: set<nat>)
    requires index <= |lines| && forall j :: j in missed ==> index <= j < |lines| && pick(lines[j], j) == None
    ensures |Items(lines, pick, index)| + |missed| <= |lines| - index
    decreases |lines| - index
  {
    if index < |lines| {
      MissingRows(lines, pick, index + 1, missed - {index});
    } else {
      assert missed == {};
    }
  }

  /** Without its byte order mark the header line no longer names the first header. */
  lemma FirstHeaderLost(headers: seq<string>, delimiter: string)
    requires Splits(delimiter) && StartsWithBom(Line(headers, delimiter)) && Distinct(headers)
    ensures headers != [] && headers[0] !in Parse(WithoutBom(Line(headers, delimiter)), delimiter)
  {
    var first, rest := headers[0], headers[1..];
    assert forall h :: h in rest ==> h != first;
    assert Escaped(headers, delimiter)[1..] == Escaped(rest, delimiter);
    var bare := WithoutBom(Line(headers, delimiter));
    if first == "" {
      EmptyFirst(headers, delimiter);
      LineParsed(rest, delimiter);
    } else {
      var shorter := first[1..];
      MarkedFirst(first, delimiter);
      assert Escaped([shorter] + rest, delimiter) == [shorter] + Escaped(rest, delimiter);
      assert Escaped([shorter] + rest, delimiter)[1..] == Escaped(rest, delimiter);
      assert bare == Line([shorter] + rest, delimiter);
      LineParsed([shorter] + rest, delimiter);
    }
  }

  lemma EmptyFirst(headers: seq<string>, delimiter: string)
    requires headers != [] && headers[0] == "" && Splits(delimiter) && StartsWithBom(Line(headers, delimiter))
    ensures |headers| > 1 && WithoutBom(Line(headers, delimiter)) == Line(headers[1..], delimiter)
  {
    assert Escape("", delimiter) == "";
    assert Escaped(headers, delimiter)[1..] == Escaped(headers[1..], delimiter);
    if |headers| > 1 {
      assert Line(headers, delimiter) == delimiter + Line(headers[1..], delimiter);
    }
  }

  /** A text that opens a line with the mark is not quoted, and neither is the rest of it. */
  lemma MarkedFirst(text: string, delimiter: string)
    requires text != "" && StartsWithBom(Escape(text, delimiter))
    ensures Escape(text, delimiter) == text && Escape(text[1..], delimiter) == text[1..]
  {
    var rest := text[1..];
    UnquotedHasNoDelimiter(text, delimiter, "");
    forall i | 0 <= i < |rest| ensures [rest[i]] != delimiter {
      assert rest[i] == text[i + 1];
    }
    PlainText(rest, "", delimiter, "");
    assert rest + "" == rest;
  }

  /** The rows come back only if nothing in them is out of the reader's reach. */
  lemma RoundTripNeeds(headers: seq<string>, delimiter: string, items: seq<Row>)
    requires UsableDelimiter(delimiter) && Distinct(headers) && items != []
    requires ReadBack(Appended(headers, delimiter, true, items), delimiter) == ProjectedAll(headers, items)
    ensures BreakFree(headers, items) && NoBlankRow(headers, delimiter, items) && !StartsWithBom(Line(headers, delimiter))
  {
    hide Line, SplitLines, Items, ReadBack, Parse, RowFrom, Trim, Appended, OneLine;
    var raw := Appended(headers, delimiter, true, items);
    forall i, h | 0 <= i < |items| && h in headers ensures OneLine(Cell(items[i], h)) {
      ReadRowsClean(raw, delimiter, i, h);
    }
    forall h | h in headers ensures OneLine(h) {
      ReadRowsClean(raw, delimiter, 0, h);
    }
    assert BreakFree(headers, items);
    FileLines(headers, delimiter, items);
    forall i | 0 <= i < |items| ensures Trim(Line(Cells(headers, items[i]), delimiter)) != "" {
      if Trim(Line(Cells(headers, items[i]), delimiter)) == "" {
        BlankRowLost(headers, delimiter, items, raw, i);
      }
    }
    assert headers != [] ==> headers[0] in ProjectedAll(headers, items)[0];
    FirstRowKeys(raw, delimiter);
    if StartsWithBom(Line(headers, delimiter)) {
      FirstHeaderLost(headers, delimiter);
    }
  }

  lemma BlankRowLost(headers: seq<string>, delimiter: string, items: seq<Row>, raw: string, i: nat)
    requires i < |items| && Trim(Line(Cells(headers, items[i]), delimiter)) == ""
    requires SplitLines(raw) == [WithoutBom(Line(headers, delimiter))] + RowLines(headers, delimiter, items) + [""]
    ensures |ReadBack(raw, delimiter)| < |items|
  {
    hide Line, SplitLines, Items, Parse, Trim, PickRow, Cells, ReadBack, WithoutBom;
    var lines := SplitLines(raw);
    LinesReadBack(raw, delimiter, lines);
    TrimEmpty();
    assert lines[|items| + 1] == "" && lines[i + 1] == RowLines(headers, delimiter, items)[i];
    BlankPicked(Parse(lines[0], delimiter), delimiter, lines[|items| + 1], |items| + 1);
    BlankPicked(Parse(lines[0], delimiter), delimiter, lines[i + 1], i + 1);
    TwoMissed(lines, PickRow(Parse(lines[0], delimiter), delimiter, true, Whole), i + 1, |items| + 1);
  }

  lemma BlankPicked(headers: seq<string>, delimiter: string, line: string, index: nat)
    requires Trim(line) == ""
    ensures PickRow(headers, delimiter, true, Whole)(line, index) == None
  {
    hide *;
    RowPicked(headers, delimiter, line, index);
  }

  lemma TwoMissed<T>(lines: seq<string>, pick: (string, nat) -> Option<T>, i: nat, j: nat)
    requires 0 < i < j < |lines| && pick(lines[i], i) == None && pick(lines[j], j) == None
    ensures |Items(lines, pick, 1)| < |lines| - 2
  {
    hide Items;
    var missed: set<nat> := {i, j};
    MissingRows(lines, pick, 1, missed);
    assert |missed| == 2;
  }

  lemma FirstRowKeys(raw: string, delimiter: string)
    requires ReadBack(raw, delimiter) != []
    ensures forall h :: h in ReadBack(raw, delimiter)[0] <==> h in Parse(SplitLines(raw)[0], delimiter)
  {
    hide SplitLines, Parse, Items, RowFrom, Trim, PickRow;
    var lines := SplitLines(raw);
    var headers := Parse(lines[0], delimiter);
    ItemPicked(lines, PickRow(headers, delimiter, true, Whole), 1, 0);
    var j: nat :| j < |lines| && PickRow(headers, delimiter, true, Whole)(lines[j], j) == Some(ReadBack(raw, delimiter)[0]);
    RowPicked(headers, delimiter, lines[j], j);
    RowKeys(headers, Parse(lines[j], delimiter), 0, map[]);
    assert headers[0..] == headers;
  }

  /**
   * The round trip of a file, exactly: for a delimiter the parser can recognise and distinct headers, the
   * rows appended behind the header are read back, in order and nothing else, if and only if there are none,
   * or no header and no value has a line break, no row line is blank, and the header line does not begin
   * with a byte order mark.
   */
  lemma FileRoundTripIff(headers: seq<string>, delimiter: string, items: seq<Row>)
    requires UsableDelimiter(delimiter) && Distinct(headers)
    ensures ReadBack(Appended(headers, delimiter, true, items), delimiter) == ProjectedAll(headers, items)
       <==> || items == []
            || (&& BreakFree(headers, items) && NoBlankRow(headers, delimiter, items)
                && !StartsWithBom(Line(headers, delimiter)))
  {
    if items == [] {
      NothingReadBack(delimiter);
    } else {
      hide *;
      if ReadBack(Appended(headers, delimiter, true, items), delimiter) == ProjectedAll(headers, items) {
        RoundTripNeeds(headers, delimiter, items);
      } else if BreakFree(headers, items) && NoBlankRow(headers, delimiter, items)
             && !StartsWithBom(Line(headers, delimiter)) {
        FileRoundTrip(headers, delimiter, items);
      }
    }
  }

  lemma NothingReadBack(delimiter: string)
    ensures ReadBack("", delimiter) == []
  {
  }

  /** The byte order mark at work: a first header that begins with the mark loses it on the way back. */
  lemma MarkedHeaderIsRenamed()
    ensures ReadBack(Appended(["\U{FEFF}id"], ",", true, [map["\U{FEFF}id" := "7"]]), ",")
         != ProjectedAll(["\U{FEFF}id"], [map["\U{FEFF}id" := "7"]])
  {
    var headers: seq<string>, items: seq<Row> := ["\U{FEFF}id"], [map["\U{FEFF}id" := "7"]];
    UnquotedHeader();
    FileRoundTripIff(headers, ",", items);
  }

  lemma UnquotedHeader()
    ensures StartsWithBom(Line(["\U{FEFF}id"], ","))
  {
    var text := "\U{FEFF}id";
    PlainText(text, "", ",", "");
    assert text + "" == text;
    assert Escape(text, ",") == text;
    assert Escaped([text], ",") == [text];
  }
}

/**
 * A CSV writer over a whole run of writes, saves and reopenings, and a CSV reader over a whole file
 * (packages/core/src/io/file-writers.ts:32-77, packages/core/src/io/file-readers.ts:87-119).
 */
module CsvRestart {
  import opened Common
  import opened Checkpoint
  import opened Csv
  import opened Text
  import opened FileReaders
  import opened CsvFile

  /**
   * What happens to a writer: writes, writes whose append throws, checkpoint saves, reopening from the context
   * saved last, and writes of other components to the same context.
   */
  datatype Op = Write(items: seq<Row>) | FailedWrite(items: seq<Row>) | Update | Reopen | Foreign(key: string, state: map<string, Json>)

  /** The flag, the flag as saved last, and the file. */
  datatype WriterState = WriterState(written: bool, saved: bool, file: string)

  const FRESH := WriterState(false, false, "")

  function WriterStep(headers: seq<string>, delimiter: string, writeHeader: bool, s: WriterState, op: Op): WriterState {
    match op
    case Write(items) =>
      WriterState(s.written || (writeHeader && items != []), s.saved,
                  s.file + Appended(headers, delimiter, writeHeader && !s.written, items))
    case FailedWrite(items) => s.(written := s.written || (writeHeader && items != []))
    case Update => s.(saved := s.written)
    case Reopen => s.(written := s.saved)
    case Foreign(_, _) => s
  }

  /** The state after the first m operations. */
  function StateAfter(headers: seq<string>, delimiter: string, writeHeader: bool, ops: seq<Op>, m: nat): WriterState
    requires m <= |ops|
  {
    if m == 0 then FRESH
    else WriterStep(headers, delimiter, writeHeader, StateAfter(headers, delimiter, writeHeader, ops, m - 1), ops[m - 1])
  }

  ghost predicate SavedFlag(context: Json, key: string, saved: bool) {
    saved <==> ReadCheckpointValue(context, key, "headerWritten", JBool(false)) == JBool(true)
  }

  lemma FlagReadBack(context: Json, key: string)
    ensures forall b :: SavedFlag(WriteCheckpoint(context, key, map["headerWritten" := JBool(b)]), key, b)
  {
  }

  lemma ForeignKeepsFlag(context: Json, key: string, other: string, state: map<string, Json>, saved: bool)
    requires other != key && SavedFlag(context, key, saved)
    ensures SavedFlag(WriteCheckpoint(context, other, state), key, saved)
  {
    WriteFramesOtherKeys(context, other, state, key);
  }

  /** The writer itself goes through exactly these states. */
  method DriveWriter(writer: CsvWriter, ops: seq<Op>, context: Json) returns (last: Json)
    requires !writer.headerWritten && writer.file == "" && SavedFlag(context, writer.key, false)
    requires forall i :: 0 <= i < |ops| && ops[i].Foreign? ==> ops[i].key != writer.key
    modifies writer
    ensures var end := StateAfter(writer.headers, writer.delimiter, writer.writeHeader, ops, |ops|);
      writer.file == end.file && writer.headerWritten == end.written && SavedFlag(last, writer.key, end.saved)
  {
    hide SavedFlag, Appended, WriteCheckpoint, ReadCheckpointValue;
    last := context;
    for i := 0 to |ops|
      invariant var s := StateAfter(writer.headers, writer.delimiter, writer.writeHeader, ops, i);
        writer.file == s.file && writer.headerWritten == s.written && SavedFlag(last, writer.key, s.saved)
    {
      match ops[i] {
        case Write(items) =>
          var result := writer.Write(items, false);
        case FailedWrite(items) =>
          var result := writer.Write(items, true);
          if items == [] { NothingAppended(writer.headers, writer.delimiter); }
        case Update =>
          FlagReadBack(last, writer.key);
          last := writer.Update(last);
        case Reopen =>
          FlagMeans(last, writer.key, StateAfter(writer.headers, writer.delimiter, writer.writeHeader, ops, i).saved);
          writer.Open(last);
        case Foreign(key, state) =>
          ForeignKeepsFlag(last, writer.key, key, state, StateAfter(writer.headers, writer.delimiter, writer.writeHeader, ops, i).saved);
          last := WriteCheckpoint(last, key, state);
      }
    }
  }

  lemma FlagMeans(context: Json, key: string, saved: bool)
    requires SavedFlag(context, key, saved)
    ensures saved <==> ReadCheckpointValue(context, key, "headerWritten", JBool(false)) == JBool(true)
  {
  }

  // ---------------------------------------------------------------- what the flag says

  /** A write with items, whether or not its append succeeds. */
  ghost predicate Tries(op: Op) {
    (op.Write? || op.FailedWrite?) && op.items != []
  }

  /** A write that brings items into the file. */
  ghost predicate Writes(op: Op) {
    op.Write? && op.items != []
  }

  /** What was tried at i is still remembered at m: no reopening since, or a save before the first one. */
  ghost predicate KeptSince(ops: seq<Op>, i: nat, m: nat)
    requires i < m <= |ops|
  {
    forall j: nat :: i < j < m && ops[j].Reopen? ==> SavedBetween(ops, i, j)
  }

  ghost predicate SavedBetween(ops: seq<Op>, i: nat, j: nat)
    requires i < j <= |ops|
  {
    exists u: nat :: i < u < j && ops[u].Update?
  }

  /** Some try before m is still remembered. */
  ghost predicate Remembered(ops: seq<Op>, m: nat)
    requires m <= |ops|
  {
    exists i: nat :: i < m && Tries(ops[i]) && KeptSince(ops, i, m)
  }

  /** Some try before m was remembered when it was saved. */
  ghost predicate RememberedBySave(ops: seq<Op>, m: nat)
    requires m <= |ops|
  {
    exists i: nat :: i < m && Tries(ops[i]) && KeptSince(ops, i, m) && SavedBetween(ops, i, m)
  }

  lemma KeptMore(ops: seq<Op>, i: nat, m: nat)
    requires i < m < |ops|
    ensures KeptSince(ops, i, m + 1) <==> KeptSince(ops, i, m) && (ops[m].Reopen? ==> SavedBetween(ops, i, m))
    ensures SavedBetween(ops, i, m + 1) <==> SavedBetween(ops, i, m) || ops[m].Update?
  {
  }

  lemma JustTried(ops: seq<Op>, m: nat)
    requires m < |ops|
    ensures KeptSince(ops, m, m + 1) && !SavedBetween(ops, m, m + 1)
  {
  }

  lemma RememberedMore(ops: seq<Op>, m: nat)
    requires m < |ops|
    ensures Remembered(ops, m + 1) <==> if ops[m].Reopen? then RememberedBySave(ops, m) else Remembered(ops, m) || Tries(ops[m])
    ensures RememberedBySave(ops, m + 1) <==> if ops[m].Update? then Remembered(ops, m) else RememberedBySave(ops, m)
  {
    hide KeptSince, SavedBetween;
    JustTried(ops, m);
    forall i: nat | i < m
      ensures KeptSince(ops, i, m + 1) <==> KeptSince(ops, i, m) && (ops[m].Reopen? ==> SavedBetween(ops, i, m))
      ensures SavedBetween(ops, i, m + 1) <==> SavedBetween(ops, i, m) || ops[m].Update?
    {
      KeptMore(ops, i, m);
    }
  }

  /** The flag of a writer with a header says exactly whether some try is remembered, in memory and in the row. */
  lemma {:induction false} FlagSays(headers: seq<string>, delimiter: string, ops: seq<Op>, m: nat)
    requires m <= |ops|
    ensures var s := StateAfter(headers, delimiter, true, ops, m);
      (s.written <==> Remembered(ops, m)) && (s.saved <==> RememberedBySave(ops, m))
    ensures RememberedBySave(ops, m) ==> Remembered(ops, m)
  {
    hide KeptSince, SavedBetween, Appended;
    if m > 0 {
      FlagSays(headers, delimiter, ops, m - 1);
      RememberedMore(ops, m - 1);
    }
  }

  // ---------------------------------------------------------------- when there is one header in front

  ghost predicate WroteBefore(ops: seq<Op>, m: nat)
    requires m <= |ops|
  {
    exists k: nat :: k < m && Writes(ops[k])
  }

  /** A failed write is remembered when the first items come into the file: they come without a header. */
  ghost predicate LosesHeader(ops: seq<Op>, m: nat)
    requires m <= |ops|
  {
    exists k: nat :: k < m && Writes(ops[k]) && !WroteBefore(ops, k) && Remembered(ops, k)
  }

  /** The write at k brings the header. */
  ghost predicate BringsHeader(ops: seq<Op>, k: nat)
    requires k < |ops|
  {
    Writes(ops[k]) && !Remembered(ops, k)
  }

  /** Nothing is remembered when more items come into the file: they come with another header. */
  ghost predicate RepeatsHeader(ops: seq<Op>, m: nat)
    requires m <= |ops|
  {
    exists k: nat :: k < m && BringsHeader(ops, k) && WroteBefore(ops, k)
  }

  /** The only header before m is the one that the write at k brings. */
  ghost predicate OnlyHeaderAt(ops: seq<Op>, k: nat, m: nat)
    requires k < m <= |ops|
  {
    BringsHeader(ops, k) && forall k': nat :: k' < m && k' != k ==> !BringsHeader(ops, k')
  }

  /** The items of the first m operations. */
  ghost function ItemsOf(ops: seq<Op>, m: nat): seq<Row>
    requires m <= |ops|
  {
    if m == 0 then [] else ItemsOf(ops, m - 1) + (if ops[m - 1].Write? then ops[m - 1].items else [])
  }

  ghost function HeaderText(headers: seq<string>, delimiter: string): string {
    Terminated([Line(headers, delimiter)])
  }

  ghost function RowsText(headers: seq<string>, delimiter: string, items: seq<Row>): string {
    Appended(headers, delimiter, false, items)
  }

  /**
   * The header was lost and then written once, behind rows that all together read the same before and after
   * it: the file does not show that the header is not the first line.
   */
  ghost predicate Disguised(headers: seq<string>, delimiter: string, ops: seq<Op>, m: nat)
    requires m <= |ops|
  {
    && LosesHeader(ops, m)
    && exists k: nat :: k < m && OnlyHeaderAt(ops, k, m) && Commutes(headers, delimiter, ItemsOf(ops, k))
  }

  ghost predicate Commutes(headers: seq<string>, delimiter: string, items: seq<Row>) {
    RowsText(headers, delimiter, items) + HeaderText(headers, delimiter)
    == HeaderText(headers, delimiter) + RowsText(headers, delimiter, items)
  }

  // ---------------------------------------------------------------- the text of the file

  lemma NothingAppended(headers: seq<string>, delimiter: string)
    ensures forall due :: Appended(headers, delimiter, due, []) == ""
  {
  }

  /** A header that is due stands in front of the rows. */
  lemma HeaderInFront(headers: seq<string>, delimiter: string, items: seq<Row>)
    requires items != []
    ensures Appended(headers, delimiter, true, items) == HeaderText(headers, delimiter) + RowsText(headers, delimiter, items)
  {
    hide Line, Terminated;
    var rows := RowLines(headers, delimiter, items);
    TerminatedConcat([Line(headers, delimiter)], rows);
    assert [] + rows == rows;
  }

  lemma HeaderNotEmpty(headers: seq<string>, delimiter: string)
    ensures HeaderText(headers, delimiter) != ""
  {
    hide Line;
  }

  lemma RowsTextConcat(headers: seq<string>, delimiter: string, a: seq<Row>, b: seq<Row>)
    ensures RowsText(headers, delimiter, a + b) == RowsText(headers, delimiter, a) + RowsText(headers, delimiter, b)
  {
    hide Line, RowLines;
    RowLinesConcat(headers, delimiter, a, b);
    TerminatedConcat(RowLines(headers, delimiter, a), RowLines(headers, delimiter, b));
    RowsTextIs(headers, delimiter, a);
    RowsTextIs(headers, delimiter, b);
    RowsTextIs(headers, delimiter, a + b);
  }

  lemma RowsTextIs(headers: seq<string>, delimiter: string, items: seq<Row>)
    ensures RowsText(headers, delimiter, items) == Terminated(RowLines(headers, delimiter, items))
  {
    assert [] + RowLines(headers, delimiter, items) == RowLines(headers, delimiter, items);
  }

  /** The headers brought by the first m operations. */
  ghost function Headers(ops: seq<Op>, m: nat): nat
    requires m <= |ops|
  {
    if m == 0 then 0 else Headers(ops, m - 1) + (if BringsHeader(ops, m - 1) then 1 else 0)
  }

  ghost function FileAfter(headers: seq<string>, delimiter: string, ops: seq<Op>, m: nat): string
    requires m <= |ops|
  {
    StateAfter(headers, delimiter, true, ops, m).file
  }

  ghost function RowsAfter(headers: seq<string>, delimiter: string, ops: seq<Op>, m: nat): string
    requires m <= |ops|
  {
    RowsText(headers, delimiter, ItemsOf(ops, m))
  }

  /** Each operation appends the header if it brings it, then its rows. */
  lemma OneMore(headers: seq<string>, delimiter: string, ops: seq<Op>, m: nat) returns (rows: string)
    requires m < |ops|
    ensures FileAfter(headers, delimiter, ops, m + 1)
         == FileAfter(headers, delimiter, ops, m) + (if BringsHeader(ops, m) then HeaderText(headers, delimiter) else "") + rows
    ensures RowsAfter(headers, delimiter, ops, m + 1) == RowsAfter(headers, delimiter, ops, m) + rows
  {
    hide Remembered, RememberedBySave, Appended, RowsText, HeaderText;
    FlagSays(headers, delimiter, ops, m);
    NothingAppended(headers, delimiter);
    NoRowsText(headers, delimiter);
    var items := if ops[m].Write? then ops[m].items else [];
    rows := RowsText(headers, delimiter, items);
    RowsTextConcat(headers, delimiter, ItemsOf(ops, m), items);
    assert ItemsOf(ops, m + 1) == ItemsOf(ops, m) + items;
    if items != [] {
      HeaderInFront(headers, delimiter, items);
      RowsTextAppended(headers, delimiter, items);
    }
  }

  lemma NoRowsText(headers: seq<string>, delimiter: string)
    ensures RowsText(headers, delimiter, []) == ""
  {
  }

  lemma RowsTextAppended(headers: seq<string>, delimiter: string, items: seq<Row>)
    ensures RowsText(headers, delimiter, items) == Appended(headers, delimiter, false, items)
  {
  }

  /** The file whose only header was brought by the write at k. */
  ghost predicate HeaderAt(headers: seq<string>, delimiter: string, ops: seq<Op>, k: nat, m: nat)
    requires k <= m <= |ops|
  {
    var (before, all) := (RowsAfter(headers, delimiter, ops, k), RowsAfter(headers, delimiter, ops, m));
    before <= all && FileAfter(headers, delimiter, ops, m) == before + HeaderText(headers, delimiter) + all[|before|..]
  }

  /** The file by the number of its headers. */
  lemma {:induction false} FileShape(headers: seq<string>, delimiter: string, ops: seq<Op>, m: nat)
    requires m <= |ops|
    ensures Headers(ops, m) == 0 ==> FileAfter(headers, delimiter, ops, m) == RowsAfter(headers, delimiter, ops, m)
    ensures forall k: nat :: k < m && OnlyHeaderAt(ops, k, m) ==> HeaderAt(headers, delimiter, ops, k, m)
    ensures Headers(ops, m) >= 2 ==>
      |FileAfter(headers, delimiter, ops, m)| >= |RowsAfter(headers, delimiter, ops, m)| + 2 * |HeaderText(headers, delimiter)|
  {
    hide BringsHeader, FileAfter, RowsAfter, HeaderText, OnlyHeaderAt, HeaderAt;
    if m == 0 {
      NothingYet(headers, delimiter, ops);
    } else {
      FileShape(headers, delimiter, ops, m - 1);
      var rows := OneMore(headers, delimiter, ops, m - 1);
      forall k: nat | k < m && OnlyHeaderAt(ops, k, m) ensures HeaderAt(headers, delimiter, ops, k, m) {
        OnlyBefore(ops, k, m);
        if k == m - 1 {
          NewHeaderAt(headers, delimiter, ops, k, rows);
        } else {
          HeaderStays(headers, delimiter, ops, k, m - 1, rows);
        }
      }
      if Headers(ops, m) >= 2 && Headers(ops, m - 1) == 1 {
        var k := HeadersOne(ops, m - 1);
        HeaderAtLength(headers, delimiter, ops, k, m - 1);
      }
    }
  }

  lemma NothingYet(headers: seq<string>, delimiter: string, ops: seq<Op>)
    ensures FileAfter(headers, delimiter, ops, 0) == "" == RowsAfter(headers, delimiter, ops, 0)
  {
  }

  lemma NewHeaderAt(headers: seq<string>, delimiter: string, ops: seq<Op>, m: nat, rows: string)
    requires m < |ops| && FileAfter(headers, delimiter, ops, m) == RowsAfter(headers, delimiter, ops, m)
    requires FileAfter(headers, delimiter, ops, m + 1) == FileAfter(headers, delimiter, ops, m) + HeaderText(headers, delimiter) + rows
    requires RowsAfter(headers, delimiter, ops, m + 1) == RowsAfter(headers, delimiter, ops, m) + rows
    ensures HeaderAt(headers, delimiter, ops, m, m + 1)
  {
    hide FileAfter, RowsAfter, HeaderText;
  }

  lemma HeaderStays(headers: seq<string>, delimiter: string, ops: seq<Op>, k: nat, m: nat, rows: string)
    requires k <= m < |ops| && HeaderAt(headers, delimiter, ops, k, m)
    requires FileAfter(headers, delimiter, ops, m + 1) == FileAfter(headers, delimiter, ops, m) + "" + rows
    requires RowsAfter(headers, delimiter, ops, m + 1) == RowsAfter(headers, delimiter, ops, m) + rows
    ensures HeaderAt(headers, delimiter, ops, k, m + 1)
  {
    hide FileAfter, RowsAfter, HeaderText;
    var (before, all) := (RowsAfter(headers, delimiter, ops, k), RowsAfter(headers, delimiter, ops, m));
    assert (all + rows)[|before|..] == all[|before|..] + rows;
  }

  lemma HeaderAtLength(headers: seq<string>, delimiter: string, ops: seq<Op>, k: nat, m: nat)
    requires k <= m <= |ops| && HeaderAt(headers, delimiter, ops, k, m)
    ensures |FileAfter(headers, delimiter, ops, m)| == |RowsAfter(headers, delimiter, ops, m)| + |HeaderText(headers, delimiter)|
  {
    hide FileAfter, RowsAfter, HeaderText;
  }

  lemma {:induction false} HeadersNone(ops: seq<Op>, m: nat)
    requires m <= |ops|
    ensures Headers(ops, m) == 0 <==> forall k: nat :: k < m ==> !BringsHeader(ops, k)
  {
    hide BringsHeader;
    if m > 0 { HeadersNone(ops, m - 1); }
  }

  lemma {:induction false} HeadersOne(ops: seq<Op>, m: nat) returns (k: nat)
    requires m <= |ops| && Headers(ops, m) == 1
    ensures k < m && OnlyHeaderAt(ops, k, m)
  {
    hide BringsHeader;
    if BringsHeader(ops, m - 1) {
      HeadersNone(ops, m - 1);
      k := m - 1;
    } else {
      k := HeadersOne(ops, m - 1);
    }
  }

  /** An only header just brought had none before it; an older one was the only one before. */
  lemma OnlyBefore(ops: seq<Op>, k: nat, m: nat)
    requires k < m <= |ops| && OnlyHeaderAt(ops, k, m)
    ensures if k == m - 1 then BringsHeader(ops, k) && Headers(ops, k) == 0 else OnlyHeaderAt(ops, k, m - 1) && !BringsHeader(ops, m - 1)
  {
    hide BringsHeader;
    HeadersNone(ops, k);
  }

  lemma {:induction false} OnlyIsOne(ops: seq<Op>, k: nat, m: nat)
    requires k < m <= |ops| && OnlyHeaderAt(ops, k, m)
    ensures Headers(ops, m) == 1
  {
    hide BringsHeader, OnlyHeaderAt;
    OnlyBefore(ops, k, m);
    if k < m - 1 { OnlyIsOne(ops, k, m - 1); }
  }

  // ---------------------------------------------------------------- counting headers

  lemma WroteNext(ops: seq<Op>, m: nat)
    requires 0 < m <= |ops|
    ensures WroteBefore(ops, m) <==> WroteBefore(ops, m - 1) || Writes(ops[m - 1])
  {
    hide Writes;
    if Writes(ops[m - 1]) { assert WroteBefore(ops, m); }
  }

  lemma {:induction false} ItemsMeanWrites(ops: seq<Op>, m: nat)
    requires m <= |ops|
    ensures ItemsOf(ops, m) != [] <==> WroteBefore(ops, m)
  {
    if m > 0 {
      ItemsMeanWrites(ops, m - 1);
      WroteNext(ops, m);
      hide WroteBefore;
    }
  }

  /** The first write with items. */
  lemma {:induction false} FirstWrite(ops: seq<Op>, m: nat) returns (k: nat)
    requires m <= |ops| && WroteBefore(ops, m)
    ensures k < m && Writes(ops[k]) && !WroteBefore(ops, k)
  {
    hide Writes;
    if WroteBefore(ops, m - 1) { k := FirstWrite(ops, m - 1); } else { k := m - 1; }
  }

  /** Without a header among its writes, the header of a file was lost. */
  lemma NoneMeansLost(ops: seq<Op>, m: nat)
    requires m <= |ops| && WroteBefore(ops, m) && Headers(ops, m) == 0
    ensures LosesHeader(ops, m)
  {
    hide Writes, Remembered, WroteBefore;
    HeadersNone(ops, m);
    var k := FirstWrite(ops, m);
    assert !BringsHeader(ops, k);
  }

  lemma OneInFront(ops: seq<Op>, k: nat, m: nat)
    requires k < m <= |ops| && OnlyHeaderAt(ops, k, m)
    ensures if WroteBefore(ops, k) then LosesHeader(ops, m) && RepeatsHeader(ops, m) else !LosesHeader(ops, m) && !RepeatsHeader(ops, m)
  {
    if WroteBefore(ops, k) {
      HeadersBefore(ops, k, m);
      NoneMeansLost(ops, k);
    } else {
      FirstIsFirst(ops, k, m);
    }
  }

  lemma HeadersBefore(ops: seq<Op>, k: nat, m: nat)
    requires k < m <= |ops| && OnlyHeaderAt(ops, k, m)
    ensures Headers(ops, k) == 0
  {
    hide BringsHeader;
    HeadersNone(ops, k);
  }

  lemma FirstIsFirst(ops: seq<Op>, k: nat, m: nat)
    requires k < m <= |ops| && OnlyHeaderAt(ops, k, m) && !WroteBefore(ops, k)
    ensures !LosesHeader(ops, m) && !RepeatsHeader(ops, m)
  {
    hide Remembered, WroteBefore;
    forall k': nat | k' < m && Writes(ops[k']) && !WroteBefore(ops, k') ensures k' == k { FirstUnique(ops, k, k'); }
  }

  lemma FirstUnique(ops: seq<Op>, k: nat, k': nat)
    requires k < |ops| && k' < |ops| && Writes(ops[k]) && Writes(ops[k']) && !WroteBefore(ops, k) && !WroteBefore(ops, k')
    ensures k == k'
  {
    hide Writes;
  }

  lemma {:induction false} TwoMeansRepeat(ops: seq<Op>, m: nat)
    requires m <= |ops| && Headers(ops, m) >= 2
    ensures RepeatsHeader(ops, m) && WroteBefore(ops, m)
  {
    hide Remembered, WroteBefore;
    if BringsHeader(ops, m - 1) {
      BroughtMeansWrote(ops, m - 1);
      WroteLater(ops, m - 1, m);
    } else {
      TwoMeansRepeat(ops, m - 1);
      WroteLater(ops, m - 1, m);
    }
  }

  lemma {:induction false} BroughtMeansWrote(ops: seq<Op>, m: nat)
    requires m <= |ops| && Headers(ops, m) >= 1
    ensures WroteBefore(ops, m)
  {
    hide Remembered;
    if !BringsHeader(ops, m - 1) { BroughtMeansWrote(ops, m - 1); }
  }

  lemma WroteLater(ops: seq<Op>, m: nat, m': nat)
    requires m <= m' <= |ops| && WroteBefore(ops, m)
    ensures WroteBefore(ops, m')
  {
    hide Writes;
  }

  /** Two texts around the header are in the wrong order exactly if it shows. */
  lemma HeaderShows(before: string, header: string, after: string)
    ensures before + header + after == header + (before + after) <==> before + header == header + before
  {
    var (a, b) := (before + header + after, header + (before + after));
    assert b == header + before + after;
    assert a[..|before| + |header|] == before + header && b[..|before| + |header|] == header + before;
  }

  lemma OneHeaderFile(headers: seq<string>, delimiter: string, ops: seq<Op>, k: nat, m: nat)
    requires k < m <= |ops| && OnlyHeaderAt(ops, k, m) && HeaderAt(headers, delimiter, ops, k, m)
    ensures FileAfter(headers, delimiter, ops, m) == Appended(headers, delimiter, true, ItemsOf(ops, m))
       <==> !WroteBefore(ops, k) || Commutes(headers, delimiter, ItemsOf(ops, k))
  {
    hide Remembered, Appended, FileAfter, HeaderText, RowsText, ItemsOf;
    var (before, all) := (RowsText(headers, delimiter, ItemsOf(ops, k)), RowsText(headers, delimiter, ItemsOf(ops, m)));
    assert WroteBefore(ops, m);
    ItemsMeanWrites(ops, m);
    HeaderInFront(headers, delimiter, ItemsOf(ops, m));
    HeaderShows(before, HeaderText(headers, delimiter), all[|before|..]);
    assert before + all[|before|..] == all;
    ItemsMeanWrites(ops, k);
    NoRowsText(headers, delimiter);
    assert "" + HeaderText(headers, delimiter) == HeaderText(headers, delimiter) + "";
  }

  /**
   * Over any writes, failed writes, saves and reopenings the file is the one header and the rows written, exactly
   * unless the first rows come while a failed write is remembered, or more rows come while no try is remembered
   * (or no header is written at all) - save that a header both lost and repeated once may be hidden among rows
   * that look like it.
   */
  lemma HeaderOnceIff(headers: seq<string>, delimiter: string, writeHeader: bool, ops: seq<Op>)
    ensures StateAfter(headers, delimiter, writeHeader, ops, |ops|).file
         == Appended(headers, delimiter, writeHeader, ItemsOf(ops, |ops|))
       <==> || !writeHeader
            || (!LosesHeader(ops, |ops|) && !RepeatsHeader(ops, |ops|))
            || Disguised(headers, delimiter, ops, |ops|)
  {
    hide *;
    if writeHeader {
      FileIs(headers, delimiter, ops);
      HeaderOnce(headers, delimiter, ops);
    } else {
      NoHeaderFollows(headers, delimiter, ops, |ops|);
    }
  }

  lemma FileIs(headers: seq<string>, delimiter: string, ops: seq<Op>)
    ensures FileAfter(headers, delimiter, ops, |ops|) == StateAfter(headers, delimiter, true, ops, |ops|).file
  {
    hide StateAfter;
  }

  lemma HeaderOnce(headers: seq<string>, delimiter: string, ops: seq<Op>)
    ensures FileAfter(headers, delimiter, ops, |ops|) == Appended(headers, delimiter, true, ItemsOf(ops, |ops|))
       <==> (!LosesHeader(ops, |ops|) && !RepeatsHeader(ops, |ops|)) || Disguised(headers, delimiter, ops, |ops|)
  {
    hide FileAfter, Appended, LosesHeader, RepeatsHeader, Commutes, OnlyHeaderAt, BringsHeader, WroteBefore, Headers, RowsText, HeaderText, ItemsOf, HeaderAt;
    var m := |ops|;
    FileShape(headers, delimiter, ops, m);
    ItemsMeanWrites(ops, m);
    NotTwoAtOnce(ops, m);
    if !WroteBefore(ops, m) {
      NothingWritten(headers, delimiter, ops, m);
    } else {
      HeaderInFront(headers, delimiter, ItemsOf(ops, m));
      HeaderNotEmpty(headers, delimiter);
      if Headers(ops, m) == 0 {
        NoneMeansLost(ops, m);
      } else if Headers(ops, m) == 1 {
        var k := HeadersOne(ops, m);
        OneInFront(ops, k, m);
        OneHeaderFile(headers, delimiter, ops, k, m);
        OnlyOne(ops, k, m);
      } else {
        TwoMeansRepeat(ops, m);
      }
    }
  }

  lemma NotTwoAtOnce(ops: seq<Op>, m: nat)
    requires m <= |ops|
    ensures forall k: nat :: k < m && OnlyHeaderAt(ops, k, m) ==> Headers(ops, m) == 1
  {
    hide OnlyHeaderAt;
    forall k: nat | k < m && OnlyHeaderAt(ops, k, m) ensures Headers(ops, m) == 1 { OnlyIsOne(ops, k, m); }
  }

  lemma OnlyOne(ops: seq<Op>, k: nat, m: nat)
    requires k < m <= |ops| && OnlyHeaderAt(ops, k, m)
    ensures forall k': nat :: k' < m && OnlyHeaderAt(ops, k', m) ==> k' == k
  {
    hide BringsHeader;
  }

  lemma NothingWritten(headers: seq<string>, delimiter: string, ops: seq<Op>, m: nat)
    requires m <= |ops| && !WroteBefore(ops, m)
    ensures Headers(ops, m) == 0 && !LosesHeader(ops, m) && !RepeatsHeader(ops, m)
    ensures Appended(headers, delimiter, true, ItemsOf(ops, m)) == "" == RowsAfter(headers, delimiter, ops, m)
  {
    hide Remembered;
    ItemsMeanWrites(ops, m);
    HeadersNone(ops, m);
  }

  /** A writer without a header only ever appends rows. */
  lemma {:induction false} NoHeaderFollows(headers: seq<string>, delimiter: string, ops: seq<Op>, m: nat)
    requires m <= |ops|
    ensures var s := StateAfter(headers, delimiter, false, ops, m);
      !s.written && !s.saved && s.file == Appended(headers, delimiter, false, ItemsOf(ops, m))
  {
    hide Appended, RowsText;
    NothingAppended(headers, delimiter);
    if m > 0 {
      NoHeaderFollows(headers, delimiter, ops, m - 1);
      var items := if ops[m - 1].Write? then ops[m - 1].items else [];
      RowsTextConcat(headers, delimiter, ItemsOf(ops, m - 1), items);
      RowsTextAppended(headers, delimiter, ItemsOf(ops, m - 1));
      RowsTextAppended(headers, delimiter, items);
      RowsTextAppended(headers, delimiter, ItemsOf(ops, m));
      assert ItemsOf(ops, m) == ItemsOf(ops, m - 1) + items;
    }
  }

  // ---------------------------------------------------------------- the header as a row

  /** The item that looks like the header. */
  ghost function HeaderRow(headers: seq<string>): Row {
    map header | header in headers :: header
  }

  lemma {:induction false} HeaderCells(headers: seq<string>, item: Row)
    requires forall h :: h in headers ==> h in item && item[h] == h
    ensures Cells(headers, item) == headers
  {
    if headers != [] { HeaderCells(headers[1..], item); }
  }

  /** A header written again stands in the file like a row, and so it is read as one. */
  lemma RepeatedHeaderIsRow(headers: seq<string>, delimiter: string, a: seq<Row>, b: seq<Row>)
    requires a != [] && b != []
    ensures Appended(headers, delimiter, true, a) + Appended(headers, delimiter, true, b)
         == Appended(headers, delimiter, true, a + [HeaderRow(headers)] + b)
  {
    hide *;
    var row := HeaderRow(headers);
    HeaderRowCells(headers);
    FirstRowIsHeader(headers, delimiter, [row] + b);
    assert ([row] + b)[1..] == b && ([row] + b)[0] == row;
    HeaderInFront(headers, delimiter, a);
    HeaderInFront(headers, delimiter, b);
    HeaderInFront(headers, delimiter, a + [row] + b);
    RowsTextConcat(headers, delimiter, a, [row] + b);
    assert a + ([row] + b) == a + [row] + b;
    var (h, ra, rb) := (HeaderText(headers, delimiter), RowsText(headers, delimiter, a), RowsText(headers, delimiter, b));
    assert (h + ra) + (h + rb) == h + (ra + (h + rb));
  }

  lemma HeaderRowCells(headers: seq<string>)
    ensures Cells(headers, HeaderRow(headers)) == headers
  {
    HeaderCells(headers, HeaderRow(headers));
  }

  /** Rows without a header read as if the first of them were the header. */
  lemma FirstRowIsHeader(headers: seq<string>, delimiter: string, items: seq<Row>)
    requires items != []
    ensures RowsText(headers, delimiter, items)
         == HeaderText(Cells(headers, items[0]), delimiter) + RowsText(headers, delimiter, items[1..])
  {
    hide Line, Terminated;
    RowsTextIs(headers, delimiter, items);
    RowsTextIs(headers, delimiter, items[1..]);
    TerminatedConcat([Line(Cells(headers, items[0]), delimiter)], RowLines(headers, delimiter, items[1..]));
  }

  /** A run that repeats the header: the first write is not followed by a save when the writer is opened again. */
  lemma UnsavedWriteRepeats(headers: seq<string>, delimiter: string, a: seq<Row>, b: seq<Row>)
    requires a != [] && b != []
    ensures RepeatsHeader([Write(a), Reopen, Write(b)], 3)
    ensures StateAfter(headers, delimiter, true, [Write(a), Reopen, Write(b)], 3).file
         == Appended(headers, delimiter, true, a + [HeaderRow(headers)] + b)
  {
    var ops := [Write(a), Reopen, Write(b)];
    assert Writes(ops[0]) && WroteBefore(ops, 2);
    assert !Remembered(ops, 2) by { RememberedMore(ops, 1); assert !SavedBetween(ops, 0, 1); }
    assert BringsHeader(ops, 2);
    hide Appended;
    RepeatedHeaderIsRow(headers, delimiter, a, b);
    assert StateAfter(headers, delimiter, true, ops, 1) == WriterState(true, false, "" + Appended(headers, delimiter, true, a));
    assert StateAfter(headers, delimiter, true, ops, 2) == WriterState(false, false, "" + Appended(headers, delimiter, true, a));
    assert "" + Appended(headers, delimiter, true, a) == Appended(headers, delimiter, true, a);
  }

  /**
   * A run that loses the header: the append of the first write throws and the write is retried.  The file holds
   * only the rows, and the line of the first row stands where the header is read.
   */
  lemma FailedWriteLoses(headers: seq<string>, delimiter: string, items: seq<Row>)
    requires items != []
    ensures LosesHeader([FailedWrite(items), Write(items)], 2)
    ensures StateAfter(headers, delimiter, true, [FailedWrite(items), Write(items)], 2).file
         == HeaderText(Cells(headers, items[0]), delimiter) + RowsText(headers, delimiter, items[1..])
         != Appended(headers, delimiter, true, items)
  {
    var ops := [FailedWrite(items), Write(items)];
    assert Tries(ops[0]) && KeptSince(ops, 0, 1) && Remembered(ops, 1);
    assert !WroteBefore(ops, 1) && Writes(ops[1]);
    FirstRowIsHeader(headers, delimiter, items);
    HeaderInFront(headers, delimiter, items);
    HeaderNotEmpty(headers, delimiter);
    RowsTextAppended(headers, delimiter, items);
    hide Appended, RowsText, HeaderText;
    assert StateAfter(headers, delimiter, true, ops, 1) == WriterState(true, false, "");
    assert StateAfter(headers, delimiter, true, ops, 2).file == "" + Appended(headers, delimiter, false, items);
  }

  /** A header that is lost and then repeated behind a row that looks like it does not show in the file. */
  lemma LookalikeHides(headers: seq<string>, delimiter: string, items: seq<Row>)
    requires items != []
    ensures var ops := [FailedWrite([HeaderRow(headers)]), Write([HeaderRow(headers)]), Reopen, Write(items)];
      LosesHeader(ops, 4) && RepeatsHeader(ops, 4) && Disguised(headers, delimiter, ops, 4)
  {
    var row := HeaderRow(headers);
    var ops := [FailedWrite([row]), Write([row]), Reopen, Write(items)];
    Lookalike(headers, delimiter);
    hide RowsText, HeaderText;
    LookalikeOps(ops);
    assert ItemsOf(ops, 1) == [] && ItemsOf(ops, 2) == [] + [row] && ItemsOf(ops, 3) == ItemsOf(ops, 2) + [] == [row];
    assert Commutes(headers, delimiter, ItemsOf(ops, 3));
  }

  lemma Lookalike(headers: seq<string>, delimiter: string)
    ensures RowsText(headers, delimiter, [HeaderRow(headers)]) == HeaderText(headers, delimiter)
  {
    HeaderRowCells(headers);
    hide Line, Cells;
    RowsTextIs(headers, delimiter, [HeaderRow(headers)]);
    assert RowLines(headers, delimiter, [HeaderRow(headers)]) == [Line(headers, delimiter)];
  }

  lemma LookalikeOps(ops: seq<Op>)
    requires |ops| == 4 && ops[0].FailedWrite? && ops[1].Write? && ops[2].Reopen? && ops[3].Write?
    requires ops[0].items != [] && ops[1].items != [] && ops[3].items != []
    ensures LosesHeader(ops, 4) && RepeatsHeader(ops, 4) && OnlyHeaderAt(ops, 3, 4)
  {
    assert Tries(ops[0]) && KeptSince(ops, 0, 1);
    assert Writes(ops[1]) && !WroteBefore(ops, 1) && Remembered(ops, 1);
    assert !SavedBetween(ops, 0, 2) && !SavedBetween(ops, 1, 2);
    assert !Remembered(ops, 3) by { RememberedMore(ops, 2); }
    assert Writes(ops[3]) && WroteBefore(ops, 3);
    assert BringsHeader(ops, 3);
  }

  // ---------------------------------------------------------------- reading the file back

  /** A reader with default options reads exactly the rows of the file. */
  method DriveReader(reader: CsvReader<Row>, raw: string, context: Json) returns (rows: seq<Row>)
    requires reader.givenHeaders.None? && reader.hasHeader.None? && reader.skipBlankLines.None? && reader.mapRow == WholeRow
    requires ReadCheckpointNumber(context, reader.key, "index", 1) == 1
    modifies reader
    ensures rows == ReadBack(raw, reader.delimiter)
  {
    hide Items, SplitLines, Parse, PickRow, ReadCheckpointNumber;
    reader.Open(raw, context);
    WholeRows(reader.lines, reader.headers, reader.delimiter, 1);
    var errors;
    rows, errors := ReadRowsOn(reader);
  }

  lemma WholeRows(lines: seq<string>, headers: seq<string>, delimiter: string, index: nat)
    ensures Items(lines, PickRow(headers, delimiter, true, Sparing(WholeRow)), index)
         == Items(lines, PickRow(headers, delimiter, true, Whole), index)
  {
    hide Trim, Parse, RowFrom, Items;
    forall line, i: nat
      ensures PickRow(headers, delimiter, true, Sparing(WholeRow))(line, i) == PickRow(headers, delimiter, true, Whole)(line, i)
    {
      RowPicked(headers, delimiter, line, i);
      WholePicked(headers, delimiter, line, i);
    }
    SameItems(lines, PickRow(headers, delimiter, true, Sparing(WholeRow)), PickRow(headers, delimiter, true, Whole), index);
  }

  lemma WholePicked(headers: seq<string>, delimiter: string, line: string, index: nat)
    ensures PickRow(headers, delimiter, true, Sparing(WholeRow))(line, index)
         == if Trim(line) == "" then None else Some(RowFrom(headers, Parse(line, delimiter), 0, map[]))
  {
    hide Trim, Parse, RowFrom;
    var row := RowFrom(headers, Parse(line, delimiter), 0, map[]);
    var sparing := Sparing(WholeRow);
    assert WholeRow(row, index) == Result.Ok(Some(row));
    assert sparing(row, index) == Some(row);
    assert PickRow(headers, delimiter, true, sparing)(line, index) == if Trim(line) == "" then None else sparing(row, index);
  }

  lemma {:induction false} SameItems(lines: seq<string>, a: (string, nat) -> Option<Row>, b: (string, nat) -> Option<Row>, index: nat)
    requires forall line, i: nat :: a(line, i) == b(line, i)
    ensures Items(lines, a, index) == Items(lines, b, index)
    decreases |lines| - index
  {
    if index < |lines| { SameItems(lines, a, b, index + 1); }
  }

  /**
   * The whole way: a writer driven through any writes, saves and reopenings and a reader driven over its file.
   * Unless a header was lost or repeated, the rows come back exactly under the conditions of the round trip.
   */
  method WriteThenRead(writer: CsvWriter, ops: seq<Op>, context: Json, reader: CsvReader<Row>, readContext: Json) returns (rows: seq<Row>)
    requires !writer.headerWritten && writer.file == "" && writer.writeHeader && SavedFlag(context, writer.key, false)
    requires forall i :: 0 <= i < |ops| && ops[i].Foreign? ==> ops[i].key != writer.key
    requires UsableDelimiter(writer.delimiter) && Distinct(writer.headers) && reader.delimiter == writer.delimiter
    requires reader.givenHeaders.None? && reader.hasHeader.None? && reader.skipBlankLines.None? && reader.mapRow == WholeRow
    requires ReadCheckpointNumber(readContext, reader.key, "index", 1) == 1
    modifies writer, reader
    ensures rows == ReadBack(writer.file, writer.delimiter)
    ensures !LosesHeader(ops, |ops|) && !RepeatsHeader(ops, |ops|) ==>
      var items := ItemsOf(ops, |ops|);
      rows == ProjectedAll(writer.headers, items) <==>
        || items == []
        || (&& BreakFree(writer.headers, items) && NoBlankRow(writer.headers, writer.delimiter, items)
            && !StartsWithBom(Line(writer.headers, writer.delimiter)))
  {
    hide *;
    var last := DriveWriter(writer, ops, context);
    rows := DriveReader(reader, writer.file, readContext);
    HeaderOnceIff(writer.headers, writer.delimiter, true, ops);
    FileRoundTripIff(writer.headers, writer.delimiter, ItemsOf(ops, |ops|));
  }
}

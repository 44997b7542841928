/**
 * The buffered, restartable database readers (packages/core/src/io/database.ts) against a plain
 * sequential reader.  A reader keeps the position of the last row it delivered, not of the last row
 * it fetched, so rows that were buffered but not delivered are fetched again after a restart.
 */
module DatabaseReaders {
  import opened Common
  import opened Checkpoint

  // ---------------------------------------------------------------- the sequential reader

  /**
   * What happens to a reader: reads, checkpoint saves, closes, reopening from the last saved context,
   * and writes of other components to the same context.
   */
  datatype Op = Read | Update | Close | Reopen | Foreign(key: string, state: map<string, Json>)

  /** A plain reader is a position in the rows and the position that was saved last. */
  datatype Plain = Plain(position: nat, saved: nat)

  function PlainStep<T>(rows: seq<T>, s: Plain, op: Op): Plain {
    match op
    case Read => if s.position < |rows| then s.(position := s.position + 1) else s
    case Update => s.(saved := s.position)
    case Reopen => s.(position := s.saved)
    case Close => s
    case Foreign(_, _) => s
  }

  function RowAt<T>(rows: seq<T>, position: nat): Option<T> {
    if position < |rows| then Some(rows[position]) else None
  }

  /** The answers to the reads, in order. */
  function Sequential<T>(rows: seq<T>, s: Plain, ops: seq<Op>): seq<Option<T>>
    decreases |ops|
  {
    if ops == [] then []
    else (if ops[0].Read? then [RowAt(rows, s.position)] else []) + Sequential(rows, PlainStep(rows, s, ops[0]), ops[1..])
  }

  function PlainEnd<T>(rows: seq<T>, s: Plain, ops: seq<Op>): Plain
    decreases |ops|
  {
    if ops == [] then s else PlainEnd(rows, PlainStep(rows, s, ops[0]), ops[1..])
  }

  lemma OneOperation<T>(rows: seq<T>, s: Plain, ops: seq<Op>, i: nat)
    requires i < |ops|
    ensures Sequential(rows, s, ops[i..])
         == (if ops[i].Read? then [RowAt(rows, s.position)] else []) + Sequential(rows, PlainStep(rows, s, ops[i]), ops[i + 1..])
    ensures PlainEnd(rows, s, ops[i..]) == PlainEnd(rows, PlainStep(rows, s, ops[i]), ops[i + 1..])
  {
    hide RowAt, PlainStep;
    assert ops[i..][0] == ops[i] && ops[i..][1..] == ops[i + 1..];
  }

  lemma AllOperations<T>(rows: seq<T>, s: Plain, ops: seq<Op>)
    ensures ops[0..] == ops && Sequential(rows, s, ops[|ops|..]) == [] && PlainEnd(rows, s, ops[|ops|..]) == s
  {
  }

  /** Other components write under keys of their own. */
  predicate KeysApart(key: string, ops: seq<Op>) {
    forall i :: 0 <= i < |ops| && ops[i].Foreign? ==> ops[i].key != key
  }

  /** Without a reopening the k-th read gives the k-th row from the start on, then null for ever. */
  lemma {:induction false} UninterruptedReads<T>(rows: seq<T>, s: Plain, ops: seq<Op>, k: nat)
    requires s.position <= |rows| && Reopen !in ops
    requires k < |Sequential(rows, s, ops)|
    ensures Sequential(rows, s, ops)[k] == RowAt(rows, s.position + k)
    decreases |ops|
  {
    var s' := PlainStep(rows, s, ops[0]);
    if !ops[0].Read? {
      UninterruptedReads(rows, s', ops[1..], k);
    } else if k > 0 {
      UninterruptedReads(rows, s', ops[1..], k - 1);
    }
  }

  /** The rows delivered and kept: a reopening takes back the rows delivered after the last save. */
  ghost function Kept<T>(rows: seq<T>, s: Plain, ops: seq<Op>, log: seq<T>, mark: nat): seq<T>
    requires mark <= |log|
    decreases |ops|
  {
    if ops == [] then log else
    var s' := PlainStep(rows, s, ops[0]);
    match ops[0]
    case Read => Kept(rows, s', ops[1..], if s.position < |rows| then log + [rows[s.position]] else log, mark)
    case Update => Kept(rows, s', ops[1..], log, |log|)
    case Reopen => Kept(rows, s', ops[1..], log[..mark], mark)
    case _ => Kept(rows, s', ops[1..], log, mark)
  }

  /**
   * No row is lost or doubled by restarts: whatever is saved, closed and reopened in between, the rows
   * kept are a gapless stretch of the table from the beginning up to the current position.
   */
  lemma {:induction false} KeptIsPrefix<T>(rows: seq<T>, s: Plain, ops: seq<Op>)
    requires s.saved <= s.position <= |rows|
    ensures PlainEnd(rows, s, ops).position <= |rows|
    ensures Kept(rows, s, ops, rows[..s.position], s.saved) == rows[..PlainEnd(rows, s, ops).position]
    decreases |ops|
  {
    if ops != [] {
      var s' := PlainStep(rows, s, ops[0]);
      KeptIsPrefix(rows, s', ops[1..]);
      assert s.position < |rows| ==> rows[..s.position] + [rows[s.position]] == rows[..s.position + 1];
      assert rows[..s.position][..s.saved] == rows[..s.saved];
    }
  }

  // ---------------------------------------------------------------- by offset

  /** A page is nonempty while rows remain and continues without a gap; its length may vary. */
  ghost predicate Pages<T>(rows: seq<T>, fetchPage: (nat, int, int) -> seq<T>, limit: int) {
    forall call: nat, offset: nat :: Continues(rows, offset, fetchPage(call, offset, limit))
  }

  predicate Continues<T(==)>(rows: seq<T>, position: nat, page: seq<T>) {
    if position < |rows| then page != [] && page <= rows[position..] else page == []
  }

  /** The next row of the buffer is the next row of the table. */
  lemma BufferedRow<T>(rows: seq<T>, position: nat, buffer: seq<T>, i: nat)
    requires position <= |rows| && i < |buffer| && buffer[i..] <= rows[position..]
    ensures position < |rows| && buffer[i] == rows[position] && buffer[i + 1..] <= rows[position + 1..]
  {
    assert buffer[i] == buffer[i..][0] == rows[position..][0];
    assert buffer[i..][1..] == buffer[i + 1..] && rows[position..][1..] == rows[position + 1..];
  }

  class PagingReader<T(==)> {
    const fetchPage: (nat, int, int) -> seq<T>
    const pageSize: int
    const key: string
    var offset: int
    var buffer: seq<T>
    var bufferIndex: nat
    var calls: nat // numbers the fetches, so that equal offsets may bring different pages
    ghost const rows: seq<T>
    ghost var astray: bool // opened at a negative offset, about which a page source promises nothing

    /** What is left of the buffer is what comes next in the table; closing keeps this. */
    ghost predicate Valid()
      reads this
    {
      && Pages(rows, fetchPage, pageSize)
      && (!astray ==>
            && 0 <= offset
            && (bufferIndex < |buffer| ==> offset <= |rows| && buffer[bufferIndex..] <= rows[offset..]))
    }

    constructor (fetchPage: (nat, int, int) -> seq<T>, pageSize: int, key: Option<string>, ghost rows: seq<T>)
      requires Pages(rows, fetchPage, pageSize)
      ensures Valid() && offset == 0 && !astray && this.rows == rows
      ensures this.key == (if key.Some? then key.value else "database-paging-reader")
    {
      this.fetchPage, this.pageSize, this.rows := fetchPage, pageSize, rows;
      this.key := if key.Some? then key.value else "database-paging-reader";
      offset, buffer, bufferIndex, calls := 0, [], 0, 0;
      astray := false;
    }

    method Open(context: Json)
      requires Valid()
      modifies this
      ensures Valid() && offset == ReadCheckpointNumber(context, key, "offset", 0)
      ensures astray <==> offset < 0
    {
      offset := ReadCheckpointNumber(context, key, "offset", 0);
      buffer, bufferIndex := [], 0;
      astray := offset < 0;
    }

    method Read() returns (item: Option<T>)
      requires Valid()
      modifies this
      ensures Valid() && astray == old(astray)
      ensures !astray ==> item == RowAt(rows, old(offset))
      ensures !astray ==> offset == old(offset) + (if old(offset) < |rows| then 1 else 0)
    {
      if bufferIndex >= |buffer| {
        buffer := fetchPage(calls, offset, pageSize);
        assert 0 <= offset ==> Continues(rows, offset, buffer);
        calls, bufferIndex := calls + 1, 0;
        if |buffer| == 0 {
          return None;
        }
      }
      if !astray { BufferedRow(rows, offset, buffer, bufferIndex); }
      item := Some(buffer[bufferIndex]);
      bufferIndex, offset := bufferIndex + 1, offset + 1;
    }

    method Update(context: Json) returns (saved: Json)
      ensures saved == WriteCheckpoint(context, key, map["offset" := JNumber(offset)])
    {
      saved := WriteCheckpoint(context, key, map["offset" := JNumber(offset)]);
    }

    /** The index is not reset: it lies beyond the empty buffer until the next fetch. */
    method Close()
      requires Valid()
      modifies this
      ensures Valid() && offset == old(offset) && astray == old(astray)
    {
      buffer := [];
    }
  }

  lemma SavedStateRead(context: Json, key: string)
    ensures forall n :: ReadCheckpointNumber(WriteCheckpoint(context, key, map["offset" := JNumber(n)]), key, "offset", 0) == n
    ensures forall c, initial :: ReadCheckpointValue(WriteCheckpoint(context, key, map["cursor" := c]), key, "cursor", initial) == c
  {
  }

  lemma ForeignStateKept(context: Json, key: string, other: string, state: map<string, Json>)
    requires other != key
    ensures var written := WriteCheckpoint(context, other, state);
      && ReadCheckpointNumber(written, key, "offset", 0) == ReadCheckpointNumber(context, key, "offset", 0)
      && forall initial :: ReadCheckpointValue(written, key, "cursor", initial) == ReadCheckpointValue(context, key, "cursor", initial)
  {
    WriteFramesOtherKeys(context, other, state, key);
  }

  /**
   * Any interleaving of reads, saves, closes, reopenings and foreign writes gives the answers of the
   * plain reader, and leaves the reader and the context where the plain reader is.
   */
  method DrivePaging<T>(reader: PagingReader<T>, ops: seq<Op>, context: Json, ghost start: Plain)
    returns (answers: seq<Option<T>>, last: Json)
    requires reader.Valid() && !reader.astray && reader.offset == start.position
    requires ReadCheckpointNumber(context, reader.key, "offset", 0) == start.saved
    requires KeysApart(reader.key, ops)
    modifies reader
    ensures reader.Valid() && !reader.astray && answers == Sequential(reader.rows, start, ops)
    ensures reader.offset == PlainEnd(reader.rows, start, ops).position
    ensures ReadCheckpointNumber(last, reader.key, "offset", 0) == PlainEnd(reader.rows, start, ops).saved
  {
    hide ReadCheckpointNumber, ReadCheckpointValue, WriteCheckpoint, CursorAt, RowAt, Sequential, PlainEnd;
    AllOperations(reader.rows, start, ops);
    answers, last := [], context;
    ghost var s := start;
    for i := 0 to |ops|
      invariant reader.Valid() && !reader.astray && reader.offset == s.position
      invariant ReadCheckpointNumber(last, reader.key, "offset", 0) == s.saved
      invariant answers + Sequential(reader.rows, s, ops[i..]) == Sequential(reader.rows, start, ops)
      invariant PlainEnd(reader.rows, s, ops[i..]) == PlainEnd(reader.rows, start, ops)
    {
      OneOperation(reader.rows, s, ops, i);
      match ops[i] {
        case Read =>
          var item := reader.Read();
          answers := answers + [item];
        case Update =>
          SavedStateRead(last, reader.key);
          last := reader.Update(last);
        case Close =>
          reader.Close();
        case Reopen =>
          reader.Open(last);
        case Foreign(key, state) =>
          ForeignStateKept(last, reader.key, key, state);
          last := WriteCheckpoint(last, key, state);
      }
      s := PlainStep(reader.rows, s, ops[i]);
    }
    AllOperations(reader.rows, s, ops);
  }

  // ---------------------------------------------------------------- by cursor

  /** The cursor a reader holds after delivering the first `position` rows. */
  function CursorAt<T>(rows: seq<T>, getCursor: T -> Json, initial: Json, position: nat): Json
    requires position <= |rows|
  {
    if position == 0 then initial else getCursor(rows[position - 1])
  }

  /** After every cursor of the table, and after the initial one, comes the rest of the rows. */
  ghost predicate Follows<T>(rows: seq<T>, getCursor: T -> Json, initial: Json,
                             fetchAfter: (nat, Json, int) -> seq<T>, limit: int)
  {
    forall call: nat, position: nat | position <= |rows| ::
      Continues(rows, position, fetchAfter(call, CursorAt(rows, getCursor, initial, position), limit))
  }

  class CursorReader<T(==)> {
    const fetchAfter: (nat, Json, int) -> seq<T>
    const getCursor: T -> Json
    const initial: Json
    const pageSize: int
    const key: string
    var cursor: Json
    var buffer: seq<T>
    var bufferIndex: nat
    var calls: nat
    ghost const rows: seq<T>
    ghost var position: nat

    ghost predicate Valid()
      reads this
    {
      && Follows(rows, getCursor, initial, fetchAfter, pageSize)
      && position <= |rows|
      && cursor == CursorAt(rows, getCursor, initial, position)
      && (bufferIndex < |buffer| ==> buffer[bufferIndex..] <= rows[position..])
    }

    /** Before the first open the cursor is null, so a reader is used only after it was opened. */
    constructor (fetchAfter: (nat, Json, int) -> seq<T>, getCursor: T -> Json, initialCursor: Option<Json>,
                 pageSize: int, key: Option<string>, ghost rows: seq<T>)
      ensures this.rows == rows && this.fetchAfter == fetchAfter && this.getCursor == getCursor && this.pageSize == pageSize
      ensures this.initial == (if initialCursor.Some? then initialCursor.value else JNull)
      ensures this.key == (if key.Some? then key.value else "database-cursor-reader")
      ensures cursor == JNull && buffer == []
    {
      this.fetchAfter, this.getCursor, this.pageSize, this.rows := fetchAfter, getCursor, pageSize, rows;
      this.initial := if initialCursor.Some? then initialCursor.value else JNull;
      this.key := if key.Some? then key.value else "database-cursor-reader";
      cursor, buffer, bufferIndex, calls := JNull, [], 0, 0;
      position := 0;
    }

    method Open(context: Json, ghost at: nat)
      requires Follows(rows, getCursor, initial, fetchAfter, pageSize)
      requires at <= |rows| && ReadCheckpointValue(context, key, "cursor", initial) == CursorAt(rows, getCursor, initial, at)
      modifies this
      ensures Valid() && position == at
    {
      cursor := ReadCheckpointValue(context, key, "cursor", initial);
      buffer, bufferIndex := [], 0;
      position := at;
    }

    method Read() returns (item: Option<T>)
      requires Valid()
      modifies this
      ensures Valid() && item == RowAt(rows, old(position))
      ensures position == old(position) + (if old(position) < |rows| then 1 else 0)
    {
      if bufferIndex >= |buffer| {
        buffer := fetchAfter(calls, cursor, pageSize);
        assert Continues(rows, position, buffer);
        calls, bufferIndex := calls + 1, 0;
        if |buffer| == 0 {
          return None;
        }
      }
      BufferedRow(rows, position, buffer, bufferIndex);
      item := Some(buffer[bufferIndex]);
      cursor := getCursor(buffer[bufferIndex]);
      bufferIndex, position := bufferIndex + 1, position + 1;
    }

    method Update(context: Json) returns (saved: Json)
      ensures saved == WriteCheckpoint(context, key, map["cursor" := cursor])
    {
      saved := WriteCheckpoint(context, key, map["cursor" := cursor]);
    }

    method Close()
      requires Valid()
      modifies this
      ensures Valid() && position == old(position)
    {
      buffer := [];
    }
  }

  method DriveCursor<T>(reader: CursorReader<T>, ops: seq<Op>, context: Json, ghost start: Plain)
    returns (answers: seq<Option<T>>, last: Json)
    requires reader.Valid() && reader.position == start.position && start.saved <= |reader.rows|
    requires ReadCheckpointValue(context, reader.key, "cursor", reader.initial)
          == CursorAt(reader.rows, reader.getCursor, reader.initial, start.saved)
    requires KeysApart(reader.key, ops)
    modifies reader
    ensures reader.Valid() && answers == Sequential(reader.rows, start, ops)
    ensures reader.position == PlainEnd(reader.rows, start, ops).position
    ensures PlainEnd(reader.rows, start, ops).saved <= |reader.rows|
    ensures ReadCheckpointValue(last, reader.key, "cursor", reader.initial)
         == CursorAt(reader.rows, reader.getCursor, reader.initial, PlainEnd(reader.rows, start, ops).saved)
  {
    hide ReadCheckpointNumber, ReadCheckpointValue, WriteCheckpoint, CursorAt, RowAt, Sequential, PlainEnd;
    AllOperations(reader.rows, start, ops);
    answers, last := [], context;
    ghost var s := start;
    for i := 0 to |ops|
      invariant reader.Valid() && reader.position == s.position && s.saved <= |reader.rows|
      invariant ReadCheckpointValue(last, reader.key, "cursor", reader.initial)
             == CursorAt(reader.rows, reader.getCursor, reader.initial, s.saved)
      invariant answers + Sequential(reader.rows, s, ops[i..]) == Sequential(reader.rows, start, ops)
      invariant PlainEnd(reader.rows, s, ops[i..]) == PlainEnd(reader.rows, start, ops)
    {
      OneOperation(reader.rows, s, ops, i);
      match ops[i] {
        case Read =>
          var item := reader.Read();
          answers := answers + [item];
        case Update =>
          SavedStateRead(last, reader.key);
          last := reader.Update(last);
        case Close =>
          reader.Close();
        case Reopen =>
          reader.Open(last, s.saved);
        case Foreign(key, state) =>
          ForeignStateKept(last, reader.key, key, state);
          last := WriteCheckpoint(last, key, state);
      }
      s := PlainStep(reader.rows, s, ops[i]);
    }
    AllOperations(reader.rows, s, ops);
  }

  // ---------------------------------------------------------------- tables in cursor order

  /** The number of rows whose cursor is not after c; they are the first ones when cursors increase. */
  ghost function NotAfter(cursors: seq<int>, c: int): nat {
    if cursors != [] && cursors[0] <= c then 1 + NotAfter(cursors[1..], c) else 0
  }

  ghost predicate Increasing(cursors: seq<int>) {
    forall i, j :: 0 <= i < j < |cursors| ==> cursors[i] < cursors[j]
  }

  lemma {:induction false} RowsAfter(cursors: seq<int>, c: int, k: nat)
    requires Increasing(cursors) && k <= |cursors|
    requires k > 0 ==> cursors[k - 1] <= c
    requires k < |cursors| ==> c < cursors[k]
    ensures NotAfter(cursors, c) == k
  {
    if k > 0 { RowsAfter(cursors[1..], c, k - 1); }
  }

  /**
   * The cursor reader meets its table when numeric cursors increase strictly, a query for the rows after
   * c gives a nonempty first part of them while there are any, and the initial cursor, null or a number,
   * gives the first rows.
   */
  lemma OrderedTableFollows<T>(rows: seq<T>, getCursor: T -> Json, initial: Json,
                               fetchAfter: (nat, Json, int) -> seq<T>, limit: int, cursors: seq<int>)
    requires |cursors| == |rows| && Increasing(cursors)
    requires forall i :: 0 <= i < |rows| ==> getCursor(rows[i]) == JNumber(cursors[i])
    requires forall call: nat, c: int :: Continues(rows, NotAfter(cursors, c), fetchAfter(call, JNumber(c), limit))
    requires forall call: nat :: Continues(rows, 0, fetchAfter(call, initial, limit))
    ensures Follows(rows, getCursor, initial, fetchAfter, limit)
  {
    forall call: nat, position: nat | position <= |rows|
      ensures Continues(rows, position, fetchAfter(call, CursorAt(rows, getCursor, initial, position), limit))
    {
      if position > 0 { RowsAfter(cursors, cursors[position - 1], position); }
    }
  }
}

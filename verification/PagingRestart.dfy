/**
 * The paging reader (packages/core/src/io/database.ts:10-46) as the stream reader of a step that is restarted:
 * the reader of the restart model is the plain reader that the paging reader refines, and a paging reader
 * opened from the row of the last run goes on at the first chunk not yet checkpointed.
 */
module PagingRestart {
  import opened Common
  import opened Checkpoint
  import opened Environment
  import opened ChunkStep
  import opened Restart
  import D = DatabaseReaders

  /**
   * The environment's reader is the plain reader over the rows it delivers: it answers with the row at the
   * plain reader's position, moves with it, saves that position under its key and reopens at the saved one.
   */
  lemma ModelIsPlainReader(env: Env, rows: seq<Item>, s: D.Plain, key: string, context: Json)
    requires Delivers(env.source, rows) && env.position == s.position
    requires ReadCheckpointNumber(context, key, "offset", 0) == s.saved
    ensures ReaderReply(env) == (if D.RowAt(rows, s.position).Some? then Gives(D.RowAt(rows, s.position).value) else EndOfInput)
    ensures AdvanceReader(env).position == D.PlainStep(rows, s, D.Read).position
    ensures var updated := UpdateStream(env, ReaderStream(key), context);
      && updated.env.position == D.PlainStep(rows, s, D.Update).position
      && (updated.result.Ok? ==> ReadCheckpointNumber(updated.result.value, key, "offset", 0) == D.PlainStep(rows, s, D.Update).saved)
    ensures var reopened := OpenStream(env, ReaderStream(key), context);
      reopened.result.Ok? ==> reopened.env.position == D.PlainStep(rows, s, D.Reopen).position
  {
    D.SavedStateRead(context, key);
  }

  /** Where the rows of the first chunk not yet checkpointed begin. */
  ghost function FirstUnsaved(config: StepConfig, items: seq<Item>, runs: seq<StepRun>): nat
    requires config.chunkSize > 0
  {
    Boundary(items, config.chunkSize, AllSaves(Logs(runs)))
  }

  /**
   * However often the step failed and was restarted, a paging reader over its rows, opened from the row of the
   * last run, answers as the plain reader that stands at the first chunk not yet checkpointed, whatever is read,
   * saved, closed and reopened afterwards; its k-th row, without another reopening, is the k-th from there on.
   */
  method ReopenAfterRestarts(reader: D.PagingReader<Item>, ops: seq<D.Op>, context: Json, ghost config: StepConfig,
                             ghost processor: Option<Processor>, ghost scripts: seq<seq<Reply>>)
    returns (answers: seq<Option<Item>>, last: Json)
    requires reader.Valid() && Restartable(config) && config.readerKey == Some(reader.key)
    requires context == RowLeft(Restarts(config, reader.rows, processor, scripts, JNull), JNull)
    requires D.KeysApart(reader.key, ops)
    modifies reader
    ensures var start := FirstUnsaved(config, reader.rows, Restarts(config, reader.rows, processor, scripts, JNull));
      && answers == D.Sequential(reader.rows, D.Plain(start, start), ops)
      && (D.Reopen !in ops ==> forall k :: 0 <= k < |answers| ==> answers[k] == D.RowAt(reader.rows, start + k))
  {
    hide Restarts, RowLeft, FirstUnsaved, D.RowAt, D.Sequential, D.PlainEnd, D.KeysApart, ReadCheckpointNumber, DistinctKeys;
    ghost var runs := Restarts(config, reader.rows, processor, scripts, JNull);
    ghost var start := FirstUnsaved(config, reader.rows, runs);
    PositionLeft(config, reader.rows, processor, scripts);
    reader.Open(context);
    answers, last := D.DrivePaging(reader, ops, context, D.Plain(start, start));
    if D.Reopen !in ops {
      forall k | 0 <= k < |answers| ensures answers[k] == D.RowAt(reader.rows, start + k) {
        D.UninterruptedReads(reader.rows, D.Plain(start, start), ops, k);
      }
    }
  }

  /** The position in the row of the last run is the start of the first chunk not yet checkpointed. */
  lemma PositionLeft(config: StepConfig, items: seq<Item>, processor: Option<Processor>, scripts: seq<seq<Reply>>)
    requires Restartable(config) && config.readerKey.Some?
    ensures var runs := Restarts(config, items, processor, scripts, JNull);
      && ReadCheckpointNumber(RowLeft(runs, JNull), config.readerKey.value, "offset", 0) == FirstUnsaved(config, items, runs)
      && FirstUnsaved(config, items, runs) <= |items|
  {
    hide *;
    var f := AllSaves(Logs(Restarts(config, items, processor, scripts, JNull)));
    FreshRow(config, items);
    RowPosition(config, items, 0, JNull);
    RestartsLeave(config, items, processor, scripts, JNull, 0);
    RowPosition(config, items, f, RowLeft(Restarts(config, items, processor, scripts, JNull), JNull));
    FirstUnsavedIs(config, items, Restarts(config, items, processor, scripts, JNull));
  }

  lemma RowPosition(config: StepConfig, items: seq<Item>, f: nat, context: Json)
    requires RowAt(config, items, f, context) && config.readerKey.Some?
    ensures config.chunkSize > 0
    ensures ReadCheckpointNumber(context, config.readerKey.value, "offset", 0) == Boundary(items, config.chunkSize, f) <= |items|
  {
    hide ReadCheckpointNumber;
  }

  lemma FirstUnsavedIs(config: StepConfig, items: seq<Item>, runs: seq<StepRun>)
    requires config.chunkSize > 0
    ensures FirstUnsaved(config, items, runs) == Boundary(items, config.chunkSize, AllSaves(Logs(runs)))
  {
  }
}

/**
 * The step-scoped execution context and the framing of independent checkpoint keys inside it
 * (packages/core/src/io/checkpoint.ts, and the two helpers of the executors that read and write
 * the chunk index).  Numbers in a context are positions and indices, so they are integers here;
 * NaN and the infinities are one non-finite value.
 */
module Checkpoint {
  import opened Common

  datatype Json =
    | JNull
    | JBool(b: bool)
    | JNumber(n: int)
    | JNonFinite
    | JString(s: string)
    | JArray(elements: seq<Json>)
    | JObject(fields: map<string, Json>)

  const LAST_CHUNK_INDEX := "lastChunkIndex"

  /** Anything that is not a plain record reads as the empty record. */
  function AsJsonRecord(value: Option<Json>): map<string, Json> {
    match value
    case Some(JObject(fields)) => fields
    case _ => map[]
  }

  function ReadCheckpoint(context: Json, key: string): map<string, Json> {
    AsJsonRecord(Lookup(AsJsonRecord(Some(context)), key))
  }

  function ReadCheckpointNumber(context: Json, key: string, field: string, fallback: int): int {
    match Lookup<Json>(ReadCheckpoint(context, key), field)
    case Some(JNumber(n)) => n
    case _ => fallback
  }

  function ReadCheckpointValue(context: Json, key: string, field: string, fallback: Json): Json {
    match Lookup<Json>(ReadCheckpoint(context, key), field)
    case Some(value) => value
    case None => fallback
  }

  /** writeCheckpoint assigns `context.data` in place; the new data is the result here. */
  function WriteCheckpoint(context: Json, key: string, state: map<string, Json>): Json {
    JObject(AsJsonRecord(Some(context))[key := JObject(state)])
  }

  /** The chunk executor's own checkpoint, next to whatever the streams keep. */
  function WithLastChunkIndex(context: Json, chunkIndex: int): Json {
    match context
    case JObject(fields) => JObject(fields[LAST_CHUNK_INDEX := JNumber(chunkIndex)])
    case _ => JObject(map[LAST_CHUNK_INDEX := JNumber(chunkIndex)])
  }

  /** What a restart reads back; a missing, non-numeric or non-finite entry is no checkpoint. */
  function ReadLastCheckpoint(context: Json): Option<int> {
    match context
    case JObject(fields) =>
      if LAST_CHUNK_INDEX in fields && fields[LAST_CHUNK_INDEX].JNumber?
      then Some(fields[LAST_CHUNK_INDEX].n)
      else None
    case _ => None
  }

  /** A restart finds the chunk index exactly as a number in the record of the context, and nothing else. */
  lemma LastCheckpointIff(context: Json, n: int)
    ensures ReadLastCheckpoint(context) == Some(n)
       <==> context.JObject? && "lastChunkIndex" in context.fields && context.fields["lastChunkIndex"] == JNumber(n)
    ensures ReadLastCheckpoint(WithLastChunkIndex(context, n)) == Some(n)
  {
  }

  /** The number a context holds in a field of the record under a key. */
  ghost predicate HoldsNumber(context: Json, key: string, field: string, n: int) {
    && context.JObject? && key in context.fields && context.fields[key].JObject?
    && field in context.fields[key].fields && context.fields[key].fields[field] == JNumber(n)
  }

  /** A component reads the number it finds, and its fallback for anything else. */
  lemma NumberReadIff(context: Json, key: string, field: string, fallback: int, n: int)
    ensures ReadCheckpointNumber(context, key, field, fallback) == n
       <==> HoldsNumber(context, key, field, n) || (n == fallback && forall m :: !HoldsNumber(context, key, field, m))
  {
    if forall m :: !HoldsNumber(context, key, field, m) {
      assert !HoldsNumber(context, key, field, ReadCheckpointNumber(context, key, field, fallback));
    }
  }

  /** A component reads back exactly the state it wrote, whatever the context held before. */
  lemma ReadAfterWrite(context: Json, key: string, state: map<string, Json>)
    ensures ReadCheckpoint(WriteCheckpoint(context, key, state), key) == state
  {
  }

  /** A write under one key is invisible under every other key and to the chunk index. */
  lemma WriteFramesOtherKeys(context: Json, key: string, state: map<string, Json>, other: string)
    requires other != key
    ensures ReadCheckpoint(WriteCheckpoint(context, key, state), other) == ReadCheckpoint(context, other)
    ensures key != LAST_CHUNK_INDEX ==>
      ReadLastCheckpoint(WriteCheckpoint(context, key, state)) == ReadLastCheckpoint(context)
  {
  }

  /** Recording the chunk index is read back by a restart and disturbs no component's state. */
  lemma ChunkIndexFramesStreams(context: Json, chunkIndex: int, key: string)
    requires key != LAST_CHUNK_INDEX
    ensures ReadLastCheckpoint(WithLastChunkIndex(context, chunkIndex)) == Some(chunkIndex)
    ensures ReadCheckpoint(WithLastChunkIndex(context, chunkIndex), key) == ReadCheckpoint(context, key)
  {
  }

  /**
   * The key of a component must differ from the executor's own: the streams update after the chunk
   * index is recorded, so a component that checkpoints under that key erases it.  The checkpoint
   * survives a component's update exactly when the keys differ.
   */
  lemma ChunkIndexSurvivesIff(context: Json, chunkIndex: int, key: string, state: map<string, Json>)
    ensures ReadLastCheckpoint(WriteCheckpoint(WithLastChunkIndex(context, chunkIndex), key, state)) == Some(chunkIndex)
       <==> key != LAST_CHUNK_INDEX
  {
  }
}

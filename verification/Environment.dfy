/**
 * Everything outside the chunk executor: reader, processor, writer, streams, listeners, repository.
 *
 * A run is a function of two finite lists of replies, one for the reader and one for every other
 * external call in call order; past its end a list answers "end of input" and "returned nothing".
 * Every terminating run against any components whatever makes finitely many calls, so it is the run
 * of some pair of lists, and every prefix of a run is the run of a pair whose next reply is an error.
 *
 * The environment also keeps its own books (`tally`, `trace`, `log`), which the executor never reads:
 * they are what the counters and the checkpoints of the executor are compared with.
 */
module Environment {
  import opened Common
  import opened Checkpoint

  datatype Error =
    | AppError(code: int)
    | SkipLimitExceeded(limit: int)
    | RetryLimitExceeded(limit: int)
    | AttemptsExhausted
    | InvalidSkipLimit
    | InvalidRetryLimit
    | InvalidPartition

  /** Items and processor outputs are opaque payloads. */
  type Item = int

  datatype ReadReply = Gives(item: Item) | EndOfInput | ReadFails(error: Error)

  datatype Reply =
    | Nothing
    | Yields(output: Item)
    | Reports(written: nat, skipped: nat)
    | Fails(error: Error)

  /** One operation under skip and retry; `chunk` and `items` only label the write in the log. */
  datatype Operation =
    | Read
    | Process(item: Item)
    | Write(chunk: int, items: seq<Item>, outputs: seq<Item>)

  datatype Value = NoValue | ItemValue(item: Item) | Report(written: nat, skipped: nat)

  /** What the components saw: one number per kind of event. */
  datatype Tally = Tally(
    delivered: nat,         // items returned by reads of the read phase
    drained: nat,           // items returned by reads of the restart drain
    filtered: nat,          // process calls that returned nothing
    handed: nat,            // outputs inside committed writes
    voidOutputs: nat,       // those of them whose writer returned nothing
    reports: nat,           // committed writes whose writer returned a report, and the sums reported
    reportedWritten: nat,
    reportedSkipped: nat,
    readSkips: nat,         // on-skip notifications, by phase
    processSkips: nat,
    writeSkips: nat,
    writeSkippedItems: nat, // outputs inside skipped writes
    saves: nat)             // checkpoints persisted

  /** What else was called: listeners told, other calls made, null reads of read phases, streams opened and closed, and the errors of closes. */
  datatype Contacts = Contacts(told: nat, served: nat, nulls: nat, openings: nat, closings: nat, stuck: seq<Error>)

  /**
   * How the operations went: calls made, errors thrown, listener failures, time slept, ends of input met; and the
   * errors that everything else threw, listeners included, in order.
   */
  datatype Trace = Trace(
    calls: nat, errors: seq<Error>, listenerFailures: nat, slept: real, ends: nat, thrown: seq<Error>, contacts: Contacts)

  datatype Event = Wrote(chunk: int, items: seq<Item>, outputs: seq<Item>) | Saved(chunk: int)

  /** A processor that is a function of the item: what it makes of it, or nothing. */
  type Processor = Item -> Option<Item>

  /** With a `processor` only the failures of process calls are scripted; without one their outputs are, too. */
  datatype Env = Env(
    source: seq<ReadReply>, position: nat, processor: Option<Processor>,
    script: seq<Reply>, next: nat,
    context: Json,
    tally: Tally, trace: Trace, log: seq<Event>)

  const NO_TALLY := Tally(0, 0, 0, 0, 0, 0, 0, 0, 0, 0, 0, 0, 0)
  const NO_TRACE := Trace(0, [], 0, 0.0, 0, [], Contacts(0, 0, 0, 0, 0, []))

  /** The environment of a new step execution whose context row holds `context`. */
  function Start(source: seq<ReadReply>, processor: Option<Processor>, script: seq<Reply>, context: Json): Env {
    Env(source, 0, processor, script, 0, context, NO_TALLY, NO_TRACE, [])
  }

  datatype Answer<+T> = Answer(env: Env, result: Result<T, Error>)

  function NextReply(env: Env): Reply {
    if env.next < |env.script| then env.script[env.next] else Nothing
  }

  function Advance(env: Env): Env {
    env.(next := env.next + 1)
  }

  /** The errors that calls other than the operations threw, and this one's if it threw. */
  function Throwing(trace: Trace, error: Option<Error>): Trace {
    if error.Some? then trace.(thrown := trace.thrown + [error.value]) else trace
  }

  /** One call more that is no operation and no listener. */
  function Served(env: Env, error: Option<Error>): Env {
    var trace := Throwing(env.trace, error);
    Advance(env).(trace := trace.(contacts := trace.contacts.(served := trace.contacts.served + 1)))
  }

  /** One listener more has been told. */
  function Heard(env: Env, error: Option<Error>): Env {
    var trace := Throwing(env.trace, error);
    Advance(env).(trace := trace.(listenerFailures := trace.listenerFailures + (if error.Some? then 1 else 0),
                                  contacts := trace.contacts.(told := trace.contacts.told + 1)))
  }

  /** A call whose value the executor ignores: opening, closing, resolving, committing. */
  function Call(env: Env): Answer<()> {
    match NextReply(env)
    case Fails(error) => Answer(Served(env, Some(error)), Thrown(error))
    case _ => Answer(Served(env, None), Ok(()))
  }

  /** A listener invocation; a critical listener's error propagates. */
  function Listen(env: Env): Answer<()> {
    match NextReply(env)
    case Fails(error) => Answer(Heard(env, Some(error)), Thrown(error))
    case _ => Answer(Heard(env, None), Ok(()))
  }

  function ReaderReply(env: Env): ReadReply {
    if env.position < |env.source| then env.source[env.position] else EndOfInput
  }

  function AdvanceReader(env: Env): Env {
    if env.position < |env.source| then env.(position := env.position + 1) else env
  }

  function MeetEnd(env: Env): Env {
    env.(trace := env.trace.(ends := env.trace.ends + 1))
  }

  function MeetNull(env: Env): Env {
    var met := MeetEnd(env);
    met.(trace := met.trace.(contacts := met.trace.contacts.(nulls := met.trace.contacts.nulls + 1)))
  }

  /** The reader called directly, as the restart drain does; None is its null. */
  function DrainOne(env: Env): Answer<Option<Item>> {
    match ReaderReply(env)
    case Gives(item) =>
      Answer(AdvanceReader(env).(tally := env.tally.(drained := env.tally.drained + 1)), Ok(Some(item)))
    case EndOfInput => Answer(MeetEnd(AdvanceReader(env)), Ok(None))
    case ReadFails(error) => Answer(AdvanceReader(env).(trace := Throwing(env.trace, Some(error))), Thrown(error))
  }

  /** What a successful operation that returned `value` adds to the books. */
  function Succeeded(t: Tally, op: Operation, value: Value): Tally {
    match op
    case Read => if value.ItemValue? then t.(delivered := t.delivered + 1) else t
    case Process(_) => if value.NoValue? then t.(filtered := t.filtered + 1) else t
    case Write(_, _, outputs) =>
      var t' := t.(handed := t.handed + |outputs|);
      if value.Report?
      then t'.(reports := t.reports + 1, reportedWritten := t.reportedWritten + value.written, reportedSkipped := t.reportedSkipped + value.skipped)
      else t'.(voidOutputs := t.voidOutputs + |outputs|)
  }

  /** What an on-skip notification adds to the books. */
  function SkipNoted(t: Tally, op: Operation): Tally {
    match op
    case Read => t.(readSkips := t.readSkips + 1)
    case Process(_) => t.(processSkips := t.processSkips + 1)
    case Write(_, _, outputs) =>
      t.(writeSkips := t.writeSkips + 1, writeSkippedItems := t.writeSkippedItems + |outputs|)
  }

  function OpFailed(env: Env, error: Error): Answer<Value> {
    Answer(env.(trace := env.trace.(calls := env.trace.calls + 1, errors := env.trace.errors + [error])), Thrown(error))
  }

  function OpReturned(env: Env, op: Operation, value: Value): Answer<Value> {
    Answer(
      env.(trace := env.trace.(calls := env.trace.calls + 1),
           tally := Succeeded(env.tally, op, value),
           log := if op.Write? then env.log + [Wrote(op.chunk, op.items, op.outputs)] else env.log),
      Ok(value))
  }

  function OutputValue(output: Option<Item>): Value {
    if output.Some? then ItemValue(output.value) else NoValue
  }

  function Processed(env: Env, item: Item, reply: Reply): (value: Value)
    ensures !value.Report?
  {
    var output := if env.processor.Some? then env.processor.value(item)
                  else if reply.Yields? then Some(reply.output) else None;
    OutputValue(output)
  }

  /** One invocation of an operation.  A write that throws has been rolled back: it leaves no trace in the log. */
  function Perform(env: Env, op: Operation): Answer<Value> {
    match op
    case Read =>
      (match ReaderReply(env)
       case Gives(item) => OpReturned(AdvanceReader(env), op, ItemValue(item))
       case EndOfInput => OpReturned(MeetNull(AdvanceReader(env)), op, NoValue)
       case ReadFails(error) => OpFailed(AdvanceReader(env), error))
    case Process(item) =>
      (match NextReply(env)
       case Fails(error) => OpFailed(Advance(env), error)
       case reply => OpReturned(Advance(env), op, Processed(env, item, reply)))
    case Write(_, _, _) =>
      (match NextReply(env)
       case Reports(written, skipped) => OpReturned(Advance(env), op, Report(written, skipped))
       case Fails(error) => OpFailed(Advance(env), error)
       case _ => OpReturned(Advance(env), op, NoValue))
  }

  /** The on-skip listener of the phase: notified, and it may itself throw. */
  function NotifySkip(env: Env, op: Operation): Answer<()> {
    Listen(env.(tally := SkipNoted(env.tally, op)))
  }

  function Sleep(env: Env, ms: real): Env {
    if ms > 0.0 then env.(trace := env.trace.(slept := env.trace.slept + ms)) else env
  }

  /** saveExecutionContext: one row, written whole or not at all. */
  function SaveContext(env: Env, context: Json, chunk: int): Answer<()> {
    var saved := Call(env);
    if saved.result.Thrown? then saved
    else Answer(
      saved.env.(context := context,
                 tally := saved.env.tally.(saves := saved.env.tally.saves + 1),
                 log := saved.env.log + [Saved(chunk)]),
      Ok(()))
  }

  /** The reader never moves back and its list of replies is fixed. */
  ghost predicate Follows(before: Env, after: Env) {
    && after.source == before.source && after.processor == before.processor
    && before.position <= after.position && before.trace.ends <= after.trace.ends
    && (before.position <= |before.source| ==> after.position <= |after.source|)
  }

  function ErrorOf<T>(result: Result<T, Error>): Option<Error> {
    if result.Thrown? then Some(result.error) else None
  }

  /** A listener changes nothing but what is noted of it. */
  lemma ListenKeeps(env: Env)
    ensures Listen(env).env == Heard(env, ErrorOf(Listen(env).result))
  {
    hide Heard;
  }

  /** So it moves neither the reader nor the books, the log or the row. */
  lemma ListenFrames(env: Env)
    ensures var env' := Listen(env).env;
      && env'.source == env.source && env'.position == env.position && env'.processor == env.processor
      && env'.tally == env.tally && env'.log == env.log && env'.context == env.context
  {
  }

  lemma NotifySkipKeeps(env: Env, op: Operation)
    ensures var a := NotifySkip(env, op); a.env == Heard(env.(tally := SkipNoted(env.tally, op)), ErrorOf(a.result))
  {
    hide SkipNoted, Heard;
  }

  /** What an operation may return. */
  ghost predicate FitsOperation(op: Operation, value: Value) {
    match op
    case Read => !value.Report?
    case Process(_) => !value.Report?
    case Write(_, _, _) => !value.ItemValue?
  }

  /** An operation is one call; only a success is booked and only a failure adds an error. */
  lemma PerformKeeps(env: Env, op: Operation)
    ensures var a := Perform(env, op);
      && a.env.context == env.context && a.env.source == env.source && a.env.script == env.script
      && a.env.trace.calls == env.trace.calls + 1
      && a.env.trace.slept == env.trace.slept && a.env.trace.listenerFailures == env.trace.listenerFailures
      && a.env.trace.errors == (if a.result.Thrown? then env.trace.errors + [a.result.error] else env.trace.errors)
      && a.env.tally == (if a.result.Ok? then Succeeded(env.tally, op, a.result.value) else env.tally)
      && a.env.log == (if a.result.Ok? && op.Write? then env.log + [Wrote(op.chunk, op.items, op.outputs)] else env.log)
      && (a.result.Ok? ==> FitsOperation(op, a.result.value))
  {
    hide Succeeded;
  }

  /** An operation is neither a listener nor another call; only a read that returns null is noted. */
  lemma PerformNotes(env: Env, op: Operation)
    ensures var a := Perform(env, op);
      && a.env.trace.thrown == env.trace.thrown
      && a.env.trace.contacts == env.trace.contacts.(
           nulls := env.trace.contacts.nulls + if op.Read? && a.result == Ok(NoValue) then 1 else 0)
  {
    hide Succeeded;
  }

  /** Only reads move the reader, and a read that gives an item does. */
  lemma PerformMoves(env: Env, op: Operation)
    ensures var a := Perform(env, op);
      && Follows(env, a.env) && (!op.Read? ==> a.env.position == env.position)
      && (op.Read? && a.result.Ok? && a.result.value.ItemValue? ==> env.position < a.env.position <= |env.source|)
  {
    hide Succeeded;
  }
}

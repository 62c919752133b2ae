// Traces of the live fuzz harness: operations, batches and scenarios.
module Traces {

  import opened Options

  // The harness writes references as strings "root:3", "op:17", "response:op:17".
  // A string of no such shape is an Unknown reference; no trace defines one.
  datatype Ref =
    | Root(thread: int)
    | Op(id: int)
    | Response(source: Ref)
    | Unknown(text: string)

  datatype Kind =
    | ThreadMessage
    | PlainReply
    | Edit
    | Reaction
    | Redaction
    | IdempotentRetry
    | RestartMindRoom
    | CrashMindRoom
    | KillRestartMindRoom
    | ColdRestartMindRoom
    | RestartTuwunel
    | StopMindRoom
    | StartMindRoom
    | Checkpoint
  {
    // MESSAGE_KINDS, which is also the test _owes_reply makes
    predicate IsMessage() {
      ThreadMessage? || PlainReply?
    }

    // AUTHORED_TARGET_KINDS
    predicate IsAuthored() {
      Edit? || Redaction? || IdempotentRetry?
    }

    // LIFECYCLE_KINDS; a crash is not among them
    predicate IsLifecycle() {
      RestartMindRoom? || KillRestartMindRoom? || ColdRestartMindRoom? || RestartTuwunel?
      || StopMindRoom? || StartMindRoom? || Checkpoint?
    }

    // _INTERRUPTION_KINDS
    predicate IsInterruption() {
      RestartMindRoom? || CrashMindRoom?
    }
  }

  datatype Operation = Operation(
    id: int,
    kind: Kind,
    thread: int,
    target: Option<Ref>,
    client: int,
    cleanup: seq<Ref>)
  {
    function EventRef(): Ref {
      Op(id)
    }
  }

  type Batch = seq<Operation>

  datatype Profile =
    | Fuzz
    | Chaos
    | Saturation
    | ShortStreamCorrectness
    | RestartRegression
    | SustainedStreamCapacity
    | Unsupported(name: string)

  datatype Scenario = Scenario(
    threadCount: int,
    batches: seq<Batch>,
    profile: Profile,
    clientCount: int,
    roomCount: int)
  {
    function RootClient(thread: int): int
      requires clientCount > 0
    {
      thread % clientCount
    }
  }

  // Some operation of the batch, or of some batch before, redacts the target.
  predicate Redacts(batch: Batch, r: Ref) {
    exists op :: op in batch && op.kind.Redaction? && op.target == Some(r)
  }

  predicate RedactedBefore(before: seq<Batch>, r: Ref) {
    exists i :: 0 <= i < |before| && Redacts(before[i], r)
  }

  // The knobs of the chaos profile.
  datatype Tuning = Tuning(
    threadCount: int,
    clientCount: int,
    roomCount: int,
    maxBatchSize: int,
    hotThreadWeight: int,
    checkpointInterval: int,
    lifecycleInterval: int,
    downtimeBatches: int)
  {
    // ChaosTuning.validate
    predicate Valid() {
      && threadCount >= 1 && clientCount >= 1 && roomCount >= 1 && maxBatchSize >= 1
      && hotThreadWeight >= 1 && downtimeBatches >= 0
      && checkpointInterval >= 0 && lifecycleInterval >= 0
    }

    function Trace(batches: seq<Batch>): Scenario {
      Scenario(threadCount, batches, Chaos, clientCount, roomCount)
    }
  }

  // Operations other than lifecycle steps and interruptions: the ones a generator
  // counts against its step budget.
  predicate IsMutation(op: Operation) {
    !op.kind.IsLifecycle() && !op.kind.IsInterruption()
  }

  function MutationsIn(batch: Batch): nat {
    if batch == [] then 0
    else MutationsIn(batch[..|batch| - 1]) + if IsMutation(batch[|batch| - 1]) then 1 else 0
  }

  function Mutations(batches: seq<Batch>): nat {
    if batches == [] then 0
    else Mutations(batches[..|batches| - 1]) + MutationsIn(batches[|batches| - 1])
  }
}

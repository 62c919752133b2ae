// The adversarial trace generator as it runs: a trace, its pools and two counters, grown piece by
// piece. Every trace it can build is accepted and on plan.
module ChaosTraces {

  import opened Options
  import opened Sequences
  import opened Draws
  import opened Traces
  import opened TraceValidation
  import opened TraceGeneration
  import opened TracePools
  import opened ChaosGeneration
  import opened ChaosSchedule
  import TraceValidator

  const LIFECYCLE_CHOICES: seq<Kind> := [
    RestartMindRoom, RestartMindRoom, KillRestartMindRoom, ColdRestartMindRoom, RestartTuwunel,
    StopMindRoom, StopMindRoom]

  class ChaosBuild {
    const tuning: Tuning
    const state: GenerationState
    var batches: seq<Batch>
    var operationId: int
    var generated: int

    ghost function Ledger(): Ledger
      requires tuning.Valid()
      reads this
    {
      LedgerAfter(tuning.Trace([]), batches)
    }

    ghost function Known(): Replies
      reads state
    {
      Replies(state.settledResponses, state.unusableResponses)
    }

    ghost predicate Valid()
      reads this, state
    {
      tuning.Valid() && Consistent(tuning, batches, state.Value(), Known(), generated, operationId)
    }

    ghost predicate Simulating(s: Ledger)
      reads this, state
    {
      tuning.Valid() && Simulates(tuning, state.Value(), Known(), s)
    }

    constructor (tuning: Tuning)
      requires tuning.Valid()
      ensures Valid() && fresh(state) && this.tuning == tuning
      ensures batches == [] && generated == 0 && Ledger().running
    {
      this.tuning := tuning;
      state := new GenerationState(tuning.threadCount, tuning.clientCount);
      batches, operationId, generated := [], 0, 0;
      new;
      InitiallyConsistent(tuning);
    }

    method NextOperationId() returns (id: int)
      modifies this`operationId
      ensures id == old(operationId) && operationId == id + 1
    {
      id := operationId;
      operationId := operationId + 1;
    }

    method Singleton(kind: Kind)
      requires Valid() && kind.IsLifecycle()
      requires if kind.StartMindRoom? then !Ledger().running else Ledger().running
      requires kind.ColdRestartMindRoom? ==> Ledger().settled == SettledWhenQuiet(Ledger())
      modifies this`batches, this`operationId, state`settledResponses
      ensures Valid() && generated == old(generated) && AddsStep(old(batches), batches, kind)
      ensures Ledger().running == !kind.StopMindRoom?
      ensures kind.Checkpoint? || kind.ColdRestartMindRoom? ==> Ledger().settled == SettledWhenQuiet(Ledger())
    {
      var id := NextOperationId();
      var op := Operation(id, kind, 0, None, 0, []);
      AppendedLifecycle(tuning, batches, state.Value(), Known(), generated, op);
      AfterLifecycle(op, Ledger());
      Append(op);
    }

    method Append(op: Operation)
      modifies this`batches, state`settledResponses
      ensures batches == old(batches) + [[op]] && state.Value() == old(state.Value())
      ensures Known() == old(Known()).(
                settled := if op.kind.Checkpoint? then PooledResponses(state.Value()) - old(Known()).unusable
                           else old(Known()).settled)
    {
      batches := batches + [[op]];
      if op.kind.Checkpoint? {
        Settle();
      }
    }

    method Settle()
      modifies state`settledResponses
      ensures state.settledResponses == PooledResponses(state.Value()) - state.unusableResponses
    {
      state.settledResponses :=
        ResponsesTo(set t: int, m | t in state.messages && m in state.messages[t] :: m) - state.unusableResponses;
    }

    // _pick_chaos_thread: thread 0 is drawn hotThreadWeight times as often as any other.
    method PickThread() returns (thread: int)
      requires tuning.Valid()
      ensures 0 <= thread < tuning.threadCount
    {
      var index := RandRange(tuning.threadCount + tuning.hotThreadWeight - 1);
      thread := if index < tuning.hotThreadWeight then 0 else index - tuning.hotThreadWeight + 1;
    }

    // Draw a reaction target; the thread's root is always among the options.
    method ChooseReactionTarget(thread: int, running: bool, batchRedacted: set<Ref>, ghost s: Ledger)
      returns (target: Ref)
      requires Simulating(s) && 0 <= thread < tuning.threadCount
      ensures target in state.reactionTargets[thread]
      ensures Targetable(state.redacted, Known(), running, batchRedacted, target)
    {
      var redacted, known := state.redacted, Replies(state.settledResponses, state.unusableResponses);
      var available := Keep(t => Targetable(redacted, known, running, batchRedacted, t), state.reactionTargets[thread]);
      assert ThreadFits(state.Value(), s, thread);
      assert Root(thread) in available;
      target := Choice(available);
    }

    // _choose_chaos_operation
    method ChooseOperation(running: bool, b: InBatch, ghost s: Ledger) returns (op: Operation)
      requires Simulating(s)
      modifies this`operationId
      ensures ChoiceOk(tuning, state.Value(), Known(), running, b, op)
      ensures op.id == old(operationId) && operationId == op.id + 1
    {
      var thread := PickThread();
      var kind := Choice(WEIGHTED_KINDS);
      WeightedKindsAreMutations(kind);
      var randomClient := RandRange(tuning.clientCount);
      assert ThreadFits(state.Value(), s, thread);
      var redacted, known := state.redacted, Replies(state.settledResponses, state.unusableResponses);
      var responses := Keep(t => Targetable(redacted, known, running, b.redacted, t), state.responses[thread]);
      var edits := Keep(t => t !in redacted && t !in b.edited, state.editable[thread]);
      var redactions := Keep(
        t => t !in redacted && t !in b.redacted && !(t in b.responseSources && Response(t) !in known.settled),
        state.redactable[thread]);
      var retries := Keep(t => t !in redacted, state.messages[thread]);

      var target: Option<Ref> := None;
      var client := randomClient;
      if kind.ThreadMessage? {
        var t := Choice(state.messages[thread]);
        target := Some(t);
      } else if kind.PlainReply? && responses != [] {
        var t := Choice(responses);
        target := Some(t);
      } else if kind.Edit? && edits != [] {
        var t := Choice(edits);
        target, client := Some(t), state.authors[t];
      } else if kind.Redaction? && redactions != [] {
        var t := Choice(redactions);
        target, client := Some(t), state.authors[t];
      } else if kind.IdempotentRetry? && retries != [] {
        var t := Choice(retries);
        target, client := Some(t), state.authors[t];
      }
      if target.None? {
        kind := Reaction;
      }
      if kind.Reaction? {
        var t := ChooseReactionTarget(thread, running, b.redacted, s);
        target, client := Some(t), randomClient;
      }
      var id := NextOperationId();
      op := Operation(id, kind, thread, target, client, []);
    }

    // One operation of a batch. A second message of one client in one thread would owe a
    // reply nobody could attribute, so it becomes a reaction.
    method DrawOperation(running: bool, b: InBatch, ghost s: Ledger) returns (op: Operation)
      requires Simulating(s)
      modifies this`operationId
      ensures ChoiceOk(tuning, state.Value(), Known(), running, b, op)
      ensures op.id == old(operationId) && operationId == op.id + 1
      ensures op.kind.IsMessage() ==> (op.thread, op.client) !in b.replies
    {
      op := ChooseOperation(running, b, s);
      if op.kind.IsMessage() && (op.thread, op.client) in b.replies {
        var target := ChooseReactionTarget(op.thread, running, b.redacted, s);
        op := Operation(op.id, Reaction, op.thread, Some(target), op.client, []);
      }
    }

    // A batch drawn operation by operation, as the ledger of the trace so far will judge it.
    method DrawBatch(size: int, running: bool, ghost s: Ledger) returns (ops: Batch, b: InBatch)
      requires Simulating(s) && size >= 1 && running == s.running
      requires forall id :: id in s.ids ==> id < operationId
      modifies this`operationId
      ensures operationId >= old(operationId) && |ops| == size
      ensures Drawable(tuning, s, state.Value(), operationId, ops, b)
    {
      ops, b := [], InBatch({}, {}, {}, {});
      while |ops| < size
        invariant |ops| <= size && operationId == old(operationId) + |ops|
        invariant Drawable(tuning, s, state.Value(), operationId, ops, b)
      {
        var op := DrawOperation(running, b, s);
        ExtendDrawn(tuning, state.Value(), Known(), s, ops, b, op);
        b := AddToBatch(b, op);
        ops := ops + [op];
      }
    }

    // Every response the redactions of a batch may have suppressed becomes unusable.
    method SuppressReplies(ops: Batch)
      requires state.Value().Covers(tuning.threadCount) && InThreads(tuning.threadCount, ops)
      modifies state`unusableResponses
      ensures Known() == SuppressOps(state.Value(), tuning.threadCount, old(Known()), ops)
    {
      for i := 0 to |ops|
        invariant InThreads(tuning.threadCount, ops[..i])
        invariant Known() == SuppressOps(state.Value(), tuning.threadCount, old(Known()), ops[..i])
      {
        PrefixStep(ops, i);
        var op := ops[i];
        assert op in ops;
        if op.kind.Redaction? && op.target.Some? {
          var response := Response(op.target.value);
          if response in state.responses[op.thread] && response !in state.settledResponses {
            state.unusableResponses := state.unusableResponses + {response};
          }
        }
      }
      assert ops[..|ops|] == ops;
    }

    // Take a drawn batch into the trace and into the pools.
    method Store(ops: Batch)
      requires state.Value().Covers(tuning.threadCount) && InThreads(tuning.threadCount, ops)
      modifies this`batches, this`generated, state
      ensures batches == old(batches) + [ops] && generated == old(generated) + |ops|
      ensures state.Value() == UpdateOps(old(state.Value()), tuning.threadCount, ops)
      ensures Known() == SuppressOps(state.Value(), tuning.threadCount, old(Known()), ops)
    {
      batches := batches + [ops];
      state.Update(tuning.threadCount, ops);
      SuppressReplies(ops);
      generated := generated + |ops|;
    }

    method Record(ops: Batch, ghost b: InBatch)
      requires Valid() && ops != [] && Drawable(tuning, Ledger(), state.Value(), operationId, ops, b)
      modifies this`batches, this`generated, state
      ensures Valid() && Ledger().running == old(Ledger().running)
      ensures batches == old(batches) + [ops] && generated == old(generated) + |ops|
    {
      AppendedBatch(tuning, batches, state.Value(), Known(), generated, operationId, ops, b);
      Store(ops);
    }

    // _append_chaos_batch
    method AppendBatch(remaining: int, running: bool) returns (appended: int)
      requires Valid() && remaining >= 1 && running == Ledger().running
      modifies this`batches, this`operationId, this`generated, state
      ensures Valid() && 1 <= appended <= remaining && generated == old(generated) + appended
      ensures AddsWork(tuning, old(batches), batches) && |batches[|old(batches)|]| == appended
      ensures Ledger().running == running
    {
      var drawn := RandInt(1, tuning.maxBatchSize);
      var size := if remaining < drawn then remaining else drawn;
      var ops, b := DrawBatch(size, running, Ledger());
      Record(ops, b);
      appended := |ops|;
      AllWork(ops);
    }

    // _append_chaos_lifecycle
    method AppendLifecycle(steps: int) returns (settled: bool)
      requires Valid() && Ledger().running && generated < steps
      modifies this`batches, this`operationId, this`generated, state
      ensures Valid() && Ledger().running && old(generated) <= generated <= steps
      ensures settled ==> Ledger().settled == SettledWhenQuiet(Ledger())
      ensures AddsDisturbance(tuning, steps, old(batches), batches, settled)
    {
      var kind := Choice(LIFECYCLE_CHOICES);
      if kind.ColdRestartMindRoom? {
        ColdRestart();
        return true;
      }
      if kind.StopMindRoom? {
        Outage(steps);
        return true;
      }
      Singleton(kind);
      return false;
    }

    // A cold restart is only sent once everything has settled.
    method ColdRestart()
      requires Valid() && Ledger().running
      modifies this`batches, this`operationId, state`settledResponses
      ensures Valid() && Ledger().running && generated == old(generated)
      ensures Ledger().settled == SettledWhenQuiet(Ledger())
      ensures AddsColdRestart(old(batches), batches)
    {
      Singleton(Checkpoint);
      Singleton(ColdRestartMindRoom);
    }

    method Outage(steps: int)
      requires Valid() && Ledger().running && generated < steps
      modifies this`batches, this`operationId, this`generated, state
      ensures Valid() && Ledger().running && old(generated) <= generated <= steps
      ensures Ledger().settled == SettledWhenQuiet(Ledger())
      ensures AddsOutage(tuning, steps, old(batches), batches)
    {
      Singleton(StopMindRoom);
      ghost var down := batches;
      ghost var d := Downtime(steps);
      ghost var up := batches;
      Singleton(StartMindRoom);
      ghost var started := batches;
      Singleton(Checkpoint);
      assert AddsDowntime(tuning, steps, down, up, d);
    }

    // The batches sent while MindRoom is down.
    method Downtime(steps: int) returns (ghost d: nat)
      requires Valid() && !Ledger().running && generated <= steps
      modifies this`batches, this`operationId, this`generated, state
      ensures Valid() && !Ledger().running && old(generated) <= generated <= steps
      ensures AddsDowntime(tuning, steps, old(batches), batches, d)
    {
      d := 0;
      var n := 0;
      while n < tuning.downtimeBatches
        invariant Valid() && !Ledger().running && old(generated) <= generated <= steps
        invariant n == d <= tuning.downtimeBatches && Working(tuning, old(batches), batches, d)
        decreases tuning.downtimeBatches - n
      {
        var remaining := steps - generated;
        if remaining < 1 {
          break;
        }
        ghost var before := batches;
        var appended := AppendBatch(remaining, false);
        WorkingOn(tuning, old(batches), before, batches, d);
        n, d := n + 1, d + 1;
      }
    }
  }

  lemma {:induction false} AllWork(ops: Batch)
    requires MutationsIn(ops) == |ops|
    ensures forall op :: op in ops ==> IsMutation(op)
  {
    if ops != [] {
      AtMostAll(ops[..|ops| - 1]);
      AllWork(ops[..|ops| - 1]);
    }
  }

  lemma {:induction false} AtMostAll(ops: Batch)
    ensures MutationsIn(ops) <= |ops|
  {
    if ops != [] {
      AtMostAll(ops[..|ops| - 1]);
    }
  }

  // One turn of the main loop, after the checkpoint: a disturbance when one is due, else a batch of work.
  method Turn(build: ChaosBuild, steps: int, sinceCheckpoint: int, sinceLifecycle: int)
    returns (checkpointed: int, disturbed: int)
    requires build.Valid() && build.Ledger().running && build.generated < steps
    requires OnSchedule(build.tuning, steps, build.batches, sinceCheckpoint, sinceLifecycle)
    requires build.tuning.checkpointInterval > 0 ==> sinceCheckpoint < build.tuning.checkpointInterval
    modifies build, build.state
    ensures build.Valid() && build.Ledger().running && old(build.generated) <= build.generated <= steps
    ensures OnSchedule(build.tuning, steps, build.batches, checkpointed, disturbed)
    ensures old(build.generated) < build.generated || 0 == disturbed < sinceLifecycle
  {
    var tuning := build.tuning;
    if tuning.lifecycleInterval != 0 && sinceLifecycle >= tuning.lifecycleInterval {
      var settled := build.AppendLifecycle(steps);
      ScheduledDisturbance(tuning, steps, old(build.batches), build.batches, sinceCheckpoint, sinceLifecycle, settled);
      return if settled then 0 else sinceCheckpoint, 0;
    }
    var appended := build.AppendBatch(steps - build.generated, true);
    ScheduledWork(tuning, steps, old(build.batches), build.batches, sinceCheckpoint, sinceLifecycle);
    return sinceCheckpoint + appended, sinceLifecycle + appended;
  }

  // The main loop: checkpoints when they are overdue, disturbances when they are due, else work.
  method Grow(build: ChaosBuild, steps: int)
    requires build.Valid() && build.Ledger().running && build.batches == [] && build.generated == 0 && steps >= 1
    modifies build, build.state
    ensures build.Valid() && build.Ledger().running && build.generated == steps
    ensures Plan(build.tuning, steps, build.batches)
  {
    var tuning := build.tuning;
    var sinceCheckpoint, sinceLifecycle := 0, 0;
    while build.generated < steps
      invariant build.Valid() && build.Ledger().running && build.generated <= steps
      invariant OnSchedule(tuning, steps, build.batches, sinceCheckpoint, sinceLifecycle)
      decreases steps - build.generated, sinceLifecycle
    {
      if tuning.checkpointInterval != 0 && sinceCheckpoint >= tuning.checkpointInterval {
        ghost var before := build.batches;
        build.Singleton(Checkpoint);
        ScheduledCheckpoint(tuning, steps, before, build.batches, sinceCheckpoint, sinceLifecycle);
        sinceCheckpoint := 0;
      }
      sinceCheckpoint, sinceLifecycle := Turn(build, steps, sinceCheckpoint, sinceLifecycle);
    }
  }

  // chaos_scenario_from_seed: None is the ValueError for bad arguments. Any other outcome is a trace
  // the validator accepts, on plan, with exactly the mutations asked for.
  method ChaosScenario(steps: int, tuning: Tuning) returns (trace: Option<Scenario>)
    ensures trace.None? <==> steps < 1 || !tuning.Valid()
    ensures trace.Some? ==>
              && ValidTrace(trace.value)
              && trace.value == tuning.Trace(trace.value.batches)
              && Mutations(trace.value.batches) == steps
              && SparesRedacted(trace.value.batches) && Aimed(trace.value.batches)
              && Plan(tuning, steps, trace.value.batches)
              && LedgerAfter(trace.value, trace.value.batches).running
  {
    if steps < 1 || !tuning.Valid() {
      return None;
    }
    var build := new ChaosBuild(tuning);
    Grow(build, steps);
    var scenario := tuning.Trace(build.batches);
    ConsistentIsValid(
      tuning, build.batches, build.state.Value(), build.Known(), build.generated, build.operationId);
    var accepted := TraceValidator.Validate(scenario);
    assert accepted;
    return Some(scenario);
  }
}

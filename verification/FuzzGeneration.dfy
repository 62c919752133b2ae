// The realistic trace generator (live_scenario_from_seed). Whatever it draws, the validator
// accepts the trace, and its interruptions land where the harness says they do.
module FuzzGeneration {

  import opened Options
  import opened Sequences
  import opened Draws
  import opened Traces
  import opened TraceValidation
  import opened TraceGeneration
  import opened TraceMeaning
  import opened TracePools
  import TraceValidator

  function FuzzTrace(threadCount: int, batches: seq<Batch>): Scenario {
    Scenario(threadCount, batches, Fuzz, 1, 1)
  }

  // What any drawn operation satisfies: its target comes from a pool of its own thread, and
  // only messages, replies and reactions may still target something redacted.
  ghost predicate ChoiceOk(g: Pools, threadCount: int, op: Operation)
    requires g.Covers(threadCount)
  {
    && 0 <= op.thread < threadCount
    && op.client == 0
    && op.cleanup == []
    && op.target.Some?
    && var t := op.target.value;
    && (op.kind.IsAuthored() ==> t !in g.redacted)
    && match op.kind
    case ThreadMessage => t in g.messages[op.thread]
    case PlainReply => t in g.responses[op.thread]
    case Edit => t in g.editable[op.thread]
    case Reaction => t in g.reactionTargets[op.thread]
    case Redaction => t in g.redactable[op.thread]
    case IdempotentRetry => t in g.messages[op.thread]
    case _ => false
  }

  lemma ChoicePasses(g: Pools, s: Ledger, threadCount: int, op: Operation)
    requires Fits(g, s, threadCount) && ChoiceOk(g, threadCount, op)
    ensures FuzzOpOk(FuzzTrace(threadCount, []), op, s) && IsMutation(op)
  {
    assert ThreadFits(g, s, op.thread);
  }

  // The operations of a batch before any interruption joins them. The validator does not ask
  // fuzz traces to edit or redact a source only once per batch; the generator promises it.
  ghost predicate Drawn(g: Pools, threadCount: int, ops: Batch) {
    && g.Covers(threadCount)
    && (forall op :: op in ops ==> ChoiceOk(g, threadCount, op))
    && ReplyUniqueness(Fuzz, ops)
    && OncePerBatch(Edit, ops)
    && OncePerBatch(Redaction, ops)
  }

  ghost predicate Numbered(ops: Batch, first: int) {
    forall i :: 0 <= i < |ops| ==> ops[i].id == first + i
  }

  // _choose_operation
  method ChooseOperation(state: GenerationState, id: int, threadCount: int, edited: set<Ref>, redacted: set<Ref>,
                         ghost s: Ledger)
    returns (op: Operation)
    requires threadCount >= 1 && Fits(state.Value(), s, threadCount)
    ensures ChoiceOk(state.Value(), threadCount, op) && op.id == id
    ensures op.kind.Edit? ==> op.target.value !in edited
    ensures op.kind.Redaction? ==> op.target.value !in redacted
  {
    var thread := RandRange(threadCount);
    var kind := Choice(WEIGHTED_KINDS);
    WeightedKindsAreMutations(kind);
    assert ThreadFits(state.Value(), s, thread);
    var gone := state.redacted;
    var edits := Keep(t => t !in gone && t !in edited, state.editable[thread]);
    var redactions := Keep(t => t !in gone && t !in redacted, state.redactable[thread]);
    var retries := Keep(t => t !in gone, state.messages[thread]);
    var target;
    if kind.ThreadMessage? {
      target := Choice(state.messages[thread]);
    } else if kind.PlainReply? {
      target := Choice(state.responses[thread]);
    } else if kind.Edit? && edits != [] {
      target := Choice(edits);
    } else if kind.Reaction? {
      target := Choice(state.reactionTargets[thread]);
    } else if kind.Redaction? && redactions != [] {
      target := Choice(redactions);
    } else if kind.IdempotentRetry? && retries != [] {
      target := Choice(retries);
    } else {
      kind := Reaction;
      target := Choice(state.reactionTargets[thread]);
    }
    op := Operation(id, kind, thread, Some(target), 0, []);
  }

  // _generate_batch
  method GenerateBatch(state: GenerationState, first: int, size: int, threadCount: int, ghost s: Ledger)
    returns (ops: Batch)
    requires threadCount >= 1 && size >= 1 && Fits(state.Value(), s, threadCount)
    ensures Drawn(state.Value(), threadCount, ops) && Numbered(ops, first) && |ops| == size
  {
    ops := [];
    var replied: set<int>, edited: set<Ref>, redacted: set<Ref> := {}, {}, {};
    while |ops| < size
      invariant |ops| <= size && Numbered(ops, first)
      invariant Drawn(state.Value(), threadCount, ops) && Noted(ops, replied, edited, redacted)
    {
      var op := ChooseOperation(state, first + |ops|, threadCount, edited, redacted, s);
      if op.kind.IsMessage() && op.thread in replied {
        assert ThreadFits(state.Value(), s, op.thread);
        var target := Choice(state.reactionTargets[op.thread]);
        op := Operation(op.id, Reaction, op.thread, Some(target), 0, []);
      }
      DrawnMore(state.Value(), threadCount, ops, op, replied, edited, redacted);
      ops := ops + [op];
      if op.kind.IsMessage() {
        replied := replied + {op.thread};
      } else if op.kind.Edit? {
        edited := edited + {op.target.value};
      } else if op.kind.Redaction? {
        redacted := redacted + {op.target.value};
      }
    }
  }

  // What _generate_batch remembers of the operations it has drawn.
  ghost predicate Noted(ops: Batch, replied: set<int>, edited: set<Ref>, redacted: set<Ref>) {
    forall op :: op in ops ==>
      && (op.kind.IsMessage() ==> op.thread in replied)
      && (op.kind.Edit? ==> op.target.Some? && op.target.value in edited)
      && (op.kind.Redaction? ==> op.target.Some? && op.target.value in redacted)
  }

  lemma DrawnMore(g: Pools, threadCount: int, ops: Batch, op: Operation,
                  replied: set<int>, edited: set<Ref>, redacted: set<Ref>)
    requires Drawn(g, threadCount, ops) && Noted(ops, replied, edited, redacted) && ChoiceOk(g, threadCount, op)
    requires op.kind.IsMessage() ==> op.thread !in replied
    requires op.kind.Edit? ==> op.target.value !in edited
    requires op.kind.Redaction? ==> op.target.value !in redacted
    ensures Drawn(g, threadCount, ops + [op])
    ensures Noted(ops + [op],
                  if op.kind.IsMessage() then replied + {op.thread} else replied,
                  if op.kind.Edit? then edited + {op.target.value} else edited,
                  if op.kind.Redaction? then redacted + {op.target.value} else redacted)
  {
    CollisionsSnoc(Fuzz, ops, op);
    OnceSnoc(Edit, ops, op);
    OnceSnoc(Redaction, ops, op);
    assert forall o :: o in ops + [op] <==> o in ops || o == op;
  }

  // Turn the head of a batch that owes nothing into a message, so that an interruption of
  // this batch lands inside a turn.
  method Promote(state: GenerationState, ops: Batch, first: int, threadCount: int, ghost s: Ledger) returns (r: Batch)
    requires threadCount >= 1 && Fits(state.Value(), s, threadCount)
    requires Drawn(state.Value(), threadCount, ops) && ops != [] && Numbered(ops, first)
    ensures Drawn(state.Value(), threadCount, r) && |r| == |ops| && Numbered(r, first)
    ensures exists op :: op in r && op.kind.IsMessage()
    ensures if exists op :: op in ops && op.kind.IsMessage() then r == ops
            else r[0].kind.ThreadMessage? && r[0].thread == ops[0].thread && r[1..] == ops[1..]
  {
    if exists op :: op in ops && op.kind.IsMessage() {
      return ops;
    }
    var head := ops[0];
    assert head in ops;
    assert ThreadFits(state.Value(), s, head.thread);
    var target := Choice(state.messages[head.thread]);
    var message := Operation(head.id, ThreadMessage, head.thread, Some(target), 0, []);
    r := ops[0 := message];
    assert r[0] == message;
    forall i | 0 < i < |r| ensures !r[i].kind.IsMessage() {
      assert r[i] == ops[i] && ops[i] in ops;
    }
    forall op | op in r ensures ChoiceOk(state.Value(), threadCount, op) {
      assert op == message || op in ops;
    }
  }

  function Interruption(id: int, kind: Kind): Operation {
    Operation(id, kind, 0, None, 0, [])
  }

  // The interruptions of a trace, in order.
  function InterruptionsIn(batch: Batch): seq<Kind> {
    if batch == [] then []
    else
      var op := batch[|batch| - 1];
      InterruptionsIn(batch[..|batch| - 1]) + if op.kind.IsInterruption() then [op.kind] else []
  }

  function Interruptions(batches: seq<Batch>): seq<Kind> {
    if batches == [] then []
    else Interruptions(batches[..|batches| - 1]) + InterruptionsIn(batches[|batches| - 1])
  }

  ghost predicate Alternates(kinds: seq<Kind>) {
    forall k :: 0 <= k < |kinds| ==> kinds[k] == if k % 2 == 0 then RestartMindRoom else CrashMindRoom
  }

  // What the validator asks of the drawn operations one by one.
  ghost predicate AllPass(s: Ledger, threadCount: int, ops: Batch) {
    forall op :: op in ops ==>
      FuzzOpOk(FuzzTrace(threadCount, []), op, s) && IsMutation(op) && op.client == 0 && op.cleanup == []
  }

  lemma DrawnPass(g: Pools, s: Ledger, threadCount: int, ops: Batch)
    requires Fits(g, s, threadCount) && Drawn(g, threadCount, ops)
    ensures AllPass(s, threadCount, ops) && InThreads(threadCount, ops)
  {
    forall op | op in ops ensures FuzzOpOk(FuzzTrace(threadCount, []), op, s) && IsMutation(op) {
      ChoicePasses(g, s, threadCount, op);
    }
  }

  // The batch is the operations, followed by the interruption if there is one; an interrupted
  // batch owes a reply.
  ghost predicate Interrupted(batch: Batch, ops: Batch, kind: Option<Kind>, first: int) {
    match kind
    case None => batch == ops
    case Some(k) =>
      && k.IsInterruption()
      && batch == ops + [Interruption(first + |ops|, k)]
      && exists op :: op in ops && op.kind.IsMessage()
  }

  // What the generator appends to the trace: drawn operations, perhaps interrupted at the end.
  ghost predicate Appendable(s: Ledger, threadCount: int, batch: Batch, ops: Batch, kind: Option<Kind>, first: int) {
    && AllPass(s, threadCount, ops) && ReplyUniqueness(Fuzz, ops)
    && OncePerBatch(Edit, ops) && OncePerBatch(Redaction, ops)
    && ops != [] && Numbered(batch, first)
    && (forall id :: id in s.ids ==> id < first)
    && Interrupted(batch, ops, kind, first)
  }

  lemma {:induction false} MutationsOnly(ops: Batch)
    requires forall op :: op in ops ==> IsMutation(op) && op.client == 0
    ensures WithoutInterruptions(ops) == ops && InterruptionsIn(ops) == [] && MutationsIn(ops) == |ops|
  {
    if ops != [] {
      MutationsOnly(ops[..|ops| - 1]);
    }
  }

  lemma InterruptedShape(ops: Batch, op: Operation)
    requires forall p :: p in ops ==> IsMutation(p) && p.client == 0
    requires op.kind.IsInterruption()
    ensures MutationsIn(ops + [op]) == |ops| && WithoutInterruptions(ops + [op]) == ops
    ensures InterruptionsIn(ops + [op]) == [op.kind]
  {
    SnocPrefix(ops, op);
    MutationsOnly(ops);
  }

  lemma InterruptedPlacement(ops: Batch, op: Operation)
    requires forall p :: p in ops ==> IsMutation(p)
    requires op.kind.IsInterruption() && exists p :: p in ops && p.kind.IsMessage()
    ensures InterruptionPlacement(ops + [op])
  {
    var batch := ops + [op];
    assert forall i :: 0 <= i < |ops| ==> batch[i] == ops[i] && ops[i] in ops;
    var p :| p in ops && p.kind.IsMessage();
    assert p in batch;
  }

  lemma InterruptedUniqueness(ops: Batch, op: Operation)
    requires ReplyUniqueness(Fuzz, ops) && op.kind.IsInterruption()
    ensures ReplyUniqueness(Fuzz, ops + [op])
  {
    CollisionsSnoc(Fuzz, ops, op);
  }

  // The validator accepts such a batch ...
  lemma BatchAccepted(s: Ledger, threadCount: int, batch: Batch, ops: Batch, kind: Option<Kind>, first: int)
    requires threadCount >= 1 && Appendable(s, threadCount, batch, ops, kind, first)
    ensures BatchOk(FuzzTrace(threadCount, []), batch, s)
  {
    var sc := FuzzTrace(threadCount, []);
    assert FreshIds(batch, s.ids) by {
      NumberedFresh(batch, first, s.ids);
    }
    assert InterruptionPlacement(batch) by {
      if kind.Some? {
        InterruptedPlacement(ops, Interruption(first + |ops|, kind.value));
      }
    }
    assert ReplyUniqueness(Fuzz, batch) by {
      if kind.Some? {
        InterruptedUniqueness(ops, Interruption(first + |ops|, kind.value));
      }
    }
    assert forall op :: op in batch ==> op in ops || (kind.Some? && op == Interruption(first + |ops|, kind.value));
  }

  // ... and counts it as the generator does ...
  lemma BatchCounts(s: Ledger, threadCount: int, batch: Batch, ops: Batch, kind: Option<Kind>, first: int)
    requires threadCount >= 1 && Appendable(s, threadCount, batch, ops, kind, first)
    ensures InThreads(threadCount, batch)
    ensures MutationsIn(batch) == |ops| && WithoutInterruptions(batch) == ops
    ensures InterruptionsIn(batch) == if kind.Some? then [kind.value] else []
  {
    if kind.Some? {
      InterruptedShape(ops, Interruption(first + |ops|, kind.value));
      assert forall op :: op in batch ==> op in ops || op == batch[|ops|];
    } else {
      MutationsOnly(ops);
    }
  }

  // ... and afterwards the pools still fit the ledger.
  lemma BatchKeepsFit(g: Pools, s: Ledger, threadCount: int, ops: Batch)
    requires Fits(g, s, threadCount) && InThreads(threadCount, ops) && FreshIds(ops, s.ids)
    requires WithoutInterruptions(ops) == ops
    ensures Fits(UpdateOps(g, threadCount, ops), ApplyBatch(FuzzTrace(threadCount, []), ops, s), threadCount)
  {
    FitsOps(g, s, threadCount, ops);
    FitAfter(UpdateOps(g, threadCount, ops), s, threadCount, ops, ops, RegisterOps(s, ops).(ids := s.ids + IdsOf(ops)));
  }

  lemma InterruptedKeepsFit(g: Pools, s: Ledger, threadCount: int, ops: Batch, op: Operation)
    requires Fits(g, s, threadCount) && InThreads(threadCount, ops) && FreshIds(ops, s.ids)
    requires op.kind.IsInterruption() && 0 <= op.thread < threadCount && InThreads(threadCount, ops + [op])
    requires WithoutInterruptions(ops + [op]) == ops
    ensures Fits(UpdateOps(g, threadCount, ops + [op]),
                 ApplyBatch(FuzzTrace(threadCount, []), ops + [op], s), threadCount)
  {
    FitsOps(g, s, threadCount, ops);
    var registered := RegisterOps(s, ops).(ids := s.ids + IdsOf(ops));
    FitsInterruption(UpdateOps(g, threadCount, ops), registered, threadCount, op);
    SnocPrefix(ops, op);
    assert IdsOf(ops + [op]) == IdsOf(ops) + {op.id};
    FitAfter(UpdateOps(g, threadCount, ops + [op]), s, threadCount, ops + [op], ops,
             registered.(ids := registered.ids + {op.id}));
  }

  lemma FitAfter(g: Pools, s: Ledger, threadCount: int, batch: Batch, ops: Batch, registered: Ledger)
    requires WithoutInterruptions(batch) == ops
    requires Fits(g, registered, threadCount) && registered == RegisterOps(s, ops).(ids := s.ids + IdsOf(batch))
    ensures Fits(g, ApplyBatch(FuzzTrace(threadCount, []), batch, s), threadCount)
  {
    RedactOpsFrame(RegisterOps(s, ops), ops);
    FitsIgnores(g, registered, ApplyBatch(FuzzTrace(threadCount, []), batch, s), threadCount);
  }

  lemma LedgerKeeps(s: Ledger, threadCount: int, batch: Batch)
    ensures ApplyBatch(FuzzTrace(threadCount, []), batch, s).ids == s.ids + IdsOf(batch)
    ensures ApplyBatch(FuzzTrace(threadCount, []), batch, s).running == s.running
  {
    var ops := WithoutInterruptions(batch);
    RegisterOpsFrame(s, ops);
    RedactOpsFrame(RegisterOps(s, ops), ops);
  }

  lemma NumberedFresh(ops: Batch, first: int, ids: set<int>)
    requires Numbered(ops, first) && forall id :: id in ids ==> id < first
    ensures FreshIds(ops, ids)
  {
  }

  // The validator accepts the batches built so far and ends with the ledger s.
  ghost predicate Accepted(threadCount: int, batches: seq<Batch>, s: Ledger)
    requires threadCount >= 1
  {
    && BatchesOk(FuzzTrace(threadCount, []), batches)
    && ProbesOk(FuzzTrace(threadCount, []), batches)
    && LedgerAfter(FuzzTrace(threadCount, []), batches) == s
    && (forall batch :: batch in batches ==> OncePerBatch(Edit, batch) && OncePerBatch(Redaction, batch))
  }

  // The generator's own state agrees with that ledger.
  ghost predicate Current(threadCount: int, s: Ledger, g: Pools, nextId: int) {
    Fits(g, s, threadCount) && s.running && forall id :: id in s.ids ==> id < nextId
  }

  lemma AppendedAccepted(
    threadCount: int, batches: seq<Batch>, s: Ledger, batch: Batch, ops: Batch, kind: Option<Kind>, first: int)
    requires threadCount >= 1 && Accepted(threadCount, batches, s)
    requires Appendable(s, threadCount, batch, ops, kind, first)
    ensures Accepted(threadCount, batches + [batch], ApplyBatch(FuzzTrace(threadCount, []), batch, s))
    ensures Mutations(batches + [batch]) == Mutations(batches) + |ops|
    ensures Interruptions(batches + [batch]) == Interruptions(batches) + if kind.Some? then [kind.value] else []
  {
    BatchAccepted(s, threadCount, batch, ops, kind, first);
    BatchCounts(s, threadCount, batch, ops, kind, first);
    NoProbes(s, threadCount, batch, ops, kind, first, SourcesAfter(FuzzTrace(threadCount, []), batches));
    OnceWithInterruption(batch, ops, kind);
    AppendedTrace(FuzzTrace(threadCount, []), batches, batch);
    SnocPrefix(batches, batch);
  }

  lemma AppendedCurrent(
    threadCount: int, s: Ledger, g: Pools, batch: Batch, ops: Batch, kind: Option<Kind>, first: int)
    requires threadCount >= 1 && Current(threadCount, s, g, first)
    requires Appendable(s, threadCount, batch, ops, kind, first)
    ensures InThreads(threadCount, batch)
    ensures Current(threadCount, ApplyBatch(FuzzTrace(threadCount, []), batch, s), UpdateOps(g, threadCount, batch),
                    first + |batch|)
  {
    BatchCounts(s, threadCount, batch, ops, kind, first);
    AppendedFit(g, s, threadCount, batch, ops, kind, first);
    LedgerKeeps(s, threadCount, batch);
    NoProbes(s, threadCount, batch, ops, kind, first, InitialSources(FuzzTrace(threadCount, [])));
  }

  lemma AppendedFit(
    g: Pools, s: Ledger, threadCount: int, batch: Batch, ops: Batch, kind: Option<Kind>, first: int)
    requires Fits(g, s, threadCount) && threadCount >= 1 && Appendable(s, threadCount, batch, ops, kind, first)
    requires InThreads(threadCount, batch) && WithoutInterruptions(batch) == ops
    ensures Fits(UpdateOps(g, threadCount, batch), ApplyBatch(FuzzTrace(threadCount, []), batch, s), threadCount)
  {
    OpsAreFresh(batch, ops, kind, first, s.ids);
    if kind.Some? {
      InterruptedKeepsFit(g, s, threadCount, ops, Interruption(first + |ops|, kind.value));
    } else {
      BatchKeepsFit(g, s, threadCount, ops);
    }
  }

  lemma OpsAreFresh(batch: Batch, ops: Batch, kind: Option<Kind>, first: int, ids: set<int>)
    requires Numbered(batch, first) && Interrupted(batch, ops, kind, first) && forall id :: id in ids ==> id < first
    ensures FreshIds(ops, ids)
  {
    assert forall i :: 0 <= i < |ops| ==> ops[i] == batch[i];
  }

  lemma NoProbes(
    s: Ledger, threadCount: int, batch: Batch, ops: Batch, kind: Option<Kind>, first: int, log: SourceLog)
    requires Appendable(s, threadCount, batch, ops, kind, first)
    ensures ProbeBatchOk(Fuzz, batch, log)
    ensures forall op :: op in batch ==> op.id < first + |batch|
  {
    assert forall op :: op in batch ==> op in ops || (kind.Some? && op == batch[|ops|]);
  }

  lemma OnceWithInterruption(batch: Batch, ops: Batch, kind: Option<Kind>)
    requires OncePerBatch(Edit, ops) && OncePerBatch(Redaction, ops)
    requires batch == ops || (|batch| == |ops| + 1 && ops <= batch && batch[|ops|].kind.IsInterruption())
    ensures OncePerBatch(Edit, batch) && OncePerBatch(Redaction, batch)
  {
    assert forall i :: 0 <= i < |ops| ==> batch[i] == ops[i];
  }

  // interval * n, kept additive for the sake of the loop's proof
  function Intervals(interval: int, n: int): int {
    if n <= 0 then 0 else Intervals(interval, n - 1) + interval
  }

  lemma {:induction false} IntervalsMultiply(interval: int, n: int)
    requires n >= 0
    ensures Intervals(interval, n) == interval * n
  {
    if n > 0 {
      IntervalsMultiply(interval, n - 1);
    }
  }

  // The counters of the main loop: operations generated, interruptions taken, and the
  // number of operations the next interruption waits for.
  datatype Pace = Pace(generated: int, taken: int, next: int) {

    // The interruption the next batch ends with, if that batch has `size` operations.
    function Due(interval: int, size: int): Option<Kind> {
      if interval == 0 || generated + size < next then None
      else if taken % 2 == 0 then Some(RestartMindRoom)
      else Some(CrashMindRoom)
    }

    function Advance(interval: int, size: int): Pace {
      if Due(interval, size).None? then Pace(generated + size, taken, next)
      else Pace(generated + size, taken + 1, next + interval)
    }

    // The n-th interruption waits for n intervals of operations.
    ghost predicate Valid(interval: int, maxBatchSize: int) {
      && generated >= 0 && taken >= 0
      && (interval == 0 ==> taken == 0)
      && (interval > 0 ==>
            && next == Intervals(interval, taken + 1)
            && Intervals(interval, taken) <= generated
            && (interval >= maxBatchSize ==> generated < next))
    }
  }

  lemma PaceStep(pace: Pace, interval: int, maxBatchSize: int, size: int)
    requires pace.Valid(interval, maxBatchSize) && interval >= 0 && 1 <= size <= maxBatchSize
    ensures pace.Advance(interval, size).Valid(interval, maxBatchSize)
  {
  }

  lemma PaceTotal(pace: Pace, interval: int, maxBatchSize: int)
    requires pace.Valid(interval, maxBatchSize) && interval > 0
    ensures pace.taken <= pace.generated / interval
    ensures interval >= maxBatchSize ==> pace.taken == pace.generated / interval
  {
    var q := pace.generated / interval;
    IntervalsMultiply(interval, pace.taken);
    IntervalsMultiply(interval, pace.taken + 1);
    Multiples(interval, q + 1, pace.taken);
    Multiples(interval, pace.taken + 1, q);
  }

  lemma Multiples(n: int, a: int, b: int)
    requires n > 0
    ensures a <= b ==> n * a <= n * b
  {
    if a <= b {
      assert n * (b - a) >= 0;
    }
  }

  // The counters count what the trace holds, and the interruptions alternate.
  ghost predicate Counted(batches: seq<Batch>, pace: Pace) {
    && Mutations(batches) == pace.generated
    && |Interruptions(batches)| == pace.taken
    && Alternates(Interruptions(batches))
  }

  lemma CountedStep(batches: seq<Batch>, more: seq<Batch>, pace: Pace, interval: int, size: int)
    requires Counted(batches, pace)
    requires Mutations(more) == Mutations(batches) + size
    requires Interruptions(more)
          == Interruptions(batches) + if pace.Due(interval, size).Some? then [pace.Due(interval, size).value] else []
    ensures Counted(more, pace.Advance(interval, size))
  {
  }

  // No batch is longer than allowed, but for its interruption; and a batch is interrupted exactly when
  // the trace with it has reached one more interval than it has had interruptions.
  ghost predicate Placed(interval: int, maxBatchSize: int, batches: seq<Batch>) {
    forall k :: 0 <= k < |batches| ==> PlacedAt(interval, maxBatchSize, batches, k)
  }

  predicate PlacedAt(interval: int, maxBatchSize: int, batches: seq<Batch>, k: int)
    requires 0 <= k < |batches|
  {
    && MutationsIn(batches[k]) <= maxBatchSize
    && (Interrupts(batches[k]) <==> interval > 0 && Reached(interval, batches[..k], batches[..k + 1]))
  }

  predicate Interrupts(batch: Batch) {
    exists op :: op in batch && (op.kind.RestartMindRoom? || op.kind.CrashMindRoom?)
  }

  predicate Reached(interval: int, before: seq<Batch>, after: seq<Batch>) {
    Mutations(after) >= interval * (|Interruptions(before)| + 1)
  }

  lemma {:induction false} InterruptsMeans(batch: Batch)
    ensures Interrupts(batch) <==> InterruptionsIn(batch) != []
  {
    if batch != [] {
      var init, last := batch[..|batch| - 1], batch[|batch| - 1];
      InterruptsMeans(init);
      assert batch == init + [last];
    }
  }

  lemma DueMeans(pace: Pace, interval: int, maxBatchSize: int, size: int)
    requires pace.Valid(interval, maxBatchSize) && interval >= 0
    ensures pace.Due(interval, size).Some? <==> interval > 0 && pace.generated + size >= interval * (pace.taken + 1)
  {
    IntervalsMultiply(interval, pace.taken + 1);
  }

  lemma PlacedNow(batches: seq<Batch>, batch: Batch, pace: Pace, interval: int, maxBatchSize: int, size: int)
    requires Counted(batches, pace) && pace.Valid(interval, maxBatchSize)
    requires interval >= 0 && size <= maxBatchSize && Mutations(batches + [batch]) == Mutations(batches) + size
    requires Interruptions(batches + [batch])
          == Interruptions(batches) + if pace.Due(interval, size).Some? then [pace.Due(interval, size).value] else []
    ensures PlacedAt(interval, maxBatchSize, batches + [batch], |batches|)
  {
    var all, n := batches + [batch], |batches|;
    SnocPrefix(batches, batch);
    assert all[..n] == batches && all[..n + 1] == all && all[n] == batch;
    InterruptedWhenDue(batches, batch, pace.Due(interval, size));
    DueMeans(pace, interval, maxBatchSize, size);
    ReachedMeans(interval, batches, all, pace.taken);
  }

  lemma ReachedMeans(interval: int, before: seq<Batch>, after: seq<Batch>, taken: int)
    requires |Interruptions(before)| == taken
    ensures Reached(interval, before, after) <==> Mutations(after) >= interval * (taken + 1)
  {
  }

  lemma InterruptedWhenDue(batches: seq<Batch>, batch: Batch, due: Option<Kind>)
    requires Interruptions(batches + [batch]) == Interruptions(batches) + if due.Some? then [due.value] else []
    ensures Interrupts(batch) <==> due.Some?
  {
    SnocPrefix(batches, batch);
    InterruptsMeans(batch);
    assert |Interruptions(batches + [batch])| == |Interruptions(batches)| + |InterruptionsIn(batch)|;
  }

  lemma PlacedStays(batches: seq<Batch>, batch: Batch, interval: int, maxBatchSize: int, k: nat)
    requires k < |batches| && PlacedAt(interval, maxBatchSize, batches, k)
    ensures PlacedAt(interval, maxBatchSize, batches + [batch], k)
  {
    var all := batches + [batch];
    assert all[..k] == batches[..k] && all[..k + 1] == batches[..k + 1] && all[k] == batches[k];
  }

  lemma PlacedStep(batches: seq<Batch>, batch: Batch, interval: int, maxBatchSize: int)
    requires Placed(interval, maxBatchSize, batches)
    requires PlacedAt(interval, maxBatchSize, batches + [batch], |batches|)
    ensures Placed(interval, maxBatchSize, batches + [batch])
  {
    forall k: nat | k < |batches| ensures PlacedAt(interval, maxBatchSize, batches + [batch], k) {
      assert PlacedAt(interval, maxBatchSize, batches, k);
      PlacedStays(batches, batch, interval, maxBatchSize, k);
    }
  }

  // All that the main loop keeps true of the trace so far: the validator accepts it and the pools fit it ...
  ghost predicate Sound(threadCount: int, batches: seq<Batch>, g: Pools, ledger: Ledger, nextId: int)
    requires threadCount >= 1
  {
    && Accepted(threadCount, batches, ledger) && Current(threadCount, ledger, g, nextId)
    && PoolsRead(threadCount, batches, g) && Aimed(batches)
    && Sparing(batches) && g.redacted == RedactedBy(batches)
  }

  // ... and its interruptions come on time.
  ghost predicate OnTime(maxBatchSize: int, interval: int, batches: seq<Batch>, pace: Pace) {
    && maxBatchSize >= 1 && interval >= 0
    && Counted(batches, pace) && pace.Valid(interval, maxBatchSize) && Placed(interval, maxBatchSize, batches)
  }

  ghost predicate Consistent(
    threadCount: int, maxBatchSize: int, interval: int, batches: seq<Batch>, g: Pools, pace: Pace, ledger: Ledger,
    nextId: int)
  {
    threadCount >= 1 && Sound(threadCount, batches, g, ledger, nextId) && OnTime(maxBatchSize, interval, batches, pace)
  }

  lemma OneMoreBatch(
    threadCount: int, maxBatchSize: int, interval: int, batches: seq<Batch>, g: Pools, pace: Pace, ledger: Ledger,
    nextId: int, batch: Batch, size: int, ledger': Ledger)
    requires Consistent(threadCount, maxBatchSize, interval, batches, g, pace, ledger, nextId)
    requires 1 <= size <= maxBatchSize && InThreads(threadCount, batch)
    requires Accepted(threadCount, batches + [batch], ledger')
    requires Current(threadCount, ledger', UpdateOps(g, threadCount, batch), nextId + |batch|)
    requires forall op :: op in batch && IsMutation(op) ==> FromPool(threadCount, g, op)
    requires Spares(g.redacted, batch)
    requires Mutations(batches + [batch]) == Mutations(batches) + size
    requires Interruptions(batches + [batch])
          == Interruptions(batches) + if pace.Due(interval, size).Some? then [pace.Due(interval, size).value] else []
    ensures Consistent(threadCount, maxBatchSize, interval, batches + [batch], UpdateOps(g, threadCount, batch),
                       pace.Advance(interval, size), ledger', nextId + |batch|)
  {
    UpdateRedacts(g, threadCount, batch);
    SparingStep(batches, batch, g.redacted);
    AimedStep(threadCount, batches, g, batch);
    PoolsReadStep(threadCount, batches, g, batch);
    PlacedNow(batches, batch, pace, interval, maxBatchSize, size);
    PlacedStep(batches, batch, interval, maxBatchSize);
    PaceStep(pace, interval, maxBatchSize, size);
    CountedStep(batches, batches + [batch], pace, interval, size);
  }

  lemma DrawnIsAppendable(
    g: Pools, s: Ledger, threadCount: int, batch: Batch, ops: Batch, kind: Option<Kind>, first: int)
    requires Current(threadCount, s, g, first) && Drawn(g, threadCount, ops) && ops != [] && Numbered(ops, first)
    requires Interrupted(batch, ops, kind, first)
    ensures Appendable(s, threadCount, batch, ops, kind, first)
  {
    DrawnPass(g, s, threadCount, ops);
  }

  lemma DrawnIsAppended(
    g: Pools, s: Ledger, threadCount: int, batches: seq<Batch>, batch: Batch, ops: Batch, kind: Option<Kind>,
    first: int)
    requires threadCount >= 1 && Accepted(threadCount, batches, s)
    requires Current(threadCount, s, g, first) && Drawn(g, threadCount, ops) && ops != [] && Numbered(ops, first)
    requires Interrupted(batch, ops, kind, first)
    ensures InThreads(threadCount, batch)
    ensures Accepted(threadCount, batches + [batch], ApplyBatch(FuzzTrace(threadCount, []), batch, s))
    ensures Current(threadCount, ApplyBatch(FuzzTrace(threadCount, []), batch, s), UpdateOps(g, threadCount, batch),
                    first + |batch|)
    ensures Mutations(batches + [batch]) == Mutations(batches) + |ops|
    ensures Interruptions(batches + [batch]) == Interruptions(batches) + if kind.Some? then [kind.value] else []
  {
    DrawnIsAppendable(g, s, threadCount, batch, ops, kind, first);
    AppendedAccepted(threadCount, batches, s, batch, ops, kind, first);
    AppendedCurrent(threadCount, s, g, batch, ops, kind, first);
  }

  // Draw a batch, and promote its head when it is to be interrupted.
  method DrawBatch(state: GenerationState, first: int, size: int, threadCount: int, kind: Option<Kind>, ghost s: Ledger)
    returns (batch: Batch, ghost ops: Batch)
    requires threadCount >= 1 && size >= 1 && (kind.Some? ==> kind.value.IsInterruption())
    requires Fits(state.Value(), s, threadCount)
    ensures Drawn(state.Value(), threadCount, ops) && Numbered(ops, first) && |ops| == size
    ensures Interrupted(batch, ops, kind, first) && Spares(state.redacted, batch)
  {
    batch := GenerateBatch(state, first, size, threadCount, s);
    ops := batch;
    if kind.Some? {
      batch := Promote(state, batch, first, threadCount, s);
      ops := batch;
      batch := batch + [Interruption(first + size, kind.value)];
    }
  }

  lemma DrawnFromPool(
    g: Pools, threadCount: int, batch: Batch, ops: Batch, kind: Option<Kind>, first: int)
    requires Drawn(g, threadCount, ops) && Interrupted(batch, ops, kind, first)
    ensures forall op :: op in batch && IsMutation(op) ==> FromPool(threadCount, g, op)
  {
    forall op | op in batch && IsMutation(op) ensures FromPool(threadCount, g, op) {
      assert op in ops || (kind.Some? && op == Interruption(first + |ops|, kind.value));
    }
  }

  // One turn of the loop: draw a batch, interrupt it when that is due, and record it.
  method NextBatch(
    state: GenerationState, first: int, size: int, threadCount: int, maxBatchSize: int, interval: int, pace: Pace,
    ghost batches: seq<Batch>, ghost s: Ledger)
    returns (batch: Batch, ghost after: Ledger)
    requires Consistent(threadCount, maxBatchSize, interval, batches, state.Value(), pace, s, first)
    requires 1 <= size <= maxBatchSize
    modifies state
    ensures Consistent(threadCount, maxBatchSize, interval, batches + [batch], state.Value(),
                       pace.Advance(interval, size), after, first + |batch|)
  {
    var kind := pace.Due(interval, size);
    ghost var ops;
    batch, ops := DrawBatch(state, first, size, threadCount, kind, s);
    after := ApplyBatch(FuzzTrace(threadCount, []), batch, s);
    DrawnFromPool(state.Value(), threadCount, batch, ops, kind, first);
    DrawnIsAppended(state.Value(), s, threadCount, batches, batch, ops, kind, first);
    OneMoreBatch(
      threadCount, maxBatchSize, interval, batches, state.Value(), pace, s, first, batch, size, after);
    state.Update(threadCount, batch);
  }

  // The generator's local variables, which its main loop updates batch by batch.
  class FuzzBuild {
    const threadCount: int
    const maxBatchSize: int
    const restartInterval: int
    const state: GenerationState
    var batches: seq<Batch>
    var pace: Pace
    var operationId: int
    ghost var ledger: Ledger  // the validator's, after the batches so far

    ghost predicate Valid()
      reads this, state
    {
      Consistent(threadCount, maxBatchSize, restartInterval, batches, state.Value(), pace, ledger, operationId)
    }

    constructor (threadCount: int, maxBatchSize: int, restartInterval: int)
      requires threadCount >= 1 && maxBatchSize >= 1 && restartInterval >= 0
      ensures Valid() && fresh(state) && pace.generated == 0
      ensures this.threadCount == threadCount && this.maxBatchSize == maxBatchSize
      ensures this.restartInterval == restartInterval
    {
      this.threadCount, this.maxBatchSize, this.restartInterval := threadCount, maxBatchSize, restartInterval;
      state := new GenerationState(threadCount, 1);
      batches, pace, operationId := [], Pace(0, 0, restartInterval), 0;
      ledger := InitialLedger(FuzzTrace(threadCount, []));
      new;
      InitialFits(FuzzTrace(threadCount, []));
      InitialPoolsRead(threadCount, 1);
    }

    // One turn of the main loop.
    method Step(steps: int)
      requires Valid() && pace.generated < steps
      modifies this, state
      ensures Valid() && old(pace.generated) < pace.generated <= steps
    {
      var drawn := RandInt(1, maxBatchSize);
      var size := if steps - pace.generated < drawn then steps - pace.generated else drawn;
      var batch;
      batch, ledger := NextBatch(
        state, operationId, size, threadCount, maxBatchSize, restartInterval, pace, batches, ledger);
      pace := pace.Advance(restartInterval, size);
      operationId := operationId + |batch|;
      batches := batches + [batch];
    }
  }

  lemma {:induction false} AcceptedPlacement(sc: Scenario, batches: seq<Batch>)
    requires sc.clientCount > 0 && sc.profile.Fuzz? && BatchesOk(sc, batches)
    ensures forall batch :: batch in batches ==> InterruptionPlacement(batch)
  {
    if batches != [] {
      AcceptedPlacement(sc, batches[..|batches| - 1]);
      assert batches == batches[..|batches| - 1] + [batches[|batches| - 1]];
    }
  }

  lemma AcceptedIsValid(threadCount: int, batches: seq<Batch>, s: Ledger)
    requires threadCount >= 1 && Accepted(threadCount, batches, s) && s.running
    ensures ValidTrace(FuzzTrace(threadCount, batches))
    ensures forall batch :: batch in batches ==> InterruptionPlacement(batch)
  {
    ShapeDecides(FuzzTrace(threadCount, []), FuzzTrace(threadCount, batches), batches);
    AcceptedPlacement(FuzzTrace(threadCount, batches), batches);
  }

  // live_scenario_from_seed: None is the ValueError for bad arguments.
  method LiveScenario(steps: int, threadCount: int, maxBatchSize: int, restartInterval: int)
    returns (trace: Option<Scenario>)
    ensures trace.None? <==> steps < 1 || threadCount < 1 || maxBatchSize < 1 || restartInterval < 0
    ensures trace.Some? ==>
              var batches := trace.value.batches;
              && trace.value == FuzzTrace(threadCount, batches)
              && ValidTrace(trace.value)
              && Mutations(batches) == steps
              && (forall batch :: batch in batches ==>
                    InterruptionPlacement(batch) && OncePerBatch(Edit, batch) && OncePerBatch(Redaction, batch))
              && SparesRedacted(batches)
              && Aimed(batches)
              && Placed(restartInterval, maxBatchSize, batches)
              && Alternates(Interruptions(batches))
              && (restartInterval == 0 ==> Interruptions(batches) == [])
              && (restartInterval > 0 ==> |Interruptions(batches)| <= steps / restartInterval)
              && (restartInterval > 0 && restartInterval >= maxBatchSize ==>
                    |Interruptions(batches)| == steps / restartInterval)
  {
    if steps < 1 || threadCount < 1 || maxBatchSize < 1 || restartInterval < 0 {
      return None;
    }
    var build := new FuzzBuild(threadCount, maxBatchSize, restartInterval);
    while build.pace.generated < steps
      invariant fresh(build) && fresh(build.state)
      invariant build.threadCount == threadCount && build.maxBatchSize == maxBatchSize
      invariant build.restartInterval == restartInterval
      invariant build.Valid() && build.pace.generated <= steps
    {
      build.Step(steps);
    }
    if restartInterval > 0 {
      PaceTotal(build.pace, restartInterval, maxBatchSize);
    }
    var batches := build.batches;
    SparingMeans(batches);
    var scenario := FuzzTrace(threadCount, batches);
    AcceptedIsValid(threadCount, batches, build.ledger);
    var accepted := TraceValidator.Validate(scenario);
    assert accepted;
    return Some(scenario);
  }
}

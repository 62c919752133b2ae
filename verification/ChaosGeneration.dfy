// The adversarial trace generator (chaos_scenario_from_seed). Whatever it draws, the
// validator accepts the trace: the two keep the same record of what has settled, what
// may never settle, and who wrote what.
module ChaosGeneration {

  import opened Options
  import opened Sequences
  import opened Traces
  import opened TraceValidation
  import opened TraceGeneration
  import opened TracePools
  import TraceMeaning

  // What the batch under construction has done so far.
  datatype InBatch = InBatch(redacted: set<Ref>, responseSources: set<Ref>, edited: set<Ref>, replies: set<(int, int)>)

  // What the generator believes about the replies of its own trace.
  datatype Replies = Replies(settled: set<Ref>, unusable: set<Ref>)

  // _response_target_allowed
  predicate ResponseTargetAllowed(
    redacted: set<Ref>, known: Replies, target: Ref, running: bool, batchRedacted: set<Ref>)
    requires target.Response?
  {
    if target in known.settled then true
    else if target in known.unusable then false
    else if target.source in redacted || target.source in batchRedacted then false
    else running
  }

  predicate Targetable(redacted: set<Ref>, known: Replies, running: bool, batchRedacted: set<Ref>, target: Ref) {
    target.Response? ==> ResponseTargetAllowed(redacted, known, target, running, batchRedacted)
  }

  // What any drawn operation satisfies: its target comes from a pool of its own thread.
  ghost predicate ChoiceOk(tuning: Tuning, g: Pools, known: Replies, running: bool, b: InBatch, op: Operation)
    requires g.Covers(tuning.threadCount)
  {
    && 0 <= op.thread < tuning.threadCount
    && 0 <= op.client < tuning.clientCount
    && op.cleanup == []
    && op.target.Some?
    && var t := op.target.value;
    match op.kind
    case ThreadMessage => t in g.messages[op.thread]
    case PlainReply => t in g.responses[op.thread] && Targetable(g.redacted, known, running, b.redacted, t)
    case Edit =>
      && t in g.editable[op.thread] && t !in g.redacted && t !in b.edited
      && t in g.authors && op.client == g.authors[t]
    case Reaction => t in g.reactionTargets[op.thread] && Targetable(g.redacted, known, running, b.redacted, t)
    case Redaction =>
      && t in g.redactable[op.thread] && t !in g.redacted && t !in b.redacted
      && (t in b.responseSources ==> Response(t) in known.settled)
      && t in g.authors && op.client == g.authors[t]
    case IdempotentRetry =>
      t in g.messages[op.thread] && t !in g.redacted && t in g.authors && op.client == g.authors[t]
    case _ => false
  }

  // The simulation between the generator's state and the validator's ledger.
  ghost predicate Simulates(tuning: Tuning, g: Pools, known: Replies, s: Ledger) {
    && Fits(g, s, tuning.threadCount)
    && g.authors == s.authors
    && known.settled == s.settled
    && known.unusable == s.unusable
    && s.settled !! s.unusable
    && s.settled + s.unusable <= s.knownResponses
    && (forall r :: r in s.knownEvents ==> r in s.authors && 0 <= s.authors[r] < tuning.clientCount)
  }

  // A drawn operation passes every per-operation rule of the validator.
  ghost predicate Passes(tuning: Tuning, s: Ledger, b: InBatch, op: Operation) {
    && MutationOk(tuning.Trace([]), op, s)
    && IsMutation(op)
    && op.cleanup == []
    && (op.kind.IsAuthored() ==> !op.target.value.Response?)
    && (op.kind.Edit? ==> op.target.value !in b.edited)
    && (op.kind.Redaction? ==> op.target.value !in b.redacted)
  }

  lemma ChoicePasses(tuning: Tuning, g: Pools, known: Replies, s: Ledger, b: InBatch, op: Operation)
    requires Simulates(tuning, g, known, s)
    requires ChoiceOk(tuning, g, known, s.running, b, op)
    ensures Passes(tuning, s, b, op)
  {
    assert ThreadFits(g, s, op.thread);
  }

  // What the generator remembers about the operations of the batch so far.
  ghost predicate Tracks(b: InBatch, ops: Batch) {
    && (forall op :: op in ops && op.kind.IsMessage() ==> (op.thread, op.client) in b.replies)
    && (forall op :: op in ops && op.kind.Edit? ==> op.target.Some? && op.target.value in b.edited)
    && (forall op :: op in ops && op.kind.Redaction? ==> op.target.Some? && op.target.value in b.redacted)
    && (forall op :: op in ops && op.target.Some? && op.target.value.Response? && !op.kind.IsAuthored() ==>
          op.target.value.source in b.responseSources)
  }

  // The batch so far, as the validator will judge it.
  ghost predicate PartialBatch(tuning: Tuning, s: Ledger, ops: Batch, b: InBatch) {
    && MutationBatchOk(tuning.Trace([]), ops, s)
    && (forall op :: op in ops ==> IsMutation(op) && op.cleanup == [])
    && (forall op :: op in ops && op.kind.IsAuthored() ==> op.target.Some? && !op.target.value.Response?)
    && Tracks(b, ops)
  }

  function AddToBatch(b: InBatch, op: Operation): InBatch
    requires op.target.Some?
  {
    var t := op.target.value;
    var replied := if op.kind.IsMessage() then b.(replies := b.replies + {(op.thread, op.client)}) else b;
    if op.kind.Redaction? then replied.(redacted := b.redacted + {t})
    else if op.kind.Edit? then replied.(edited := b.edited + {t})
    else if t.Response? then replied.(responseSources := b.responseSources + {t.source})
    else replied
  }

  lemma ExtendBatch(tuning: Tuning, s: Ledger, ops: Batch, b: InBatch, op: Operation)
    requires PartialBatch(tuning, s, ops, b) && Passes(tuning, s, b, op) && NoRedactionRace(ops + [op], s)
    requires op.id !in s.ids && forall p :: p in ops ==> p.id != op.id
    requires op.kind.IsMessage() ==> (op.thread, op.client) !in b.replies
    ensures PartialBatch(tuning, s, ops + [op], AddToBatch(b, op))
  {
    ExtendMutationBatch(tuning.Trace([]), s, ops, op, b);
    ExtendTracking(b, ops, op);
    assert forall p :: p in ops + [op] ==> p in ops || p == op;
  }

  lemma ExtendMutationBatch(sc: Scenario, s: Ledger, ops: Batch, op: Operation, b: InBatch)
    requires sc.profile.Chaos? && MutationBatchOk(sc, ops, s) && Tracks(b, ops)
    requires MutationOk(sc, op, s) && NoRedactionRace(ops + [op], s)
    requires op.id !in s.ids && forall p :: p in ops ==> p.id != op.id
    requires op.kind.IsMessage() ==> (op.thread, op.client) !in b.replies
    requires op.kind.Edit? ==> op.target.value !in b.edited
    requires op.kind.Redaction? ==> op.target.value !in b.redacted
    ensures MutationBatchOk(sc, ops + [op], s)
  {
    CollisionsSnoc(Chaos, ops, op);
    OnceSnoc(Edit, ops, op);
    OnceSnoc(Redaction, ops, op);
    ExtendIds(ops, op, s.ids);
    assert forall p :: p in ops + [op] ==> p in ops || p == op;
  }

  lemma ExtendTracking(b: InBatch, ops: Batch, op: Operation)
    requires Tracks(b, ops) && op.target.Some?
    ensures Tracks(AddToBatch(b, op), ops + [op])
  {
    assert forall p :: p in ops + [op] ==> p in ops || p == op;
  }

  lemma ExtendIds(ops: Batch, op: Operation, ids: set<int>)
    requires FreshIds(ops, ids) && op.id !in ids && forall p :: p in ops ==> p.id != op.id
    ensures FreshIds(ops + [op], ids)
  {
    var all := ops + [op];
    assert forall i :: 0 <= i < |ops| ==> all[i] == ops[i] && ops[i] in ops;
  }

  lemma NoNewRace(tuning: Tuning, g: Pools, known: Replies, s: Ledger, ops: Batch, b: InBatch, op: Operation)
    requires Simulates(tuning, g, known, s) && PartialBatch(tuning, s, ops, b)
    requires ChoiceOk(tuning, g, known, s.running, b, op)
    ensures NoRedactionRace(ops + [op], s)
  {
    var all := ops + [op];
    ChoicePasses(tuning, g, known, s, b, op);
    assert ThreadFits(g, s, op.thread);
    assert op.kind.ThreadMessage? ==> !op.target.value.Response?;
    forall i, j | 0 <= i < |all| && 0 <= j < |all| && all[i].kind.Redaction? && all[i].target.Some?
                  && all[i].target.value in s.messageEvents
                  && all[j].target == Some(Response(all[i].target.value))
      ensures Response(all[i].target.value) in s.settled
    {
      if i < |ops| && j < |ops| {
        assert ops[i] == all[i] && ops[j] == all[j];
      } else if i < |ops| {
        assert all[i] in ops;
      } else if j < |ops| {
        assert all[j] in ops;
      }
    }
  }

  // The redactions of a batch reach the same responses on both sides, though the generator
  // looks only at the pool of the redaction's own thread.
  function SuppressOp(g: Pools, threadCount: int, known: Replies, op: Operation): Replies
    requires g.Covers(threadCount) && 0 <= op.thread < threadCount
  {
    if op.kind.Redaction? && op.target.Some? && Response(op.target.value) in g.responses[op.thread]
       && Response(op.target.value) !in known.settled
    then known.(unusable := known.unusable + {Response(op.target.value)})
    else known
  }

  function SuppressOps(g: Pools, threadCount: int, known: Replies, ops: Batch): Replies
    requires g.Covers(threadCount) && InThreads(threadCount, ops)
  {
    if ops == [] then known
    else SuppressOp(g, threadCount, SuppressOps(g, threadCount, known, ops[..|ops| - 1]), ops[|ops| - 1])
  }

  lemma {:induction false} SameSuppression(g: Pools, threadCount: int, known: Replies, s: Ledger, ops: Batch)
    requires Fits(g, s, threadCount) && InThreads(threadCount, ops)
    requires known.settled == s.settled && known.unusable == s.unusable
    requires forall op :: op in ops && op.kind.Redaction? ==>
               op.target.Some? && op.target.value in g.redactable[op.thread]
    ensures SuppressOps(g, threadCount, known, ops) == Replies(s.settled, RedactOps(s, ops).unusable)
  {
    if ops != [] {
      var init, last := ops[..|ops| - 1], ops[|ops| - 1];
      SameSuppression(g, threadCount, known, s, init);
      RedactOpsFrame(s, init);
      assert ThreadFits(g, s, last.thread);
    }
  }

  // Appending an accepted batch keeps the simulation.
  lemma BatchKeepsSimulation(
    tuning: Tuning, g: Pools, known: Replies, s: Ledger, ops: Batch, b: InBatch,
    g': Pools, known': Replies, s': Ledger)
    requires Simulates(tuning, g, known, s) && PartialBatch(tuning, s, ops, b) && ops != []
    requires InThreads(tuning.threadCount, ops)
    requires forall op :: op in ops && op.kind.Redaction? ==>
               op.target.Some? && op.target.value in g.redactable[op.thread]
    requires g' == UpdateOps(g, tuning.threadCount, ops)
    requires known' == SuppressOps(g', tuning.threadCount, known, ops)
    requires s' == ApplyBatch(tuning.Trace([]), ops, s)
    ensures Simulates(tuning, g', known', s')
    ensures s'.running == s.running && s'.ids == s.ids + IdsOf(ops)
  {
    var registered := RegisterOps(s, ops).(ids := s.ids + IdsOf(ops));
    FitsOps(g, s, tuning.threadCount, ops);
    RegisterOpsFrame(s, ops);
    SameAuthors(g, s, tuning.threadCount, ops);
    RedactOpsKeepsIds(RegisterOps(s, ops), s.ids + IdsOf(ops), ops);
    RedactOpsFrame(registered, ops);
    assert !HasLifecycle(ops);
    assert s' == RedactOps(registered, ops);
    RedactablesGrow(g, tuning.threadCount, ops);
    SameSuppression(g', tuning.threadCount, known, registered, ops);
    FitsIgnores(g', registered, s', tuning.threadCount);
    forall r | r in s'.knownEvents ensures r in s'.authors && 0 <= s'.authors[r] < tuning.clientCount {
      AuthorsInRange(tuning, s, ops);
    }
  }

  lemma {:induction false} RedactablesGrow(g: Pools, threadCount: int, ops: Batch)
    requires g.Covers(threadCount) && InThreads(threadCount, ops)
    ensures forall t, r :: 0 <= t < threadCount && r in g.redactable[t] ==>
              r in UpdateOps(g, threadCount, ops).redactable[t]
  {
    if ops != [] {
      RedactablesGrow(g, threadCount, ops[..|ops| - 1]);
    }
  }

  lemma {:induction false} AuthorsInRange(tuning: Tuning, s: Ledger, ops: Batch)
    requires forall r :: r in s.knownEvents ==> r in s.authors && 0 <= s.authors[r] < tuning.clientCount
    requires forall op :: op in ops ==> 0 <= op.client < tuning.clientCount
    ensures forall r :: r in RegisterOps(s, ops).knownEvents ==>
              r in RegisterOps(s, ops).authors && 0 <= RegisterOps(s, ops).authors[r] < tuning.clientCount
  {
    if ops != [] {
      AuthorsInRange(tuning, s, ops[..|ops| - 1]);
      assert ops[|ops| - 1] in ops;
    }
  }

  // The validator accepts the batches built so far, and the generator's record simulates
  // the ledger the validator ends with.
  ghost predicate Consistent(
    tuning: Tuning, batches: seq<Batch>, g: Pools, known: Replies, generated: int, nextId: int)
    requires tuning.Valid()
  {
    && BatchesOk(tuning.Trace([]), batches)
    && ProbesOk(tuning.Trace([]), batches)
    && Simulates(tuning, g, known, LedgerAfter(tuning.Trace([]), batches))
    && Mutations(batches) == generated
    && Sparing(batches) && g.redacted == RedactedBy(batches)
    && PoolsRead(tuning.threadCount, batches, g) && Aimed(batches)
    && (forall id :: id in LedgerAfter(tuning.Trace([]), batches).ids ==> id < nextId)
  }

  // A batch drawn against the current state is accepted and keeps everything consistent.
  lemma AppendedBatch(
    tuning: Tuning, batches: seq<Batch>, g: Pools, known: Replies, generated: int, nextId: int,
    ops: Batch, b: InBatch)
    requires tuning.Valid() && Consistent(tuning, batches, g, known, generated, nextId)
    requires Drawable(tuning, LedgerAfter(tuning.Trace([]), batches), g, nextId, ops, b) && ops != []
    ensures var g' := UpdateOps(g, tuning.threadCount, ops);
            Consistent(tuning, batches + [ops], g', SuppressOps(g', tuning.threadCount, known, ops),
                       generated + |ops|, nextId)
    ensures LedgerAfter(tuning.Trace([]), batches + [ops]).running == LedgerAfter(tuning.Trace([]), batches).running
  {
    var s, s' := LedgerAfter(tuning.Trace([]), batches), LedgerAfter(tuning.Trace([]), batches + [ops]);
    var g' := UpdateOps(g, tuning.threadCount, ops);
    DrawnIsAccepted(tuning, batches, ops, s, g, nextId, b);
    DrawnIsSparing(tuning, batches, ops, g);
    AimedStep(tuning.threadCount, batches, g, ops);
    PoolsReadStep(tuning.threadCount, batches, g, ops);
    BatchKeepsSimulation(
      tuning, g, known, s, ops, b, g', SuppressOps(g', tuning.threadCount, known, ops), s');
    forall id | id in s'.ids ensures id < nextId {
      assert id in s.ids || id in IdsOf(ops);
    }
  }

  lemma DrawnIsSparing(tuning: Tuning, batches: seq<Batch>, ops: Batch, g: Pools)
    requires Sparing(batches) && g.redacted == RedactedBy(batches) && g.Covers(tuning.threadCount)
    requires InThreads(tuning.threadCount, ops) && Spares(g.redacted, ops)
    ensures Sparing(batches + [ops])
    ensures UpdateOps(g, tuning.threadCount, ops).redacted == RedactedBy(batches + [ops])
  {
    UpdateRedacts(g, tuning.threadCount, ops);
    SparingStep(batches, ops, g.redacted);
  }

  lemma DrawnIsAccepted(
    tuning: Tuning, batches: seq<Batch>, ops: Batch, s: Ledger, g: Pools, nextId: int, b: InBatch)
    requires tuning.Valid() && s == LedgerAfter(tuning.Trace([]), batches)
    requires BatchesOk(tuning.Trace([]), batches) && ProbesOk(tuning.Trace([]), batches)
    requires g.Covers(tuning.threadCount) && Drawable(tuning, s, g, nextId, ops, b) && ops != []
    ensures BatchesOk(tuning.Trace([]), batches + [ops]) && ProbesOk(tuning.Trace([]), batches + [ops])
    ensures LedgerAfter(tuning.Trace([]), batches + [ops]) == ApplyBatch(tuning.Trace([]), ops, s)
    ensures Mutations(batches + [ops]) == Mutations(batches) + |ops|
  {
    SnocPrefix(batches, ops);
    assert BatchOk(tuning.Trace([]), ops, s);
    assert ProbeBatchOk(Chaos, ops, SourcesAfter(tuning.Trace([]), batches));
  }

  // A lifecycle step the ledger allows is accepted and keeps everything consistent; a
  // checkpoint settles the same responses on both sides.
  lemma AppendedLifecycle(
    tuning: Tuning, batches: seq<Batch>, g: Pools, known: Replies, generated: int, op: Operation)
    requires tuning.Valid() && Consistent(tuning, batches, g, known, generated, op.id)
    requires op.kind.IsLifecycle() && op.thread == op.client == 0 && op.target.None? && op.cleanup == []
    requires LifecycleOk(tuning.Trace([]), op, LedgerAfter(tuning.Trace([]), batches))
    ensures LedgerAfter(tuning.Trace([]), batches + [[op]])
         == ApplyLifecycle(op, LedgerAfter(tuning.Trace([]), batches))
    ensures var settled := if op.kind.Checkpoint? then PooledResponses(g) - known.unusable else known.settled;
            Consistent(tuning, batches + [[op]], g, known.(settled := settled), generated, op.id + 1)
  {
    var s := LedgerAfter(tuning.Trace([]), batches);
    LifecycleIsAccepted(tuning, batches, op, s);
    LifecycleKeepsSimulation(tuning, g, known, s, op);
    LifecycleIsSparing(batches, op, g.redacted);
    LifecycleAddsNothing(tuning, batches, g, op);
  }

  lemma LifecycleUpdates(tuning: Tuning, g: Pools, op: Operation)
    requires g.Covers(tuning.threadCount) && 0 <= op.thread < tuning.threadCount && op.kind.IsLifecycle()
    ensures InThreads(tuning.threadCount, [op])
    ensures var g' := UpdateOps(g, tuning.threadCount, [op]); g == g'.(authors := g.authors)
  {
    var none: Batch := [];
    assert [op][..|[op]| - 1] == none && UpdateOps(g, tuning.threadCount, none) == g;
    assert UpdateOps(g, tuning.threadCount, [op]) == UpdateOp(g, tuning.threadCount, op);
  }

  lemma LifecycleAddsNothing(tuning: Tuning, batches: seq<Batch>, g: Pools, op: Operation)
    requires PoolsRead(tuning.threadCount, batches, g) && Aimed(batches) && 0 <= op.thread < tuning.threadCount
    requires op.kind.IsLifecycle()
    ensures PoolsRead(tuning.threadCount, batches + [[op]], g) && Aimed(batches + [[op]])
  {
    LifecycleUpdates(tuning, g, op);
    AimedStep(tuning.threadCount, batches, g, [op]);
    PoolsReadStep(tuning.threadCount, batches, g, [op]);
    PoolsReadPools(tuning.threadCount, batches + [[op]], UpdateOps(g, tuning.threadCount, [op]), g);
  }

  lemma LifecycleIsSparing(batches: seq<Batch>, op: Operation, gone: set<Ref>)
    requires Sparing(batches) && gone == RedactedBy(batches) && op.kind.IsLifecycle()
    ensures Sparing(batches + [[op]]) && RedactedBy(batches + [[op]]) == gone
  {
    SparingStep(batches, [op], gone);
    assert gone + RedactedIn([op]) == gone;
  }

  lemma LifecycleKeepsSimulation(tuning: Tuning, g: Pools, known: Replies, s: Ledger, op: Operation)
    requires Simulates(tuning, g, known, s) && op.kind.IsLifecycle()
    ensures var settled := if op.kind.Checkpoint? then PooledResponses(g) - known.unusable else known.settled;
            Simulates(tuning, g, known.(settled := settled), ApplyLifecycle(op, s))
  {
    PooledMessages(tuning, g, s);
    FitsIgnores(g, s, ApplyLifecycle(op, s), tuning.threadCount);
  }

  lemma LifecycleIsAccepted(tuning: Tuning, batches: seq<Batch>, op: Operation, s: Ledger)
    requires tuning.Valid() && s == LedgerAfter(tuning.Trace([]), batches)
    requires BatchesOk(tuning.Trace([]), batches) && ProbesOk(tuning.Trace([]), batches)
    requires op.kind.IsLifecycle() && op.cleanup == [] && LifecycleOk(tuning.Trace([]), op, s)
    ensures BatchesOk(tuning.Trace([]), batches + [[op]]) && ProbesOk(tuning.Trace([]), batches + [[op]])
    ensures LedgerAfter(tuning.Trace([]), batches + [[op]]) == ApplyLifecycle(op, s)
    ensures Mutations(batches + [[op]]) == Mutations(batches)
  {
    SnocPrefix(batches, [op]);
    assert op in [op];
    assert HasLifecycle([op]);
    assert MutationsIn([op]) == 0;
    assert BatchOk(tuning.Trace([]), [op], s);
    assert ProbeBatchOk(Chaos, [op], SourcesAfter(tuning.Trace([]), batches));
  }

  // MindRoom runs unless it was stopped, and checkpoints and cold restarts leave nothing to settle.
  lemma AfterLifecycle(op: Operation, s: Ledger)
    requires op.kind.IsLifecycle() && (op.kind.ColdRestartMindRoom? ==> s.settled == SettledWhenQuiet(s))
    requires if op.kind.StartMindRoom? then !s.running else s.running
    ensures var r := ApplyLifecycle(op, s);
            && r.running == !op.kind.StopMindRoom?
            && (op.kind.Checkpoint? || op.kind.ColdRestartMindRoom? ==> r.settled == SettledWhenQuiet(r))
  {
  }

  // The responses to every message in the pools.
  function PooledResponses(g: Pools): set<Ref> {
    ResponsesTo(set t: int, m | t in g.messages && m in g.messages[t] :: m)
  }

  lemma PooledMessages(tuning: Tuning, g: Pools, s: Ledger)
    requires Fits(g, s, tuning.threadCount)
    ensures PooledResponses(g) == ResponsesTo(s.messageEvents)
  {
    var messages := set t: int, m | t in g.messages && m in g.messages[t] :: m;
    forall m | m in messages ensures m in s.messageEvents {
      var t: int :| t in g.messages && m in g.messages[t];
      assert ThreadFits(g, s, t);
    }
    forall m | m in s.messageEvents ensures m in messages {
      assert InSomePool(g, tuning.threadCount, m);
      var t: int :| 0 <= t < tuning.threadCount && t in g.messages && m in g.messages[t];
      assert t in g.messages && m in g.messages[t];
    }
    assert messages == s.messageEvents;
  }

  // What the drawing of a batch promises besides the validator's rules.
  ghost predicate FromPools(tuning: Tuning, g: Pools, nextId: int, ops: Batch)
    requires g.Covers(tuning.threadCount)
  {
    && (forall op :: op in ops ==> op.id < nextId && FromPool(tuning.threadCount, g, op))
    && InThreads(tuning.threadCount, ops)
    && (forall op :: op in ops && op.kind.Redaction? ==>
          op.target.Some? && op.target.value in g.redactable[op.thread])
    && Spares(g.redacted, ops)
    && MutationsIn(ops) == |ops|
  }

  // What the drawing of a batch promises to the steps that record it.
  ghost predicate Drawable(tuning: Tuning, s: Ledger, g: Pools, nextId: int, ops: Batch, b: InBatch)
    requires g.Covers(tuning.threadCount)
  {
    PartialBatch(tuning, s, ops, b) && FromPools(tuning, g, nextId, ops)
  }

  lemma DrawnFromPools(tuning: Tuning, g: Pools, known: Replies, running: bool, ops: Batch, b: InBatch, op: Operation)
    requires g.Covers(tuning.threadCount) && FromPools(tuning, g, op.id, ops)
    requires ChoiceOk(tuning, g, known, running, b, op) && IsMutation(op)
    ensures FromPools(tuning, g, op.id + 1, ops + [op])
  {
    SnocPrefix(ops, op);
    assert forall p :: p in ops + [op] ==> p in ops || p == op;
  }

  lemma ExtendDrawn(tuning: Tuning, g: Pools, known: Replies, s: Ledger, ops: Batch, b: InBatch, op: Operation)
    requires Simulates(tuning, g, known, s) && Drawable(tuning, s, g, op.id, ops, b)
    requires ChoiceOk(tuning, g, known, s.running, b, op)
    requires forall id :: id in s.ids ==> id < op.id
    requires op.kind.IsMessage() ==> (op.thread, op.client) !in b.replies
    ensures Drawable(tuning, s, g, op.id + 1, ops + [op], AddToBatch(b, op))
  {
    ChoicePasses(tuning, g, known, s, b, op);
    NoNewRace(tuning, g, known, s, ops, b, op);
    ExtendBatch(tuning, s, ops, b, op);
    DrawnFromPools(tuning, g, known, s.running, ops, b, op);
  }

  // A consistent trace that leaves MindRoom running is accepted as it is.
  lemma ConsistentIsValid(
    tuning: Tuning, batches: seq<Batch>, g: Pools, known: Replies, generated: int, nextId: int)
    requires tuning.Valid() && Consistent(tuning, batches, g, known, generated, nextId)
    requires LedgerAfter(tuning.Trace([]), batches).running
    ensures ValidTrace(tuning.Trace(batches)) && SparesRedacted(batches) && Aimed(batches)
    ensures LedgerAfter(tuning.Trace(batches), batches).running
  {
    SparingMeans(batches);
    TraceMeaning.ShapeDecides(tuning.Trace([]), tuning.Trace(batches), batches);
  }

  lemma InitiallyConsistent(tuning: Tuning)
    requires tuning.Valid()
    ensures var roots := ResponsesTo(Roots(tuning.threadCount));
      Consistent(tuning, [], InitialPools(tuning.threadCount, tuning.clientCount), Replies(roots, {}), 0, 0)
    ensures LedgerAfter(tuning.Trace([]), []).running
  {
    var sc := tuning.Trace([]);
    InitialFits(sc);
    InitialPoolsRead(tuning.threadCount, tuning.clientCount);
    assert InitialLedger(sc).settled == ResponsesTo(Roots(sc.threadCount));
  }
}

// The rules LiveFuzzScenario.validate enforces, as functions of a trace. The
// imperative validator in TraceValidator.dfy is proved to decide exactly ValidTrace.
module TraceValidation {

  import opened Options
  import opened Sequences
  import opened Traces

  // The value of the harness's _ValidationState.
  datatype Ledger = Ledger(
    knownEvents: set<Ref>,
    knownResponses: set<Ref>,
    messageEvents: set<Ref>,
    settled: set<Ref>,
    unusable: set<Ref>,
    authors: map<Ref, int>,
    ids: set<int>,
    running: bool)

  function Roots(threadCount: int): set<Ref> {
    set t: int | 0 <= t < threadCount :: Root(t)
  }

  function ResponsesTo(messages: set<Ref>): set<Ref> {
    set m | m in messages :: Response(m)
  }

  function InitialLedger(sc: Scenario): Ledger
    requires sc.clientCount > 0
  {
    var roots := Roots(sc.threadCount);
    Ledger(
      roots, ResponsesTo(roots), roots, ResponsesTo(roots), {},
      map t: int | 0 <= t < sc.threadCount :: Root(t) := sc.RootClient(t),
      {}, true)
  }

  // ----- Registering an accepted batch (_register_batch_events) -----

  function RegisterOp(s: Ledger, op: Operation): Ledger {
    var retry := op.kind.IdempotentRetry?;
    var message := op.kind.IsMessage();
    s.(knownEvents := if retry then s.knownEvents else s.knownEvents + {op.EventRef()},
       authors := if retry then s.authors else s.authors[op.EventRef() := op.client],
       messageEvents := if message then s.messageEvents + {op.EventRef()} else s.messageEvents,
       knownResponses := if message then s.knownResponses + {Response(op.EventRef())} else s.knownResponses)
  }

  function RegisterOps(s: Ledger, ops: Batch): Ledger {
    if ops == [] then s else RegisterOp(RegisterOps(s, ops[..|ops| - 1]), ops[|ops| - 1])
  }

  // A redaction whose response has not settled may stop that response for good.
  function RedactOp(s: Ledger, op: Operation): Ledger {
    if op.kind.Redaction? && op.target.Some?
       && Response(op.target.value) in s.knownResponses && Response(op.target.value) !in s.settled
    then s.(unusable := s.unusable + {Response(op.target.value)})
    else s
  }

  function RedactOps(s: Ledger, ops: Batch): Ledger {
    if ops == [] then s else RedactOp(RedactOps(s, ops[..|ops| - 1]), ops[|ops| - 1])
  }

  // What has settled once nothing is in flight.
  function SettledWhenQuiet(s: Ledger): set<Ref> {
    ResponsesTo(s.messageEvents) - s.unusable
  }

  function Register(profile: Profile, s: Ledger, ops: Batch): Ledger {
    var r := RedactOps(RegisterOps(s, ops), ops);
    if profile.Chaos? then r else r.(settled := SettledWhenQuiet(r))
  }

  // ----- What one batch must satisfy -----

  // No two replies of a batch are owed to the same requester in the same thread. Only chaos
  // traces may owe two requesters of one thread a reply at once.
  predicate ReplyUniqueness(profile: Profile, batch: Batch) {
    forall i, j ::
      0 <= i < j < |batch| && batch[i].kind.IsMessage() && batch[j].kind.IsMessage()
      && batch[i].thread == batch[j].thread
      ==> profile.Chaos? && batch[i].client != batch[j].client
  }

  // No target is edited (or redacted) twice within one batch.
  predicate OncePerBatch(kind: Kind, batch: Batch) {
    forall i, j :: 0 <= i < j < |batch| && batch[i].kind == kind && batch[j].kind == kind ==>
      batch[i].target != batch[j].target
  }

  function IdsOf(batch: Batch): set<int> {
    set op | op in batch :: op.id
  }

  // Identifiers are new to the trace and to the batch.
  predicate FreshIds(batch: Batch, ids: set<int>) {
    && (forall i :: 0 <= i < |batch| ==> batch[i].id !in ids)
    && (forall i, j :: 0 <= i < j < |batch| ==> batch[i].id != batch[j].id)
  }

  // _validate_interruption_placement
  predicate InterruptionPlacement(batch: Batch) {
    && (forall i :: 0 <= i < |batch| && batch[i].kind.IsInterruption() ==> i == |batch| - 1)
    && ((exists op :: op in batch && op.kind.IsInterruption()) ==> exists op :: op in batch && op.kind.IsMessage())
  }

  // _validate_live_operation, apart from the identifier
  predicate FuzzOpOk(sc: Scenario, op: Operation, s: Ledger) {
    && 0 <= op.thread < sc.threadCount
    && if op.kind.IsInterruption() then op.target.None?
       else
         && op.target.Some?
         && (op.target.value in s.knownEvents || op.target.value in s.knownResponses)
         && (op.kind.IdempotentRetry? ==> op.target.value in s.messageEvents)
  }

  function WithoutInterruptions(batch: Batch): Batch {
    if batch == [] then []
    else
      var op := batch[|batch| - 1];
      WithoutInterruptions(batch[..|batch| - 1]) + if op.kind.IsInterruption() then [] else [op]
  }

  predicate FuzzBatchOk(sc: Scenario, batch: Batch, s: Ledger) {
    && (forall op :: op in batch && op.kind.IsLifecycle() ==> op.kind.IsInterruption())
    && InterruptionPlacement(batch)
    && FreshIds(batch, s.ids)
    && (forall op :: op in batch ==> FuzzOpOk(sc, op, s))
    && ReplyUniqueness(sc.profile, batch)
  }

  // _register_operation_id, apart from the identifier
  predicate InRange(sc: Scenario, op: Operation) {
    0 <= op.thread < sc.threadCount && 0 <= op.client < sc.clientCount
  }

  // _validate_mutation_operation, apart from the identifier
  predicate MutationOk(sc: Scenario, op: Operation, s: Ledger) {
    && InRange(sc, op)
    && op.target.Some?
    && var t := op.target.value;
    && (t in s.knownEvents || t in s.knownResponses)
    && (op.kind.IdempotentRetry? ==> t in s.messageEvents)
    && t !in s.unusable
    && (!s.running && t in s.knownResponses ==> t in s.settled)
    && (sc.profile.Chaos? && op.kind.IsAuthored() ==> t in s.authors && s.authors[t] == op.client)
  }

  // _validate_redaction_response_races: no operation of the batch waits for a response
  // that a redaction of the same batch may suppress.
  predicate NoRedactionRace(batch: Batch, s: Ledger) {
    forall i, j ::
      0 <= i < |batch| && 0 <= j < |batch| && batch[i].kind.Redaction? && batch[i].target.Some?
      && batch[i].target.value in s.messageEvents && batch[j].target == Some(Response(batch[i].target.value))
      ==> Response(batch[i].target.value) in s.settled
  }

  predicate MutationBatchOk(sc: Scenario, batch: Batch, s: Ledger) {
    && ReplyUniqueness(sc.profile, batch)
    && OncePerBatch(Edit, batch)
    && OncePerBatch(Redaction, batch)
    && NoRedactionRace(batch, s)
    && FreshIds(batch, s.ids)
    && (forall op :: op in batch ==> MutationOk(sc, op, s))
  }

  // _validate_lifecycle_operation
  predicate LifecycleOk(sc: Scenario, op: Operation, s: Ledger) {
    && op.id !in s.ids
    && InRange(sc, op)
    && op.target.None?
    && !(sc.profile.Saturation? || sc.profile.ShortStreamCorrectness?)
    && (if op.kind.StartMindRoom? then !s.running else s.running)
    && (op.kind.ColdRestartMindRoom? ==> s.settled == SettledWhenQuiet(s))
  }

  function ApplyLifecycle(op: Operation, s: Ledger): Ledger {
    var r := s.(ids := s.ids + {op.id});
    match op.kind
    case StartMindRoom => r.(running := true)
    case StopMindRoom => r.(running := false)
    case Checkpoint => r.(settled := SettledWhenQuiet(r))
    case _ => r
  }

  predicate HasLifecycle(batch: Batch) {
    exists op :: op in batch && op.kind.IsLifecycle()
  }

  // _validate_batch
  predicate BatchOk(sc: Scenario, batch: Batch, s: Ledger) {
    && batch != []
    && if sc.profile.Fuzz? then FuzzBatchOk(sc, batch, s)
       else if HasLifecycle(batch) then |batch| == 1 && LifecycleOk(sc, batch[0], s)
       else MutationBatchOk(sc, batch, s)
  }

  function ApplyBatch(sc: Scenario, batch: Batch, s: Ledger): Ledger {
    if sc.profile.Fuzz? then Register(Fuzz, s, WithoutInterruptions(batch)).(ids := s.ids + IdsOf(batch))
    else if HasLifecycle(batch) && |batch| == 1 then ApplyLifecycle(batch[0], s)
    else Register(sc.profile, s, batch).(ids := s.ids + IdsOf(batch))
  }

  // The ledger after a prefix of the trace.
  function LedgerAfter(sc: Scenario, batches: seq<Batch>): Ledger
    requires sc.clientCount > 0
  {
    if batches == [] then InitialLedger(sc)
    else ApplyBatch(sc, batches[|batches| - 1], LedgerAfter(sc, batches[..|batches| - 1]))
  }

  predicate BatchesOk(sc: Scenario, batches: seq<Batch>)
    requires sc.clientCount > 0
  {
    batches == []
    || (BatchesOk(sc, batches[..|batches| - 1])
        && BatchOk(sc, batches[|batches| - 1], LedgerAfter(sc, batches[..|batches| - 1])))
  }

  // ----- Batches and ledgers, operation by operation -----

  // Registering events and reserving identifiers touch different fields.
  lemma {:induction false} RegisterKeepsIds(profile: Profile, s: Ledger, ids: set<int>, ops: Batch)
    ensures Register(profile, s.(ids := ids), ops) == Register(profile, s, ops).(ids := ids)
  {
    RegisterOpsKeepsIds(s, ids, ops);
    RedactOpsKeepsIds(RegisterOps(s, ops), ids, ops);
  }

  lemma {:induction false} RegisterOpsKeepsIds(s: Ledger, ids: set<int>, ops: Batch)
    ensures RegisterOps(s.(ids := ids), ops) == RegisterOps(s, ops).(ids := ids)
  {
    if ops != [] {
      RegisterOpsKeepsIds(s, ids, ops[..|ops| - 1]);
    }
  }

  lemma {:induction false} RedactOpsKeepsIds(s: Ledger, ids: set<int>, ops: Batch)
    ensures RedactOps(s.(ids := ids), ops) == RedactOps(s, ops).(ids := ids)
  {
    if ops != [] {
      RedactOpsKeepsIds(s, ids, ops[..|ops| - 1]);
    }
  }

  lemma CollisionsSnoc(profile: Profile, init: Batch, last: Operation)
    ensures ReplyUniqueness(profile, init + [last]) <==>
              && ReplyUniqueness(profile, init)
              && (last.kind.IsMessage() ==>
                    forall op :: op in init && op.kind.IsMessage() && op.thread == last.thread ==>
                      profile.Chaos? && op.client != last.client)
  {
    var batch := init + [last];
    assert forall i :: 0 <= i < |init| ==> batch[i] == init[i];
    assert batch[|init|] == last;
  }

  lemma OnceSnoc(kind: Kind, init: Batch, last: Operation)
    ensures OncePerBatch(kind, init + [last]) <==>
              && OncePerBatch(kind, init)
              && (last.kind == kind ==> forall op :: op in init && op.kind == kind ==> op.target != last.target)
  {
    var batch := init + [last];
    assert forall i :: 0 <= i < |init| ==> batch[i] == init[i];
    assert batch[|init|] == last;
  }

  // ----- Cleanup probes (_validate_cleanup_probes) -----

  // Which thread each message source belongs to, and which sources were redacted.
  datatype SourceLog = SourceLog(threads: map<Ref, int>, redacted: set<Ref>)

  function InitialSources(sc: Scenario): SourceLog {
    SourceLog(map t: int | 0 <= t < sc.threadCount :: Root(t) := t, {})
  }

  function TrackSource(log: SourceLog, op: Operation): SourceLog {
    var threads :=
      if op.kind.IsMessage() then log.threads[op.EventRef() := op.thread]
      else if op.kind.Edit? && op.target.Some? && op.target.value in log.threads
      then log.threads[op.EventRef() := log.threads[op.target.value]]
      else log.threads;
    SourceLog(
      threads,
      if op.kind.Redaction? && op.target.Some? && op.target.value in threads
      then log.redacted + {op.target.value} else log.redacted)
  }

  function TrackSources(log: SourceLog, batch: Batch): SourceLog {
    if batch == [] then log else TrackSource(TrackSources(log, batch[..|batch| - 1]), batch[|batch| - 1])
  }

  function SourcesAfter(sc: Scenario, batches: seq<Batch>): SourceLog {
    if batches == [] then InitialSources(sc)
    else TrackSources(SourcesAfter(sc, batches[..|batches| - 1]), batches[|batches| - 1])
  }

  predicate ProbeOk(profile: Profile, op: Operation, log: SourceLog) {
    op.cleanup != [] ==>
      && (profile.Fuzz? || profile.Chaos?)
      && op.kind.ThreadMessage?
      && (forall source :: source in op.cleanup ==>
            source in log.redacted && source in log.threads && log.threads[source] == op.thread)
  }

  predicate ProbeBatchOk(profile: Profile, batch: Batch, log: SourceLog) {
    forall op :: op in batch ==> ProbeOk(profile, op, log)
  }

  predicate ProbesOk(sc: Scenario, batches: seq<Batch>) {
    batches == []
    || (ProbesOk(sc, batches[..|batches| - 1])
        && ProbeBatchOk(sc.profile, batches[|batches| - 1], SourcesAfter(sc, batches[..|batches| - 1])))
  }

  // ----- Saturation shape (_validate_saturation_shape) -----

  predicate TouchesParallelThread(batch: Batch) {
    exists op :: op in batch && op.thread != 0
  }

  function ParallelStart(batches: seq<Batch>): (i: nat)
    ensures i <= |batches|
    ensures i < |batches| ==> TouchesParallelThread(batches[i])
    ensures forall k :: 0 <= k < i ==> !TouchesParallelThread(batches[k])
  {
    if batches == [] || TouchesParallelThread(batches[0]) then 0 else 1 + ParallelStart(batches[1..])
  }

  function ThreadsOf(batch: Batch): seq<int> {
    seq(|batch|, i requires 0 <= i < |batch| => batch[i].thread)
  }

  function PhaseThreads(sc: Scenario, index: int): set<int> {
    if index < ParallelStart(sc.batches) then {0} else InitialTargets(sc).Keys - {0}
  }

  function InitialTargets(sc: Scenario): map<int, Ref> {
    map t: int | 0 <= t < sc.threadCount :: Response(Root(t))
  }

  function ChainTarget(targets: map<int, Ref>, op: Operation): map<int, Ref> {
    targets[op.thread := Response(op.EventRef())]
  }

  function ChainTargets(targets: map<int, Ref>, batch: Batch): map<int, Ref> {
    if batch == [] then targets
    else ChainTarget(ChainTargets(targets, batch[..|batch| - 1]), batch[|batch| - 1])
  }

  function TargetsAfter(sc: Scenario, batches: seq<Batch>): map<int, Ref> {
    if batches == [] then InitialTargets(sc)
    else ChainTargets(TargetsAfter(sc, batches[..|batches| - 1]), batches[|batches| - 1])
  }

  predicate SaturationOpOk(op: Operation, targets: map<int, Ref>) {
    && op.kind.ThreadMessage?
    && op.client == 0
    && op.thread in targets
    && op.target == Some(targets[op.thread])
  }

  // Every operation answers the response its thread is waiting behind.
  predicate ChainOk(batch: Batch, targets: map<int, Ref>) {
    batch == []
    || (ChainOk(batch[..|batch| - 1], targets)
        && SaturationOpOk(batch[|batch| - 1], ChainTargets(targets, batch[..|batch| - 1])))
  }

  predicate SaturationBatchOk(sc: Scenario, index: nat)
    requires index < |sc.batches|
  {
    var batch, phase := sc.batches[index], PhaseThreads(sc, index);
    && |batch| == |phase|
    && Elements(ThreadsOf(batch)) == phase
    && ChainOk(batch, TargetsAfter(sc, sc.batches[..index]))
  }

  predicate SaturationShape(sc: Scenario) {
    && sc.threadCount >= 2
    && sc.clientCount == 1
    && forall i :: 0 <= i < |sc.batches| ==> SaturationBatchOk(sc, i)
  }

  // ----- The whole check -----

  predicate FixedProfile(profile: Profile) {
    profile.RestartRegression? || profile.SustainedStreamCapacity?
  }

  predicate SaturationProfile(profile: Profile) {
    profile.Saturation? || profile.ShortStreamCorrectness?
  }

  predicate ValidTrace(sc: Scenario) {
    && sc.threadCount >= 1
    && sc.clientCount >= 1
    && sc.roomCount >= 1
    && !sc.profile.Unsupported?
    && ProbesOk(sc, sc.batches)
    && if FixedProfile(sc.profile)
       then sc.batches == [] && (sc.profile.RestartRegression? ==> sc.threadCount == 1)
       else
         && BatchesOk(sc, sc.batches)
         && (SaturationProfile(sc.profile) ==> SaturationShape(sc))
         && LedgerAfter(sc, sc.batches).running
  }
}

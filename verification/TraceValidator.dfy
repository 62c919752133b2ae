// The validator as the harness runs it: one mutable ledger, updated batch by batch.
// Its verdict is proved to be exactly the ValidTrace of TraceValidation.dfy.
module TraceValidator {

  import opened Options
  import opened Sequences
  import opened Traces
  import opened TraceValidation
  import TraceAcceptance
  import TraceRules

  class ValidationState {
    var knownEvents: set<Ref>
    var knownResponses: set<Ref>
    var messageEvents: set<Ref>
    var settled: set<Ref>
    var unusable: set<Ref>
    var authors: map<Ref, int>
    var ids: set<int>
    var running: bool

    function Value(): Ledger
      reads this
    {
      Ledger(knownEvents, knownResponses, messageEvents, settled, unusable, authors, ids, running)
    }

    constructor (sc: Scenario)
      requires sc.clientCount > 0
      ensures Value() == InitialLedger(sc)
    {
      var roots := Roots(sc.threadCount);
      knownEvents, messageEvents := roots, roots;
      knownResponses, settled := ResponsesTo(roots), ResponsesTo(roots);
      unusable, ids, running := {}, {}, true;
      authors := map t: int | 0 <= t < sc.threadCount :: Root(t) := sc.RootClient(t);
    }

    // Reserve the identifiers of a batch one by one; an identifier already taken by the
    // trace or by an earlier operation of the batch rejects the trace.
    method ReserveIds(batch: Batch) returns (ok: bool)
      modifies this`ids
      ensures ok <==> FreshIds(batch, old(ids))
      ensures ok ==> ids == old(ids) + IdsOf(batch)
    {
      for i := 0 to |batch|
        invariant ids == old(ids) + IdsOf(batch[..i])
        invariant FreshIds(batch[..i], old(ids))
      {
        PrefixStep(batch, i);
        assert forall k :: 0 <= k < i ==> batch[..i][k] == batch[k];
        if batch[i].id in ids {
          if batch[i].id !in old(ids) {
            var op :| op in batch[..i] && op.id == batch[i].id;
            var k :| 0 <= k < i && batch[..i][k] == op;
            assert !FreshIds(batch, old(ids));
          }
          return false;
        }
        ids := ids + {batch[i].id};
        assert IdsOf(batch[..i + 1]) == IdsOf(batch[..i]) + {batch[i].id};
      }
      assert batch[..|batch|] == batch;
      return true;
    }

    method RegisterBatchEvents(profile: Profile, ops: Batch)
      modifies this`knownEvents, this`knownResponses, this`messageEvents, this`authors, this`unusable, this`settled
      ensures Value() == Register(profile, old(Value()), ops)
    {
      for i := 0 to |ops|
        invariant Value() == RegisterOps(old(Value()), ops[..i])
      {
        PrefixStep(ops, i);
        var op := ops[i];
        if !op.kind.IdempotentRetry? {
          knownEvents := knownEvents + {op.EventRef()};
          authors := authors[op.EventRef() := op.client];
        }
        if op.kind.IsMessage() {
          messageEvents := messageEvents + {op.EventRef()};
          knownResponses := knownResponses + {Response(op.EventRef())};
        }
      }
      assert ops[..|ops|] == ops;
      ghost var registered := Value();
      for i := 0 to |ops|
        invariant Value() == RedactOps(registered, ops[..i])
      {
        PrefixStep(ops, i);
        var op := ops[i];
        if op.kind.Redaction? && op.target.Some? {
          var response := Response(op.target.value);
          if response in knownResponses && response !in settled {
            unusable := unusable + {response};
          }
        }
      }
      if !profile.Chaos? {
        settled := ResponsesTo(messageEvents) - unusable;
      }
    }

    method ValidateLifecycleOperation(sc: Scenario, op: Operation) returns (ok: bool)
      requires op.kind.IsLifecycle()
      modifies this`ids, this`settled, this`running
      ensures ok <==> LifecycleOk(sc, op, old(Value()))
      ensures ok ==> Value() == ApplyLifecycle(op, old(Value()))
      ensures sc.clientCount > 0 && TraceRules.Traced(sc.profile) && !sc.profile.Fuzz? ==>
        forall before :: TraceRules.Reads(sc, before, old(Value())) ==>
          (ok <==> TraceRules.NewIds(before, [op]) && TraceRules.LifecycleRules(sc, before, op))
    {
      LifecycleReads(sc, op, Value());
      if op.id in ids {
        return false;
      }
      ids := ids + {op.id};
      if !InRange(sc, op) || op.target.Some? || SaturationProfile(sc.profile) {
        return false;
      }
      if op.kind.StartMindRoom? {
        if running {
          return false;
        }
        running := true;
        return true;
      }
      if !running {
        return false;
      }
      if op.kind.StopMindRoom? {
        running := false;
        return true;
      }
      var quiet := ResponsesTo(messageEvents) - unusable;
      if op.kind.Checkpoint? {
        settled := quiet;
        return true;
      }
      return !(op.kind.ColdRestartMindRoom? && settled != quiet);
    }

    // Reject a batch racing a redaction against a reply that has not settled.
    method ValidateRedactionRaces(batch: Batch) returns (ok: bool)
      ensures ok <==> NoRedactionRace(batch, Value())
    {
      var redacted := set op |
        op in batch && op.kind.Redaction? && op.target.Some? && op.target.value in messageEvents :: op.target.value;
      var unsettled := set op |
        op in batch && op.target.Some? && op.target.value.Response? && op.target.value !in settled :: op.target.value;
      var conflicts := ResponsesTo(redacted) * unsettled;
      ok := conflicts == {};
      if ok {
        forall i, j |
          0 <= i < |batch| && 0 <= j < |batch| && batch[i].kind.Redaction? && batch[i].target.Some?
          && batch[i].target.value in messageEvents && batch[j].target == Some(Response(batch[i].target.value))
          ensures Response(batch[i].target.value) in settled
        {
          assert batch[i] in batch && batch[j] in batch;
          assert batch[i].target.value in redacted;
          assert Response(batch[i].target.value) !in conflicts;
        }
      } else {
        var r :| r in conflicts;
        var m :| m in redacted && Response(m) == r;
        var op :| op in batch && op.kind.Redaction? && op.target == Some(m);
        var late :| late in batch && late.target == Some(r);
        var i :| 0 <= i < |batch| && batch[i] == op;
        var j :| 0 <= j < |batch| && batch[j] == late;
      }
    }

    method ValidateMutation(sc: Scenario, op: Operation) returns (ok: bool)
      ensures ok <==> MutationOk(sc, op, Value())
      ensures sc.clientCount > 0 ==> forall before :: TraceRules.Reads(sc, before, Value()) ==>
        (ok <==> TraceRules.MutationRule(sc, before, op))
    {
      if sc.clientCount > 0 {
        forall before | TraceRules.Reads(sc, before, Value())
          ensures MutationOk(sc, op, Value()) <==> TraceRules.MutationRule(sc, before, op)
        {
          TraceRules.TargetMeans(sc, before, op, Value());
        }
      }
      if !InRange(sc, op) || op.target.None? {
        return false;
      }
      var target := op.target.value;
      if target !in knownEvents && target !in knownResponses {
        return false;
      }
      if op.kind.IdempotentRetry? && target !in messageEvents {
        return false;
      }
      if target in unusable {
        return false;
      }
      if !running && target in knownResponses - settled {
        return false;
      }
      if !sc.profile.Chaos? {
        return true;
      }
      if op.kind.IsAuthored() {
        if target !in authors {
          return false;
        }
        if authors[target] != op.client {
          return false;
        }
      }
      return true;
    }

    method ValidateLiveOperation(sc: Scenario, op: Operation) returns (ok: bool)
      ensures ok <==> FuzzOpOk(sc, op, Value())
    {
      if !(0 <= op.thread < sc.threadCount) {
        return false;
      }
      if op.kind.IsInterruption() {
        return op.target.None?;
      }
      if op.target.None? || op.target.value !in knownEvents + knownResponses {
        return false;
      }
      return !(op.kind.IdempotentRetry? && op.target.value !in messageEvents);
    }

    method ValidateMutations(sc: Scenario, batch: Batch) returns (ok: bool)
      modifies this`ids
      ensures ok <==> FreshIds(batch, old(ids)) && forall op :: op in batch ==> MutationOk(sc, op, old(Value()))
      ensures ok ==> ids == old(ids) + IdsOf(batch)
    {
      for i := 0 to |batch|
        invariant forall k :: 0 <= k < i ==> MutationOk(sc, batch[k], Value())
        invariant ids == old(ids)
      {
        var allowed := ValidateMutation(sc, batch[i]);
        if !allowed {
          return false;
        }
      }
      ok := ReserveIds(batch);
    }

    method ValidateLiveOperations(sc: Scenario, batch: Batch) returns (ok: bool)
      modifies this`ids
      ensures ok <==> FreshIds(batch, old(ids)) && forall op :: op in batch ==> FuzzOpOk(sc, op, old(Value()))
      ensures ok ==> ids == old(ids) + IdsOf(batch)
    {
      for i := 0 to |batch|
        invariant forall k :: 0 <= k < i ==> FuzzOpOk(sc, batch[k], Value())
        invariant ids == old(ids)
      {
        var allowed := ValidateLiveOperation(sc, batch[i]);
        if !allowed {
          return false;
        }
      }
      ok := ReserveIds(batch);
    }

    method ValidateBatch(sc: Scenario, batch: Batch) returns (ok: bool)
      requires !FixedProfile(sc.profile)
      modifies this
      ensures ok <==> BatchOk(sc, batch, old(Value()))
      ensures ok ==> Value() == ApplyBatch(sc, batch, old(Value()))
      ensures sc.clientCount > 0 && TraceRules.Traced(sc.profile) ==>
        forall before :: TraceRules.Reads(sc, before, old(Value())) ==>
          && (ok <==> TraceRules.BatchRules(sc, before, batch))
          && (ok ==> TraceRules.Reads(sc, before + [batch], Value()))
    {
      BatchesRead(sc, batch, Value());
      if batch == [] {
        return false;
      }
      if sc.profile.Fuzz? {
        if exists op :: op in batch && op.kind.IsLifecycle() && !op.kind.IsInterruption() {
          return false;
        }
        var placed := ValidateInterruptionPlacement(batch);
        if !placed {
          return false;
        }
        var allowed := ValidateLiveOperations(sc, batch);
        if !allowed {
          return false;
        }
        RegisterBatchEvents(sc.profile, WithoutInterruptions(batch));
        RegisterKeepsIds(sc.profile, old(Value()), ids, WithoutInterruptions(batch));
        ok := ValidateReplyUniqueness(sc.profile, batch);
        return;
      }
      if HasLifecycle(batch) {
        if |batch| != 1 {
          return false;
        }
        ok := ValidateLifecycleOperation(sc, batch[0]);
        return;
      }
      var replies := ValidateReplyUniqueness(sc.profile, batch);
      var edits := ValidateTargetUniqueness(Edit, batch);
      var redactions := ValidateTargetUniqueness(Redaction, batch);
      var races := ValidateRedactionRaces(batch);
      if !replies || !edits || !redactions || !races {
        return false;
      }
      ok := ValidateMutations(sc, batch);
      if ok {
        RegisterBatchEvents(sc.profile, batch);
        RegisterKeepsIds(sc.profile, old(Value()), ids, batch);
      }
    }
  }

  lemma LifecycleReads(sc: Scenario, op: Operation, s: Ledger)
    requires op.kind.IsLifecycle()
    ensures sc.clientCount > 0 && TraceRules.Traced(sc.profile) && !sc.profile.Fuzz? ==>
      forall before :: TraceRules.Reads(sc, before, s) ==>
        (LifecycleOk(sc, op, s) <==> TraceRules.NewIds(before, [op]) && TraceRules.LifecycleRules(sc, before, op))
  {
    if sc.clientCount > 0 && TraceRules.Traced(sc.profile) && !sc.profile.Fuzz? {
      forall before | TraceRules.Reads(sc, before, s)
        ensures LifecycleOk(sc, op, s) <==> TraceRules.NewIds(before, [op]) && TraceRules.LifecycleRules(sc, before, op)
      {
        TraceRules.LifecycleMeans(sc, before, op, s);
      }
    }
  }

  // Whatever batches the ledger stands for, they decide, and it goes on to stand for one more.
  lemma BatchesRead(sc: Scenario, batch: Batch, s: Ledger)
    ensures sc.clientCount > 0 && TraceRules.Traced(sc.profile) ==>
      forall before :: TraceRules.Reads(sc, before, s) ==>
        && (BatchOk(sc, batch, s) <==> TraceRules.BatchRules(sc, before, batch))
        && (BatchOk(sc, batch, s) ==> TraceRules.Reads(sc, before + [batch], ApplyBatch(sc, batch, s)))
  {
    if sc.clientCount > 0 && TraceRules.Traced(sc.profile) {
      forall before | TraceRules.Reads(sc, before, s)
        ensures BatchOk(sc, batch, s) <==> TraceRules.BatchRules(sc, before, batch)
        ensures BatchOk(sc, batch, s) ==> TraceRules.Reads(sc, before + [batch], ApplyBatch(sc, batch, s))
      {
        TraceRules.RulesMean(sc, before, batch, s);
        if BatchOk(sc, batch, s) {
          TraceRules.ReadsStep(sc, before, batch, s);
        }
      }
    }
  }

  // len(keys) == len(set(keys))
  predicate AllDifferent<T(==)>(keys: seq<T>)
    ensures AllDifferent(keys) <==> Distinct(keys)
  {
    DistinctIffAsManyElements(keys);
    |Elements(keys)| == |keys|
  }

  // [key(op) for op in batch if pick(op)]
  function Collect<K>(pick: Operation -> bool, key: Operation -> K, batch: Batch): seq<K> {
    if batch == [] then []
    else
      var op := batch[|batch| - 1];
      Collect(pick, key, batch[..|batch| - 1]) + if pick(op) then [key(op)] else []
  }

  predicate NoCollision<K(==)>(pick: Operation -> bool, key: Operation -> K, batch: Batch) {
    forall i, j :: 0 <= i < j < |batch| && pick(batch[i]) && pick(batch[j]) ==> key(batch[i]) != key(batch[j])
  }

  lemma {:induction false} CollectedKeys<K>(pick: Operation -> bool, key: Operation -> K, batch: Batch, k: K)
    ensures k in Collect(pick, key, batch) <==> exists op :: op in batch && pick(op) && key(op) == k
  {
    if batch != [] {
      CollectedKeys(pick, key, batch[..|batch| - 1], k);
      assert batch == batch[..|batch| - 1] + [batch[|batch| - 1]];
    }
  }

  // The collected keys are all different exactly when no two operations collide.
  lemma {:induction false} DistinctKeys<K>(pick: Operation -> bool, key: Operation -> K, batch: Batch)
    ensures Distinct(Collect(pick, key, batch)) <==> NoCollision(pick, key, batch)
  {
    if batch != [] {
      var init, last := batch[..|batch| - 1], batch[|batch| - 1];
      DistinctKeys(pick, key, init);
      CollectedKeys(pick, key, init, key(last));
      DistinctSnoc(Collect(pick, key, init), key(last));
      assert batch == init + [last];
      NoCollisionSnoc(pick, key, init, last);
      if !pick(last) {
        assert Collect(pick, key, batch) == Collect(pick, key, init);
      }
    }
  }

  lemma NoCollisionSnoc<K>(pick: Operation -> bool, key: Operation -> K, init: Batch, last: Operation)
    ensures NoCollision(pick, key, init + [last]) <==>
              && NoCollision(pick, key, init)
              && (pick(last) ==> forall op :: op in init && pick(op) ==> key(op) != key(last))
  {
    var batch := init + [last];
    assert forall i :: 0 <= i < |init| ==> batch[i] == init[i];
    assert batch[|init|] == last;
  }

  method ValidateReplyUniqueness(profile: Profile, batch: Batch) returns (ok: bool)
    ensures ok <==> ReplyUniqueness(profile, batch)
  {
    var isMessage := (op: Operation) => op.kind.IsMessage();
    var key, thread := (op: Operation) => (op.thread, op.client), (op: Operation) => op.thread;
    DistinctKeys(isMessage, key, batch);
    DistinctKeys(isMessage, thread, batch);
    assert NoCollision(isMessage, key, batch) <==> ReplyUniqueness(Chaos, batch);
    assert NoCollision(isMessage, thread, batch) <==> ReplyUniqueness(Fuzz, batch);
    ok := AllDifferent(Collect(isMessage, key, batch))
          && (profile.Chaos? || AllDifferent(Collect(isMessage, thread, batch)));
  }

  method ValidateTargetUniqueness(kind: Kind, batch: Batch) returns (ok: bool)
    ensures ok <==> OncePerBatch(kind, batch)
  {
    var isKind, target := (op: Operation) => op.kind == kind, (op: Operation) => op.target;
    DistinctKeys(isKind, target, batch);
    assert NoCollision(isKind, target, batch) <==> OncePerBatch(kind, batch);
    ok := AllDifferent(Collect(isKind, target, batch));
  }

  method ValidateInterruptionPlacement(batch: Batch) returns (ok: bool)
    ensures ok <==> InterruptionPlacement(batch)
  {
    var positions: seq<int> := [];
    for i := 0 to |batch|
      invariant forall k :: k in positions <==> 0 <= k < i && batch[k].kind.IsInterruption()
      invariant forall a :: 0 <= a < |positions| ==> positions[a] < i
      invariant forall a, b :: 0 <= a < b < |positions| ==> positions[a] < positions[b]
    {
      if batch[i].kind.IsInterruption() {
        positions := positions + [i];
      }
    }
    if positions == [] {
      forall op | op in batch ensures !op.kind.IsInterruption() {
        var k :| 0 <= k < |batch| && batch[k] == op;
        assert k !in positions;
      }
      return true;
    }
    assert positions[0] in positions;
    if |positions| != 1 || positions[0] != |batch| - 1 {
      if |positions| != 1 {
        assert positions[1] in positions && positions[0] < positions[1] < |batch|;
      }
      return false;
    }
    assert batch[positions[0]] in batch;
    return exists op :: op in batch && op.kind.IsMessage();
  }

  // The probes of one batch against the sources known and redacted before it.
  method ValidateProbeBatch(profile: Profile, batch: Batch, threads: map<Ref, int>, redacted: set<Ref>)
    returns (ok: bool)
    ensures ok <==> ProbeBatchOk(profile, batch, SourceLog(threads, redacted))
  {
    for i := 0 to |batch|
      invariant forall k :: 0 <= k < i ==> ProbeOk(profile, batch[k], SourceLog(threads, redacted))
    {
      var op := batch[i];
      if op.cleanup != [] {
        if !(profile.Fuzz? || profile.Chaos?) || !op.kind.ThreadMessage?
           || exists source :: source in op.cleanup
                && (source !in redacted || source !in threads || threads[source] != op.thread) {
          assert !ProbeOk(profile, op, SourceLog(threads, redacted));
          return false;
        }
      }
    }
    return true;
  }

  method ValidateCleanupProbes(sc: Scenario) returns (ok: bool)
    ensures ok <==> ProbesOk(sc, sc.batches)
  {
    var threads: map<Ref, int> := map t: int | 0 <= t < sc.threadCount :: Root(t) := t;
    var redacted: set<Ref> := {};
    for i := 0 to |sc.batches|
      invariant ProbesOk(sc, sc.batches[..i])
      invariant SourceLog(threads, redacted) == SourcesAfter(sc, sc.batches[..i])
    {
      PrefixStep(sc.batches, i);
      var batch := sc.batches[i];
      var named := ValidateProbeBatch(sc.profile, batch, threads, redacted);
      if !named {
        RejectedPrefix(sc, i + 1);
        return false;
      }
      ghost var log := SourceLog(threads, redacted);
      for j := 0 to |batch|
        invariant SourceLog(threads, redacted) == TrackSources(log, batch[..j])
      {
        PrefixStep(batch, j);
        var op := batch[j];
        if op.kind.IsMessage() {
          threads := threads[op.EventRef() := op.thread];
        } else if op.kind.Edit? && op.target.Some? && op.target.value in threads {
          threads := threads[op.EventRef() := threads[op.target.value]];
        }
        if op.kind.Redaction? && op.target.Some? && op.target.value in threads {
          redacted := redacted + {op.target.value};
        }
      }
      assert batch[..|batch|] == batch;
    }
    assert sc.batches[..|sc.batches|] == sc.batches;
    return true;
  }

  lemma {:induction false} RejectedPrefix(sc: Scenario, n: nat)
    requires n <= |sc.batches|
    requires !ProbesOk(sc, sc.batches[..n])
    ensures !ProbesOk(sc, sc.batches)
    decreases |sc.batches| - n
  {
    if n == |sc.batches| {
      assert sc.batches[..n] == sc.batches;
    } else {
      PrefixStep(sc.batches, n);
      RejectedPrefix(sc, n + 1);
    }
  }

  lemma {:induction false} RejectedBatches(sc: Scenario, n: nat)
    requires sc.clientCount > 0
    requires n <= |sc.batches|
    requires !BatchesOk(sc, sc.batches[..n])
    ensures !BatchesOk(sc, sc.batches)
    decreases |sc.batches| - n
  {
    if n == |sc.batches| {
      assert sc.batches[..n] == sc.batches;
    } else {
      PrefixStep(sc.batches, n);
      RejectedBatches(sc, n + 1);
    }
  }

  lemma {:induction false} RejectedChain(batch: Batch, targets: map<int, Ref>, n: nat)
    requires n <= |batch|
    requires !ChainOk(batch[..n], targets)
    ensures !ChainOk(batch, targets)
    decreases |batch| - n
  {
    if n == |batch| {
      assert batch[..n] == batch;
    } else {
      PrefixStep(batch, n);
      RejectedChain(batch, targets, n + 1);
    }
  }

  method ValidateChain(batch: Batch, targets: map<int, Ref>) returns (ok: bool, expected: map<int, Ref>)
    ensures ok <==> ChainOk(batch, targets)
    ensures ok ==> expected == ChainTargets(targets, batch)
  {
    expected := targets;
    for j := 0 to |batch|
      invariant expected == ChainTargets(targets, batch[..j])
      invariant ChainOk(batch[..j], targets)
    {
      PrefixStep(batch, j);
      if !SaturationOpOk(batch[j], expected) {
        RejectedChain(batch, targets, j + 1);
        return false, expected;
      }
      expected := ChainTarget(expected, batch[j]);
    }
    assert batch[..|batch|] == batch;
    return true, expected;
  }

  method ValidateSaturationShape(sc: Scenario) returns (ok: bool)
    ensures ok <==> SaturationShape(sc)
  {
    if sc.threadCount < 2 || sc.clientCount != 1 {
      return false;
    }
    var expected := InitialTargets(sc);
    for i := 0 to |sc.batches|
      invariant forall k :: 0 <= k < i ==> SaturationBatchOk(sc, k)
      invariant expected == TargetsAfter(sc, sc.batches[..i])
    {
      PrefixStep(sc.batches, i);
      var batch, phase := sc.batches[i], PhaseThreads(sc, i);
      if |batch| != |phase| || Elements(ThreadsOf(batch)) != phase {
        assert !SaturationBatchOk(sc, i);
        return false;
      }
      var chained, next := ValidateChain(batch, expected);
      if !chained {
        assert !SaturationBatchOk(sc, i);
        return false;
      }
      expected := next;
    }
    return true;
  }

  // Recognizing one more batch.
  lemma OneMoreBatch(sc: Scenario, i: nat)
    requires sc.clientCount > 0 && i < |sc.batches|
    ensures BatchesOk(sc, sc.batches[..i + 1]) <==>
      BatchesOk(sc, sc.batches[..i]) && BatchOk(sc, sc.batches[i], LedgerAfter(sc, sc.batches[..i]))
    ensures LedgerAfter(sc, sc.batches[..i + 1]) == ApplyBatch(sc, sc.batches[i], LedgerAfter(sc, sc.batches[..i]))
  {
    PrefixStep(sc.batches, i);
  }

  // What the scan of the batches knows after the first i of them.
  ghost predicate Scanned(sc: Scenario, i: nat, s: Ledger)
    requires sc.clientCount > 0 && i <= |sc.batches|
  {
    BatchesOk(sc, sc.batches[..i]) && s == LedgerAfter(sc, sc.batches[..i])
  }

  lemma ScanStarts(sc: Scenario)
    requires sc.clientCount > 0
    ensures Scanned(sc, 0, InitialLedger(sc))
  {
  }

  lemma ScanGoesOn(sc: Scenario, i: nat, s: Ledger)
    requires sc.clientCount > 0 && i < |sc.batches| && Scanned(sc, i, s)
    ensures BatchOk(sc, sc.batches[i], s) ==> Scanned(sc, i + 1, ApplyBatch(sc, sc.batches[i], s))
    ensures !BatchOk(sc, sc.batches[i], s) ==> !BatchesOk(sc, sc.batches)
  {
    OneMoreBatch(sc, i);
    if !BatchOk(sc, sc.batches[i], s) {
      RejectedBatches(sc, i + 1);
    }
  }

  lemma ScanEnds(sc: Scenario, s: Ledger)
    requires sc.clientCount > 0 && Scanned(sc, |sc.batches|, s)
    ensures BatchesOk(sc, sc.batches) && s == LedgerAfter(sc, sc.batches)
  {
    assert sc.batches[..|sc.batches|] == sc.batches;
  }

  method ValidateBatches(sc: Scenario) returns (ok: bool, running: bool)
    requires sc.clientCount > 0 && !FixedProfile(sc.profile)
    ensures ok <==> BatchesOk(sc, sc.batches)
    ensures ok ==> running == LedgerAfter(sc, sc.batches).running
  {
    var state := new ValidationState(sc);
    ScanStarts(sc);
    for i := 0 to |sc.batches|
      invariant fresh(state)
      invariant Scanned(sc, i, state.Value())
    {
      ScanGoesOn(sc, i, state.Value());
      var accepted := state.ValidateBatch(sc, sc.batches[i]);
      if !accepted {
        return false, false;
      }
    }
    ScanEnds(sc, state.Value());
    return true, state.running;
  }

  method Validate(sc: Scenario) returns (ok: bool)
    ensures ok <==> ValidTrace(sc)
    ensures ok <==> TraceAcceptance.Acceptable(sc)
  {
    TraceAcceptance.AcceptedIff(sc);
    if sc.threadCount < 1 || sc.clientCount < 1 || sc.roomCount < 1 || sc.profile.Unsupported? {
      return false;
    }
    var probes := ValidateCleanupProbes(sc);
    if !probes {
      return false;
    }
    if FixedProfile(sc.profile) {
      return sc.batches == [] && (sc.profile.RestartRegression? ==> sc.threadCount == 1);
    }
    var accepted, running := ValidateBatches(sc);
    if !accepted {
      return false;
    }
    if SaturationProfile(sc.profile) {
      var shaped := ValidateSaturationShape(sc);
      if !shaped {
        return false;
      }
    }
    return running;
  }
}

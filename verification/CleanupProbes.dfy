// _with_redaction_cleanup_probes: after the last batch of a trace, ask one more question in
// every thread whose sources were redacted.
module CleanupProbes {

  import opened Options
  import opened Sequences
  import opened Traces
  import opened TraceValidation
  import opened TraceGeneration
  import opened TraceMeaning
  import TraceRules
  import TraceValidator

  // What the source log holds, given the identifiers used so far.
  ghost predicate LogOk(threadCount: int, log: SourceLog, ids: set<int>) {
    && (forall r :: r in log.threads ==>
          0 <= log.threads[r] < threadCount && ((r.Root? && 0 <= r.thread < threadCount) || (r.Op? && r.id in ids)))
    && (forall t: int :: 0 <= t < threadCount ==> Root(t) in log.threads)
    && log.redacted <= log.threads.Keys
  }

  ghost predicate Grows(log: SourceLog, more: SourceLog, ids: set<int>) {
    && (forall r :: r in log.threads ==> r in more.threads && more.threads[r] == log.threads[r])
    && (forall r :: r in more.threads && r !in log.threads ==> r.Op? && r.id !in ids)
    && log.redacted <= more.redacted
  }

  lemma TrackedOp(threadCount: int, log: SourceLog, ids: set<int>, op: Operation)
    requires LogOk(threadCount, log, ids) && op.id !in ids
    requires op.kind.IsMessage() ==> 0 <= op.thread < threadCount
    ensures LogOk(threadCount, TrackSource(log, op), ids + {op.id})
    ensures Grows(log, TrackSource(log, op), ids)
  {
  }

  lemma {:induction false} TrackedBatch(threadCount: int, log: SourceLog, ids: set<int>, batch: Batch)
    requires LogOk(threadCount, log, ids) && FreshIds(batch, ids)
    requires forall op :: op in batch && op.kind.IsMessage() ==> 0 <= op.thread < threadCount
    ensures LogOk(threadCount, TrackSources(log, batch), ids + IdsOf(batch))
    ensures Grows(log, TrackSources(log, batch), ids)
  {
    if batch == [] {
      assert ids + IdsOf(batch) == ids;
    } else {
      var init, last := batch[..|batch| - 1], batch[|batch| - 1];
      TrackedBatch(threadCount, log, ids, init);
      IdsOfSnoc(batch);
      assert last.id !in IdsOf(init);
      TrackedOp(threadCount, TrackSources(log, init), ids + IdsOf(init), last);
      assert ids + IdsOf(init) + {last.id} == ids + IdsOf(batch);
    }
  }

  lemma AcceptedMessages(sc: Scenario, batch: Batch, s: Ledger)
    requires BatchOk(sc, batch, s)
    ensures FreshIds(batch, s.ids)
    ensures forall op :: op in batch && op.kind.IsMessage() ==> 0 <= op.thread < sc.threadCount
    ensures forall op :: op in batch && op.target.Some? ==> op.target.value in s.knownEvents + s.knownResponses
  {
  }

  lemma {:induction false} LogOfTrace(sc: Scenario, batches: seq<Batch>)
    requires sc.clientCount > 0 && BatchesOk(sc, batches)
    ensures LogOk(sc.threadCount, SourcesAfter(sc, batches), LedgerAfter(sc, batches).ids)
    ensures Roots(sc.threadCount) <= LedgerAfter(sc, batches).knownEvents
    ensures forall r :: r in LedgerAfter(sc, batches).knownEvents && r.Op? ==> r.id in LedgerAfter(sc, batches).ids
  {
    if batches != [] {
      var init, batch := batches[..|batches| - 1], batches[|batches| - 1];
      LogOfTrace(sc, init);
      var s := LedgerAfter(sc, init);
      AcceptedMessages(sc, batch, s);
      AcceptedStep(sc, batch, s);
      RegisterOpsFrame(s, Registered(sc.profile, batch));
      TrackedBatch(sc.threadCount, SourcesAfter(sc, init), s.ids, batch);
    }
  }

  lemma {:induction false} RedactedInBatch(log: SourceLog, batch: Batch, r: Ref)
    requires r in log.threads
    ensures r in TrackSources(log, batch).threads
    ensures r in TrackSources(log, batch).redacted <==>
              r in log.redacted || Redacts(batch, r)
  {
    if batch != [] {
      RedactedInBatch(log, batch[..|batch| - 1], r);
      assert batch == batch[..|batch| - 1] + [batch[|batch| - 1]];
    }
  }

  // A source counts as redacted exactly when some redaction of the trace targets it.
  lemma {:induction false} RedactedMeansTargeted(sc: Scenario, batches: seq<Batch>, r: Ref)
    requires sc.clientCount > 0 && BatchesOk(sc, batches)
    requires r in SourcesAfter(sc, batches).threads
    ensures r in SourcesAfter(sc, batches).redacted <==> RedactedBefore(batches, r)
  {
    if batches == [] {
    } else {
      var init, batch := batches[..|batches| - 1], batches[|batches| - 1];
      var s, log := LedgerAfter(sc, init), SourcesAfter(sc, init);
      assert batches == init + [batch];
      if r in log.threads {
        RedactedMeansTargeted(sc, init, r);
        RedactedInBatch(log, batch, r);
        RedactsSnoc(init, batch, r);
      } else {
        NewSourcesAreNotTargeted(sc, init, batch, r);
      }
    }
  }

  lemma RedactsSnoc(init: seq<Batch>, batch: Batch, r: Ref)
    ensures RedactedBefore(init + [batch], r) <==>
              RedactedBefore(init, r) || Redacts(batch, r)
  {
    var all := init + [batch];
    assert forall k :: 0 <= k < |init| ==> all[k] == init[k];
    assert all[|init|] == batch;
  }

  // A source that first appears in the last batch was not yet known to any redaction.
  lemma NewSourcesAreNotTargeted(sc: Scenario, init: seq<Batch>, batch: Batch, r: Ref)
    requires sc.clientCount > 0 && BatchesOk(sc, init) && BatchOk(sc, batch, LedgerAfter(sc, init))
    requires r in TrackSources(SourcesAfter(sc, init), batch).threads && r !in SourcesAfter(sc, init).threads
    ensures r !in TrackSources(SourcesAfter(sc, init), batch).redacted
    ensures !RedactedBefore(init + [batch], r)
  {
    var s, log := LedgerAfter(sc, init), SourcesAfter(sc, init);
    NewSourcesAreUnknown(sc, init, batch, r, s, log);
    AcceptedMessages(sc, batch, s);
    UnknownIsUntargeted(sc, init, r);
    RedactsSnoc(init, batch, r);
    UntargetedStaysUnredacted(log, batch, r);
  }

  lemma NewSourcesAreUnknown(sc: Scenario, init: seq<Batch>, batch: Batch, r: Ref, s: Ledger, log: SourceLog)
    requires sc.clientCount > 0 && BatchesOk(sc, init) && BatchOk(sc, batch, s)
    requires s == LedgerAfter(sc, init) && log == SourcesAfter(sc, init)
    requires r in TrackSources(log, batch).threads && r !in log.threads
    ensures r !in s.knownEvents && r !in s.knownResponses && r !in log.redacted
  {
    LogOfTrace(sc, init);
    KnownIsDefined(sc, init);
    AcceptedMessages(sc, batch, s);
    TrackedBatch(sc.threadCount, log, s.ids, batch);
    assert r.Op? && r.id !in s.ids;
  }

  lemma UnknownIsUntargeted(sc: Scenario, batches: seq<Batch>, r: Ref)
    requires sc.clientCount > 0 && BatchesOk(sc, batches)
    requires r !in LedgerAfter(sc, batches).knownEvents && r !in LedgerAfter(sc, batches).knownResponses
    ensures !RedactedBefore(batches, r)
  {
    forall k, op | 0 <= k < |batches| && op in batches[k] && op.kind.Redaction? ensures op.target != Some(r) {
      PrefixAccepted(sc, batches, k);
      AcceptedMessages(sc, batches[k], LedgerAfter(sc, batches[..k]));
      KnownGrows(sc, batches, k);
    }
  }

  lemma {:induction false} UntargetedStaysUnredacted(log: SourceLog, batch: Batch, r: Ref)
    requires r !in log.redacted
    requires forall op :: op in batch && op.kind.Redaction? ==> op.target != Some(r)
    ensures r !in TrackSources(log, batch).redacted
  {
    if batch != [] {
      UntargetedStaysUnredacted(log, batch[..|batch| - 1], r);
    }
  }

  lemma {:induction false} KnownGrows(sc: Scenario, batches: seq<Batch>, k: nat)
    requires sc.clientCount > 0 && BatchesOk(sc, batches) && k <= |batches|
    ensures LedgerAfter(sc, batches[..k]).knownEvents <= LedgerAfter(sc, batches).knownEvents
    ensures LedgerAfter(sc, batches[..k]).knownResponses <= LedgerAfter(sc, batches).knownResponses
  {
    if k == |batches| {
      assert batches[..k] == batches;
    } else {
      var init, batch := batches[..|batches| - 1], batches[|batches| - 1];
      KnownGrows(sc, init, k);
      assert init[..k] == batches[..k];
      AcceptedStep(sc, batch, LedgerAfter(sc, init));
      RegisterOpsFrame(LedgerAfter(sc, init), Registered(sc.profile, batch));
    }
  }

  // The redacted sources of a trace, thread by thread.
  ghost predicate Grouped(groups: map<int, set<Ref>>, log: SourceLog) {
    && (forall t, r :: t in groups && r in groups[t] ==> r in log.redacted && r in log.threads && log.threads[r] == t)
    && (forall r :: r in log.redacted ==> r in log.threads && log.threads[r] in groups && r in groups[log.threads[r]])
    && (forall t :: t in groups ==> groups[t] != {})
  }

  function AddRedaction(groups: map<int, set<Ref>>, thread: int, r: Ref): map<int, set<Ref>> {
    groups[thread := (if thread in groups then groups[thread] else {}) + {r}]
  }

  lemma GroupedOp(threadCount: int, groups: map<int, set<Ref>>, log: SourceLog, ids: set<int>, op: Operation)
    requires Grouped(groups, log) && LogOk(threadCount, log, ids) && op.id !in ids
    requires op.kind.IsMessage() ==> 0 <= op.thread < threadCount
    ensures var log' := TrackSource(log, op);
            Grouped(if op.kind.Redaction? && op.target.Some? && op.target.value in log'.threads
                    then AddRedaction(groups, log'.threads[op.target.value], op.target.value) else groups,
                    log')
  {
    TrackedOp(threadCount, log, ids, op);
  }

  method CollectOp(threadCount: int, op: Operation, threads: map<Ref, int>, groups: map<int, set<Ref>>,
                   ghost log: SourceLog, ghost ids: set<int>)
    returns (threads': map<Ref, int>, groups': map<int, set<Ref>>)
    requires threads == log.threads && Grouped(groups, log) && LogOk(threadCount, log, ids) && op.id !in ids
    requires op.kind.IsMessage() ==> 0 <= op.thread < threadCount
    ensures threads' == TrackSource(log, op).threads && Grouped(groups', TrackSource(log, op))
  {
    GroupedOp(threadCount, groups, log, ids, op);
    threads', groups' := threads, groups;
    if op.kind.IsMessage() {
      threads' := threads'[op.EventRef() := op.thread];
    } else if op.kind.Edit? && op.target.Some? && op.target.value in threads' {
      threads' := threads'[op.EventRef() := threads'[op.target.value]];
    }
    if op.kind.Redaction? && op.target.Some? && op.target.value in threads' {
      groups' := AddRedaction(groups', threads'[op.target.value], op.target.value);
    }
  }

  // max(ids, default=-1) + 1
  ghost predicate IsNext(ids: set<int>, next: int) {
    && (forall id :: id in ids ==> id < next)
    && if ids == {} then next == 0 else next - 1 in ids
  }

  lemma IsNextStep(ids: set<int>, next: int, id: int)
    requires IsNext(ids, next)
    ensures IsNext(ids + {id}, if ids == {} || id >= next then id + 1 else next)
  {
    assert id in ids + {id};
  }

  // What the walk over the operations holds after those logged.
  ghost predicate Holds(
    log: SourceLog, ids: set<int>, threads: map<Ref, int>, groups: map<int, set<Ref>>, any: bool, next: int)
  {
    threads == log.threads && Grouped(groups, log) && IsNext(ids, next) && (any <==> ids != {})
  }

  method CollectInBatch(threadCount: int, batch: Batch, threads: map<Ref, int>, groups: map<int, set<Ref>>,
                        any: bool, next: int, ghost log: SourceLog, ghost ids: set<int>)
    returns (threads': map<Ref, int>, groups': map<int, set<Ref>>, any': bool, next': int)
    requires Holds(log, ids, threads, groups, any, next) && LogOk(threadCount, log, ids)
    requires FreshIds(batch, ids) && forall op :: op in batch && op.kind.IsMessage() ==> 0 <= op.thread < threadCount
    ensures Holds(TrackSources(log, batch), ids + IdsOf(batch), threads', groups', any', next')
  {
    threads', groups', any', next' := threads, groups, any, next;
    assert ids + IdsOf(batch[..0]) == ids;
    for j := 0 to |batch|
      invariant Holds(TrackSources(log, batch[..j]), ids + IdsOf(batch[..j]), threads', groups', any', next')
    {
      ghost var before, used := TrackSources(log, batch[..j]), ids + IdsOf(batch[..j]);
      var op := batch[j];
      TrackedPrefix(threadCount, log, ids, batch, j);
      threads', groups', any', next' := CollectNext(threadCount, op, threads', groups', any', next', before, used);
      PrefixStep(batch, j);
      IdsGrow(ids, batch, j);
    }
    assert batch[..|batch|] == batch;
  }

  method CollectNext(threadCount: int, op: Operation, threads: map<Ref, int>, groups: map<int, set<Ref>>,
                     any: bool, next: int, ghost log: SourceLog, ghost ids: set<int>)
    returns (threads': map<Ref, int>, groups': map<int, set<Ref>>, any': bool, next': int)
    requires Holds(log, ids, threads, groups, any, next) && LogOk(threadCount, log, ids) && op.id !in ids
    requires op.kind.IsMessage() ==> 0 <= op.thread < threadCount
    ensures Holds(TrackSource(log, op), ids + {op.id}, threads', groups', any', next')
  {
    IsNextStep(ids, next, op.id);
    threads', groups' := CollectOp(threadCount, op, threads, groups, log, ids);
    any', next' := true, if !any || op.id >= next then op.id + 1 else next;
    assert op.id in ids + {op.id};
  }

  lemma IdsGrow(ids: set<int>, batch: Batch, j: nat)
    requires j < |batch|
    ensures ids + IdsOf(batch[..j + 1]) == ids + IdsOf(batch[..j]) + {batch[j].id} != {}
  {
    PrefixStep(batch, j);
    assert IdsOf(batch[..j + 1]) == IdsOf(batch[..j]) + {batch[j].id};
    assert batch[j].id in ids + IdsOf(batch[..j]) + {batch[j].id};
  }

  lemma TrackedPrefix(threadCount: int, log: SourceLog, ids: set<int>, batch: Batch, j: nat)
    requires LogOk(threadCount, log, ids) && FreshIds(batch, ids) && j < |batch|
    requires forall op :: op in batch && op.kind.IsMessage() ==> 0 <= op.thread < threadCount
    ensures LogOk(threadCount, TrackSources(log, batch[..j]), ids + IdsOf(batch[..j]))
    ensures batch[j].id !in ids + IdsOf(batch[..j])
    ensures batch[j].kind.IsMessage() ==> 0 <= batch[j].thread < threadCount
  {
    assert forall k :: 0 <= k < j ==> batch[..j][k] == batch[k];
    TrackedBatch(threadCount, log, ids, batch[..j]);
    assert batch[j] in batch;
  }

  // What the walk over the operations holds after the first i batches.
  ghost predicate Collected(
    sc: Scenario, i: nat, threads: map<Ref, int>, groups: map<int, set<Ref>>, any: bool, next: int)
    requires sc.clientCount > 0 && i <= |sc.batches|
  {
    && BatchesOk(sc, sc.batches[..i])
    && threads == SourcesAfter(sc, sc.batches[..i]).threads
    && Grouped(groups, SourcesAfter(sc, sc.batches[..i]))
    && IsNext(LedgerAfter(sc, sc.batches[..i]).ids, next) && (any <==> LedgerAfter(sc, sc.batches[..i]).ids != {})
  }

  // The next batch can be walked: its identifiers are new and its messages name threads of the trace.
  lemma NextBatch(sc: Scenario, i: nat, log: SourceLog, s: Ledger)
    requires sc.clientCount > 0 && BatchesOk(sc, sc.batches) && i < |sc.batches|
    requires log == SourcesAfter(sc, sc.batches[..i]) && s == LedgerAfter(sc, sc.batches[..i])
    ensures LogOk(sc.threadCount, log, s.ids) && FreshIds(sc.batches[i], s.ids)
    ensures forall op :: op in sc.batches[i] && op.kind.IsMessage() ==> 0 <= op.thread < sc.threadCount
  {
    PrefixAccepted(sc, sc.batches, i);
    AcceptedMessages(sc, sc.batches[i], s);
    LogOfTrace(sc, sc.batches[..i]);
  }

  lemma CollectedNext(sc: Scenario, i: nat, log: SourceLog, s: Ledger,
                      threads: map<Ref, int>, groups: map<int, set<Ref>>, any: bool, next: int)
    requires sc.clientCount > 0 && BatchesOk(sc, sc.batches) && i < |sc.batches|
    requires log == SourcesAfter(sc, sc.batches[..i]) && s == LedgerAfter(sc, sc.batches[..i])
    requires threads == TrackSources(log, sc.batches[i]).threads && Grouped(groups, TrackSources(log, sc.batches[i]))
    requires IsNext(s.ids + IdsOf(sc.batches[i]), next) && (any <==> s.ids + IdsOf(sc.batches[i]) != {})
    ensures Collected(sc, i + 1, threads, groups, any, next)
  {
    PrefixStep(sc.batches, i);
    PrefixAccepted(sc, sc.batches, i);
    AcceptedStep(sc, sc.batches[i], s);
  }

  lemma CollectStarts(sc: Scenario)
    requires sc.clientCount > 0
    ensures Collected(sc, 0, map t: int | 0 <= t < sc.threadCount :: Root(t) := t, map[], false, 0)
  {
  }

  // Walk over all operations: group the redacted sources and find the first free identifier.
  method CollectRedactions(sc: Scenario) returns (groups: map<int, set<Ref>>, next: int)
    requires sc.clientCount > 0 && BatchesOk(sc, sc.batches)
    ensures Grouped(groups, SourcesAfter(sc, sc.batches))
    ensures IsNext(LedgerAfter(sc, sc.batches).ids, next)
  {
    var threads: map<Ref, int> := map t: int | 0 <= t < sc.threadCount :: Root(t) := t;
    var any := false;
    groups, next := map[], 0;
    CollectStarts(sc);
    for i := 0 to |sc.batches|
      invariant Collected(sc, i, threads, groups, any, next)
    {
      ghost var log, s := SourcesAfter(sc, sc.batches[..i]), LedgerAfter(sc, sc.batches[..i]);
      NextBatch(sc, i, log, s);
      threads, groups, any, next := CollectInBatch(
        sc.threadCount, sc.batches[i], threads, groups, any, next, log, s.ids);
      CollectedNext(sc, i, log, s, threads, groups, any, next);
    }
    assert sc.batches[..|sc.batches|] == sc.batches;
  }

  // The members of a finite set in some order. (The harness sorts the reference texts.)
  method Enumerate(s: set<Ref>) returns (q: seq<Ref>)
    ensures Elements(q) == s && |q| == |s|
  {
    q := [];
    var rest := s;
    while rest != {}
      invariant rest <= s && Elements(q) == s - rest && |q| + |rest| == |s|
      decreases rest
    {
      var r :| r in rest;
      assert Elements(q + [r]) == Elements(q) + {r};
      q, rest := q + [r], rest - {r};
    }
  }

  ghost predicate ProbesFor(sc: Scenario, groups: map<int, set<Ref>>, first: int, probes: Batch) {
    && (forall i :: 0 <= i < |probes| ==>
          var p := probes[i];
          && p.id == first + i && p.kind.ThreadMessage? && p.target == Some(Root(p.thread))
          && sc.clientCount > 0 && p.client == sc.RootClient(p.thread)
          && 0 <= p.thread < sc.threadCount && p.thread in groups
          && Elements(p.cleanup) == groups[p.thread] && |p.cleanup| == |groups[p.thread]|)
    && (forall i, j :: 0 <= i < j < |probes| ==> probes[i].thread < probes[j].thread)
  }

  ghost predicate Probed(probes: Batch, t: int) {
    exists i :: 0 <= i < |probes| && probes[i].thread == t
  }

  // One probe per redacted thread, in thread order.
  method BuildProbes(sc: Scenario, groups: map<int, set<Ref>>, first: int) returns (probes: Batch)
    requires sc.clientCount > 0
    ensures ProbesFor(sc, groups, first, probes)
    ensures forall t :: t in groups && 0 <= t < sc.threadCount ==> Probed(probes, t)
  {
    probes := [];
    var t := 0;
    while t < sc.threadCount
      invariant 0 <= t
      invariant ProbesFor(sc, groups, first, probes)
      invariant forall i :: 0 <= i < |probes| ==> probes[i].thread < t
      invariant forall u :: u in groups && 0 <= u < t && u < sc.threadCount ==> Probed(probes, u)
    {
      if t in groups {
        var sources := Enumerate(groups[t]);
        var probe := Operation(first + |probes|, ThreadMessage, t, Some(Root(t)), sc.RootClient(t), sources);
        ghost var before := probes;
        probes := probes + [probe];
        assert probes[|before|].thread == t;
        forall u | u in groups && 0 <= u <= t && u < sc.threadCount ensures Probed(probes, u) {
          if u < t {
            assert Probed(before, u);
            var i :| 0 <= i < |before| && before[i].thread == u;
            assert probes[i].thread == u;
          }
        }
      }
      t := t + 1;
    }
  }

  // A probe passes every per-operation rule.
  ghost predicate Asks(sc: Scenario, s: Ledger, log: SourceLog, op: Operation) {
    && op.kind.ThreadMessage? && InRange(sc, op) && op.target.Some?
    && op.target.value in s.knownEvents && op.target.value !in s.unusable && op.target.value !in s.knownResponses
    && ProbeOk(sc.profile, op, log)
  }

  lemma ProbesAsk(sc: Scenario, s: Ledger, groups: map<int, set<Ref>>, log: SourceLog, first: int, probes: Batch)
    requires sc.profile.Fuzz? || sc.profile.Chaos?
    requires ProbesFor(sc, groups, first, probes) && Grouped(groups, log)
    requires Roots(sc.threadCount) <= s.knownEvents && forall r :: r in s.unusable ==> r.Response?
    requires s.knownResponses == ResponsesTo(s.messageEvents)
    ensures forall op :: op in probes ==> Asks(sc, s, log, op)
  {
    forall op | op in probes ensures Asks(sc, s, log, op) {
      var i :| 0 <= i < |probes| && probes[i] == op;
      assert Root(op.thread) in Roots(sc.threadCount);
      forall r | r in op.cleanup ensures r in log.redacted && r in log.threads && log.threads[r] == op.thread {
        assert r in Elements(op.cleanup);
      }
    }
  }

  lemma ProbesAccepted(sc: Scenario, s: Ledger, groups: map<int, set<Ref>>, log: SourceLog, first: int, probes: Batch)
    requires sc.profile.Fuzz? || (sc.profile.Chaos? && s.running)
    requires ProbesFor(sc, groups, first, probes) && probes != []
    requires forall op :: op in probes ==> Asks(sc, s, log, op)
    requires forall id :: id in s.ids ==> id < first
    ensures BatchOk(sc, probes, s) && ProbeBatchOk(sc.profile, probes, log)
  {
    assert !HasLifecycle(probes);
    assert FreshIds(probes, s.ids);
    assert ReplyUniqueness(sc.profile, probes);
    if sc.profile.Fuzz? {
      assert forall op :: op in probes ==> FuzzOpOk(sc, op, s);
      assert InterruptionPlacement(probes);
    } else {
      assert forall op :: op in probes ==> MutationOk(sc, op, s);
      assert NoRedactionRace(probes, s);
    }
  }

  lemma ProbesCount(sc: Scenario, s: Ledger, probes: Batch)
    requires sc.profile.Fuzz? || sc.profile.Chaos?
    requires forall op :: op in probes ==> op.kind.ThreadMessage?
    ensures ApplyBatch(sc, probes, s).running == s.running && MutationsIn(probes) == |probes|
    ensures ApplyBatch(sc, probes, s).ids == s.ids + IdsOf(probes)
  {
    OnlyMutations(probes);
    RegisterOpsFrame(s, probes);
    RedactOpsFrame(RegisterOps(s, probes), probes);
  }

  lemma {:induction false} OnlyMutations(ops: Batch)
    requires forall op :: op in ops ==> IsMutation(op)
    ensures MutationsIn(ops) == |ops| && WithoutInterruptions(ops) == ops
  {
    if ops != [] {
      OnlyMutations(ops[..|ops| - 1]);
    }
  }

  function CheckpointBatch(id: int): Batch {
    [Operation(id, Checkpoint, 0, None, 0, [])]
  }

  lemma CheckpointAccepted(sc: Scenario, s: Ledger, log: SourceLog, id: int)
    requires sc.profile.Chaos? && s.running && id !in s.ids && sc.threadCount >= 1 && sc.clientCount >= 1
    ensures BatchOk(sc, CheckpointBatch(id), s) && ProbeBatchOk(sc.profile, CheckpointBatch(id), log)
    ensures ApplyBatch(sc, CheckpointBatch(id), s) == s.(ids := s.ids + {id}, settled := SettledWhenQuiet(s))
    ensures TrackSources(log, CheckpointBatch(id)) == log && MutationsIn(CheckpointBatch(id)) == 0
  {
    var op := CheckpointBatch(id)[0];
    assert op in CheckpointBatch(id) && HasLifecycle(CheckpointBatch(id));
    assert CheckpointBatch(id)[..0] == [];
    assert TrackSources(log, []) == log && MutationsIn([]) == 0;
  }

  // Saturation traces hold nothing but messages, and fixed profiles hold nothing.
  lemma {:induction false} NothingRedacted(sc: Scenario, batches: seq<Batch>)
    requires forall k, op: Operation :: 0 <= k < |batches| && op in batches[k] ==> !op.kind.Redaction?
    ensures SourcesAfter(sc, batches).redacted == {}
  {
    if batches != [] {
      var init := batches[..|batches| - 1];
      forall k, op: Operation | 0 <= k < |init| && op in init[k] ensures !op.kind.Redaction? {
        assert op in batches[k];
      }
      NothingRedacted(sc, init);
      NothingRedactedIn(SourcesAfter(sc, init), batches[|batches| - 1]);
    }
  }

  lemma {:induction false} NothingRedactedIn(log: SourceLog, batch: Batch)
    requires log.redacted == {} && forall op :: op in batch ==> !op.kind.Redaction?
    ensures TrackSources(log, batch).redacted == {}
  {
    if batch != [] {
      NothingRedactedIn(log, batch[..|batch| - 1]);
    }
  }

  lemma {:induction false} ChainIsMessages(batch: Batch, targets: map<int, Ref>)
    requires ChainOk(batch, targets)
    ensures forall op :: op in batch ==> op.kind.ThreadMessage?
  {
    if batch != [] {
      ChainIsMessages(batch[..|batch| - 1], targets);
      assert batch == batch[..|batch| - 1] + [batch[|batch| - 1]];
    }
  }

  lemma OnlyFuzzAndChaosRedact(sc: Scenario)
    requires ValidTrace(sc) && SourcesAfter(sc, sc.batches).redacted != {}
    ensures sc.profile.Fuzz? || sc.profile.Chaos?
  {
    if SaturationProfile(sc.profile) {
      forall k, op: Operation | 0 <= k < |sc.batches| && op in sc.batches[k] ensures !op.kind.Redaction? {
        assert SaturationBatchOk(sc, k);
        ChainIsMessages(sc.batches[k], TargetsAfter(sc, sc.batches[..k]));
      }
      NothingRedacted(sc, sc.batches);
    }
  }

  // The batches the probes add.
  function Tail(profile: Profile, first: int, probes: Batch): seq<Batch> {
    if profile.Chaos? then [CheckpointBatch(first), probes, CheckpointBatch(first + 1 + |probes|)] else [probes]
  }

  lemma ProbesStep(sc: Scenario, batches: seq<Batch>, groups: map<int, set<Ref>>, first: int, probes: Batch)
    requires sc.clientCount > 0 && (sc.profile.Fuzz? || sc.profile.Chaos?)
    requires BatchesOk(sc, batches) && ProbesOk(sc, batches) && LedgerAfter(sc, batches).running
    requires Grouped(groups, SourcesAfter(sc, batches)) && ProbesFor(sc, groups, first, probes) && probes != []
    requires forall id :: id in LedgerAfter(sc, batches).ids ==> id < first
    ensures var more := batches + [probes];
            && BatchesOk(sc, more) && ProbesOk(sc, more) && LedgerAfter(sc, more).running
            && Mutations(more) == Mutations(batches) + |probes|
            && LedgerAfter(sc, more).ids == LedgerAfter(sc, batches).ids + IdsOf(probes)
  {
    var s, log := LedgerAfter(sc, batches), SourcesAfter(sc, batches);
    LogOfTrace(sc, batches);
    KnownIsDefined(sc, batches);
    ProbesAsk(sc, s, groups, log, first, probes);
    ProbesAccepted(sc, s, groups, log, first, probes);
    ProbesCount(sc, s, probes);
    AppendedTrace(sc, batches, probes);
  }

  // A valid trace stays valid with its probes appended.
  lemma TailAccepted(sc: Scenario, groups: map<int, set<Ref>>, first: int, probes: Batch)
    requires ValidTrace(sc) && (sc.profile.Fuzz? || sc.profile.Chaos?)
    requires Grouped(groups, SourcesAfter(sc, sc.batches)) && probes != []
    requires forall id :: id in LedgerAfter(sc, sc.batches).ids ==> id < first
    requires ProbesFor(sc, groups, if sc.profile.Chaos? then first + 1 else first, probes)
    ensures ValidTrace(sc.(batches := sc.batches + Tail(sc.profile, first, probes)))
    ensures Mutations(sc.batches + Tail(sc.profile, first, probes)) == Mutations(sc.batches) + |probes|
  {
    if sc.profile.Fuzz? {
      ProbesStep(sc, sc.batches, groups, first, probes);
      ValidWith(sc, sc.batches + [probes]);
    } else {
      ChaosTailAccepted(sc, groups, first, probes);
    }
  }

  lemma ChaosTailAccepted(sc: Scenario, groups: map<int, set<Ref>>, first: int, probes: Batch)
    requires ValidTrace(sc) && sc.profile.Chaos?
    requires Grouped(groups, SourcesAfter(sc, sc.batches)) && probes != []
    requires forall id :: id in LedgerAfter(sc, sc.batches).ids ==> id < first
    requires ProbesFor(sc, groups, first + 1, probes)
    ensures ValidTrace(sc.(batches := sc.batches + Tail(Chaos, first, probes)))
    ensures Mutations(sc.batches + Tail(Chaos, first, probes)) == Mutations(sc.batches) + |probes|
  {
    var settled := sc.batches + [CheckpointBatch(first)];
    CheckpointStep(sc, sc.batches, first);
    ProbesAfterCheckpoint(sc, settled, groups, first + 1, probes);
    ClosedByCheckpoint(sc, settled + [probes], first, probes);
  }

  // The batches are accepted so far, MindRoom runs, and the id is free.
  ghost predicate Open(sc: Scenario, batches: seq<Batch>, id: int)
    requires sc.clientCount > 0
  {
    && BatchesOk(sc, batches) && ProbesOk(sc, batches) && LedgerAfter(sc, batches).running
    && id !in LedgerAfter(sc, batches).ids
  }

  lemma ProbesAfterCheckpoint(sc: Scenario, settled: seq<Batch>, groups: map<int, set<Ref>>, first: int, probes: Batch)
    requires sc.clientCount > 0 && sc.profile.Chaos?
    requires BatchesOk(sc, settled) && ProbesOk(sc, settled) && LedgerAfter(sc, settled).running
    requires Grouped(groups, SourcesAfter(sc, settled)) && ProbesFor(sc, groups, first, probes) && probes != []
    requires forall id :: id in LedgerAfter(sc, settled).ids ==> id < first
    ensures Open(sc, settled + [probes], first + |probes|)
    ensures Mutations(settled + [probes]) == Mutations(settled) + |probes|
  {
    ProbesStep(sc, settled, groups, first, probes);
    assert first + |probes| !in IdsOf(probes);
  }

  lemma ClosedByCheckpoint(sc: Scenario, asked: seq<Batch>, first: int, probes: Batch)
    requires sc.profile.Chaos? && sc.threadCount >= 1 && sc.clientCount >= 1 && sc.roomCount >= 1
    requires asked == sc.batches + [CheckpointBatch(first)] + [probes] && Open(sc, asked, first + 1 + |probes|)
    ensures ValidTrace(sc.(batches := sc.batches + Tail(Chaos, first, probes)))
    ensures Mutations(sc.batches + Tail(Chaos, first, probes)) == Mutations(asked)
  {
    var all := asked + [CheckpointBatch(first + 1 + |probes|)];
    CheckpointStep(sc, asked, first + 1 + |probes|);
    assert all == sc.batches + Tail(Chaos, first, probes);
    ValidWith(sc, all);
  }

  lemma CheckpointStep(sc: Scenario, batches: seq<Batch>, id: int)
    requires sc.profile.Chaos? && sc.threadCount >= 1 && sc.clientCount >= 1
    requires BatchesOk(sc, batches) && ProbesOk(sc, batches) && LedgerAfter(sc, batches).running
    requires id !in LedgerAfter(sc, batches).ids
    ensures var more := batches + [CheckpointBatch(id)];
            && BatchesOk(sc, more) && ProbesOk(sc, more)
            && SourcesAfter(sc, more) == SourcesAfter(sc, batches)
            && Mutations(more) == Mutations(batches)
            && LedgerAfter(sc, more) == LedgerAfter(sc, batches).(
                 ids := LedgerAfter(sc, batches).ids + {id}, settled := SettledWhenQuiet(LedgerAfter(sc, batches)))
  {
    CheckpointAccepted(sc, LedgerAfter(sc, batches), SourcesAfter(sc, batches), id);
    AppendedTrace(sc, batches, CheckpointBatch(id));
  }

  lemma ValidWith(sc: Scenario, batches: seq<Batch>)
    requires sc.threadCount >= 1 && sc.clientCount >= 1 && sc.roomCount >= 1
    requires sc.profile.Fuzz? || sc.profile.Chaos?
    requires BatchesOk(sc, batches) && ProbesOk(sc, batches) && LedgerAfter(sc, batches).running
    ensures ValidTrace(sc.(batches := batches))
  {
    ShapeDecides(sc, sc.(batches := batches), batches);
  }

  // Every redacted source is named by exactly one probe, and that probe runs in its thread.
  ghost predicate NamesOnce(sc: Scenario, probes: Batch) {
    var log := SourcesAfter(sc, sc.batches);
    && (forall i, r :: 0 <= i < |probes| && r in probes[i].cleanup ==>
          r in log.redacted && r in log.threads && log.threads[r] == probes[i].thread)
    && (forall r :: r in log.redacted ==> Named(probes, r))
    && (forall i, j, r :: 0 <= i < |probes| && 0 <= j < |probes| && r in probes[i].cleanup && r in probes[j].cleanup ==>
          i == j)
  }

  ghost predicate Named(probes: Batch, r: Ref) {
    exists i :: 0 <= i < |probes| && r in probes[i].cleanup
  }

  lemma ProbesNameOnce(sc: Scenario, groups: map<int, set<Ref>>, first: int, probes: Batch)
    requires Grouped(groups, SourcesAfter(sc, sc.batches)) && ProbesFor(sc, groups, first, probes)
    requires forall t :: t in groups && 0 <= t < sc.threadCount ==> Probed(probes, t)
    requires forall r :: r in SourcesAfter(sc, sc.batches).threads ==>
               0 <= SourcesAfter(sc, sc.batches).threads[r] < sc.threadCount
    ensures NamesOnce(sc, probes)
  {
    var log := SourcesAfter(sc, sc.batches);
    ProbesNameGroups(sc, groups, first, probes);
    forall i, r | 0 <= i < |probes| && r in probes[i].cleanup
      ensures r in log.redacted && r in log.threads && log.threads[r] == probes[i].thread
    {
      assert r in groups[probes[i].thread];
    }
    forall r | r in log.redacted ensures Named(probes, r) {
      assert Probed(probes, log.threads[r]);
      var i :| 0 <= i < |probes| && probes[i].thread == log.threads[r];
      assert r in probes[i].cleanup;
    }
    forall i, j, r | 0 <= i < |probes| && 0 <= j < |probes| && r in probes[i].cleanup && r in probes[j].cleanup
      ensures i == j
    {
      assert log.threads[r] == probes[i].thread && log.threads[r] == probes[j].thread;
    }
  }

  lemma ProbesNameGroups(sc: Scenario, groups: map<int, set<Ref>>, first: int, probes: Batch)
    requires ProbesFor(sc, groups, first, probes)
    ensures forall i, r :: 0 <= i < |probes| ==>
              (r in probes[i].cleanup <==> probes[i].thread in groups && r in groups[probes[i].thread])
  {
    forall i, r | 0 <= i < |probes|
      ensures r in probes[i].cleanup <==> probes[i].thread in groups && r in groups[probes[i].thread]
    {
      assert r in probes[i].cleanup <==> r in Elements(probes[i].cleanup);
    }
  }

  // ----- What the probes are, said of the trace -----

  // The trace redacts the source, which belongs to the thread.
  ghost predicate Due(sc: Scenario, r: Ref, t: int) {
    RedactedBefore(sc.batches, r) && TraceRules.InThread(sc, sc.batches, r, t)
  }

  // One message to the root of every thread with redacted sources, by the client that began the
  // thread, in thread order, each naming just its sources, and each of them once.
  ghost predicate Qualifies(sc: Scenario, base: int, probes: Batch)
    requires sc.clientCount > 0
  {
    && (forall i :: 0 <= i < |probes| ==> IsProbe(sc, base + i, probes[i]))
    && (forall i, j :: 0 <= i < j < |probes| ==> probes[i].thread < probes[j].thread)
    && (forall r, t :: Due(sc, r, t) ==> Probed(probes, t))
  }

  ghost predicate IsProbe(sc: Scenario, id: int, p: Operation)
    requires sc.clientCount > 0
  {
    && p.id == id && p.kind.ThreadMessage? && 0 <= p.thread < sc.threadCount
    && p.target == Some(Root(p.thread)) && p.client == p.thread % sc.clientCount
    && p.cleanup != [] && (forall r :: r in p.cleanup <==> Due(sc, r, p.thread))
    && (forall i, j :: 0 <= i < j < |p.cleanup| ==> p.cleanup[i] != p.cleanup[j])
  }

  // One more than the largest identifier of the trace.
  ghost predicate FirstFree(batches: seq<Batch>, id: int) {
    TraceRules.UsedId(batches, id - 1) && forall used :: TraceRules.UsedId(batches, used) ==> used < id
  }

  // The batches appended: the probes, in chaos traces between two checkpoints.
  ghost predicate Appended(profile: Profile, first: int, probes: Batch, more: seq<Batch>) {
    if profile.Chaos? then
      more == [[Operation(first, Checkpoint, 0, None, 0, [])], probes,
               [Operation(first + 1 + |probes|, Checkpoint, 0, None, 0, [])]]
    else more == [probes]
  }

  lemma DueMeans(sc: Scenario)
    requires ValidTrace(sc) && TraceRules.Traced(sc.profile)
    ensures var log := SourcesAfter(sc, sc.batches);
      forall r, t :: Due(sc, r, t) <==> r in log.redacted && r in log.threads && log.threads[r] == t
    ensures TraceRules.IdsRead(sc.batches, LedgerAfter(sc, sc.batches))
  {
    TraceRules.KeepingIff(sc, sc.batches);
    TraceRules.SourcesMean(sc, sc.batches);
    var log := SourcesAfter(sc, sc.batches);
    forall r, t ensures TraceRules.At(log.threads, r, t) <==> TraceRules.InThread(sc, sc.batches, r, t) {
    }
  }

  lemma ProbesQualify(sc: Scenario, groups: map<int, set<Ref>>, base: int, probes: Batch)
    requires ValidTrace(sc) && TraceRules.Traced(sc.profile)
    requires Grouped(groups, SourcesAfter(sc, sc.batches)) && ProbesFor(sc, groups, base, probes)
    requires forall t :: t in groups && 0 <= t < sc.threadCount ==> Probed(probes, t)
    ensures Qualifies(sc, base, probes)
  {
    var log := SourcesAfter(sc, sc.batches);
    DueMeans(sc);
    LogOfTrace(sc, sc.batches);
    forall i | 0 <= i < |probes| ensures IsProbe(sc, base + i, probes[i]) {
      ProbeQualifies(sc, groups, base + i, probes[i]);
    }
    forall r, t | Due(sc, r, t) ensures Probed(probes, t) {
      assert r in groups[t];
    }
  }

  lemma NoneTwice(q: seq<Ref>)
    requires |Elements(q)| == |q|
    ensures forall i, j :: 0 <= i < j < |q| ==> q[i] != q[j]
  {
    DistinctIffAsManyElements(q);
    DistinctMeansPairwiseDifferent(q);
  }

  lemma ProbeQualifies(sc: Scenario, groups: map<int, set<Ref>>, id: int, p: Operation)
    requires ValidTrace(sc) && TraceRules.Traced(sc.profile) && Grouped(groups, SourcesAfter(sc, sc.batches))
    requires p.id == id && p.kind.ThreadMessage? && p.target == Some(Root(p.thread))
    requires p.client == sc.RootClient(p.thread) && 0 <= p.thread < sc.threadCount && p.thread in groups
    requires Elements(p.cleanup) == groups[p.thread] && |p.cleanup| == |groups[p.thread]|
    ensures IsProbe(sc, id, p)
  {
    DueMeans(sc);
    NoneTwice(p.cleanup);
    forall r ensures r in p.cleanup <==> Due(sc, r, p.thread) {
      assert r in p.cleanup <==> r in Elements(p.cleanup);
    }
    assert groups[p.thread] != {};
  }

  // With nothing redacted the trace is left alone; else it gains its probes.
  ghost predicate IsQualified(sc: Scenario, q: Scenario, first: int, probes: Batch)
    requires sc.clientCount > 0
  {
    if forall r, t :: !Due(sc, r, t) then q == sc
    else
      && Qualifies(sc, if sc.profile.Chaos? then first + 1 else first, probes) && FirstFree(sc.batches, first)
      && exists more :: q == sc.(batches := sc.batches + more) && Appended(sc.profile, first, probes, more)
  }

  lemma LeftAlone(sc: Scenario, groups: map<int, set<Ref>>, first: int, probes: Batch)
    requires ValidTrace(sc)
    requires FixedProfile(sc.profile) || (Grouped(groups, SourcesAfter(sc, sc.batches)) && !exists t :: t in groups)
    ensures IsQualified(sc, sc, first, probes)
  {
    if !FixedProfile(sc.profile) {
      DueMeans(sc);
    }
  }

  lemma SomethingDue(sc: Scenario, groups: map<int, set<Ref>>) returns (r: Ref, t: int)
    requires ValidTrace(sc) && TraceRules.Traced(sc.profile)
    requires Grouped(groups, SourcesAfter(sc, sc.batches)) && exists t :: t in groups
    ensures Due(sc, r, t)
  {
    DueMeans(sc);
    t :| t in groups;
    r :| r in groups[t];
  }

  lemma NextIsFree(sc: Scenario, r: Ref, first: int)
    requires ValidTrace(sc) && TraceRules.Traced(sc.profile) && RedactedBefore(sc.batches, r)
    requires IsNext(LedgerAfter(sc, sc.batches).ids, first)
    ensures FirstFree(sc.batches, first)
  {
    DueMeans(sc);
    SomethingUsed(sc, r);
  }

  lemma NowQualified(sc: Scenario, groups: map<int, set<Ref>>, first: int, probes: Batch)
    requires ValidTrace(sc) && (sc.profile.Fuzz? || sc.profile.Chaos?)
    requires Grouped(groups, SourcesAfter(sc, sc.batches)) && exists t :: t in groups
    requires IsNext(LedgerAfter(sc, sc.batches).ids, first)
    requires ProbesFor(sc, groups, if sc.profile.Chaos? then first + 1 else first, probes)
    requires forall t :: t in groups && 0 <= t < sc.threadCount ==> Probed(probes, t)
    ensures IsQualified(sc, sc.(batches := sc.batches + Tail(sc.profile, first, probes)), first, probes)
  {
    ProbesQualify(sc, groups, if sc.profile.Chaos? then first + 1 else first, probes);
    var r, t := SomethingDue(sc, groups);
    NextIsFree(sc, r, first);
    assert Appended(sc.profile, first, probes, Tail(sc.profile, first, probes));
  }

  lemma SomethingUsed(sc: Scenario, r: Ref)
    requires ValidTrace(sc) && TraceRules.Traced(sc.profile) && RedactedBefore(sc.batches, r)
    ensures LedgerAfter(sc, sc.batches).ids != {}
  {
    DueMeans(sc);
    var i :| 0 <= i < |sc.batches| && Redacts(sc.batches[i], r);
    var op :| op in sc.batches[i] && op.kind.Redaction?;
    assert TraceRules.HasId(sc.batches[i], op.id) && TraceRules.UsedId(sc.batches, op.id);
    assert op.id in LedgerAfter(sc, sc.batches).ids;
  }

  // The whole transformation. The trace comes from a generator or from a validated file.
  method WithCleanupProbes(sc: Scenario) returns (q: Scenario, ghost probes: Batch, ghost first: int)
    requires ValidTrace(sc)
    ensures ValidTrace(q)
    ensures SourcesAfter(sc, sc.batches).redacted == {} ==> q == sc
    ensures SourcesAfter(sc, sc.batches).redacted != {} ==>
              && q == sc.(batches := sc.batches + Tail(sc.profile, first, probes))
              && probes != [] && NamesOnce(sc, probes)
              && (forall p :: p in probes ==>
                    p.kind.ThreadMessage? && p.target == Some(Root(p.thread)) && p.cleanup != [])
              && Mutations(q.batches) == Mutations(sc.batches) + |probes|
    ensures IsQualified(sc, q, first, probes)
  {
    probes, first := [], 0;
    if FixedProfile(sc.profile) {
      LeftAlone(sc, map[], first, probes);
      return sc, probes, first;
    }
    LogOfTrace(sc, sc.batches);
    var groups, next := CollectRedactions(sc);
    if !exists t :: t in groups {
      LeftAlone(sc, groups, first, probes);
      return sc, probes, first;
    }
    SomethingRedacted(groups, SourcesAfter(sc, sc.batches));
    OnlyFuzzAndChaosRedact(sc);
    first := next;
    var batches;
    batches, probes := AppendProbes(sc, groups, next);
    q := sc.(batches := batches);
    Qualified(sc, groups, first, probes);
    NowQualified(sc, groups, first, probes);
    var accepted := TraceValidator.Validate(q);
    assert accepted;
  }

  // The batches of the trace followed by its probes, between two checkpoints in chaos traces.
  method AppendProbes(sc: Scenario, groups: map<int, set<Ref>>, first: int)
    returns (batches: seq<Batch>, probes: Batch)
    requires sc.clientCount > 0
    ensures batches == sc.batches + Tail(sc.profile, first, probes)
    ensures ProbesFor(sc, groups, if sc.profile.Chaos? then first + 1 else first, probes)
    ensures forall t :: t in groups && 0 <= t < sc.threadCount ==> Probed(probes, t)
  {
    var next := first;
    batches := sc.batches;
    if sc.profile.Chaos? {
      batches := batches + [CheckpointBatch(next)];
      next := next + 1;
    }
    probes := BuildProbes(sc, groups, next);
    batches := batches + [probes];
    if sc.profile.Chaos? {
      batches := batches + [CheckpointBatch(next + |probes|)];
    }
  }

  lemma SomethingRedacted(groups: map<int, set<Ref>>, log: SourceLog)
    requires Grouped(groups, log) && exists t :: t in groups
    ensures log.redacted != {}
  {
    var t :| t in groups;
    var r :| r in groups[t];
  }

  lemma Qualified(sc: Scenario, groups: map<int, set<Ref>>, first: int, probes: Batch)
    requires ValidTrace(sc) && (sc.profile.Fuzz? || sc.profile.Chaos?)
    requires Grouped(groups, SourcesAfter(sc, sc.batches)) && exists t :: t in groups
    requires forall id :: id in LedgerAfter(sc, sc.batches).ids ==> id < first
    requires ProbesFor(sc, groups, if sc.profile.Chaos? then first + 1 else first, probes)
    requires forall t :: t in groups && 0 <= t < sc.threadCount ==> Probed(probes, t)
    ensures probes != [] && NamesOnce(sc, probes)
    ensures ValidTrace(sc.(batches := sc.batches + Tail(sc.profile, first, probes)))
    ensures Mutations(sc.batches + Tail(sc.profile, first, probes)) == Mutations(sc.batches) + |probes|
    ensures forall p :: p in probes ==> p.kind.ThreadMessage? && p.target == Some(Root(p.thread)) && p.cleanup != []
  {
    LogOfTrace(sc, sc.batches);
    ProbesNameOnce(sc, groups, if sc.profile.Chaos? then first + 1 else first, probes);
    SomeProbe(groups, SourcesAfter(sc, sc.batches), probes, sc.threadCount);
    TailAccepted(sc, groups, first, probes);
    forall p | p in probes ensures p.kind.ThreadMessage? && p.target == Some(Root(p.thread)) && p.cleanup != [] {
      assert p.thread in groups && Elements(p.cleanup) == groups[p.thread];
    }
  }

  lemma SomeProbe(groups: map<int, set<Ref>>, log: SourceLog, probes: Batch, threadCount: int)
    requires Grouped(groups, log) && exists t :: t in groups
    requires forall r :: r in log.threads ==> 0 <= log.threads[r] < threadCount
    requires forall t :: t in groups && 0 <= t < threadCount ==> Probed(probes, t)
    ensures probes != []
  {
    var t :| t in groups;
    var r :| r in groups[t];
    assert log.threads[r] == t;
    assert Probed(probes, t);
  }
}

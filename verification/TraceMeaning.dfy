// What acceptance means for a reader of the trace: every reference points backwards, and
// every identifier is used once.
module TraceMeaning {

  import opened Options
  import opened Sequences
  import opened Traces
  import opened TraceValidation
  import opened TraceGeneration

  // An operation with this identifier occurs in the batches; messages only, if asked.
  ghost predicate Occurs(batches: seq<Batch>, id: int, messagesOnly: bool) {
    exists k, op ::
      0 <= k < |batches| && op in batches[k] && op.id == id && !op.kind.IdempotentRetry?
      && (messagesOnly ==> op.kind.IsMessage())
  }

  // A reference is defined by the thread roots or by an operation of the given batches; a
  // response is defined by the message it answers.
  ghost predicate Defined(threadCount: int, batches: seq<Batch>, r: Ref) {
    match r
    case Root(t) => 0 <= t < threadCount
    case Op(id) => Occurs(batches, id, false)
    case Response(m) =>
      (m.Root? && 0 <= m.thread < threadCount) || (m.Op? && Occurs(batches, m.id, true))
    case Unknown(_) => false
  }

  lemma OccursSnoc(batches: seq<Batch>, batch: Batch)
    ensures forall id, m :: Occurs(batches, id, m) ==> Occurs(batches + [batch], id, m)
    ensures forall op :: op in batch && !op.kind.IdempotentRetry? ==>
              Occurs(batches + [batch], op.id, op.kind.IsMessage())
    ensures forall op :: op in batch && !op.kind.IdempotentRetry? ==> Occurs(batches + [batch], op.id, false)
  {
    var all := batches + [batch];
    forall id, m | Occurs(batches, id, m) ensures Occurs(all, id, m) {
      var k, op :| 0 <= k < |batches| && op in batches[k] && op.id == id && !op.kind.IdempotentRetry?
                   && (m ==> op.kind.IsMessage());
      assert op in all[k];
    }
    assert all[|batches|] == batch;
  }

  lemma {:induction false} WithoutInterruptionsSubset(batch: Batch)
    ensures forall op :: op in WithoutInterruptions(batch) ==> op in batch
    ensures forall op :: op in batch && !op.kind.IsInterruption() ==> op in WithoutInterruptions(batch)
  {
    if batch != [] {
      WithoutInterruptionsSubset(batch[..|batch| - 1]);
      assert batch == batch[..|batch| - 1] + [batch[|batch| - 1]];
    }
  }

  // The operations a batch adds to the ledger.
  function Registered(profile: Profile, batch: Batch): Batch {
    if profile.Fuzz? then WithoutInterruptions(batch)
    else if HasLifecycle(batch) then []
    else batch
  }

  // How an accepted batch changes what the ledger knows.
  lemma AcceptedStep(sc: Scenario, batch: Batch, s: Ledger)
    requires BatchOk(sc, batch, s)
    ensures var s', ops := ApplyBatch(sc, batch, s), Registered(sc.profile, batch);
            && s'.knownEvents == RegisterOps(s, ops).knownEvents
            && s'.messageEvents == RegisterOps(s, ops).messageEvents
            && s'.knownResponses == RegisterOps(s, ops).knownResponses
            && s'.ids == s.ids + IdsOf(batch)
            && (forall op :: op in ops ==> op in batch)
            && (forall r :: r in s'.unusable && r !in s.unusable ==> r in s'.knownResponses)
  {
    var ops := Registered(sc.profile, batch);
    RegisterOpsFrame(s, ops);
    RedactOpsFrame(RegisterOps(s, ops), ops);
    WithoutInterruptionsSubset(batch);
    if !sc.profile.Fuzz? && HasLifecycle(batch) {
      assert batch == [batch[0]];
      assert IdsOf(batch) == {batch[0].id};
    }
  }

  // Everything the ledger knows is defined by the batches it has seen.
  ghost predicate Grounded(threadCount: int, batches: seq<Batch>, s: Ledger) {
    && (forall r :: r in s.knownEvents ==> !r.Response? && Defined(threadCount, batches, r))
    && (forall m :: m in s.messageEvents ==> Defined(threadCount, batches, Response(m)))
    && s.knownResponses == ResponsesTo(s.messageEvents)
    && s.unusable <= s.knownResponses
  }

  lemma GroundedStep(sc: Scenario, batches: seq<Batch>, batch: Batch, s: Ledger)
    requires Grounded(sc.threadCount, batches, s) && BatchOk(sc, batch, s)
    ensures Grounded(sc.threadCount, batches + [batch], ApplyBatch(sc, batch, s))
  {
    var s', ops := ApplyBatch(sc, batch, s), Registered(sc.profile, batch);
    AcceptedStep(sc, batch, s);
    RegisterOpsFrame(s, ops);
    RegisteredResponses(s, ops);
    OccursSnoc(batches, batch);
    forall r | r in s'.knownEvents ensures !r.Response? && Defined(sc.threadCount, batches + [batch], r) {
      if r in s.knownEvents {
        assert Defined(sc.threadCount, batches, r);
      }
    }
    forall m | m in s'.messageEvents ensures Defined(sc.threadCount, batches + [batch], Response(m)) {
      if m in s.messageEvents {
        assert Defined(sc.threadCount, batches, Response(m));
      }
    }
  }

  lemma {:induction false} KnownIsDefined(sc: Scenario, batches: seq<Batch>)
    requires sc.clientCount > 0 && BatchesOk(sc, batches)
    ensures Grounded(sc.threadCount, batches, LedgerAfter(sc, batches))
  {
    if batches != [] {
      var init, batch := batches[..|batches| - 1], batches[|batches| - 1];
      KnownIsDefined(sc, init);
      GroundedStep(sc, init, batch, LedgerAfter(sc, init));
      assert init + [batch] == batches;
    }
  }

  lemma {:induction false} RegisteredResponses(s: Ledger, ops: Batch)
    requires s.knownResponses == ResponsesTo(s.messageEvents)
    ensures RegisterOps(s, ops).knownResponses == ResponsesTo(RegisterOps(s, ops).messageEvents)
  {
    if ops != [] {
      RegisteredResponses(s, ops[..|ops| - 1]);
    }
  }

  lemma {:induction false} PrefixAccepted(sc: Scenario, batches: seq<Batch>, k: nat)
    requires sc.clientCount > 0 && BatchesOk(sc, batches) && k < |batches|
    ensures BatchesOk(sc, batches[..k]) && BatchOk(sc, batches[k], LedgerAfter(sc, batches[..k]))
  {
    if k < |batches| - 1 {
      PrefixAccepted(sc, batches[..|batches| - 1], k);
      assert batches[..|batches| - 1][..k] == batches[..k];
    }
  }

  // In an accepted trace no operation refers to its own batch or to a later one: whatever it
  // targets is defined by the batches before it.
  lemma NoForwardReference(sc: Scenario, k: nat, op: Operation)
    requires ValidTrace(sc) && !FixedProfile(sc.profile)
    requires k < |sc.batches| && op in sc.batches[k] && op.target.Some?
    ensures Defined(sc.threadCount, sc.batches[..k], op.target.value)
  {
    PrefixAccepted(sc, sc.batches, k);
    KnownIsDefined(sc, sc.batches[..k]);
    var s := LedgerAfter(sc, sc.batches[..k]);
    assert op.target.value in s.knownEvents || op.target.value in s.knownResponses;
  }

  lemma {:induction false} IdsAreRecorded(sc: Scenario, batches: seq<Batch>)
    requires sc.clientCount > 0 && BatchesOk(sc, batches)
    ensures forall k, op :: 0 <= k < |batches| && op in batches[k] ==> op.id in LedgerAfter(sc, batches).ids
  {
    if batches != [] {
      IdsAreRecorded(sc, batches[..|batches| - 1]);
      AcceptedStep(sc, batches[|batches| - 1], LedgerAfter(sc, batches[..|batches| - 1]));
    }
  }

  lemma AcceptedIdsAreFresh(sc: Scenario, batch: Batch, s: Ledger)
    requires BatchOk(sc, batch, s)
    ensures FreshIds(batch, s.ids)
  {
  }

  // In an accepted trace two different places never hold operations with the same identifier.
  lemma IdsAreUnique(sc: Scenario, k: nat, i: nat, l: nat, j: nat)
    requires ValidTrace(sc) && !FixedProfile(sc.profile)
    requires k < |sc.batches| && i < |sc.batches[k]| && l < |sc.batches| && j < |sc.batches[l]|
    requires k < l || (k == l && i < j)
    ensures sc.batches[k][i].id != sc.batches[l][j].id
  {
    PrefixAccepted(sc, sc.batches, l);
    var before := sc.batches[..l];
    AcceptedIdsAreFresh(sc, sc.batches[l], LedgerAfter(sc, before));
    if k < l {
      IdsAreRecorded(sc, before);
      assert sc.batches[k][i] in before[k];
    }
  }

  // What a trace gains from one more accepted batch.
  lemma AppendedTrace(sc: Scenario, batches: seq<Batch>, batch: Batch)
    requires sc.clientCount > 0 && BatchesOk(sc, batches) && ProbesOk(sc, batches)
    requires BatchOk(sc, batch, LedgerAfter(sc, batches))
    requires ProbeBatchOk(sc.profile, batch, SourcesAfter(sc, batches))
    ensures BatchesOk(sc, batches + [batch]) && ProbesOk(sc, batches + [batch])
    ensures LedgerAfter(sc, batches + [batch]) == ApplyBatch(sc, batch, LedgerAfter(sc, batches))
    ensures SourcesAfter(sc, batches + [batch]) == TrackSources(SourcesAfter(sc, batches), batch)
    ensures Mutations(batches + [batch]) == Mutations(batches) + MutationsIn(batch)
    ensures forall p :: p in batches + [batch] ==> p in batches || p == batch
  {
    SnocPrefix(batches, batch);
  }

  // The rules look at a scenario's shape, not at the batches it carries.
  lemma BatchShape(sc: Scenario, other: Scenario, batch: Batch, s: Ledger)
    requires other == sc.(batches := other.batches)
    ensures BatchOk(other, batch, s) <==> BatchOk(sc, batch, s)
    ensures ApplyBatch(other, batch, s) == ApplyBatch(sc, batch, s)
  {
  }

  lemma {:induction false} ShapeDecides(sc: Scenario, other: Scenario, batches: seq<Batch>)
    requires sc.clientCount > 0 && other == sc.(batches := other.batches)
    ensures LedgerAfter(other, batches) == LedgerAfter(sc, batches)
    ensures BatchesOk(other, batches) <==> BatchesOk(sc, batches)
    ensures SourcesAfter(other, batches) == SourcesAfter(sc, batches)
    ensures ProbesOk(other, batches) <==> ProbesOk(sc, batches)
  {
    if batches != [] {
      var init := batches[..|batches| - 1];
      ShapeDecides(sc, other, init);
      BatchShape(sc, other, batches[|batches| - 1], LedgerAfter(sc, init));
    }
  }
}

// What acceptance of a whole trace means, and that the validator's verdict is exactly that.
module TraceAcceptance {

  import opened Options
  import opened Sequences
  import opened Traces
  import opened TraceValidation
  import opened TraceMeaning
  import opened TraceRules

  // ----- The shape of saturation traces -----

  predicate Visits(batch: Batch, t: int) {
    exists op :: op in batch && op.thread == t
  }

  predicate ThreadsDiffer(batch: Batch) {
    forall i, j :: 0 <= i < j < |batch| ==> batch[i].thread != batch[j].thread
  }

  // One operation for every thread from lo to hi, hi excluded, and no other.
  ghost predicate OneEach(batch: Batch, lo: int, hi: int) {
    ThreadsDiffer(batch) && forall t :: Visits(batch, t) <==> lo <= t < hi
  }

  // First the hot thread alone, then all others at once.
  ghost predicate HotThenParallel(sc: Scenario, batches: seq<Batch>, p: nat) {
    forall k :: 0 <= k < |batches| ==>
      if k < p then OneEach(batches[k], 0, 1) else OneEach(batches[k], 1, sc.threadCount)
  }

  // The last event of the thread: its root, or the last operation sent there.
  predicate IsLast(before: seq<Batch>, t: int, r: Ref) {
    || (r == Root(t) && forall j :: 0 <= j < |before| ==> !Visits(before[j], t))
    || exists j :: 0 <= j < |before| && SentThere(before[j], t, r)
         && forall l :: j < l < |before| ==> !Visits(before[l], t)
  }

  predicate SentThere(batch: Batch, t: int, r: Ref) {
    exists op :: op in batch && op.thread == t && r == Op(op.id)
  }

  // The operation answers the response its thread is waiting for.
  predicate Follows(before: seq<Batch>, op: Operation) {
    && op.kind.ThreadMessage? && op.client == 0
    && op.target.Some? && op.target.value.Response? && IsLast(before, op.thread, op.target.value.source)
  }

  ghost predicate SaturationRules(sc: Scenario, batches: seq<Batch>) {
    && sc.threadCount >= 2 && sc.clientCount == 1
    && (exists p: nat :: HotThenParallel(sc, batches, p))
    && forall k, op :: 0 <= k < |batches| && op in batches[k] ==> Follows(batches[..k], op)
  }

  lemma ThreadsMean(batch: Batch, phase: set<int>)
    ensures |batch| == |phase| && Elements(ThreadsOf(batch)) == phase <==>
      ThreadsDiffer(batch) && forall t :: Visits(batch, t) <==> t in phase
  {
    var threads := ThreadsOf(batch);
    DistinctIffAsManyElements(threads);
    DistinctMeansPairwiseDifferent(threads);
    forall t ensures Visits(batch, t) <==> t in Elements(threads) {
      if Visits(batch, t) {
        var op :| op in batch && op.thread == t;
        var i :| 0 <= i < |batch| && batch[i] == op;
        assert threads[i] == t;
      }
      if t in threads {
        var i :| 0 <= i < |threads| && threads[i] == t;
        assert batch[i] in batch;
      }
    }
    assert forall i :: 0 <= i < |batch| ==> threads[i] == batch[i].thread;
    assert forall t :: Visits(batch, t) <==> t in Elements(threads);
    if forall t :: Visits(batch, t) <==> t in phase {
      forall t ensures t in Elements(threads) <==> t in phase {
        assert Visits(batch, t) <==> t in phase;
      }
      assert Elements(threads) == phase;
    }
    if ThreadsDiffer(batch) {
      assert forall i, j :: 0 <= i < j < |threads| ==> threads[i] != threads[j];
    }
    if Distinct(threads) {
      forall i, j | 0 <= i < j < |batch| ensures batch[i].thread != batch[j].thread {
        assert threads[i] != threads[j];
      }
    }
  }

  // Where the parallel phase starts.
  lemma PhaseStarts(sc: Scenario, p: nat)
    requires sc.threadCount >= 2 && HotThenParallel(sc, sc.batches, p)
    ensures ParallelStart(sc.batches) == if p < |sc.batches| then p else |sc.batches|
  {
    var start := ParallelStart(sc.batches);
    forall k | 0 <= k < |sc.batches| ensures k < p <==> !TouchesParallelThread(sc.batches[k]) {
      if k < p {
        forall op | op in sc.batches[k] ensures op.thread == 0 {
          assert Visits(sc.batches[k], op.thread);
        }
      } else {
        assert Visits(sc.batches[k], 1);
      }
    }
    assert start < |sc.batches| ==> TouchesParallelThread(sc.batches[start]);
    assert p < |sc.batches| ==> TouchesParallelThread(sc.batches[p]);
  }

  lemma PhasesMean(sc: Scenario, k: nat)
    requires k < |sc.batches| && sc.threadCount >= 2
    ensures var batch, phase := sc.batches[k], PhaseThreads(sc, k);
      |batch| == |phase| && Elements(ThreadsOf(batch)) == phase <==>
        if k < ParallelStart(sc.batches) then OneEach(batch, 0, 1) else OneEach(batch, 1, sc.threadCount)
  {
    ThreadsMean(sc.batches[k], PhaseThreads(sc, k));
  }

  lemma VisitsSnoc(init: Batch, last: Operation, t: int)
    ensures Visits(init + [last], t) <==> Visits(init, t) || last.thread == t
    ensures ThreadsDiffer(init + [last]) ==> ThreadsDiffer(init) && !Visits(init, last.thread)
  {
    var batch := init + [last];
    assert last in batch && forall i :: 0 <= i < |init| ==> batch[i] == init[i];
    if ThreadsDiffer(batch) {
      forall op | op in init ensures op.thread != last.thread {
        var i :| 0 <= i < |init| && init[i] == op;
        assert batch[|init|] == last;
      }
    }
  }

  lemma {:induction false} ChainedTargets(targets: map<int, Ref>, batch: Batch, t: int)
    requires ThreadsDiffer(batch)
    ensures var targets' := ChainTargets(targets, batch);
      && (t in targets' <==> t in targets || Visits(batch, t))
      && (!Visits(batch, t) && t in targets ==> targets'[t] == targets[t])
      && (forall op :: op in batch && op.thread == t ==> t in targets' && targets'[t] == Response(Op(op.id)))
  {
    if batch != [] {
      var init, last := batch[..|batch| - 1], batch[|batch| - 1];
      assert batch == init + [last];
      VisitsSnoc(init, last, t);
      ChainedTargets(targets, init, t);
    }
  }

  lemma {:induction false} ChainMeans(targets: map<int, Ref>, batch: Batch)
    requires ThreadsDiffer(batch)
    ensures ChainOk(batch, targets) <==> forall op :: op in batch ==> SaturationOpOk(op, targets)
  {
    if batch != [] {
      var init, last := batch[..|batch| - 1], batch[|batch| - 1];
      assert batch == init + [last];
      VisitsSnoc(init, last, last.thread);
      ChainMeans(targets, init);
      ChainedTargets(targets, init, last.thread);
      assert SaturationOpOk(last, ChainTargets(targets, init)) <==> SaturationOpOk(last, targets);
      assert forall op :: op in batch <==> op in init || op == last;
    }
  }

  ghost predicate TargetsRead(sc: Scenario, before: seq<Batch>, targets: map<int, Ref>) {
    forall t ::
      && (t in targets <==> 0 <= t < sc.threadCount)
      && (t in targets ==>
            targets[t].Response? && forall r :: IsLast(before, t, r) <==> r == targets[t].source)
  }

  lemma IsLastSnoc(before: seq<Batch>, batch: Batch, t: int, r: Ref)
    ensures IsLast(before + [batch], t, r) <==>
      if Visits(batch, t) then SentThere(batch, t, r) else IsLast(before, t, r)
  {
    var all := before + [batch];
    assert all[|before|] == batch && forall i :: 0 <= i < |before| ==> all[i] == before[i];
    assert SentThere(batch, t, r) ==> Visits(batch, t);
  }

  lemma TargetsStep(sc: Scenario, before: seq<Batch>, batch: Batch, targets: map<int, Ref>)
    requires TargetsRead(sc, before, targets) && ThreadsDiffer(batch)
    requires forall t :: Visits(batch, t) ==> 0 <= t < sc.threadCount
    ensures TargetsRead(sc, before + [batch], ChainTargets(targets, batch))
  {
    var targets' := ChainTargets(targets, batch);
    forall t
      ensures t in targets' <==> 0 <= t < sc.threadCount
      ensures t in targets' ==>
                targets'[t].Response? && forall r :: IsLast(before + [batch], t, r) <==> r == targets'[t].source
    {
      ChainedTargets(targets, batch, t);
      forall r ensures IsLast(before + [batch], t, r) <==>
        if Visits(batch, t) then SentThere(batch, t, r) else IsLast(before, t, r)
      {
        IsLastSnoc(before, batch, t, r);
      }
    }
  }

  lemma {:induction false} TargetsMean(sc: Scenario, before: seq<Batch>, p: nat)
    requires sc.threadCount >= 2 && HotThenParallel(sc, before, p)
    ensures TargetsRead(sc, before, TargetsAfter(sc, before))
  {
    if before != [] {
      var init, batch := before[..|before| - 1], before[|before| - 1];
      assert before == init + [batch];
      TargetsMean(sc, init, p);
      TargetsStep(sc, init, batch, TargetsAfter(sc, init));
    }
  }

  lemma FollowsMeans(sc: Scenario, k: nat, p: nat)
    requires sc.threadCount >= 2 && HotThenParallel(sc, sc.batches, p) && k < |sc.batches|
    ensures ChainOk(sc.batches[k], TargetsAfter(sc, sc.batches[..k])) <==>
      forall op :: op in sc.batches[k] ==> Follows(sc.batches[..k], op)
  {
    var before, batch := sc.batches[..k], sc.batches[k];
    TargetsMean(sc, before, p);
    ChainMeans(TargetsAfter(sc, before), batch);
    forall op | op in batch ensures SaturationOpOk(op, TargetsAfter(sc, before)) <==> Follows(before, op) {
      assert Visits(batch, op.thread);
    }
  }

  lemma SaturationIff(sc: Scenario)
    ensures SaturationShape(sc) <==> SaturationRules(sc, sc.batches)
  {
    if sc.threadCount >= 2 {
      forall k | 0 <= k < |sc.batches| ensures var batch, phase := sc.batches[k], PhaseThreads(sc, k);
        |batch| == |phase| && Elements(ThreadsOf(batch)) == phase <==>
          if k < ParallelStart(sc.batches) then OneEach(batch, 0, 1) else OneEach(batch, 1, sc.threadCount)
      {
        PhasesMean(sc, k);
      }
      if SaturationShape(sc) {
        forall k | 0 <= k < |sc.batches|
          ensures if k < ParallelStart(sc.batches) then OneEach(sc.batches[k], 0, 1)
                  else OneEach(sc.batches[k], 1, sc.threadCount)
        {
          assert SaturationBatchOk(sc, k);
        }
        assert HotThenParallel(sc, sc.batches, ParallelStart(sc.batches));
      }
      if p: nat :| HotThenParallel(sc, sc.batches, p) {
        PhaseStarts(sc, p);
        forall k | 0 <= k < |sc.batches|
          ensures SaturationBatchOk(sc, k) <==> forall op :: op in sc.batches[k] ==> Follows(sc.batches[..k], op)
        {
          FollowsMeans(sc, k, p);
        }
      }
    }
  }

  // ----- The whole trace -----

  // An accepted trace: every batch keeps the rules, given the batches before it, and MindRoom is up
  // in the end. Two profiles run no trace of their own.
  ghost predicate Acceptable(sc: Scenario) {
    && sc.threadCount >= 1 && sc.clientCount >= 1 && sc.roomCount >= 1
    && match sc.profile
       case RestartRegression => sc.batches == [] && sc.threadCount == 1
       case SustainedStreamCapacity => sc.batches == []
       case Unsupported(_) => false
       case _ =>
         && KeepsRules(sc, sc.batches) && KeepsProbeRules(sc, sc.batches) && !Down(sc.batches)
         && (!sc.profile.Fuzz? && !sc.profile.Chaos? ==> SaturationRules(sc, sc.batches))
  }

  // The validator's rules are these.
  lemma AcceptedIff(sc: Scenario)
    ensures ValidTrace(sc) <==> Acceptable(sc)
  {
    if Traced(sc.profile) && sc.clientCount >= 1 {
      KeepingIff(sc, sc.batches);
      if KeepsRules(sc, sc.batches) {
        ProbesIff(sc, sc.batches);
      }
      SaturationIff(sc);
    }
  }
}

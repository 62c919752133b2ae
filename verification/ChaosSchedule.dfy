// When a chaos trace checkpoints and when it disturbs MindRoom, said of the finished trace. The
// generator builds the trace from five kinds of pieces; each keeps the plan.
module ChaosSchedule {

  import opened Options
  import opened Sequences
  import opened Traces

  // ----- The plan of a trace -----

  predicate IsStep(batch: Batch, kind: Kind) {
    |batch| == 1 && batch[0].kind == kind
  }

  predicate IsCheckpoint(batch: Batch) {
    IsStep(batch, Checkpoint)
  }

  // A restart or a stop: what the lifecycle interval spaces out.
  predicate Disturbs(batch: Batch) {
    || IsStep(batch, RestartMindRoom) || IsStep(batch, KillRestartMindRoom) || IsStep(batch, ColdRestartMindRoom)
    || IsStep(batch, RestartTuwunel) || IsStep(batch, StopMindRoom)
  }

  predicate IsLifecycle(batch: Batch) {
    Disturbs(batch) || IsStep(batch, StartMindRoom)
  }

  predicate IsWork(batch: Batch) {
    batch != [] && forall op :: op in batch ==> IsMutation(op)
  }

  // No batch from i to j, j excluded, is of the kind.
  predicate Free(kind: Batch -> bool, batches: seq<Batch>, i: int, j: int)
    requires 0 <= i <= j <= |batches|
  {
    forall k :: i <= k < j ==> !kind(batches[k])
  }

  // Consecutive batches without one of the kind hold at most so many mutations.
  ghost predicate Within(kind: Batch -> bool, batches: seq<Batch>, bound: int) {
    forall i, j :: 0 <= i <= j <= |batches| && Free(kind, batches, i, j) ==> Mutations(batches[i..j]) <= bound
  }

  // The batches before k hold at least so many mutations since one of the kind, or since the start.
  ghost predicate Overdue(kind: Batch -> bool, batches: seq<Batch>, k: int, least: int)
    requires 0 <= k <= |batches|
  {
    exists i :: 0 <= i <= k && Free(kind, batches, i, k) && Mutations(batches[i..k]) >= least
  }

  // From the stop at k: at most downtimeBatches batches of work, fewer only when the trace has all its
  // mutations, then the start, then a checkpoint.
  ghost predicate Outage(tuning: Tuning, steps: int, batches: seq<Batch>, k: int)
    requires 0 <= k < |batches|
  {
    exists d :: OutageFor(tuning, steps, batches, k, d)
  }

  ghost predicate OutageFor(tuning: Tuning, steps: int, batches: seq<Batch>, k: int, d: int)
    requires 0 <= k < |batches|
  {
    && 0 <= d <= tuning.downtimeBatches && k + d + 2 < |batches|
    && (forall l :: k < l <= k + d ==> IsWork(batches[l]))
    && IsStep(batches[k + d + 1], StartMindRoom) && IsCheckpoint(batches[k + d + 2])
    && (d < tuning.downtimeBatches ==> Mutations(batches[..k + d + 1]) == steps)
  }

  // Why the trace has this batch at k.
  ghost predicate Planned(tuning: Tuning, steps: int, batches: seq<Batch>, k: int)
    requires 0 <= k < |batches|
  {
    && (IsCheckpoint(batches[k]) ==>
          || (tuning.checkpointInterval > 0 && Overdue(IsCheckpoint, batches, k, tuning.checkpointInterval))
          || (k + 1 < |batches| && IsStep(batches[k + 1], ColdRestartMindRoom))
          || (k > 0 && IsStep(batches[k - 1], StartMindRoom)))
    && (Disturbs(batches[k]) ==>
          tuning.lifecycleInterval > 0 && Overdue(IsLifecycle, batches, k, tuning.lifecycleInterval))
    && (IsStep(batches[k], ColdRestartMindRoom) ==> k > 0 && IsCheckpoint(batches[k - 1]))
    && (IsStep(batches[k], StopMindRoom) ==> Outage(tuning, steps, batches, k))
    && (!IsCheckpoint(batches[k]) && !IsLifecycle(batches[k]) ==> IsWork(batches[k]))
  }

  function Max(a: int, b: int): int {
    if a < b then b else a
  }

  function CheckpointBound(tuning: Tuning): int {
    tuning.checkpointInterval - 1 + tuning.maxBatchSize * Max(1, tuning.downtimeBatches)
  }

  function LifecycleBound(tuning: Tuning): int {
    Max(tuning.lifecycleInterval - 1 + tuning.maxBatchSize, tuning.maxBatchSize * tuning.downtimeBatches)
  }

  // Batches are no longer than allowed, and checkpoints and disturbances come often enough.
  ghost predicate Paced(tuning: Tuning, batches: seq<Batch>) {
    && (forall k :: 0 <= k < |batches| ==> |batches[k]| <= tuning.maxBatchSize)
    && (tuning.checkpointInterval > 0 ==> Within(IsCheckpoint, batches, CheckpointBound(tuning)))
    && (tuning.lifecycleInterval > 0 ==> Within(IsLifecycle, batches, LifecycleBound(tuning)))
  }

  // The plan: the pace is kept, and nothing comes without its reason.
  ghost predicate Plan(tuning: Tuning, steps: int, batches: seq<Batch>) {
    && Paced(tuning, batches)
    && forall k :: 0 <= k < |batches| ==> Planned(tuning, steps, batches, k)
  }

  // ----- Counting from the end -----

  // The mutations since the last batch of the kind.
  function Since(kind: Batch -> bool, batches: seq<Batch>): nat {
    if batches == [] || kind(batches[|batches| - 1]) then 0
    else Since(kind, batches[..|batches| - 1]) + MutationsIn(batches[|batches| - 1])
  }

  lemma SinceSnoc(kind: Batch -> bool, batches: seq<Batch>, batch: Batch)
    ensures Since(kind, batches + [batch]) == if kind(batch) then 0 else Since(kind, batches) + MutationsIn(batch)
  {
    SnocPrefix(batches, batch);
  }

  lemma {:induction false} FreeIsSince(kind: Batch -> bool, batches: seq<Batch>, i: nat)
    requires i <= |batches| && Free(kind, batches, i, |batches|)
    ensures Mutations(batches[i..]) <= Since(kind, batches)
  {
    if i < |batches| {
      var init := batches[..|batches| - 1];
      assert Free(kind, init, i, |init|);
      FreeIsSince(kind, init, i);
      assert batches[i..][..|batches[i..]| - 1] == init[i..];
    }
  }

  lemma {:induction false} SinceIsFree(kind: Batch -> bool, batches: seq<Batch>) returns (i: nat)
    ensures i <= |batches| && Free(kind, batches, i, |batches|) && Mutations(batches[i..]) == Since(kind, batches)
  {
    i := |batches|;
    if batches != [] && !kind(batches[|batches| - 1]) {
      var init := batches[..|batches| - 1];
      i := SinceIsFree(kind, init);
      assert forall k :: 0 <= k < |init| ==> batches[k] == init[k];
      assert batches[i..][..|batches[i..]| - 1] == init[i..];
    }
  }

  // Whatever comes next, nothing before it changes its reasons.
  lemma OverdueStays(kind: Batch -> bool, batches: seq<Batch>, more: seq<Batch>, k: nat, least: int)
    requires k <= |batches| && Overdue(kind, batches, k, least)
    ensures Overdue(kind, batches + more, k, least)
  {
    var i :| 0 <= i <= k && Free(kind, batches, i, k) && Mutations(batches[i..k]) >= least;
    assert (batches + more)[i..k] == batches[i..k];
    assert Free(kind, batches + more, i, k);
  }

  lemma OverdueNow(kind: Batch -> bool, batches: seq<Batch>, more: seq<Batch>)
    ensures Overdue(kind, batches + more, |batches|, Since(kind, batches))
  {
    var i := SinceIsFree(kind, batches);
    assert batches[i..|batches|] == batches[i..];
    assert Overdue(kind, batches, |batches|, Since(kind, batches));
    OverdueStays(kind, batches, more, |batches|, Since(kind, batches));
  }

  lemma OutageStays(tuning: Tuning, steps: int, batches: seq<Batch>, more: seq<Batch>, k: nat)
    requires k < |batches| && Outage(tuning, steps, batches, k)
    ensures Outage(tuning, steps, batches + more, k)
  {
    var all := batches + more;
    var d :| OutageFor(tuning, steps, batches, k, d);
    assert all[..k + d + 1] == batches[..k + d + 1];
    assert forall l :: 0 <= l < |batches| ==> all[l] == batches[l];
    assert OutageFor(tuning, steps, all, k, d);
  }

  lemma PlannedStays(tuning: Tuning, steps: int, batches: seq<Batch>, more: seq<Batch>, k: nat)
    requires k < |batches| && Planned(tuning, steps, batches, k)
    ensures Planned(tuning, steps, batches + more, k)
  {
    var all := batches + more;
    assert forall l :: 0 <= l < |batches| ==> all[l] == batches[l];
    if Overdue(IsCheckpoint, batches, k, tuning.checkpointInterval) {
      OverdueStays(IsCheckpoint, batches, more, k, tuning.checkpointInterval);
    }
    if Overdue(IsLifecycle, batches, k, tuning.lifecycleInterval) {
      OverdueStays(IsLifecycle, batches, more, k, tuning.lifecycleInterval);
    }
    if Outage(tuning, steps, batches, k) {
      OutageStays(tuning, steps, batches, more, k);
    }
  }

  lemma WithinSnoc(kind: Batch -> bool, batches: seq<Batch>, batch: Batch, bound: int)
    requires Within(kind, batches, bound) && Since(kind, batches + [batch]) <= bound
    ensures Within(kind, batches + [batch], bound)
  {
    var all := batches + [batch];
    forall i, j | 0 <= i <= j <= |all| && Free(kind, all, i, j) ensures Mutations(all[i..j]) <= bound {
      if j <= |batches| {
        assert all[i..j] == batches[i..j];
        assert forall k :: 0 <= k < |batches| ==> all[k] == batches[k];
        assert Free(kind, batches, i, j);
      } else {
        FreeIsSince(kind, all, i);
        assert all[i..j] == all[i..];
      }
    }
  }

  // ----- The pieces -----

  predicate Added(before: seq<Batch>, after: seq<Batch>, n: nat) {
    |after| == |before| + n && after[..|before|] == before
  }

  // One step alone.
  predicate AddsStep(before: seq<Batch>, after: seq<Batch>, kind: Kind) {
    Added(before, after, 1) && IsStep(after[|before|], kind)
  }

  // One batch of work.
  predicate AddsWork(tuning: Tuning, before: seq<Batch>, after: seq<Batch>) {
    && Added(before, after, 1)
    && |after[|before|]| <= tuning.maxBatchSize && IsWork(after[|before|])
  }

  // The work of a downtime.
  ghost predicate AddsDowntime(tuning: Tuning, steps: int, before: seq<Batch>, after: seq<Batch>, d: nat) {
    && Working(tuning, before, after, d) && d <= tuning.downtimeBatches
    && (d < tuning.downtimeBatches ==> Mutations(after) == steps)
  }

  ghost predicate AddsColdRestart(before: seq<Batch>, after: seq<Batch>) {
    exists mid :: AddsStep(before, mid, Checkpoint) && AddsStep(mid, after, ColdRestartMindRoom)
  }

  ghost predicate AddsOutage(tuning: Tuning, steps: int, before: seq<Batch>, after: seq<Batch>) {
    exists down, up, started, d ::
      && AddsStep(before, down, StopMindRoom) && AddsDowntime(tuning, steps, down, up, d)
      && AddsStep(up, started, StartMindRoom) && AddsStep(started, after, Checkpoint)
  }

  // One disturbance, and whether it ended with a checkpoint or a cold restart.
  ghost predicate AddsDisturbance(tuning: Tuning, steps: int, before: seq<Batch>, after: seq<Batch>, settled: bool) {
    if settled then AddsColdRestart(before, after) || AddsOutage(tuning, steps, before, after)
    else
      || AddsStep(before, after, RestartMindRoom) || AddsStep(before, after, KillRestartMindRoom)
      || AddsStep(before, after, RestartTuwunel)
  }

  lemma AddedOne(before: seq<Batch>, after: seq<Batch>)
    requires Added(before, after, 1)
    ensures after == before + [after[|before|]]
  {
  }

  lemma StepsCount(before: seq<Batch>, after: seq<Batch>, kind: Kind)
    requires AddsStep(before, after, kind) && kind.IsLifecycle()
    ensures Since(IsCheckpoint, after) == if kind.Checkpoint? then 0 else Since(IsCheckpoint, before)
    ensures Since(IsLifecycle, after) == if kind.Checkpoint? then Since(IsLifecycle, before) else 0
    ensures Mutations(after) == Mutations(before)
  {
    AddedOne(before, after);
    SinceSnoc(IsCheckpoint, before, after[|before|]);
    SinceSnoc(IsLifecycle, before, after[|before|]);
    SnocPrefix(before, after[|before|]);
    assert after[|before|][..0] == [];
  }

  lemma WorkCounts(tuning: Tuning, before: seq<Batch>, after: seq<Batch>)
    requires AddsWork(tuning, before, after)
    ensures Since(IsCheckpoint, after) == Since(IsCheckpoint, before) + |after[|before|]|
    ensures Since(IsLifecycle, after) == Since(IsLifecycle, before) + |after[|before|]|
    ensures Mutations(after) == Mutations(before) + |after[|before|]|
  {
    AddedOne(before, after);
    WorkIsCounted(after[|before|]);
    assert after[|before|][0] in after[|before|];
    SinceSnoc(IsCheckpoint, before, after[|before|]);
    SinceSnoc(IsLifecycle, before, after[|before|]);
    SnocPrefix(before, after[|before|]);
  }

  lemma {:induction false} WorkIsCounted(batch: Batch)
    requires forall op :: op in batch ==> IsMutation(op)
    ensures MutationsIn(batch) == |batch|
  {
    if batch != [] {
      WorkIsCounted(batch[..|batch| - 1]);
    }
  }

  lemma PacedSnoc(tuning: Tuning, before: seq<Batch>, after: seq<Batch>)
    requires Paced(tuning, before) && Added(before, after, 1) && |after[|before|]| <= tuning.maxBatchSize
    requires tuning.checkpointInterval > 0 ==> Since(IsCheckpoint, after) <= CheckpointBound(tuning)
    requires tuning.lifecycleInterval > 0 ==> Since(IsLifecycle, after) <= LifecycleBound(tuning)
    ensures Paced(tuning, after)
  {
    AddedOne(before, after);
    if tuning.checkpointInterval > 0 {
      WithinSnoc(IsCheckpoint, before, after[|before|], CheckpointBound(tuning));
    }
    if tuning.lifecycleInterval > 0 {
      WithinSnoc(IsLifecycle, before, after[|before|], LifecycleBound(tuning));
    }
  }

  lemma PlanGrows(tuning: Tuning, steps: int, before: seq<Batch>, after: seq<Batch>, n: nat)
    requires Plan(tuning, steps, before) && Added(before, after, n) && Paced(tuning, after)
    requires forall k :: |before| <= k < |after| ==> Planned(tuning, steps, after, k)
    ensures Plan(tuning, steps, after)
  {
    var more := after[|before|..];
    assert after == before + more;
    forall k | 0 <= k < |before| ensures Planned(tuning, steps, after, k) {
      PlannedStays(tuning, steps, before, more, k);
    }
  }

  // The trace has not yet more mutations since the last checkpoint than one more batch may add, and
  // the same of disturbances.
  ghost predicate InTime(tuning: Tuning, batches: seq<Batch>) {
    && (tuning.checkpointInterval > 0 ==> Since(IsCheckpoint, batches) < tuning.checkpointInterval)
    && (tuning.lifecycleInterval > 0 ==> Since(IsLifecycle, batches) < tuning.lifecycleInterval)
  }

  lemma AtLeastOnce(a: int, b: int)
    requires 0 <= a
    ensures a <= a * Max(1, b)
  {
  }

  lemma WorkKeepsPlan(tuning: Tuning, steps: int, before: seq<Batch>, after: seq<Batch>)
    requires tuning.Valid() && Plan(tuning, steps, before) && AddsWork(tuning, before, after) && InTime(tuning, before)
    ensures Plan(tuning, steps, after)
  {
    WorkCounts(tuning, before, after);
    AtLeastOnce(tuning.maxBatchSize, tuning.downtimeBatches);
    PacedSnoc(tuning, before, after);
    assert after[|before|][0] in after[|before|];
    assert Planned(tuning, steps, after, |before|);
    PlanGrows(tuning, steps, before, after, 1);
  }

  lemma SinceWithin(kind: Batch -> bool, batches: seq<Batch>, bound: int)
    requires Within(kind, batches, bound)
    ensures Since(kind, batches) <= bound
  {
    var i := SinceIsFree(kind, batches);
    assert batches[i..|batches|] == batches[i..];
  }

  lemma StepKeepsPace(tuning: Tuning, before: seq<Batch>, after: seq<Batch>, kind: Kind)
    requires tuning.Valid() && Paced(tuning, before) && AddsStep(before, after, kind) && kind.IsLifecycle()
    ensures Paced(tuning, after)
  {
    StepsCount(before, after, kind);
    AtLeastOnce(tuning.maxBatchSize, tuning.downtimeBatches);
    if tuning.checkpointInterval > 0 {
      SinceWithin(IsCheckpoint, before, CheckpointBound(tuning));
    }
    if tuning.lifecycleInterval > 0 {
      SinceWithin(IsLifecycle, before, LifecycleBound(tuning));
    }
    PacedSnoc(tuning, before, after);
  }

  lemma CheckpointKeepsPlan(tuning: Tuning, steps: int, before: seq<Batch>, after: seq<Batch>)
    requires tuning.Valid() && Plan(tuning, steps, before) && AddsStep(before, after, Checkpoint)
    requires 0 < tuning.checkpointInterval <= Since(IsCheckpoint, before)
    ensures Plan(tuning, steps, after)
  {
    StepKeepsPace(tuning, before, after, Checkpoint);
    AddedOne(before, after);
    OverdueNow(IsCheckpoint, before, [after[|before|]]);
    assert Planned(tuning, steps, after, |before|);
    PlanGrows(tuning, steps, before, after, 1);
  }

  // A disturbance is due.
  ghost predicate IsDue(tuning: Tuning, batches: seq<Batch>) {
    && 0 < tuning.lifecycleInterval <= Since(IsLifecycle, batches)
    && (tuning.checkpointInterval > 0 ==> Since(IsCheckpoint, batches) < tuning.checkpointInterval)
  }

  lemma DueNow(tuning: Tuning, before: seq<Batch>, more: seq<Batch>)
    requires 0 < tuning.lifecycleInterval <= Since(IsLifecycle, before)
    ensures Overdue(IsLifecycle, before + more, |before|, tuning.lifecycleInterval)
  {
    OverdueNow(IsLifecycle, before, more);
  }

  lemma RestartKeepsPlan(tuning: Tuning, steps: int, before: seq<Batch>, after: seq<Batch>, kind: Kind)
    requires tuning.Valid() && Plan(tuning, steps, before) && IsDue(tuning, before) && AddsStep(before, after, kind)
    requires kind.RestartMindRoom? || kind.KillRestartMindRoom? || kind.RestartTuwunel?
    ensures Plan(tuning, steps, after)
  {
    StepKeepsPace(tuning, before, after, kind);
    AddedOne(before, after);
    DueNow(tuning, before, [after[|before|]]);
    assert Planned(tuning, steps, after, |before|);
    PlanGrows(tuning, steps, before, after, 1);
  }

  lemma ColdRestartKeepsPlan(tuning: Tuning, steps: int, before: seq<Batch>, mid: seq<Batch>, after: seq<Batch>)
    requires tuning.Valid() && Plan(tuning, steps, before) && IsDue(tuning, before)
    requires AddsStep(before, mid, Checkpoint) && AddsStep(mid, after, ColdRestartMindRoom)
    ensures Plan(tuning, steps, after)
  {
    StepKeepsPace(tuning, before, mid, Checkpoint);
    StepKeepsPace(tuning, mid, after, ColdRestartMindRoom);
    StepsCount(before, mid, Checkpoint);
    AddedOne(before, mid);
    AddedOne(mid, after);
    DueNow(tuning, mid, [after[|mid|]]);
    assert after[|before|] == mid[|before|];
    assert Planned(tuning, steps, after, |before|) && Planned(tuning, steps, after, |before| + 1);
    PlanGrows(tuning, steps, before, after, 2);
  }

  lemma TimesUpTo(a: int, d: int, n: int)
    requires 0 <= a && 0 <= d <= n
    ensures d * a <= a * n
  {
  }

  // The counts at the end of a downtime.
  lemma {:induction false} DowntimeKeepsPace(tuning: Tuning, steps: int, down: seq<Batch>, up: seq<Batch>, d: nat)
    requires tuning.Valid() && Paced(tuning, down) && Since(IsLifecycle, down) == 0
    requires tuning.checkpointInterval > 0 ==> Since(IsCheckpoint, down) < tuning.checkpointInterval
    requires Added(down, up, d) && d <= tuning.downtimeBatches
    requires forall l :: |down| <= l < |up| ==> |up[l]| <= tuning.maxBatchSize && IsWork(up[l])
    ensures Paced(tuning, up) && Since(IsLifecycle, up) <= d * tuning.maxBatchSize
    ensures Since(IsCheckpoint, up) <= Since(IsCheckpoint, down) + d * tuning.maxBatchSize
    decreases d
  {
    if d == 0 {
      assert up == down;
    } else {
      var init := up[..|up| - 1];
      DowntimeKeepsPace(tuning, steps, down, init, d - 1);
      WorkCounts(tuning, init, up);
      TimesUpTo(tuning.maxBatchSize, d, tuning.downtimeBatches);
      assert d * tuning.maxBatchSize == (d - 1) * tuning.maxBatchSize + tuning.maxBatchSize;
      PacedSnoc(tuning, init, up);
    }
  }

  lemma OutageKeepsPlan(
    tuning: Tuning, steps: int, before: seq<Batch>, down: seq<Batch>, up: seq<Batch>, started: seq<Batch>,
    after: seq<Batch>, d: nat)
    requires tuning.Valid() && Plan(tuning, steps, before) && IsDue(tuning, before)
    requires AddsStep(before, down, StopMindRoom) && AddsDowntime(tuning, steps, down, up, d)
    requires AddsStep(up, started, StartMindRoom) && AddsStep(started, after, Checkpoint)
    ensures Plan(tuning, steps, after)
  {
    StepKeepsPace(tuning, before, down, StopMindRoom);
    StepsCount(before, down, StopMindRoom);
    DowntimeKeepsPace(tuning, steps, down, up, d);
    StepKeepsPace(tuning, up, started, StartMindRoom);
    StepKeepsPace(tuning, started, after, Checkpoint);
    OutageIsPlanned(tuning, steps, before, down, up, started, after, d);
    PlanGrows(tuning, steps, before, after, d + 3);
  }

  // The batches of an outage, one by one.
  lemma OutageLooks(
    tuning: Tuning, steps: int, before: seq<Batch>, down: seq<Batch>, up: seq<Batch>, started: seq<Batch>,
    after: seq<Batch>, d: nat)
    requires AddsStep(before, down, StopMindRoom) && AddsDowntime(tuning, steps, down, up, d)
    requires AddsStep(up, started, StartMindRoom) && AddsStep(started, after, Checkpoint)
    ensures Added(before, after, d + 3) && IsStep(after[|before|], StopMindRoom)
    ensures OutageFor(tuning, steps, after, |before|, d)
  {
    var k := |before|;
    assert after == up + [started[|up|], after[|started|]];
    assert up == down + up[|down|..] && down == before + [down[k]];
    assert after[..k + d + 1] == up && after[..k] == before;
  }

  lemma OutageIsPlanned(
    tuning: Tuning, steps: int, before: seq<Batch>, down: seq<Batch>, up: seq<Batch>, started: seq<Batch>,
    after: seq<Batch>, d: nat)
    requires IsDue(tuning, before)
    requires AddsStep(before, down, StopMindRoom) && AddsDowntime(tuning, steps, down, up, d)
    requires AddsStep(up, started, StartMindRoom) && AddsStep(started, after, Checkpoint)
    ensures Added(before, after, d + 3)
    ensures forall k :: |before| <= k < |after| ==> Planned(tuning, steps, after, k)
  {
    OutageLooks(tuning, steps, before, down, up, started, after, d);
    assert after == before + after[|before|..];
    DueNow(tuning, before, after[|before|..]);
    forall k | |before| <= k < |after| ensures Planned(tuning, steps, after, k) {
      PlannedInOutage(tuning, steps, after, |before|, d, k);
    }
  }

  lemma PlannedInOutage(tuning: Tuning, steps: int, after: seq<Batch>, k: nat, d: nat, l: nat)
    requires k < |after| == k + d + 3 && k <= l < |after| && OutageFor(tuning, steps, after, k, d)
    requires IsStep(after[k], StopMindRoom)
    requires tuning.lifecycleInterval > 0 && Overdue(IsLifecycle, after, k, tuning.lifecycleInterval)
    ensures Planned(tuning, steps, after, l)
  {
    if k < l <= k + d {
      assert IsWork(after[l]) && after[l][0] in after[l];
    }
  }

  lemma DisturbanceKeepsPlan(tuning: Tuning, steps: int, before: seq<Batch>, after: seq<Batch>, settled: bool)
    requires tuning.Valid() && Plan(tuning, steps, before) && IsDue(tuning, before)
    requires AddsDisturbance(tuning, steps, before, after, settled)
    ensures Plan(tuning, steps, after) && Since(IsLifecycle, after) == 0
    ensures Since(IsCheckpoint, after) == if settled then 0 else Since(IsCheckpoint, before)
  {
    if !settled {
      var kind := after[|before|][0].kind;
      RestartKeepsPlan(tuning, steps, before, after, kind);
      StepsCount(before, after, kind);
    } else if AddsColdRestart(before, after) {
      var mid :| AddsStep(before, mid, Checkpoint) && AddsStep(mid, after, ColdRestartMindRoom);
      ColdRestartKeepsPlan(tuning, steps, before, mid, after);
      StepsCount(before, mid, Checkpoint);
      StepsCount(mid, after, ColdRestartMindRoom);
    } else {
      var down, up, started, d: nat :|
        && AddsStep(before, down, StopMindRoom) && AddsDowntime(tuning, steps, down, up, d)
        && AddsStep(up, started, StartMindRoom) && AddsStep(started, after, Checkpoint);
      OutageKeepsPlan(tuning, steps, before, down, up, started, after, d);
      StepsCount(up, started, StartMindRoom);
      StepsCount(started, after, Checkpoint);
    }
  }

  // ----- The generator's counters -----

  // Its trace is on plan, and its counters say how long ago the last checkpoint and disturbance are.
  ghost predicate OnSchedule(
    tuning: Tuning, steps: int, batches: seq<Batch>, sinceCheckpoint: int, sinceLifecycle: int)
  {
    && Plan(tuning, steps, batches)
    && sinceCheckpoint == Since(IsCheckpoint, batches) && sinceLifecycle == Since(IsLifecycle, batches)
  }

  lemma ScheduledCheckpoint(
    tuning: Tuning, steps: int, before: seq<Batch>, after: seq<Batch>, sinceCheckpoint: int, sinceLifecycle: int)
    requires tuning.Valid() && OnSchedule(tuning, steps, before, sinceCheckpoint, sinceLifecycle)
    requires AddsStep(before, after, Checkpoint) && 0 < tuning.checkpointInterval <= sinceCheckpoint
    ensures OnSchedule(tuning, steps, after, 0, sinceLifecycle)
  {
    CheckpointKeepsPlan(tuning, steps, before, after);
    StepsCount(before, after, Checkpoint);
  }

  lemma ScheduledWork(
    tuning: Tuning, steps: int, before: seq<Batch>, after: seq<Batch>, sinceCheckpoint: int, sinceLifecycle: int)
    requires tuning.Valid() && OnSchedule(tuning, steps, before, sinceCheckpoint, sinceLifecycle)
    requires AddsWork(tuning, before, after)
    requires tuning.checkpointInterval > 0 ==> sinceCheckpoint < tuning.checkpointInterval
    requires tuning.lifecycleInterval > 0 ==> sinceLifecycle < tuning.lifecycleInterval
    ensures var n := |after[|before|]|;
      OnSchedule(tuning, steps, after, sinceCheckpoint + n, sinceLifecycle + n)
  {
    WorkKeepsPlan(tuning, steps, before, after);
    WorkCounts(tuning, before, after);
  }

  lemma ScheduledDisturbance(
    tuning: Tuning, steps: int, before: seq<Batch>, after: seq<Batch>, sinceCheckpoint: int, sinceLifecycle: int,
    settled: bool)
    requires tuning.Valid() && OnSchedule(tuning, steps, before, sinceCheckpoint, sinceLifecycle)
    requires AddsDisturbance(tuning, steps, before, after, settled)
    requires tuning.checkpointInterval > 0 ==> sinceCheckpoint < tuning.checkpointInterval
    requires 0 < tuning.lifecycleInterval <= sinceLifecycle
    ensures OnSchedule(tuning, steps, after, if settled then 0 else sinceCheckpoint, 0)
  {
    DisturbanceKeepsPlan(tuning, steps, before, after, settled);
  }

  // The batches of a downtime so far.
  ghost predicate Working(tuning: Tuning, before: seq<Batch>, after: seq<Batch>, d: nat) {
    && Added(before, after, d)
    && forall l :: |before| <= l < |after| ==> |after[l]| <= tuning.maxBatchSize && IsWork(after[l])
  }

  lemma WorkingOn(tuning: Tuning, before: seq<Batch>, mid: seq<Batch>, after: seq<Batch>, d: nat)
    requires Working(tuning, before, mid, d) && AddsWork(tuning, mid, after)
    ensures Working(tuning, before, after, d + 1)
  {
    AddedOne(mid, after);
  }
}

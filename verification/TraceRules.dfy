// The rules of an accepted trace, said of its batches alone: no ledger, no verdict of another
// member. The validator's ledger is read back into what happened before a batch.
module TraceRules {

  import opened Options
  import opened Sequences
  import opened Traces
  import opened TraceValidation
  import opened TraceGeneration
  import opened TraceMeaning

  // ----- What happened -----

  predicate Message(op: Operation) {
    op.kind.ThreadMessage? || op.kind.PlainReply?
  }

  predicate Interrupts(op: Operation) {
    op.kind.RestartMindRoom? || op.kind.CrashMindRoom?
  }

  predicate Steers(op: Operation) {
    || op.kind.RestartMindRoom? || op.kind.KillRestartMindRoom? || op.kind.ColdRestartMindRoom?
    || op.kind.RestartTuwunel? || op.kind.StopMindRoom? || op.kind.StartMindRoom? || op.kind.Checkpoint?
  }

  // The operation puts an event of its own into a room.
  predicate Creates(profile: Profile, op: Operation) {
    !op.kind.IdempotentRetry? && if profile.Fuzz? then !Interrupts(op) else !Steers(op)
  }

  predicate Sends(batch: Batch, r: Ref) {
    exists op :: op in batch && Message(op) && r == Op(op.id)
  }

  predicate Checkpoints(batch: Batch) {
    exists op :: op in batch && op.kind.Checkpoint?
  }

  predicate Stops(batch: Batch) {
    exists op :: op in batch && op.kind.StopMindRoom?
  }

  predicate Starts(batch: Batch) {
    exists op :: op in batch && op.kind.StartMindRoom?
  }

  predicate IsRoot(sc: Scenario, r: Ref) {
    r.Root? && 0 <= r.thread < sc.threadCount
  }

  // The event was there before, put by the given client.
  predicate PutBy(sc: Scenario, before: seq<Batch>, r: Ref, client: int)
    requires sc.clientCount > 0
  {
    || (IsRoot(sc, r) && client == r.thread % sc.clientCount)
    || exists i :: 0 <= i < |before| && BatchPuts(sc.profile, before[i], r, client)
  }

  predicate BatchPuts(profile: Profile, batch: Batch, r: Ref, client: int) {
    exists op :: op in batch && Creates(profile, op) && r == Op(op.id) && op.client == client
  }

  ghost predicate Put(sc: Scenario, before: seq<Batch>, r: Ref)
    requires sc.clientCount > 0
  {
    exists client :: PutBy(sc, before, r, client)
  }

  predicate Sent(sc: Scenario, before: seq<Batch>, r: Ref) {
    IsRoot(sc, r) || exists i :: 0 <= i < |before| && Sends(before[i], r)
  }

  // The answer to a message is sure to be there: outside chaos every batch waits for its answers; in
  // chaos only a checkpoint does, and only for messages not redacted by then.
  predicate Answered(sc: Scenario, before: seq<Batch>, r: Ref) {
    || IsRoot(sc, r)
    || exists i :: 0 <= i < |before| && Sends(before[i], r) && (sc.profile.Chaos? ==> Awaited(before, i, r))
  }

  predicate Awaited(before: seq<Batch>, i: int, r: Ref)
    requires 0 <= i < |before|
  {
    exists c :: i < c < |before| && Checkpoints(before[c]) && forall j :: i < j <= c ==> !Redacts(before[j], r)
  }

  // The answer to a message may never come: it was redacted before a checkpoint could wait for it.
  predicate Stopped(sc: Scenario, before: seq<Batch>, r: Ref) {
    sc.profile.Chaos? && exists i :: 0 <= i < |before| && Sends(before[i], r) && CutOff(before, i, r)
  }

  predicate CutOff(before: seq<Batch>, i: int, r: Ref)
    requires 0 <= i < |before|
  {
    exists j :: i < j < |before| && Redacts(before[j], r) && forall c :: i < c < j ==> !Checkpoints(before[c])
  }

  // MindRoom was stopped and not started since.
  predicate Down(before: seq<Batch>) {
    exists k :: 0 <= k < |before| && Stops(before[k]) && forall l :: k < l < |before| ==> !Starts(before[l])
  }

  predicate UsedId(before: seq<Batch>, id: int) {
    exists i :: 0 <= i < |before| && HasId(before[i], id)
  }

  predicate HasId(batch: Batch, id: int) {
    exists op :: op in batch && op.id == id
  }

  // ----- The rules of one batch -----

  // Something a client can refer to: an event, or the response to a message.
  ghost predicate Targetable(sc: Scenario, before: seq<Batch>, r: Ref)
    requires sc.clientCount > 0
  {
    Put(sc, before, r) || (r.Response? && Sent(sc, before, r.source))
  }

  predicate NewIds(before: seq<Batch>, batch: Batch) {
    && (forall op :: op in batch ==> !UsedId(before, op.id))
    && (forall i, j :: 0 <= i < j < |batch| ==> batch[i].id != batch[j].id)
  }

  // No two messages of the batch await an answer in one thread, or in chaos not from one client.
  predicate RepliesApart(profile: Profile, batch: Batch) {
    forall i, j :: 0 <= i < j < |batch| && Message(batch[i]) && Message(batch[j]) ==>
      batch[i].thread != batch[j].thread || (profile.Chaos? && batch[i].client != batch[j].client)
  }

  ghost predicate FuzzRules(sc: Scenario, before: seq<Batch>, batch: Batch)
    requires sc.clientCount > 0
  {
    && (forall i :: 0 <= i < |batch| && Interrupts(batch[i]) ==>
          i == |batch| - 1 && exists op :: op in batch && Message(op))
    && (forall op :: op in batch ==> FuzzOpRules(sc, before, op))
  }

  ghost predicate FuzzOpRules(sc: Scenario, before: seq<Batch>, op: Operation)
    requires sc.clientCount > 0
  {
    && 0 <= op.thread < sc.threadCount
    && (Steers(op) ==> op.kind.RestartMindRoom?)
    && if Interrupts(op) then op.target.None?
       else
         && op.target.Some? && Targetable(sc, before, op.target.value)
         && (op.kind.IdempotentRetry? ==> Sent(sc, before, op.target.value))
  }

  ghost predicate TargetRules(sc: Scenario, before: seq<Batch>, op: Operation, r: Ref)
    requires sc.clientCount > 0
  {
    && Targetable(sc, before, r)
    && (op.kind.IdempotentRetry? ==> Sent(sc, before, r))
    && (r.Response? ==> !Stopped(sc, before, r.source) && (Down(before) ==> Answered(sc, before, r.source)))
    && (sc.profile.Chaos? && (op.kind.Edit? || op.kind.Redaction? || op.kind.IdempotentRetry?) ==>
          PutBy(sc, before, r, op.client))
  }

  // One operation redacts a message, the other refers to the response to it.
  predicate Races(sc: Scenario, before: seq<Batch>, op: Operation, other: Operation) {
    && op.kind.Redaction? && op.target.Some? && Sent(sc, before, op.target.value)
    && other.target == Some(Response(op.target.value))
  }

  predicate TargetsApart(sc: Scenario, before: seq<Batch>, batch: Batch) {
    && (forall i, j :: 0 <= i < j < |batch| && batch[i].kind.Edit? && batch[j].kind.Edit? ==>
          batch[i].target != batch[j].target)
    && (forall i, j :: 0 <= i < j < |batch| && batch[i].kind.Redaction? && batch[j].kind.Redaction? ==>
          batch[i].target != batch[j].target)
    && (forall op, other :: op in batch && other in batch ==> Races(sc, before, op, other) ==>
          Answered(sc, before, op.target.value))
  }

  ghost predicate MutationRule(sc: Scenario, before: seq<Batch>, op: Operation)
    requires sc.clientCount > 0
  {
    && 0 <= op.thread < sc.threadCount && 0 <= op.client < sc.clientCount
    && op.target.Some? && TargetRules(sc, before, op, op.target.value)
  }

  ghost predicate MutationRules(sc: Scenario, before: seq<Batch>, batch: Batch)
    requires sc.clientCount > 0
  {
    && TargetsApart(sc, before, batch)
    && (forall op :: op in batch ==> MutationRule(sc, before, op))
  }

  // Every message of the batches was checkpointed or redacted since.
  ghost predicate NothingPending(before: seq<Batch>) {
    forall i, r :: 0 <= i < |before| && Sends(before[i], r) ==>
      exists l :: i < l < |before| && (Checkpoints(before[l]) || Redacts(before[l], r))
  }

  ghost predicate LifecycleRules(sc: Scenario, before: seq<Batch>, op: Operation) {
    && sc.profile.Chaos? && op.target.None?
    && 0 <= op.thread < sc.threadCount && 0 <= op.client < sc.clientCount
    && (op.kind.StartMindRoom? <==> Down(before))
    && (op.kind.ColdRestartMindRoom? ==> NothingPending(before))
  }

  ghost predicate BatchRules(sc: Scenario, before: seq<Batch>, batch: Batch)
    requires sc.clientCount > 0
  {
    && batch != [] && NewIds(before, batch) && RepliesApart(sc.profile, batch)
    && if sc.profile.Fuzz? then FuzzRules(sc, before, batch)
       else if exists op :: op in batch && Steers(op) then |batch| == 1 && LifecycleRules(sc, before, batch[0])
       else MutationRules(sc, before, batch)
  }

  // ----- Reading the ledger -----

  predicate Traced(profile: Profile) {
    profile.Fuzz? || profile.Chaos? || profile.Saturation? || profile.ShortStreamCorrectness?
  }

  ghost predicate EventsRead(sc: Scenario, before: seq<Batch>, s: Ledger)
    requires sc.clientCount > 0
  {
    && (forall r :: r in s.knownEvents <==> r in s.authors)
    && (forall r, c :: r in s.authors && s.authors[r] == c <==> PutBy(sc, before, r, c))
  }

  ghost predicate MessagesRead(sc: Scenario, before: seq<Batch>, s: Ledger) {
    && (forall r :: r in s.messageEvents <==> Sent(sc, before, r))
    && s.knownResponses == ResponsesTo(s.messageEvents)
  }

  ghost predicate IdsRead(before: seq<Batch>, s: Ledger) {
    forall id :: id in s.ids <==> UsedId(before, id)
  }

  ghost predicate AnswersRead(sc: Scenario, before: seq<Batch>, s: Ledger) {
    && (forall r :: r in s.settled <==> r.Response? && Answered(sc, before, r.source))
    && (forall r :: r in s.unusable <==> r.Response? && Stopped(sc, before, r.source))
  }

  ghost predicate RunningRead(sc: Scenario, before: seq<Batch>, s: Ledger) {
    && (s.running <==> !Down(before))
    && (!sc.profile.Chaos? ==> forall i :: 0 <= i < |before| ==> !Stops(before[i]))
  }

  // A message is sent once.
  ghost predicate SentOnce(before: seq<Batch>) {
    forall i, j, r :: 0 <= i < |before| && 0 <= j < |before| && Sends(before[i], r) && Sends(before[j], r) ==> i == j
  }

  ghost predicate Reads(sc: Scenario, before: seq<Batch>, s: Ledger)
    requires sc.clientCount > 0
  {
    && EventsRead(sc, before, s) && MessagesRead(sc, before, s) && IdsRead(before, s)
    && AnswersRead(sc, before, s) && RunningRead(sc, before, s) && SentOnce(before)
  }

  // ----- The rules are what the ledger decides -----

  lemma TargetableMeans(sc: Scenario, before: seq<Batch>, s: Ledger, r: Ref)
    requires sc.clientCount > 0 && EventsRead(sc, before, s) && MessagesRead(sc, before, s)
    ensures r in s.knownEvents || r in s.knownResponses <==> Targetable(sc, before, r)
    ensures r in s.knownResponses <==> r.Response? && Sent(sc, before, r.source)
  {
    if r in s.knownEvents {
      assert PutBy(sc, before, r, s.authors[r]);
    }
  }

  lemma FuzzOpMeans(sc: Scenario, before: seq<Batch>, op: Operation, s: Ledger)
    requires sc.clientCount > 0 && EventsRead(sc, before, s) && MessagesRead(sc, before, s)
    ensures FuzzOpOk(sc, op, s) && (op.kind.IsLifecycle() ==> op.kind.IsInterruption()) <==> FuzzOpRules(sc, before, op)
  {
    if op.target.Some? {
      TargetableMeans(sc, before, s, op.target.value);
    }
  }

  lemma FuzzMeans(sc: Scenario, before: seq<Batch>, batch: Batch, s: Ledger)
    requires sc.clientCount > 0 && sc.profile.Fuzz? && Reads(sc, before, s)
    ensures FuzzBatchOk(sc, batch, s) <==>
      NewIds(before, batch) && RepliesApart(sc.profile, batch) && FuzzRules(sc, before, batch)
  {
    forall op | op in batch
      ensures FuzzOpOk(sc, op, s) && (op.kind.IsLifecycle() ==> op.kind.IsInterruption())
        <==> FuzzOpRules(sc, before, op)
    {
      FuzzOpMeans(sc, before, op, s);
    }
    NewIdsMean(before, batch, s);
    PlacementMeans(batch);
  }

  lemma NewIdsMean(before: seq<Batch>, batch: Batch, s: Ledger)
    requires IdsRead(before, s)
    ensures FreshIds(batch, s.ids) <==> NewIds(before, batch)
  {
    if FreshIds(batch, s.ids) {
      forall op | op in batch ensures !UsedId(before, op.id) {
        var i :| 0 <= i < |batch| && batch[i] == op;
      }
    }
  }

  lemma PlacementMeans(batch: Batch)
    ensures InterruptionPlacement(batch) <==>
      forall i :: 0 <= i < |batch| && Interrupts(batch[i]) ==>
        i == |batch| - 1 && exists op :: op in batch && Message(op)
  {
    if exists op :: op in batch && Message(op) {
      var op :| op in batch && Message(op);
      assert op.kind.IsMessage();
    }
    if exists op :: op in batch && op.kind.IsMessage() {
      var op :| op in batch && op.kind.IsMessage();
      assert Message(op);
    }
    if InterruptionPlacement(batch) {
      forall i | 0 <= i < |batch| && Interrupts(batch[i])
        ensures i == |batch| - 1 && exists op :: op in batch && Message(op)
      {
        assert batch[i] in batch && batch[i].kind.IsInterruption();
      }
    }
  }

  lemma TargetMeans(sc: Scenario, before: seq<Batch>, op: Operation, s: Ledger)
    requires sc.clientCount > 0 && Reads(sc, before, s)
    ensures MutationOk(sc, op, s) <==> MutationRule(sc, before, op)
  {
    if op.target.Some? {
      TargetableMeans(sc, before, s, op.target.value);
    }
  }

  lemma RacesMean(sc: Scenario, before: seq<Batch>, batch: Batch, s: Ledger)
    requires MessagesRead(sc, before, s) && AnswersRead(sc, before, s)
    ensures NoRedactionRace(batch, s) <==>
      forall op, other :: op in batch && other in batch ==> Races(sc, before, op, other) ==>
        Answered(sc, before, op.target.value)
  {
    if NoRedactionRace(batch, s) {
      forall op, other | op in batch && other in batch && Races(sc, before, op, other)
        ensures Answered(sc, before, op.target.value)
      {
        var i :| 0 <= i < |batch| && batch[i] == op;
        var j :| 0 <= j < |batch| && batch[j] == other;
      }
    } else {
      var i, j :| 0 <= i < |batch| && 0 <= j < |batch| && batch[i].kind.Redaction? && batch[i].target.Some?
        && batch[i].target.value in s.messageEvents && batch[j].target == Some(Response(batch[i].target.value))
        && Response(batch[i].target.value) !in s.settled;
      assert Races(sc, before, batch[i], batch[j]);
    }
  }

  lemma MutationMeans(sc: Scenario, before: seq<Batch>, batch: Batch, s: Ledger)
    requires sc.clientCount > 0 && Reads(sc, before, s)
    ensures MutationBatchOk(sc, batch, s) <==>
      NewIds(before, batch) && RepliesApart(sc.profile, batch) && MutationRules(sc, before, batch)
  {
    NewIdsMean(before, batch, s);
    RacesMean(sc, before, batch, s);
    forall op | op in batch ensures MutationOk(sc, op, s) <==> MutationRule(sc, before, op) {
      TargetMeans(sc, before, op, s);
    }
  }

  // ----- Answers over time -----

  // A response is awaited or cut off, never both, once a checkpoint or a redaction follows its message.
  lemma {:induction false} FirstOfBoth(before: seq<Batch>, i: int, r: Ref, l: int)
    requires 0 <= i < l < |before| && (Checkpoints(before[l]) || Redacts(before[l], r))
    ensures Awaited(before, i, r) || CutOff(before, i, r)
    decreases l
  {
    if k :| i < k < l && (Checkpoints(before[k]) || Redacts(before[k], r)) {
      FirstOfBoth(before, i, r, k);
    }
  }

  lemma NeverBoth(before: seq<Batch>, i: int, r: Ref)
    requires 0 <= i < |before|
    ensures !(Awaited(before, i, r) && CutOff(before, i, r))
  {
  }

  // The rest of one message: what is not cut off is awaited, unless no batch after it said anything.
  lemma Pending(sc: Scenario, before: seq<Batch>, i: int, r: Ref)
    requires sc.profile.Chaos? && SentOnce(before) && 0 <= i < |before| && Sends(before[i], r)
    ensures Answered(sc, before, r) <==> Awaited(before, i, r)
    ensures Stopped(sc, before, r) <==> CutOff(before, i, r)
    ensures Answered(sc, before, r) || Stopped(sc, before, r) <==>
      exists l :: i < l < |before| && (Checkpoints(before[l]) || Redacts(before[l], r))
  {
    assert r.Op?;
    if l :| i < l < |before| && (Checkpoints(before[l]) || Redacts(before[l], r)) {
      FirstOfBoth(before, i, r, l);
    }
  }

  // A cold restart finds every response settled exactly when nothing is pending.
  lemma ColdRestartMeans(sc: Scenario, before: seq<Batch>, s: Ledger)
    requires sc.clientCount > 0 && sc.profile.Chaos? && Reads(sc, before, s)
    ensures s.settled == SettledWhenQuiet(s) <==> NothingPending(before)
  {
    forall i, r | 0 <= i < |before| && Sends(before[i], r)
      ensures Answered(sc, before, r) || Stopped(sc, before, r) <==>
        exists l :: i < l < |before| && (Checkpoints(before[l]) || Redacts(before[l], r))
      ensures !(Answered(sc, before, r) && Stopped(sc, before, r))
    {
      Pending(sc, before, i, r);
      NeverBoth(before, i, r);
    }
    if s.settled == SettledWhenQuiet(s) {
      forall i, r | 0 <= i < |before| && Sends(before[i], r)
        ensures exists l :: i < l < |before| && (Checkpoints(before[l]) || Redacts(before[l], r))
      {
        assert r in s.messageEvents && (Response(r) in s.settled || Response(r) in s.unusable);
      }
    } else if NothingPending(before) {
      forall x ensures x in s.settled <==> x in SettledWhenQuiet(s) {
        if x.Response? && x.source !in Roots(sc.threadCount) && Sent(sc, before, x.source) {
          var i :| 0 <= i < |before| && Sends(before[i], x.source);
        }
      }
      assert false;
    }
  }

  lemma LifecycleMeans(sc: Scenario, before: seq<Batch>, op: Operation, s: Ledger)
    requires sc.clientCount > 0 && Traced(sc.profile) && !sc.profile.Fuzz? && Reads(sc, before, s) && Steers(op)
    ensures LifecycleOk(sc, op, s) <==> NewIds(before, [op]) && LifecycleRules(sc, before, op)
  {
    if sc.profile.Chaos? {
      ColdRestartMeans(sc, before, s);
    }
    assert op in [op];
  }

  lemma RulesMean(sc: Scenario, before: seq<Batch>, batch: Batch, s: Ledger)
    requires sc.clientCount > 0 && Traced(sc.profile) && Reads(sc, before, s)
    ensures BatchOk(sc, batch, s) <==> BatchRules(sc, before, batch)
  {
    forall op ensures Steers(op) <==> op.kind.IsLifecycle() {
    }
    if batch == [] {
    } else if sc.profile.Fuzz? {
      FuzzMeans(sc, before, batch, s);
    } else if exists op :: op in batch && Steers(op) {
      if |batch| == 1 {
        assert batch == [batch[0]];
        LifecycleMeans(sc, before, batch[0], s);
      }
    } else {
      MutationMeans(sc, before, batch, s);
    }
  }

  // ----- What a batch adds -----

  lemma {:induction false} SendsSnoc(init: Batch, last: Operation, r: Ref)
    ensures Sends(init + [last], r) <==> Sends(init, r) || (Message(last) && r == Op(last.id))
    ensures Redacts(init + [last], r) <==> Redacts(init, r) || (last.kind.Redaction? && last.target == Some(r))
  {
    forall op ensures op in init + [last] <==> op in init || op == last {
    }
  }

  lemma {:induction false} MessagesRegister(s: Ledger, ops: Batch, r: Ref)
    ensures r in RegisterOps(s, ops).messageEvents <==> r in s.messageEvents || Sends(ops, r)
  {
    if ops != [] {
      var init, last := ops[..|ops| - 1], ops[|ops| - 1];
      MessagesRegister(s, init, r);
      SendsSnoc(init, last, r);
      assert ops == init + [last];
    }
  }

  lemma {:induction false} RedactionsRegister(s: Ledger, ops: Batch, r: Ref)
    ensures Response(r) in RedactOps(s, ops).unusable <==>
      || Response(r) in s.unusable
      || (Redacts(ops, r) && Response(r) in s.knownResponses && Response(r) !in s.settled)
  {
    if ops != [] {
      var init, last := ops[..|ops| - 1], ops[|ops| - 1];
      RedactionsRegister(s, init, r);
      RedactOpsFrame(s, init);
      SendsSnoc(init, last, r);
      assert ops == init + [last];
    }
  }

  predicate OpPuts(ops: Batch, r: Ref, client: int) {
    exists op :: op in ops && !op.kind.IdempotentRetry? && r == Op(op.id) && op.client == client
  }

  ghost predicate OneOpPerId(ops: Batch) {
    forall a, b :: a in ops && b in ops && a.id == b.id ==> a == b
  }

  lemma {:induction false} EventsRegister(s: Ledger, ops: Batch, r: Ref)
    requires OneOpPerId(ops) && forall r :: r in s.knownEvents <==> r in s.authors
    ensures var s' := RegisterOps(s, ops);
      && (r in s'.knownEvents <==> r in s'.authors)
      && (forall c :: OpPuts(ops, r, c) ==> r in s'.authors && s'.authors[r] == c)
      && ((forall c :: !OpPuts(ops, r, c)) ==>
            (r in s'.authors <==> r in s.authors) && (r in s.authors ==> s'.authors[r] == s.authors[r]))
  {
    if ops != [] {
      var init, last := ops[..|ops| - 1], ops[|ops| - 1];
      assert ops == init + [last];
      EventsRegister(s, init, r);
      assert forall c :: OpPuts(init, r, c) ==> OpPuts(ops, r, c);
      if !last.kind.IdempotentRetry? && r == Op(last.id) {
        assert OpPuts(ops, r, last.client);
        assert forall c :: OpPuts(ops, r, c) ==> c == last.client;
      } else {
        assert forall c :: OpPuts(ops, r, c) ==> OpPuts(init, r, c);
      }
    }
  }

  // The operations a batch adds to the ledger are all but the interruptions and the lifecycle step.
  lemma RegisteredOps(sc: Scenario, before: seq<Batch>, batch: Batch)
    requires sc.clientCount > 0 && Traced(sc.profile) && BatchRules(sc, before, batch)
    ensures forall op :: op in Registered(sc.profile, batch) <==>
      op in batch && if sc.profile.Fuzz? then !Interrupts(op) else !Steers(op)
  {
    WithoutInterruptionsSubset(batch);
    NoInterruptionsLeft(batch);
    forall op ensures Steers(op) <==> op.kind.IsLifecycle() {
    }
    assert HasLifecycle(batch) <==> exists op :: op in batch && Steers(op);
    if !sc.profile.Fuzz? && HasLifecycle(batch) {
      assert batch == [batch[0]];
    }
  }

  lemma {:induction false} NoInterruptionsLeft(batch: Batch)
    ensures forall op :: op in WithoutInterruptions(batch) ==> !Interrupts(op)
  {
    if batch != [] {
      NoInterruptionsLeft(batch[..|batch| - 1]);
    }
  }

  lemma RegisteredSay(sc: Scenario, before: seq<Batch>, batch: Batch, r: Ref)
    requires sc.clientCount > 0 && Traced(sc.profile) && BatchRules(sc, before, batch)
    ensures var ops := Registered(sc.profile, batch);
      && (Sends(ops, r) <==> Sends(batch, r)) && (Redacts(ops, r) <==> Redacts(batch, r))
      && (forall c :: OpPuts(ops, r, c) <==> BatchPuts(sc.profile, batch, r, c))
  {
    RegisteredOps(sc, before, batch);
  }

  lemma RegisteredOnce(sc: Scenario, before: seq<Batch>, batch: Batch)
    requires sc.clientCount > 0 && Traced(sc.profile) && BatchRules(sc, before, batch)
    ensures OneOpPerId(Registered(sc.profile, batch))
  {
    RegisteredOps(sc, before, batch);
  }

  lemma WhatWasSaid(sc: Scenario, before: seq<Batch>, batch: Batch, r: Ref)
    requires sc.clientCount > 0
    ensures Sent(sc, before + [batch], r) <==> Sent(sc, before, r) || Sends(batch, r)
    ensures forall c ::
      PutBy(sc, before + [batch], r, c) <==> PutBy(sc, before, r, c) || BatchPuts(sc.profile, batch, r, c)
  {
    var all := before + [batch];
    assert all[|before|] == batch && forall i :: 0 <= i < |before| ==> all[i] == before[i];
  }

  lemma WhoWasUp(before: seq<Batch>, batch: Batch)
    requires !(Stops(batch) && Starts(batch))
    ensures Down(before + [batch]) <==> Stops(batch) || (Down(before) && !Starts(batch))
    ensures forall id :: UsedId(before + [batch], id) <==> UsedId(before, id) || HasId(batch, id)
  {
    var all := before + [batch];
    assert all[|before|] == batch && forall i :: 0 <= i < |before| ==> all[i] == before[i];
  }

  // How one more batch of a chaos trace decides answers.
  lemma WhatWasAnswered(sc: Scenario, before: seq<Batch>, batch: Batch, r: Ref)
    requires sc.profile.Chaos? && SentOnce(before + [batch])
    ensures Answered(sc, before + [batch], r) <==>
      || Answered(sc, before, r)
      || (Checkpoints(batch) && !Redacts(batch, r) && Sent(sc, before, r) && !Stopped(sc, before, r))
    ensures Stopped(sc, before + [batch], r) <==>
      Stopped(sc, before, r) || (Redacts(batch, r) && Sent(sc, before, r) && !Answered(sc, before, r))
  {
    var all := before + [batch];
    assert all[|before|] == batch && forall i :: 0 <= i < |before| ==> all[i] == before[i];
    assert SentOnce(before);
    if i :| 0 <= i < |before| && Sends(before[i], r) {
      Pending(sc, before, i, r);
      Pending(sc, all, i, r);
      NeverBoth(before, i, r);
    }
  }

  // ----- The ledger after one more batch -----

  // A lifecycle step stands alone, and only chaos traces have any but fuzz restarts.
  lemma Alone(sc: Scenario, before: seq<Batch>, batch: Batch)
    requires sc.clientCount > 0 && Traced(sc.profile) && BatchRules(sc, before, batch)
    ensures !(Stops(batch) && Starts(batch))
    ensures Checkpoints(batch) ==> !sc.profile.Fuzz? && batch == [batch[0]] && batch[0].kind.Checkpoint?
    ensures Stops(batch) ==> !sc.profile.Fuzz? && batch == [batch[0]] && batch[0].kind.StopMindRoom?
    ensures Starts(batch) ==> !sc.profile.Fuzz? && batch == [batch[0]] && batch[0].kind.StartMindRoom?
    ensures (Checkpoints(batch) || Stops(batch) || Starts(batch)) ==> sc.profile.Chaos?
  {
    forall op | op in batch && (op.kind.Checkpoint? || op.kind.StopMindRoom? || op.kind.StartMindRoom?)
      ensures !sc.profile.Fuzz? && batch == [op] && sc.profile.Chaos?
    {
      assert Steers(op);
    }
  }

  lemma Applied(sc: Scenario, before: seq<Batch>, batch: Batch, s: Ledger)
    requires sc.clientCount > 0 && Traced(sc.profile) && BatchRules(sc, before, batch) && BatchOk(sc, batch, s)
    ensures var s', ops := ApplyBatch(sc, batch, s), Registered(sc.profile, batch);
      && s'.authors == RegisterOps(s, ops).authors
      && s'.unusable == RedactOps(RegisterOps(s, ops), ops).unusable
  {
    var ops := Registered(sc.profile, batch);
    RegisterOpsFrame(s, ops);
    RedactOpsFrame(RegisterOps(s, ops), ops);
  }

  lemma Settles(sc: Scenario, before: seq<Batch>, batch: Batch, s: Ledger)
    requires sc.clientCount > 0 && Traced(sc.profile) && BatchRules(sc, before, batch) && BatchOk(sc, batch, s)
    ensures var s' := ApplyBatch(sc, batch, s);
      s'.settled == if !sc.profile.Chaos? || Checkpoints(batch) then SettledWhenQuiet(s') else s.settled
  {
    var ops := Registered(sc.profile, batch);
    RegisterOpsFrame(s, ops);
    RedactOpsFrame(RegisterOps(s, ops), ops);
    LifecycleIsOne(sc, before, batch);
  }

  lemma Runs(sc: Scenario, before: seq<Batch>, batch: Batch, s: Ledger)
    requires sc.clientCount > 0 && Traced(sc.profile) && BatchRules(sc, before, batch) && BatchOk(sc, batch, s)
    ensures ApplyBatch(sc, batch, s).running
      == if Stops(batch) then false else if Starts(batch) then true else s.running
  {
    var ops := Registered(sc.profile, batch);
    RegisterOpsFrame(s, ops);
    RedactOpsFrame(RegisterOps(s, ops), ops);
    LifecycleIsOne(sc, before, batch);
  }

  lemma LifecycleIsOne(sc: Scenario, before: seq<Batch>, batch: Batch)
    requires sc.clientCount > 0 && Traced(sc.profile) && BatchRules(sc, before, batch)
    ensures !sc.profile.Fuzz? && HasLifecycle(batch) ==>
      && |batch| == 1 && sc.profile.Chaos?
      && (Checkpoints(batch) <==> batch[0].kind.Checkpoint?)
      && (Stops(batch) <==> batch[0].kind.StopMindRoom?) && (Starts(batch) <==> batch[0].kind.StartMindRoom?)
    ensures sc.profile.Fuzz? || !HasLifecycle(batch) ==> !Checkpoints(batch) && !Stops(batch) && !Starts(batch)
  {
    Alone(sc, before, batch);
    if !sc.profile.Fuzz? && HasLifecycle(batch) {
      assert exists op :: op in batch && Steers(op);
      assert batch == [batch[0]] && batch[0] in batch;
    } else if !sc.profile.Fuzz? {
      forall op | op in batch ensures !Steers(op) {
        assert !op.kind.IsLifecycle();
      }
    }
  }

  lemma EventsStep(sc: Scenario, before: seq<Batch>, batch: Batch, s: Ledger)
    requires sc.clientCount > 0 && Traced(sc.profile) && Reads(sc, before, s)
    requires BatchRules(sc, before, batch) && BatchOk(sc, batch, s)
    ensures EventsRead(sc, before + [batch], ApplyBatch(sc, batch, s))
  {
    var s', ops := ApplyBatch(sc, batch, s), Registered(sc.profile, batch);
    AcceptedStep(sc, batch, s);
    Applied(sc, before, batch, s);
    RegisteredOnce(sc, before, batch);
    forall r
      ensures r in s'.knownEvents <==> r in s'.authors
      ensures forall c :: r in s'.authors && s'.authors[r] == c <==> PutBy(sc, before + [batch], r, c)
    {
      EventsRegister(s, ops, r);
      RegisteredSay(sc, before, batch, r);
      WhatWasSaid(sc, before, batch, r);
      PutsAreNew(sc, before, batch, r);
    }
  }

  // A batch puts nothing that was there before.
  lemma PutsAreNew(sc: Scenario, before: seq<Batch>, batch: Batch, r: Ref)
    requires sc.clientCount > 0 && NewIds(before, batch)
    ensures forall c, c' :: BatchPuts(sc.profile, batch, r, c) ==> !PutBy(sc, before, r, c')
    ensures Sends(batch, r) ==> forall c' :: !PutBy(sc, before, r, c')
    ensures Sends(batch, r) ==> !Sent(sc, before, r)
  {
    if r.Op? && HasId(batch, r.id) {
      assert !UsedId(before, r.id);
      forall i | 0 <= i < |before| ensures !HasId(before[i], r.id) {
      }
    }
  }

  lemma MessagesStep(sc: Scenario, before: seq<Batch>, batch: Batch, s: Ledger)
    requires sc.clientCount > 0 && Traced(sc.profile) && Reads(sc, before, s)
    requires BatchRules(sc, before, batch) && BatchOk(sc, batch, s)
    ensures MessagesRead(sc, before + [batch], ApplyBatch(sc, batch, s))
  {
    var s', ops := ApplyBatch(sc, batch, s), Registered(sc.profile, batch);
    AcceptedStep(sc, batch, s);
    RegisteredResponses(s, ops);
    forall r ensures r in s'.messageEvents <==> Sent(sc, before + [batch], r) {
      MessagesRegister(s, ops, r);
      RegisteredSay(sc, before, batch, r);
      WhatWasSaid(sc, before, batch, r);
    }
  }

  lemma IdsStep(sc: Scenario, before: seq<Batch>, batch: Batch, s: Ledger)
    requires sc.clientCount > 0 && Traced(sc.profile) && Reads(sc, before, s)
    requires BatchRules(sc, before, batch) && BatchOk(sc, batch, s)
    ensures IdsRead(before + [batch], ApplyBatch(sc, batch, s))
  {
    AcceptedStep(sc, batch, s);
    Alone(sc, before, batch);
    WhoWasUp(before, batch);
    forall id ensures id in IdsOf(batch) <==> HasId(batch, id) {
    }
  }

  lemma RunningStep(sc: Scenario, before: seq<Batch>, batch: Batch, s: Ledger)
    requires sc.clientCount > 0 && Traced(sc.profile) && Reads(sc, before, s)
    requires BatchRules(sc, before, batch) && BatchOk(sc, batch, s)
    ensures RunningRead(sc, before + [batch], ApplyBatch(sc, batch, s))
  {
    var all := before + [batch];
    Runs(sc, before, batch, s);
    Alone(sc, before, batch);
    WhoWasUp(before, batch);
    assert all[|before|] == batch && forall i :: 0 <= i < |before| ==> all[i] == before[i];
  }

  lemma SendsOnce(sc: Scenario, before: seq<Batch>, batch: Batch)
    requires sc.clientCount > 0 && NewIds(before, batch) && SentOnce(before)
    ensures SentOnce(before + [batch])
  {
    var all := before + [batch];
    assert all[|before|] == batch && forall i :: 0 <= i < |before| ==> all[i] == before[i];
    forall i, j, r | 0 <= i <= j < |all| && Sends(all[i], r) && Sends(all[j], r) ensures i == j {
      PutsAreNew(sc, before, batch, r);
    }
  }

  // What a batch redacts was there before it.
  lemma RedactedIsOld(sc: Scenario, before: seq<Batch>, batch: Batch, r: Ref)
    requires sc.clientCount > 0 && Traced(sc.profile) && BatchRules(sc, before, batch) && Redacts(batch, r)
    ensures !Sends(batch, r) && !Checkpoints(batch)
  {
    var op :| op in batch && op.kind.Redaction? && op.target == Some(r);
    Alone(sc, before, batch);
    PutsAreNew(sc, before, batch, r);
    assert Targetable(sc, before, r);
  }

  lemma AnswersStep(sc: Scenario, before: seq<Batch>, batch: Batch, s: Ledger)
    requires sc.clientCount > 0 && Traced(sc.profile) && Reads(sc, before, s)
    requires BatchRules(sc, before, batch) && BatchOk(sc, batch, s)
    requires SentOnce(before + [batch]) && MessagesRead(sc, before + [batch], ApplyBatch(sc, batch, s))
    ensures AnswersRead(sc, before + [batch], ApplyBatch(sc, batch, s))
  {
    var all, s', ops := before + [batch], ApplyBatch(sc, batch, s), Registered(sc.profile, batch);
    AcceptedStep(sc, batch, s);
    Applied(sc, before, batch, s);
    Settles(sc, before, batch, s);
    RegisterOpsFrame(s, ops);
    forall x
      ensures x in s'.unusable <==> x.Response? && Stopped(sc, all, x.source)
      ensures x in s'.settled <==> x.Response? && Answered(sc, all, x.source)
    {
      if x.Response? {
        AnswerStep(sc, before, batch, s, x.source);
      } else {
        RedactOpsFrame(RegisterOps(s, ops), ops);
      }
    }
  }

  lemma AnswerStep(sc: Scenario, before: seq<Batch>, batch: Batch, s: Ledger, r: Ref)
    requires sc.clientCount > 0 && Traced(sc.profile) && Reads(sc, before, s)
    requires BatchRules(sc, before, batch) && BatchOk(sc, batch, s)
    requires SentOnce(before + [batch]) && MessagesRead(sc, before + [batch], ApplyBatch(sc, batch, s))
    ensures var s' := ApplyBatch(sc, batch, s);
      && (Response(r) in s'.unusable <==> Stopped(sc, before + [batch], r))
      && (Response(r) in s'.settled <==> Answered(sc, before + [batch], r))
  {
    var s', ops := ApplyBatch(sc, batch, s), Registered(sc.profile, batch);
    AcceptedStep(sc, batch, s);
    Applied(sc, before, batch, s);
    Settles(sc, before, batch, s);
    RegisterOpsFrame(s, ops);
    RedactionsRegister(RegisterOps(s, ops), ops, r);
    RegisteredSay(sc, before, batch, r);
    WhatWasSaid(sc, before, batch, r);
    if Redacts(batch, r) {
      RedactedIsOld(sc, before, batch, r);
    }
    if sc.profile.Chaos? {
      WhatWasAnswered(sc, before, batch, r);
    }
  }

  // Batch by batch, the validator accepts exactly the traces that keep the rules, and its ledger
  // holds what happened.
  ghost predicate KeepsRules(sc: Scenario, batches: seq<Batch>)
    requires sc.clientCount > 0
  {
    forall k :: 0 <= k < |batches| ==> BatchRules(sc, batches[..k], batches[k])
  }

  lemma KeepsRulesSnoc(sc: Scenario, init: seq<Batch>, batch: Batch)
    requires sc.clientCount > 0
    ensures KeepsRules(sc, init + [batch]) <==> KeepsRules(sc, init) && BatchRules(sc, init, batch)
  {
    var all := init + [batch];
    assert all[..|init|] == init && all[|init|] == batch;
    forall k | 0 <= k < |init| ensures all[..k] == init[..k] && all[k] == init[k] {
    }
  }

  lemma ReadsStep(sc: Scenario, before: seq<Batch>, batch: Batch, s: Ledger)
    requires sc.clientCount > 0 && Traced(sc.profile) && Reads(sc, before, s) && BatchOk(sc, batch, s)
    ensures Reads(sc, before + [batch], ApplyBatch(sc, batch, s))
  {
    RulesMean(sc, before, batch, s);
    EventsStep(sc, before, batch, s);
    MessagesStep(sc, before, batch, s);
    IdsStep(sc, before, batch, s);
    RunningStep(sc, before, batch, s);
    SendsOnce(sc, before, batch);
    AnswersStep(sc, before, batch, s);
  }

  lemma {:induction false} KeepingIff(sc: Scenario, batches: seq<Batch>)
    requires sc.clientCount > 0 && Traced(sc.profile)
    ensures BatchesOk(sc, batches) <==> KeepsRules(sc, batches)
    ensures BatchesOk(sc, batches) ==> Reads(sc, batches, LedgerAfter(sc, batches))
  {
    if batches != [] {
      var init, batch := batches[..|batches| - 1], batches[|batches| - 1];
      assert batches == init + [batch];
      KeepingIff(sc, init);
      KeepsRulesSnoc(sc, init, batch);
      if BatchesOk(sc, init) {
        RulesMean(sc, init, batch, LedgerAfter(sc, init));
        if BatchesOk(sc, batches) {
          ReadsStep(sc, init, batch, LedgerAfter(sc, init));
        }
      }
    }
  }

  // ----- Cleanup probes -----

  // The source belongs to the thread: the root, a message sent there, or an edit of such a source.
  ghost predicate InThread(sc: Scenario, before: seq<Batch>, r: Ref, t: int)
    decreases |before|, 0
  {
    || (IsRoot(sc, r) && t == r.thread)
    || exists i, op :: 0 <= i < |before| && op in before[i] && r == Op(op.id) && Places(sc, before[..i], op, t)
  }

  ghost predicate Places(sc: Scenario, before: seq<Batch>, op: Operation, t: int)
    decreases |before|, 1
  {
    (Message(op) && op.thread == t)
    || (op.kind.Edit? && op.target.Some? && InThread(sc, before, op.target.value, t))
  }

  ghost predicate ProbeRules(sc: Scenario, before: seq<Batch>, batch: Batch) {
    forall op, source :: op in batch && source in op.cleanup ==> ProbeRule(sc, before, op, source)
  }

  // A probe names sources that were redacted before, each from its own thread.
  ghost predicate ProbeRule(sc: Scenario, before: seq<Batch>, op: Operation, source: Ref) {
    && (sc.profile.Fuzz? || sc.profile.Chaos?) && op.kind.ThreadMessage?
    && RedactedBefore(before, source) && InThread(sc, before, source, op.thread)
  }

  ghost predicate KeepsProbeRules(sc: Scenario, batches: seq<Batch>) {
    forall k :: 0 <= k < |batches| ==> ProbeRules(sc, batches[..k], batches[k])
  }

  predicate OpPlaces(threads: map<Ref, int>, op: Operation, r: Ref, t: int) {
    && r == Op(op.id)
    && ((Message(op) && op.thread == t)
        || (op.kind.Edit? && op.target.Some? && op.target.value in threads && threads[op.target.value] == t))
  }

  predicate OpsPlace(threads: map<Ref, int>, ops: Batch, r: Ref, t: int) {
    exists op :: op in ops && OpPlaces(threads, op, r, t)
  }

  predicate At(threads: map<Ref, int>, r: Ref, t: int) {
    r in threads && threads[r] == t
  }

  // Operations with new identifiers that refer to none of each other.
  ghost predicate OnlyOldTargets(log: SourceLog, ops: Batch) {
    && OneOpPerId(ops)
    && (forall op :: op in ops ==> Op(op.id) !in log.threads)
    && (forall op, other :: op in ops && other in ops ==> other.target != Some(Op(op.id)))
  }

  lemma OpsPlaceSnoc(log: SourceLog, init: Batch, last: Operation, r: Ref, t: int)
    requires OnlyOldTargets(log, init + [last])
    ensures OpsPlace(log.threads, init + [last], r, t) <==>
      if r == Op(last.id) then OpPlaces(log.threads, last, r, t) else OpsPlace(log.threads, init, r, t)
    ensures OpsPlace(log.threads, init, r, t) ==> OpsPlace(log.threads, init + [last], r, t)
    ensures last.target == Some(r) ==> !OpsPlace(log.threads, init, r, t)
  {
    var ops := init + [last];
    assert last in ops && forall op :: op in ops <==> op in init || op == last;
  }

  lemma {:induction false} TrackMeans(log: SourceLog, ops: Batch, r: Ref)
    requires OnlyOldTargets(log, ops)
    ensures var log' := TrackSources(log, ops);
      && (forall t :: At(log'.threads, r, t) <==> At(log.threads, r, t) || OpsPlace(log.threads, ops, r, t))
      && (r in log'.redacted <==> r in log.redacted || (Redacts(ops, r) && r in log'.threads))
  {
    if ops != [] {
      var init, last := ops[..|ops| - 1], ops[|ops| - 1];
      assert ops == init + [last];
      var log1 := TrackSources(log, init);
      TrackMeans(log, init, r);
      forall t ensures At(TrackSource(log1, last).threads, r, t) <==>
        At(log.threads, r, t) || OpsPlace(log.threads, ops, r, t)
      {
        OpsPlaceSnoc(log, init, last, r, t);
        if last.target.Some? {
          TargetStays(log, init, last, last.target.value);
        }
      }
      SendsSnoc(init, last, r);
    }
  }

  lemma TargetStays(log: SourceLog, init: Batch, last: Operation, target: Ref)
    requires OnlyOldTargets(log, init + [last]) && last.target == Some(target)
    ensures var threads := TrackSources(log, init).threads;
      (target in threads <==> target in log.threads) && (target in threads ==> threads[target] == log.threads[target])
  {
    TrackMeans(log, init, target);
    var threads := TrackSources(log, init).threads;
    forall t ensures At(threads, target, t) <==> At(log.threads, target, t) {
      OpsPlaceSnoc(log, init, last, target, t);
    }
    assert target in threads ==> At(threads, target, threads[target]);
    assert target in log.threads ==> At(log.threads, target, log.threads[target]);
  }

  ghost predicate SourcesRead(sc: Scenario, before: seq<Batch>, log: SourceLog) {
    && (forall r, t :: At(log.threads, r, t) <==> InThread(sc, before, r, t))
    && (forall r :: r in log.redacted <==> RedactedBefore(before, r) && r in log.threads)
    && (forall r :: r in log.threads || RedactedBefore(before, r) ==> r.Op? ==> UsedId(before, r.id))
  }

  // An operation of a batch refers to nothing that the batch itself puts.
  lemma TargetsAreOld(sc: Scenario, before: seq<Batch>, batch: Batch, op: Operation)
    requires sc.clientCount > 0 && Traced(sc.profile) && BatchRules(sc, before, batch) && op in batch
    ensures op.target.Some? && op.target.value.Op? ==> UsedId(before, op.target.value.id)
  {
    if op.target.Some? && op.target.value.Op? {
      var r := op.target.value;
      assert Targetable(sc, before, r);
      var client :| PutBy(sc, before, r, client);
      var i :| 0 <= i < |before| && BatchPuts(sc.profile, before[i], r, client);
      assert HasId(before[i], r.id);
    }
  }

  lemma SourcesAreOld(sc: Scenario, before: seq<Batch>, batch: Batch, log: SourceLog)
    requires sc.clientCount > 0 && Traced(sc.profile) && BatchRules(sc, before, batch) && SourcesRead(sc, before, log)
    ensures OnlyOldTargets(log, batch)
  {
    forall op, other | op in batch && other in batch ensures other.target != Some(Op(op.id)) {
      TargetsAreOld(sc, before, batch, other);
    }
  }

  lemma InThreadSnoc(sc: Scenario, before: seq<Batch>, batch: Batch, r: Ref, t: int)
    ensures InThread(sc, before + [batch], r, t) <==>
      InThread(sc, before, r, t) || exists op :: op in batch && r == Op(op.id) && Places(sc, before, op, t)
  {
    var all := before + [batch];
    assert all[|before|] == batch && all[..|before|] == before;
    forall i | 0 <= i < |before| ensures all[i] == before[i] && all[..i] == before[..i] {
    }
    if i, op :| 0 <= i < |before| && op in before[i] && r == Op(op.id) && Places(sc, before[..i], op, t) {
      assert op in all[i] && Places(sc, all[..i], op, t);
    }
    if op :| op in batch && r == Op(op.id) && Places(sc, before, op, t) {
      assert op in all[|before|] && Places(sc, all[..|before|], op, t);
    }
  }

  lemma PlacesMeans(sc: Scenario, before: seq<Batch>, log: SourceLog, batch: Batch, r: Ref, t: int)
    requires SourcesRead(sc, before, log)
    ensures OpsPlace(log.threads, batch, r, t) <==>
      exists op :: op in batch && r == Op(op.id) && Places(sc, before, op, t)
  {
    forall op | op in batch && r == Op(op.id) ensures OpPlaces(log.threads, op, r, t) <==> Places(sc, before, op, t) {
      if op.target.Some? {
        assert At(log.threads, op.target.value, t) <==> InThread(sc, before, op.target.value, t);
      }
    }
  }

  lemma RedactedSnoc(before: seq<Batch>, batch: Batch, r: Ref)
    ensures RedactedBefore(before + [batch], r) <==> RedactedBefore(before, r) || Redacts(batch, r)
    ensures forall id :: UsedId(before + [batch], id) <==> UsedId(before, id) || HasId(batch, id)
  {
    var all := before + [batch];
    assert all[|before|] == batch && forall i :: 0 <= i < |before| ==> all[i] == before[i];
  }

  lemma SourcesStep(sc: Scenario, before: seq<Batch>, batch: Batch, log: SourceLog)
    requires sc.clientCount > 0 && Traced(sc.profile) && BatchRules(sc, before, batch) && SourcesRead(sc, before, log)
    ensures SourcesRead(sc, before + [batch], TrackSources(log, batch))
  {
    var all, log' := before + [batch], TrackSources(log, batch);
    SourcesAreOld(sc, before, batch, log);
    forall r
      ensures forall t :: At(log'.threads, r, t) <==> InThread(sc, all, r, t)
      ensures r in log'.redacted <==> RedactedBefore(all, r) && r in log'.threads
      ensures r in log'.threads || RedactedBefore(all, r) ==> r.Op? ==> UsedId(all, r.id)
    {
      SourceStep(sc, before, batch, log, r);
    }
  }

  lemma SourceStep(sc: Scenario, before: seq<Batch>, batch: Batch, log: SourceLog, r: Ref)
    requires sc.clientCount > 0 && Traced(sc.profile) && BatchRules(sc, before, batch) && SourcesRead(sc, before, log)
    requires OnlyOldTargets(log, batch)
    ensures var all, log' := before + [batch], TrackSources(log, batch);
      && (forall t :: At(log'.threads, r, t) <==> InThread(sc, all, r, t))
      && (r in log'.redacted <==> RedactedBefore(all, r) && r in log'.threads)
      && (r in log'.threads || RedactedBefore(all, r) ==> r.Op? ==> UsedId(all, r.id))
  {
    var all, log' := before + [batch], TrackSources(log, batch);
    TrackMeans(log, batch, r);
    RedactedSnoc(before, batch, r);
    forall t ensures At(log'.threads, r, t) <==> InThread(sc, all, r, t) {
      InThreadSnoc(sc, before, batch, r, t);
      PlacesMeans(sc, before, log, batch, r, t);
    }
    if Redacts(batch, r) {
      var op :| op in batch && op.kind.Redaction? && op.target == Some(r);
      TargetsAreOld(sc, before, batch, op);
    }
    if r in log.threads {
      assert At(log.threads, r, log.threads[r]);
    }
    if r in log'.threads && r !in log.threads {
      assert At(log'.threads, r, log'.threads[r]);
      var op :| op in batch && OpPlaces(log.threads, op, r, log'.threads[r]);
      assert HasId(batch, op.id) && !UsedId(before, op.id);
    }
  }

  lemma {:induction false} SourcesMean(sc: Scenario, before: seq<Batch>)
    requires sc.clientCount > 0 && Traced(sc.profile) && KeepsRules(sc, before)
    ensures SourcesRead(sc, before, SourcesAfter(sc, before))
  {
    if before != [] {
      var init, batch := before[..|before| - 1], before[|before| - 1];
      assert before == init + [batch];
      KeepsRulesSnoc(sc, init, batch);
      SourcesMean(sc, init);
      SourcesStep(sc, init, batch, SourcesAfter(sc, init));
    }
  }

  lemma ProbeRulesMean(sc: Scenario, before: seq<Batch>, batch: Batch, log: SourceLog)
    requires SourcesRead(sc, before, log)
    ensures ProbeBatchOk(sc.profile, batch, log) <==> ProbeRules(sc, before, batch)
  {
    forall op, source | op in batch && source in op.cleanup
      ensures source in log.redacted && source in log.threads && log.threads[source] == op.thread
        <==> RedactedBefore(before, source) && InThread(sc, before, source, op.thread)
    {
      assert At(log.threads, source, op.thread) <==> InThread(sc, before, source, op.thread);
    }
    forall op | op in batch
      ensures ProbeOk(sc.profile, op, log) <==>
        forall source :: source in op.cleanup ==> ProbeRule(sc, before, op, source)
    {
      if op.cleanup != [] {
        assert op.cleanup[0] in op.cleanup;
      }
    }
  }

  lemma KeepsProbeRulesSnoc(sc: Scenario, init: seq<Batch>, batch: Batch)
    ensures KeepsProbeRules(sc, init + [batch]) <==> KeepsProbeRules(sc, init) && ProbeRules(sc, init, batch)
  {
    var all := init + [batch];
    assert all[..|init|] == init && all[|init|] == batch;
    forall k | 0 <= k < |init| ensures all[..k] == init[..k] && all[k] == init[k] {
    }
  }

  lemma {:induction false} ProbesIff(sc: Scenario, batches: seq<Batch>)
    requires sc.clientCount > 0 && Traced(sc.profile) && KeepsRules(sc, batches)
    ensures ProbesOk(sc, batches) <==> KeepsProbeRules(sc, batches)
  {
    if batches != [] {
      var init, batch := batches[..|batches| - 1], batches[|batches| - 1];
      assert batches == init + [batch];
      KeepsRulesSnoc(sc, init, batch);
      KeepsProbeRulesSnoc(sc, init, batch);
      ProbesIff(sc, init);
      SourcesMean(sc, init);
      ProbeRulesMean(sc, init, batch, SourcesAfter(sc, init));
    }
  }
}

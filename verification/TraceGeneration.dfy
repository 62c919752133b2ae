// Bookkeeping the two trace generators share (_ScenarioGenerationState), and the
// simulation that relates it to the validator's ledger.
module TraceGeneration {

  import opened Options
  import opened Sequences
  import opened Traces
  import opened TraceValidation

  // The value of the generator's state. Every map has one entry per thread.
  datatype Pools = Pools(
    messages: map<int, seq<Ref>>,
    responses: map<int, seq<Ref>>,
    editable: map<int, seq<Ref>>,
    reactionTargets: map<int, seq<Ref>>,
    redactable: map<int, seq<Ref>>,
    redacted: set<Ref>,
    authors: map<Ref, int>)
  {
    ghost predicate Covers(threadCount: int) {
      && (forall t: int :: t in messages <==> 0 <= t < threadCount)
      && (forall t: int :: 0 <= t < threadCount ==>
            t in responses && t in editable && t in reactionTargets && t in redactable)
    }
  }

  function InitialPools(threadCount: int, clientCount: int): Pools
    requires clientCount > 0
  {
    var roots := map t: int | 0 <= t < threadCount :: [Root(t)];
    Pools(
      roots,
      map t: int | 0 <= t < threadCount :: [Response(Root(t))],
      roots,
      map t: int | 0 <= t < threadCount :: [Root(t), Response(Root(t))],
      roots,
      {},
      map t: int | 0 <= t < threadCount :: Root(t) := t % clientCount)
  }

  function Extend(pool: map<int, seq<Ref>>, thread: int, refs: seq<Ref>): map<int, seq<Ref>>
    requires thread in pool
  {
    pool[thread := pool[thread] + refs]
  }

  // _update_generation_state for one operation
  function UpdateOp(g: Pools, threadCount: int, op: Operation): (r: Pools)
    requires g.Covers(threadCount) && 0 <= op.thread < threadCount
    ensures r.Covers(threadCount)
  {
    var t, ref := op.thread, op.EventRef();
    var authored := if op.kind.IdempotentRetry? then g else g.(authors := g.authors[ref := op.client]);
    match op.kind
    case ThreadMessage | PlainReply =>
      authored.(messages := Extend(g.messages, t, [ref]),
                responses := Extend(g.responses, t, [Response(ref)]),
                editable := Extend(g.editable, t, [ref]),
                reactionTargets := Extend(g.reactionTargets, t, [ref, Response(ref)]),
                redactable := Extend(g.redactable, t, [ref]))
    case Edit | Reaction =>
      authored.(reactionTargets := Extend(g.reactionTargets, t, [ref]),
                redactable := Extend(g.redactable, t, [ref]))
    case Redaction =>
      if op.target.Some? then authored.(redacted := g.redacted + {op.target.value}) else authored
    case _ => authored
  }

  predicate InThreads(threadCount: int, ops: Batch) {
    forall op :: op in ops ==> 0 <= op.thread < threadCount
  }

  function UpdateOps(g: Pools, threadCount: int, ops: Batch): (r: Pools)
    requires g.Covers(threadCount) && InThreads(threadCount, ops)
    ensures r.Covers(threadCount)
  {
    if ops == [] then g
    else UpdateOp(UpdateOps(g, threadCount, ops[..|ops| - 1]), threadCount, ops[|ops| - 1])
  }

  // What the pools may contain, thread by thread, against the ledger of the same trace.
  ghost predicate ThreadFits(g: Pools, s: Ledger, t: int)
    requires t in g.messages && t in g.responses && t in g.editable && t in g.reactionTargets && t in g.redactable
  {
    && Root(t) in g.messages[t] && Root(t) in g.reactionTargets[t] && g.responses[t] != []
    && (forall m :: m in g.messages[t] ==> m in s.messageEvents && Response(m) in g.responses[t])
    && (forall r :: r in g.responses[t] ==> r.Response? && r.source in g.messages[t])
    && (forall m :: m in g.editable[t] ==> m in g.messages[t])
    && (forall r :: r in g.reactionTargets[t] ==>
          if r.Response? then r in g.responses[t] else r in s.knownEvents)
    && (forall r :: r in g.redactable[t] ==>
          r in s.knownEvents && (r in s.messageEvents ==> r in g.messages[t]))
  }

  ghost predicate InSomePool(g: Pools, threadCount: int, m: Ref) {
    exists t: int :: 0 <= t < threadCount && t in g.messages && m in g.messages[t]
  }

  // The pools only offer references the ledger knows, and they offer every message.
  ghost predicate Fits(g: Pools, s: Ledger, threadCount: int) {
    && g.Covers(threadCount)
    && (forall t: int :: 0 <= t < threadCount ==> ThreadFits(g, s, t))
    && (forall m :: m in s.messageEvents ==> InSomePool(g, threadCount, m))
    && s.messageEvents <= s.knownEvents
    && s.knownResponses == ResponsesTo(s.messageEvents)
    && (forall r :: r in s.knownEvents ==> r.Root? || (r.Op? && r.id in s.ids))
  }

  lemma InitialFits(sc: Scenario)
    requires sc.threadCount >= 1 && sc.clientCount >= 1
    ensures Fits(InitialPools(sc.threadCount, sc.clientCount), InitialLedger(sc), sc.threadCount)
    ensures InitialPools(sc.threadCount, sc.clientCount).authors == InitialLedger(sc).authors
  {
    var g, s := InitialPools(sc.threadCount, sc.clientCount), InitialLedger(sc);
    forall t: int | 0 <= t < sc.threadCount ensures ThreadFits(g, s, t) {
      assert g.responses[t][0] == Response(Root(t));
      assert g.messages[t][0] == Root(t);
      assert g.reactionTargets[t][0] == Root(t);
    }
    forall m | m in s.messageEvents ensures InSomePool(g, sc.threadCount, m) {
      assert g.messages[m.thread][0] == m;
    }
  }

  lemma ThreadFitsOp(g: Pools, s: Ledger, threadCount: int, op: Operation, t: int)
    requires Fits(g, s, threadCount) && 0 <= op.thread < threadCount && op.id !in s.ids && 0 <= t < threadCount
    ensures ThreadFits(UpdateOp(g, threadCount, op), RegisterOp(s, op).(ids := s.ids + {op.id}), t)
  {
    assert ThreadFits(g, s, t);
    assert op.EventRef() !in s.knownEvents;
    var g' := UpdateOp(g, threadCount, op);
    if t != op.thread {
      assert g'.messages[t] == g.messages[t] && g'.responses[t] == g.responses[t];
      assert g'.editable[t] == g.editable[t] && g'.reactionTargets[t] == g.reactionTargets[t];
      assert g'.redactable[t] == g.redactable[t];
    } else if op.kind.IsMessage() {
      ThreadFitsMessage(g, s, threadCount, op);
    }
  }

  lemma ThreadFitsMessage(g: Pools, s: Ledger, threadCount: int, op: Operation)
    requires Fits(g, s, threadCount) && 0 <= op.thread < threadCount && op.id !in s.ids && op.kind.IsMessage()
    ensures ThreadFits(UpdateOp(g, threadCount, op), RegisterOp(s, op).(ids := s.ids + {op.id}), op.thread)
  {
    var t, ref := op.thread, op.EventRef();
    assert ThreadFits(g, s, t);
    var g', s' := UpdateOp(g, threadCount, op), RegisterOp(s, op).(ids := s.ids + {op.id});
    assert g'.messages[t] == g.messages[t] + [ref];
    assert g'.responses[t] == g.responses[t] + [Response(ref)];
    assert g'.editable[t] == g.editable[t] + [ref];
    assert g'.reactionTargets[t] == g.reactionTargets[t] + [ref, Response(ref)];
    assert g'.redactable[t] == g.redactable[t] + [ref];
    assert g'.responses[t][|g.responses[t]|] == Response(ref);
    assert g'.messages[t][|g.messages[t]|] == ref;
  }

  // One registered operation keeps the fit, provided its identifier was not in use.
  lemma FitsOp(g: Pools, s: Ledger, threadCount: int, op: Operation)
    requires Fits(g, s, threadCount) && 0 <= op.thread < threadCount && op.id !in s.ids
    ensures Fits(UpdateOp(g, threadCount, op), RegisterOp(s, op).(ids := s.ids + {op.id}), threadCount)
  {
    var g', s' := UpdateOp(g, threadCount, op), RegisterOp(s, op).(ids := s.ids + {op.id});
    forall t: int | 0 <= t < threadCount ensures ThreadFits(g', s', t) {
      ThreadFitsOp(g, s, threadCount, op, t);
    }
    forall m | m in s'.messageEvents ensures InSomePool(g', threadCount, m) {
      if m in s.messageEvents {
        assert InSomePool(g, threadCount, m);
        var t: int :| 0 <= t < threadCount && t in g.messages && m in g.messages[t];
        assert m in g'.messages[t];
      } else {
        assert m in g'.messages[op.thread];
      }
    }
    assert s'.knownResponses == ResponsesTo(s'.messageEvents);
  }

  // Interruptions leave no event behind for the validator and only an author for the generator.
  lemma FitsInterruption(g: Pools, s: Ledger, threadCount: int, op: Operation)
    requires Fits(g, s, threadCount) && 0 <= op.thread < threadCount && op.kind.IsInterruption()
    ensures Fits(UpdateOp(g, threadCount, op), s.(ids := s.ids + {op.id}), threadCount)
  {
    var g', s' := UpdateOp(g, threadCount, op), s.(ids := s.ids + {op.id});
    forall t: int | 0 <= t < threadCount ensures ThreadFits(g', s', t) {
      assert ThreadFits(g, s, t);
    }
    forall m | m in s'.messageEvents ensures InSomePool(g', threadCount, m) {
      assert InSomePool(g, threadCount, m);
    }
  }

  // The fit does not look at what has settled, at who wrote what, or at whether MindRoom runs.
  lemma FitsIgnores(g: Pools, s: Ledger, s': Ledger, threadCount: int)
    requires Fits(g, s, threadCount)
    requires s'.knownEvents == s.knownEvents && s'.messageEvents == s.messageEvents
    requires s'.knownResponses == s.knownResponses && s.ids <= s'.ids
    ensures Fits(g, s', threadCount)
  {
    forall t: int | 0 <= t < threadCount ensures ThreadFits(g, s', t) {
      assert ThreadFits(g, s, t);
    }
  }

  lemma IdsOfSnoc(ops: Batch)
    requires ops != []
    ensures IdsOf(ops) == IdsOf(ops[..|ops| - 1]) + {ops[|ops| - 1].id}
  {
    assert ops == ops[..|ops| - 1] + [ops[|ops| - 1]];
  }

  lemma {:induction false} FitsOps(g: Pools, s: Ledger, threadCount: int, ops: Batch)
    requires Fits(g, s, threadCount) && InThreads(threadCount, ops) && FreshIds(ops, s.ids)
    ensures Fits(UpdateOps(g, threadCount, ops), RegisterOps(s, ops).(ids := s.ids + IdsOf(ops)), threadCount)
  {
    if ops == [] {
      assert s.(ids := s.ids + IdsOf(ops)) == s;
    } else {
      var init, last := ops[..|ops| - 1], ops[|ops| - 1];
      FitsOps(g, s, threadCount, init);
      var mid := RegisterOps(s, init).(ids := s.ids + IdsOf(init));
      IdsOfSnoc(ops);
      assert last.id !in mid.ids;
      FitsOp(UpdateOps(g, threadCount, init), mid, threadCount, last);
      assert RegisterOp(mid, last).(ids := mid.ids + {last.id})
          == RegisterOps(s, ops).(ids := s.ids + IdsOf(ops));
    }
  }

  lemma AuthorsOp(g: Pools, threadCount: int, op: Operation)
    requires g.Covers(threadCount) && 0 <= op.thread < threadCount
    ensures UpdateOp(g, threadCount, op).authors
         == if op.kind.IdempotentRetry? then g.authors else g.authors[op.EventRef() := op.client]
  {
    if op.kind.IsMessage() {
    } else if op.kind.Redaction? {
    }
  }

  // Generator and validator record the same authors.
  lemma {:induction false} SameAuthors(g: Pools, s: Ledger, threadCount: int, ops: Batch)
    requires g.Covers(threadCount) && InThreads(threadCount, ops) && g.authors == s.authors
    ensures UpdateOps(g, threadCount, ops).authors == RegisterOps(s, ops).authors
  {
    if ops != [] {
      SameAuthors(g, s, threadCount, ops[..|ops| - 1]);
      AuthorsOp(UpdateOps(g, threadCount, ops[..|ops| - 1]), threadCount, ops[|ops| - 1]);
    }
  }

  // Redactions change nothing but the set of unusable responses.
  lemma {:induction false} RedactOpsFrame(s: Ledger, ops: Batch)
    ensures RedactOps(s, ops) == s.(unusable := RedactOps(s, ops).unusable)
    ensures s.unusable <= RedactOps(s, ops).unusable
    ensures forall r :: r in RedactOps(s, ops).unusable && r !in s.unusable ==>
              r in s.knownResponses && r !in s.settled
  {
    if ops != [] {
      RedactOpsFrame(s, ops[..|ops| - 1]);
    }
  }

  lemma {:induction false} RegisterOpsFrame(s: Ledger, ops: Batch)
    ensures RegisterOps(s, ops).settled == s.settled && RegisterOps(s, ops).unusable == s.unusable
    ensures RegisterOps(s, ops).running == s.running && RegisterOps(s, ops).ids == s.ids
    ensures s.knownEvents <= RegisterOps(s, ops).knownEvents
    ensures s.knownResponses <= RegisterOps(s, ops).knownResponses
    ensures s.messageEvents <= RegisterOps(s, ops).messageEvents
    ensures forall op :: op in ops && !op.kind.IdempotentRetry? ==> op.EventRef() in RegisterOps(s, ops).knownEvents
    ensures forall r :: r in RegisterOps(s, ops).knownEvents && r !in s.knownEvents ==>
              r.Op? && exists op :: op in ops && op.id == r.id && !op.kind.IdempotentRetry?
    ensures forall r :: r in RegisterOps(s, ops).messageEvents && r !in s.messageEvents ==>
              r.Op? && exists op :: op in ops && op.id == r.id && op.kind.IsMessage()
  {
    if ops != [] {
      RegisterOpsFrame(s, ops[..|ops| - 1]);
      assert ops == ops[..|ops| - 1] + [ops[|ops| - 1]];
    }
  }

  // ----- What was redacted is left alone -----

  function RedactedIn(batch: Batch): set<Ref> {
    set op | op in batch && op.kind.Redaction? && op.target.Some? :: op.target.value
  }

  function RedactedBy(batches: seq<Batch>): set<Ref> {
    if batches == [] then {}
    else RedactedBy(batches[..|batches| - 1]) + RedactedIn(batches[|batches| - 1])
  }

  ghost predicate Spares(gone: set<Ref>, batch: Batch) {
    forall op :: op in batch && op.kind.IsAuthored() ==> op.target.Some? && op.target.value !in gone
  }

  // Every batch leaves alone what those before it redacted.
  ghost predicate Sparing(batches: seq<Batch>) {
    batches == []
    || (Sparing(batches[..|batches| - 1]) && Spares(RedactedBy(batches[..|batches| - 1]), batches[|batches| - 1]))
  }

  lemma SparingStep(batches: seq<Batch>, batch: Batch, gone: set<Ref>)
    requires Sparing(batches) && gone == RedactedBy(batches) && Spares(gone, batch)
    ensures Sparing(batches + [batch]) && RedactedBy(batches + [batch]) == gone + RedactedIn(batch)
  {
    SnocPrefix(batches, batch);
  }

  lemma {:induction false} UpdateRedacts(g: Pools, threadCount: int, batch: Batch)
    requires g.Covers(threadCount) && InThreads(threadCount, batch)
    ensures UpdateOps(g, threadCount, batch).redacted == g.redacted + RedactedIn(batch)
  {
    if batch != [] {
      var init, last := batch[..|batch| - 1], batch[|batch| - 1];
      UpdateRedacts(g, threadCount, init);
      RedactedSnoc(init, last);
      assert batch == init + [last];
      UpdateOpRedacts(UpdateOps(g, threadCount, init), threadCount, last);
    }
  }

  lemma RedactedSnoc(init: Batch, last: Operation)
    ensures RedactedIn(init + [last]) == RedactedIn(init) + RedactedIn([last])
  {
    assert forall op :: op in init + [last] <==> op in init || op in [last];
  }

  lemma UpdateOpRedacts(g: Pools, threadCount: int, op: Operation)
    requires g.Covers(threadCount) && 0 <= op.thread < threadCount
    ensures UpdateOp(g, threadCount, op).redacted == g.redacted + RedactedIn([op])
  {
    assert op in [op];
  }

  // Nothing redacted by one batch is edited, redacted or retried by a later one.
  ghost predicate SparesRedacted(batches: seq<Batch>) {
    forall i, j, early, late ::
      0 <= i < j < |batches| && early in batches[i] && late in batches[j]
      && early.kind.Redaction? && late.kind.IsAuthored()
      ==> early.target != late.target
  }

  lemma {:induction false} SparingMeans(batches: seq<Batch>)
    requires Sparing(batches)
    ensures SparesRedacted(batches)
    ensures forall i, op :: 0 <= i < |batches| && op in batches[i] && op.kind.Redaction? && op.target.Some? ==>
              op.target.value in RedactedBy(batches)
  {
    if batches != [] {
      var init, last := batches[..|batches| - 1], batches[|batches| - 1];
      SparingMeans(init);
      assert forall i :: 0 <= i < |init| ==> batches[i] == init[i];
    }
  }

  // The mutable record both generators carry.
  class GenerationState {
    var messages: map<int, seq<Ref>>
    var responses: map<int, seq<Ref>>
    var editable: map<int, seq<Ref>>
    var reactionTargets: map<int, seq<Ref>>
    var redactable: map<int, seq<Ref>>
    var redacted: set<Ref>
    var authors: map<Ref, int>
    var settledResponses: set<Ref>
    var unusableResponses: set<Ref>

    ghost function Value(): Pools
      reads this
    {
      Pools(messages, responses, editable, reactionTargets, redactable, redacted, authors)
    }

    constructor (threadCount: int, clientCount: int)
      requires clientCount > 0
      ensures Value() == InitialPools(threadCount, clientCount)
      ensures settledResponses == ResponsesTo(Roots(threadCount)) && unusableResponses == {}
    {
      var roots := map t: int | 0 <= t < threadCount :: [Root(t)];
      messages, editable, redactable := roots, roots, roots;
      responses := map t: int | 0 <= t < threadCount :: [Response(Root(t))];
      reactionTargets := map t: int | 0 <= t < threadCount :: [Root(t), Response(Root(t))];
      redacted := {};
      authors := map t: int | 0 <= t < threadCount :: Root(t) := t % clientCount;
      settledResponses := ResponsesTo(Roots(threadCount));
      unusableResponses := {};
    }

    // _update_generation_state
    method Update(threadCount: int, ops: Batch)
      requires Value().Covers(threadCount) && InThreads(threadCount, ops)
      modifies this`messages, this`responses, this`editable, this`reactionTargets, this`redactable,
               this`redacted, this`authors
      ensures Value() == UpdateOps(old(Value()), threadCount, ops)
    {
      for i := 0 to |ops|
        invariant Value() == UpdateOps(old(Value()), threadCount, ops[..i])
      {
        PrefixStep(ops, i);
        assert ops[i] in ops;
        UpdateOne(threadCount, ops[i]);
      }
      assert ops[..|ops|] == ops;
    }

    method UpdateOne(threadCount: int, op: Operation)
      requires Value().Covers(threadCount) && 0 <= op.thread < threadCount
      modifies this`messages, this`responses, this`editable, this`reactionTargets, this`redactable,
               this`redacted, this`authors
      ensures Value() == UpdateOp(old(Value()), threadCount, op)
    {
      var t, ref := op.thread, op.EventRef();
      if !op.kind.IdempotentRetry? {
        authors := authors[ref := op.client];
      }
      if op.kind.IsMessage() {
        messages := Extend(messages, t, [ref]);
        responses := Extend(responses, t, [Response(ref)]);
        editable := Extend(editable, t, [ref]);
        reactionTargets := Extend(reactionTargets, t, [ref, Response(ref)]);
        redactable := Extend(redactable, t, [ref]);
      } else if op.kind.Edit? || op.kind.Reaction? {
        reactionTargets := Extend(reactionTargets, t, [ref]);
        redactable := Extend(redactable, t, [ref]);
      } else if op.kind.Redaction? && op.target.Some? {
        redacted := redacted + {op.target.value};
      }
    }
  }

  // The weights of _WEIGHTED_KINDS.
  const WEIGHTED_KINDS: seq<Kind> := [
    ThreadMessage, ThreadMessage, ThreadMessage, PlainReply, PlainReply, Edit, Edit,
    Reaction, Reaction, Reaction, Redaction, IdempotentRetry]

  lemma WeightedKindsAreMutations(kind: Kind)
    requires kind in WEIGHTED_KINDS
    ensures kind.ThreadMessage? || kind.PlainReply? || kind.Edit? || kind.Reaction? || kind.Redaction?
            || kind.IdempotentRetry?
  {
  }
}

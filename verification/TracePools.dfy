// What the generators' pools hold, said of the trace built so far: thread by thread, every event an
// operation may refer to, and nothing else. Hence every operation aims within its own thread.
module TracePools {

  import opened Options
  import opened Sequences
  import opened Traces
  import opened TraceGeneration

  // ----- What is in a thread -----

  predicate Sends(op: Operation) {
    op.kind.ThreadMessage? || op.kind.PlainReply?
  }

  predicate Adorns(op: Operation) {
    op.kind.Edit? || op.kind.Reaction?
  }

  predicate Messages(batch: Batch, r: Ref, t: int) {
    exists op :: op in batch && r == Op(op.id) && op.thread == t && Sends(op)
  }

  predicate Remarks(batch: Batch, r: Ref, t: int) {
    exists op :: op in batch && r == Op(op.id) && op.thread == t && Adorns(op)
  }

  predicate IsMessage(before: seq<Batch>, r: Ref, t: int) {
    r == Root(t) || exists i :: 0 <= i < |before| && Messages(before[i], r, t)
  }

  predicate IsRemark(before: seq<Batch>, r: Ref, t: int) {
    exists i :: 0 <= i < |before| && Remarks(before[i], r, t)
  }

  predicate IsReply(before: seq<Batch>, r: Ref, t: int) {
    r.Response? && IsMessage(before, r.source, t)
  }

  // The operation refers to something of its own thread that was there before, of the kind that can
  // be answered, edited, reacted to, redacted or sent again.
  predicate Aims(before: seq<Batch>, op: Operation) {
    op.target.Some? &&
    var r, t := op.target.value, op.thread;
    match op.kind
    case ThreadMessage => IsMessage(before, r, t)
    case PlainReply => IsReply(before, r, t)
    case Edit => IsMessage(before, r, t) && !RedactedBefore(before, r)
    case Reaction => IsMessage(before, r, t) || IsRemark(before, r, t) || IsReply(before, r, t)
    case Redaction => (IsMessage(before, r, t) || IsRemark(before, r, t)) && !RedactedBefore(before, r)
    case IdempotentRetry => IsMessage(before, r, t) && !RedactedBefore(before, r)
    case _ => false
  }

  ghost predicate Aimed(batches: seq<Batch>) {
    forall k, op :: 0 <= k < |batches| && op in batches[k] && IsMutation(op) ==> Aims(batches[..k], op)
  }

  // ----- What the pools hold -----

  ghost predicate ThreadRead(before: seq<Batch>, g: Pools, t: int, r: Ref)
    requires t in g.messages && t in g.responses && t in g.editable && t in g.reactionTargets && t in g.redactable
  {
    && (r in g.messages[t] <==> IsMessage(before, r, t))
    && (r in g.responses[t] <==> IsReply(before, r, t))
    && (r in g.editable[t] <==> IsMessage(before, r, t))
    && (r in g.reactionTargets[t] <==> IsMessage(before, r, t) || IsRemark(before, r, t) || IsReply(before, r, t))
    && (r in g.redactable[t] <==> IsMessage(before, r, t) || IsRemark(before, r, t))
  }

  ghost predicate PoolsRead(threadCount: int, before: seq<Batch>, g: Pools) {
    && g.Covers(threadCount)
    && (forall t: int, r :: 0 <= t < threadCount ==> ThreadRead(before, g, t, r))
    && (forall r :: r in g.redacted <==> RedactedBefore(before, r))
  }

  // The target comes from the pool of its kind and thread.
  ghost predicate FromPool(threadCount: int, g: Pools, op: Operation)
    requires g.Covers(threadCount)
  {
    0 <= op.thread < threadCount && op.target.Some? &&
    var r, t := op.target.value, op.thread;
    match op.kind
    case ThreadMessage => r in g.messages[t]
    case PlainReply => r in g.responses[t]
    case Edit => r in g.editable[t] && r !in g.redacted
    case Reaction => r in g.reactionTargets[t]
    case Redaction => r in g.redactable[t] && r !in g.redacted
    case IdempotentRetry => r in g.messages[t] && r !in g.redacted
    case _ => false
  }

  lemma PooledAims(threadCount: int, before: seq<Batch>, g: Pools, op: Operation)
    requires PoolsRead(threadCount, before, g) && FromPool(threadCount, g, op)
    ensures Aims(before, op)
  {
    assert ThreadRead(before, g, op.thread, op.target.value);
  }

  lemma InitialPoolsRead(threadCount: int, clientCount: int)
    requires clientCount > 0
    ensures PoolsRead(threadCount, [], InitialPools(threadCount, clientCount))
  {
  }

  lemma ThreadSnoc(before: seq<Batch>, batch: Batch, r: Ref, t: int)
    ensures IsMessage(before + [batch], r, t) <==> IsMessage(before, r, t) || Messages(batch, r, t)
    ensures IsRemark(before + [batch], r, t) <==> IsRemark(before, r, t) || Remarks(batch, r, t)
    ensures RedactedBefore(before + [batch], r) <==> RedactedBefore(before, r) || Redacts(batch, r)
  {
    var all := before + [batch];
    assert all[|before|] == batch && forall i :: 0 <= i < |before| ==> all[i] == before[i];
  }

  // What one operation adds to the pools of a thread ...
  lemma UpdateOpAdds(g: Pools, threadCount: int, op: Operation, t: int, r: Ref)
    requires g.Covers(threadCount) && 0 <= op.thread < threadCount && 0 <= t < threadCount
    ensures var g', here := UpdateOp(g, threadCount, op), op.thread == t;
      var message, remark := here && Sends(op) && r == Op(op.id), here && Adorns(op) && r == Op(op.id);
      && (r in g'.messages[t] <==> r in g.messages[t] || message)
      && (r in g'.editable[t] <==> r in g.editable[t] || message)
      && (r in g'.redactable[t] <==> r in g.redactable[t] || message || remark)
  {
  }

  lemma UpdateOpAddsReplies(g: Pools, threadCount: int, op: Operation, t: int, r: Ref)
    requires g.Covers(threadCount) && 0 <= op.thread < threadCount && 0 <= t < threadCount
    ensures var g', here := UpdateOp(g, threadCount, op), op.thread == t;
      var reply := here && Sends(op) && r == Response(Op(op.id));
      && (r in g'.responses[t] <==> r in g.responses[t] || reply)
      && (r in g'.reactionTargets[t] <==>
            r in g.reactionTargets[t] || reply || (here && (Sends(op) || Adorns(op)) && r == Op(op.id)))
  {
  }

  // ... and what those of a batch do.
  lemma {:induction false} UpdateAdds(g: Pools, threadCount: int, ops: Batch, t: int, r: Ref)
    requires g.Covers(threadCount) && InThreads(threadCount, ops) && 0 <= t < threadCount
    ensures var g' := UpdateOps(g, threadCount, ops);
      && (r in g'.messages[t] <==> r in g.messages[t] || Messages(ops, r, t))
      && (r in g'.editable[t] <==> r in g.editable[t] || Messages(ops, r, t))
      && (r in g'.redactable[t] <==> r in g.redactable[t] || Messages(ops, r, t) || Remarks(ops, r, t))
  {
    if ops != [] {
      var init, last := ops[..|ops| - 1], ops[|ops| - 1];
      assert ops == init + [last];
      UpdateAdds(g, threadCount, init, t, r);
      UpdateOpAdds(UpdateOps(g, threadCount, init), threadCount, last, t, r);
      AddsSnoc(init, last, r, t);
    }
  }

  lemma {:induction false} UpdateAddsReplies(g: Pools, threadCount: int, ops: Batch, t: int, r: Ref)
    requires g.Covers(threadCount) && InThreads(threadCount, ops) && 0 <= t < threadCount
    ensures var g' := UpdateOps(g, threadCount, ops);
      && (r in g'.responses[t] <==> r in g.responses[t] || (r.Response? && Messages(ops, r.source, t)))
      && (r in g'.reactionTargets[t] <==>
            || r in g.reactionTargets[t] || Messages(ops, r, t) || Remarks(ops, r, t)
            || (r.Response? && Messages(ops, r.source, t)))
  {
    if ops != [] {
      var init, last := ops[..|ops| - 1], ops[|ops| - 1];
      assert ops == init + [last];
      UpdateAddsReplies(g, threadCount, init, t, r);
      UpdateOpAddsReplies(UpdateOps(g, threadCount, init), threadCount, last, t, r);
      AddsSnoc(init, last, r, t);
      if r.Response? {
        AddsSnoc(init, last, r.source, t);
      }
    }
  }

  lemma AddsSnoc(init: Batch, last: Operation, r: Ref, t: int)
    ensures Messages(init + [last], r, t) <==>
      Messages(init, r, t) || (r == Op(last.id) && last.thread == t && Sends(last))
    ensures Remarks(init + [last], r, t) <==>
      Remarks(init, r, t) || (r == Op(last.id) && last.thread == t && Adorns(last))
  {
    assert forall op :: op in init + [last] <==> op in init || op == last;
  }

  lemma ThreadReadStep(threadCount: int, before: seq<Batch>, g: Pools, batch: Batch, t: int, r: Ref)
    requires PoolsRead(threadCount, before, g) && InThreads(threadCount, batch) && 0 <= t < threadCount
    ensures ThreadRead(before + [batch], UpdateOps(g, threadCount, batch), t, r)
  {
    assert ThreadRead(before, g, t, r);
    UpdateAdds(g, threadCount, batch, t, r);
    UpdateAddsReplies(g, threadCount, batch, t, r);
    ThreadSnoc(before, batch, r, t);
    if r.Response? {
      ThreadSnoc(before, batch, r.source, t);
    }
  }

  lemma PoolsReadStep(threadCount: int, before: seq<Batch>, g: Pools, batch: Batch)
    requires PoolsRead(threadCount, before, g) && InThreads(threadCount, batch)
    ensures PoolsRead(threadCount, before + [batch], UpdateOps(g, threadCount, batch))
  {
    forall t: int, r | 0 <= t < threadCount
      ensures ThreadRead(before + [batch], UpdateOps(g, threadCount, batch), t, r)
    {
      ThreadReadStep(threadCount, before, g, batch, t, r);
    }
    UpdateRedacts(g, threadCount, batch);
    forall r ensures r in UpdateOps(g, threadCount, batch).redacted <==> RedactedBefore(before + [batch], r) {
      ThreadSnoc(before, batch, r, 0);
      assert r in RedactedIn(batch) <==> Redacts(batch, r);
    }
  }

  // Who wrote what is no matter of the pools.
  lemma PoolsReadPools(threadCount: int, before: seq<Batch>, g: Pools, other: Pools)
    requires PoolsRead(threadCount, before, g) && other == g.(authors := other.authors)
    ensures PoolsRead(threadCount, before, other)
  {
    forall t: int, r | 0 <= t < threadCount ensures ThreadRead(before, other, t, r) {
      assert ThreadRead(before, g, t, r);
    }
  }

  lemma AimedStep(threadCount: int, before: seq<Batch>, g: Pools, batch: Batch)
    requires PoolsRead(threadCount, before, g) && Aimed(before)
    requires forall op :: op in batch && IsMutation(op) ==> FromPool(threadCount, g, op)
    ensures Aimed(before + [batch])
  {
    var all := before + [batch];
    assert all[|before|] == batch && all[..|before|] == before;
    forall k, op | 0 <= k < |all| && op in all[k] && IsMutation(op) ensures Aims(all[..k], op) {
      if k < |before| {
        assert all[..k] == before[..k] && all[k] == before[k];
      } else {
        PooledAims(threadCount, before, g, op);
      }
    }
  }
}

// What the audit's two verdicts mean for the set of events it saw, and when a verdict of
// corruption can be taken back by events that arrive later.
module AuditVerdicts {

  import opened Options
  import opened Sequences
  import opened PeakStreams
  import opened ManagedStreams
  import opened ManagedAudit

  // ----- The report in terms of its folds -----

  lemma {:induction false} FoldsAreFolded(index: Index, expected: seq<Id>)
    ensures forall f :: f in Folds(index, expected) <==> exists s :: s in expected && FoldSource(index, s) == Some(f)
  {
    if expected != [] {
      var init, last := expected[..|expected| - 1], expected[|expected| - 1];
      FoldsAreFolded(index, init);
      assert expected == init + [last];
    }
  }

  lemma {:induction false} TransitionsListed(folds: seq<Fold>)
    ensures Transitions(folds) == [] <==> forall f :: f in folds ==> f.completions == 1
    ensures (exists t :: t in Transitions(folds) && t.1 > 1) <==> exists f :: f in folds && f.completions > 1
  {
    if folds != [] {
      var init, last := folds[..|folds| - 1], folds[|folds| - 1];
      TransitionsListed(init);
      assert folds == init + [last];
      if last.completions > 1 {
        assert (last.response, last.completions) in Transitions(folds);
      }
    }
  }

  lemma {:induction false} NoncompletedListed(folds: seq<Fold>)
    ensures Noncompleted(folds) == [] <==> forall f :: f in folds ==> f.status == Some(COMPLETED)
  {
    if folds != [] {
      var init, last := folds[..|folds| - 1], folds[|folds| - 1];
      NoncompletedListed(init);
      assert folds == init + [last];
    }
  }

  lemma {:induction false} OneResponseEach(index: Index, expected: seq<Id>)
    requires forall s :: s in expected ==> |Get(index.originals, s)| == 1
    ensures Responses(index, expected) == |expected|
  {
    if expected != [] {
      OneResponseEach(index, expected[..|expected| - 1]);
      assert expected[|expected| - 1] in expected;
    }
  }

  // The i-th fold is that of the i-th source, when every source has one.
  ghost predicate InStep(index: Index, expected: seq<Id>, folds: seq<Fold>) {
    |folds| == |expected| && forall i :: 0 <= i < |expected| ==> FoldSource(index, expected[i]) == Some(folds[i])
  }

  lemma InStepSnoc(index: Index, expected: seq<Id>, folds: seq<Fold>, source: Id, fold: Fold)
    requires InStep(index, expected, folds) && FoldSource(index, source) == Some(fold)
    ensures InStep(index, expected + [source], folds + [fold])
  {
  }

  lemma {:induction false} FoldsInStep(index: Index, expected: seq<Id>)
    requires forall i :: 0 <= i < |expected| ==> FoldSource(index, expected[i]).Some?
    ensures InStep(index, expected, Folds(index, expected))
  {
    if expected != [] {
      var init, last := expected[..|expected| - 1], expected[|expected| - 1];
      FoldsInStep(index, init);
      InStepSnoc(index, init, Folds(index, init), last, FoldSource(index, last).value);
      assert expected == init + [last];
    }
  }

  // ----- Ready -----

  // The source has one response, and its thread one completion, which came last.
  ghost predicate Settled(events: set<Event>, source: Id) {
    exists e, c :: SoleOriginal(events, source, e) && Finishes(events, e, c)
  }

  predicate Stray(expected: set<Id>, e: Event) {
    IsResponse(e) && e.relation.reply.value !in expected
  }

  predicate Faulty(events: set<Event>, expected: set<Id>, e: Event) {
    Stray(expected, e) || BadRelation(e) || InvalidReplacement(events, e)
  }

  ghost predicate AllSettled(events: set<Event>, expected: set<Id>) {
    && (forall s :: s in expected ==> Settled(events, s))
    && (forall e :: e in events ==> !Faulty(events, expected, e))
  }

  lemma NoFaults(events: seq<Event>, index: Index, expected: seq<Id>, audit: Audit, peak: int)
    requires Indexes(index, events) && audit == Report(index, expected, peak)
    ensures audit.unexpected == {} <==> forall e :: e in events ==> !Stray(Elements(expected), e)
    ensures audit.invalidRelations == {} <==> forall e :: e in events ==> !BadRelation(e)
    ensures audit.invalidReplacements == {} <==> forall e :: e in events ==> !InvalidReplacement(Elements(events), e)
  {
    forall s ensures s in index.originals <==> exists e :: e in events && IsOriginal(e, s) {
      assert Get(index.originals, s) == Filed(Original, events, s);
      if s in index.originals {
        assert index.originals[s][0] in Filed(Original, events, s);
      }
      if e :| e in events && IsOriginal(e, s) {
        assert e in Filed(Original, events, s);
      }
    }
    forall e | e in events && Stray(Elements(expected), e) ensures e.relation.reply.value in audit.unexpected {
      assert IsOriginal(e, e.relation.reply.value);
    }
    forall e | e in events && BadRelation(e) ensures e in audit.invalidRelations {
    }
    forall e | e in events && InvalidReplacement(Elements(events), e) ensures e in audit.invalidReplacements {
    }
  }

  // Whether the fold of a source is as it should be.
  lemma SettledFold(events: seq<Event>, index: Index, source: Id)
    requires Indexes(index, events) && UniqueIds(events)
    ensures Settled(Elements(events), source) <==>
      |Get(index.originals, source)| == 1
      && FoldSource(index, source).value.completions == 1
      && FoldSource(index, source).value.status == Some(COMPLETED)
  {
    OriginalsCounted(events, index, source);
    if e :| SoleOriginal(Elements(events), source, e) {
      var f := FoldMeans(events, index, source, e);
    }
  }

  lemma AllFoldsComplete(folds: seq<Fold>)
    ensures Transitions(folds) == [] && Noncompleted(folds) == [] <==>
      forall f :: f in folds ==> f.completions == 1 && f.status == Some(COMPLETED)
  {
    TransitionsListed(folds);
    NoncompletedListed(folds);
  }

  lemma SourcesSettle(events: seq<Event>, index: Index, expected: seq<Id>)
    requires Indexes(index, events) && UniqueIds(events)
    ensures (forall s :: s in expected ==> Settled(Elements(events), s)) <==>
      && (forall s :: s in expected ==> |Get(index.originals, s)| == 1)
      && Transitions(Folds(index, expected)) == [] && Noncompleted(Folds(index, expected)) == []
  {
    AllFoldsComplete(Folds(index, expected));
    FoldsSettle(index, expected);
    forall s | s in expected
      ensures Settled(Elements(events), s) <==>
        |Get(index.originals, s)| == 1
        && FoldSource(index, s).value.completions == 1
        && FoldSource(index, s).value.status == Some(COMPLETED)
    {
      SettledFold(events, index, s);
    }
  }

  lemma NothingFaulty(events: seq<Event>, index: Index, expected: seq<Id>, audit: Audit, peak: int)
    requires Indexes(index, events) && audit == Report(index, expected, peak)
    ensures audit.unexpected == {} && audit.invalidRelations == {} && audit.invalidReplacements == {} <==>
      forall e :: e in Elements(events) ==> !Faulty(Elements(events), Elements(expected), e)
  {
    NoFaults(events, index, expected, audit, peak);
    assert forall e :: e in Elements(events) <==> e in events;
  }

  // Ready means: every expected source is settled, and nothing else is amiss.
  lemma ReadyIff(events: seq<Event>, index: Index, expected: seq<Id>, peak: int)
    requires Indexes(index, events) && UniqueIds(events)
    ensures Ready(Report(index, expected, peak)) <==> AllSettled(Elements(events), Elements(expected))
  {
    var audit := Report(index, expected, peak);
    NothingFaulty(events, index, expected, audit, peak);
    OnesCounted(index, expected, audit, peak);
    SourcesSettle(events, index, expected);
    assert forall s :: s in Elements(expected) <==> s in expected;
  }

  // Every source once, and no response twice.
  ghost predicate PairsUp(canonical: seq<(Id, Id)>, expected: seq<Id>) {
    && |canonical| == |expected|
    && (forall i :: 0 <= i < |expected| ==> canonical[i].0 == expected[i])
    && (forall i, j :: 0 <= i < j < |expected| ==> canonical[i].1 != canonical[j].1)
  }

  lemma FoldsPair(events: seq<Event>, index: Index, expected: seq<Id>)
    requires Indexes(index, events) && UniqueIds(events) && Distinct(expected)
    requires forall s :: s in expected ==> |Get(index.originals, s)| == 1
    ensures PairsUp(Canonical(Folds(index, expected)), expected)
  {
    var folds := Folds(index, expected);
    forall i | 0 <= i < |expected| ensures FoldSource(index, expected[i]).Some? {
      assert expected[i] in expected;
    }
    FoldsInStep(index, expected);
    forall i | 0 <= i < |expected| ensures folds[i].source == expected[i] {
      assert FoldSource(index, expected[i]) == Some(folds[i]);
    }
    forall i, j | 0 <= i < j < |expected| ensures folds[i].response != folds[j].response {
      ResponsesDiffer(events, index, expected, i, j);
    }
  }

  // A ready audit pairs every source with a response of its own ...
  lemma ReadyPairsSources(events: seq<Event>, index: Index, expected: seq<Id>, peak: int)
    requires Indexes(index, events) && UniqueIds(events) && Distinct(expected)
    requires Ready(Report(index, expected, peak))
    ensures PairsUp(Report(index, expected, peak).canonical, expected)
  {
    OnesCounted(index, expected, Report(index, expected, peak), peak);
    FoldsPair(events, index, expected);
  }

  // ... which ends no earlier than it begins.
  lemma ReadyStreamsEndLater(events: seq<Event>, index: Index, expected: seq<Id>, peak: int, f: Fold)
    requires Indexes(index, events) && UniqueIds(events)
    requires Ready(Report(index, expected, peak)) && f in Folds(index, expected)
    ensures f.finished >= f.started
  {
    AllFoldsComplete(Folds(index, expected));
    FoldsAreFolded(index, expected);
    var s :| s in expected && FoldSource(index, s) == Some(f);
    OriginalsCounted(events, index, s);
    var g := FoldMeans(events, index, s, Get(index.originals, s)[0]);
  }

  lemma ResponsesDiffer(events: seq<Event>, index: Index, expected: seq<Id>, i: nat, j: nat)
    requires Indexes(index, events) && UniqueIds(events) && Distinct(expected) && i < j < |expected|
    requires forall s :: s in expected ==> |Get(index.originals, s)| == 1
    requires InStep(index, expected, Folds(index, expected))
    ensures Folds(index, expected)[i].response != Folds(index, expected)[j].response
  {
    DistinctMeansPairwiseDifferent(expected);
    UniqueIdsOfSet(events);
    assert FoldSource(index, expected[i]) == Some(Folds(index, expected)[i]);
    assert FoldSource(index, expected[j]) == Some(Folds(index, expected)[j]);
    OriginalsCounted(events, index, expected[i]);
    OriginalsCounted(events, index, expected[j]);
    var e, f := Get(index.originals, expected[i])[0], Get(index.originals, expected[j])[0];
    assert IsOriginal(e, expected[i]) && IsOriginal(f, expected[j]);
  }

  lemma HeadIn<T>(s: seq<T>)
    ensures s == [] || s[0] in s
  {
  }

  lemma OnesCounted(index: Index, expected: seq<Id>, audit: Audit, peak: int)
    requires audit == Report(index, expected, peak)
    ensures audit.responses == |audit.expected| && audit.missing == [] && audit.duplicates == [] <==>
      forall s :: s in expected ==> |Get(index.originals, s)| == 1
  {
    if forall s :: s in expected ==> |Get(index.originals, s)| == 1 {
      OneResponseEach(index, expected);
      assert forall s :: s in audit.missing ==> s in expected;
      HeadIn(audit.missing);
      HeadIn(DuplicateSources(index, expected));
    }
    forall s | s in expected && |Get(index.originals, s)| != 1
      ensures s in audit.missing || s in DuplicateSources(index, expected)
    {
    }
  }

  lemma FoldsSettle(index: Index, expected: seq<Id>)
    ensures (forall f :: f in Folds(index, expected) ==> f.completions == 1 && f.status == Some(COMPLETED)) <==>
      forall s :: s in expected && |Get(index.originals, s)| == 1 ==>
        FoldSource(index, s).value.completions == 1 && FoldSource(index, s).value.status == Some(COMPLETED)
  {
    FoldsAreFolded(index, expected);
    forall s | s in expected && |Get(index.originals, s)| == 1
      ensures FoldSource(index, s).value in Folds(index, expected)
    {
      assert FoldSource(index, s) == Some(FoldSource(index, s).value);
    }
  }

  // ----- Corrupt -----

  ghost predicate Overcompleted(events: set<Event>, e: Event) {
    e in events && IsResponse(e) && CompletedTwice(events, e)
  }

  ghost predicate Wrong(events: set<Event>, expected: set<Id>) {
    || (exists s :: s in expected && TwoOriginals(events, s))
    || (exists e :: e in events && Faulty(events, expected, e))
    || (exists e :: Overcompleted(events, e))
  }

  lemma DuplicatesListed(events: seq<Event>, index: Index, expected: seq<Id>, audit: Audit, peak: int)
    requires Indexes(index, events) && UniqueIds(events) && audit == Report(index, expected, peak)
    ensures audit.duplicates != [] <==> exists s :: s in expected && TwoOriginals(Elements(events), s)
  {
    HeadIn(DuplicateSources(index, expected));
    forall s ensures s in DuplicateSources(index, expected) <==> s in expected && TwoOriginals(Elements(events), s) {
      OriginalsCounted(events, index, s);
    }
  }

  // A finding on duplicates names its source and the id of each of its responses.
  lemma DuplicatesNameResponses(events: seq<Event>, index: Index, expected: seq<Id>, audit: Audit, peak: int, i: nat)
    requires Indexes(index, events) && audit == Report(index, expected, peak) && i < |audit.duplicates|
    ensures var (source, ids) := audit.duplicates[i];
      && source in expected && |ids| > 1
      && forall id :: id in ids <==> exists e :: e in events && IsOriginal(e, source) && e.id == Some(id)
  {
    var source := DuplicateSources(index, expected)[i];
    assert source in DuplicateSources(index, expected);
    var originals := Get(index.originals, source);
    assert originals == Filed(Original, events, source);
    var ids := IdsOf(originals);
    forall id ensures id in multiset(ids) <==> exists e :: e in events && IsOriginal(e, source) && e.id == Some(id) {
      if id in multiset(ids) {
        var k :| 0 <= k < |ids| && ids[k] == id;
        assert originals[k] in originals;
      }
      if e :| e in events && IsOriginal(e, source) && e.id == Some(id) {
        var k :| 0 <= k < |originals| && originals[k] == e;
        assert ids[k] == id;
      }
    }
  }

  lemma RepeatsListed(events: seq<Event>, index: Index, expected: seq<Id>)
    requires Indexes(index, events) && UniqueIds(events)
    ensures (exists t :: t in Transitions(Folds(index, expected)) && t.1 > 1) <==>
      exists s, e :: s in expected && SoleOriginal(Elements(events), s, e) && CompletedTwice(Elements(events), e)
  {
    var folds := Folds(index, expected);
    TransitionsListed(folds);
    FoldsAreFolded(index, expected);
    if f :| f in folds && f.completions > 1 {
      var s :| s in expected && FoldSource(index, s) == Some(f);
      OriginalsCounted(events, index, s);
      var e := Get(index.originals, s)[0];
      var g := FoldMeans(events, index, s, e);
      assert SoleOriginal(Elements(events), s, e) && CompletedTwice(Elements(events), e);
    }
    if s, e :| s in expected && SoleOriginal(Elements(events), s, e) && CompletedTwice(Elements(events), e) {
      var f := FoldMeans(events, index, s, e);
      assert f in folds && f.completions > 1;
    }
  }

  // The harness fails at once exactly when something is wrong with the events themselves.
  lemma CorruptIff(events: seq<Event>, index: Index, expected: seq<Id>, peak: int)
    requires Indexes(index, events) && UniqueIds(events)
    ensures Corrupt(Report(index, expected, peak)) <==> Wrong(Elements(events), Elements(expected))
  {
    var audit, all, wanted := Report(index, expected, peak), Elements(events), Elements(expected);
    DuplicatesListed(events, index, expected, audit, peak);
    NothingFaulty(events, index, expected, audit, peak);
    RepeatsListed(events, index, expected);
    WrongInParts(all, wanted);
    assert forall s :: s in wanted <==> s in expected;
  }

  lemma WrongInParts(events: set<Event>, expected: set<Id>)
    ensures Wrong(events, expected) <==>
      || (exists s :: s in expected && TwoOriginals(events, s))
      || !(forall e :: e in events ==> !Faulty(events, expected, e))
      || (exists s, e :: s in expected && SoleOriginal(events, s, e) && CompletedTwice(events, e))
  {
    if e :| Overcompleted(events, e) {
      var s := e.relation.reply.value;
      assert IsOriginal(e, s) && (s in expected || Faulty(events, expected, e));
      assert SoleOriginal(events, s, e) || TwoOriginals(events, s);
    }
    if s, e :| s in expected && SoleOriginal(events, s, e) && CompletedTwice(events, e) {
      assert Overcompleted(events, e);
    }
  }
}

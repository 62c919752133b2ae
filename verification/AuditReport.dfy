// The audit as it runs, and the proof that its report means what AuditMeaning.dfy says.
module AuditReport {

  import opened Options
  import opened Sequences
  import opened Sorting
  import opened PeakStreams
  import opened ManagedStreams
  import opened ManagedAudit
  import opened AuditMeaning

  // ----- Lists -----

  // A sorted list keeps as many.
  lemma {:induction false} KeepCount<T(!new)>(p: T -> bool, s: seq<T>, x: T)
    ensures multiset(Keep(p, s))[x] == if p(x) then multiset(s)[x] else 0
  {
    if s != [] {
      KeepCount(p, s[..|s| - 1], x);
      assert s == s[..|s| - 1] + [s[|s| - 1]];
    }
  }

  lemma KeepShuffled<T(!new)>(p: T -> bool, s: seq<T>, r: seq<T>)
    requires multiset(s) == multiset(r)
    ensures multiset(Keep(p, s)) == multiset(Keep(p, r))
  {
    var kept, other := multiset(Keep(p, s)), multiset(Keep(p, r));
    forall x ensures kept[x] == other[x] {
      KeepCount(p, s, x);
      KeepCount(p, r, x);
    }
  }

  lemma {:induction false} FiledIsKept(role: Role, events: seq<Event>, key: Id)
    ensures Filed(role, events, key) == Keep(e => Plays(role, e, key), events)
  {
    if events != [] {
      FiledIsKept(role, events[..|events| - 1], key);
    }
  }

  // ----- Events -----

  lemma OriginalsAreAnswers(events: seq<Event>, source: Id)
    ensures Filed(Original, events, source) == AnswersTo(events, source)
  {
    FiledIsKept(Original, events, source);
    KeepSame(e => Plays(Original, e, source), e => Answers(e, source), events);
  }

  lemma EditsAreRevisions(events: seq<Event>, target: Id)
    ensures Filed(ValidEdit, events, target) == Keep(e => Revises(e, target), events)
  {
    FiledIsKept(ValidEdit, events, target);
    KeepSame(e => Plays(ValidEdit, e, target), e => Revises(e, target), events);
  }

  lemma StrayMeans(events: seq<Event>, e: Event)
    ensures InvalidReplacement(Elements(events), e) <==> Astray(events, e)
  {
    var all := Elements(events);
    forall target ensures target in ResponseIds(all) <==>
      exists a, source :: a in events && Answers(a, source) && a.id == Some(target)
    {
      if a, source :| a in events && Answers(a, source) && a.id == Some(target) {
        assert a in all && IsResponse(a);
      }
      if target in ResponseIds(all) {
        var a :| a in all && IsResponse(a) && a.id.value == target;
        assert Answers(a, a.relation.root.value);
      }
    }
    forall target ensures Revises(e, target) <==> ValidEditOf(e, target) {
    }
  }

  lemma CountsMean(events: seq<Event>, index: Index, expected: seq<Id>, peak: int)
    requires Indexes(index, events)
    ensures CountsRight(Report(index, expected, peak), events, expected)
  {
    var audit := Report(index, expected, peak);
    forall s
      ensures Get(index.originals, s) == AnswersTo(events, s)
      ensures s in index.originals <==> AnswersTo(events, s) != []
    {
      OriginalsAreAnswers(events, s);
    }
    KeepSame(s => Get(index.originals, s) == [], s => AnswersTo(events, s) == [], expected);
    ResponsesAreTallied(events, index, expected);
    forall e ensures e in audit.invalidReplacements <==> e in events && Astray(events, e) {
      StrayMeans(events, e);
    }
  }

  lemma {:induction false} ResponsesAreTallied(events: seq<Event>, index: Index, expected: seq<Id>)
    requires forall s :: Get(index.originals, s) == AnswersTo(events, s)
    ensures Responses(index, expected) == Tally(events, expected)
  {
    if expected != [] {
      ResponsesAreTallied(events, index, expected[..|expected| - 1]);
    }
  }

  lemma {:induction false} IdsCounted(events: seq<Event>, id: Id)
    requires forall e :: e in events ==> e.id.Some?
    ensures multiset(IdsOf(events))[id] == |Keep((e: Event) => e.id == Some(id), events)|
  {
    if events != [] {
      var init, last := events[..|events| - 1], events[|events| - 1];
      IdsCounted(init, id);
      assert IdsOf(events) == IdsOf(init) + [IdOf(last)];
      assert last in events;
    }
  }

  lemma DuplicatesMean(events: seq<Event>, index: Index, expected: seq<Id>, peak: int)
    requires forall s :: Get(index.originals, s) == AnswersTo(events, s)
    ensures DuplicatesRight(Report(index, expected, peak), events, expected)
  {
    var several := Keep(s => |AnswersTo(events, s)| > 1, expected);
    KeepSame(s => |Get(index.originals, s)| > 1, s => |AnswersTo(events, s)| > 1, expected);
    forall i, id | 0 <= i < |several|
      ensures multiset(IdsOf(Get(index.originals, several[i])))[id]
           == |Keep((e: Event) => e.id == Some(id), AnswersTo(events, several[i]))|
    {
      IdsCounted(AnswersTo(events, several[i]), id);
    }
  }

  // ----- Folds -----

  lemma FoldIsRight(events: seq<Event>, index: Index, source: Id)
    requires Indexes(index, events) && Get(index.originals, source) == AnswersTo(events, source)
    ensures FoldSource(index, source).Some? <==> |AnswersTo(events, source)| == 1
    ensures FoldSource(index, source).Some? ==> IsFoldOf(events, source, FoldSource(index, source).value)
  {
    if |AnswersTo(events, source)| == 1 {
      var answer := AnswersTo(events, source)[0];
      assert answer in AnswersTo(events, source);
      OneAnswer(events, index, source, answer, FoldSource(index, source).value);
    }
  }

  lemma OneAnswer(events: seq<Event>, index: Index, source: Id, answer: Event, f: Fold)
    requires Indexes(index, events) && Get(index.originals, source) == AnswersTo(events, source) == [answer]
    requires answer in events && Answers(answer, source) && FoldSource(index, source) == Some(f)
    ensures IsFoldOf(events, source, f)
  {
    var thread := ThreadOf(events, answer);
    ThreadIsOrdered(events, index, answer);
    FoldOfThread(index, answer, source, f, thread);
    var newest :| FoldsTo(f, source, answer, thread, newest);
    RightFold(events, source, answer, thread, newest, f);
  }

  // The fold in terms of its thread and newest event.
  ghost predicate FoldsTo(f: Fold, source: Id, answer: Event, thread: seq<Event>, newest: Event) {
    && IsNewest(thread, newest)
    && f.source == source && f.response == IdOf(answer) && f.started == answer.time
    && f.completions == |Keep(Completes, thread)| && f.status == StatusOf(newest)
    && f.finished == if f.completions == 1 then Keep(Completes, thread)[0].time else newest.time
  }

  lemma FoldOfThread(index: Index, answer: Event, source: Id, f: Fold, thread: seq<Event>)
    requires Get(index.originals, source) == [answer] && FoldSource(index, source) == Some(f)
    requires multiset(Ordered(index, answer)) == multiset(thread)
    ensures exists newest :: FoldsTo(f, source, answer, thread, newest)
  {
    var ordered := Ordered(index, answer);
    NewestIsLast(index, answer, thread);
    CompletionsOf(ordered, thread);
    assert FoldsTo(f, source, answer, thread, ordered[|ordered| - 1]);
  }

  lemma RightFold(
    events: seq<Event>, source: Id, answer: Event, thread: seq<Event>, newest: Event, f: Fold)
    requires AnswersTo(events, source) == [answer] && answer.id.Some? && thread == ThreadOf(events, answer)
    requires FoldsTo(f, source, answer, thread, newest)
    ensures IsFoldOf(events, source, f)
  {
    assert StatusOf(newest) == Shown(newest);
  }

  lemma CompletionsOf(ordered: seq<Event>, thread: seq<Event>)
    requires multiset(ordered) == multiset(thread)
    ensures |Keep(IsCompleted, ordered)| == |Keep(Completes, thread)|
    ensures |Keep(Completes, thread)| == 1 ==> Keep(IsCompleted, ordered)[0] == Keep(Completes, thread)[0]
  {
    KeepSame(IsCompleted, Completes, ordered);
    KeepShuffled(Completes, ordered, thread);
    SoleIsSame(Keep(Completes, ordered), Keep(Completes, thread));
  }

  lemma SoleIsSame<T>(s: seq<T>, r: seq<T>)
    requires multiset(s) == multiset(r)
    ensures |s| == |r| && (|s| == 1 ==> s[0] == r[0])
  {
    assert |multiset(s)| == |multiset(r)|;
    if |s| == 1 {
      assert r[0] in multiset(s);
    }
  }

  lemma ThreadIsOrdered(events: seq<Event>, index: Index, answer: Event)
    requires Indexes(index, events) && answer in events && IsResponse(answer)
    ensures multiset(Ordered(index, answer)) == multiset(ThreadOf(events, answer))
  {
    var all := Elements(events);
    assert answer in all && answer.id.value in ResponseIds(all);
    EditsAreRevisions(events, answer.id.value);
  }

  lemma NewestIsLast(index: Index, answer: Event, thread: seq<Event>)
    requires multiset(Ordered(index, answer)) == multiset(thread)
    ensures var ordered := Ordered(index, answer); IsNewest(thread, ordered[|ordered| - 1])
  {
    var ordered := Ordered(index, answer);
    var newest := ordered[|ordered| - 1];
    NotAfterRanks();
    SortedIsInOrder(NotAfter, [answer] + Get(index.edits, IdOf(answer)));
    assert newest in multiset(ordered);
    forall x | x in thread ensures !Precedes(newest, x) {
      assert x in multiset(ordered);
      var i :| 0 <= i < |ordered| && ordered[i] == x;
      EarlierIsTotal(StampOf(newest), StampOf(x));
      assert i == |ordered| - 1 || NotAfter(ordered[i], newest);
    }
  }

  lemma {:induction false} FoldsMean(events: seq<Event>, index: Index, expected: seq<Id>)
    requires Indexes(index, events) && forall s :: Get(index.originals, s) == AnswersTo(events, s)
    ensures FoldsRight(Folds(index, expected), events, expected)
  {
    if expected != [] {
      var init, last := expected[..|expected| - 1], expected[|expected| - 1];
      FoldsMean(events, index, init);
      FoldIsRight(events, index, last);
    }
  }

  lemma {:induction false} EndsMean(folds: seq<Fold>)
    ensures var odd := Keep((f: Fold) => f.completions != 1, folds);
      && |Transitions(folds)| == |odd|
      && forall i :: 0 <= i < |odd| ==> Transitions(folds)[i] == (odd[i].response, odd[i].completions)
    ensures var unfinished := Keep((f: Fold) => f.status != Some("completed"), folds);
      && |Noncompleted(folds)| == |unfinished|
      && forall i :: 0 <= i < |unfinished| ==> Noncompleted(folds)[i] == (unfinished[i].source, unfinished[i].status)
  {
    if folds != [] {
      EndsMean(folds[..|folds| - 1]);
    }
  }

  // ----- Times -----

  lemma {:induction false} ActiveCounts(folds: seq<Fold>, t: int)
    ensures Active(folds, t) == ActiveAt(folds, t)
  {
    if folds != [] {
      var init, last := folds[..|folds| - 1], folds[|folds| - 1];
      ActiveCounts(init, t);
      ActiveSnoc(init, last, t);
      assert folds == init + [last];
    }
  }

  lemma {:induction false} ActiveSnoc(init: seq<Fold>, last: Fold, t: int)
    ensures Active(init + [last], t) == Active(init, t) + if IsActive(last, t) then 1 else 0
  {
    var all := init + [last];
    if init == [] {
      assert all[1..] == [];
    } else {
      ActiveSnoc(init[1..], last, t);
      assert all[1..] == init[1..] + [last];
    }
  }

  lemma LengthsMean(folds: seq<Fold>)
    requires folds != []
    ensures Least(ShortestActive(folds), folds) && Greatest(LongestActive(folds), folds)
  {
    forall ms ensures Seconds(ms) == Length(ms) {
    }
  }

  lemma SharedMeans(folds: seq<Fold>)
    requires folds != []
    ensures Shared(FullOverlap(folds), folds)
  {
    var finish, start := FirstFinish(folds), LastStart(folds);
    var first :| first in folds && finish == first.finished;
    var last :| last in folds && start == last.started;
    assert Bounds(first, last, folds);
  }

  lemma PeakMeans(folds: seq<Fold>, peak: int)
    requires IsPeak(folds, peak)
    ensures (forall t :: ActiveAt(folds, t) <= peak) && exists t :: ActiveAt(folds, t) == peak
  {
    forall t ensures Active(folds, t) == ActiveAt(folds, t) {
      ActiveCounts(folds, t);
    }
    var t :| Active(folds, t) == peak;
    assert ActiveAt(folds, t) == peak;
  }

  lemma TimesMean(audit: Audit, folds: seq<Fold>)
    requires IsPeak(folds, audit.peak)
    requires audit.minActive == ShortestActive(folds) && audit.maxActive == LongestActive(folds)
    requires audit.overlap == FullOverlap(folds)
    ensures TimesRight(audit, folds)
  {
    PeakMeans(folds, audit.peak);
    if folds != [] {
      LengthsMean(folds);
      SharedMeans(folds);
    }
  }

  lemma EndsAre(audit: Audit, folds: seq<Fold>)
    requires audit.canonical == Canonical(folds)
    requires audit.transitions == Transitions(folds) && audit.noncompleted == Noncompleted(folds)
    ensures EndsRight(audit, folds)
  {
    EndsMean(folds);
  }

  lemma FoldsTold(audit: Audit, events: seq<Event>, index: Index, expected: seq<Id>)
    requires Indexes(index, events) && IsPeak(Folds(index, expected), audit.peak)
    requires forall s :: Get(index.originals, s) == AnswersTo(events, s)
    requires audit == Report(index, expected, audit.peak)
    ensures exists folds :: FoldsRight(folds, events, expected) && EndsRight(audit, folds) && TimesRight(audit, folds)
  {
    var folds := Folds(index, expected);
    FoldsMean(events, index, expected);
    EndsAre(audit, folds);
    TimesMean(audit, folds);
  }

  lemma ReportMeans(audit: Audit, events: seq<Event>, index: Index, expected: seq<Id>)
    requires Indexes(index, events) && IsPeak(Folds(index, expected), audit.peak)
    requires audit == Report(index, expected, audit.peak)
    ensures Means(audit, events, expected)
  {
    forall s ensures Get(index.originals, s) == AnswersTo(events, s) {
      OriginalsAreAnswers(events, s);
    }
    CountsMean(events, index, expected, audit.peak);
    DuplicatesMean(events, index, expected, audit.peak);
    FoldsTold(audit, events, index, expected);
  }

  method AuditManagedStreamEvents(events: seq<Event>, expected: seq<Id>) returns (audit: Audit)
    ensures IsAuditOf(audit, events, expected) && Means(audit, events, expected)
  {
    var index := IndexEvents(events);
    var peak := PeakManagedStreams(Folds(index, expected));
    audit := Report(index, expected, peak);
    ReportMeans(audit, events, index, expected);
  }
}

// The verdicts of the managed-stream audit, and what they say about the room.
module ManagedAudit {

  import opened Options
  import opened Sequences
  import opened Sorting
  import opened PeakStreams
  import opened ManagedStreams

  // ----- Folding one source -----

  function StatusOf(e: Event): Option<string> {
    match e.relation
    case Unrelated => None
    case Replaces(_, content) => ReplacementStatus(content)
    case InThread(_, _, status) => status
  }

  predicate IsCompleted(e: Event) {
    StatusOf(e) == Some(COMPLETED)
  }

  function IdOf(e: Event): Id {
    if e.id.Some? then e.id.value else ""
  }

  // _recovery_event_order
  function StampOf(e: Event): Stamp {
    Stamp(e.time, IdOf(e))
  }

  predicate NotAfter(a: Event, b: Event) {
    !Earlier(StampOf(b), StampOf(a))
  }

  lemma NotAfterRanks()
    ensures Ranks(NotAfter)
  {
    forall a, b ensures NotAfter(a, b) || NotAfter(b, a) {
      EarlierIsTotal(StampOf(a), StampOf(b));
    }
    forall a, b, c | NotAfter(a, b) && NotAfter(b, c) ensures NotAfter(a, c) {
      var x, y, z := StampOf(a), StampOf(b), StampOf(c);
      EarlierIsTotal(x, y);
      EarlierIsTotal(y, z);
      if Earlier(z, x) {
        if x == y || y == z {
        } else {
          EarlierIsTransitive(x, y, z);
          EarlierIsTotal(x, z);
        }
      }
    }
  }

  function Ordered(index: Index, original: Event): (r: seq<Event>)
    ensures r != []
  {
    var r := Sorted(NotAfter, [original] + Get(index.edits, IdOf(original)));
    SortedHasTheSame(NotAfter, [original] + Get(index.edits, IdOf(original)));
    r
  }

  // _fold_managed_stream_source
  function FoldSource(index: Index, source: Id): Option<Fold> {
    var originals := Get(index.originals, source);
    if |originals| != 1 then None
    else
      var original := originals[0];
      var ordered := Ordered(index, original);
      var completed := Keep(IsCompleted, ordered);
      var latest := ordered[|ordered| - 1];
      var terminal := if |completed| == 1 then completed[0] else latest;
      Some(Fold(source, IdOf(original), StatusOf(latest), |completed|, original.time, terminal.time))
  }

  // ----- The report -----

  function Folds(index: Index, expected: seq<Id>): seq<Fold> {
    if expected == [] then []
    else
      var last := FoldSource(index, expected[|expected| - 1]);
      Folds(index, expected[..|expected| - 1]) + if last.Some? then [last.value] else []
  }

  function Responses(index: Index, expected: seq<Id>): nat {
    if expected == [] then 0
    else Responses(index, expected[..|expected| - 1]) + |Get(index.originals, expected[|expected| - 1])|
  }

  function Canonical(folds: seq<Fold>): seq<(Id, Id)> {
    seq(|folds|, i requires 0 <= i < |folds| => (folds[i].source, folds[i].response))
  }

  function Transitions(folds: seq<Fold>): seq<(Id, nat)> {
    if folds == [] then []
    else
      var last := folds[|folds| - 1];
      Transitions(folds[..|folds| - 1]) + if last.completions != 1 then [(last.response, last.completions)] else []
  }

  function Noncompleted(folds: seq<Fold>): seq<(Id, Option<string>)> {
    if folds == [] then []
    else
      var last := folds[|folds| - 1];
      Noncompleted(folds[..|folds| - 1]) + if last.status != Some(COMPLETED) then [(last.source, last.status)] else []
  }

  function DuplicateSources(index: Index, expected: seq<Id>): seq<Id> {
    Keep(s => |Get(index.originals, s)| > 1, expected)
  }

  function IdsOf(events: seq<Event>): seq<Id> {
    seq(|events|, i requires 0 <= i < |events| => IdOf(events[i]))
  }

  // Each source that has several responses, with their ids.
  function Duplicates(index: Index, expected: seq<Id>): seq<(Id, multiset<Id>)> {
    var sources := DuplicateSources(index, expected);
    seq(|sources|, i requires 0 <= i < |sources| => (sources[i], multiset(IdsOf(Get(index.originals, sources[i])))))
  }

  // audit_managed_stream_events, but for the peak
  function Report(index: Index, expected: seq<Id>, peak: int): Audit {
    var folds := Folds(index, expected);
    Audit(
      expected,
      Canonical(folds),
      Responses(index, expected),
      Keep(s => Get(index.originals, s) == [], expected),
      Duplicates(index, expected),
      (set s | s in index.originals && s !in expected),
      index.invalidRelations, index.invalidReplacements,
      Transitions(folds), Noncompleted(folds),
      ShortestActive(folds), LongestActive(folds), FullOverlap(folds), peak)
  }

  // The report on the events, with the true peak.
  ghost predicate IsAuditOf(audit: Audit, events: seq<Event>, expected: seq<Id>) {
    exists index ::
      && Indexes(index, events) && IsPeak(Folds(index, expected), audit.peak)
      && audit == Report(index, expected, audit.peak)
  }

  // _managed_stream_terminal_ready
  predicate Ready(audit: Audit) {
    && audit.responses == |audit.expected|
    && audit.missing == [] && audit.duplicates == [] && audit.unexpected == {}
    && audit.invalidRelations == {} && audit.invalidReplacements == {}
    && audit.transitions == [] && audit.noncompleted == []
  }

  // _managed_stream_assert_no_terminal_corruption raises
  predicate Corrupt(audit: Audit) {
    || audit.duplicates != [] || audit.unexpected != {}
    || audit.invalidRelations != {} || audit.invalidReplacements != {}
    || (exists t :: t in audit.transitions && t.1 > 1)
  }

  // ----- What folding amounts to -----

  // No two events share an id.
  ghost predicate UniqueIds(events: seq<Event>) {
    forall i, j :: 0 <= i < j < |events| && events[i].id.Some? ==> events[i].id != events[j].id
  }

  lemma {:induction false} FiledAreDistinct(role: Role, events: seq<Event>, key: Id)
    requires UniqueIds(events)
    ensures Distinct(Filed(role, events, key))
  {
    if events != [] {
      var init, last := events[..|events| - 1], events[|events| - 1];
      FiledAreDistinct(role, init, key);
      if Plays(role, last, key) {
        assert forall i :: 0 <= i < |init| ==> events[i] == init[i];
        assert last !in init;
        DistinctSnoc(Filed(role, init, key), last);
      } else {
        assert Filed(role, events, key) == Filed(role, init, key);
      }
    }
  }

  // How many elements of a sequence without repetition have a property.
  lemma {:induction false} KeepCounts<T(!new)>(keep: T -> bool, s: seq<T>)
    requires Distinct(s)
    ensures |Keep(keep, s)| == 0 <==> forall x :: x in s ==> !keep(x)
    ensures |Keep(keep, s)| > 1 <==> exists x, y :: x in s && y in s && x != y && keep(x) && keep(y)
  {
    if s != [] {
      var init, last := s[..|s| - 1], s[|s| - 1];
      KeepCounts(keep, init);
      assert s == init + [last];
      if |Keep(keep, init)| > 0 {
        assert Keep(keep, init)[0] in Keep(keep, init);
      }
    }
  }

  // The original of a response and its valid edits.
  predicate InThreadOf(events: set<Event>, original: Event, e: Event) {
    e in events && (e == original || ValidEditOf(e, IdOf(original)))
  }

  lemma EditsFollow<T>(x: T, s: seq<T>)
    requires Distinct(s) && x !in s
    ensures Distinct([x] + s)
  {
    DistinctMeansPairwiseDifferent(s);
    DistinctMeansPairwiseDifferent([x] + s);
  }

  lemma OrderedElements(index: Index, original: Event)
    requires original !in Get(index.edits, IdOf(original)) && Distinct(Get(index.edits, IdOf(original)))
    ensures Distinct(Ordered(index, original)) && InOrder(NotAfter, Ordered(index, original))
    ensures forall e :: e in Ordered(index, original) <==> e == original || e in Get(index.edits, IdOf(original))
  {
    var edits := Get(index.edits, IdOf(original));
    EditsFollow(original, edits);
    SortedStaysDistinct(NotAfter, [original] + edits);
    SortedHasTheSame(NotAfter, [original] + edits);
    NotAfterRanks();
    SortedIsInOrder(NotAfter, [original] + edits);
  }

  lemma OrderedThread(events: seq<Event>, index: Index, original: Event)
    requires Indexes(index, events) && UniqueIds(events) && original in events && IsResponse(original)
    ensures Distinct(Ordered(index, original)) && InOrder(NotAfter, Ordered(index, original))
    ensures forall e :: e in Ordered(index, original) <==> InThreadOf(Elements(events), original, e)
  {
    assert IdOf(original) in ResponseIds(Elements(events));
    assert Get(index.edits, IdOf(original)) == Filed(ValidEdit, events, IdOf(original));
    FiledAreDistinct(ValidEdit, events, IdOf(original));
    OrderedElements(index, original);
  }

  lemma UniqueIdsOfSet(events: seq<Event>)
    requires UniqueIds(events)
    ensures UniqueEventIds(Elements(events))
  {
  }

  lemma LengthCounts<T>(s: seq<T>)
    requires Distinct(s)
    ensures |s| > 1 <==> exists x, y :: x in s && y in s && x != y
  {
    DistinctMeansPairwiseDifferent(s);
    if |s| > 1 {
      assert s[0] in s && s[1] in s && s[0] != s[1];
    }
  }

  ghost predicate SoleOriginal(events: set<Event>, source: Id, e: Event) {
    e in events && IsOriginal(e, source) && forall f :: f in events && IsOriginal(f, source) ==> f == e
  }

  ghost predicate TwoOriginals(events: set<Event>, source: Id) {
    exists e, f :: e in events && f in events && e != f && IsOriginal(e, source) && IsOriginal(f, source)
  }

  lemma OriginalsCounted(events: seq<Event>, index: Index, source: Id)
    requires Indexes(index, events) && UniqueIds(events)
    ensures |Get(index.originals, source)| > 1 <==> TwoOriginals(Elements(events), source)
    ensures |Get(index.originals, source)| == 1 <==> exists e :: SoleOriginal(Elements(events), source, e)
    ensures |Get(index.originals, source)| == 1 ==>
      SoleOriginal(Elements(events), source, Get(index.originals, source)[0])
  {
    var originals := Get(index.originals, source);
    assert originals == Filed(Original, events, source);
    assert forall e :: e in originals <==> e in events && IsOriginal(e, source);
    FiledAreDistinct(Original, events, source);
    LengthCounts(originals);
    if e :| SoleOriginal(Elements(events), source, e) {
      assert e in originals && forall x :: x in originals ==> x == e;
    }
    if |originals| == 1 {
      assert originals[0] in originals && forall x :: x in originals ==> x == originals[0];
      assert SoleOriginal(Elements(events), source, originals[0]);
    }
  }

  // c completed the response, alone and after everything else in its thread.
  ghost predicate Finishes(events: set<Event>, original: Event, c: Event) {
    && InThreadOf(events, original, c) && IsCompleted(c)
    && forall x :: InThreadOf(events, original, x) && x != c ==> !IsCompleted(x) && Earlier(StampOf(x), StampOf(c))
  }

  ghost predicate CompletedTwice(events: set<Event>, original: Event) {
    exists x, y :: InThreadOf(events, original, x) && InThreadOf(events, original, y) && x != y
      && IsCompleted(x) && IsCompleted(y)
  }

  // In order, all but the last come strictly before the last.
  lemma LastIsLatest(events: set<Event>, s: seq<Event>, x: Event)
    requires UniqueEventIds(events) && InOrder(NotAfter, s) && s != [] && x in s && x != s[|s| - 1]
    requires forall e :: e in s ==> e in events && e.id.Some?
    ensures Earlier(StampOf(x), StampOf(s[|s| - 1]))
  {
    var last := s[|s| - 1];
    var i :| 0 <= i < |s| && s[i] == x;
    assert NotAfter(x, last) && last in s;
    EarlierIsTotal(StampOf(x), StampOf(last));
  }

  lemma FoldMeans(events: seq<Event>, index: Index, source: Id, e: Event) returns (f: Fold)
    requires Indexes(index, events) && UniqueIds(events) && SoleOriginal(Elements(events), source, e)
    ensures FoldSource(index, source) == Some(f)
    ensures f.source == source && f.response == IdOf(e) && f.started == e.time
    ensures f.completions > 1 <==> CompletedTwice(Elements(events), e)
    ensures f.completions == 1 && f.status == Some(COMPLETED) <==> exists c :: Finishes(Elements(events), e, c)
    ensures f.completions == 1 && f.status == Some(COMPLETED) ==>
      f.finished >= f.started && exists c :: Finishes(Elements(events), e, c) && f.finished == c.time
  {
    OriginalsCounted(events, index, source);
    f := FoldSource(index, source).value;
    var all, ordered := Elements(events), Ordered(index, e);
    OrderedThread(events, index, e);
    KeepCounts(IsCompleted, ordered);
    UniqueIdsOfSet(events);
    FoldEnds(all, ordered, e, f);
  }

  lemma FoldEnds(all: set<Event>, ordered: seq<Event>, e: Event, f: Fold)
    requires UniqueEventIds(all) && IsResponse(e) && e in all
    requires ordered != [] && InOrder(NotAfter, ordered) && Distinct(ordered)
    requires forall x :: x in ordered <==> InThreadOf(all, e, x)
    requires f.completions == |Keep(IsCompleted, ordered)| && f.status == StatusOf(ordered[|ordered| - 1])
    requires f.finished ==
      (if f.completions == 1 then Keep(IsCompleted, ordered)[0] else ordered[|ordered| - 1]).time
    requires f.started == e.time
    ensures f.completions == 1 && f.status == Some(COMPLETED) <==> exists c :: Finishes(all, e, c)
    ensures f.completions == 1 && f.status == Some(COMPLETED) ==>
      f.finished >= f.started && exists c :: Finishes(all, e, c) && f.finished == c.time
  {
    var last := ordered[|ordered| - 1];
    assert last in ordered;
    if c :| Finishes(all, e, c) {
      FinishIsLast(all, ordered, e, c);
    }
    if f.completions == 1 && f.status == Some(COMPLETED) {
      LastFinishes(all, ordered, e);
      assert InThreadOf(all, e, e) && e in ordered;
    }
  }

  // Whatever completes the thread after all else is its last event, and its only completion.
  lemma FinishIsLast(all: set<Event>, ordered: seq<Event>, e: Event, c: Event)
    requires ordered != [] && InOrder(NotAfter, ordered) && Distinct(ordered)
    requires forall x :: x in ordered <==> InThreadOf(all, e, x)
    requires Finishes(all, e, c)
    ensures c == ordered[|ordered| - 1] && |Keep(IsCompleted, ordered)| == 1
  {
    var last := ordered[|ordered| - 1];
    assert last in ordered;
    var k :| 0 <= k < |ordered| && ordered[k] == c;
    assert k == |ordered| - 1 || NotAfter(c, last);
    KeepCounts(IsCompleted, ordered);
  }

  // A last event that is the only completion completes the thread after all else.
  lemma LastFinishes(all: set<Event>, ordered: seq<Event>, e: Event)
    requires UniqueEventIds(all) && IsResponse(e) && e in all && ordered != [] && InOrder(NotAfter, ordered)
    requires forall x :: x in ordered <==> InThreadOf(all, e, x)
    requires |Keep(IsCompleted, ordered)| == 1 && IsCompleted(ordered[|ordered| - 1])
    ensures Finishes(all, e, ordered[|ordered| - 1]) && Keep(IsCompleted, ordered) == [ordered[|ordered| - 1]]
  {
    var last, completed := ordered[|ordered| - 1], Keep(IsCompleted, ordered);
    assert last in ordered && last in completed;
    assert completed == [last];
    forall x | x in ordered && x != last ensures !IsCompleted(x) && Earlier(StampOf(x), StampOf(last)) {
      assert x !in completed;
      LastIsLatest(all, ordered, x);
    }
  }
}

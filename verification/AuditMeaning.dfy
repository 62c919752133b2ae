// What the audit's report says of the events it was given, field by field and in their own terms.
module AuditMeaning {

  import opened Options
  import opened Sequences
  import opened Sorting
  import opened PeakStreams
  import opened ManagedStreams

  // ----- Events -----

  // A thread reply of ours whose thread root is the message it replies to.
  predicate Answers(e: Event, source: Id) {
    && e.ours && e.id.Some? && e.relation.InThread?
    && e.relation.root == Some(source) && e.relation.reply == Some(source)
  }

  predicate Misplaced(e: Event) {
    && e.ours && e.id.Some? && e.relation.InThread?
    && (e.relation.root.None? || e.relation.reply.None? || e.relation.root != e.relation.reply)
  }

  // Replacement content counts when it has a body, a type and a status, and is text when it is final.
  predicate Usable(c: NewContent) {
    && c.hasBody && c.msgtype.Some? && c.status.Some?
    && (c.status == Some("completed") ==> c.msgtype == Some("m.text"))
  }

  predicate Revises(e: Event, target: Id) {
    e.ours && e.id.Some? && e.relation.Replaces? && e.relation.target == Some(target) && Usable(e.relation.content)
  }

  // A replacement of ours that revises no answer.
  ghost predicate Astray(events: seq<Event>, e: Event) {
    && e.ours && e.relation.Replaces?
    && !exists target ::
         Revises(e, target) && exists a, source :: a in events && Answers(a, source) && a.id == Some(target)
  }

  function Shown(e: Event): Option<string> {
    match e.relation
    case Unrelated => None
    case Replaces(_, content) => if Usable(content) then content.status else None
    case InThread(_, _, status) => status
  }

  predicate Completes(e: Event) {
    Shown(e) == Some("completed")
  }

  predicate Precedes(a: Event, b: Event) {
    || a.time < b.time
    || (a.time == b.time && TextLess(if a.id.Some? then a.id.value else "", if b.id.Some? then b.id.value else ""))
  }

  // ----- One source -----

  function AnswersTo(events: seq<Event>, source: Id): seq<Event> {
    Keep(e => Answers(e, source), events)
  }

  function ThreadOf(events: seq<Event>, answer: Event): seq<Event>
    requires answer.id.Some?
  {
    [answer] + Keep(e => Revises(e, answer.id.value), events)
  }

  // No event of the thread comes after it.
  ghost predicate IsNewest(thread: seq<Event>, e: Event) {
    e in thread && forall x :: x in thread ==> !Precedes(e, x)
  }

  // The fold of a source with one answer: how often the thread completes, what its newest event shows,
  // and from when to when it was active.
  ghost predicate IsFoldOf(events: seq<Event>, source: Id, f: Fold) {
    |AnswersTo(events, source)| == 1 && AnswersTo(events, source)[0].id.Some? &&
    var answer := AnswersTo(events, source)[0];
    var thread := ThreadOf(events, answer);
    var completed := Keep(Completes, thread);
    && f.source == source && Some(f.response) == answer.id && f.started == answer.time
    && f.completions == |completed|
    && exists newest :: IsNewest(thread, newest) && f.status == Shown(newest)
         && f.finished == if |completed| == 1 then completed[0].time else newest.time
  }

  // ----- The report -----

  function Tally(events: seq<Event>, expected: seq<Id>): nat {
    if expected == [] then 0
    else Tally(events, expected[..|expected| - 1]) + |AnswersTo(events, expected[|expected| - 1])|
  }

  // How long a stream lasted, in seconds, and never less than nothing.
  function Length(ms: int): real {
    if ms <= 0 then 0.0 else ms as real / 1000.0
  }

  ghost predicate CountsRight(audit: Audit, events: seq<Event>, expected: seq<Id>) {
    && audit.expected == expected
    && audit.missing == Keep(s => AnswersTo(events, s) == [], expected)
    && audit.responses == Tally(events, expected)
    && (forall s :: s in audit.unexpected <==> s !in expected && AnswersTo(events, s) != [])
    && (forall e :: e in audit.invalidRelations <==> e in events && Misplaced(e))
    && (forall e :: e in audit.invalidReplacements <==> e in events && Astray(events, e))
  }

  ghost predicate DuplicatesRight(audit: Audit, events: seq<Event>, expected: seq<Id>) {
    var several := Keep(s => |AnswersTo(events, s)| > 1, expected);
    && |audit.duplicates| == |several|
    && forall i, id :: 0 <= i < |several| ==>
         && audit.duplicates[i].0 == several[i]
         && audit.duplicates[i].1[id] == |Keep((e: Event) => e.id == Some(id), AnswersTo(events, several[i]))|
  }

  ghost predicate FoldsRight(folds: seq<Fold>, events: seq<Event>, expected: seq<Id>) {
    var single := Keep(s => |AnswersTo(events, s)| == 1, expected);
    |folds| == |single| && forall i :: 0 <= i < |single| ==> IsFoldOf(events, single[i], folds[i])
  }

  ghost predicate EndsRight(audit: Audit, folds: seq<Fold>) {
    var odd, unfinished :=
      Keep((f: Fold) => f.completions != 1, folds), Keep((f: Fold) => f.status != Some("completed"), folds);
    && |audit.canonical| == |folds|
    && (forall i :: 0 <= i < |folds| ==> audit.canonical[i] == (folds[i].source, folds[i].response))
    && |audit.transitions| == |odd|
    && (forall i :: 0 <= i < |odd| ==> audit.transitions[i] == (odd[i].response, odd[i].completions))
    && |audit.noncompleted| == |unfinished|
    && (forall i :: 0 <= i < |unfinished| ==> audit.noncompleted[i] == (unfinished[i].source, unfinished[i].status))
  }

  ghost predicate Least(value: real, folds: seq<Fold>) {
    && (exists f :: f in folds && value == Length(f.finished - f.started))
    && forall f :: f in folds ==> value <= Length(f.finished - f.started)
  }

  ghost predicate Greatest(value: real, folds: seq<Fold>) {
    && (exists f :: f in folds && value == Length(f.finished - f.started))
    && forall f :: f in folds ==> Length(f.finished - f.started) <= value
  }

  // From the last start to the first finish.
  ghost predicate Shared(value: real, folds: seq<Fold>) {
    exists first, last :: Bounds(first, last, folds) && value == Length(first.finished - last.started)
  }

  ghost predicate Bounds(first: Fold, last: Fold, folds: seq<Fold>) {
    && first in folds && last in folds
    && forall f :: f in folds ==> first.finished <= f.finished && f.started <= last.started
  }

  function ActiveAt(folds: seq<Fold>, t: int): nat {
    |Keep((f: Fold) => f.started <= t < f.finished, folds)|
  }

  ghost predicate TimesRight(audit: Audit, folds: seq<Fold>) {
    && (if folds == [] then audit.minActive == audit.maxActive == audit.overlap == 0.0
        else Least(audit.minActive, folds) && Greatest(audit.maxActive, folds) && Shared(audit.overlap, folds))
    && (forall t :: ActiveAt(folds, t) <= audit.peak) && (exists t :: ActiveAt(folds, t) == audit.peak)
  }

  ghost predicate Means(audit: Audit, events: seq<Event>, expected: seq<Id>) {
    && CountsRight(audit, events, expected) && DuplicatesRight(audit, events, expected)
    && exists folds :: FoldsRight(folds, events, expected) && EndsRight(audit, folds) && TimesRight(audit, folds)
  }
}

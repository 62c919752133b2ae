// When a verdict of corruption is final. The harness fails at once on corruption, as evidence
// that more events cannot repair; an edit that arrived before its response is the exception.
module AuditPermanence {

  import opened Options
  import opened ManagedStreams
  import opened ManagedAudit
  import opened AuditVerdicts

  // An edit that would do, had its response arrived.
  predicate Orphan(events: set<Event>, e: Event) {
    e in events && IsEdit(e) && !MalformedEdit(e) && e.relation.target.value !in ResponseIds(events)
  }

  function OrphanTargets(events: set<Event>): set<Id> {
    set e | e in events && Orphan(events, e) :: e.relation.target.value
  }

  function Ids(events: set<Event>): set<Id> {
    set e | e in events && e.id.Some? :: e.id.value
  }

  predicate Answered(events: set<Event>, source: Id) {
    exists e :: e in events && IsOriginal(e, source)
  }

  function Unanswered(events: set<Event>, expected: set<Id>): set<Id> {
    set s | s in expected && !Answered(events, s)
  }

  // Wrong in a way of its own, whatever else arrives.
  ghost predicate WrongForGood(events: set<Event>, expected: set<Id>) {
    || (exists s :: s in expected && TwoOriginals(events, s))
    || (exists e :: e in events && (Stray(expected, e) || BadRelation(e) || MalformedEdit(e)))
    || (exists e :: Overcompleted(events, e))
  }

  ghost predicate OrphansCollide(events: set<Event>) {
    || (exists t :: t in OrphanTargets(events) && t in Ids(events))
    || (exists x, y :: Orphan(events, x) && Orphan(events, y) && x != y
          && x.relation.target == y.relation.target && IsCompleted(x) && IsCompleted(y))
  }

  // What is wrong for good, and the orphans that no response can come to fit.
  ghost predicate Lasting(events: set<Event>, expected: set<Id>) {
    || WrongForGood(events, expected)
    || OrphansCollide(events)
    || |OrphanTargets(events)| > |Unanswered(events, expected)|
  }

  lemma WrongIsForGoodOrOrphan(events: set<Event>, expected: set<Id>)
    ensures Wrong(events, expected) <==> WrongForGood(events, expected) || exists e :: Orphan(events, e)
  {
    forall e | e in events
      ensures Faulty(events, expected, e) <==>
        Stray(expected, e) || BadRelation(e) || MalformedEdit(e) || Orphan(events, e)
    {
    }
  }

  lemma WrongForGoodStays(events: set<Event>, more: set<Event>, expected: set<Id>)
    requires events <= more && WrongForGood(events, expected)
    ensures WrongForGood(more, expected)
  {
    if s :| s in expected && TwoOriginals(events, s) {
      assert TwoOriginals(more, s);
    } else if e :| e in events && (Stray(expected, e) || BadRelation(e) || MalformedEdit(e)) {
      assert e in more;
    } else {
      var e :| Overcompleted(events, e);
      var x, y :| InThreadOf(events, e, x) && InThreadOf(events, e, y) && x != y && IsCompleted(x) && IsCompleted(y);
      assert InThreadOf(more, e, x) && InThreadOf(more, e, y);
      assert Overcompleted(more, e);
    }
  }

  // A verdict of corruption stays when no new event is the target of an edit already there.
  lemma CorruptionStays(events: set<Event>, more: set<Event>, expected: set<Id>)
    requires events <= more && Wrong(events, expected)
    requires forall d, e :: d in events && IsEdit(d) && e in more - events ==> e.id != d.relation.target
    ensures Wrong(more, expected)
  {
    WrongIsForGoodOrOrphan(events, expected);
    WrongIsForGoodOrOrphan(more, expected);
    if WrongForGood(events, expected) {
      WrongForGoodStays(events, more, expected);
    } else {
      var d :| Orphan(events, d);
      assert Orphan(more, d);
    }
  }

  // ----- The exact condition -----

  lemma {:induction false} InjectionBound(m: map<Id, Id>, range: set<Id>)
    requires forall a :: a in m ==> m[a] in range
    requires forall a, b :: a in m && b in m && m[a] == m[b] ==> a == b
    ensures |m.Keys| <= |range|
    decreases |m.Keys|
  {
    if m.Keys != {} {
      var a :| a in m;
      var rest := m - {a};
      assert rest.Keys == m.Keys - {a};
      InjectionBound(rest, range - {m[a]});
    }
  }

  lemma {:induction false} ChooseInjection(domain: set<Id>, range: set<Id>) returns (m: map<Id, Id>)
    requires |domain| <= |range|
    ensures m.Keys == domain
    ensures forall a :: a in m ==> m[a] in range
    ensures forall a, b :: a in m && b in m && m[a] == m[b] ==> a == b
    decreases |domain|
  {
    if domain == {} {
      m := map[];
    } else {
      var a :| a in domain;
      var b :| b in range;
      m := ChooseInjection(domain - {a}, range - {b});
      m := m[a := b];
    }
  }

  // The source that the response to an orphan answers, in a larger and sound set of events.
  ghost function AnswerTo(more: set<Event>, t: Id): (s: Id)
    requires t in ResponseIds(more)
    ensures exists e :: e in more && e.id == Some(t) && IsOriginal(e, s)
  {
    var e :| e in more && IsResponse(e) && e.id.value == t;
    e.relation.reply.value
  }

  lemma OrphansNeedSources(events: set<Event>, more: set<Event>, expected: set<Id>)
    requires events <= more && UniqueEventIds(more) && !Wrong(more, expected)
    ensures |OrphanTargets(events)| <= |Unanswered(events, expected)|
    ensures !OrphansCollide(events)
  {
    WrongIsForGoodOrOrphan(more, expected);
    var targets := OrphanTargets(events);
    forall t | t in targets ensures t in ResponseIds(more) && t !in ResponseIds(events) {
      var d :| d in events && Orphan(events, d) && d.relation.target.value == t;
      assert !Orphan(more, d);
    }
    var m := map t | t in targets :: AnswerTo(more, t);
    forall t | t in targets ensures m[t] in Unanswered(events, expected) {
      var e :| e in more && e.id == Some(t) && IsOriginal(e, m[t]);
      assert !Stray(expected, e);
      assert !TwoOriginals(more, m[t]);
      assert forall f :: f in events && IsOriginal(f, m[t]) ==> f == e;
    }
    forall a, b | a in targets && b in targets && m[a] == m[b] ensures a == b {
      var e :| e in more && e.id == Some(a) && IsOriginal(e, m[a]);
      var f :| f in more && f.id == Some(b) && IsOriginal(f, m[b]);
      assert !TwoOriginals(more, m[a]);
    }
    assert m.Keys == targets;
    InjectionBound(m, Unanswered(events, expected));
    OrphansFit(events, more, expected);
  }

  lemma OrphansFit(events: set<Event>, more: set<Event>, expected: set<Id>)
    requires events <= more && UniqueEventIds(more) && !Wrong(more, expected)
    requires forall t :: t in OrphanTargets(events) ==> t in ResponseIds(more) && t !in ResponseIds(events)
    ensures !OrphansCollide(events)
  {
    forall t | t in OrphanTargets(events) ensures t !in Ids(events) {
      var e :| e in more && IsResponse(e) && e.id.value == t;
      assert forall f :: f in events && f.id == Some(t) ==> f == e;
    }
    forall x, y | Orphan(events, x) && Orphan(events, y) && x != y && x.relation.target == y.relation.target
      ensures !(IsCompleted(x) && IsCompleted(y))
    {
      var t := x.relation.target.value;
      assert t in OrphanTargets(events);
      var e :| e in more && IsResponse(e) && e.id.value == t;
      assert InThreadOf(more, e, x) && InThreadOf(more, e, y);
      assert !Overcompleted(more, e);
    }
  }

  // A response that is still streaming.
  function Reply(t: Id, source: Id): Event {
    Event(Some(t), true, 0, InThread(Some(source), Some(source), None))
  }

  function Replies(m: map<Id, Id>): set<Event> {
    set t | t in m :: Reply(t, m[t])
  }

  // m gives each orphan's target a source of its own that has no response yet.
  ghost predicate Heals(events: set<Event>, expected: set<Id>, m: map<Id, Id>) {
    && m.Keys == OrphanTargets(events)
    && (forall t :: t in m ==> m[t] in Unanswered(events, expected))
    && (forall a, b :: a in m && b in m && m[a] == m[b] ==> a == b)
  }

  lemma HealedIds(events: set<Event>, expected: set<Id>, m: map<Id, Id>)
    requires UniqueEventIds(events) && Heals(events, expected, m) && !OrphansCollide(events)
    ensures UniqueEventIds(events + Replies(m))
  {
    forall r | r in Replies(m) ensures r.id.Some? && r.id.value in m && r == Reply(r.id.value, m[r.id.value]) {
    }
    forall r, e | r in Replies(m) && e in events && e.id.Some? ensures r.id != e.id {
      assert e.id.value in Ids(events);
    }
  }

  lemma HealedOriginals(events: set<Event>, expected: set<Id>, m: map<Id, Id>, s: Id)
    requires Heals(events, expected, m) && s in expected && !TwoOriginals(events, s)
    ensures !TwoOriginals(events + Replies(m), s)
  {
    var more := events + Replies(m);
    assert forall e :: e in Replies(m) && IsOriginal(e, s) ==> s in Unanswered(events, expected);
    assert forall f :: f in events && IsOriginal(f, s) ==> s !in Unanswered(events, expected);
    forall e, f | e in more && f in more && IsOriginal(e, s) && IsOriginal(f, s) ensures e == f {
    }
  }

  lemma HealedOrphans(events: set<Event>, expected: set<Id>, m: map<Id, Id>)
    requires Heals(events, expected, m)
    ensures forall e :: !Orphan(events + Replies(m), e)
  {
    var more := events + Replies(m);
    forall e | e in events && Orphan(events, e) ensures e.relation.target.value in ResponseIds(more) {
      var t := e.relation.target.value;
      assert t in OrphanTargets(events) && Reply(t, m[t]) in more && IsResponse(Reply(t, m[t]));
    }
    forall e | e in events && IsResponse(e) ensures e.id.value in ResponseIds(more) {
      assert e in more;
    }
  }

  lemma HealedThreads(events: set<Event>, expected: set<Id>, m: map<Id, Id>, e: Event)
    requires UniqueEventIds(events) && Heals(events, expected, m) && !OrphansCollide(events)
    requires !Overcompleted(events, e)
    ensures !Overcompleted(events + Replies(m), e)
  {
    var more := events + Replies(m);
    forall x, y | e in more && IsResponse(e) && InThreadOf(more, e, x) && InThreadOf(more, e, y) && x != y
      ensures !(IsCompleted(x) && IsCompleted(y))
    {
      assert x == e || x in events;
      assert y == e || y in events;
      if e in events {
        assert InThreadOf(events, e, x) && InThreadOf(events, e, y);
      } else {
        assert !IsCompleted(e);
        if x != e && y != e {
          assert e.id.value in OrphanTargets(events);
          var d :| d in events && Orphan(events, d) && d.relation.target.value == e.id.value;
          assert Orphan(events, x) && Orphan(events, y);
        }
      }
    }
  }

  lemma HealedIsSound(events: set<Event>, expected: set<Id>, m: map<Id, Id>)
    requires UniqueEventIds(events) && Heals(events, expected, m) && !Lasting(events, expected)
    ensures !Wrong(events + Replies(m), expected)
  {
    var more := events + Replies(m);
    WrongIsForGoodOrOrphan(more, expected);
    HealedOrphans(events, expected, m);
    forall s | s in expected ensures !TwoOriginals(more, s) {
      HealedOriginals(events, expected, m, s);
    }
    forall e ensures !Overcompleted(more, e) {
      HealedThreads(events, expected, m, e);
    }
    forall e | e in more ensures !(Stray(expected, e) || BadRelation(e) || MalformedEdit(e)) {
    }
  }

  // Events are wrong in every larger set of events exactly when they are wrong for good, or their
  // orphaned edits could not all be edits of responses still to come.
  lemma LastingIff(events: set<Event>, expected: set<Id>)
    requires UniqueEventIds(events)
    ensures (forall more :: events <= more && UniqueEventIds(more) ==> Wrong(more, expected)) <==>
      Lasting(events, expected)
  {
    if Lasting(events, expected) {
      forall more | events <= more && UniqueEventIds(more) ensures Wrong(more, expected) {
        LastingStays(events, more, expected);
      }
    } else {
      var m := ChooseInjection(OrphanTargets(events), Unanswered(events, expected));
      HealedIds(events, expected, m);
      HealedIsSound(events, expected, m);
    }
  }

  lemma LastingStays(events: set<Event>, more: set<Event>, expected: set<Id>)
    requires Lasting(events, expected) && events <= more && UniqueEventIds(more)
    ensures Wrong(more, expected)
  {
    if WrongForGood(events, expected) {
      WrongForGoodStays(events, more, expected);
      WrongIsForGoodOrOrphan(more, expected);
    } else if !Wrong(more, expected) {
      OrphansNeedSources(events, more, expected);
    }
  }

  // An edit that arrives before its response is reported as corruption, and the response repairs it.
  lemma CorruptionCanHeal()
    ensures var edit :=
        Event(Some("e"), true, 2, Replaces(Some("r"), NewContent(true, Some("m.text"), Some(COMPLETED))));
      && Wrong({edit}, {"s"})
      && !Wrong({edit, Reply("r", "s")}, {"s"})
  {
    var edit := Event(Some("e"), true, 2, Replaces(Some("r"), NewContent(true, Some("m.text"), Some(COMPLETED))));
    assert Orphan({edit}, edit);
    WrongIsForGoodOrOrphan({edit}, {"s"});
    var more := {edit, Reply("r", "s")};
    WrongIsForGoodOrOrphan(more, {"s"});
    assert Reply("r", "s") in more && IsResponse(Reply("r", "s")) && "r" in ResponseIds(more);
    assert ReplacementStatus(edit.relation.content) == Some(COMPLETED);
  }
}

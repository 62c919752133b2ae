// The audit of managed streams: raw room events are indexed, each expected source's response is
// folded with its edits, and the report says whether all is well, not yet, or never.
module ManagedStreams {

  import opened Options
  import opened Sequences
  import opened Sorting
  import opened PeakStreams

  type Id = string

  datatype NewContent = NewContent(hasBody: bool, msgtype: Option<string>, status: Option<string>)

  // The relation of an event, as far as it is well-formed.
  datatype Relation =
    | Unrelated
    | Replaces(target: Option<Id>, content: NewContent)
    | InThread(root: Option<Id>, reply: Option<Id>, status: Option<string>)

  // `ours` marks room messages by the responder; a missing timestamp counts as 0.
  datatype Event = Event(id: Option<Id>, ours: bool, time: int, relation: Relation)

  // ManagedStreamTerminalAudit
  datatype Audit = Audit(
    expected: seq<Id>, canonical: seq<(Id, Id)>, responses: nat, missing: seq<Id>,
    duplicates: seq<(Id, multiset<Id>)>, unexpected: set<Id>,
    invalidRelations: set<Event>, invalidReplacements: set<Event>,
    transitions: seq<(Id, nat)>, noncompleted: seq<(Id, Option<string>)>,
    minActive: real, maxActive: real, overlap: real, peak: int)

  const COMPLETED := "completed"

  // _recovery_replacement_status
  function ReplacementStatus(c: NewContent): Option<string> {
    if !c.hasBody || c.msgtype.None? || c.status.None? then None
    else if c.status == Some(COMPLETED) && c.msgtype != Some("m.text") then None
    else c.status
  }

  // ----- What an event is to the audit -----

  predicate IsThreadReply(e: Event) {
    e.ours && e.id.Some? && e.relation.InThread?
  }

  predicate IsResponse(e: Event) {
    IsThreadReply(e) && e.relation.root.Some? && e.relation.root == e.relation.reply
  }

  predicate IsOriginal(e: Event, source: Id) {
    IsResponse(e) && e.relation.reply == Some(source)
  }

  predicate IsEdit(e: Event) {
    e.ours && e.id.Some? && e.relation.Replaces? && e.relation.target.Some?
  }

  predicate IsEditOf(e: Event, target: Id) {
    IsEdit(e) && e.relation.target == Some(target)
  }

  predicate BadRelation(e: Event) {
    IsThreadReply(e) && !IsResponse(e)
  }

  // A replacement that no original could make good.
  predicate MalformedEdit(e: Event) {
    e.ours && e.relation.Replaces? && (!IsEdit(e) || ReplacementStatus(e.relation.content).None?)
  }

  predicate ValidEditOf(e: Event, target: Id) {
    IsEditOf(e, target) && ReplacementStatus(e.relation.content).Some?
  }

  ghost predicate UniqueEventIds(events: set<Event>) {
    forall e, f :: e in events && f in events && e.id.Some? && e.id == f.id ==> e == f
  }

  function ResponseIds(events: set<Event>): set<Id> {
    set e | e in events && IsResponse(e) :: e.id.value
  }

  predicate InvalidReplacement(events: set<Event>, e: Event) {
    MalformedEdit(e) || (IsEdit(e) && e.relation.target.value !in ResponseIds(events))
  }

  // ----- The index -----

  datatype Index = Index(
    originals: map<Id, seq<Event>>, edits: map<Id, seq<Event>>,
    invalidRelations: set<Event>, invalidReplacements: set<Event>)

  function Get(table: map<Id, seq<Event>>, key: Id): seq<Event> {
    if key in table then table[key] else []
  }

  // originals[source].append(event), on a defaultdict(list)
  function Append(table: map<Id, seq<Event>>, key: Id, e: Event): map<Id, seq<Event>> {
    table[key := Get(table, key) + [e]]
  }

  datatype Role = Original | Candidate | ValidEdit

  predicate Plays(role: Role, e: Event, key: Id) {
    match role
    case Original => IsOriginal(e, key)
    case Candidate => IsEditOf(e, key)
    case ValidEdit => ValidEditOf(e, key)
  }

  // The events with that role towards the key, in their order.
  function Filed(role: Role, events: seq<Event>, key: Id): (r: seq<Event>)
    ensures forall e :: e in r <==> e in events && Plays(role, e, key)
  {
    if events == [] then []
    else
      var last := events[|events| - 1];
      Filed(role, events[..|events| - 1], key) + if Plays(role, last, key) then [last] else []
  }

  // A table that files every event of the role under its key.
  ghost predicate Files(role: Role, table: map<Id, seq<Event>>, events: seq<Event>) {
    && (forall key :: Get(table, key) == Filed(role, events, key))
    && (forall key :: key in table ==> table[key] != [])
  }

  lemma FilesMore(role: Role, table: map<Id, seq<Event>>, events: seq<Event>, e: Event)
    requires Files(role, table, events)
    ensures forall key :: Plays(role, e, key) ==> Files(role, Append(table, key, e), events + [e])
    ensures (forall key :: !Plays(role, e, key)) ==> Files(role, table, events + [e])
  {
    SnocPrefix(events, e);
    forall key | Plays(role, e, key) ensures Files(role, Append(table, key, e), events + [e]) {
      forall k ensures Get(Append(table, key, e), k) == Filed(role, events + [e], k) {
      }
    }
  }

  // What the index says about the events, whatever way it was built.
  ghost predicate Indexes(index: Index, events: seq<Event>) {
    var all := Elements(events);
    && Files(Original, index.originals, events)
    && (forall key :: Get(index.edits, key) == if key in ResponseIds(all) then Filed(ValidEdit, events, key) else [])
    && index.invalidRelations == (set e | e in events && BadRelation(e))
    && index.invalidReplacements == (set e | e in events && InvalidReplacement(all, e))
  }

  // ----- Building it -----

  predicate HasStatus(e: Event) {
    e.relation.Replaces? && ReplacementStatus(e.relation.content).Some?
  }

  lemma {:induction false} ValidCandidates(events: seq<Event>, key: Id)
    ensures Keep(HasStatus, Filed(Candidate, events, key)) == Filed(ValidEdit, events, key)
  {
    if events != [] {
      var init, last := events[..|events| - 1], events[|events| - 1];
      ValidCandidates(init, key);
      if Plays(Candidate, last, key) {
        SnocPrefix(Filed(Candidate, init, key), last);
        assert Filed(Candidate, events, key) == Filed(Candidate, init, key) + [last];
      } else {
        assert Filed(Candidate, events, key) == Filed(Candidate, init, key);
        assert Filed(ValidEdit, events, key) == Filed(ValidEdit, init, key);
      }
    }
  }

  function FiledIds(table: map<Id, seq<Event>>): set<Id> {
    set key, e | key in table && e in table[key] && e.id.Some? :: e.id.value
  }

  lemma FiledIdsAreResponses(originals: map<Id, seq<Event>>, events: seq<Event>)
    requires Files(Original, originals, events)
    ensures FiledIds(originals) == ResponseIds(Elements(events))
  {
    forall key, e | key in originals && e in originals[key] ensures e in events && IsResponse(e) {
      assert e in Get(originals, key);
    }
    forall e | e in events && IsResponse(e) ensures e.id.value in FiledIds(originals) {
      var key := e.relation.reply.value;
      assert e in Get(originals, key);
    }
  }

  ghost predicate Targeted(candidates: map<Id, seq<Event>>) {
    forall key, e :: key in candidates && e in candidates[key] ==> IsEditOf(e, key)
  }

  ghost predicate Refused(candidates: map<Id, seq<Event>>, responses: set<Id>, e: Event) {
    && IsEdit(e) && e in Get(candidates, e.relation.target.value)
    && (e.relation.target.value !in responses || !HasStatus(e))
  }

  // The candidates outside `rest` are sorted out.
  ghost predicate Sifted(
    candidates: map<Id, seq<Event>>, responses: set<Id>, edits: map<Id, seq<Event>>, invalid: set<Event>, rest: set<Id>)
  {
    && (forall key :: Get(edits, key)
          == if key in responses && key !in rest then Keep(HasStatus, Get(candidates, key)) else [])
    && (forall e :: e in invalid <==> Refused(candidates, responses, e) && e.relation.target.value !in rest)
  }

  lemma SiftOne(
    candidates: map<Id, seq<Event>>, responses: set<Id>, edits: map<Id, seq<Event>>, invalid: set<Event>, rest: set<Id>,
    target: Id, valid: seq<Event>, bad: set<Event>)
    requires Targeted(candidates) && Sifted(candidates, responses, edits, invalid, rest)
    requires target in rest && target in candidates
    requires valid == if target in responses then Keep(HasStatus, candidates[target]) else []
    requires forall e :: e in bad <==> e in candidates[target] && (target !in responses || !HasStatus(e))
    ensures Sifted(candidates, responses, if valid == [] then edits else edits[target := valid], invalid + bad,
                   rest - {target})
  {
    forall e ensures e in bad <==> Refused(candidates, responses, e) && e.relation.target.value == target {
    }
  }

  // _validated_recovery_replacements
  method ValidatedReplacements(originals: map<Id, seq<Event>>, candidates: map<Id, seq<Event>>)
    returns (edits: map<Id, seq<Event>>, invalid: set<Event>)
    requires Targeted(candidates)
    ensures Sifted(candidates, FiledIds(originals), edits, invalid, {})
  {
    var responses := FiledIds(originals);
    edits, invalid := map[], {};
    var rest := candidates.Keys;
    while rest != {}
      invariant rest <= candidates.Keys
      invariant Sifted(candidates, responses, edits, invalid, rest)
      decreases |rest|
    {
      var target :| target in rest;
      var valid, bad := SplitEdits(target in responses, candidates[target]);
      SiftOne(candidates, responses, edits, invalid, rest, target, valid, bad);
      edits, invalid, rest := if valid == [] then edits else edits[target := valid], invalid + bad, rest - {target};
    }
  }

  method SplitEdits(answered: bool, edits: seq<Event>) returns (valid: seq<Event>, bad: set<Event>)
    ensures valid == if answered then Keep(HasStatus, edits) else []
    ensures forall e :: e in bad <==> e in edits && (!answered || !HasStatus(e))
  {
    valid, bad := [], {};
    for i := 0 to |edits|
      invariant valid == if answered then Keep(HasStatus, edits[..i]) else []
      invariant forall e :: e in bad <==> e in edits[..i] && (!answered || !HasStatus(e))
    {
      PrefixStep(edits, i);
      if !answered || !HasStatus(edits[i]) {
        bad := bad + {edits[i]};
      } else {
        valid := valid + [edits[i]];
      }
    }
    assert edits[..|edits|] == edits;
  }

  // _index_managed_stream_events
  method IndexEvents(events: seq<Event>) returns (index: Index)
    ensures Indexes(index, events)
  {
    var originals, candidates: map<Id, seq<Event>>, relations, replacements: set<Event> := map[], map[], {}, {};
    for i := 0 to |events|
      invariant Files(Original, originals, events[..i]) && Files(Candidate, candidates, events[..i])
      invariant relations == set e | e in events[..i] && BadRelation(e)
      invariant replacements == set e | e in events[..i] && e.ours && e.relation.Replaces? && !IsEdit(e)
    {
      var e := events[i];
      PrefixStep(events, i);
      FilesMore(Original, originals, events[..i], e);
      FilesMore(Candidate, candidates, events[..i], e);
      if IsEdit(e) {
        assert Plays(Candidate, e, e.relation.target.value);
        candidates := Append(candidates, e.relation.target.value, e);
      } else if e.ours && e.relation.Replaces? {
        replacements := replacements + {e};
      } else if IsResponse(e) {
        assert Plays(Original, e, e.relation.reply.value);
        originals := Append(originals, e.relation.reply.value, e);
      } else if IsThreadReply(e) {
        relations := relations + {e};
      }
    }
    assert events[..|events|] == events;
    assert forall key :: key in candidates ==> candidates[key] == Get(candidates, key);
    var edits, invalid := ValidatedReplacements(originals, candidates);
    index := Index(originals, edits, relations, replacements + invalid);
    IndexIsRight(events, originals, candidates, edits, invalid, relations, replacements);
  }

  lemma IndexIsRight(
    events: seq<Event>, originals: map<Id, seq<Event>>, candidates: map<Id, seq<Event>>,
    edits: map<Id, seq<Event>>, invalid: set<Event>, relations: set<Event>, replacements: set<Event>)
    requires Files(Original, originals, events) && Files(Candidate, candidates, events)
    requires relations == set e | e in events && BadRelation(e)
    requires replacements == set e | e in events && e.ours && e.relation.Replaces? && !IsEdit(e)
    requires Sifted(candidates, FiledIds(originals), edits, invalid, {})
    ensures Indexes(Index(originals, edits, relations, replacements + invalid), events)
  {
    var all := Elements(events);
    FiledIdsAreResponses(originals, events);
    forall key ensures Get(edits, key) == if key in ResponseIds(all) then Filed(ValidEdit, events, key) else [] {
      ValidCandidates(events, key);
    }
    forall e ensures e in replacements + invalid <==> e in events && InvalidReplacement(all, e) {
      if IsEdit(e) {
        var key := e.relation.target.value;
        assert e in Get(candidates, key) <==> e in events;
      }
    }
  }
}

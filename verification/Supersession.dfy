// Supersession proofs: which interrupted sources a later, completed source of the same
// requester in the same thread stands in for. Links are found newest first, then pruned.
module Supersession {

  import opened Options

  // Event, room, thread and user ids; only their equality matters.
  type Id = nat

  datatype Record = Record(completed: bool, owned: seq<Id>, anchor: Id, response: Option<Id>, cleaning: bool)

  datatype Source = Source(room: Id, sender: Id, timestamp: int, settled: bool)

  // A pending delivery without a thread is for the room.
  datatype Delivery = Delivery(room: Id, thread: Option<Id>, id: Id, edits: Option<Id>)

  datatype Decision = Decision(newer: Id, thread: Option<Id>)

  // What durable storage and the rooms show. The sets stand for checks of wire facts: rows that
  // match their event, sources with a pending edit, sources nobody answered, sources whose answer
  // ends in the restart note, sources whose completed answer consumed the current text.
  datatype World = World(
    records: map<Id, Record>, sources: map<Id, Source>, roots: map<Id, Id>, deliveries: seq<Delivery>,
    matching: set<Id>, editing: set<Id>, unanswered: set<Id>, interrupted: set<Id>, answered: set<Id>)

  datatype Proof = Proof(
    source: Id, newer: Id, anchor: Id, anchorResponse: Id, interrupted: Option<Id>,
    room: Id, thread: Id, requester: Id)

  // ----- One link -----

  predicate Blocks(w: World, source: Id, newer: Id, d: Delivery)
    requires source in w.sources && source in w.roots
  {
    || (d.room == w.sources[source].room && (d.thread.None? || d.thread == Some(w.roots[source])))
    || (exists e :: e in {source, newer} && (d.id == e || (e in w.records && d.id == w.records[e].anchor)))
    || (exists e :: e in {source, newer} && e in w.records && w.records[e].response.Some?
          && d.edits == w.records[e].response)
  }

  // _supersession_source_pair, which also names the shared thread root
  predicate IsPair(w: World, source: Id, newer: Id) {
    && source in w.sources && newer in w.sources
    && w.sources[source].settled && w.sources[newer].settled
    && source in w.roots && newer in w.roots && w.roots[source] == w.roots[newer]
    && w.sources[source].room == w.sources[newer].room
    && w.sources[source].sender == w.sources[newer].sender
    && w.sources[source].timestamp < w.sources[newer].timestamp
    && (forall d :: d in w.deliveries ==> !Blocks(w, source, newer, d))
    && source in w.matching && newer in w.matching
    && source !in w.editing && newer !in w.editing
  }

  // _completed_supersession_anchor: the response that completed the source
  function CompletedAnchor(w: World, source: Id): Option<Id> {
    if source in w.records
       && w.records[source].completed && source in w.records[source].owned && !w.records[source].cleaning
       && source in w.answered
    then w.records[source].response else None
  }

  predicate Interrupted(w: World, source: Id) {
    && (source in w.records ==> !w.records[source].completed && source in w.records[source].owned)
    && (if source in w.records && w.records[source].response.Some? then source in w.interrupted
        else source in w.unanswered)
  }

  // _prove_supersession
  function Link(w: World, proofs: map<Id, Proof>, source: Id, newer: Id): Option<Proof> {
    if !IsPair(w, source, newer) || !Interrupted(w, source) then None
    else
      var row := w.sources[source];
      var prior := if source in w.records then w.records[source].response else None;
      var done := CompletedAnchor(w, newer);
      if done.Some? then Some(Proof(source, newer, newer, done.value, prior, row.room, w.roots[source], row.sender))
      else if newer in proofs then
        Some(Proof(source, newer, proofs[newer].anchor, proofs[newer].anchorResponse, prior,
                   row.room, w.roots[source], row.sender))
      else None
  }

  // The link a decision proves, for a source followed in its chain by `later`.
  function Decided(w: World, proofs: map<Id, Proof>, source: Id, later: seq<Id>, d: Decision): Option<Proof> {
    var p := if d.newer in later then Link(w, proofs, source, d.newer) else None;
    if p.Some? && (d.thread.None? || d.thread == Some(p.value.thread)) then p else None
  }

  // The last decision that proves a link is the one that counts.
  function Latest(w: World, proofs: map<Id, Proof>, source: Id, later: seq<Id>, ds: seq<Decision>): Option<Proof> {
    if ds == [] then None
    else
      var p := Decided(w, proofs, source, later, ds[|ds| - 1]);
      if p.Some? then p else Latest(w, proofs, source, later, ds[..|ds| - 1])
  }

  lemma {:induction false} LatestReadsLater(
    w: World, proofs: map<Id, Proof>, proofs': map<Id, Proof>, source: Id, later: seq<Id>, ds: seq<Decision>)
    requires forall x :: x in later ==> (x in proofs <==> x in proofs') && (x in proofs ==> proofs[x] == proofs'[x])
    ensures Latest(w, proofs, source, later, ds) == Latest(w, proofs', source, later, ds)
  {
    if ds != [] {
      LatestReadsLater(w, proofs, proofs', source, later, ds[..|ds| - 1]);
    }
  }

  // ----- What the links mean -----

  // The two sources belong to one requester in one thread of one room, one before the other.
  ghost predicate Forward(w: World, source: Id, newer: Id) {
    && source in w.sources && newer in w.sources && source in w.roots && newer in w.roots
    && w.sources[source].room == w.sources[newer].room
    && w.sources[source].sender == w.sources[newer].sender
    && w.roots[source] == w.roots[newer]
    && w.sources[source].timestamp < w.sources[newer].timestamp
  }

  ghost predicate Linked(w: World, proofs: map<Id, Proof>, source: Id, p: Proof) {
    && p.source == source
    && Forward(w, source, p.newer) && Forward(w, source, p.anchor)
    && p.room == w.sources[source].room && p.thread == w.roots[source] && p.requester == w.sources[source].sender
    && Interrupted(w, source)
    && CompletedAnchor(w, p.anchor) == Some(p.anchorResponse)
    && (p.newer != p.anchor ==>
          p.newer in proofs && proofs[p.newer].anchor == p.anchor
          && proofs[p.newer].anchorResponse == p.anchorResponse)
  }

  // Proofs in the order they were entered: each depends on earlier ones only.
  ghost predicate WellFounded(w: World, order: seq<Id>, proofs: map<Id, Proof>) {
    && (forall s :: s in proofs <==> s in order)
    && (forall i, j :: 0 <= i < j < |order| ==> order[i] != order[j])
    && (forall i :: 0 <= i < |order| ==> Linked(w, proofs, order[i], proofs[order[i]]))
    && (forall i :: 0 <= i < |order| && proofs[order[i]].newer != proofs[order[i]].anchor ==>
          proofs[order[i]].newer in order[..i])
  }

  lemma LinkIsSound(w: World, order: seq<Id>, proofs: map<Id, Proof>, source: Id, newer: Id)
    requires WellFounded(w, order, proofs) && source !in proofs && Link(w, proofs, source, newer).Some?
    ensures var p := Link(w, proofs, source, newer).value;
      Linked(w, proofs, source, p) && p.newer == newer && (p.newer != p.anchor ==> p.newer in order)
  {
    var p := Link(w, proofs, source, newer).value;
    if newer in proofs {
      var i :| 0 <= i < |order| && order[i] == newer;
      assert Linked(w, proofs, newer, proofs[newer]);
    }
  }

  lemma EnterProof(w: World, order: seq<Id>, proofs: map<Id, Proof>, source: Id, p: Proof)
    requires WellFounded(w, order, proofs) && source !in proofs
    requires Linked(w, proofs, source, p) && (p.newer != p.anchor ==> p.newer in order)
    ensures WellFounded(w, order + [source], proofs[source := p])
  {
    var order', proofs' := order + [source], proofs[source := p];
    forall i | 0 <= i < |order'|
      ensures Linked(w, proofs', order'[i], proofs'[order'[i]])
      ensures proofs'[order'[i]].newer != proofs'[order'[i]].anchor ==> proofs'[order'[i]].newer in order'[..i]
    {
      if i < |order| {
        assert order'[..i] == order[..i] && order'[i] == order[i] && order[i] in proofs;
        assert Linked(w, proofs, order[i], proofs[order[i]]);
      } else {
        assert order'[..i] == order;
      }
    }
  }

  // ----- Chains, and what survives -----

  // Each source expected once, in the chain of its client and thread.
  ghost predicate ExpectedOnce(chains: seq<seq<Id>>) {
    forall c, i, d, j ::
      0 <= c < |chains| && 0 <= i < |chains[c]| && 0 <= d < |chains| && 0 <= j < |chains[d]| ==>
        chains[c][i] == chains[d][j] ==> c == d && i == j
  }

  function Observed(decisions: map<Id, seq<Decision>>, source: Id): seq<Decision> {
    if source in decisions then decisions[source] else []
  }

  // The proof a position of a chain gets, given all proofs.
  ghost predicate Judged(
    w: World, decisions: map<Id, seq<Decision>>, chain: seq<Id>, proofs: map<Id, Proof>, i: nat)
    requires i < |chain|
  {
    Latest(w, proofs, chain[i], chain[i + 1..], Observed(decisions, chain[i]))
      == if chain[i] in proofs then Some(proofs[chain[i]]) else None
  }

  // A path of links, through proofs only, that ends next to its anchor.
  ghost predicate ChainTo(proofs: map<Id, Proof>, path: seq<Id>) {
    && path != []
    && (forall i :: 0 <= i < |path| ==> path[i] in proofs)
    && (forall i :: 0 <= i < |path| - 1 ==>
          proofs[path[i]].newer == path[i + 1] && proofs[path[i]].newer != proofs[path[i]].anchor)
    && proofs[path[|path| - 1]].newer == proofs[path[|path| - 1]].anchor
  }

  ghost predicate Grounded(proofs: map<Id, Proof>, source: Id) {
    exists path :: ChainTo(proofs, path) && path[0] == source
  }

  lemma GroundedStep(proofs: map<Id, Proof>, source: Id)
    requires source in proofs
    ensures var p := proofs[source];
      Grounded(proofs, source) <==> p.newer == p.anchor || (p.newer in proofs && Grounded(proofs, p.newer))
  {
    var p := proofs[source];
    if p.newer == p.anchor {
      assert ChainTo(proofs, [source]);
    } else {
      if Grounded(proofs, source) {
        var path :| ChainTo(proofs, path) && path[0] == source;
        assert |path| > 1;
        var rest := path[1..];
        assert forall i :: 0 <= i < |rest| ==> rest[i] == path[i + 1];
        assert ChainTo(proofs, rest) && rest[0] == p.newer;
      }
      if p.newer in proofs && Grounded(proofs, p.newer) {
        var rest :| ChainTo(proofs, rest) && rest[0] == p.newer;
        var path := [source] + rest;
        assert forall i :: 0 < i < |path| ==> path[i] == rest[i - 1];
        assert ChainTo(proofs, path) && path[0] == source;
      }
    }
  }

  // Along a path the sources get later, stay with their requester, and share one completed anchor.
  lemma {:induction false} PathsLeadForward(
    w: World, order: seq<Id>, proofs: map<Id, Proof>, kept: map<Id, Proof>, path: seq<Id>)
    requires WellFounded(w, order, proofs) && ChainTo(kept, path)
    requires forall s :: s in kept ==> s in proofs && kept[s] == proofs[s]
    ensures var anchor := kept[path[0]].anchor;
      && kept[path[|path| - 1]].newer == anchor
      && CompletedAnchor(w, anchor) == Some(kept[path[0]].anchorResponse)
      && (forall i :: 0 <= i < |path| ==> kept[path[i]].anchor == anchor && Forward(w, path[i], anchor))
      && (forall i, j :: 0 <= i < j < |path| ==> Forward(w, path[i], path[j]))
  {
    var i :| 0 <= i < |order| && order[i] == path[0];
    assert Linked(w, proofs, path[0], proofs[path[0]]);
    if |path| > 1 {
      var rest := path[1..];
      assert forall i :: 0 <= i < |rest| ==> rest[i] == path[i + 1];
      assert ChainTo(kept, rest);
      PathsLeadForward(w, order, proofs, kept, rest);
      assert Forward(w, path[0], rest[0]);
      forall i, j | 0 <= i < j < |path| ensures Forward(w, path[i], path[j]) {
        if i > 0 {
          assert Forward(w, rest[i - 1], rest[j - 1]);
        } else if j > 1 {
          assert Forward(w, rest[0], rest[j - 1]);
        }
      }
    }
  }

  // `kept` holds some of the proofs, unchanged.
  ghost predicate Part(kept: map<Id, Proof>, proofs: map<Id, Proof>) {
    forall s :: s in kept ==> s in proofs && kept[s] == proofs[s]
  }

  // ----- Indivisible owners -----

  // The record of the source needs no cleaning and owns proved sources only.
  predicate Undivided(w: World, proofs: map<Id, Proof>, source: Id) {
    source in w.records ==>
      (forall o :: o in w.records[source].owned ==> o in proofs) && !w.records[source].cleaning
  }

  ghost predicate Indivisible(w: World, proofs: map<Id, Proof>) {
    forall s :: s in proofs ==> Undivided(w, proofs, s)
  }

  // Sources that one record owns agree on that record.
  ghost predicate WholeRecords(w: World) {
    forall s, o :: s in w.records && o in w.records[s].owned ==> o in w.records && w.records[o] == w.records[s]
  }

  lemma UndividedTogether(w: World, proofs: map<Id, Proof>, kept: map<Id, Proof>)
    requires WholeRecords(w)
    requires forall s :: s in kept <==> s in proofs && Undivided(w, proofs, s)
    ensures Indivisible(w, kept)
  {
    forall s, o | s in kept && s in w.records && o in w.records[s].owned ensures o in kept {
      assert w.records[o] == w.records[s];
    }
  }

  // What the two pruning loops do when sources agree on their records.
  ghost predicate Pruned(w: World, linked: map<Id, Proof>, undivided: map<Id, Proof>, kept: map<Id, Proof>) {
    && Part(undivided, linked)
    && (forall s :: s in undivided <==> s in linked && Undivided(w, linked, s))
    && Part(kept, undivided)
    && (forall s :: s in kept <==> s in undivided && Grounded(undivided, s))
  }

  // Following its links from the source, one comes upon a divided one.
  ghost predicate LeansOnDivided(w: World, linked: map<Id, Proof>, source: Id) {
    exists path ::
      ChainTo(linked, path) && path[0] == source && exists i :: 0 <= i < |path| && !Undivided(w, linked, path[i])
  }

  lemma {:induction false} LinkedAreGrounded(w: World, order: seq<Id>, linked: map<Id, Proof>, i: nat)
    requires WellFounded(w, order, linked) && i < |order|
    ensures Grounded(linked, order[i])
  {
    var p := linked[order[i]];
    GroundedStep(linked, order[i]);
    if p.newer != p.anchor {
      var j :| 0 <= j < |order[..i]| && order[..i][j] == p.newer;
      LinkedAreGrounded(w, order, linked, j);
    }
  }

  lemma {:induction false} OnePath(linked: map<Id, Proof>, a: seq<Id>, b: seq<Id>)
    requires ChainTo(linked, a) && ChainTo(linked, b) && a[0] == b[0]
    ensures a == b
  {
    if |a| > 1 && |b| > 1 {
      assert forall i :: 0 <= i < |a[1..]| ==> a[1..][i] == a[i + 1];
      assert forall i :: 0 <= i < |b[1..]| ==> b[1..][i] == b[i + 1];
      OnePath(linked, a[1..], b[1..]);
      assert a == [a[0]] + a[1..] && b == [b[0]] + b[1..];
    }
  }

  // A proof keeps its path exactly when it leans on no divided source.
  lemma GroundedIff(w: World, order: seq<Id>, linked: map<Id, Proof>, undivided: map<Id, Proof>, i: nat)
    requires WellFounded(w, order, linked) && i < |order| && Part(undivided, linked)
    requires forall s :: s in undivided <==> s in linked && Undivided(w, linked, s)
    ensures Grounded(undivided, order[i]) <==> !LeansOnDivided(w, linked, order[i])
  {
    LinkedAreGrounded(w, order, linked, i);
    var path :| ChainTo(linked, path) && path[0] == order[i];
    if Grounded(undivided, order[i]) {
      var kept :| ChainTo(undivided, kept) && kept[0] == order[i];
      assert ChainTo(linked, kept);
      OnePath(linked, path, kept);
      forall other | ChainTo(linked, other) && other[0] == order[i] ensures other == kept {
        OnePath(linked, other, kept);
      }
    } else if !LeansOnDivided(w, linked, order[i]) {
      forall k | 0 <= k < |path| ensures path[k] in undivided {
        assert Undivided(w, linked, path[k]);
      }
      assert ChainTo(undivided, path);
    }
  }

  lemma KeptIff(
    w: World, order: seq<Id>, linked: map<Id, Proof>, undivided: map<Id, Proof>, kept: map<Id, Proof>, s: Id)
    requires WellFounded(w, order, linked) && Pruned(w, linked, undivided, kept) && s in linked
    ensures s in kept <==> !LeansOnDivided(w, linked, s)
    ensures s in kept && s in w.records ==> forall o :: o in w.records[s].owned ==> o in linked
  {
    var i :| 0 <= i < |order| && order[i] == s;
    GroundedIff(w, order, linked, undivided, i);
    LinkedAreGrounded(w, order, linked, i);
    if !LeansOnDivided(w, linked, s) {
      var path :| ChainTo(linked, path) && path[0] == s;
      assert Undivided(w, linked, path[0]);
    }
  }

  // Some record has one source that leans on a divided one, and another that does not.
  ghost predicate CutsRecord(w: World, linked: map<Id, Proof>, s: Id, o: Id) {
    && s in linked && !LeansOnDivided(w, linked, s)
    && s in w.records && o in w.records[s].owned && LeansOnDivided(w, linked, o)
  }

  // What the pruning leaves is indivisible exactly when no record is cut that way.
  lemma IndivisibleIff(
    w: World, order: seq<Id>, linked: map<Id, Proof>, undivided: map<Id, Proof>, kept: map<Id, Proof>)
    requires WellFounded(w, order, linked) && WholeRecords(w) && Pruned(w, linked, undivided, kept)
    ensures Indivisible(w, kept) <==> forall s, o :: !CutsRecord(w, linked, s, o)
  {
    if Indivisible(w, kept) {
      forall s, o ensures !CutsRecord(w, linked, s, o) {
        if CutsRecord(w, linked, s, o) {
          KeptIff(w, order, linked, undivided, kept, s);
          KeptIff(w, order, linked, undivided, kept, o);
        }
      }
    }
    if forall s, o :: !CutsRecord(w, linked, s, o) {
      forall s | s in kept ensures Undivided(w, kept, s) {
        KeptIff(w, order, linked, undivided, kept, s);
        if s in w.records {
          forall o | o in w.records[s].owned ensures o in kept {
            KeptIff(w, order, linked, undivided, kept, o);
            assert !CutsRecord(w, linked, s, o);
          }
        }
      }
    }
  }

  // ----- The observer -----

  // The positions of the chains that were judged, when those from (c, i) on are next.
  ghost predicate Visited(chains: seq<seq<Id>>, c: nat, i: nat, c': int, i': int) {
    0 <= c' < |chains| && 0 <= i' < |chains[c']| && (c' < c || (c' == c && i <= i'))
  }

  ghost predicate Linking(
    w: World, decisions: map<Id, seq<Decision>>, chains: seq<seq<Id>>, order: seq<Id>, proofs: map<Id, Proof>,
    c: nat, i: nat)
  {
    && WellFounded(w, order, proofs)
    && (forall c', i' :: Visited(chains, c, i, c', i') ==> Judged(w, decisions, chains[c'], proofs, i'))
    && (forall s :: s in proofs ==> exists c', i' :: Visited(chains, c, i, c', i') && chains[c'][i'] == s)
  }

  lemma LinkingGoesOn(
    w: World, decisions: map<Id, seq<Decision>>, chains: seq<seq<Id>>, order: seq<Id>, proofs: map<Id, Proof>,
    c: nat, i: nat, found: Option<Proof>)
    requires ExpectedOnce(chains) && c < |chains| && i < |chains[c]|
    requires Linking(w, decisions, chains, order, proofs, c, i + 1)
    requires found == Latest(w, proofs, chains[c][i], chains[c][i + 1..], Observed(decisions, chains[c][i]))
    ensures chains[c][i] !in proofs
    ensures found.None? ==> Linking(w, decisions, chains, order, proofs, c, i)
    ensures found.Some? && WellFounded(w, order + [chains[c][i]], proofs[chains[c][i] := found.value]) ==>
      Linking(w, decisions, chains, order + [chains[c][i]], proofs[chains[c][i] := found.value], c, i)
  {
    var source := chains[c][i];
    assert forall c', i' :: Visited(chains, c, i + 1, c', i') ==> chains[c'][i'] != source;
    var proofs' := if found.Some? then proofs[source := found.value] else proofs;
    forall c', i' | Visited(chains, c, i, c', i') ensures Judged(w, decisions, chains[c'], proofs', i') {
      var later := chains[c'][i' + 1..];
      forall x | x in later ensures x != source {
        var k :| 0 <= k < |later| && later[k] == x;
        assert chains[c'][i' + 1 + k] == x;
      }
      LatestReadsLater(w, proofs, proofs', chains[c'][i'], later, Observed(decisions, chains[c'][i']));
      if Visited(chains, c, i + 1, c', i') {
        assert Judged(w, decisions, chains[c'], proofs, i');
      }
    }
    forall s | s in proofs' ensures exists c', i' :: Visited(chains, c, i, c', i') && chains[c'][i'] == s {
      if s in proofs {
        var c', i' :| Visited(chains, c, i + 1, c', i') && chains[c'][i'] == s;
        assert Visited(chains, c, i, c', i');
      } else {
        assert Visited(chains, c, i, c, i) && chains[c][i] == s;
      }
    }
  }

  function Unvisited(chains: seq<seq<Id>>, c: nat): nat {
    if c < |chains| then |chains[c]| else 0
  }

  lemma ChainVisited(
    w: World, decisions: map<Id, seq<Decision>>, chains: seq<seq<Id>>, order: seq<Id>, proofs: map<Id, Proof>, c: nat)
    requires c < |chains| && Linking(w, decisions, chains, order, proofs, c, 0)
    ensures Linking(w, decisions, chains, order, proofs, c + 1, Unvisited(chains, c + 1))
  {
    assert forall c', i' ::
      Visited(chains, c, 0, c', i') <==> Visited(chains, c + 1, Unvisited(chains, c + 1), c', i');
  }

  // The last decision that proves a link for the source.
  method LatestLink(w: World, proofs: map<Id, Proof>, source: Id, later: seq<Id>, ds: seq<Decision>)
    returns (found: Option<Proof>)
    ensures found == Latest(w, proofs, source, later, ds)
    ensures found.Some? ==> exists d :: d in ds && Link(w, proofs, source, d.newer) == found
  {
    assert ds[..|ds|] == ds;
    for k := |ds| downto 0
      invariant Latest(w, proofs, source, later, ds) == Latest(w, proofs, source, later, ds[..k])
    {
      assert ds[..k + 1][..k] == ds[..k];
      found := Decided(w, proofs, source, later, ds[k]);
      if found.Some? {
        assert ds[k] in ds;
        return;
      }
    }
    found := None;
  }

  // The first loop: every chain from its newest source to its oldest.
  method LinkChains(w: World, chains: seq<seq<Id>>, decisions: map<Id, seq<Decision>>)
    returns (order: seq<Id>, proofs: map<Id, Proof>)
    requires ExpectedOnce(chains)
    ensures Linking(w, decisions, chains, order, proofs, |chains|, 0)
  {
    order, proofs := [], map[];
    for c := 0 to |chains|
      invariant Linking(w, decisions, chains, order, proofs, c, Unvisited(chains, c))
    {
      var chain := chains[c];
      for i := |chain| downto 0
        invariant Linking(w, decisions, chains, order, proofs, c, i)
      {
        var found := LatestLink(w, proofs, chain[i], chain[i + 1..], Observed(decisions, chain[i]));
        LinkingGoesOn(w, decisions, chains, order, proofs, c, i, found);
        if found.Some? {
          LinkIsSound(w, order, proofs, chain[i], found.value.newer);
          EnterProof(w, order, proofs, chain[i], found.value);
          order, proofs := order + [chain[i]], proofs[chain[i] := found.value];
        }
      }
      ChainVisited(w, decisions, chains, order, proofs, c);
    }
  }

  // While every undivided source is still there, an undivided source stays undivided.
  lemma UndividedStays(w: World, proofs: map<Id, Proof>, kept: map<Id, Proof>, source: Id)
    requires WholeRecords(w) && Part(kept, proofs) && Undivided(w, proofs, source)
    requires forall s :: s in proofs && Undivided(w, proofs, s) ==> s in kept
    ensures Undivided(w, kept, source)
  {
    if source in w.records {
      forall o | o in w.records[source].owned ensures o in kept {
        assert w.records[o] == w.records[source] && Undivided(w, proofs, o);
      }
    }
  }

  // The dictionary's own order: each proof once.
  ghost predicate Enters(order: seq<Id>, proofs: map<Id, Proof>) {
    && (forall s :: s in proofs <==> s in order)
    && (forall i, j :: 0 <= i < j < |order| ==> order[i] != order[j])
  }

  // The second loop, when the sources from position i on are still to come.
  ghost predicate Dividing(w: World, order: seq<Id>, proofs: map<Id, Proof>, kept: map<Id, Proof>, i: nat)
    requires i <= |order|
  {
    && Part(kept, proofs)
    && (forall j :: i <= j < |order| ==> order[j] in kept)
    && (forall s :: s in proofs && s !in kept ==> !Undivided(w, kept, s))
    && (forall j :: 0 <= j < i && order[j] in kept ==> Undivided(w, proofs, order[j]))
    && (WholeRecords(w) ==> forall s :: s in proofs && Undivided(w, proofs, s) ==> s in kept)
  }

  lemma FewerOwned(w: World, proofs: map<Id, Proof>, kept: map<Id, Proof>, source: Id)
    requires Part(kept, proofs) && Undivided(w, kept, source)
    ensures Undivided(w, proofs, source)
  {
  }

  // Dropping a divided source leaves a reason for everything that is gone.
  lemma ReasonsStay(w: World, proofs: map<Id, Proof>, kept: map<Id, Proof>, source: Id)
    requires Part(kept, proofs) && !Undivided(w, kept, source)
    requires forall s :: s in proofs && s !in kept ==> !Undivided(w, kept, s)
    ensures forall s :: s in proofs && s !in kept - {source} ==> !Undivided(w, kept - {source}, s)
  {
    forall s | s in proofs && s !in kept - {source} ensures !Undivided(w, kept - {source}, s) {
      if Undivided(w, kept - {source}, s) {
        FewerOwned(w, kept, kept - {source}, s);
      }
    }
  }

  lemma DivideStep(w: World, order: seq<Id>, proofs: map<Id, Proof>, kept: map<Id, Proof>, i: nat)
    requires Enters(order, proofs) && i < |order| && Dividing(w, order, proofs, kept, i)
    ensures Dividing(w, order, proofs, if Undivided(w, kept, order[i]) then kept else kept - {order[i]}, i + 1)
  {
    var source := order[i];
    if Undivided(w, kept, source) {
      FewerOwned(w, proofs, kept, source);
    } else {
      if WholeRecords(w) && Undivided(w, proofs, source) {
        UndividedStays(w, proofs, kept, source);
      }
      ReasonsStay(w, proofs, kept, source);
    }
  }

  lemma DivideDone(w: World, order: seq<Id>, proofs: map<Id, Proof>, kept: map<Id, Proof>)
    requires Enters(order, proofs) && Dividing(w, order, proofs, kept, |order|) && WholeRecords(w)
    ensures Indivisible(w, kept)
    ensures forall s :: s in kept <==> s in proofs && Undivided(w, proofs, s)
  {
    forall s | s in kept ensures Undivided(w, proofs, s) {
      var j :| 0 <= j < |order| && order[j] == s;
    }
    UndividedTogether(w, proofs, kept);
  }

  // The second loop: a source goes when its record owns a source without a proof. A source goes
  // only for a reason that still holds at the end.
  method DropDivided(w: World, order: seq<Id>, proofs: map<Id, Proof>) returns (kept: map<Id, Proof>)
    requires Enters(order, proofs)
    ensures Part(kept, proofs)
    ensures forall s :: s in proofs && s !in kept ==> !Undivided(w, kept, s)
    ensures forall s :: s in kept ==> Undivided(w, proofs, s)
    ensures WholeRecords(w) ==>
      Indivisible(w, kept) && forall s :: s in kept <==> s in proofs && Undivided(w, proofs, s)
  {
    kept := proofs;
    for i := 0 to |order|
      invariant Dividing(w, order, proofs, kept, i)
    {
      DivideStep(w, order, proofs, kept, i);
      if !Undivided(w, kept, order[i]) {
        kept := kept - {order[i]};
      }
    }
    forall s | s in kept ensures Undivided(w, proofs, s) {
      var j :| 0 <= j < |order| && order[j] == s;
    }
    if WholeRecords(w) {
      DivideDone(w, order, proofs, kept);
    }
  }

  // Whatever a proof builds on was entered before it.
  ghost predicate Layered(order: seq<Id>, proofs: map<Id, Proof>) {
    && (forall s :: s in proofs ==> s in order)
    && (forall i, j :: 0 <= i < j < |order| ==> order[i] != order[j])
    && (forall i :: 0 <= i < |order| && order[i] in proofs && proofs[order[i]].newer != proofs[order[i]].anchor ==>
          exists j :: 0 <= j < i && order[j] == proofs[order[i]].newer)
  }

  lemma PartIsLayered(w: World, order: seq<Id>, linked: map<Id, Proof>, proofs: map<Id, Proof>)
    requires WellFounded(w, order, linked) && Part(proofs, linked)
    ensures Layered(order, proofs)
  {
    forall i | 0 <= i < |order| && order[i] in proofs && proofs[order[i]].newer != proofs[order[i]].anchor
      ensures exists j :: 0 <= j < i && order[j] == proofs[order[i]].newer
    {
      var j :| 0 <= j < |order[..i]| && order[..i][j] == proofs[order[i]].newer;
      assert order[j] == proofs[order[i]].newer;
    }
  }

  // The third loop, when the sources from position i on are still to come.
  ghost predicate Breaking(order: seq<Id>, proofs: map<Id, Proof>, kept: map<Id, Proof>, i: nat)
    requires i <= |order|
  {
    && Part(kept, proofs)
    && (forall j :: i <= j < |order| && order[j] in proofs ==> order[j] in kept)
    && (forall j :: 0 <= j < i && order[j] in proofs ==> (order[j] in kept <==> Grounded(proofs, order[j])))
  }

  predicate Broken(kept: map<Id, Proof>, p: Proof) {
    p.newer != p.anchor && p.newer !in kept
  }

  lemma BreakStep(order: seq<Id>, proofs: map<Id, Proof>, kept: map<Id, Proof>, i: nat)
    requires Layered(order, proofs) && i < |order| && Breaking(order, proofs, kept, i)
    ensures order[i] !in proofs ==> Breaking(order, proofs, kept, i + 1)
    ensures order[i] in proofs ==>
      Breaking(order, proofs, if Broken(kept, proofs[order[i]]) then kept - {order[i]} else kept, i + 1)
  {
    if order[i] in proofs {
      GroundedStep(proofs, order[i]);
    }
  }

  lemma BreakDone(order: seq<Id>, proofs: map<Id, Proof>, kept: map<Id, Proof>)
    requires Layered(order, proofs) && Breaking(order, proofs, kept, |order|)
    ensures forall s :: s in kept <==> s in proofs && Grounded(proofs, s)
    ensures forall s :: s in kept ==> !Broken(kept, kept[s])
  {
    forall s | s in proofs ensures s in kept <==> Grounded(proofs, s) {
      var j :| 0 <= j < |order| && order[j] == s;
    }
    forall s | s in kept ensures !Broken(kept, kept[s]) {
      GroundedStep(proofs, s);
    }
  }

  // The third loop: a source goes when the proof it builds on is gone. One pass in the order of
  // entry is enough: what is left is exactly what still has a path to its anchor.
  method DropBroken(order: seq<Id>, proofs: map<Id, Proof>) returns (kept: map<Id, Proof>)
    requires Layered(order, proofs)
    ensures Part(kept, proofs)
    ensures forall s :: s in kept <==> s in proofs && Grounded(proofs, s)
    ensures forall s :: s in kept ==> !Broken(kept, kept[s])
  {
    kept := proofs;
    for i := 0 to |order|
      invariant Breaking(order, proofs, kept, i)
    {
      BreakStep(order, proofs, kept, i);
      if order[i] in proofs && Broken(kept, proofs[order[i]]) {
        kept := kept - {order[i]};
      }
    }
    BreakDone(order, proofs, kept);
  }

  // The path goes from the source to an anchor with a completed answer, ever later, in one thread
  // of one room, and by one sender.
  ghost predicate Leads(w: World, proofs: map<Id, Proof>, source: Id, path: seq<Id>)
    requires source in proofs
  {
    && ChainTo(proofs, path) && path[0] == source
    && proofs[path[|path| - 1]].newer == proofs[source].anchor
    && CompletedAnchor(w, proofs[source].anchor) == Some(proofs[source].anchorResponse)
    && (forall i, j :: 0 <= i < j < |path| ==> Forward(w, path[i], path[j]))
    && (forall i :: 0 <= i < |path| ==> Forward(w, path[i], proofs[source].anchor))
  }

  ghost predicate Reaches(w: World, proofs: map<Id, Proof>, source: Id)
    requires source in proofs
  {
    exists path :: Leads(w, proofs, source, path)
  }

  // Every surviving proof reaches its completed anchor through surviving proofs.
  lemma SurvivorsReachTheirAnchor(
    w: World, order: seq<Id>, linked: map<Id, Proof>, proofs: map<Id, Proof>, kept: map<Id, Proof>, source: Id)
    requires WellFounded(w, order, linked) && Part(proofs, linked) && Part(kept, proofs) && source in kept
    requires forall s :: s in kept <==> s in proofs && Grounded(proofs, s)
    ensures Reaches(w, kept, source)
  {
    var path := SurvivingPath(proofs, kept, source);
    PathsLeadForward(w, order, linked, kept, path);
    assert Leads(w, kept, source, path);
  }

  lemma SurvivingPath(proofs: map<Id, Proof>, kept: map<Id, Proof>, source: Id) returns (path: seq<Id>)
    requires Part(kept, proofs) && source in kept
    requires forall s :: s in kept <==> s in proofs && Grounded(proofs, s)
    ensures ChainTo(kept, path) && path[0] == source
  {
    path :| ChainTo(proofs, path) && path[0] == source;
    SuffixesAreGrounded(proofs, path);
  }

  lemma {:induction false} SuffixesAreGrounded(proofs: map<Id, Proof>, path: seq<Id>)
    requires ChainTo(proofs, path)
    ensures forall i :: 0 <= i < |path| ==> Grounded(proofs, path[i])
  {
    if |path| > 1 {
      var rest := path[1..];
      assert forall i :: 0 <= i < |rest| ==> rest[i] == path[i + 1];
      assert ChainTo(proofs, rest);
      SuffixesAreGrounded(proofs, rest);
      assert forall i :: 0 < i < |path| ==> path[i] == rest[i - 1];
    }
  }

  // ----- What a link says of the world -----

  // The delivery can no longer answer either source: it is neither for their thread nor for their
  // room at large, carries no id of theirs or of their records' anchors, and edits no response of theirs.
  ghost predicate Clear(w: World, source: Id, newer: Id, d: Delivery) {
    && (source in w.sources && d.room == w.sources[source].room ==>
          d.thread.Some? && source in w.roots && d.thread.value != w.roots[source])
    && d.id != source && d.id != newer
    && (source in w.records ==> d.id != w.records[source].anchor)
    && (newer in w.records ==> d.id != w.records[newer].anchor)
    && (d.edits.Some? && source in w.records ==> d.edits != w.records[source].response)
    && (d.edits.Some? && newer in w.records ==> d.edits != w.records[newer].response)
  }

  ghost predicate Quiet(w: World, source: Id, newer: Id) {
    forall d :: d in w.deliveries ==> Clear(w, source, newer, d)
  }

  // Both sources were admitted for good as the rooms show them, with no edit under way.
  ghost predicate Settled(w: World, source: Id) {
    && source in w.sources && w.sources[source].settled && source in w.roots
    && source in w.matching && source !in w.editing
  }

  // Nobody answered the source to the end: its record, if any, is unfinished, and shows no response
  // but one that ends in the restart note.
  ghost predicate LeftOff(w: World, source: Id, response: Option<Id>) {
    if source !in w.records then response == None && source in w.unanswered
    else
      && !w.records[source].completed && source in w.records[source].owned && response == w.records[source].response
      && (response == None ==> source in w.unanswered) && (response != None ==> source in w.interrupted)
  }

  // The source's own completed answer stands, whole and with nothing left to clean.
  ghost predicate Answered(w: World, source: Id, response: Id) {
    && source in w.records && w.records[source].completed && source in w.records[source].owned
    && !w.records[source].cleaning && source in w.answered && w.records[source].response == Some(response)
  }

  // The proof of a source, given the proofs of later ones.
  ghost predicate Proves(w: World, proofs: map<Id, Proof>, source: Id, newer: Id, p: Proof) {
    && Settled(w, source) && Settled(w, newer) && Quiet(w, source, newer) && LeftOff(w, source, p.interrupted)
    && w.sources[source].room == w.sources[newer].room == p.room
    && w.sources[source].sender == w.sources[newer].sender == p.requester
    && w.roots[source] == w.roots[newer] == p.thread
    && w.sources[source].timestamp < w.sources[newer].timestamp
    && p.source == source && p.newer == newer
    && (if exists r: Id :: Answered(w, newer, r) then p.anchor == newer && Answered(w, newer, p.anchorResponse)
        else newer in proofs && p.anchor == proofs[newer].anchor && p.anchorResponse == proofs[newer].anchorResponse)
  }

  lemma ClearMeans(w: World, source: Id, newer: Id, d: Delivery)
    requires source in w.sources && source in w.roots
    ensures Clear(w, source, newer, d) <==> !Blocks(w, source, newer, d)
  {
    var two := {source, newer};
    assert source in two && newer in two;
    forall e | e in two && e in w.records && d.edits.Some? && d.edits == w.records[e].response
      ensures Blocks(w, source, newer, d)
    {
      assert e in {source, newer} && w.records[e].response.Some?;
    }
    forall e | e in two && (d.id == e || (e in w.records && d.id == w.records[e].anchor))
      ensures Blocks(w, source, newer, d)
    {
      assert e in {source, newer};
    }
  }

  lemma PairMeans(w: World, source: Id, newer: Id)
    ensures IsPair(w, source, newer) <==>
      && Settled(w, source) && Settled(w, newer) && Quiet(w, source, newer)
      && w.sources[source].room == w.sources[newer].room && w.sources[source].sender == w.sources[newer].sender
      && w.roots[source] == w.roots[newer] && w.sources[source].timestamp < w.sources[newer].timestamp
  {
    if source in w.sources && source in w.roots {
      forall d | d in w.deliveries ensures Clear(w, source, newer, d) <==> !Blocks(w, source, newer, d) {
        ClearMeans(w, source, newer, d);
      }
    }
  }

  lemma LinkMeans(w: World, proofs: map<Id, Proof>, source: Id, newer: Id)
    ensures forall p :: Link(w, proofs, source, newer) == Some(p) <==> Proves(w, proofs, source, newer, p)
  {
    PairMeans(w, source, newer);
    var found := CompletedAnchor(w, newer);
    assert forall r: Id :: Answered(w, newer, r) <==> found == Some(r);
    if found.Some? {
      assert Answered(w, newer, found.value);
    }
  }

  // A decision counts when it names a source further on in the chain and, if any, the right thread.
  ghost predicate Says(
    w: World, proofs: map<Id, Proof>, source: Id, later: seq<Id>, d: Decision, p: Proof)
  {
    d.newer in later && Proves(w, proofs, source, d.newer, p) && (d.thread.None? || d.thread.value == p.thread)
  }

  // The proof is what the newest decision that proves anything says.
  ghost predicate NewestSays(
    w: World, proofs: map<Id, Proof>, source: Id, later: seq<Id>, ds: seq<Decision>, p: Proof)
  {
    exists k :: 0 <= k < |ds| && Says(w, proofs, source, later, ds[k], p)
      && forall j, q :: k < j < |ds| ==> !Says(w, proofs, source, later, ds[j], q)
  }

  lemma DecidedMeans(w: World, proofs: map<Id, Proof>, source: Id, later: seq<Id>, d: Decision)
    ensures forall p :: Decided(w, proofs, source, later, d) == Some(p) <==> Says(w, proofs, source, later, d, p)
  {
    LinkMeans(w, proofs, source, d.newer);
  }

  // No decision proves anything.
  ghost predicate NoneSays(w: World, proofs: map<Id, Proof>, source: Id, later: seq<Id>, ds: seq<Decision>) {
    forall k, p :: 0 <= k < |ds| ==> !Says(w, proofs, source, later, ds[k], p)
  }

  lemma {:induction false} LatestIndex(
    w: World, proofs: map<Id, Proof>, source: Id, later: seq<Id>, ds: seq<Decision>) returns (k: int)
    ensures -1 <= k < |ds| && forall j :: k < j < |ds| ==> Decided(w, proofs, source, later, ds[j]).None?
    ensures var found := Latest(w, proofs, source, later, ds);
      if found.Some? then 0 <= k && Decided(w, proofs, source, later, ds[k]) == found else k == -1
  {
    k := -1;
    if ds != [] {
      if Decided(w, proofs, source, later, ds[|ds| - 1]).Some? {
        k := |ds| - 1;
      } else {
        k := LatestIndex(w, proofs, source, later, ds[..|ds| - 1]);
        assert forall j :: 0 <= j < |ds| - 1 ==> ds[..|ds| - 1][j] == ds[j];
      }
    }
  }

  lemma LatestMeans(w: World, proofs: map<Id, Proof>, source: Id, later: seq<Id>, ds: seq<Decision>)
    ensures var found := Latest(w, proofs, source, later, ds);
      if found.Some? then NewestSays(w, proofs, source, later, ds, found.value)
      else NoneSays(w, proofs, source, later, ds)
  {
    var k := LatestIndex(w, proofs, source, later, ds);
    forall j, p | 0 <= j < |ds|
      ensures Says(w, proofs, source, later, ds[j], p) <==> Decided(w, proofs, source, later, ds[j]) == Some(p)
    {
      DecidedMeans(w, proofs, source, later, ds[j]);
    }
  }

  // Every source of every chain: it is linked as the newest proving decision says, or none proves.
  ghost predicate LinkedRight(
    w: World, decisions: map<Id, seq<Decision>>, chains: seq<seq<Id>>, linked: map<Id, Proof>)
  {
    forall c, i :: 0 <= c < |chains| && 0 <= i < |chains[c]| ==>
      LinkedAt(w, Observed(decisions, chains[c][i]), chains[c][i], chains[c][i + 1..], linked)
  }

  ghost predicate LinkedAt(w: World, ds: seq<Decision>, source: Id, later: seq<Id>, linked: map<Id, Proof>) {
    if source in linked then NewestSays(w, linked, source, later, ds, linked[source])
    else NoneSays(w, linked, source, later, ds)
  }

  lemma LinksMean(
    w: World, decisions: map<Id, seq<Decision>>, chains: seq<seq<Id>>, order: seq<Id>, linked: map<Id, Proof>)
    requires Linking(w, decisions, chains, order, linked, |chains|, 0)
    ensures LinkedRight(w, decisions, chains, linked)
  {
    forall c, i | 0 <= c < |chains| && 0 <= i < |chains[c]|
      ensures LinkedAt(w, Observed(decisions, chains[c][i]), chains[c][i], chains[c][i + 1..], linked)
    {
      assert Visited(chains, |chains|, 0, c, i);
      assert Judged(w, decisions, chains[c], linked, i);
      LatestMeans(w, linked, chains[c][i], chains[c][i + 1..], Observed(decisions, chains[c][i]));
    }
  }

  // What is left of a proof in the end: every fact it was built on, and a finished anchor.
  ghost predicate Stands(w: World, linked: map<Id, Proof>, p: Proof) {
    && Proves(w, linked, p.source, p.newer, p) && Answered(w, p.anchor, p.anchorResponse)
    && (p.source in w.records ==>
          !w.records[p.source].cleaning && forall o :: o in w.records[p.source].owned ==> o in linked)
  }

  lemma LinkedStands(
    w: World, decisions: map<Id, seq<Decision>>, chains: seq<seq<Id>>, order: seq<Id>, linked: map<Id, Proof>,
    source: Id)
    requires Linking(w, decisions, chains, order, linked, |chains|, 0) && source in linked
    ensures Proves(w, linked, source, linked[source].newer, linked[source])
    ensures Answered(w, linked[source].anchor, linked[source].anchorResponse)
  {
    LinksMean(w, decisions, chains, order, linked);
    var c, i :| Visited(chains, |chains|, 0, c, i) && chains[c][i] == source;
    var ds, later := Observed(decisions, source), chains[c][i + 1..];
    assert LinkedAt(w, ds, source, later, linked);
    assert NewestSays(w, linked, source, later, ds, linked[source]);
    var j :| 0 <= j < |order| && order[j] == source;
    assert Linked(w, linked, source, linked[source]);
  }

  lemma SurvivorsStand(
    w: World, decisions: map<Id, seq<Decision>>, chains: seq<seq<Id>>, order: seq<Id>,
    linked: map<Id, Proof>, undivided: map<Id, Proof>, kept: map<Id, Proof>)
    requires Linking(w, decisions, chains, order, linked, |chains|, 0)
    requires Part(undivided, linked) && (forall s :: s in undivided ==> Undivided(w, linked, s))
    requires Part(kept, undivided) && (forall s :: s in kept <==> s in undivided && Grounded(undivided, s))
    ensures forall s :: s in kept ==> Reaches(w, kept, s) && Stands(w, linked, kept[s])
  {
    forall s | s in kept ensures Reaches(w, kept, s) && Stands(w, linked, kept[s]) {
      SurvivorsReachTheirAnchor(w, order, linked, undivided, kept, s);
      LinkedStands(w, decisions, chains, order, linked, s);
      assert Undivided(w, linked, s);
    }
  }

  class SupersessionObserver {
    var supersessionProofs: map<Id, Proof>

    constructor ()
      ensures supersessionProofs == map[]
    {
      supersessionProofs := map[];
    }

    // _observe_supersession
    method ObserveSupersession(w: World, chains: seq<seq<Id>>, decisions: map<Id, seq<Decision>>)
      returns (ghost order: seq<Id>, ghost linked: map<Id, Proof>, ghost undivided: map<Id, Proof>)
      requires ExpectedOnce(chains)
      modifies this
      ensures Linking(w, decisions, chains, order, linked, |chains|, 0) && LinkedRight(w, decisions, chains, linked)
      ensures Part(undivided, linked)
      ensures forall s :: s in linked && s !in undivided ==>
        s in w.records && (w.records[s].cleaning || exists o :: o in w.records[s].owned && o !in undivided)
      ensures WholeRecords(w) ==>
        Indivisible(w, undivided) && forall s :: s in undivided <==> s in linked && Undivided(w, linked, s)
      ensures Part(supersessionProofs, undivided)
      ensures forall s :: s in supersessionProofs <==> s in undivided && Grounded(undivided, s)
      ensures forall s :: s in supersessionProofs ==> Reaches(w, supersessionProofs, s)
      ensures forall s :: s in supersessionProofs ==> Stands(w, linked, supersessionProofs[s])
    {
      var entered, proofs := LinkChains(w, chains, decisions);
      order, linked := entered, proofs;
      proofs := DropDivided(w, entered, proofs);
      undivided := proofs;
      PartIsLayered(w, order, linked, undivided);
      supersessionProofs := DropBroken(entered, proofs);
      SurvivorsStand(w, decisions, chains, order, linked, undivided, supersessionProofs);
      LinksMean(w, decisions, chains, order, linked);
    }
  }

  // ----- A record cut in two -----

  // One record owns A and B. Both are undivided, but B builds on X, whose own record still needs
  // cleaning: the third loop drops B after the second loop has let A through.
  const A: Id := 1
  const B: Id := 2
  const X: Id := 3
  const Y: Id := 4

  const CUT_CHAINS: seq<seq<Id>> := [[A, B, X, Y]]

  const CUT_DECISIONS: map<Id, seq<Decision>> :=
    map[A := [Decision(Y, None)], B := [Decision(X, None)], X := [Decision(Y, None)]]

  function CutWorld(): World {
    var shared := Record(false, [A, B], A, None, false);
    World(
      map[A := shared, B := shared,
          X := Record(false, [X], X, None, true),
          Y := Record(true, [Y], Y, Some(5), false)],
      map[A := Source(6, 8, 1, true), B := Source(6, 8, 2, true),
          X := Source(6, 8, 3, true), Y := Source(6, 8, 4, true)],
      map[A := 7, B := 7, X := 7, Y := 7],
      [], {A, B, X, Y}, {}, {A, B, X}, {}, {Y})
  }

  function CutProof(source: Id, newer: Id): Proof {
    Proof(source, newer, Y, 5, None, 6, 7, 8)
  }

  function CutProofs(): map<Id, Proof> {
    map[X := CutProof(X, Y), B := CutProof(B, X), A := CutProof(A, Y)]
  }

  lemma CutIsJudged()
    ensures forall i :: 0 <= i < 4 ==> Judged(CutWorld(), CUT_DECISIONS, CUT_CHAINS[0], CutProofs(), i)
  {
    var w, proofs, chain := CutWorld(), CutProofs(), CUT_CHAINS[0];
    assert chain[1..] == [B, X, Y] && chain[2..] == [X, Y] && chain[3..] == [Y] && chain[4..] == [];
    assert Link(w, proofs, A, Y) == Some(proofs[A]);
    assert Link(w, proofs, B, X) == Some(proofs[B]);
    assert Link(w, proofs, X, Y) == Some(proofs[X]);
    assert Judged(w, CUT_DECISIONS, chain, proofs, 0);
    assert Judged(w, CUT_DECISIONS, chain, proofs, 1);
    assert Judged(w, CUT_DECISIONS, chain, proofs, 2);
    assert Judged(w, CUT_DECISIONS, chain, proofs, 3);
  }

  lemma CutIsWellFounded()
    ensures WellFounded(CutWorld(), [X, B, A], CutProofs())
  {
    var w, proofs, order := CutWorld(), CutProofs(), [X, B, A];
    assert Linked(w, proofs, X, proofs[X]) && Linked(w, proofs, B, proofs[B]) && Linked(w, proofs, A, proofs[A]);
    assert order[..1] == [X];
  }

  lemma CutIsVisited()
    ensures forall s :: s in CutProofs() ==> exists c, i :: Visited(CUT_CHAINS, 1, 0, c, i) && CUT_CHAINS[c][i] == s
  {
    assert Visited(CUT_CHAINS, 1, 0, 0, 0) && Visited(CUT_CHAINS, 1, 0, 0, 1) && Visited(CUT_CHAINS, 1, 0, 0, 2);
  }

  lemma CutLinks()
    ensures Linking(CutWorld(), CUT_DECISIONS, CUT_CHAINS, [X, B, A], CutProofs(), 1, 0)
  {
    CutIsWellFounded();
    CutIsJudged();
    CutIsVisited();
  }

  lemma CutIsWhole()
    ensures WholeRecords(CutWorld())
  {
    var records := CutWorld().records;
    assert records[A].owned == [A, B] && records[X].owned == [X] && records[Y].owned == [Y];
  }

  lemma CutIsDivided()
    ensures forall s :: s in CutProofs() ==> (Undivided(CutWorld(), CutProofs(), s) <==> s != X)
    ensures !Undivided(CutWorld(), CutProofs() - {X, B}, A)
  {
    var w := CutWorld();
    assert w.records[A].owned == [A, B] && w.records[A].owned[1] == B;
    assert B in w.records[A].owned && B !in CutProofs() - {X, B};
  }

  lemma CutIsPruned()
    ensures Pruned(CutWorld(), CutProofs(), CutProofs() - {X}, CutProofs() - {X, B})
  {
    CutIsDivided();
    GroundedStep(CutProofs() - {X}, A);
    GroundedStep(CutProofs() - {X}, B);
  }

  lemma CutIsExpectedOnce()
    ensures ExpectedOnce(CUT_CHAINS)
  {
    var chain := CUT_CHAINS[0];
    assert chain == [1, 2, 3, 4];
    assert forall i :: 0 <= i < 4 ==> chain[i] == i + 1;
    assert forall c :: 0 <= c < |CUT_CHAINS| ==> CUT_CHAINS[c] == chain;
  }

  lemma RecordsCanBeCut()
    ensures ExpectedOnce(CUT_CHAINS)
    ensures Linking(CutWorld(), CUT_DECISIONS, CUT_CHAINS, [X, B, A], CutProofs(), 1, 0)
    ensures Pruned(CutWorld(), CutProofs(), CutProofs() - {X}, CutProofs() - {X, B})
    ensures WholeRecords(CutWorld()) && !Indivisible(CutWorld(), CutProofs() - {X, B})
  {
    CutIsExpectedOnce();
    CutLinks();
    CutIsDivided();
    CutIsWhole();
    CutIsPruned();
    assert A in CutProofs() - {X, B};
  }
}

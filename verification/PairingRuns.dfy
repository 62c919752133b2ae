// Runs of the provisioning service: what every reachable memory satisfies, and why nobody
// can tell a service that was restarted from one that never was.
module PairingRuns {

  import opened Options
  import opened Sequences
  import opened Pairing

  // ----- Every reachable memory -----

  ghost predicate UniqueSessions(sessions: seq<PairSession>) {
    && (forall i :: 0 <= i < |sessions| ==> sessions[i].id != "")
    && (forall i, j :: 0 <= i < j < |sessions| ==> sessions[i].id != sessions[j].id)
  }

  // No user waits on two codes at once.
  ghost predicate OnePending(sessions: seq<PairSession>) {
    forall i, j :: 0 <= i < j < |sessions| && sessions[i].status.Pending? && sessions[j].status.Pending?
      ==> sessions[i].userId != sessions[j].userId
  }

  ghost predicate UniqueConnections(connections: seq<LocalConnection>) {
    && (forall i :: 0 <= i < |connections| ==> connections[i].id != "" && GeneratedNamespace(connections[i].ns))
    && (forall i, j :: 0 <= i < j < |connections| ==>
          connections[i].id != connections[j].id && connections[i].ns != connections[j].ns)
  }

  function ConnectedTo(sessions: seq<PairSession>): set<string> {
    set s | s in sessions && s.status.Connected? && s.connectionId.Some? :: s.connectionId.value
  }

  function ConnectionIds(connections: seq<LocalConnection>): set<string> {
    set c | c in connections :: c.id
  }

  // Connected sessions and connections correspond one to one, owner by owner.
  ghost predicate Bijection(sessions: seq<PairSession>, connections: seq<LocalConnection>) {
    && (forall i :: 0 <= i < |sessions| ==> (sessions[i].status.Connected? <==> sessions[i].connectionId.Some?))
    && ConnectedTo(sessions) == ConnectionIds(connections)
    && (forall i, j :: 0 <= i < j < |sessions| && sessions[i].status.Connected? && sessions[j].status.Connected?
          ==> sessions[i].connectionId != sessions[j].connectionId)
    && (forall i, c ::
          0 <= i < |sessions| && 0 <= c < |connections| && sessions[i].connectionId == Some(connections[c].id)
          ==> sessions[i].userId == connections[c].userId)
  }

  ghost predicate Invariant(m: Memory) {
    && UniqueSessions(m.sessions)
    && m.byHash == IndexOf(m.sessions)
    && OnePending(m.sessions)
    && UniqueConnections(m.connections)
    && Bijection(m.sessions, m.connections)
  }

  // ----- Looking through lazy expiry -----

  // What a memory amounts to at a time: overdue pending sessions count as expired.
  function ViewSessions(sessions: seq<PairSession>, now: int): seq<PairSession> {
    seq(|sessions|, i requires 0 <= i < |sessions| => ExpireIfNeeded(sessions[i], now))
  }

  function View(m: Memory, now: int): Memory {
    m.(sessions := ViewSessions(m.sessions, now))
  }

  lemma ViewLookups(cfg: Config, m: Memory, now: int, id: string, code: string)
    ensures SessionIndex(ViewSessions(m.sessions, now), id) == SessionIndex(m.sessions, id)
    ensures FindByCode(cfg, View(m, now), code) == FindByCode(cfg, m, code)
  {
    SameIds(m.sessions, ViewSessions(m.sessions, now), id);
    var hash := cfg.hash(code);
    if hash in m.byHash {
      SameIds(m.sessions, ViewSessions(m.sessions, now), m.byHash[hash]);
    }
  }

  lemma SameIds(a: seq<PairSession>, b: seq<PairSession>, id: string)
    requires |a| == |b| && forall i :: 0 <= i < |a| ==> a[i].id == b[i].id
    ensures SessionIndex(a, id) == SessionIndex(b, id)
  {
    assert SessionIndex(a, id) < |a| ==> b[SessionIndex(a, id)].id == id;
  }

  // Handling a request and looking through lazy expiry commute: the reply is the same, and the
  // memories and files agree once overdue sessions are counted as expired.
  ghost predicate SameView(m: Memory, other: Memory, now: int) {
    View(m, now) == View(other, now)
  }

  ghost predicate SameOutcome(a: Outcome, b: Outcome, now: int) {
    a.reply == b.reply && SameView(a.memory, b.memory, now)
  }

  lemma StartSeesView(cfg: Config, m: Memory, d: Disk, r: Request)
    requires r.call.StartPair?
    ensures SameOutcome(Handle(cfg, m, d, r), Handle(cfg, View(m, r.now), d, r), r.now)
  {
    var v := View(m, r.now);
    assert ExpireAllForStart(m.sessions, r.call.user, r.now) == ExpireAllForStart(v.sessions, r.call.user, r.now);
    assert View(v, r.now) == v;
  }

  lemma StatusSeesView(cfg: Config, m: Memory, d: Disk, r: Request)
    requires r.call.PairStatus?
    ensures SameOutcome(Handle(cfg, m, d, r), Handle(cfg, View(m, r.now), d, r), r.now)
  {
    DoingStatusSeesView(cfg, m, d, r.now, r.limited, r.call.user, r.call.sessionId);
  }

  lemma DoingStatusSeesView(cfg: Config, m: Memory, d: Disk, now: int, limited: bool, user: string, sessionId: string)
    ensures SameOutcome(
      DoPairStatus(m, d, now, limited, user, sessionId),
      DoPairStatus(View(m, now), d, now, limited, user, sessionId), now)
  {
    var v := View(m, now);
    ViewLookups(cfg, m, now, sessionId, "");
    assert View(v, now) == v;
    var i := SessionIndex(m.sessions, sessionId);
    if i < |m.sessions| {
      UpdatedViews(m, v, i, ExpireIfNeeded(m.sessions[i], now), now);
    }
  }

  lemma UpdatedViews(m: Memory, v: Memory, i: nat, s: PairSession, now: int)
    requires i < |m.sessions| && v == View(m, now)
    ensures SameView(m.(sessions := m.sessions[i := s]), v.(sessions := v.sessions[i := s]), now)
  {
    UpdatedView(m.sessions, i, s, now);
    UpdatedView(v.sessions, i, s, now);
    assert View(v, now) == v;
  }

  lemma UpdatedView(sessions: seq<PairSession>, i: nat, s: PairSession, now: int)
    requires i < |sessions|
    ensures ViewSessions(sessions[i := s], now) == ViewSessions(sessions, now)[i := ExpireIfNeeded(s, now)]
  {
  }

  lemma CompleteSeesView(cfg: Config, m: Memory, d: Disk, r: Request)
    requires r.call.PairComplete?
    ensures SameOutcome(Handle(cfg, m, d, r), Handle(cfg, View(m, r.now), d, r), r.now)
  {
    var v := View(m, r.now);
    ViewLookups(cfg, m, r.now, "", r.call.code);
    assert View(v, r.now) == v;
    var i := FindByCode(cfg, m, r.call.code);
    if i < |m.sessions| {
      var s := ExpireIfNeeded(m.sessions[i], r.now);
      var done := s.(status := Connected, completedAt := Some(r.now), connectionId := Some(r.call.connectionId));
      UpdatedView(m.sessions, i, s, r.now);
      UpdatedView(v.sessions, i, s, r.now);
      UpdatedView(m.sessions, i, done, r.now);
      UpdatedView(v.sessions, i, done, r.now);
    }
  }

  lemma OthersSeeView(cfg: Config, m: Memory, d: Disk, r: Request)
    requires r.call.ListConnections? || r.call.RevokeConnection? || r.call.RegisterAgent? || r.call.GoogleClient?
    ensures SameOutcome(Handle(cfg, m, d, r), Handle(cfg, View(m, r.now), d, r), r.now)
  {
    assert View(View(m, r.now), r.now) == View(m, r.now);
  }

  lemma HandleSeesView(cfg: Config, m: Memory, d: Disk, r: Request)
    ensures SameOutcome(Handle(cfg, m, d, r), Handle(cfg, View(m, r.now), d, r), r.now)
  {
    match r.call
    case StartPair(_, _, _) => StartSeesView(cfg, m, d, r);
    case PairStatus(_, _) => StatusSeesView(cfg, m, d, r);
    case PairComplete(_, _, _, _, _, _) => CompleteSeesView(cfg, m, d, r);
    case _ => OthersSeeView(cfg, m, d, r);
  }

  lemma LaterView(m: Memory, other: Memory, earlier: int, now: int)
    requires SameView(m, other, earlier) && earlier <= now
    ensures SameView(m, other, now)
  {
    forall k | 0 <= k < |m.sessions|
      ensures ExpireIfNeeded(m.sessions[k], now) == ExpireIfNeeded(other.sessions[k], now)
    {
      assert ViewSessions(m.sessions, earlier)[k] == ViewSessions(other.sessions, earlier)[k];
    }
    assert |ViewSessions(m.sessions, earlier)| == |ViewSessions(other.sessions, earlier)|;
  }

  lemma DiskIsIrrelevant(cfg: Config, m: Memory, d: Disk, d': Disk, r: Request)
    ensures Handle(cfg, m, d, r).reply == Handle(cfg, m, d', r).reply
    ensures Handle(cfg, m, d, r).memory == Handle(cfg, m, d', r).memory
  {
  }

  // The replies that go with writing the file.
  predicate Writes(call: Call, reply: Reply) {
    match call
    case StartPair(_, _, _) => reply.Started?
    case PairComplete(_, _, _, _, _, _) => reply.Completed?
    case RevokeConnection(_, _) => reply.Revoked?
    case RegisterAgent(_, _, _) => reply.Permitted?
    case GoogleClient(_, _) => reply.Permitted? || reply == Failed(503)
    case _ => false
  }

  // The reply tells whether the handler wrote the memory it leaves behind or left the file alone.
  lemma ReplyTellsWriting(cfg: Config, m: Memory, d: Disk, r: Request)
    ensures var o := Handle(cfg, m, d, r); o.disk == if Writes(r.call, o.reply) then Persist(o.memory) else d
  {
  }

  // A handler either writes the memory it leaves behind, or it leaves the file alone and has
  // done no more than mark an overdue session.
  lemma WritesOrFlips(cfg: Config, m: Memory, d: Disk, r: Request)
    ensures var o := Handle(cfg, m, d, r);
            o.disk == Persist(o.memory) || (o.disk == d && SameView(o.memory, m, r.now))
  {
    var o := Handle(cfg, m, d, r);
    if r.call.PairStatus? {
      var i := SessionIndex(m.sessions, r.call.sessionId);
      if i < |m.sessions| {
        UpdatedView(m.sessions, i, ExpireIfNeeded(m.sessions[i], r.now), r.now);
      }
    } else if r.call.PairComplete? {
      var i := FindByCode(cfg, m, r.call.code);
      if i < |m.sessions| {
        UpdatedView(m.sessions, i, ExpireIfNeeded(m.sessions[i], r.now), r.now);
      }
    }
  }

  // ----- Writing and loading -----

  lemma {:induction false} SameIndex(a: seq<PairSession>, b: seq<PairSession>)
    requires |a| == |b| && forall i :: 0 <= i < |a| ==> a[i].id == b[i].id && a[i].codeHash == b[i].codeHash
    ensures IndexOf(a) == IndexOf(b)
  {
    if a != [] {
      SameIndex(a[..|a| - 1], b[..|b| - 1]);
    }
  }

  // Generated namespaces survive the loader's clean-up.
  lemma NamespaceSurvives(cfg: Config, id: string, ns: string)
    requires GeneratedNamespace(ns)
    ensures LoadNamespace(cfg, id, ns) == ns
  {
    assert InNamespaceAlphabet(ns[0]) && InNamespaceAlphabet(ns[|ns| - 1]);
    assert Strip(ns) == ns;
    assert Lower(ns) == ns;
  }

  // A service that writes its memory and loads it back is the same service.
  lemma LoadUndoesPersist(cfg: Config, m: Memory)
    requires Invariant(m)
    ensures Load(cfg, Persist(m)) == m
  {
    var loaded := Load(cfg, Persist(m)).connections;
    forall i | 0 <= i < |m.connections| ensures loaded[i] == m.connections[i] {
      NamespaceSurvives(cfg, m.connections[i].id, m.connections[i].ns);
    }
    assert loaded == m.connections;
  }

  // ----- Every handler keeps the invariant -----

  // Marking sessions expired and nothing else.
  ghost predicate OnlyExpires(a: seq<PairSession>, b: seq<PairSession>) {
    && |a| == |b|
    && (forall i :: 0 <= i < |a| ==> b[i] == a[i] || (a[i].status.Pending? && b[i] == a[i].(status := Expired)))
  }

  lemma ExpiringKeepsInvariant(m: Memory, sessions: seq<PairSession>)
    requires Invariant(m) && OnlyExpires(m.sessions, sessions)
    ensures Invariant(m.(sessions := sessions))
  {
    SameIndex(m.sessions, sessions);
    SameConnected(m.sessions, sessions);
  }

  lemma SameConnected(a: seq<PairSession>, b: seq<PairSession>)
    requires OnlyExpires(a, b)
    ensures ConnectedTo(a) == ConnectedTo(b)
  {
    forall x | x in ConnectedTo(a) ensures x in ConnectedTo(b) {
      var s :| s in a && s.status.Connected? && s.connectionId == Some(x);
      var i :| 0 <= i < |a| && a[i] == s;
      assert b[i] == s;
    }
    forall x | x in ConnectedTo(b) ensures x in ConnectedTo(a) {
      var s :| s in b && s.status.Connected? && s.connectionId == Some(x);
      var i :| 0 <= i < |b| && b[i] == s;
      assert a[i] == s;
    }
  }

  lemma StartOnlyExpires(sessions: seq<PairSession>, user: string, now: int)
    ensures OnlyExpires(sessions, ExpireAllForStart(sessions, user, now))
    ensures forall s :: s in ExpireAllForStart(sessions, user, now) && s.status.Pending? ==> s.userId != user
  {
  }

  lemma StartKeepsInvariant(m: Memory, user: string, now: int, session: PairSession, after: Memory)
    requires Invariant(m) && session.status.Pending? && session.connectionId.None? && session.userId == user
    requires session.id != "" && SessionIndex(m.sessions, session.id) == |m.sessions|
    requires after == m.(sessions := ExpireAllForStart(m.sessions, user, now) + [session],
                         byHash := m.byHash[session.codeHash := session.id])
    ensures Invariant(after)
  {
    var kept := ExpireAllForStart(m.sessions, user, now);
    StartOnlyExpires(m.sessions, user, now);
    ExpiringKeepsInvariant(m, kept);
    AddingKeepsInvariant(m.(sessions := kept), session, after);
  }

  lemma AddingKeepsInvariant(m: Memory, session: PairSession, after: Memory)
    requires Invariant(m) && session.status.Pending? && session.connectionId.None? && session.id != ""
    requires forall k :: 0 <= k < |m.sessions| ==> m.sessions[k].id != session.id
    requires forall s :: s in m.sessions && s.status.Pending? ==> s.userId != session.userId
    requires after == m.(sessions := m.sessions + [session], byHash := m.byHash[session.codeHash := session.id])
    ensures Invariant(after)
  {
    AddedPending(m.sessions, session, m.connections);
    SnocPrefix(m.sessions, session);
  }

  lemma AddedPending(kept: seq<PairSession>, session: PairSession, connections: seq<LocalConnection>)
    requires UniqueSessions(kept) && OnePending(kept) && Bijection(kept, connections)
    requires session.status.Pending? && session.connectionId.None? && session.id != ""
    requires forall k :: 0 <= k < |kept| ==> kept[k].id != session.id
    requires forall k :: 0 <= k < |kept| && kept[k].status.Pending? ==> kept[k].userId != session.userId
    ensures UniqueSessions(kept + [session]) && OnePending(kept + [session])
    ensures Bijection(kept + [session], connections)
  {
    var all := kept + [session];
    assert forall k :: 0 <= k < |kept| ==> all[k] == kept[k];
    assert all[|kept|] == session;
    assert ConnectedTo(all) == ConnectedTo(kept);
  }

  lemma CompleteKeepsInvariant(m: Memory, i: nat, now: int, c: LocalConnection)
    requires Invariant(m) && i < |m.sessions| && m.sessions[i].status.Pending?
    requires c.id != "" && ConnectionIndex(m.connections, c.id) == |m.connections|
    requires GeneratedNamespace(c.ns) && forall o :: o in m.connections ==> o.ns != c.ns
    requires c.userId == m.sessions[i].userId
    ensures var done := m.sessions[i].(status := Connected, completedAt := Some(now), connectionId := Some(c.id));
            Invariant(m.(sessions := m.sessions[i := done], connections := m.connections + [c]))
  {
    var done := m.sessions[i].(status := Connected, completedAt := Some(now), connectionId := Some(c.id));
    SameIndex(m.sessions, m.sessions[i := done]);
    AddedConnection(m.connections, c);
    CompletedBijection(m.sessions, m.connections, i, done, c);
  }

  ghost predicate Apart(a: LocalConnection, b: LocalConnection) {
    a.id != b.id && a.ns != b.ns
  }

  lemma ApartSnoc(connections: seq<LocalConnection>, c: LocalConnection)
    requires forall i, j :: 0 <= i < j < |connections| ==> Apart(connections[i], connections[j])
    requires forall i :: 0 <= i < |connections| ==> Apart(connections[i], c)
    ensures var all := connections + [c]; forall i, j :: 0 <= i < j < |all| ==> Apart(all[i], all[j])
  {
  }

  lemma AllApart(connections: seq<LocalConnection>)
    ensures UniqueConnections(connections) <==>
      && (forall i :: 0 <= i < |connections| ==> connections[i].id != "" && GeneratedNamespace(connections[i].ns))
      && (forall i, j :: 0 <= i < j < |connections| ==> Apart(connections[i], connections[j]))
  {
  }

  lemma NewIsApart(connections: seq<LocalConnection>, c: LocalConnection)
    requires ConnectionIndex(connections, c.id) == |connections| && forall o :: o in connections ==> o.ns != c.ns
    ensures forall i :: 0 <= i < |connections| ==> Apart(connections[i], c)
  {
    assert forall i :: 0 <= i < |connections| ==> connections[i] in connections;
  }

  lemma AddedConnection(connections: seq<LocalConnection>, c: LocalConnection)
    requires UniqueConnections(connections) && c.id != "" && GeneratedNamespace(c.ns)
    requires ConnectionIndex(connections, c.id) == |connections| && forall o :: o in connections ==> o.ns != c.ns
    ensures UniqueConnections(connections + [c])
    ensures c.id !in ConnectionIds(connections)
    ensures ConnectionIds(connections + [c]) == ConnectionIds(connections) + {c.id}
  {
    AllApart(connections);
    NewIsApart(connections, c);
    ApartSnoc(connections, c);
    AllApart(connections + [c]);
    AddedIds(connections, c);
  }

  lemma AddedIds(connections: seq<LocalConnection>, c: LocalConnection)
    requires ConnectionIndex(connections, c.id) == |connections|
    ensures c.id !in ConnectionIds(connections)
    ensures ConnectionIds(connections + [c]) == ConnectionIds(connections) + {c.id}
  {
    assert forall o :: o in connections + [c] <==> o in connections || o == c;
  }

  lemma CompletedBijection(
    sessions: seq<PairSession>, connections: seq<LocalConnection>, i: nat, done: PairSession, c: LocalConnection)
    requires i < |sessions| && sessions[i].status.Pending? && Bijection(sessions, connections)
    requires done.status.Connected? && done.connectionId == Some(c.id) && done.userId == c.userId
    requires c.id !in ConnectionIds(connections)
    requires ConnectionIds(connections + [c]) == ConnectionIds(connections) + {c.id}
    ensures Bijection(sessions[i := done], connections + [c])
  {
    CompletedIds(sessions, i, done, c.id);
    forall k | 0 <= k < |sessions| && sessions[k].connectionId.Some?
      ensures sessions[k].connectionId != Some(c.id)
    {
      assert sessions[k].connectionId.value in ConnectedTo(sessions);
    }
    forall k | 0 <= k < |connections| ensures connections[k].id != c.id {
      assert connections[k].id in ConnectionIds(connections);
    }
  }

  lemma CompletedIds(sessions: seq<PairSession>, i: nat, done: PairSession, id: string)
    requires i < |sessions| && sessions[i].status.Pending? && done.status.Connected? && done.connectionId == Some(id)
    ensures ConnectedTo(sessions[i := done]) == ConnectedTo(sessions) + {id}
  {
    var after := sessions[i := done];
    forall x | x in ConnectedTo(sessions) ensures x in ConnectedTo(after) {
      var s :| s in sessions && s.status.Connected? && s.connectionId == Some(x);
      var k :| 0 <= k < |sessions| && sessions[k] == s;
      assert after[k] == s;
    }
    assert after[i] == done;
    forall x | x in ConnectedTo(after) ensures x in ConnectedTo(sessions) + {id} {
      var s :| s in after && s.status.Connected? && s.connectionId == Some(x);
      var k :| 0 <= k < |after| && after[k] == s;
      if k != i {
        assert sessions[k] == s;
      }
    }
  }

  // Revoking and touching a connection leave its id, owner and namespace alone.
  lemma UpdatedConnection(m: Memory, k: nat, c: LocalConnection)
    requires Invariant(m) && k < |m.connections|
    requires c.id == m.connections[k].id && c.userId == m.connections[k].userId && c.ns == m.connections[k].ns
    ensures Invariant(m.(connections := m.connections[k := c]))
  {
    var after := m.connections[k := c];
    assert ConnectionIds(after) == ConnectionIds(m.connections) by {
      forall x | x in ConnectionIds(after) ensures x in ConnectionIds(m.connections) {
        var o :| o in after && o.id == x;
        var j :| 0 <= j < |after| && after[j] == o;
        assert m.connections[j].id == x;
      }
      forall x | x in ConnectionIds(m.connections) ensures x in ConnectionIds(after) {
        var o :| o in m.connections && o.id == x;
        var j :| 0 <= j < |after| && m.connections[j] == o;
        assert after[j].id == x;
      }
    }
  }

  lemma HandleKeepsInvariant(cfg: Config, m: Memory, d: Disk, r: Request)
    requires Invariant(m) && DrawsOk(m, r.call)
    ensures Invariant(Handle(cfg, m, d, r).memory)
  {
    match r.call
    case StartPair(_, _, _) => StartCallKeepsInvariant(cfg, m, d, r);
    case PairStatus(_, _) => StatusKeepsInvariant(cfg, m, d, r);
    case PairComplete(_, _, _, _, _, _) => CompleteCallKeepsInvariant(cfg, m, d, r);
    case RevokeConnection(_, _) => RevokeKeepsInvariant(cfg, m, d, r);
    case _ => ClientCallKeepsInvariant(cfg, m, d, r);
  }

  lemma StartCallKeepsInvariant(cfg: Config, m: Memory, d: Disk, r: Request)
    requires r.call.StartPair? && Invariant(m) && DrawsOk(m, r.call)
    ensures Invariant(Handle(cfg, m, d, r).memory)
  {
    if !r.limited {
      StartKeepsInvariant(m, r.call.user, r.now,
                          PairSession(r.call.sessionId, r.call.user, cfg.hash(r.call.code), Pending, r.now,
                                      r.now + cfg.ttl, None, None),
                          Handle(cfg, m, d, r).memory);
    }
  }

  lemma ClientCallKeepsInvariant(cfg: Config, m: Memory, d: Disk, r: Request)
    requires r.call.ListConnections? || r.call.RegisterAgent? || r.call.GoogleClient?
    requires Invariant(m)
    ensures Invariant(Handle(cfg, m, d, r).memory)
  {
    if !r.call.ListConnections? {
      TouchKeepsInvariant(m, r.call.clientId, r.now);
    }
  }

  lemma StatusKeepsInvariant(cfg: Config, m: Memory, d: Disk, r: Request)
    requires r.call.PairStatus? && Invariant(m)
    ensures Invariant(Handle(cfg, m, d, r).memory)
  {
    var i := SessionIndex(m.sessions, r.call.sessionId);
    if i < |m.sessions| {
      ExpiringKeepsInvariant(m, m.sessions[i := ExpireIfNeeded(m.sessions[i], r.now)]);
    }
  }

  lemma RevokeKeepsInvariant(cfg: Config, m: Memory, d: Disk, r: Request)
    requires r.call.RevokeConnection? && Invariant(m)
    ensures Invariant(Handle(cfg, m, d, r).memory)
  {
    var k := ConnectionIndex(m.connections, r.call.connectionId);
    if k < |m.connections| {
      UpdatedConnection(m, k, m.connections[k].(revokedAt := Some(r.now), lastSeenAt := r.now));
    }
  }

  lemma TouchKeepsInvariant(m: Memory, id: string, now: int)
    requires Invariant(m)
    ensures Invariant(Touch(m, id, now))
  {
    var k := ConnectionIndex(m.connections, id);
    if k < |m.connections| {
      UpdatedConnection(m, k, m.connections[k].(lastSeenAt := now));
    }
  }

  lemma CompleteCallKeepsInvariant(cfg: Config, m: Memory, d: Disk, r: Request)
    requires r.call.PairComplete? && Invariant(m) && DrawsOk(m, r.call)
    ensures Invariant(Handle(cfg, m, d, r).memory)
  {
    var i := FindByCode(cfg, m, r.call.code);
    if i < |m.sessions| {
      var s := ExpireIfNeeded(m.sessions[i], r.now);
      ExpiringKeepsInvariant(m, m.sessions[i := s]);
      if s.status.Pending? {
        CompleteKeepsInvariant(
          m, i, r.now,
          LocalConnection(r.call.connectionId, s.userId, Strip(r.call.clientName), Strip(r.call.fingerprint),
                          r.call.ns, cfg.hash(r.call.secret), r.now, r.now, None));
      }
    }
  }

  // ----- Runs -----

  datatype Event = Restart | Serve(request: Request)

  // A run as the service lives it: a restart forgets the memory and loads the file.
  function RunTo(cfg: Config, m: Memory, d: Disk, events: seq<Event>): (Memory, Disk)
    decreases |events|
  {
    if events == [] then (m, d)
    else
      match events[0]
      case Restart => RunTo(cfg, Load(cfg, d), d, events[1..])
      case Serve(r) => RunTo(cfg, Handle(cfg, m, d, r).memory, Handle(cfg, m, d, r).disk, events[1..])
  }

  function Replies(cfg: Config, m: Memory, d: Disk, events: seq<Event>): seq<Reply>
    decreases |events|
  {
    if events == [] then []
    else
      match events[0]
      case Restart => Replies(cfg, Load(cfg, d), d, events[1..])
      case Serve(r) =>
        [Handle(cfg, m, d, r).reply] + Replies(cfg, Handle(cfg, m, d, r).memory, Handle(cfg, m, d, r).disk, events[1..])
  }

  // The same requests without the restarts.
  function Requests(events: seq<Event>): seq<Event> {
    if events == [] then []
    else if events[0].Restart? then Requests(events[1..])
    else [events[0]] + Requests(events[1..])
  }

  // Every random draw is fresh. Clock readings may come in any order.
  ghost predicate DrawsFresh(cfg: Config, m: Memory, d: Disk, events: seq<Event>)
    decreases |events|
  {
    events == []
    || match events[0]
       case Restart => DrawsFresh(cfg, Load(cfg, d), d, events[1..])
       case Serve(r) =>
         DrawsOk(m, r.call) && DrawsFresh(cfg, Handle(cfg, m, d, r).memory, Handle(cfg, m, d, r).disk, events[1..])
  }

  function Max(a: int, b: int): int {
    if a >= b then a else b
  }

  // The latest clock reading so far, starting from `clock`.
  function LastClock(clock: int, events: seq<Event>): int
    decreases |events|
  {
    if events == [] then clock
    else LastClock(if events[0].Serve? then Max(clock, events[0].request.now) else clock, events[1..])
  }

  // The latest clock reading before the last restart; `floor` and `clock` are those at the start.
  function LastFloor(floor: int, clock: int, events: seq<Event>): int
    decreases |events|
  {
    if events == [] then floor
    else if events[0].Restart? then LastFloor(clock, clock, events[1..])
    else LastFloor(floor, Max(clock, events[0].request.now), events[1..])
  }

  // No clock reading is older than one that a restart has put behind it. Between restarts, requests
  // may be served out of clock order.
  ghost predicate ClocksOk(floor: int, clock: int, events: seq<Event>)
    decreases |events|
  {
    events == []
    || match events[0]
       case Restart => ClocksOk(clock, clock, events[1..])
       case Serve(r) => floor <= r.now && ClocksOk(floor, Max(clock, r.now), events[1..])
  }

  // In particular, a clock that never goes back is in order.
  ghost predicate Nondecreasing(clock: int, events: seq<Event>)
    decreases |events|
  {
    events == []
    || match events[0]
       case Restart => Nondecreasing(clock, events[1..])
       case Serve(r) => clock <= r.now && Nondecreasing(r.now, events[1..])
  }

  lemma {:induction false} NondecreasingIsOk(floor: int, clock: int, events: seq<Event>)
    requires floor <= clock && Nondecreasing(clock, events)
    ensures ClocksOk(floor, clock, events)
    decreases |events|
  {
    if events != [] {
      match events[0]
      case Restart => NondecreasingIsOk(clock, clock, events[1..]);
      case Serve(r) => NondecreasingIsOk(floor, r.now, events[1..]);
    }
  }

  ghost predicate RunOk(cfg: Config, m: Memory, d: Disk, floor: int, clock: int, events: seq<Event>) {
    floor <= clock && ClocksOk(floor, clock, events) && DrawsFresh(cfg, m, d, events)
  }

  // A memory and the file below it: both keep the invariant, and they differ by nothing but
  // overdue sessions that one of them has not marked yet.
  ghost predicate Synced(cfg: Config, m: Memory, d: Disk, clock: int) {
    Invariant(m) && Invariant(Load(cfg, d)) && SameView(Load(cfg, d), m, clock)
  }

  lemma HandleKeepsSynced(cfg: Config, m: Memory, d: Disk, clock: int, r: Request)
    requires Synced(cfg, m, d, clock) && DrawsOk(m, r.call)
    ensures Synced(cfg, Handle(cfg, m, d, r).memory, Handle(cfg, m, d, r).disk, Max(clock, r.now))
  {
    var o := Handle(cfg, m, d, r);
    HandleKeepsInvariant(cfg, m, d, r);
    WritesOrFlips(cfg, m, d, r);
    LoadUndoesPersist(cfg, o.memory);
    if o.disk != Persist(o.memory) {
      LaterView(Load(cfg, d), m, clock, Max(clock, r.now));
      LaterView(o.memory, m, r.now, Max(clock, r.now));
    }
  }

  lemma OutcomeIsSynced(
    cfg: Config, m: Memory, d: Disk, clock: int, r: Request, m': Memory, d': Disk, reply: Reply)
    requires Synced(cfg, m, d, clock) && DrawsOk(m, r.call) && Handle(cfg, m, d, r) == Outcome(m', d', reply)
    ensures Synced(cfg, m', d', Max(clock, r.now))
  {
    HandleKeepsSynced(cfg, m, d, clock, r);
  }

  lemma StartsSynced(cfg: Config, clock: int)
    ensures Synced(cfg, Load(cfg, NoFile), NoFile, clock)
  {
  }

  // Every reachable memory keeps the invariant, restarts included, whatever the clocks read. In
  // particular the hash index rebuilt by a restart is the one the running service would have had.
  lemma {:induction false} RunKeepsSynced(cfg: Config, m: Memory, d: Disk, clock: int, events: seq<Event>)
    requires Synced(cfg, m, d, clock) && DrawsFresh(cfg, m, d, events)
    ensures var (m', d') := RunTo(cfg, m, d, events); Synced(cfg, m', d', LastClock(clock, events))
    decreases |events|
  {
    if events != [] {
      match events[0]
      case Restart => RunKeepsSynced(cfg, Load(cfg, d), d, clock, events[1..]);
      case Serve(r) =>
        HandleKeepsSynced(cfg, m, d, clock, r);
        RunKeepsSynced(cfg, Handle(cfg, m, d, r).memory, Handle(cfg, m, d, r).disk, Max(clock, r.now), events[1..]);
    }
  }

  // ----- Two services side by side -----

  lemma SameViewAt(m: Memory, steady: Memory, low: int, now: int, i: nat)
    requires SameView(m, steady, low) && low <= now && i < |m.sessions|
    ensures |m.sessions| == |steady.sessions| && m.sessions[i].id == steady.sessions[i].id
    ensures m.sessions[i].userId == steady.sessions[i].userId
    ensures ExpireIfNeeded(m.sessions[i], now) == ExpireIfNeeded(steady.sessions[i], now)
  {
    assert |ViewSessions(m.sessions, low)| == |ViewSessions(steady.sessions, low)|;
    assert ViewSessions(m.sessions, low)[i] == ViewSessions(steady.sessions, low)[i];
  }

  // Replacing a session by the same one on both sides.
  lemma UpdatedAlike(m: Memory, steady: Memory, low: int, i: nat, s: PairSession)
    requires SameView(m, steady, low) && i < |m.sessions| == |steady.sessions|
    ensures SameView(m.(sessions := m.sessions[i := s]), steady.(sessions := steady.sessions[i := s]), low)
  {
    UpdatedView(m.sessions, i, s, low);
    UpdatedView(steady.sessions, i, s, low);
  }

  // Two services that agree up to sessions overdue at `low` still do after a request whose clock
  // reads `low` or later, even if it reads less than that of an earlier request.
  lemma SteadyStep(cfg: Config, m: Memory, d: Disk, steady: Memory, steadyDisk: Disk, low: int, r: Request)
    requires SameView(m, steady, low) && low <= r.now
    ensures Handle(cfg, m, d, r).reply == Handle(cfg, steady, steadyDisk, r).reply
    ensures SameView(Handle(cfg, m, d, r).memory, Handle(cfg, steady, steadyDisk, r).memory, low)
  {
    SteadyReply(cfg, m, d, steady, steadyDisk, low, r);
    match r.call
    case StartPair(user, _, _) => StartsAlike(m, steady, low, user, r.now);
    case PairStatus(_, _) => StatusAlike(cfg, m, d, steady, steadyDisk, low, r);
    case PairComplete(_, _, _, _, _, _) => CompleteAlike(cfg, m, d, steady, steadyDisk, low, r);
    case _ =>
  }

  lemma SteadyReply(cfg: Config, m: Memory, d: Disk, steady: Memory, steadyDisk: Disk, low: int, r: Request)
    requires SameView(m, steady, low) && low <= r.now
    ensures Handle(cfg, m, d, r).reply == Handle(cfg, steady, steadyDisk, r).reply
  {
    LaterView(m, steady, low, r.now);
    HandleSeesView(cfg, m, d, r);
    HandleSeesView(cfg, steady, steadyDisk, r);
    DiskIsIrrelevant(cfg, View(m, r.now), d, steadyDisk, r);
  }

  lemma StartsAlike(m: Memory, steady: Memory, low: int, user: string, now: int)
    requires SameView(m, steady, low) && low <= now
    ensures ExpireAllForStart(m.sessions, user, now) == ExpireAllForStart(steady.sessions, user, now)
  {
    assert |ViewSessions(m.sessions, low)| == |ViewSessions(steady.sessions, low)|;
    forall i | 0 <= i < |m.sessions|
      ensures ExpireForStart(m.sessions[i], user, now) == ExpireForStart(steady.sessions[i], user, now)
    {
      SameViewAt(m, steady, low, now, i);
    }
  }

  lemma SameLookups(cfg: Config, m: Memory, steady: Memory, low: int, id: string, code: string)
    requires SameView(m, steady, low)
    ensures |m.sessions| == |steady.sessions|
    ensures SessionIndex(m.sessions, id) == SessionIndex(steady.sessions, id)
    ensures FindByCode(cfg, m, code) == FindByCode(cfg, steady, code)
  {
    assert |ViewSessions(m.sessions, low)| == |ViewSessions(steady.sessions, low)|;
    ViewLookups(cfg, m, low, id, code);
    ViewLookups(cfg, steady, low, id, code);
  }

  lemma StatusAlike(cfg: Config, m: Memory, d: Disk, steady: Memory, steadyDisk: Disk, low: int, r: Request)
    requires SameView(m, steady, low) && low <= r.now && r.call.PairStatus?
    ensures SameView(Handle(cfg, m, d, r).memory, Handle(cfg, steady, steadyDisk, r).memory, low)
  {
    SameLookups(cfg, m, steady, low, r.call.sessionId, "");
    var i := SessionIndex(m.sessions, r.call.sessionId);
    if i < |m.sessions| {
      SameViewAt(m, steady, low, r.now, i);
      UpdatedAlike(m, steady, low, i, ExpireIfNeeded(m.sessions[i], r.now));
    }
  }

  lemma CompleteAlike(cfg: Config, m: Memory, d: Disk, steady: Memory, steadyDisk: Disk, low: int, r: Request)
    requires SameView(m, steady, low) && low <= r.now && r.call.PairComplete?
    ensures SameView(Handle(cfg, m, d, r).memory, Handle(cfg, steady, steadyDisk, r).memory, low)
  {
    SameLookups(cfg, m, steady, low, "", r.call.code);
    var i := FindByCode(cfg, m, r.call.code);
    if i < |m.sessions| {
      SameViewAt(m, steady, low, r.now, i);
      var s := ExpireIfNeeded(m.sessions[i], r.now);
      UpdatedAlike(m, steady, low, i, s);
      UpdatedAlike(m, steady, low, i,
                   s.(status := Connected, completedAt := Some(r.now), connectionId := Some(r.call.connectionId)));
    }
  }

  // ----- Restarts -----

  // Restart refinement: the replies of a run do not depend on where it was restarted. `steady`
  // is the memory of a service that got the same requests and never restarted.
  lemma {:induction false} RestartsAreInvisible(
    cfg: Config, m: Memory, d: Disk, steady: Memory, steadyDisk: Disk, floor: int, clock: int, events: seq<Event>)
    requires Synced(cfg, m, d, clock) && SameView(m, steady, floor) && RunOk(cfg, m, d, floor, clock, events)
    ensures Replies(cfg, m, d, events) == Replies(cfg, steady, steadyDisk, Requests(events))
    decreases |events|
  {
    if events != [] {
      match events[0]
      case Restart =>
        LaterView(m, steady, floor, clock);
        RestartsAreInvisible(cfg, Load(cfg, d), d, steady, steadyDisk, clock, clock, events[1..]);
      case Serve(r) =>
        HandleKeepsSynced(cfg, m, d, clock, r);
        SteadyStep(cfg, m, d, steady, steadyDisk, floor, r);
        var o, p := Handle(cfg, m, d, r), Handle(cfg, steady, steadyDisk, r);
        RestartsAreInvisible(cfg, o.memory, o.disk, p.memory, p.disk, floor, Max(clock, r.now), events[1..]);
        assert Requests(events)[1..] == Requests(events[1..]);
    }
  }

  // From an empty service: with or without restarts, the same requests get the same replies.
  lemma RestartRefinement(cfg: Config, clock: int, events: seq<Event>)
    requires RunOk(cfg, Load(cfg, NoFile), NoFile, clock, clock, events)
    ensures Replies(cfg, Load(cfg, NoFile), NoFile, events)
         == Replies(cfg, Load(cfg, NoFile), NoFile, Requests(events))
  {
    StartsSynced(cfg, clock);
    RestartsAreInvisible(cfg, Load(cfg, NoFile), NoFile, Load(cfg, NoFile), NoFile, clock, clock, events);
  }

  // ----- When exactly a restart is invisible -----

  // Every request is stamped at `low` or later. They come in any order, with any restarts in between.
  ghost predicate NotBefore(low: int, events: seq<Event>) {
    forall i :: 0 <= i < |events| && events[i].Serve? ==> low <= events[i].request.now
  }

  // Every session marked in the one place and not in the other expires by then.
  ghost predicate UnsavedBy(file: seq<PairSession>, memory: seq<PairSession>, low: int) {
    forall i :: 0 <= i < |file| && i < |memory| && file[i].status != memory[i].status ==> memory[i].expiresAt <= low
  }

  // Nobody who asks from then on can tell the restarted service from the one that goes on, even if
  // both are restarted again.
  ghost predicate RestartInvisible(cfg: Config, m: Memory, d: Disk, low: int) {
    forall events :: NotBefore(low, events) ==> Replies(cfg, Load(cfg, d), d, events) == Replies(cfg, m, d, events)
  }

  lemma ViewAgreesIff(a: Memory, b: Memory, late: int, low: int)
    requires SameView(a, b, late)
    ensures SameView(a, b, low) <==> UnsavedBy(a.sessions, b.sessions, low)
  {
    assert |ViewSessions(a.sessions, late)| == |ViewSessions(b.sessions, late)|;
    forall i | 0 <= i < |a.sessions|
      ensures ExpireIfNeeded(a.sessions[i], low) == ExpireIfNeeded(b.sessions[i], low) <==>
        (a.sessions[i].status != b.sessions[i].status ==> b.sessions[i].expiresAt <= low)
    {
      assert ViewSessions(a.sessions, late)[i] == ViewSessions(b.sessions, late)[i];
    }
    if SameView(a, b, low) {
      forall i | 0 <= i < |a.sessions| && a.sessions[i].status != b.sessions[i].status
        ensures b.sessions[i].expiresAt <= low
      {
        assert ViewSessions(a.sessions, low)[i] == ViewSessions(b.sessions, low)[i];
      }
    }
  }

  // Two memories that agree are saved and loaded as two that agree.
  lemma LoadsAlike(cfg: Config, m: Memory, other: Memory, low: int)
    requires SameView(m, other, low)
    ensures SameView(Load(cfg, Persist(m)), Load(cfg, Persist(other)), low)
  {
    assert |ViewSessions(m.sessions, low)| == |ViewSessions(other.sessions, low)|;
    forall i | 0 <= i < |m.sessions|
      ensures m.sessions[i].id == other.sessions[i].id && m.sessions[i].codeHash == other.sessions[i].codeHash
    {
      assert ViewSessions(m.sessions, low)[i] == ViewSessions(other.sessions, low)[i];
    }
    SameIndex(m.sessions, other.sessions);
  }

  // SteadyStep for the files: both services write, or neither does.
  lemma SteadyFiles(cfg: Config, m: Memory, d: Disk, steady: Memory, steadyDisk: Disk, low: int, r: Request)
    requires SameView(m, steady, low) && SameView(Load(cfg, d), Load(cfg, steadyDisk), low) && low <= r.now
    ensures var o, p := Handle(cfg, m, d, r), Handle(cfg, steady, steadyDisk, r);
      SameView(Load(cfg, o.disk), Load(cfg, p.disk), low)
  {
    var o, p := Handle(cfg, m, d, r), Handle(cfg, steady, steadyDisk, r);
    SteadyStep(cfg, m, d, steady, steadyDisk, low, r);
    ReplyTellsWriting(cfg, m, d, r);
    ReplyTellsWriting(cfg, steady, steadyDisk, r);
    LoadsAlike(cfg, o.memory, p.memory, low);
  }

  lemma {:induction false} SameRepliesFrom(
    cfg: Config, m: Memory, d: Disk, steady: Memory, steadyDisk: Disk, low: int, events: seq<Event>)
    requires SameView(m, steady, low) && SameView(Load(cfg, d), Load(cfg, steadyDisk), low) && NotBefore(low, events)
    ensures Replies(cfg, m, d, events) == Replies(cfg, steady, steadyDisk, events)
    decreases |events|
  {
    if events != [] {
      assert NotBefore(low, events[1..]) by {
        assert forall i :: 0 <= i < |events| - 1 ==> events[1..][i] == events[i + 1];
      }
      match events[0]
      case Restart => SameRepliesFrom(cfg, Load(cfg, d), d, Load(cfg, steadyDisk), steadyDisk, low, events[1..]);
      case Serve(r) =>
        SteadyStep(cfg, m, d, steady, steadyDisk, low, r);
        SteadyFiles(cfg, m, d, steady, steadyDisk, low, r);
        var o, p := Handle(cfg, m, d, r), Handle(cfg, steady, steadyDisk, r);
        SameRepliesFrom(cfg, o.memory, o.disk, p.memory, p.disk, low, events[1..]);
    }
  }

  // The question that tells them apart: the status of a session only one of them calls expired.
  function Question(s: PairSession, low: int): Request {
    Request(low, false, PairStatus(s.userId, s.id))
  }

  lemma QuestionTells(cfg: Config, m: Memory, d: Disk, file: Memory, late: int, low: int, i: nat)
    requires Invariant(m) && Invariant(file) && SameView(file, m, late) && i < |m.sessions| == |file.sessions|
    requires file.sessions[i].status != m.sessions[i].status && m.sessions[i].expiresAt > low
    ensures Handle(cfg, file, d, Question(m.sessions[i], low)).reply
         != Handle(cfg, m, d, Question(m.sessions[i], low)).reply
  {
    assert ViewSessions(file.sessions, late)[i] == ViewSessions(m.sessions, late)[i];
    var id := m.sessions[i].id;
    assert SessionIndex(m.sessions, id) == i && SessionIndex(file.sessions, id) == i;
  }

  // A restart is invisible to all requests stamped at `low` or later, in whatever order and with
  // whatever later restarts, exactly
  // when every session that memory has marked expired and the file has not expires by `low`.
  lemma RestartInvisibleIff(cfg: Config, m: Memory, d: Disk, late: int, low: int)
    requires Synced(cfg, m, d, late)
    ensures RestartInvisible(cfg, m, d, low) <==> UnsavedBy(Load(cfg, d).sessions, m.sessions, low)
  {
    var file := Load(cfg, d);
    ViewAgreesIff(file, m, late, low);
    assert |ViewSessions(file.sessions, late)| == |ViewSessions(m.sessions, late)|;
    if UnsavedBy(file.sessions, m.sessions, low) {
      forall events | NotBefore(low, events) ensures Replies(cfg, file, d, events) == Replies(cfg, m, d, events) {
        SameRepliesFrom(cfg, file, d, m, d, low, events);
      }
    } else {
      var i :| 0 <= i < |file.sessions|
               && file.sessions[i].status != m.sessions[i].status && m.sessions[i].expiresAt > low;
      QuestionTells(cfg, m, d, file, late, low, i);
      QuestionShows(cfg, m, d, low, Question(m.sessions[i], low));
    }
  }

  lemma QuestionShows(cfg: Config, m: Memory, d: Disk, low: int, r: Request)
    requires low <= r.now && Handle(cfg, Load(cfg, d), d, r).reply != Handle(cfg, m, d, r).reply
    ensures !RestartInvisible(cfg, m, d, low)
  {
    var events := [Serve(r)];
    assert NotBefore(low, events);
    assert Replies(cfg, Load(cfg, d), d, events)[0] != Replies(cfg, m, d, events)[0];
  }

  lemma {:induction false} RunsJoin(cfg: Config, m: Memory, d: Disk, first: seq<Event>, later: seq<Event>)
    ensures var (m', d') := RunTo(cfg, m, d, first);
      Replies(cfg, m, d, first + later) == Replies(cfg, m, d, first) + Replies(cfg, m', d', later)
    decreases |first|
  {
    if first == [] {
      assert first + later == later;
    } else {
      assert (first + later)[1..] == first[1..] + later;
      match first[0]
      case Restart => RunsJoin(cfg, Load(cfg, d), d, first[1..], later);
      case Serve(r) => RunsJoin(cfg, Handle(cfg, m, d, r).memory, Handle(cfg, m, d, r).disk, first[1..], later);
    }
  }

  // A restart at the end of a run from an empty service changes no reply to what follows.
  ghost predicate RestartChangesNothing(cfg: Config, events: seq<Event>, low: int) {
    forall later :: NotBefore(low, later) ==>
      Replies(cfg, Load(cfg, NoFile), NoFile, events + [Restart] + later)
      == Replies(cfg, Load(cfg, NoFile), NoFile, events + later)
  }

  lemma RestartsJoin(cfg: Config, events: seq<Event>, low: int)
    ensures var (m, d) := RunTo(cfg, Load(cfg, NoFile), NoFile, events);
      RestartChangesNothing(cfg, events, low) <==> RestartInvisible(cfg, m, d, low)
  {
    var (m, d) := RunTo(cfg, Load(cfg, NoFile), NoFile, events);
    forall later
      ensures Replies(cfg, Load(cfg, NoFile), NoFile, events + [Restart] + later)
           == Replies(cfg, Load(cfg, NoFile), NoFile, events + later)
         <==> Replies(cfg, Load(cfg, d), d, later) == Replies(cfg, m, d, later)
    {
      assert events + [Restart] + later == events + ([Restart] + later) && ([Restart] + later)[1..] == later;
      RunsJoin(cfg, Load(cfg, NoFile), NoFile, events, [Restart] + later);
      RunsJoin(cfg, Load(cfg, NoFile), NoFile, events, later);
      var same := Replies(cfg, Load(cfg, NoFile), NoFile, events);
      SameEnds(same, Replies(cfg, Load(cfg, d), d, later), Replies(cfg, m, d, later));
    }
  }

  lemma SameEnds<T>(first: seq<T>, a: seq<T>, b: seq<T>)
    ensures first + a == first + b <==> a == b
  {
    assert (first + a)[|first|..] == a && (first + b)[|first|..] == b;
  }

  // The exact condition for runs: whatever the clocks of the run read.
  lemma RestartAfterRunIff(cfg: Config, events: seq<Event>, low: int)
    requires DrawsFresh(cfg, Load(cfg, NoFile), NoFile, events)
    ensures var (m, d) := RunTo(cfg, Load(cfg, NoFile), NoFile, events);
      RestartChangesNothing(cfg, events, low) <==> UnsavedBy(Load(cfg, d).sessions, m.sessions, low)
  {
    StartsSynced(cfg, low);
    RunKeepsSynced(cfg, Load(cfg, NoFile), NoFile, low, events);
    var (m, d) := RunTo(cfg, Load(cfg, NoFile), NoFile, events);
    RestartInvisibleIff(cfg, m, d, LastClock(low, events), low);
    RestartsJoin(cfg, events, low);
  }

  // ----- What users can rely on -----

  // Sessions stay, and a connected one stays exactly as it is.
  ghost predicate KeepsConnected(a: seq<PairSession>, b: seq<PairSession>) {
    && |a| <= |b|
    && forall i :: 0 <= i < |a| ==>
         b[i].id == a[i].id && b[i].userId == a[i].userId && (a[i].status.Connected? ==> b[i] == a[i])
  }

  // A session that counts as expired at the one time does so at the other.
  ghost predicate KeepsExpired(a: seq<PairSession>, floor: int, b: seq<PairSession>, floor': int) {
    && |a| <= |b|
    && forall i :: 0 <= i < |a| && ExpireIfNeeded(a[i], floor).status.Expired? ==>
         ExpireIfNeeded(b[i], floor').status.Expired?
  }

  // What a handler does to an old session: nothing, or it marks it expired, or it completes it while
  // it is pending at the time.
  ghost predicate Advances(a: PairSession, now: int, b: PairSession) {
    && b.id == a.id && b.userId == a.userId
    && (b == a
        || (a.status.Pending? && b == a.(status := Expired))
        || (ExpireIfNeeded(a, now).status.Pending? && b.status.Connected?))
  }

  lemma HandleAdvances(cfg: Config, m: Memory, d: Disk, r: Request)
    ensures var after := Handle(cfg, m, d, r).memory.sessions;
      |m.sessions| <= |after| && forall i :: 0 <= i < |m.sessions| ==> Advances(m.sessions[i], r.now, after[i])
  {
    match r.call
    case PairStatus(_, _) =>
    case PairComplete(_, _, _, _, _, _) => CompleteAdvances(cfg, m, d, r);
    case _ =>
  }

  lemma CompleteAdvances(cfg: Config, m: Memory, d: Disk, r: Request)
    requires r.call.PairComplete?
    ensures var after := Handle(cfg, m, d, r).memory.sessions;
      |m.sessions| == |after| && forall i :: 0 <= i < |m.sessions| ==> Advances(m.sessions[i], r.now, after[i])
  {
  }

  // A restart gives back the connected sessions, and those that count as expired by now.
  lemma LoadKeeps(cfg: Config, m: Memory, d: Disk, floor: int, clock: int)
    requires Synced(cfg, m, d, clock) && floor <= clock
    ensures KeepsConnected(m.sessions, Load(cfg, d).sessions)
    ensures KeepsExpired(m.sessions, floor, Load(cfg, d).sessions, clock)
  {
    var l := Load(cfg, d);
    assert |ViewSessions(l.sessions, clock)| == |ViewSessions(m.sessions, clock)|;
    forall i | 0 <= i < |m.sessions|
      ensures ExpireIfNeeded(l.sessions[i], clock) == ExpireIfNeeded(m.sessions[i], clock)
    {
      assert ViewSessions(l.sessions, clock)[i] == ViewSessions(m.sessions, clock)[i];
    }
  }

  lemma ConnectedChains(a: seq<PairSession>, b: seq<PairSession>, c: seq<PairSession>)
    requires KeepsConnected(a, b) && KeepsConnected(b, c)
    ensures KeepsConnected(a, c)
  {
  }

  lemma ExpiredChains(
    a: seq<PairSession>, floor: int, b: seq<PairSession>, floor': int, c: seq<PairSession>, floor'': int)
    requires KeepsExpired(a, floor, b, floor') && KeepsExpired(b, floor', c, floor'')
    ensures KeepsExpired(a, floor, c, floor'')
  {
  }

  lemma HandleKeepsConnected(cfg: Config, m: Memory, d: Disk, r: Request)
    ensures KeepsConnected(m.sessions, Handle(cfg, m, d, r).memory.sessions)
  {
    HandleAdvances(cfg, m, d, r);
  }

  lemma HandleKeepsExpired(cfg: Config, m: Memory, d: Disk, floor: int, r: Request)
    requires floor <= r.now
    ensures KeepsExpired(m.sessions, floor, Handle(cfg, m, d, r).memory.sessions, floor)
  {
    HandleAdvances(cfg, m, d, r);
  }

  // Over whole runs, restarts included and whatever the clocks read, a connected session stays
  // exactly as it is.
  lemma {:induction false} ConnectedIsFinal(cfg: Config, m: Memory, d: Disk, clock: int, events: seq<Event>)
    requires Synced(cfg, m, d, clock) && DrawsFresh(cfg, m, d, events)
    ensures KeepsConnected(m.sessions, RunTo(cfg, m, d, events).0.sessions)
    decreases |events|
  {
    if events != [] {
      var last := RunTo(cfg, m, d, events).0.sessions;
      match events[0]
      case Restart =>
        LoadKeeps(cfg, m, d, clock, clock);
        ConnectedIsFinal(cfg, Load(cfg, d), d, clock, events[1..]);
        ConnectedChains(m.sessions, Load(cfg, d).sessions, last);
      case Serve(r) =>
        var o := Handle(cfg, m, d, r);
        HandleKeepsConnected(cfg, m, d, r);
        HandleKeepsSynced(cfg, m, d, clock, r);
        ConnectedIsFinal(cfg, o.memory, o.disk, Max(clock, r.now), events[1..]);
        ConnectedChains(m.sessions, o.memory.sessions, last);
    }
  }

  // As long as no clock reading is older than one before a restart, an expired session never comes
  // back either. ExpiredAfterRunIff says when exactly one can.
  lemma {:induction false} ExpiredIsFinal(
    cfg: Config, m: Memory, d: Disk, floor: int, clock: int, events: seq<Event>)
    requires Synced(cfg, m, d, clock) && RunOk(cfg, m, d, floor, clock, events)
    ensures KeepsExpired(m.sessions, floor, RunTo(cfg, m, d, events).0.sessions, LastFloor(floor, clock, events))
    decreases |events|
  {
    if events != [] {
      var last, lastFloor := RunTo(cfg, m, d, events).0.sessions, LastFloor(floor, clock, events);
      match events[0]
      case Restart =>
        LoadKeeps(cfg, m, d, floor, clock);
        ExpiredIsFinal(cfg, Load(cfg, d), d, clock, clock, events[1..]);
        ExpiredChains(m.sessions, floor, Load(cfg, d).sessions, clock, last, lastFloor);
      case Serve(r) =>
        var o := Handle(cfg, m, d, r);
        HandleKeepsExpired(cfg, m, d, floor, r);
        HandleKeepsSynced(cfg, m, d, clock, r);
        ExpiredIsFinal(cfg, o.memory, o.disk, floor, Max(clock, r.now), events[1..]);
        ExpiredChains(m.sessions, floor, o.memory.sessions, floor, last, lastFloor);
    }
  }

  // ----- When exactly an expired session stays expired -----

  // The file lags behind memory by nothing but sessions that memory has marked expired.
  ghost predicate Lags(file: seq<PairSession>, memory: seq<PairSession>) {
    && |file| == |memory|
    && forall i :: 0 <= i < |file| ==>
         memory[i] == file[i] || (file[i].status.Pending? && memory[i] == file[i].(status := Expired))
  }

  // A handler that leaves the file alone marks at most sessions that are pending.
  lemma UnwrittenMarks(cfg: Config, m: Memory, d: Disk, r: Request)
    requires !Writes(r.call, Handle(cfg, m, d, r).reply)
    ensures Lags(m.sessions, Handle(cfg, m, d, r).memory.sessions)
  {
  }

  lemma HandleKeepsLag(cfg: Config, m: Memory, d: Disk, r: Request)
    requires Lags(Load(cfg, d).sessions, m.sessions)
    ensures Lags(Load(cfg, Handle(cfg, m, d, r).disk).sessions, Handle(cfg, m, d, r).memory.sessions)
  {
    ReplyTellsWriting(cfg, m, d, r);
    if !Writes(r.call, Handle(cfg, m, d, r).reply) {
      UnwrittenMarks(cfg, m, d, r);
    }
  }

  lemma {:induction false} RunKeepsLag(cfg: Config, m: Memory, d: Disk, events: seq<Event>)
    requires Lags(Load(cfg, d).sessions, m.sessions)
    ensures var (m', d') := RunTo(cfg, m, d, events); Lags(Load(cfg, d').sessions, m'.sessions)
    decreases |events|
  {
    if events != [] {
      match events[0]
      case Restart => RunKeepsLag(cfg, Load(cfg, d), d, events[1..]);
      case Serve(r) =>
        HandleKeepsLag(cfg, m, d, r);
        RunKeepsLag(cfg, Handle(cfg, m, d, r).memory, Handle(cfg, m, d, r).disk, events[1..]);
    }
  }

  // Whatever is asked from `low` on, and however often the service restarts, what had expired by
  // `low` stays expired.
  ghost predicate ExpiredStays(cfg: Config, m: Memory, d: Disk, low: int) {
    forall later :: NotBefore(low, later) ==> KeepsExpired(m.sessions, low, RunTo(cfg, m, d, later).0.sessions, low)
  }

  // What memory and file both call expired stays so.
  lemma {:induction false} ExpiredThrough(
    cfg: Config, was: seq<PairSession>, m: Memory, d: Disk, low: int, later: seq<Event>)
    requires KeepsExpired(was, low, m.sessions, low) && KeepsExpired(was, low, Load(cfg, d).sessions, low)
    requires NotBefore(low, later)
    ensures KeepsExpired(was, low, RunTo(cfg, m, d, later).0.sessions, low)
    decreases |later|
  {
    if later != [] {
      assert NotBefore(low, later[1..]) by {
        assert forall i :: 0 <= i < |later| - 1 ==> later[1..][i] == later[i + 1];
      }
      match later[0]
      case Restart => ExpiredThrough(cfg, was, Load(cfg, d), d, low, later[1..]);
      case Serve(r) =>
        var o := Handle(cfg, m, d, r);
        HandleKeepsExpired(cfg, m, d, low, r);
        ReplyTellsWriting(cfg, m, d, r);
        ExpiredChains(was, low, m.sessions, low, o.memory.sessions, low);
        ExpiredThrough(cfg, was, o.memory, o.disk, low, later[1..]);
    }
  }

  lemma ExpiredStaysIff(cfg: Config, m: Memory, d: Disk, low: int)
    requires Lags(Load(cfg, d).sessions, m.sessions)
    ensures ExpiredStays(cfg, m, d, low) <==> UnsavedBy(Load(cfg, d).sessions, m.sessions, low)
  {
    var file := Load(cfg, d).sessions;
    if UnsavedBy(file, m.sessions, low) {
      forall later | NotBefore(low, later)
        ensures KeepsExpired(m.sessions, low, RunTo(cfg, m, d, later).0.sessions, low)
      {
        ExpiredThrough(cfg, m.sessions, m, d, low, later);
      }
    }
    if ExpiredStays(cfg, m, d, low) {
      var later := [Restart];
      assert NotBefore(low, later) && later[1..] == [];
      assert KeepsExpired(m.sessions, low, RunTo(cfg, m, d, later).0.sessions, low);
    }
  }

  // The exact condition for runs from an empty service is that of RestartAfterRunIff: an expired
  // session can come back exactly when a restart can be seen.
  lemma ExpiredAfterRunIff(cfg: Config, events: seq<Event>, low: int)
    ensures var (m, d) := RunTo(cfg, Load(cfg, NoFile), NoFile, events);
      ExpiredStays(cfg, m, d, low) <==> UnsavedBy(Load(cfg, d).sessions, m.sessions, low)
  {
    RunKeepsLag(cfg, Load(cfg, NoFile), NoFile, events);
    var (m, d) := RunTo(cfg, Load(cfg, NoFile), NoFile, events);
    ExpiredStaysIff(cfg, m, d, low);
  }

  // A code that completed its session never completes it again, whatever the clocks read: any
  // later attempt that finds the session is told the code was used.
  lemma CodeCompletesOnce(
    cfg: Config, m: Memory, d: Disk, clock: int, first: Request, between: seq<Event>, second: Request)
    requires Synced(cfg, m, d, clock) && DrawsFresh(cfg, m, d, [Serve(first)] + between)
    requires first.call.PairComplete? && Handle(cfg, m, d, first).reply.Completed?
    requires second.call.PairComplete? && !second.limited
    ensures var (m', d') := RunTo(cfg, m, d, [Serve(first)] + between);
            FindByCode(cfg, m', second.call.code) == FindByCode(cfg, m, first.call.code) ==>
              Handle(cfg, m', d', second).reply == Failed(409)
  {
    var o := Handle(cfg, m, d, first);
    assert ([Serve(first)] + between)[1..] == between;
    var last := RunTo(cfg, o.memory, o.disk, between);
    HandleKeepsSynced(cfg, m, d, clock, first);
    ConnectedIsFinal(cfg, o.memory, o.disk, Max(clock, first.now), between);
    CompletingConnects(cfg, m, d, first);
    UsedCodeIsRefused(cfg, last.0, last.1, second);
  }

  lemma CompletingConnects(cfg: Config, m: Memory, d: Disk, r: Request)
    requires r.call.PairComplete? && Handle(cfg, m, d, r).reply.Completed?
    ensures var i := FindByCode(cfg, m, r.call.code);
      var after := Handle(cfg, m, d, r).memory.sessions;
      i < |after| && after[i].status.Connected?
  {
  }

  lemma UsedCodeIsRefused(cfg: Config, m: Memory, d: Disk, r: Request)
    requires r.call.PairComplete? && !r.limited
    ensures var i := FindByCode(cfg, m, r.call.code);
      i < |m.sessions| && m.sessions[i].status.Connected? ==> Handle(cfg, m, d, r).reply == Failed(409)
  {
  }

  // pair_status never answers "pending" for a session that was completed: it returns the
  // connection, and that connection belongs to the asking user.
  lemma ConnectedSessionsReportTheirConnection(cfg: Config, m: Memory, d: Disk, r: Request)
    requires Invariant(m) && r.call.PairStatus? && !r.limited && r.call.sessionId != ""
    requires var i := SessionIndex(m.sessions, r.call.sessionId);
             i < |m.sessions| && m.sessions[i].userId == r.call.user && m.sessions[i].status.Connected?
    ensures var i := SessionIndex(m.sessions, r.call.sessionId);
            var reply := Handle(cfg, m, d, r).reply;
            && reply.IsConnected? && reply.connection in m.connections
            && reply.connection.userId == r.call.user && m.sessions[i].connectionId == Some(reply.connection.id)
  {
    var i := SessionIndex(m.sessions, r.call.sessionId);
    var id := m.sessions[i].connectionId.value;
    assert id in ConnectedTo(m.sessions);
    var c :| c in m.connections && c.id == id;
    var k :| 0 <= k < |m.connections| && m.connections[k] == c;
    assert ConnectionIndex(m.connections, id) <= k;
    assert m.connections[ConnectionIndex(m.connections, id)].id != "";
  }

  // Suffixes of one length cannot both end the same username.
  lemma SameSuffix(username: string, a: string, b: string)
    requires |a| == |b| && EndsWith(username, a) && EndsWith(username, b)
    ensures a == b
  {
  }

  // No username is permitted for two connections.
  lemma UsernameHasOneOwner(m: Memory, i: nat, j: nat, username: string)
    requires Invariant(m) && i < |m.connections| && j < |m.connections|
    requires UsernamePermitted(username, m.connections[i].ns) && UsernamePermitted(username, m.connections[j].ns)
    ensures i == j
  {
    var a, b := m.connections[i].ns, m.connections[j].ns;
    SameSuffix(username, "_" + a, "_" + b);
    assert a == ("_" + a)[1..] && b == ("_" + b)[1..];
    assert a == b;
  }

  // ... at any moment of any run.
  lemma UsernamesNeverCollide(cfg: Config, events: seq<Event>, i: nat, j: nat, username: string)
    requires DrawsFresh(cfg, Load(cfg, NoFile), NoFile, events)
    requires var m := RunTo(cfg, Load(cfg, NoFile), NoFile, events).0;
             && i < |m.connections| && j < |m.connections|
             && UsernamePermitted(username, m.connections[i].ns) && UsernamePermitted(username, m.connections[j].ns)
    ensures i == j
  {
    StartsSynced(cfg, 0);
    RunKeepsSynced(cfg, Load(cfg, NoFile), NoFile, 0, events);
    UsernameHasOneOwner(RunTo(cfg, Load(cfg, NoFile), NoFile, events).0, i, j, username);
  }

  // ----- Clocks set back across a restart -----

  // The handlers read the wall clock, and before they take the lock. Within one process that only
  // reorders requests, which RestartRefinement allows; a reading older than one before a restart
  // takes a clock that was set back. One code, whose session expires at `late` ...
  function StartedThen(cfg: Config, late: int): Request {
    Request(late - cfg.ttl, false, StartPair("user", "code", "id"))
  }

  function Waiting(cfg: Config, late: int): PairSession {
    PairSession("id", "user", cfg.hash("code"), Pending, late - cfg.ttl, late, None, None)
  }

  function Started(cfg: Config, late: int): Memory {
    Memory([Waiting(cfg, late)], map[cfg.hash("code") := "id"], [])
  }

  function Asked(cfg: Config, late: int): Memory {
    Started(cfg, late).(sessions := [Waiting(cfg, late).(status := Expired)])
  }

  // ... is seen to be overdue at `late`; only memory knows.
  function CrossedRun(cfg: Config, late: int): seq<Event> {
    [Serve(StartedThen(cfg, late)), Serve(Question(Waiting(cfg, late), late))]
  }

  lemma StartStep(cfg: Config, late: int)
    ensures var o := Handle(cfg, Load(cfg, NoFile), NoFile, StartedThen(cfg, late));
      o.memory == Started(cfg, late) && o.disk == Persist(o.memory)
  {
  }

  lemma AskStep(cfg: Config, late: int)
    ensures var m := Started(cfg, late);
      var o := Handle(cfg, m, Persist(m), Question(Waiting(cfg, late), late));
      o.memory == Asked(cfg, late) && o.disk == Persist(m)
  {
    assert SessionIndex(Started(cfg, late).sessions, "id") == 0;
  }

  lemma CrossedRunTo(cfg: Config, late: int)
    ensures DrawsFresh(cfg, Load(cfg, NoFile), NoFile, CrossedRun(cfg, late))
    ensures RunTo(cfg, Load(cfg, NoFile), NoFile, CrossedRun(cfg, late))
         == (Asked(cfg, late), Persist(Started(cfg, late)))
  {
    var first, second := StartedThen(cfg, late), Question(Waiting(cfg, late), late);
    StartStep(cfg, late);
    AskStep(cfg, late);
    assert CrossedRun(cfg, late)[1..] == [Serve(second)];
    OneStep(cfg, Started(cfg, late), Persist(Started(cfg, late)), second);
  }

  lemma OneStep(cfg: Config, m: Memory, d: Disk, r: Request)
    ensures RunTo(cfg, m, d, [Serve(r)]) == (Handle(cfg, m, d, r).memory, Handle(cfg, m, d, r).disk)
    ensures DrawsFresh(cfg, m, d, [Serve(r)]) <==> DrawsOk(m, r.call)
  {
    assert [Serve(r)][1..] == [];
  }

  // Whatever the configuration, after such a run a restart shows to requests stamped before `late`.
  lemma ClocksSetBackShowRestarts(cfg: Config, early: int, late: int)
    ensures DrawsFresh(cfg, Load(cfg, NoFile), NoFile, CrossedRun(cfg, late))
    ensures RestartChangesNothing(cfg, CrossedRun(cfg, late), early) <==> late <= early
  {
    CrossedRunTo(cfg, late);
    RestartAfterRunIff(cfg, CrossedRun(cfg, late), early);
    assert Load(cfg, Persist(Started(cfg, late))).sessions == Started(cfg, late).sessions;
  }
}

// What the answers of the provisioning service mean, in terms of what it remembers, and what they
// mean over whole runs: who is admitted, by which secret, and until when.
module PairingAnswers {

  import opened Options
  import opened Sequences
  import opened Pairing
  import opened PairingRuns

  // ----- One client -----

  // The connection a client names, with the secret that belongs to it.
  ghost predicate Presents(cfg: Config, m: Memory, id: string, secret: string, c: LocalConnection) {
    c in m.connections && c.id == id && c.secretHash == cfg.hash(secret)
  }

  ghost predicate Owns(username: string, ns: string) {
    exists entity: string :: entity != "" && username == "mindroom_" + entity + "_" + ns
  }

  // Of the connections only the one named was seen.
  ghost predicate OnlySeen(before: Memory, after: Memory, id: string, now: int) {
    && after == before.(connections := after.connections)
    && |after.connections| == |before.connections|
    && forall i :: 0 <= i < |before.connections| ==>
         var c := before.connections[i];
         after.connections[i] == if c.id == id then c.(lastSeenAt := now) else c
  }

  lemma PermittedMeansOwned(username: string, ns: string)
    requires ns != ""
    ensures UsernamePermitted(username, ns) <==> Owns(username, ns)
  {
    var suffix := "_" + ns;
    if UsernamePermitted(username, ns) {
      var entity := username[|PREFIX|..|username| - |suffix|];
      assert username == PREFIX + entity + "_" + ns;
    }
    if entity: string :| entity != "" && username == "mindroom_" + entity + "_" + ns {
      assert username == PREFIX + entity + suffix;
      assert username[..|PREFIX|] == PREFIX && username[|username| - |suffix|..] == suffix;
    }
  }

  lemma NamedConnection(m: Memory, id: string, c: LocalConnection)
    requires UniqueConnections(m.connections) && c in m.connections && c.id == id
    ensures ConnectionIndex(m.connections, id) < |m.connections|
    ensures m.connections[ConnectionIndex(m.connections, id)] == c
  {
    var i :| 0 <= i < |m.connections| && m.connections[i] == c;
    var k := ConnectionIndex(m.connections, id);
    assert k <= i;
  }

  lemma TouchedIsSeen(m: Memory, id: string, now: int)
    requires UniqueConnections(m.connections)
    ensures OnlySeen(m, Touch(m, id, now), id, now)
  {
    var k := ConnectionIndex(m.connections, id);
    forall i | 0 <= i < |m.connections| && m.connections[i].id == id ensures i == k {
      assert k <= i;
    }
  }

  // _require_local_client lets pass whoever presents the secret of a connection that is not revoked.
  ghost predicate Admitted(cfg: Config, m: Memory, id: string, secret: string) {
    secret != "" && exists c :: Presents(cfg, m, id, secret, c) && c.revokedAt.None?
  }

  lemma ClientCheckMeans(cfg: Config, m: Memory, id: string, secret: string)
    requires Invariant(m)
    ensures ClientCheck(cfg, m, id, secret) == 0 <==> Admitted(cfg, m, id, secret)
  {
    var r := Request(0, false, GoogleClient(id, secret));
    GoogleClientMeans(cfg, m, NoFile, r);
  }

  // register_agent admits exactly the clients that present the secret of a connection that is not
  // revoked, for the names of that connection.
  lemma RegisterAgentMeans(cfg: Config, m: Memory, d: Disk, r: Request)
    requires Invariant(m) && r.call.RegisterAgent?
    ensures var o := Handle(cfg, m, d, r);
      var id, secret := r.call.clientId, r.call.clientSecret;
      && (o.reply == Failed(401) <==> secret == "" || !exists c :: Presents(cfg, m, id, secret, c))
      && (o.reply == Failed(403) <==>
            && secret != ""
            && exists c :: Presents(cfg, m, id, secret, c)
                 && (c.revokedAt.Some? || (!r.limited && !Owns(r.call.username, c.ns))))
      && (o.reply == Failed(429) <==>
            secret != "" && r.limited && exists c :: Presents(cfg, m, id, secret, c) && c.revokedAt.None?)
      && (o.reply == Permitted(id) <==>
            && secret != "" && !r.limited
            && exists c :: Presents(cfg, m, id, secret, c) && c.revokedAt.None? && Owns(r.call.username, c.ns))
      && (o.reply == Permitted(id) ==> OnlySeen(m, o.memory, id, r.now) && o.disk == Persist(o.memory))
      && (o.reply != Permitted(id) ==> o.reply.Failed? && o.memory == m && o.disk == d)
  {
    var id, secret := r.call.clientId, r.call.clientSecret;
    TouchedIsSeen(m, id, r.now);
    if c :| Presents(cfg, m, id, secret, c) {
      NamedConnection(m, id, c);
      assert forall e :: Presents(cfg, m, id, secret, e) ==> e == c by {
        forall e | Presents(cfg, m, id, secret, e) ensures e == c {
          NamedConnection(m, id, e);
        }
      }
      PermittedMeansOwned(r.call.username, c.ns);
    } else {
      var k := ConnectionIndex(m.connections, id);
      assert k < |m.connections| && m.connections[k].secretHash == cfg.hash(secret) ==>
        Presents(cfg, m, id, secret, m.connections[k]);
    }
  }

  lemma GoogleClientMeans(cfg: Config, m: Memory, d: Disk, r: Request)
    requires Invariant(m) && r.call.GoogleClient?
    ensures var o := Handle(cfg, m, d, r);
      var id, secret := r.call.clientId, r.call.clientSecret;
      && (o.reply == Failed(401) <==> secret == "" || !exists c :: Presents(cfg, m, id, secret, c))
      && (o.reply == Failed(403) <==>
            secret != "" && exists c :: Presents(cfg, m, id, secret, c) && c.revokedAt.Some?)
      && (o.reply == Failed(429) <==>
            secret != "" && r.limited && exists c :: Presents(cfg, m, id, secret, c) && c.revokedAt.None?)
      && (o.reply == (if cfg.googleConfigured then Permitted(id) else Failed(503)) <==>
            secret != "" && !r.limited && exists c :: Presents(cfg, m, id, secret, c) && c.revokedAt.None?)
      && (o.reply == Permitted(id) || o.reply == Failed(503) ==>
            OnlySeen(m, o.memory, id, r.now) && o.disk == Persist(o.memory))
      && (o.reply != Permitted(id) && o.reply != Failed(503) ==> o.reply.Failed? && o.memory == m && o.disk == d)
  {
    var id, secret := r.call.clientId, r.call.clientSecret;
    TouchedIsSeen(m, id, r.now);
    if c :| Presents(cfg, m, id, secret, c) {
      NamedConnection(m, id, c);
      assert forall e :: Presents(cfg, m, id, secret, e) ==> e == c by {
        forall e | Presents(cfg, m, id, secret, e) ensures e == c {
          NamedConnection(m, id, e);
        }
      }
    } else {
      var k := ConnectionIndex(m.connections, id);
      assert k < |m.connections| && m.connections[k].secretHash == cfg.hash(secret) ==>
        Presents(cfg, m, id, secret, m.connections[k]);
    }
  }

  // ----- One user -----

  // The members of `all` that belong to the user, in the order they have there.
  ghost predicate InOrderOf(list: seq<LocalConnection>, all: seq<LocalConnection>, user: string) {
    list == Keep((c: LocalConnection) => c.userId == user, all)
  }

  lemma {:induction false} OwnedInOrder(all: seq<LocalConnection>, user: string)
    ensures InOrderOf(OwnedBy(all, user), all, user)
  {
    if all != [] {
      OwnedInOrder(all[..|all| - 1], user);
    }
  }

  lemma ListConnectionsMeans(cfg: Config, m: Memory, d: Disk, r: Request)
    requires Invariant(m) && r.call.ListConnections?
    ensures var o := Handle(cfg, m, d, r);
      && o.memory == m && o.disk == d
      && (if r.limited then o.reply == Failed(429)
          else o.reply.Connections? && InOrderOf(o.reply.connections, m.connections, r.call.user))
  {
    OwnedInOrder(m.connections, r.call.user);
  }

  ghost predicate OnlyRevoked(before: Memory, after: Memory, id: string, now: int) {
    && after == before.(connections := after.connections)
    && |after.connections| == |before.connections|
    && forall i :: 0 <= i < |before.connections| ==>
         var c := before.connections[i];
         after.connections[i] == if c.id == id then c.(revokedAt := Some(now), lastSeenAt := now) else c
  }

  // Users revoke exactly their own connections.
  lemma RevokeConnectionMeans(cfg: Config, m: Memory, d: Disk, r: Request)
    requires Invariant(m) && r.call.RevokeConnection?
    ensures var o := Handle(cfg, m, d, r);
      var owned := exists c :: c in m.connections && c.id == r.call.connectionId && c.userId == r.call.user;
      && o.reply == (if r.limited then Failed(429) else if owned then Revoked(r.call.connectionId) else Failed(404))
      && (o.reply.Revoked? ==> OnlyRevoked(m, o.memory, r.call.connectionId, r.now) && o.disk == Persist(o.memory))
      && (!o.reply.Revoked? ==> o.memory == m && o.disk == d)
  {
    var id := r.call.connectionId;
    var k := ConnectionIndex(m.connections, id);
    forall i | 0 <= i < |m.connections| && m.connections[i].id == id ensures i == k {
      assert k <= i;
    }
    if c :| c in m.connections && c.id == id && c.userId == r.call.user {
      NamedConnection(m, id, c);
    } else if k < |m.connections| {
      assert m.connections[k] in m.connections;
    }
  }

  // ----- One pairing session -----

  ghost predicate Overdue(s: PairSession, now: int) {
    s.status.Pending? && s.expiresAt <= now
  }

  // start_pair ends what the user still waits on, and what is overdue, and adds one pending session.
  lemma StartPairMeans(cfg: Config, m: Memory, d: Disk, r: Request)
    requires r.call.StartPair?
    ensures var o := Handle(cfg, m, d, r);
      var (n, after) := (|m.sessions|, o.memory.sessions);
      && o.reply == (if r.limited then Failed(429) else Started(r.call.code, r.call.sessionId, r.now + cfg.ttl))
      && (r.limited ==> o.memory == m && o.disk == d)
      && (!r.limited ==>
            && |after| == n + 1 && o.memory.connections == m.connections && o.disk == Persist(o.memory)
            && after[n] == PairSession(r.call.sessionId, r.call.user, cfg.hash(r.call.code), Pending,
                                       r.now, r.now + cfg.ttl, None, None)
            && forall i :: 0 <= i < n ==>
                 var s := m.sessions[i];
                 after[i] == if s.status.Pending? && (s.expiresAt <= r.now || s.userId == r.call.user)
                             then s.(status := Expired) else s)
  {
  }

  // The session with that id.
  ghost predicate IsSession(m: Memory, id: string, i: nat) {
    i < |m.sessions| && m.sessions[i].id == id
  }

  ghost predicate OnlyMarks(before: Memory, after: Memory, i: nat, s: PairSession)
    requires i < |before.sessions|
  {
    after == before.(sessions := before.sessions[i := s])
  }

  lemma SessionFound(m: Memory, id: string, i: nat)
    requires UniqueSessions(m.sessions) && IsSession(m, id, i)
    ensures SessionIndex(m.sessions, id) == i
  {
    var k := SessionIndex(m.sessions, id);
    assert k <= i;
  }

  // pair_status tells the user what has become of a session, and marks it when it is overdue.
  lemma PairStatusMeans(cfg: Config, m: Memory, d: Disk, r: Request, i: nat)
    requires Invariant(m) && r.call.PairStatus? && IsSession(m, r.call.sessionId, i)
    requires m.sessions[i].userId == r.call.user && !r.limited
    ensures var o, s := Handle(cfg, m, d, r), m.sessions[i];
      && o.disk == d
      && (o.reply.HasExpired? <==> s.status.Expired? || Overdue(s, r.now))
      && (o.reply == StillPending(s.expiresAt) <==> s.status.Pending? && r.now < s.expiresAt)
      && (o.reply.IsConnected? <==> s.status.Connected?)
      && (o.reply.IsConnected? ==> o.reply.connection in m.connections && s.connectionId == Some(o.reply.connection.id))
      && OnlyMarks(m, o.memory, i, if Overdue(s, r.now) then s.(status := Expired) else s)
  {
    SessionFound(m, r.call.sessionId, i);
    if m.sessions[i].status.Connected? {
      ConnectedSessionsReportTheirConnection(cfg, m, d, r);
    }
  }

  lemma PairStatusRefuses(cfg: Config, m: Memory, d: Disk, r: Request)
    requires Invariant(m) && r.call.PairStatus?
    ensures var o := Handle(cfg, m, d, r);
      var mine := exists i: nat :: IsSession(m, r.call.sessionId, i) && m.sessions[i].userId == r.call.user;
      && (o.reply == Failed(429) <==> r.limited)
      && (o.reply == Failed(400) <==> !r.limited && r.call.sessionId == "")
      && (o.reply == Failed(404) <==> !r.limited && r.call.sessionId != "" && !mine)
      && (o.reply.Failed? ==> o.memory == m && o.disk == d)
  {
    var k := SessionIndex(m.sessions, r.call.sessionId);
    if i: nat :| IsSession(m, r.call.sessionId, i) && m.sessions[i].userId == r.call.user {
      SessionFound(m, r.call.sessionId, i);
    } else if k < |m.sessions| {
      assert IsSession(m, r.call.sessionId, k);
    }
  }

  ghost predicate IsLastWith(sessions: seq<PairSession>, hash: string, i: nat) {
    && i < |sessions| && sessions[i].codeHash == hash
    && forall j :: i < j < |sessions| ==> sessions[j].codeHash != hash
  }

  // The latest session for that code.
  ghost predicate IsForCode(cfg: Config, m: Memory, code: string, i: nat) {
    IsLastWith(m.sessions, cfg.hash(code), i)
  }

  lemma {:induction false} IndexMeans(sessions: seq<PairSession>, hash: string, i: nat)
    requires IsLastWith(sessions, hash, i)
    ensures hash in IndexOf(sessions) && IndexOf(sessions)[hash] == sessions[i].id
  {
    var n := |sessions| - 1;
    if i < n {
      IndexMeans(sessions[..n], hash, i);
    }
  }

  lemma {:induction false} IndexedIsThere(sessions: seq<PairSession>, hash: string)
    requires hash in IndexOf(sessions)
    ensures exists i :: 0 <= i < |sessions| && sessions[i].codeHash == hash
  {
    var n := |sessions| - 1;
    if sessions[n].codeHash != hash {
      IndexedIsThere(sessions[..n], hash);
      var i :| 0 <= i < n && sessions[..n][i].codeHash == hash;
      assert sessions[i].codeHash == hash;
    }
  }

  lemma CodeFound(cfg: Config, m: Memory, code: string)
    requires Invariant(m)
    ensures var k := FindByCode(cfg, m, code);
      if k < |m.sessions| then IsForCode(cfg, m, code, k) else forall i: nat :: !IsForCode(cfg, m, code, i)
    ensures forall i: nat :: IsForCode(cfg, m, code, i) ==> FindByCode(cfg, m, code) == i
  {
    var hash := cfg.hash(code);
    forall i: nat | IsForCode(cfg, m, code, i) ensures FindByCode(cfg, m, code) == i {
      IndexMeans(m.sessions, hash, i);
      SessionFound(m, m.sessions[i].id, i);
    }
    if hash in m.byHash {
      IndexedIsThere(m.sessions, hash);
      var i := LastFor(m.sessions, hash);
      assert IsForCode(cfg, m, code, i);
    }
  }

  lemma {:induction false} LastFor(sessions: seq<PairSession>, hash: string) returns (i: nat)
    requires exists k :: 0 <= k < |sessions| && sessions[k].codeHash == hash
    ensures IsLastWith(sessions, hash, i)
  {
    var n := |sessions| - 1;
    if sessions[n].codeHash == hash {
      i := n;
    } else {
      i := LastFor(sessions[..n], hash);
    }
  }

  // A code works once, and before its session is overdue. It gives its owner one new connection.
  lemma PairCompleteMeans(cfg: Config, m: Memory, d: Disk, r: Request, i: nat)
    requires Invariant(m) && r.call.PairComplete? && !r.limited && IsForCode(cfg, m, r.call.code, i)
    ensures var o, s := Handle(cfg, m, d, r), m.sessions[i];
      var c := LocalConnection(
        r.call.connectionId, s.userId, Strip(r.call.clientName), Strip(r.call.fingerprint), r.call.ns,
        cfg.hash(r.call.secret), r.now, r.now, None);
      && (o.reply == Failed(410) <==> s.status.Expired? || Overdue(s, r.now))
      && (o.reply == Failed(409) <==> s.status.Connected?)
      && (o.reply == Completed(c, r.call.secret, s.userId) <==> s.status.Pending? && r.now < s.expiresAt)
      && (o.reply.Completed? ==>
            && o.memory.sessions
               == m.sessions[i := s.(status := Connected, completedAt := Some(r.now), connectionId := Some(c.id))]
            && o.memory.connections == m.connections + [c] && o.memory.byHash == m.byHash
            && o.disk == Persist(o.memory))
      && (!o.reply.Completed? ==>
            OnlyMarks(m, o.memory, i, if Overdue(s, r.now) then s.(status := Expired) else s) && o.disk == d)
  {
    CodeFound(cfg, m, r.call.code);
  }

  lemma PairCompleteRefuses(cfg: Config, m: Memory, d: Disk, r: Request)
    requires Invariant(m) && r.call.PairComplete?
    ensures var o := Handle(cfg, m, d, r);
      && (o.reply == Failed(429) <==> r.limited)
      && (o.reply == Failed(404) <==> !r.limited && forall i: nat :: !IsForCode(cfg, m, r.call.code, i))
      && (o.reply == Failed(429) || o.reply == Failed(404) ==> o.memory == m && o.disk == d)
  {
    CodeFound(cfg, m, r.call.code);
  }

  predicate Blank(s: string) {
    forall i :: 0 <= i < |s| ==> IsSpace(s[i])
  }

  // The middle of a text, between white space.
  predicate IsBetween(s: string, before: string, middle: string, after: string) {
    s == before + middle + after && Blank(before) && Blank(after)
  }

  lemma MoreBefore(s: string, before: string, middle: string, after: string)
    requires s != "" && IsSpace(s[0]) && IsBetween(s[1..], before, middle, after)
    ensures IsBetween(s, [s[0]] + before, middle, after)
  {
    assert s == [s[0]] + (before + middle + after);
  }

  lemma MoreAfter(s: string, before: string, middle: string, after: string)
    requires s != "" && IsSpace(s[|s| - 1]) && IsBetween(s[..|s| - 1], before, middle, after)
    ensures IsBetween(s, before, middle, after + [s[|s| - 1]])
  {
    assert s == (before + middle + after) + [s[|s| - 1]];
  }

  // The text without the white space at its ends.
  lemma {:induction false} StripMeans(s: string) returns (before: string, after: string)
    ensures IsBetween(s, before, Strip(s), after)
    ensures Strip(s) != "" ==> !IsSpace(Strip(s)[0]) && !IsSpace(Strip(s)[|Strip(s)| - 1])
    decreases |s|
  {
    before, after := "", "";
    if s != "" && IsSpace(s[0]) {
      before, after := StripMeans(s[1..]);
      MoreBefore(s, before, Strip(s[1..]), after);
      before := [s[0]] + before;
    } else if s != "" && IsSpace(s[|s| - 1]) {
      before, after := StripMeans(s[..|s| - 1]);
      MoreAfter(s, before, Strip(s[..|s| - 1]), after);
      after := after + [s[|s| - 1]];
    }
  }

  // ----- Whole runs -----

  // The i-th event of a run from an empty service is a request, and this is what it was answered.
  ghost predicate Answers(cfg: Config, events: seq<Event>, i: nat, reply: Reply) {
    && i < |events| && events[i].Serve?
    && var (m, d) := Reached(cfg, events[..i]);
    Handle(cfg, m, d, events[i].request).reply == reply
  }

  function Reached(cfg: Config, events: seq<Event>): (Memory, Disk) {
    RunTo(cfg, Load(cfg, NoFile), NoFile, events)
  }

  function After(cfg: Config, m: Memory, d: Disk, e: Event): (Memory, Disk) {
    match e
    case Restart => (Load(cfg, d), d)
    case Serve(r) => (Handle(cfg, m, d, r).memory, Handle(cfg, m, d, r).disk)
  }

  lemma {:induction false} RunSnoc(cfg: Config, m: Memory, d: Disk, events: seq<Event>, e: Event)
    ensures var (m', d') := RunTo(cfg, m, d, events);
      && RunTo(cfg, m, d, events + [e]) == After(cfg, m', d', e)
      && (DrawsFresh(cfg, m, d, events + [e]) <==>
            DrawsFresh(cfg, m, d, events) && (e.Serve? ==> DrawsOk(m', e.request.call)))
    decreases |events|
  {
    if events == [] {
      assert [e][1..] == [] && events + [e] == [e];
    } else {
      assert (events + [e])[1..] == events[1..] + [e];
      var (m1, d1) := After(cfg, m, d, events[0]);
      RunSnoc(cfg, m1, d1, events[1..], e);
    }
  }

  // One more event of a run.
  lemma OneMore(cfg: Config, events: seq<Event>, n: nat)
    requires n < |events|
    ensures var (m, d) := Reached(cfg, events[..n]);
      && Reached(cfg, events[..n + 1]) == After(cfg, m, d, events[n])
      && (DrawsFresh(cfg, Load(cfg, NoFile), NoFile, events[..n + 1]) <==>
            && DrawsFresh(cfg, Load(cfg, NoFile), NoFile, events[..n])
            && (events[n].Serve? ==> DrawsOk(m, events[n].request.call)))
  {
    PrefixStep(events, n);
    RunSnoc(cfg, Load(cfg, NoFile), NoFile, events[..n], events[n]);
  }

  ghost predicate Fresh(cfg: Config, events: seq<Event>) {
    DrawsFresh(cfg, Load(cfg, NoFile), NoFile, events)
  }

  lemma {:induction false} FreshPrefix(cfg: Config, events: seq<Event>, n: nat)
    requires Fresh(cfg, events) && n <= |events|
    ensures Fresh(cfg, events[..n])
    decreases |events| - n
  {
    if n == |events| {
      assert events[..n] == events;
    } else {
      FreshPrefix(cfg, events, n + 1);
      OneMore(cfg, events, n);
    }
  }

  lemma ReachedIsSynced(cfg: Config, events: seq<Event>) returns (clock: int)
    requires Fresh(cfg, events)
    ensures var (m, d) := Reached(cfg, events); Synced(cfg, m, d, clock)
  {
    StartsSynced(cfg, 0);
    RunKeepsSynced(cfg, Load(cfg, NoFile), NoFile, 0, events);
    clock := LastClock(0, events);
  }

  // What a connection of a running service goes back to: a completed pairing.
  ghost predicate StemsFrom(cfg: Config, events: seq<Event>, n: nat, c: LocalConnection) {
    exists j, first, secret ::
      && 0 <= j < n && Answers(cfg, events, j, Completed(first, secret, c.userId))
      && first.id == c.id && first.ns == c.ns && c.secretHash == cfg.hash(secret)
  }

  // The steps of a service do not change who a connection belongs to, nor lift a revocation.
  ghost predicate Keeps(a: seq<LocalConnection>, b: seq<LocalConnection>) {
    && |a| <= |b|
    && forall i :: 0 <= i < |a| ==>
         && b[i].id == a[i].id && b[i].userId == a[i].userId && b[i].ns == a[i].ns && b[i].secretHash == a[i].secretHash
         && (a[i].revokedAt.Some? ==> b[i].revokedAt.Some?)
  }

  ghost predicate GoesOn(m: Memory, o: Outcome) {
    && Keeps(m.connections, o.memory.connections)
    && (if o.reply.Completed? then o.memory.connections == m.connections + [o.reply.connection]
        else |o.memory.connections| == |m.connections|)
  }

  lemma HandleKeepsConnections(cfg: Config, m: Memory, d: Disk, r: Request)
    ensures GoesOn(m, Handle(cfg, m, d, r))
  {
    match r.call
    case PairComplete(_, _, _, _, _, _) => CompletingKeeps(cfg, m, d, r);
    case RevokeConnection(_, _) => RevokingKeeps(cfg, m, d, r);
    case RegisterAgent(_, _, _) => TouchingKeeps(cfg, m, d, r);
    case GoogleClient(_, _) => TouchingByGoogleKeeps(cfg, m, d, r);
    case _ => OthersKeep(cfg, m, d, r);
  }

  lemma OthersKeep(cfg: Config, m: Memory, d: Disk, r: Request)
    requires r.call.StartPair? || r.call.PairStatus? || r.call.ListConnections?
    ensures GoesOn(m, Handle(cfg, m, d, r))
  {
  }

  lemma CompletingKeeps(cfg: Config, m: Memory, d: Disk, r: Request)
    requires r.call.PairComplete?
    ensures GoesOn(m, Handle(cfg, m, d, r))
  {
  }

  lemma TouchingKeeps(cfg: Config, m: Memory, d: Disk, r: Request)
    requires r.call.RegisterAgent?
    ensures GoesOn(m, Handle(cfg, m, d, r))
  {
    assert Keeps(m.connections, Touch(m, r.call.clientId, r.now).connections);
  }

  lemma TouchingByGoogleKeeps(cfg: Config, m: Memory, d: Disk, r: Request)
    requires r.call.GoogleClient?
    ensures GoesOn(m, Handle(cfg, m, d, r))
  {
    assert Keeps(m.connections, Touch(m, r.call.clientId, r.now).connections);
  }

  lemma RevokingKeeps(cfg: Config, m: Memory, d: Disk, r: Request)
    requires r.call.RevokeConnection?
    ensures GoesOn(m, Handle(cfg, m, d, r))
  {
  }

  lemma CompletedIsNew(cfg: Config, m: Memory, d: Disk, r: Request)
    requires Handle(cfg, m, d, r).reply.Completed?
    ensures var a := Handle(cfg, m, d, r).reply;
      a.connection.secretHash == cfg.hash(a.secret) && a.connection.userId == a.owner && r.call.PairComplete?
  {
  }

  lemma {:induction false} ConnectionsStem(cfg: Config, events: seq<Event>, n: nat)
    requires Fresh(cfg, events) && n <= |events|
    ensures forall c :: c in Reached(cfg, events[..n]).0.connections ==> StemsFrom(cfg, events, n, c)
  {
    if n > 0 {
      var k := n - 1;
      ConnectionsStem(cfg, events, k);
      var (m, d) := Reached(cfg, events[..k]);
      var after := Reached(cfg, events[..n]).0.connections;
      OneMore(cfg, events, k);
      FreshPrefix(cfg, events, k);
      var clock := ReachedIsSynced(cfg, events[..k]);
      forall c | c in after ensures StemsFrom(cfg, events, n, c) {
        var i :| 0 <= i < |after| && after[i] == c;
        if events[k].Restart? {
          StemsLonger(cfg, events, k, c);
        } else {
          var o := Handle(cfg, m, d, events[k].request);
          HandleKeepsConnections(cfg, m, d, events[k].request);
          if i < |m.connections| {
            assert m.connections[i] in m.connections;
            StemsLonger(cfg, events, k, m.connections[i]);
            SameStem(cfg, events, n, m.connections[i], c);
          } else {
            CompletedIsNew(cfg, m, d, events[k].request);
            assert Answers(cfg, events, k, Completed(c, o.reply.secret, c.userId));
          }
        }
      }
    }
  }

  lemma StemsLonger(cfg: Config, events: seq<Event>, n: nat, c: LocalConnection)
    requires StemsFrom(cfg, events, n, c)
    ensures StemsFrom(cfg, events, n + 1, c)
  {
  }

  lemma SameStem(cfg: Config, events: seq<Event>, n: nat, a: LocalConnection, b: LocalConnection)
    requires StemsFrom(cfg, events, n, a)
    requires a.id == b.id && a.userId == b.userId && a.ns == b.ns && a.secretHash == b.secretHash
    ensures StemsFrom(cfg, events, n, b)
  {
  }

  function ClientOf(call: Call): (string, string)
    requires call.RegisterAgent? || call.GoogleClient?
  {
    (call.clientId, call.clientSecret)
  }

  // Whoever is admitted presents a connection that was not revoked.
  lemma AdmittedMeans(cfg: Config, m: Memory, d: Disk, r: Request) returns (c: LocalConnection)
    requires Invariant(m) && Handle(cfg, m, d, r).reply.Permitted?
    ensures r.call.RegisterAgent? || r.call.GoogleClient?
    ensures var (id, secret) := ClientOf(r.call);
      Handle(cfg, m, d, r).reply == Permitted(id) && Presents(cfg, m, id, secret, c) && c.revokedAt.None?
    ensures r.call.RegisterAgent? ==> Owns(r.call.username, c.ns)
  {
    if r.call.RegisterAgent? {
      RegisterAgentMeans(cfg, m, d, r);
      c :| Presents(cfg, m, r.call.clientId, r.call.clientSecret, c) && c.revokedAt.None?
        && Owns(r.call.username, c.ns);
    } else {
      GoogleClientMeans(cfg, m, d, r);
      c :| Presents(cfg, m, r.call.clientId, r.call.clientSecret, c) && c.revokedAt.None?;
    }
  }

  // Only the secret returned when a pairing was completed admits a client, up to equal hashes, and
  // only for the names of the namespace returned with it.
  lemma SecretsAdmit(cfg: Config, events: seq<Event>, i: nat, id: string)
    requires Fresh(cfg, events) && Answers(cfg, events, i, Permitted(id))
    ensures var call := events[i].request.call;
      && (call.RegisterAgent? || call.GoogleClient?) && ClientOf(call).0 == id
      && exists j, c, secret, owner ::
           && 0 <= j < i && Answers(cfg, events, j, Completed(c, secret, owner)) && c.id == id
           && cfg.hash(secret) == cfg.hash(ClientOf(call).1) && (call.RegisterAgent? ==> Owns(call.username, c.ns))
  {
    var (m, d) := Reached(cfg, events[..i]);
    FreshPrefix(cfg, events, i);
    var clock := ReachedIsSynced(cfg, events[..i]);
    var c := AdmittedMeans(cfg, m, d, events[i].request);
    ConnectionsStem(cfg, events, i);
    var j, first, secret :| 0 <= j < i && Answers(cfg, events, j, Completed(first, secret, c.userId))
      && first.id == c.id && first.ns == c.ns && c.secretHash == cfg.hash(secret);
  }

  ghost predicate IsRevoked(m: Memory, id: string) {
    exists c :: c in m.connections && c.id == id && c.revokedAt.Some?
  }

  lemma AdmittedIsNotRevoked(cfg: Config, m: Memory, d: Disk, r: Request)
    requires Invariant(m) && Handle(cfg, m, d, r).reply.Permitted?
    ensures !IsRevoked(m, Handle(cfg, m, d, r).reply.connectionId)
  {
    var c := AdmittedMeans(cfg, m, d, r);
    forall e | e in m.connections && e.id == c.id ensures e == c {
      NamedConnection(m, c.id, c);
      NamedConnection(m, c.id, e);
    }
  }

  lemma RevokedStays(cfg: Config, m: Memory, d: Disk, clock: int, e: Event, id: string)
    requires Synced(cfg, m, d, clock) && IsRevoked(m, id)
    ensures IsRevoked(After(cfg, m, d, e).0, id)
  {
    var c :| c in m.connections && c.id == id && c.revokedAt.Some?;
    var i :| 0 <= i < |m.connections| && m.connections[i] == c;
    if e.Serve? {
      HandleKeepsConnections(cfg, m, d, e.request);
      assert Handle(cfg, m, d, e.request).memory.connections[i].revokedAt.Some?;
    }
  }

  lemma {:induction false} RevokedThrough(cfg: Config, events: seq<Event>, i: nat, j: nat, id: string)
    requires Fresh(cfg, events) && i < j <= |events| && Answers(cfg, events, i, Revoked(id))
    ensures IsRevoked(Reached(cfg, events[..j]).0, id)
  {
    var k := j - 1;
    var (m, d) := Reached(cfg, events[..k]);
    OneMore(cfg, events, k);
    FreshPrefix(cfg, events, k);
    var clock := ReachedIsSynced(cfg, events[..k]);
    if i == k {
      var r := events[k].request;
      RevokingRevokes(cfg, m, d, r, id);
    } else {
      RevokedThrough(cfg, events, i, k, id);
      RevokedStays(cfg, m, d, clock, events[k], id);
    }
  }

  lemma RevokingRevokes(cfg: Config, m: Memory, d: Disk, r: Request, id: string)
    requires Invariant(m) && Handle(cfg, m, d, r).reply == Revoked(id)
    ensures IsRevoked(Handle(cfg, m, d, r).memory, id)
  {
    RevokeConnectionMeans(cfg, m, d, r);
    var o := Handle(cfg, m, d, r);
    var c :| c in m.connections && c.id == id && c.userId == r.call.user;
    var i :| 0 <= i < |m.connections| && m.connections[i] == c;
    assert o.memory.connections[i] in o.memory.connections;
  }

  // A revoked client is never admitted again, whatever the clocks and restarts.
  lemma RevokedForGood(cfg: Config, events: seq<Event>, i: nat, j: nat, id: string)
    requires Fresh(cfg, events) && i < j && Answers(cfg, events, i, Revoked(id))
    ensures !Answers(cfg, events, j, Permitted(id))
  {
    if Answers(cfg, events, j, Permitted(id)) {
      RevokedThrough(cfg, events, i, j, id);
      var (m, d) := Reached(cfg, events[..j]);
      FreshPrefix(cfg, events, j);
      var clock := ReachedIsSynced(cfg, events[..j]);
      AdmittedIsNotRevoked(cfg, m, d, events[j].request);
    }
  }

  // What a session of a running service goes back to: a code that was handed out.
  ghost predicate HandedOut(cfg: Config, events: seq<Event>, n: nat, s: PairSession) {
    exists j, code ::
      && 0 <= j < n && Answers(cfg, events, j, Started(code, s.id, s.expiresAt))
      && events[j].request.call.StartPair? && events[j].request.call.user == s.userId
      && s.expiresAt == events[j].request.now + cfg.ttl && cfg.hash(code) == s.codeHash
  }

  // The steps of a service do not change what a session is for.
  ghost predicate KeepsSessions(a: seq<PairSession>, b: seq<PairSession>) {
    && |a| <= |b|
    && forall i :: 0 <= i < |a| ==>
         b[i].id == a[i].id && b[i].userId == a[i].userId && b[i].codeHash == a[i].codeHash
         && b[i].expiresAt == a[i].expiresAt
  }

  lemma HandleKeepsSessions(cfg: Config, m: Memory, d: Disk, r: Request)
    ensures var o := Handle(cfg, m, d, r);
      && KeepsSessions(m.sessions, o.memory.sessions)
      && (!o.reply.Started? ==> |o.memory.sessions| == |m.sessions|)
      && (o.reply.Started? ==>
            && r.call.StartPair? && |o.memory.sessions| == |m.sessions| + 1
            && var s := o.memory.sessions[|m.sessions|];
               && o.reply == Started(r.call.code, s.id, s.expiresAt) && s.userId == r.call.user
               && s.expiresAt == r.now + cfg.ttl && s.codeHash == cfg.hash(r.call.code))
  {
    match r.call
    case StartPair(_, _, _) => StartPairMeans(cfg, m, d, r);
    case PairStatus(_, _) => StatusKeepsSessions(cfg, m, d, r);
    case PairComplete(_, _, _, _, _, _) => CompleteKeepsSessions(cfg, m, d, r);
    case _ =>
  }

  lemma StatusKeepsSessions(cfg: Config, m: Memory, d: Disk, r: Request)
    requires r.call.PairStatus?
    ensures var o := Handle(cfg, m, d, r);
      KeepsSessions(m.sessions, o.memory.sessions) && |o.memory.sessions| == |m.sessions| && !o.reply.Started?
  {
  }

  lemma CompleteKeepsSessions(cfg: Config, m: Memory, d: Disk, r: Request)
    requires r.call.PairComplete?
    ensures var o := Handle(cfg, m, d, r);
      KeepsSessions(m.sessions, o.memory.sessions) && |o.memory.sessions| == |m.sessions| && !o.reply.Started?
  {
  }

  lemma {:induction false} SessionsStem(cfg: Config, events: seq<Event>, n: nat)
    requires Fresh(cfg, events) && n <= |events|
    ensures forall s :: s in Reached(cfg, events[..n]).0.sessions ==> HandedOut(cfg, events, n, s)
    ensures forall s :: s in Load(cfg, Reached(cfg, events[..n]).1).sessions ==> HandedOut(cfg, events, n, s)
  {
    if n > 0 {
      var k := n - 1;
      SessionsStem(cfg, events, k);
      var (m, d) := Reached(cfg, events[..k]);
      OneMore(cfg, events, k);
      forall s | HandedOut(cfg, events, k, s) ensures HandedOut(cfg, events, n, s) {
      }
      if events[k].Serve? {
        var o := Handle(cfg, m, d, events[k].request);
        HandleKeepsSessions(cfg, m, d, events[k].request);
        WritesOrFlips(cfg, m, d, events[k].request);
        forall s | s in o.memory.sessions ensures HandedOut(cfg, events, n, s) {
          var i :| 0 <= i < |o.memory.sessions| && o.memory.sessions[i] == s;
          if i < |m.sessions| {
            assert m.sessions[i] in m.sessions;
            SameSession(cfg, events, n, m.sessions[i], s);
          } else {
            assert Answers(cfg, events, k, Started(events[k].request.call.code, s.id, s.expiresAt));
          }
        }
      }
    }
  }

  lemma SameSession(cfg: Config, events: seq<Event>, n: nat, a: PairSession, b: PairSession)
    requires HandedOut(cfg, events, n, a)
    requires a.id == b.id && a.userId == b.userId && a.codeHash == b.codeHash && a.expiresAt == b.expiresAt
    ensures HandedOut(cfg, events, n, b)
  {
  }

  // A pairing is completed only with a code that was handed out before, for the user it was handed
  // out to, and by a clock that has not reached its time to live.
  lemma CodesAreHandedOut(cfg: Config, events: seq<Event>, i: nat, c: LocalConnection, secret: string, owner: string)
    requires Fresh(cfg, events) && Answers(cfg, events, i, Completed(c, secret, owner))
    ensures events[i].request.call.PairComplete? && c.userId == owner
    ensures exists j, code, session, expires ::
              && 0 <= j < i && Answers(cfg, events, j, Started(code, session, expires))
              && events[j].request.call.StartPair? && events[j].request.call.user == owner
              && cfg.hash(code) == cfg.hash(events[i].request.call.code)
              && events[i].request.now < expires == events[j].request.now + cfg.ttl
  {
    var (m, d) := Reached(cfg, events[..i]);
    var r := events[i].request;
    FreshPrefix(cfg, events, i);
    var clock := ReachedIsSynced(cfg, events[..i]);
    SessionsStem(cfg, events, i);
    CompletedIsNew(cfg, m, d, r);
    CodeFound(cfg, m, r.call.code);
    var k := FindByCode(cfg, m, r.call.code);
    PairCompleteMeans(cfg, m, d, r, k);
    var s := m.sessions[k];
    assert s in m.sessions && HandedOut(cfg, events, i, s);
  }
}

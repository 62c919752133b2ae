// The provisioning service as a state machine: each handler body runs under one lock, so it
// is one step from a memory, a file on disk and a request to the next memory, file and reply.
module Pairing {

  import opened Options

  datatype Status = Pending | Connected | Expired

  datatype PairSession = PairSession(
    id: string,
    userId: string,
    codeHash: string,
    status: Status,
    createdAt: int,
    expiresAt: int,
    completedAt: Option<int>,
    connectionId: Option<string>)

  datatype LocalConnection = LocalConnection(
    id: string,
    userId: string,
    clientName: string,
    fingerprint: string,
    ns: string,
    secretHash: string,
    createdAt: int,
    lastSeenAt: int,
    revokedAt: Option<int>)

  // The dictionaries keep insertion order, so they are sequences here; ids are unique.
  datatype Memory = Memory(
    sessions: seq<PairSession>,
    byHash: map<string, string>,
    connections: seq<LocalConnection>)

  datatype Disk = NoFile | Saved(sessions: seq<PairSession>, connections: seq<LocalConnection>)

  // SHA-256 and the namespace derived from it are uninterpreted.
  datatype Config = Config(hash: string -> string, derive: string -> string, ttl: int, googleConfigured: bool)

  // A request carries its clock reading, the rate limiter's verdict, and the random values its
  // handler draws.
  datatype Call =
    | StartPair(user: string, code: string, sessionId: string)
    | PairStatus(user: string, sessionId: string)
    | PairComplete(code: string, clientName: string, fingerprint: string,
                   secret: string, connectionId: string, ns: string)
    | ListConnections(user: string)
    | RevokeConnection(user: string, connectionId: string)
    | RegisterAgent(clientId: string, clientSecret: string, username: string)
    | GoogleClient(clientId: string, clientSecret: string)

  datatype Request = Request(now: int, limited: bool, call: Call)

  datatype Reply =
    | Failed(status: int)
    | Started(code: string, sessionId: string, expiresAt: int)
    | StillPending(expiresAt: int)
    | HasExpired
    | IsConnected(connection: LocalConnection)
    | Completed(connection: LocalConnection, secret: string, owner: string)
    | Connections(connections: seq<LocalConnection>)
    | Revoked(connectionId: string)
    | Permitted(connectionId: string)

  datatype Outcome = Outcome(memory: Memory, disk: Disk, reply: Reply)

  // ----- Lookups -----

  function SessionIndex(sessions: seq<PairSession>, id: string): (i: nat)
    ensures i <= |sessions|
    ensures i < |sessions| ==> sessions[i].id == id
    ensures forall k :: 0 <= k < i ==> sessions[k].id != id
  {
    if sessions == [] || sessions[0].id == id then 0 else 1 + SessionIndex(sessions[1..], id)
  }

  function ConnectionIndex(connections: seq<LocalConnection>, id: string): (i: nat)
    ensures i <= |connections|
    ensures i < |connections| ==> connections[i].id == id
    ensures forall k :: 0 <= k < i ==> connections[k].id != id
  {
    if connections == [] || connections[0].id == id then 0 else 1 + ConnectionIndex(connections[1..], id)
  }

  // _find_pair_session_unlocked, as an index; |sessions| when there is none
  function FindByCode(cfg: Config, m: Memory, code: string): (i: nat)
    ensures i <= |m.sessions|
  {
    var hash := cfg.hash(code);
    if hash !in m.byHash || m.byHash[hash] == "" then |m.sessions| else SessionIndex(m.sessions, m.byHash[hash])
  }

  // ----- Lazy expiry -----

  // _expire_if_needed
  function ExpireIfNeeded(s: PairSession, now: int): PairSession {
    if s.status.Pending? && s.expiresAt <= now then s.(status := Expired) else s
  }

  // What start_pair does to every existing session.
  function ExpireForStart(s: PairSession, user: string, now: int): PairSession {
    var e := ExpireIfNeeded(s, now);
    if e.userId == user && e.status.Pending? then e.(status := Expired) else e
  }

  function ExpireAllForStart(sessions: seq<PairSession>, user: string, now: int): seq<PairSession> {
    seq(|sessions|, i requires 0 <= i < |sessions| => ExpireForStart(sessions[i], user, now))
  }

  // ----- Persistence -----

  function Persist(m: Memory): Disk {
    Saved(m.sessions, m.connections)
  }

  function IndexOf(sessions: seq<PairSession>): map<string, string> {
    if sessions == [] then map[]
    else IndexOf(sessions[..|sessions| - 1])[sessions[|sessions| - 1].codeHash := sessions[|sessions| - 1].id]
  }

  predicate IsSpace(c: char) {
    c in " \t\n\r"
  }

  function Strip(s: string): (r: string)
    ensures |r| <= |s|
  {
    if s != "" && IsSpace(s[0]) then Strip(s[1..])
    else if s != "" && IsSpace(s[|s| - 1]) then Strip(s[..|s| - 1])
    else s
  }

  function LowerChar(c: char): char {
    if 'A' <= c <= 'Z' then c - 'A' + 'a' else c
  }

  function Lower(s: string): string {
    seq(|s|, i requires 0 <= i < |s| => LowerChar(s[i]))
  }

  function LoadNamespace(cfg: Config, id: string, raw: string): string {
    if raw == "" then "" else if Strip(raw) != "" then Lower(Strip(raw)) else cfg.derive(id)
  }

  function LoadConnection(cfg: Config, c: LocalConnection): LocalConnection {
    c.(ns := LoadNamespace(cfg, c.id, c.ns))
  }

  // _load_state_from_disk_unlocked
  function Load(cfg: Config, disk: Disk): Memory {
    match disk
    case NoFile => Memory([], map[], [])
    case Saved(sessions, connections) =>
      Memory(sessions, IndexOf(sessions),
             seq(|connections|, i requires 0 <= i < |connections| => LoadConnection(cfg, connections[i])))
  }

  // ----- Namespaces and usernames -----

  // The characters of NAMESPACE_ALPHABET: no i, l or o, and no 0 or 1.
  predicate InNamespaceAlphabet(c: char) {
    ('a' <= c <= 'z' && c != 'i' && c != 'l' && c != 'o') || '2' <= c <= '9'
  }

  const NAMESPACE_LENGTH := 8
  const PREFIX := "mindroom_"

  predicate GeneratedNamespace(ns: string) {
    |ns| == NAMESPACE_LENGTH && forall i :: 0 <= i < |ns| ==> InNamespaceAlphabet(ns[i])
  }

  predicate EndsWith(s: string, suffix: string) {
    |suffix| <= |s| && s[|s| - |suffix|..] == suffix
  }

  // _is_username_permitted_for_connection
  predicate UsernamePermitted(username: string, ns: string) {
    if ns == "" then PREFIX <= username && |username| > |PREFIX|
    else PREFIX <= username && EndsWith(username, "_" + ns) && |username| > |PREFIX| + |"_" + ns|
  }

  // ----- The handlers -----

  function Fail(m: Memory, d: Disk, code: int): Outcome {
    Outcome(m, d, Failed(code))
  }

  // Keep the memory and write it to disk.
  function Save(m: Memory, reply: Reply): Outcome {
    Outcome(m, Persist(m), reply)
  }

  function DoStartPair(
    cfg: Config, m: Memory, d: Disk, now: int, limited: bool, user: string, code: string, sessionId: string): Outcome
  {
    if limited then Fail(m, d, 429)
    else
      var hash := cfg.hash(code);
      var session := PairSession(sessionId, user, hash, Pending, now, now + cfg.ttl, None, None);
      Save(m.(sessions := ExpireAllForStart(m.sessions, user, now) + [session], byHash := m.byHash[hash := sessionId]),
           Started(code, sessionId, now + cfg.ttl))
  }

  function StatusReply(m: Memory, s: PairSession): Reply {
    var c := if s.connectionId.Some? then ConnectionIndex(m.connections, s.connectionId.value) else |m.connections|;
    if s.status.Connected? && s.connectionId.Some? && s.connectionId.value != "" && c < |m.connections|
    then IsConnected(m.connections[c])
    else if s.status.Expired? then HasExpired
    else StillPending(s.expiresAt)
  }

  function DoPairStatus(m: Memory, d: Disk, now: int, limited: bool, user: string, sessionId: string): Outcome {
    if limited then Fail(m, d, 429)
    else if sessionId == "" then Fail(m, d, 400)
    else
      var i := SessionIndex(m.sessions, sessionId);
      if i == |m.sessions| || m.sessions[i].userId != user then Fail(m, d, 404)
      else
        var s := ExpireIfNeeded(m.sessions[i], now);
        Outcome(m.(sessions := m.sessions[i := s]), d, StatusReply(m, s))
  }

  function DoPairComplete(cfg: Config, m: Memory, d: Disk, now: int, limited: bool, call: Call): Outcome
    requires call.PairComplete?
  {
    if limited then Fail(m, d, 429)
    else
      var i := FindByCode(cfg, m, call.code);
      if i == |m.sessions| then Fail(m, d, 404)
      else
        var s := ExpireIfNeeded(m.sessions[i], now);
        if s.status.Expired? then Fail(m.(sessions := m.sessions[i := s]), d, 410)
        else if s.status.Connected? then Fail(m, d, 409)
        else
          var c := LocalConnection(
            call.connectionId, s.userId, Strip(call.clientName), Strip(call.fingerprint), call.ns,
            cfg.hash(call.secret), now, now, None);
          var done := s.(status := Connected, completedAt := Some(now), connectionId := Some(c.id));
          Save(m.(sessions := m.sessions[i := done], connections := m.connections + [c]),
               Completed(c, call.secret, s.userId))
  }

  function OwnedBy(connections: seq<LocalConnection>, user: string): seq<LocalConnection> {
    if connections == [] then []
    else
      var last := connections[|connections| - 1];
      OwnedBy(connections[..|connections| - 1], user) + if last.userId == user then [last] else []
  }

  function DoListConnections(m: Memory, d: Disk, limited: bool, user: string): Outcome {
    if limited then Fail(m, d, 429) else Outcome(m, d, Connections(OwnedBy(m.connections, user)))
  }

  function DoRevoke(m: Memory, d: Disk, now: int, limited: bool, user: string, id: string): Outcome {
    if limited then Fail(m, d, 429)
    else
      var i := ConnectionIndex(m.connections, id);
      if i == |m.connections| || m.connections[i].userId != user then Fail(m, d, 404)
      else
        var c := m.connections[i].(revokedAt := Some(now), lastSeenAt := now);
        Save(m.(connections := m.connections[i := c]), Revoked(id))
  }

  // _require_local_client: the failing status code, or 0 when the credentials are good
  function ClientCheck(cfg: Config, m: Memory, id: string, secret: string): int {
    if id == "" || secret == "" then 401
    else
      var i := ConnectionIndex(m.connections, id);
      if i == |m.connections| then 401
      else if m.connections[i].secretHash != cfg.hash(secret) then 401
      else if m.connections[i].revokedAt.Some? then 403
      else 0
  }

  function Touch(m: Memory, id: string, now: int): Memory {
    var i := ConnectionIndex(m.connections, id);
    if i == |m.connections| then m
    else m.(connections := m.connections[i := m.connections[i].(lastSeenAt := now)])
  }

  function DoRegister(
    cfg: Config, m: Memory, d: Disk, now: int, limited: bool, id: string, secret: string, username: string): Outcome
  {
    var check := ClientCheck(cfg, m, id, secret);
    if check != 0 then Fail(m, d, check)
    else if limited then Fail(m, d, 429)
    else if !UsernamePermitted(username, m.connections[ConnectionIndex(m.connections, id)].ns) then Fail(m, d, 403)
    else Save(Touch(m, id, now), Permitted(id))
  }

  function DoGoogleClient(
    cfg: Config, m: Memory, d: Disk, now: int, limited: bool, id: string, secret: string): Outcome
  {
    var check := ClientCheck(cfg, m, id, secret);
    if check != 0 then Fail(m, d, check)
    else if limited then Fail(m, d, 429)
    else Save(Touch(m, id, now), if cfg.googleConfigured then Permitted(id) else Failed(503))
  }

  function Handle(cfg: Config, m: Memory, d: Disk, r: Request): Outcome {
    match r.call
    case StartPair(user, code, id) => DoStartPair(cfg, m, d, r.now, r.limited, user, code, id)
    case PairStatus(user, id) => DoPairStatus(m, d, r.now, r.limited, user, id)
    case PairComplete(_, _, _, _, _, _) => DoPairComplete(cfg, m, d, r.now, r.limited, r.call)
    case ListConnections(user) => DoListConnections(m, d, r.limited, user)
    case RevokeConnection(user, id) => DoRevoke(m, d, r.now, r.limited, user, id)
    case RegisterAgent(id, secret, username) => DoRegister(cfg, m, d, r.now, r.limited, id, secret, username)
    case GoogleClient(id, secret) => DoGoogleClient(cfg, m, d, r.now, r.limited, id, secret)
  }

  // Random ids are new and not empty; a drawn namespace is well formed and not in use.
  predicate DrawsOk(m: Memory, call: Call) {
    match call
    case StartPair(_, _, id) => id != "" && SessionIndex(m.sessions, id) == |m.sessions|
    case PairComplete(_, _, _, _, id, ns) =>
      && id != "" && ConnectionIndex(m.connections, id) == |m.connections|
      && GeneratedNamespace(ns) && forall c :: c in m.connections ==> c.ns != ns
    case _ => true
  }
}

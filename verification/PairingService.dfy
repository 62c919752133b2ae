// The provisioning handlers as they run: one mutable state, updated in place under a lock.
// Each is proved to take exactly the step of Pairing.Handle.
module PairingService {

  import opened Options
  import opened Sequences
  import opened Pairing
  import opened PairingRuns
  import PairingAnswers
  import RateLimit

  class ProvisioningService {
    const cfg: Config
    const limiter: RateLimit.RateLimiter
    var sessions: seq<PairSession>
    var byHash: map<string, string>
    var connections: seq<LocalConnection>
    var disk: Disk        // the state file
    ghost var clock: int  // the latest clock reading of a request

    ghost function Value(): Memory
      reads this
    {
      Memory(sessions, byHash, connections)
    }

    // Memory and file both keep the invariant, and agree up to sessions overdue by now.
    ghost predicate Valid()
      reads this, limiter
    {
      limiter.Valid() && Synced(cfg, Value(), disk, clock)
    }

    // The handler took the step of the state machine from the given memory and file.
    ghost predicate Took(before: Memory, file: Disk, r: Request, reply: Reply)
      reads this
    {
      Handle(cfg, before, file, r) == Outcome(Value(), disk, reply)
    }

    constructor (cfg: Config, start: real)
      ensures Valid() && fresh(limiter) && limiter.clock == start
      ensures Value() == Load(cfg, NoFile) && disk == NoFile && this.cfg == cfg
    {
      this.cfg := cfg;
      limiter := new RateLimit.RateLimiter(start);
      sessions, byHash, connections, disk, clock := [], map[], [], NoFile, 0;
    }

    // _persist_state_unlocked
    method PersistState()
      modifies this`disk
      ensures disk == Persist(Value())
    {
      disk := Saved(sessions, connections);
    }

    // _load_state_from_disk_unlocked, which is all that a restart does: the file is what is left.
    method LoadStateFromDisk()
      requires Valid()
      modifies this`sessions, this`byHash, this`connections, limiter
      ensures Valid() && Value() == Load(cfg, disk)
      ensures limiter.accepted == map[] && limiter.log == [] && limiter.clock == old(limiter.clock)
    {
      ClearState();
      ReadStateFile();
    }

    // _clear_state_unlocked
    method ClearState()
      modifies this`sessions, this`byHash, this`connections, limiter
      ensures sessions == [] && byHash == map[] && connections == []
      ensures limiter.Valid() && limiter.accepted == map[] && limiter.log == []
      ensures limiter.clock == old(limiter.clock)
    {
      sessions, byHash, connections := [], map[], [];
      limiter.Forget();
    }

    method ReadStateFile()
      requires sessions == [] && byHash == map[] && connections == []
      modifies this`sessions, this`byHash, this`connections
      ensures Value() == Load(cfg, disk)
    {
      if disk.NoFile? {
        return;
      }
      var saved := disk.sessions;
      for i := 0 to |saved|
        invariant sessions == saved[..i] && byHash == IndexOf(saved[..i]) && connections == []
      {
        PrefixStep(saved, i);
        sessions := sessions + [saved[i]];
        byHash := byHash[saved[i].codeHash := saved[i].id];
      }
      assert saved[..|saved|] == saved;
      var kept := disk.connections;
      for i := 0 to |kept|
        invariant |connections| == i && sessions == saved && byHash == IndexOf(saved)
        invariant forall k :: 0 <= k < i ==> connections[k] == LoadConnection(cfg, kept[k])
      {
        connections := connections + [LoadConnection(cfg, kept[i])];
      }
      assert connections == Load(cfg, disk).connections;
    }

    method StartPairLocked(user: string, code: string, sessionId: string, now: int, tick: real)
      returns (reply: Reply, ghost limited: bool)
      requires limiter.Valid() && limiter.clock <= tick
      modifies this`sessions, this`byHash, this`disk, limiter
      ensures limiter.Valid() && limiter.clock == tick
      ensures Took(old(Value()), old(disk), Request(now, limited, Call.StartPair(user, code, sessionId)), reply)
      ensures limiter.log == old(limiter.log) + [RateLimit.Check(RateLimit.PairStart(user), 10, tick, limited)]
    {
      var expiresAt := now + cfg.ttl;
      var hash := cfg.hash(code);
      var refused := limiter.Enforce(RateLimit.PairStart(user), tick);
      limited := refused;
      if refused {
        return Failed(429), limited;
      }
      ExpireSessions(user, now);
      sessions := sessions + [PairSession(sessionId, user, hash, Pending, now, expiresAt, None, None)];
      byHash := byHash[hash := sessionId];
      PersistState();
      return Started(code, sessionId, expiresAt), limited;
    }

    // The loop of start_pair: overdue sessions expire, and so does any code the user still waits on.
    method ExpireSessions(user: string, now: int)
      modifies this`sessions
      ensures sessions == ExpireAllForStart(old(sessions), user, now)
    {
      for i := 0 to |sessions|
        invariant |sessions| == |old(sessions)|
        invariant forall k :: 0 <= k < i ==> sessions[k] == ExpireForStart(old(sessions)[k], user, now)
        invariant forall k :: i <= k < |sessions| ==> sessions[k] == old(sessions)[k]
      {
        var session := ExpireIfNeeded(sessions[i], now);
        if session.userId == user && session.status.Pending? {
          session := session.(status := Expired);
        }
        sessions := sessions[i := session];
      }
    }

    method PairStatusLocked(user: string, sessionId: string, now: int, tick: real)
      returns (reply: Reply, ghost limited: bool)
      requires limiter.Valid() && limiter.clock <= tick
      modifies this`sessions, limiter
      ensures limiter.Valid() && limiter.clock == tick
      ensures Took(old(Value()), old(disk), Request(now, limited, Call.PairStatus(user, sessionId)), reply)
      ensures limiter.log == old(limiter.log) + [RateLimit.Check(RateLimit.PairStatus(user), 60, tick, limited)]
    {
      var refused := limiter.Enforce(RateLimit.PairStatus(user), tick);
      limited := refused;
      if refused {
        return Failed(429), limited;
      }
      if sessionId == "" {
        return Failed(400), limited;
      }
      var i := SessionIndex(sessions, sessionId);
      if i == |sessions| || sessions[i].userId != user {
        return Failed(404), limited;
      }
      var session := ExpireIfNeeded(sessions[i], now);
      sessions := sessions[i := session];
      if session.status.Connected? && session.connectionId.Some? && session.connectionId.value != "" {
        var c := ConnectionIndex(connections, session.connectionId.value);
        if c < |connections| {
          return IsConnected(connections[c]), limited;
        }
      }
      if session.status.Expired? {
        return HasExpired, limited;
      }
      return StillPending(session.expiresAt), limited;
    }

    method PairCompleteLocked(code: string, clientName: string, fingerprint: string, secret: string,
                              connectionId: string, ns: string, host: string, now: int, tick: real)
      returns (reply: Reply, ghost limited: bool)
      requires limiter.Valid() && limiter.clock <= tick
      modifies this`sessions, this`connections, this`disk, limiter
      ensures limiter.Valid() && limiter.clock == tick
      ensures Took(old(Value()), old(disk),
                   Request(now, limited, Call.PairComplete(code, clientName, fingerprint, secret, connectionId, ns)),
                   reply)
      ensures limiter.log == old(limiter.log) + [RateLimit.Check(RateLimit.PairComplete(host), 20, tick, limited)]
    {
      var refused := limiter.Enforce(RateLimit.PairComplete(host), tick);
      limited := refused;
      if refused {
        return Failed(429), limited;
      }
      var i := FindByCode(cfg, Memory(sessions, byHash, connections), code);
      if i == |sessions| {
        return Failed(404), limited;
      }
      ghost var before := sessions;
      var session := ExpireIfNeeded(sessions[i], now);
      sessions := sessions[i := session];
      if session.status.Expired? {
        return Failed(410), limited;
      }
      assert sessions == before;
      if session.status.Connected? {
        return Failed(409), limited;
      }
      var connection := LocalConnection(
        connectionId, session.userId, Strip(clientName), Strip(fingerprint), ns, cfg.hash(secret), now, now, None);
      connections := connections + [connection];
      session := session.(status := Connected, completedAt := Some(now), connectionId := Some(connectionId));
      sessions := sessions[i := session];
      PersistState();
      return Completed(connection, secret, session.userId), limited;
    }

    method ListConnectionsLocked(user: string, now: int, tick: real) returns (reply: Reply, ghost limited: bool)
      requires limiter.Valid() && limiter.clock <= tick
      modifies limiter
      ensures limiter.Valid() && limiter.clock == tick
      ensures Took(old(Value()), old(disk), Request(now, limited, Call.ListConnections(user)), reply)
      ensures limiter.log == old(limiter.log) + [RateLimit.Check(RateLimit.ConnectionsList(user), 60, tick, limited)]
    {
      var refused := limiter.Enforce(RateLimit.ConnectionsList(user), tick);
      limited := refused;
      if refused {
        return Failed(429), limited;
      }
      return Connections(OwnedBy(connections, user)), limited;
    }

    method RevokeConnectionLocked(user: string, connectionId: string, now: int, tick: real)
      returns (reply: Reply, ghost limited: bool)
      requires limiter.Valid() && limiter.clock <= tick
      modifies this`connections, this`disk, limiter
      ensures limiter.Valid() && limiter.clock == tick
      ensures Took(old(Value()), old(disk), Request(now, limited, Call.RevokeConnection(user, connectionId)), reply)
      ensures limiter.log == old(limiter.log) + [RateLimit.Check(RateLimit.ConnectionsRevoke(user), 20, tick, limited)]
    {
      var refused := limiter.Enforce(RateLimit.ConnectionsRevoke(user), tick);
      limited := refused;
      if refused {
        return Failed(429), limited;
      }
      var i := ConnectionIndex(connections, connectionId);
      if i == |connections| || connections[i].userId != user {
        return Failed(404), limited;
      }
      connections := connections[i := connections[i].(revokedAt := Some(now), lastSeenAt := now)];
      PersistState();
      return Revoked(connectionId), limited;
    }

    // A client that was admitted is noted as seen, and the state saved.
    method Seen(clientId: string, now: int)
      requires ConnectionIndex(connections, clientId) < |connections|
      modifies this`connections, this`disk
      ensures Value() == Touch(old(Value()), clientId, now) && disk == Persist(Value())
    {
      var i := ConnectionIndex(connections, clientId);
      connections := connections[i := connections[i].(lastSeenAt := now)];
      PersistState();
    }

    method RegisterAgentLocked(clientId: string, clientSecret: string, username: string, now: int, tick: real)
      returns (reply: Reply, ghost limited: bool)
      requires limiter.Valid() && limiter.clock <= tick
      modifies this`connections, this`disk, limiter
      ensures limiter.Valid() && old(limiter.clock) <= limiter.clock <= tick
      ensures Took(old(Value()), old(disk),
                   Request(now, limited, Call.RegisterAgent(clientId, clientSecret, username)), reply)
      ensures if ClientCheck(cfg, old(Value()), clientId, clientSecret) == 0
              then limiter.log == old(limiter.log)
                                  + [RateLimit.Check(RateLimit.RegisterAgent(clientId), 60, tick, limited)]
              else !limited && limiter.log == old(limiter.log)
    {
      limited := false;
      var check := ClientCheck(cfg, Memory(sessions, byHash, connections), clientId, clientSecret);
      if check != 0 {
        return Failed(check), limited;
      }
      var i := ConnectionIndex(connections, clientId);
      var refused := limiter.Enforce(RateLimit.RegisterAgent(clientId), tick);
      limited := refused;
      if refused {
        return Failed(429), limited;
      }
      if !UsernamePermitted(username, connections[i].ns) {
        return Failed(403), limited;
      }
      Seen(clientId, now);
      return Permitted(clientId), limited;
    }

    method GoogleClientLocked(clientId: string, clientSecret: string, now: int, tick: real)
      returns (reply: Reply, ghost limited: bool)
      requires limiter.Valid() && limiter.clock <= tick
      modifies this`connections, this`disk, limiter
      ensures limiter.Valid() && old(limiter.clock) <= limiter.clock <= tick
      ensures Took(old(Value()), old(disk), Request(now, limited, Call.GoogleClient(clientId, clientSecret)), reply)
      ensures if ClientCheck(cfg, old(Value()), clientId, clientSecret) == 0
              then limiter.log == old(limiter.log)
                                  + [RateLimit.Check(RateLimit.GoogleClient(clientId), 60, tick, limited)]
              else !limited && limiter.log == old(limiter.log)
    {
      limited := false;
      var check := ClientCheck(cfg, Memory(sessions, byHash, connections), clientId, clientSecret);
      if check != 0 {
        return Failed(check), limited;
      }
      var i := ConnectionIndex(connections, clientId);
      var refused := limiter.Enforce(RateLimit.GoogleClient(clientId), tick);
      limited := refused;
      if refused {
        return Failed(429), limited;
      }
      Seen(clientId, now);
      return if cfg.googleConfigured then Permitted(clientId) else Failed(503), limited;
    }

    ghost method Tick(now: int)
      requires limiter.Valid() && Synced(cfg, Value(), disk, Max(clock, now))
      modifies this`clock
      ensures Valid() && clock == Max(old(clock), now)
    {
      clock := Max(clock, now);
    }

    // ----- The handlers: they read the clock, and then run under the lock -----

    method StartPair(user: string, code: string, sessionId: string, now: int, tick: real)
      returns (reply: Reply, ghost limited: bool)
      requires Valid() && limiter.clock <= tick
      requires DrawsOk(Value(), Call.StartPair(user, code, sessionId))
      modifies this`sessions, this`byHash, this`disk, this`clock, limiter
      ensures Took(old(Value()), old(disk), Request(now, limited, Call.StartPair(user, code, sessionId)), reply)
      ensures limiter.log == old(limiter.log) + [RateLimit.Check(RateLimit.PairStart(user), 10, tick, limited)]
      ensures Valid() && clock == Max(old(clock), now) && limiter.clock == tick
    {
      ghost var m, d := Value(), disk;
      reply, limited := StartPairLocked(user, code, sessionId, now, tick);
      OutcomeIsSynced(
        cfg, m, d, clock, Request(now, limited, Call.StartPair(user, code, sessionId)), Value(), disk, reply);
      Tick(now);
    }

    method PairStatus(user: string, sessionId: string, now: int, tick: real)
      returns (reply: Reply, ghost limited: bool)
      requires Valid() && limiter.clock <= tick
      modifies this`sessions, this`clock, limiter
      ensures Took(old(Value()), old(disk), Request(now, limited, Call.PairStatus(user, sessionId)), reply)
      ensures limiter.log == old(limiter.log) + [RateLimit.Check(RateLimit.PairStatus(user), 60, tick, limited)]
      ensures Valid() && clock == Max(old(clock), now) && limiter.clock == tick
    {
      ghost var m, d := Value(), disk;
      reply, limited := PairStatusLocked(user, sessionId, now, tick);
      HandleKeepsSynced(cfg, m, d, clock, Request(now, limited, Call.PairStatus(user, sessionId)));
      Tick(now);
    }

    method PairComplete(code: string, clientName: string, fingerprint: string, secret: string, connectionId: string,
                        ns: string, host: string, now: int, tick: real)
      returns (reply: Reply, ghost limited: bool)
      requires Valid() && limiter.clock <= tick
      requires DrawsOk(Value(), Call.PairComplete(code, clientName, fingerprint, secret, connectionId, ns))
      modifies this`sessions, this`connections, this`disk, this`clock, limiter
      ensures Took(old(Value()), old(disk),
                   Request(now, limited, Call.PairComplete(code, clientName, fingerprint, secret, connectionId, ns)),
                   reply)
      ensures limiter.log == old(limiter.log) + [RateLimit.Check(RateLimit.PairComplete(host), 20, tick, limited)]
      ensures Valid() && clock == Max(old(clock), now) && limiter.clock == tick
    {
      ghost var m, d := Value(), disk;
      reply, limited := PairCompleteLocked(code, clientName, fingerprint, secret, connectionId, ns, host, now, tick);
      HandleKeepsSynced(
        cfg, m, d, clock,
        Request(now, limited, Call.PairComplete(code, clientName, fingerprint, secret, connectionId, ns)));
      Tick(now);
    }

    method ListConnections(user: string, now: int, tick: real)
      returns (reply: Reply, ghost limited: bool)
      requires Valid() && limiter.clock <= tick
      modifies this`clock, limiter
      ensures Took(old(Value()), old(disk), Request(now, limited, Call.ListConnections(user)), reply)
      ensures limiter.log == old(limiter.log) + [RateLimit.Check(RateLimit.ConnectionsList(user), 60, tick, limited)]
      ensures Valid() && clock == Max(old(clock), now) && limiter.clock == tick
    {
      ghost var m, d := Value(), disk;
      reply, limited := ListConnectionsLocked(user, now, tick);
      HandleKeepsSynced(cfg, m, d, clock, Request(now, limited, Call.ListConnections(user)));
      Tick(now);
    }

    method RevokeConnection(user: string, connectionId: string, now: int, tick: real)
      returns (reply: Reply, ghost limited: bool)
      requires Valid() && limiter.clock <= tick
      modifies this`connections, this`disk, this`clock, limiter
      ensures Took(old(Value()), old(disk), Request(now, limited, Call.RevokeConnection(user, connectionId)), reply)
      ensures limiter.log == old(limiter.log) + [RateLimit.Check(RateLimit.ConnectionsRevoke(user), 20, tick, limited)]
      ensures Valid() && clock == Max(old(clock), now) && limiter.clock == tick
    {
      ghost var m, d := Value(), disk;
      reply, limited := RevokeConnectionLocked(user, connectionId, now, tick);
      HandleKeepsSynced(cfg, m, d, clock, Request(now, limited, Call.RevokeConnection(user, connectionId)));
      Tick(now);
    }

    method RegisterAgent(clientId: string, clientSecret: string, username: string, now: int, tick: real)
      returns (reply: Reply, ghost limited: bool)
      requires Valid() && limiter.clock <= tick
      modifies this`connections, this`disk, this`clock, limiter
      ensures Took(old(Value()), old(disk),
                   Request(now, limited, Call.RegisterAgent(clientId, clientSecret, username)), reply)
      ensures if PairingAnswers.Admitted(cfg, old(Value()), clientId, clientSecret)
              then limiter.log == old(limiter.log)
                                  + [RateLimit.Check(RateLimit.RegisterAgent(clientId), 60, tick, limited)]
              else !limited && limiter.log == old(limiter.log)
      ensures Valid() && clock == Max(old(clock), now) && old(limiter.clock) <= limiter.clock <= tick
    {
      ghost var m, d := Value(), disk;
      PairingAnswers.ClientCheckMeans(cfg, m, clientId, clientSecret);
      reply, limited := RegisterAgentLocked(clientId, clientSecret, username, now, tick);
      HandleKeepsSynced(cfg, m, d, clock, Request(now, limited, Call.RegisterAgent(clientId, clientSecret, username)));
      Tick(now);
    }

    method GoogleClient(clientId: string, clientSecret: string, now: int, tick: real)
      returns (reply: Reply, ghost limited: bool)
      requires Valid() && limiter.clock <= tick
      modifies this`connections, this`disk, this`clock, limiter
      ensures Took(old(Value()), old(disk), Request(now, limited, Call.GoogleClient(clientId, clientSecret)), reply)
      ensures if PairingAnswers.Admitted(cfg, old(Value()), clientId, clientSecret)
              then limiter.log == old(limiter.log)
                                  + [RateLimit.Check(RateLimit.GoogleClient(clientId), 60, tick, limited)]
              else !limited && limiter.log == old(limiter.log)
      ensures Valid() && clock == Max(old(clock), now) && old(limiter.clock) <= limiter.clock <= tick
    {
      ghost var m, d := Value(), disk;
      PairingAnswers.ClientCheckMeans(cfg, m, clientId, clientSecret);
      reply, limited := GoogleClientLocked(clientId, clientSecret, now, tick);
      HandleKeepsSynced(cfg, m, d, clock, Request(now, limited, Call.GoogleClient(clientId, clientSecret)));
      Tick(now);
    }
  }
}

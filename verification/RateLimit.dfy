// The provisioning service's sliding-window rate limiter: buckets that are trimmed on use and
// swept when stale decide exactly what a complete record of accepted requests would decide.
module RateLimit {

  import opened Sequences

  // One bucket per handler and caller; the constants are each handler's own limit.
  datatype Key =
    | PairStart(user: string)
    | PairStatus(user: string)
    | PairComplete(host: string)
    | ConnectionsList(user: string)
    | ConnectionsRevoke(user: string)
    | RegisterAgent(connectionId: string)
    | GoogleClient(connectionId: string)
  {
    function Limit(): int {
      match this
      case PairStart(_) => 10
      case PairStatus(_) => 60
      case PairComplete(_) => 20
      case ConnectionsList(_) => 60
      case ConnectionsRevoke(_) => 20
      case RegisterAgent(_) => 60
      case GoogleClient(_) => 60
    }
  }

  const WINDOW_SECONDS := 60.0
  const RATE_LIMIT_CLEANUP_INTERVAL_SECONDS := 300.0
  const RATE_LIMIT_STALE_SECONDS := 3600.0

  // [value for value in entries if value >= cutoff]
  function Recent(entries: seq<real>, cutoff: real): seq<real> {
    if entries == [] then []
    else
      var last := entries[|entries| - 1];
      Recent(entries[..|entries| - 1], cutoff) + if last >= cutoff then [last] else []
  }

  // How many entries lie in a closed interval.
  function CountIn(entries: seq<real>, low: real, high: real): nat {
    if entries == [] then 0
    else
      var last := entries[|entries| - 1];
      CountIn(entries[..|entries| - 1], low, high) + if low <= last <= high then 1 else 0
  }

  // Accepted requests in the closed window that opens at `low`.
  function WindowCount(history: seq<real>, low: real): nat {
    CountIn(history, low, low + WINDOW_SECONDS)
  }

  // The accepted requests that came at most a minute before.
  ghost function LastMinute(history: seq<real>, now: real): set<nat> {
    set i: nat | i < |history| && now - 60.0 <= history[i] <= now
  }

  lemma {:induction false} MinuteCounts(history: seq<real>, now: real)
    ensures WindowCount(history, now - WINDOW_SECONDS) == |LastMinute(history, now)|
  {
    if history != [] {
      var init, n := history[..|history| - 1], |history| - 1;
      MinuteCounts(init, now);
      assert LastMinute(history, now)
          == LastMinute(init, now) + if now - 60.0 <= history[n] <= now then {n as nat} else {};
    }
  }

  predicate Stale(entries: seq<real>, now: real) {
    entries == [] || entries[|entries| - 1] < now - RATE_LIMIT_STALE_SECONDS
  }

  // Accepted times, oldest first, none in the future.
  ghost predicate Ascending(history: seq<real>, clock: real) {
    && (forall i, j :: 0 <= i < j < |history| ==> history[i] <= history[j])
    && (forall i :: 0 <= i < |history| ==> history[i] <= clock)
  }

  // The first k accepted times are too old to count ever again.
  ghost predicate Forgotten(history: seq<real>, k: nat, clock: real)
    requires k <= |history|
  {
    forall i :: 0 <= i < k ==> history[i] < clock - WINDOW_SECONDS
  }

  // The bucket is what is left of the history without some such entries.
  ghost predicate Remembers(history: seq<real>, bucket: seq<real>, clock: real) {
    exists k :: 0 <= k <= |history| && bucket == history[k..] && Forgotten(history, k, clock)
  }

  // No closed window ever holds more than `limit` accepted requests.
  ghost predicate Bounded(history: seq<real>, limit: int) {
    forall low: real :: WindowCount(history, low) <= limit
  }

  ghost predicate KeyOk(history: seq<real>, bucket: seq<real>, clock: real) {
    Remembers(history, bucket, clock) && Ascending(history, clock)
  }

  lemma LaterKeyOk(history: seq<real>, bucket: seq<real>, clock: real, now: real)
    requires KeyOk(history, bucket, clock) && clock <= now
    ensures KeyOk(history, bucket, now)
  {
    var k :| 0 <= k <= |history| && bucket == history[k..] && Forgotten(history, k, clock);
    assert Forgotten(history, k, now);
  }

  // A stale bucket holds nothing a later decision could count, because the window is no
  // longer than the stale age.
  lemma StaleIsForgettable(history: seq<real>, bucket: seq<real>, clock: real)
    requires KeyOk(history, bucket, clock) && Stale(bucket, clock)
    ensures KeyOk(history, [], clock)
  {
    var k :| 0 <= k <= |history| && bucket == history[k..] && Forgotten(history, k, clock);
    if k < |history| {
      assert history[|history| - 1] == bucket[|bucket| - 1] < clock - RATE_LIMIT_STALE_SECONDS;
      assert forall i :: 0 <= i < |history| ==> history[i] <= history[|history| - 1];
    }
    assert Forgotten(history, |history|, clock) && history[|history|..] == [];
  }

  lemma {:induction false} RecentCounts(history: seq<real>, cutoff: real, now: real)
    requires forall i :: 0 <= i < |history| ==> history[i] <= now
    ensures |Recent(history, cutoff)| == CountIn(history, cutoff, now)
  {
    if history != [] {
      RecentCounts(history[..|history| - 1], cutoff, now);
    }
  }

  // Trimming the bucket and trimming the history give the same entries ...
  lemma {:induction false} RecentOfSuffix(history: seq<real>, k: nat, cutoff: real)
    requires k <= |history| && forall i :: 0 <= i < k ==> history[i] < cutoff
    ensures Recent(history[k..], cutoff) == Recent(history, cutoff)
  {
    if k < |history| {
      var init := history[..|history| - 1];
      RecentOfSuffix(init, k, cutoff);
      assert history[k..][..|history[k..]| - 1] == init[k..];
    } else {
      NothingRecent(history, cutoff);
    }
  }

  lemma {:induction false} NothingRecent(history: seq<real>, cutoff: real)
    requires forall i :: 0 <= i < |history| ==> history[i] < cutoff
    ensures Recent(history, cutoff) == []
  {
    if history != [] {
      NothingRecent(history[..|history| - 1], cutoff);
    }
  }

  // ... which are the tail of the history.
  lemma {:induction false} RecentIsTail(history: seq<real>, cutoff: real) returns (k: nat)
    requires forall i, j :: 0 <= i < j < |history| ==> history[i] <= history[j]
    ensures k <= |history| && Recent(history, cutoff) == history[k..]
    ensures forall i :: 0 <= i < k ==> history[i] < cutoff
  {
    if history == [] {
      k := 0;
    } else {
      var init, last := history[..|history| - 1], history[|history| - 1];
      k := RecentIsTail(init, cutoff);
      if last < cutoff {
        NothingRecent(history, cutoff);
        k := |history|;
      } else {
        assert history[k..] == init[k..] + [last];
      }
    }
  }

  // Accepting one more request when the last window is not full keeps every window within bounds.
  lemma AcceptingStaysBounded(history: seq<real>, limit: int, now: real)
    requires Bounded(history, limit) && (forall i :: 0 <= i < |history| ==> history[i] <= now)
    requires WindowCount(history, now - WINDOW_SECONDS) < limit
    ensures Bounded(history + [now], limit)
  {
    forall low: real ensures WindowCount(history + [now], low) <= limit {
      SnocPrefix(history, now);
      assert WindowCount(history, low) <= limit;
      if low <= now <= low + WINDOW_SECONDS {
        LaterWindow(history, now - WINDOW_SECONDS, low, now);
      }
    }
  }

  // A window that reaches no later entries counts no more than an earlier one.
  lemma {:induction false} LaterWindow(history: seq<real>, early: real, low: real, now: real)
    requires early <= low <= now && now == early + WINDOW_SECONDS
    requires forall i :: 0 <= i < |history| ==> history[i] <= now
    ensures WindowCount(history, low) <= WindowCount(history, early)
  {
    if history != [] {
      LaterWindow(history[..|history| - 1], early, low, now);
    }
  }

  // What a table of times holds for a key.
  function Times(table: map<Key, seq<real>>, key: Key): seq<real> {
    if key in table then table[key] else []
  }

  // The buckets that survive a sweep.
  function Swept(buckets: map<Key, seq<real>>, now: real): map<Key, seq<real>> {
    map key | key in buckets && !Stale(buckets[key], now) :: buckets[key]
  }

  // A bucket survives just as it is, when anything of it is at most an hour old.
  lemma SweptMeans(buckets: map<Key, seq<real>>, now: real, key: Key)
    requires key in buckets && forall i, j :: 0 <= i < j < |buckets[key]| ==> buckets[key][i] <= buckets[key][j]
    ensures key in Swept(buckets, now) <==> exists i :: 0 <= i < |buckets[key]| && now - 3600.0 <= buckets[key][i]
    ensures key in Swept(buckets, now) ==> Swept(buckets, now)[key] == buckets[key]
  {
    var entries := buckets[key];
    if i :| 0 <= i < |entries| && now - 3600.0 <= entries[i] {
      assert entries[i] <= entries[|entries| - 1];
    }
  }

  ghost predicate AllOk(accepted: map<Key, seq<real>>, buckets: map<Key, seq<real>>, clock: real) {
    && (forall key :: KeyOk(Times(accepted, key), Times(buckets, key), clock))
    && (forall key :: Bounded(Times(accepted, key), key.Limit()))
  }

  lemma LaterAllOk(accepted: map<Key, seq<real>>, buckets: map<Key, seq<real>>, clock: real, now: real)
    requires AllOk(accepted, buckets, clock) && clock <= now
    ensures AllOk(accepted, buckets, now)
  {
    forall key ensures KeyOk(Times(accepted, key), Times(buckets, key), now) {
      LaterKeyOk(Times(accepted, key), Times(buckets, key), clock, now);
    }
  }

  lemma SweptAllOk(accepted: map<Key, seq<real>>, buckets: map<Key, seq<real>>, clock: real)
    requires AllOk(accepted, buckets, clock)
    ensures AllOk(accepted, Swept(buckets, clock), clock)
  {
    forall key ensures KeyOk(Times(accepted, key), Times(Swept(buckets, clock), key), clock) {
      assert KeyOk(Times(accepted, key), Times(buckets, key), clock);
      if key in buckets && Stale(buckets[key], clock) {
        StaleIsForgettable(Times(accepted, key), buckets[key], clock);
      }
    }
  }

  lemma AcceptedKeyOk(history: seq<real>, bucket: seq<real>, clock: real, entries: seq<real>, k: nat)
    requires KeyOk(history, bucket, clock) && k <= |history|
    requires entries == history[k..] && Forgotten(history, k, clock)
    ensures KeyOk(history + [clock], entries + [clock], clock)
  {
    var more := history + [clock];
    assert more[k..] == entries + [clock] && Forgotten(more, k, clock);
  }

  lemma AcceptedAllOk(
    accepted: map<Key, seq<real>>, buckets: map<Key, seq<real>>, clock: real, key: Key, entries: seq<real>, k: nat)
    requires AllOk(accepted, buckets, clock) && k <= |Times(accepted, key)|
    requires entries == Times(accepted, key)[k..] && Forgotten(Times(accepted, key), k, clock)
    requires WindowCount(Times(accepted, key), clock - WINDOW_SECONDS) < key.Limit()
    ensures AllOk(accepted[key := Times(accepted, key) + [clock]], buckets[key := entries + [clock]], clock)
  {
    var history := Times(accepted, key);
    var more := history + [clock];
    assert KeyOk(history, Times(buckets, key), clock);
    assert Bounded(history, key.Limit());
    AcceptingStaysBounded(history, key.Limit(), clock);
    AcceptedKeyOk(history, Times(buckets, key), clock, entries, k);
    var accepted', buckets' := accepted[key := more], buckets[key := entries + [clock]];
    forall other
      ensures KeyOk(Times(accepted', other), Times(buckets', other), clock)
      ensures Bounded(Times(accepted', other), other.Limit())
    {
      assert KeyOk(Times(accepted, other), Times(buckets, other), clock);
      assert Bounded(Times(accepted, other), other.Limit());
    }
  }

  // ----- The limiter's log -----

  // One call of the limiter: the limit it was given, the clock, and its verdict.
  datatype Check = Check(key: Key, limit: int, at: real, limited: bool)

  class RateLimiter {
    var buckets: map<Key, seq<real>>
    var lastCleanup: real
    ghost var accepted: map<Key, seq<real>>  // every request accepted in this run
    ghost var log: seq<Check>                // every call in this run
    ghost var clock: real                    // the last clock reading

    ghost predicate Valid()
      reads this
    {
      AllOk(accepted, buckets, clock)
    }

    constructor (start: real)
      ensures Valid() && accepted == map[] && log == [] && clock == start
    {
      buckets, lastCleanup := map[], 0.0;
      accepted, log, clock := map[], [], start;
      new;
      var none: seq<real> := [];
      assert Forgotten(none, 0, start) && none[0..] == none;
    }

    // rate_limit_buckets.clear(): what was accepted before no longer counts.
    method Forget()
      modifies this`buckets, this`accepted, this`log
      ensures Valid() && buckets == map[] && accepted == map[] && log == []
    {
      buckets, accepted, log := map[], map[], [];
      var none: seq<real> := [];
      assert Forgotten(none, 0, clock) && none[0..] == none;
    }

    // _cleanup_rate_limit_buckets_unlocked
    method Cleanup(now: real)
      modifies this`buckets
      ensures buckets == Swept(old(buckets), now)
    {
      var staleKeys := set key | key in buckets && Stale(buckets[key], now);
      buckets := map key | key in buckets && key !in staleKeys :: buckets[key];
    }

    // _enforce_rate_limit_unlocked: a request is refused exactly when the closed window that
    // ends now already holds `limit` accepted requests of its key, and every accepted request
    // is remembered for as long as it can matter.
    method Enforce(key: Key, now: real) returns (limited: bool)
      requires Valid() && clock <= now
      modifies this
      ensures Valid() && clock == now && log == old(log) + [Check(key, key.Limit(), now, limited)]
      ensures limited <==> WindowCount(Times(old(accepted), key), now - WINDOW_SECONDS) >= key.Limit()
      ensures accepted == if limited then old(accepted) else old(accepted)[key := Times(old(accepted), key) + [now]]
    {
      LaterAllOk(accepted, buckets, clock, now);
      clock := now;
      if now - lastCleanup >= RATE_LIMIT_CLEANUP_INTERVAL_SECONDS {
        SweptAllOk(accepted, buckets, now);
        Cleanup(now);
        lastCleanup := now;
      }
      var windowStart := now - WINDOW_SECONDS;
      var entries := Recent(Times(buckets, key), windowStart);
      assert KeyOk(Times(accepted, key), Times(buckets, key), now);
      ghost var k := TrimmedBucket(Times(accepted, key), Times(buckets, key), now);
      log := log + [Check(key, key.Limit(), now, |entries| >= key.Limit())];
      if |entries| >= key.Limit() {
        return true;
      }
      AcceptedAllOk(accepted, buckets, now, key, entries, k);
      accepted := accepted[key := Times(accepted, key) + [now]];
      entries := entries + [now];
      buckets := buckets[key := entries];
      return false;
    }
  }

  // What is left of the bucket after trimming counts exactly the last window.
  lemma TrimmedBucket(history: seq<real>, bucket: seq<real>, now: real) returns (k: nat)
    requires KeyOk(history, bucket, now)
    ensures |Recent(bucket, now - WINDOW_SECONDS)| == WindowCount(history, now - WINDOW_SECONDS)
    ensures k <= |history| && Recent(bucket, now - WINDOW_SECONDS) == history[k..] && Forgotten(history, k, now)
  {
    var j :| 0 <= j <= |history| && bucket == history[j..] && Forgotten(history, j, now);
    RecentOfSuffix(history, j, now - WINDOW_SECONDS);
    RecentCounts(history, now - WINDOW_SECONDS, now);
    k := RecentIsTail(history, now - WINDOW_SECONDS);
  }
}

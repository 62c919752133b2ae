// The adaptive wait for exact replies: how long it may take, when it is extended, and what its
// verdicts mean. Times are in milliseconds.
module WaitBudget {

  import opened Options

  type Id = string

  const BUDGET_SAFETY_FACTOR := 3
  const STALL_TURN_MULTIPLE := 4
  const MAX_BUDGET_EXTENSIONS := 3

  function Max(a: int, b: int): int {
    if a >= b then a else b
  }

  datatype Budget = Budget(turns: nat, perTurn: nat, settle: nat, floor: nat) {

    // WaitBudget.seconds
    function Limit(): (n: int)
      ensures n >= 0
    {
      Max(floor, turns * perTurn * BUDGET_SAFETY_FACTOR) + settle
    }

    // WaitBudget.stall_seconds
    function Stall(): (n: int)
      ensures n >= 0
    {
      Max(floor, perTurn * STALL_TURN_MULTIPLE)
    }
  }

  // ----- What one poll brings -----

  // A reply to `source`, taken in `lag` before the poll was over.
  datatype Arrival = Arrival(source: Id, reply: Id, lag: nat)

  // `alive` is the verdict of the caller's liveness check.
  datatype Poll = Poll(elapsed: nat, arrivals: seq<Arrival>, alive: bool)

  ghost predicate Timely(p: Poll, longest: nat) {
    && 1 <= p.elapsed <= longest
    && forall i :: 0 <= i < |p.arrivals| ==> p.arrivals[i].lag <= p.elapsed
  }

  // What the oracle waits for: the sources, and the relays that may be answered besides.
  datatype Scope = Scope(expected: set<Id>, relays: set<Id>)

  datatype Tally = Tally(replies: map<Id, set<Id>>, lastResponse: int, lastProgress: int)

  function RepliesTo(replies: map<Id, set<Id>>, source: Id): set<Id> {
    if source in replies then replies[source] else {}
  }

  // _ingest_agent_message
  function Ingest(scope: Scope, t: Tally, a: Arrival, now: int): Tally {
    var before := RepliesTo(t.replies, a.source);
    Tally(t.replies[a.source := before + {a.reply}], now - a.lag,
          if before == {} && a.source in scope.expected then now - a.lag else t.lastProgress)
  }

  function IngestAll(scope: Scope, t: Tally, arrivals: seq<Arrival>, now: int): Tally {
    if arrivals == [] then t
    else Ingest(scope, IngestAll(scope, t, arrivals[..|arrivals| - 1], now), arrivals[|arrivals| - 1], now)
  }

  // _assert_no_wrong_replies: no duplicates, and no replies to sources nobody asked about
  predicate NoWrongReplies(scope: Scope, replies: map<Id, set<Id>>) {
    forall s :: s in replies ==>
      |replies[s]| <= 1 && (replies[s] != {} ==> s in scope.expected || s in scope.relays)
  }

  function Outstanding(scope: Scope, replies: map<Id, set<Id>>): set<Id> {
    set s | s in scope.expected && |RepliesTo(replies, s)| != 1
  }

  // ----- The wait as a machine over polls -----

  // `windows` remembers what was outstanding when each window began.
  datatype State = State(
    tally: Tally, now: int, started: int, windowStarted: int, deadline: int, extensions: nat,
    completeSince: Option<int>, windows: seq<set<Id>>)

  datatype Outcome =
    | Waiting(s: State)
    | Complete(s: State)
    | WrongReply(s: State)
    | Dead(s: State)
    | NeverQuiet(s: State)
    | TimedOut(s: State, silent: int, wedged: bool)

  function Start(scope: Scope, b: Budget, replies: map<Id, set<Id>>, lastResponse: int, now: int): State {
    State(Tally(replies, lastResponse, now), now, now, now, now + b.Limit(), 0, None, [Outstanding(scope, replies)])
  }

  // What the loop concludes from a poll that brought no wrong reply.
  function Conclude(b: Budget, s: State, outstanding: set<Id>): Outcome {
    if outstanding == {} then
      if s.now - s.tally.lastResponse >= b.settle then Complete(s)
      else
        var since := if s.completeSince.None? then s.now else s.completeSince.value;
        var s' := s.(completeSince := Some(since));
        if s.now - since < b.Stall() then Waiting(s') else NeverQuiet(s')
    else
      var s' := s.(completeSince := None);
      var silent := s.now - s.tally.lastProgress;
      if silent >= b.Stall() then TimedOut(s', silent, true)
      else if s.now < s.deadline then Waiting(s')
      else if s.tally.lastProgress > s.windowStarted && s.extensions < MAX_BUDGET_EXTENSIONS then
        Waiting(s'.(extensions := s.extensions + 1, windowStarted := s.now, deadline := s.now + b.Limit(),
                    windows := s.windows + [outstanding]))
      else TimedOut(s', silent, !(s.tally.lastProgress > s.windowStarted))
  }

  function Polled(scope: Scope, w: State, p: Poll): State {
    w.(now := w.now + p.elapsed, tally := IngestAll(scope, w.tally, p.arrivals, w.now + p.elapsed))
  }

  // One round of the loop in _wait_with_budget.
  function Step(scope: Scope, b: Budget, w: State, p: Poll): Outcome {
    var s := Polled(scope, w, p);
    if !NoWrongReplies(scope, s.tally.replies) then WrongReply(s)
    else if !p.alive then Dead(s)
    else Conclude(b, s, Outstanding(scope, s.tally.replies))
  }

  // The outcome after `n` polls.
  function Run(scope: Scope, b: Budget, w: State, polls: nat -> Poll, n: nat): Outcome {
    if n == 0 then Waiting(w)
    else
      var before := Run(scope, b, w, polls, n - 1);
      if before.Waiting? then Step(scope, b, before.s, polls(n - 1)) else before
  }

  // ----- What stays true while waiting -----

  // Replies are only ever added.
  predicate Grows(before: map<Id, set<Id>>, after: map<Id, set<Id>>) {
    forall s :: s in before ==> s in after && before[s] <= after[s]
  }

  lemma {:induction false} IngestGrows(scope: Scope, t: Tally, arrivals: seq<Arrival>, now: int, longest: nat)
    requires t.lastResponse <= now && t.lastProgress <= now
    requires forall i :: 0 <= i < |arrivals| ==> arrivals[i].lag <= longest
    ensures var t' := IngestAll(scope, t, arrivals, now);
      && Grows(t.replies, t'.replies)
      && t'.lastResponse <= now && t'.lastProgress <= now
      && (t'.lastProgress != t.lastProgress ==> t'.lastProgress >= now - longest)
      && (t'.lastProgress != t.lastProgress ==>
            exists s :: s in scope.expected && RepliesTo(t.replies, s) == {} && RepliesTo(t'.replies, s) != {})
  {
    if arrivals != [] {
      var init, last := arrivals[..|arrivals| - 1], arrivals[|arrivals| - 1];
      IngestGrows(scope, t, init, now, longest);
      var m := IngestAll(scope, t, init, now);
      var t' := Ingest(scope, m, last, now);
      if m.lastProgress != t.lastProgress {
        var s :| s in scope.expected && RepliesTo(t.replies, s) == {} && RepliesTo(m.replies, s) != {};
        assert RepliesTo(t'.replies, s) != {};
      } else if t'.lastProgress != m.lastProgress {
        assert RepliesTo(t.replies, last.source) == {};
        assert last.reply in RepliesTo(t'.replies, last.source);
      }
    }
  }

  // Without duplicates, what is outstanding can only shrink, and does when a first reply arrives.
  lemma OutstandingShrinks(scope: Scope, before: map<Id, set<Id>>, after: map<Id, set<Id>>)
    requires Grows(before, after) && NoWrongReplies(scope, after)
    ensures Outstanding(scope, after) <= Outstanding(scope, before)
    ensures (exists s :: s in scope.expected && RepliesTo(before, s) == {} && RepliesTo(after, s) != {}) ==>
      Outstanding(scope, after) < Outstanding(scope, before)
  {
    forall s | s in Outstanding(scope, after) ensures s in Outstanding(scope, before) {
      assert RepliesTo(after, s) == {};
      assert RepliesTo(before, s) == {};
    }
    if s :| s in scope.expected && RepliesTo(before, s) == {} && RepliesTo(after, s) != {} {
      assert s in Outstanding(scope, before) && |RepliesTo(after, s)| == 1;
      assert s !in Outstanding(scope, after);
    }
  }

  // The latest time the k-th window can begin.
  function Latest(b: Budget, longest: nat, started: int, k: nat): int {
    if k == 0 then started else Latest(b, longest, started, k - 1) + b.Limit() + longest
  }

  // The clocks of the wait, and its windows: each one that was extended saw the outstanding set shrink.
  ghost predicate Paced(b: Budget, longest: nat, w: State, outstanding: set<Id>) {
    && w.started <= w.windowStarted <= w.now && w.deadline == w.windowStarted + b.Limit()
    && w.extensions <= MAX_BUDGET_EXTENSIONS && w.windowStarted <= Latest(b, longest, w.started, w.extensions)
    && w.tally.lastProgress <= w.now && w.tally.lastResponse <= w.now
    && (w.completeSince.None? ==> w.now <= w.deadline)
    && (w.completeSince.Some? ==>
          outstanding == {}
          && w.completeSince.value <= w.deadline + longest
          && w.now - w.completeSince.value < b.Stall())
  }

  ghost predicate Drained(w: State, outstanding: set<Id>) {
    && |w.windows| == w.extensions + 1
    && (forall k :: 0 <= k < |w.windows| - 1 ==> w.windows[k + 1] < w.windows[k])
    && outstanding <= w.windows[w.extensions]
    && (w.tally.lastProgress > w.windowStarted ==> outstanding < w.windows[w.extensions])
  }

  // What a poll does to the clocks and to what is outstanding.
  ghost predicate Follows(w: State, s: State, longest: nat, before: set<Id>, after: set<Id>) {
    && s == w.(now := s.now, tally := s.tally)
    && w.now < s.now <= w.now + longest
    && s.tally.lastProgress <= s.now && s.tally.lastResponse <= s.now
    && after <= before
    && (s.tally.lastProgress != w.tally.lastProgress ==> s.tally.lastProgress >= w.now && after < before)
  }

  lemma PollFollows(scope: Scope, w: State, p: Poll, longest: nat)
    requires Timely(p, longest) && w.tally.lastProgress <= w.now && w.tally.lastResponse <= w.now
    requires NoWrongReplies(scope, Polled(scope, w, p).tally.replies)
    ensures var s := Polled(scope, w, p);
      Follows(w, s, longest, Outstanding(scope, w.tally.replies), Outstanding(scope, s.tally.replies))
  {
    var s := Polled(scope, w, p);
    IngestGrows(scope, w.tally, p.arrivals, s.now, p.elapsed);
    OutstandingShrinks(scope, w.tally.replies, s.tally.replies);
  }

  // The last moment a wait that is not over can have reached.
  function Limit(b: Budget, longest: nat, w: State): int {
    if w.completeSince.None? then w.deadline + longest else w.deadline + longest + b.Stall() + longest
  }

  lemma ConcludeIsPaced(b: Budget, longest: nat, w: State, s: State, before: set<Id>, after: set<Id>)
    requires Paced(b, longest, w, before) && Follows(w, s, longest, before, after)
    ensures var o := Conclude(b, s, after);
      && (o.Waiting? ==> Paced(b, longest, o.s, after))
      && o.s.now <= Limit(b, longest, w)
  {
  }

  lemma ConcludeDrains(b: Budget, longest: nat, w: State, s: State, before: set<Id>, after: set<Id>)
    requires Paced(b, longest, w, before) && Drained(w, before) && Follows(w, s, longest, before, after)
    ensures Drained(s, after)
    ensures Conclude(b, s, after).Waiting? ==> Drained(Conclude(b, s, after).s, after)
  {
    var o := Conclude(b, s, after);
    if o.Waiting? && o.s.extensions > s.extensions {
      forall k | 0 <= k < |o.s.windows| - 1 ensures o.s.windows[k + 1] < o.s.windows[k] {
        assert o.s.windows[k] == s.windows[k];
      }
    }
  }

  ghost predicate Sound(scope: Scope, b: Budget, longest: nat, w: State) {
    && Paced(b, longest, w, Outstanding(scope, w.tally.replies))
    && Drained(w, Outstanding(scope, w.tally.replies))
  }

  lemma StartIsSound(scope: Scope, b: Budget, longest: nat, replies: map<Id, set<Id>>, lastResponse: int, now: int)
    requires lastResponse <= now
    ensures Sound(scope, b, longest, Start(scope, b, replies, lastResponse, now))
  {
  }

  lemma {:induction false} RunIsSound(scope: Scope, b: Budget, longest: nat, w: State, polls: nat -> Poll, n: nat)
    requires Sound(scope, b, longest, w)
    requires forall i: nat :: i < n ==> Timely(polls(i), longest)
    ensures var o := Run(scope, b, w, polls, n);
      o.Waiting? ==> Sound(scope, b, longest, o.s) && o.s.now >= w.now + n
    decreases n
  {
    if n > 0 {
      RunIsSound(scope, b, longest, w, polls, n - 1);
      var before := Run(scope, b, w, polls, n - 1);
      if before.Waiting? {
        StepIsSound(scope, b, longest, before.s, polls(n - 1));
      }
    }
  }

  lemma StepIsSound(scope: Scope, b: Budget, longest: nat, w: State, p: Poll)
    requires Sound(scope, b, longest, w) && Timely(p, longest)
    ensures var o := Step(scope, b, w, p);
      && (o.Waiting? ==> Sound(scope, b, longest, o.s) && o.s.now == w.now + p.elapsed)
      && o.s.now <= Limit(b, longest, w)
  {
    var s := Polled(scope, w, p);
    if NoWrongReplies(scope, s.tally.replies) {
      var before, after := Outstanding(scope, w.tally.replies), Outstanding(scope, s.tally.replies);
      PollFollows(scope, w, p, longest);
      ConcludeIsPaced(b, longest, w, s, before, after);
      ConcludeDrains(b, longest, w, s, before, after);
      if p.alive && Conclude(b, s, after).Waiting? {
        assert Conclude(b, s, after).s.tally == s.tally;
      }
    }
  }

  // ----- What the outcome of a wait says -----

  // The poll that ended the wait.
  lemma {:induction false} LastPoll(scope: Scope, b: Budget, w: State, polls: nat -> Poll, n: nat) returns (m: nat)
    requires !Run(scope, b, w, polls, n).Waiting?
    ensures m < n && Run(scope, b, w, polls, m).Waiting?
    ensures Run(scope, b, w, polls, n) == Step(scope, b, Run(scope, b, w, polls, m).s, polls(m))
    decreases n
  {
    if Run(scope, b, w, polls, n - 1).Waiting? {
      m := n - 1;
    } else {
      m := LastPoll(scope, b, w, polls, n - 1);
    }
  }

  function Longest(b: Budget, longest: nat): int {
    4 * b.Limit() + b.Stall() + 5 * longest
  }

  lemma LimitIsBounded(b: Budget, longest: nat, w: State, outstanding: set<Id>)
    requires Paced(b, longest, w, outstanding)
    ensures Limit(b, longest, w) <= w.started + Longest(b, longest)
  {
    var k := w.extensions;
    assert k == 0 || k == 1 || k == 2 || k == 3;
    assert Latest(b, longest, w.started, 1) == w.started + b.Limit() + longest;
    assert Latest(b, longest, w.started, 2) == w.started + 2 * b.Limit() + 2 * longest;
    assert Latest(b, longest, w.started, 3) == w.started + 3 * b.Limit() + 3 * longest;
  }

  lemma {:induction false} RunKeepsStart(scope: Scope, b: Budget, w: State, polls: nat -> Poll, n: nat)
    ensures Run(scope, b, w, polls, n).s.started == w.started
    decreases n
  {
    if n > 0 {
      RunKeepsStart(scope, b, w, polls, n - 1);
      var before := Run(scope, b, w, polls, n - 1);
      if before.Waiting? {
        StepKeepsStart(scope, b, before.s, polls(n - 1));
      }
    }
  }

  lemma StepKeepsStart(scope: Scope, b: Budget, w: State, p: Poll)
    ensures Step(scope, b, w, p).s.started == w.started
  {
  }

  // A reply to a source, and when it arrived.
  datatype Hearing = Hearing(source: Id, reply: Id, at: int)

  function HeardIn(arrivals: seq<Arrival>, now: int): seq<Hearing> {
    seq(|arrivals|, i requires 0 <= i < |arrivals| =>
      Hearing(arrivals[i].source, arrivals[i].reply, now - arrivals[i].lag))
  }

  ghost predicate IsReply(replies: map<Id, set<Id>>, heard: seq<Hearing>, source: Id, reply: Id) {
    || (source in replies && reply in replies[source])
    || (exists i :: 0 <= i < |heard| && heard[i].source == source && heard[i].reply == reply)
  }

  // The first reply to an expected source.
  ghost predicate IsFirst(scope: Scope, replies: map<Id, set<Id>>, heard: seq<Hearing>, i: nat)
    requires i < |heard|
  {
    && heard[i].source in scope.expected
    && (heard[i].source in replies ==> replies[heard[i].source] == {})
    && forall j :: 0 <= j < i ==> heard[j].source != heard[i].source
  }

  ghost predicate IsLastFirst(scope: Scope, replies: map<Id, set<Id>>, began: int, heard: seq<Hearing>, at: int) {
    || (at == began && forall i :: 0 <= i < |heard| ==> !IsFirst(scope, replies, heard, i))
    || (exists i :: 0 <= i < |heard| && IsFirst(scope, replies, heard, i) && heard[i].at == at
          && forall j :: i < j < |heard| ==> !IsFirst(scope, replies, heard, j))
  }

  // One wait: what the oracle knew when it began, and what its first n polls brought.
  datatype Trial = Trial(
    scope: Scope, replies: map<Id, set<Id>>, lastResponse: int, now: int, longest: nat, polls: nat -> Poll, n: nat)
  {
    ghost predicate Valid() {
      lastResponse <= now && forall i: nat :: i < n ==> Timely(polls(i), longest)
    }

    function Began(b: Budget): State {
      Start(scope, b, replies, lastResponse, now)
    }

    function Result(b: Budget): Outcome {
      After(b, n)
    }

    function After(b: Budget, k: nat): Outcome {
      Run(scope, b, Began(b), polls, k)
    }

    // The time at which poll k was over.
    function Clock(k: nat): int {
      if k == 0 then now else Clock(k - 1) + polls(k - 1).elapsed
    }

    // Everything heard up to then, in order.
    function Heard(k: nat): seq<Hearing> {
      if k == 0 then [] else Heard(k - 1) + HeardIn(polls(k - 1).arrivals, Clock(k))
    }

    // Some reply to the source was known when the wait began, or heard since.
    ghost predicate Told(k: nat, source: Id, reply: Id) {
      IsReply(replies, Heard(k), source, reply)
    }

    // Two replies to one source, or a reply nobody asked for.
    ghost predicate Wrong(k: nat) {
      || (exists s, r, r' :: Told(k, s, r) && Told(k, s, r') && r != r')
      || (exists s, r :: Told(k, s, r) && s !in scope.expected && s !in scope.relays)
    }

    ghost predicate AllAnswered(k: nat) {
      forall s :: s in scope.expected ==> exists r :: Told(k, s, r)
    }

    function LastHeard(k: nat): int {
      if Heard(k) == [] then lastResponse else Heard(k)[|Heard(k)| - 1].at
    }

    // The last time an expected source got its first reply; the beginning if none did.
    ghost predicate ProgressAt(k: nat, at: int) {
      IsLastFirst(scope, replies, now, Heard(k), at)
    }

    ghost predicate SilentFor(k: nat, time: int) {
      exists at :: ProgressAt(k, at) && Clock(k) - at >= time
    }

    // The polls at which the windows began: a window is extended at the first poll after its
    // budget, for progress made within it, and at most three times.
    ghost predicate Windows(b: Budget, k: nat, starts: seq<nat>) {
      && 1 <= |starts| <= MAX_BUDGET_EXTENSIONS + 1 && starts[0] == 0 && starts[|starts| - 1] <= k
      && forall i, j :: 0 <= i < j < |starts| && j == i + 1 ==> Extended(b, starts[i], starts[j])
    }

    ghost predicate Extended(b: Budget, start: nat, next: nat) {
      && start < next && Clock(next) >= Clock(start) + b.Limit() && Progressed(start, next)
      && forall j :: start < j < next ==> Clock(j) < Clock(start) + b.Limit()
    }

    ghost predicate Progressed(start: nat, k: nat) {
      exists at :: ProgressAt(k, at) && at > Clock(start)
    }
  }

  // Whatever the polls bring, a wait takes at most four budgets, one stall and five polls, and is
  // over after as many polls as it has milliseconds.
  lemma WaitsEnd(b: Budget, t: Trial)
    requires t.Valid()
    ensures t.Result(b).s.now - t.now <= Longest(b, t.longest)
    ensures t.n > Longest(b, t.longest) ==> !t.Result(b).Waiting?
  {
    var o := t.Result(b);
    StartIsSound(t.scope, b, t.longest, t.replies, t.lastResponse, t.now);
    RunKeepsStart(t.scope, b, t.Began(b), t.polls, t.n);
    if o.Waiting? {
      RunIsSound(t.scope, b, t.longest, t.Began(b), t.polls, t.n);
      LimitIsBounded(b, t.longest, o.s, Outstanding(t.scope, o.s.tally.replies));
    } else {
      var m := LastPoll(t.scope, b, t.Began(b), t.polls, t.n);
      var last := Run(t.scope, b, t.Began(b), t.polls, m).s;
      RunKeepsStart(t.scope, b, t.Began(b), t.polls, m);
      RunIsSound(t.scope, b, t.longest, t.Began(b), t.polls, m);
      StepIsSound(t.scope, b, t.longest, last, t.polls(m));
      LimitIsBounded(b, t.longest, last, Outstanding(t.scope, last.tally.replies));
    }
  }

  // What a timeout reports. Only the last branch of the loop times out before the stall, and it
  // calls the runtime wedged when the current window saw no reply at all.
  ghost predicate Explained(scope: Scope, b: Budget, o: Outcome)
    requires o.TimedOut?
  {
    var s := o.s;
    && Outstanding(scope, s.tally.replies) != {}
    && o.silent == s.now - s.tally.lastProgress
    && Drained(s, Outstanding(scope, s.tally.replies))
    && (o.silent >= b.Stall() ==> o.wedged)
    && (o.silent < b.Stall() ==>
          s.now >= s.deadline && (o.wedged <==> s.tally.lastProgress <= s.windowStarted)
          && (!o.wedged ==> s.extensions == MAX_BUDGET_EXTENSIONS))
    && (o.wedged && b.Limit() >= b.Stall() ==> o.silent >= b.Stall())
  }

  lemma TimeoutsAreExplained(b: Budget, t: Trial)
    requires t.Valid() && t.Result(b).TimedOut?
    ensures Explained(t.scope, b, t.Result(b))
  {
    StartIsSound(t.scope, b, t.longest, t.replies, t.lastResponse, t.now);
    var m := LastPoll(t.scope, b, t.Began(b), t.polls, t.n);
    RunIsSound(t.scope, b, t.longest, t.Began(b), t.polls, m);
    StepExplains(t.scope, b, t.longest, Run(t.scope, b, t.Began(b), t.polls, m).s, t.polls(m));
  }

  lemma StepExplains(scope: Scope, b: Budget, longest: nat, w: State, p: Poll)
    requires Sound(scope, b, longest, w) && Timely(p, longest)
    ensures Step(scope, b, w, p).TimedOut? ==> Explained(scope, b, Step(scope, b, w, p))
  {
    var s := Polled(scope, w, p);
    if Step(scope, b, w, p).TimedOut? {
      PollFollows(scope, w, p, longest);
      ConcludeDrains(
        b, longest, w, s, Outstanding(scope, w.tally.replies), Outstanding(scope, s.tally.replies));
    }
  }

  // ----- What each outcome means -----

  // The oracle's tally is what was heard.
  ghost predicate Tallied(
    scope: Scope, replies: map<Id, set<Id>>, lastResponse: int, began: int, heard: seq<Hearing>, t: Tally)
  {
    && (forall s, r :: r in RepliesTo(t.replies, s) <==> IsReply(replies, heard, s, r))
    && t.lastResponse == (if heard == [] then lastResponse else heard[|heard| - 1].at)
    && IsLastFirst(scope, replies, began, heard, t.lastProgress)
  }

  lemma HeardSnoc(scope: Scope, replies: map<Id, set<Id>>, heard: seq<Hearing>, h: Hearing)
    ensures forall i :: 0 <= i < |heard| ==>
              (IsFirst(scope, replies, heard + [h], i) <==> IsFirst(scope, replies, heard, i))
    ensures forall s, r ::
              IsReply(replies, heard + [h], s, r) <==>
                IsReply(replies, heard, s, r) || (s == h.source && r == h.reply)
    ensures IsFirst(scope, replies, heard + [h], |heard|) <==>
              h.source in scope.expected && forall r :: !IsReply(replies, heard, h.source, r)
  {
    var all := heard + [h];
    assert all[|heard|] == h && forall i :: 0 <= i < |heard| ==> all[i] == heard[i];
    if forall r :: !IsReply(replies, heard, h.source, r) {
      forall j | 0 <= j < |heard| ensures heard[j].source != h.source {
        assert !IsReply(replies, heard, h.source, heard[j].reply);
      }
      assert h.source in replies ==> forall r :: r in replies[h.source] ==> IsReply(replies, heard, h.source, r);
    }
  }

  lemma LastFirstSnoc(scope: Scope, replies: map<Id, set<Id>>, began: int, heard: seq<Hearing>, h: Hearing, at: int)
    requires IsLastFirst(scope, replies, began, heard, at)
    ensures IsLastFirst(scope, replies, began, heard + [h],
                        if IsFirst(scope, replies, heard + [h], |heard|) then h.at else at)
  {
    var all := heard + [h];
    HeardSnoc(scope, replies, heard, h);
    assert all[|heard|] == h && forall i :: 0 <= i < |heard| ==> all[i] == heard[i];
    if i :| 0 <= i < |heard| && IsFirst(scope, replies, heard, i) && heard[i].at == at
            && forall j :: i < j < |heard| ==> !IsFirst(scope, replies, heard, j) {
      assert IsFirst(scope, replies, all, i) && all[i].at == at;
    }
  }

  lemma IngestTallies(
    scope: Scope, replies: map<Id, set<Id>>, lastResponse: int, began: int, heard: seq<Hearing>, t: Tally,
    a: Arrival, now: int, more: seq<Hearing>)
    requires Tallied(scope, replies, lastResponse, began, heard, t)
    requires more == heard + [Hearing(a.source, a.reply, now - a.lag)]
    ensures Tallied(scope, replies, lastResponse, began, more, Ingest(scope, t, a, now))
  {
    var h := Hearing(a.source, a.reply, now - a.lag);
    HeardSnoc(scope, replies, heard, h);
    LastFirstSnoc(scope, replies, began, heard, h, t.lastProgress);
    if RepliesTo(t.replies, a.source) != {} {
      var r :| r in RepliesTo(t.replies, a.source);
      assert IsReply(replies, heard, a.source, r);
    }
  }

  lemma HeardInSnoc(heard: seq<Hearing>, arrivals: seq<Arrival>, now: int)
    requires arrivals != []
    ensures var init, last := arrivals[..|arrivals| - 1], arrivals[|arrivals| - 1];
      heard + HeardIn(arrivals, now) == heard + HeardIn(init, now) + [Hearing(last.source, last.reply, now - last.lag)]
  {
  }

  lemma {:induction false} IngestAllTallies(
    scope: Scope, replies: map<Id, set<Id>>, lastResponse: int, began: int, heard: seq<Hearing>, t: Tally,
    arrivals: seq<Arrival>, now: int)
    requires Tallied(scope, replies, lastResponse, began, heard, t)
    ensures Tallied(scope, replies, lastResponse, began, heard + HeardIn(arrivals, now),
                    IngestAll(scope, t, arrivals, now))
  {
    if arrivals == [] {
      assert heard + HeardIn(arrivals, now) == heard;
    } else {
      var init, last := arrivals[..|arrivals| - 1], arrivals[|arrivals| - 1];
      var before, m := heard + HeardIn(init, now), IngestAll(scope, t, init, now);
      var all := heard + HeardIn(arrivals, now);
      HeardInSnoc(heard, arrivals, now);
      IngestAllTallies(scope, replies, lastResponse, began, heard, t, init, now);
      assert IngestAll(scope, t, arrivals, now) == Ingest(scope, m, last, now);
      IngestTallies(scope, replies, lastResponse, began, before, m, last, now, all);
    }
  }

  lemma LastFirstIsUnique(
    scope: Scope, replies: map<Id, set<Id>>, began: int, heard: seq<Hearing>, at: int, at': int)
    requires IsLastFirst(scope, replies, began, heard, at) && IsLastFirst(scope, replies, began, heard, at')
    ensures at == at'
  {
  }

  lemma AtMostOne(s: set<Id>)
    ensures |s| <= 1 <==> forall r, r' :: r in s && r' in s ==> r == r'
    ensures |s| == 1 ==> exists r :: r in s
  {
    if r :| r in s {
      if r' :| r' in s && r' != r {
        assert {r, r'} <= s;
        assert |s - {r, r'}| == |s| - 2;
      } else {
        assert s == {r};
      }
    }
  }

  lemma ToldIsRight(t: Trial, k: nat, tally: Tally)
    requires Tallied(t.scope, t.replies, t.lastResponse, t.now, t.Heard(k), tally)
    ensures NoWrongReplies(t.scope, tally.replies) <==> !t.Wrong(k)
    ensures !t.Wrong(k) ==> (Outstanding(t.scope, tally.replies) == {} <==> t.AllAnswered(k))
  {
    assert forall s, r :: t.Told(k, s, r) <==> r in RepliesTo(tally.replies, s);
    forall s
      ensures |RepliesTo(tally.replies, s)| <= 1 <==> forall r, r' :: t.Told(k, s, r) && t.Told(k, s, r') ==> r == r'
    {
      AtMostOne(RepliesTo(tally.replies, s));
    }
    if NoWrongReplies(t.scope, tally.replies) {
      forall s, r | t.Told(k, s, r) ensures s in t.scope.expected || s in t.scope.relays {
        assert s in tally.replies && tally.replies[s] != {};
      }
    } else {
      var s :| s in tally.replies
        && !(|tally.replies[s]| <= 1 && (tally.replies[s] != {} ==> s in t.scope.expected || s in t.scope.relays));
      AtMostOne(RepliesTo(tally.replies, s));
      if tally.replies[s] != {} && s !in t.scope.expected && s !in t.scope.relays {
        var r :| r in tally.replies[s];
        assert t.Told(k, s, r);
      }
    }
    if !t.Wrong(k) {
      forall s
        ensures s in Outstanding(t.scope, tally.replies) <==> s in t.scope.expected && !exists r :: t.Told(k, s, r)
      {
        AtMostOne(RepliesTo(tally.replies, s));
      }
      if !t.AllAnswered(k) {
        var s :| s in t.scope.expected && !exists r :: t.Told(k, s, r);
        assert s in Outstanding(t.scope, tally.replies);
      }
    }
  }

  // What the outcome of the k-th poll says about all that was heard. `starts` are the polls at
  // which the windows began; the earlier polls ended nothing.
  ghost predicate Verdict(b: Budget, t: Trial, k: nat, starts: seq<nat>, o: Outcome)
    requires k > 0 && starts != []
  {
    var start := starts[|starts| - 1];
    var live := !t.Wrong(k) && t.polls(k - 1).alive;
    var over := t.Clock(k) >= t.Clock(start) + b.Limit();
    && (o.WrongReply? <==> t.Wrong(k))
    && (o.Dead? <==> !t.Wrong(k) && !t.polls(k - 1).alive)
    && (o.Complete? <==> live && t.AllAnswered(k) && t.Clock(k) - t.LastHeard(k) >= b.settle)
    && (o.NeverQuiet? <==>
          && live && t.AllAnswered(k) && t.Clock(k) - t.LastHeard(k) < b.settle
          && exists j :: 1 <= j <= k && t.AllAnswered(j) && t.Clock(k) - t.Clock(j) >= b.Stall())
    && (o.TimedOut? <==>
          && live && !t.AllAnswered(k)
          && (t.SilentFor(k, b.Stall())
              || (over && !(t.Progressed(start, k) && |starts| <= MAX_BUDGET_EXTENSIONS))))
    && (o.TimedOut? ==>
          && t.ProgressAt(k, t.Clock(k) - o.silent)
          && (o.wedged <==> t.SilentFor(k, b.Stall()) || !t.Progressed(start, k)))
  }

  // The machine's fields, in terms of what was heard.
  ghost predicate Tracks(b: Budget, t: Trial, k: nat, w: State, starts: seq<nat>) {
    && w.now == t.Clock(k) && Tallied(t.scope, t.replies, t.lastResponse, t.now, t.Heard(k), w.tally)
    && t.Windows(b, k, starts) && w.extensions == |starts| - 1
    && w.windowStarted == t.Clock(starts[|starts| - 1]) && w.deadline == w.windowStarted + b.Limit()
    && CompleteSince(t, k, w.completeSince)
    && (w.completeSince.None? ==> forall j :: starts[|starts| - 1] < j <= k ==> t.Clock(j) < w.deadline)
  }

  ghost predicate CompleteSince(t: Trial, k: nat, since: Option<int>) {
    match since
    case None => forall j :: 1 <= j <= k ==> !t.AllAnswered(j)
    case Some(at) => exists j :: FirstComplete(t, k, j) && t.Clock(j) == at
  }

  ghost predicate FirstComplete(t: Trial, k: nat, j: nat) {
    1 <= j <= k && t.AllAnswered(j) && forall i :: 1 <= i < j ==> !t.AllAnswered(i)
  }

  lemma {:induction false} ClockGrows(t: Trial, i: nat, k: nat)
    requires i <= k
    ensures t.Clock(i) <= t.Clock(k)
    decreases k
  {
    if i < k {
      ClockGrows(t, i, k - 1);
    }
  }

  lemma ToldStays(t: Trial, k: nat, s: Id, r: Id)
    requires t.Told(k, s, r)
    ensures t.Told(k + 1, s, r)
  {
    var before, after := t.Heard(k), t.Heard(k + 1);
    if i :| 0 <= i < |before| && before[i].source == s && before[i].reply == r {
      assert after[i] == before[i];
    }
  }

  lemma {:induction false} AnsweredStays(t: Trial, j: nat, k: nat)
    requires j <= k && t.AllAnswered(j)
    ensures t.AllAnswered(k)
    decreases k
  {
    if j < k {
      AnsweredStays(t, j, k - 1);
      forall s | s in t.scope.expected ensures exists r :: t.Told(k, s, r) {
        var r :| t.Told(k - 1, s, r);
        ToldStays(t, k - 1, s, r);
      }
    }
  }

  lemma PollTallies(t: Trial, k: nat, w: State)
    requires w.now == t.Clock(k) && Tallied(t.scope, t.replies, t.lastResponse, t.now, t.Heard(k), w.tally)
    ensures var s := Polled(t.scope, w, t.polls(k));
      && s.now == t.Clock(k + 1)
      && Tallied(t.scope, t.replies, t.lastResponse, t.now, t.Heard(k + 1), s.tally)
  {
    var p, now := t.polls(k), t.Clock(k + 1);
    IngestAllTallies(t.scope, t.replies, t.lastResponse, t.now, t.Heard(k), w.tally, p.arrivals, now);
  }

  // The machine's tests are those of the verdict.
  lemma TestsMean(t: Trial, k: nat, tally: Tally, start: nat, time: int)
    requires Tallied(t.scope, t.replies, t.lastResponse, t.now, t.Heard(k), tally)
    ensures tally.lastResponse == t.LastHeard(k) && t.ProgressAt(k, tally.lastProgress)
    ensures t.SilentFor(k, time) <==> t.Clock(k) - tally.lastProgress >= time
    ensures t.Progressed(start, k) <==> tally.lastProgress > t.Clock(start)
  {
    assert t.ProgressAt(k, tally.lastProgress);
    forall at | t.ProgressAt(k, at) ensures at == tally.lastProgress {
      LastFirstIsUnique(t.scope, t.replies, t.now, t.Heard(k), at, tally.lastProgress);
    }
  }

  lemma SinceMeans(t: Trial, k: nat, since: Option<int>, time: int)
    requires CompleteSince(t, k, since) && t.AllAnswered(k + 1)
    ensures var at := if since.None? then t.Clock(k + 1) else since.value;
      && CompleteSince(t, k + 1, Some(at))
      && (t.Clock(k + 1) - at >= time <==>
           exists j :: 1 <= j <= k + 1 && t.AllAnswered(j) && t.Clock(k + 1) - t.Clock(j) >= time)
  {
    var first: nat;
    if since.None? {
      first := k + 1;
    } else {
      first :| FirstComplete(t, k, first) && t.Clock(first) == since.value;
    }
    assert FirstComplete(t, k + 1, first);
    forall j | 1 <= j <= k + 1 && t.AllAnswered(j) ensures t.Clock(first) <= t.Clock(j) {
      assert first <= j;
      ClockGrows(t, first, j);
    }
  }

  lemma WindowsGoOn(b: Budget, t: Trial, k: nat, starts: seq<nat>)
    requires t.Windows(b, k, starts)
    ensures t.Windows(b, k + 1, starts)
    ensures |starts| <= MAX_BUDGET_EXTENSIONS && Extends(b, t, k + 1, starts) ==> t.Windows(b, k + 1, starts + [k + 1])
  {
    var more := starts + [k + 1];
    assert forall i :: 0 <= i < |starts| ==> more[i] == starts[i];
  }

  ghost predicate Extends(b: Budget, t: Trial, k: nat, starts: seq<nat>)
    requires starts != []
  {
    t.Extended(b, starts[|starts| - 1], k)
  }

  lemma IncompleteMeans(t: Trial, k: nat, since: Option<int>)
    requires CompleteSince(t, k, since) && !t.AllAnswered(k + 1)
    ensures since.None? && CompleteSince(t, k + 1, None)
  {
    if since.Some? {
      var j :| FirstComplete(t, k, j) && t.Clock(j) == since.value;
      AnsweredStays(t, j, k + 1);
    }
  }

  // What the loop concludes from a poll, in terms of what was heard.
  lemma CompleteMeans(b: Budget, t: Trial, k: nat, starts: seq<nat>, s: State)
    requires starts != [] && s.now == t.Clock(k + 1) && s.tally.lastResponse == t.LastHeard(k + 1)
    requires !t.Wrong(k + 1) && t.polls(k).alive && t.AllAnswered(k + 1) && CompleteSince(t, k, s.completeSince)
    ensures Verdict(b, t, k + 1, starts, Conclude(b, s, {}))
  {
    SinceMeans(t, k, s.completeSince, b.Stall());
  }

  lemma OutstandingMeans(b: Budget, t: Trial, k: nat, starts: seq<nat>, s: State, outstanding: set<Id>)
    requires starts != [] && s.now == t.Clock(k + 1) && outstanding != {}
    requires !t.Wrong(k + 1) && t.polls(k).alive && !t.AllAnswered(k + 1)
    requires t.ProgressAt(k + 1, s.tally.lastProgress)
    requires t.SilentFor(k + 1, b.Stall()) <==> s.now - s.tally.lastProgress >= b.Stall()
    requires t.Progressed(starts[|starts| - 1], k + 1) <==> s.tally.lastProgress > s.windowStarted
    requires s.extensions == |starts| - 1 <= MAX_BUDGET_EXTENSIONS
    requires s.deadline == t.Clock(starts[|starts| - 1]) + b.Limit()
    ensures Verdict(b, t, k + 1, starts, Conclude(b, s, outstanding))
  {
  }

  lemma ConclusionMeans(b: Budget, t: Trial, k: nat, w: State, starts: seq<nat>, s: State, outstanding: set<Id>)
    requires Tracks(b, t, k, w, starts) && s == w.(now := t.Clock(k + 1), tally := s.tally)
    requires Tallied(t.scope, t.replies, t.lastResponse, t.now, t.Heard(k + 1), s.tally)
    requires !t.Wrong(k + 1) && t.polls(k).alive && (outstanding == {} <==> t.AllAnswered(k + 1))
    ensures Verdict(b, t, k + 1, starts, Conclude(b, s, outstanding))
  {
    TestsMean(t, k + 1, s.tally, starts[|starts| - 1], b.Stall());
    if t.AllAnswered(k + 1) {
      CompleteMeans(b, t, k, starts, s);
    } else {
      OutstandingMeans(b, t, k, starts, s, outstanding);
    }
  }

  lemma CompleteTracks(b: Budget, t: Trial, k: nat, w: State, starts: seq<nat>, s: State)
    requires Tracks(b, t, k, w, starts) && s == w.(now := t.Clock(k + 1), tally := s.tally)
    requires Tallied(t.scope, t.replies, t.lastResponse, t.now, t.Heard(k + 1), s.tally) && t.AllAnswered(k + 1)
    ensures var o := Conclude(b, s, {});
      o.Waiting? ==> Tracks(b, t, k + 1, o.s, starts)
  {
    WindowsGoOn(b, t, k, starts);
    SinceMeans(t, k, w.completeSince, b.Stall());
  }

  // The window goes on ...
  lemma SameWindowTracks(b: Budget, t: Trial, k: nat, w: State, starts: seq<nat>, s: State, next: State)
    requires Tracks(b, t, k, w, starts) && s == w.(now := t.Clock(k + 1), tally := s.tally)
    requires Tallied(t.scope, t.replies, t.lastResponse, t.now, t.Heard(k + 1), s.tally) && !t.AllAnswered(k + 1)
    requires s.now < s.deadline && next == s.(completeSince := None)
    ensures Tracks(b, t, k + 1, next, starts)
  {
    WindowsGoOn(b, t, k, starts);
    IncompleteMeans(t, k, w.completeSince);
  }

  // ... or the next one starts.
  lemma NextWindowTracks(b: Budget, t: Trial, k: nat, w: State, starts: seq<nat>, s: State, next: State)
    requires Tracks(b, t, k, w, starts) && s == w.(now := t.Clock(k + 1), tally := s.tally)
    requires Tallied(t.scope, t.replies, t.lastResponse, t.now, t.Heard(k + 1), s.tally) && !t.AllAnswered(k + 1)
    requires |starts| <= MAX_BUDGET_EXTENSIONS && Extends(b, t, k + 1, starts)
    requires next == s.(completeSince := None, extensions := s.extensions + 1, windowStarted := s.now,
                        deadline := s.now + b.Limit(), windows := next.windows)
    ensures Tracks(b, t, k + 1, next, starts + [k + 1])
  {
    WindowsGoOn(b, t, k, starts);
    IncompleteMeans(t, k, w.completeSince);
  }

  lemma MadeProgress(t: Trial, k: nat, tally: Tally, start: nat)
    requires Tallied(t.scope, t.replies, t.lastResponse, t.now, t.Heard(k), tally)
    requires tally.lastProgress > t.Clock(start)
    ensures t.Progressed(start, k)
  {
    TestsMean(t, k, tally, start, 0);
  }

  lemma DeadlineExtends(b: Budget, t: Trial, k: nat, w: State, starts: seq<nat>, s: State)
    requires Tracks(b, t, k, w, starts) && s == w.(now := t.Clock(k + 1), tally := s.tally) && !t.AllAnswered(k + 1)
    requires Tallied(t.scope, t.replies, t.lastResponse, t.now, t.Heard(k + 1), s.tally)
    requires s.now >= s.deadline && s.tally.lastProgress > s.windowStarted && s.extensions < MAX_BUDGET_EXTENSIONS
    ensures |starts| <= MAX_BUDGET_EXTENSIONS && Extends(b, t, k + 1, starts)
  {
    MadeProgress(t, k + 1, s.tally, starts[|starts| - 1]);
    IncompleteMeans(t, k, w.completeSince);
  }

  // A loop that goes on with sources outstanding goes on in its window, or starts the next.
  lemma GoingOn(b: Budget, s: State, outstanding: set<Id>)
    requires outstanding != {} && Conclude(b, s, outstanding).Waiting?
    ensures var next := Conclude(b, s, outstanding).s;
      if s.now < s.deadline then next == s.(completeSince := None)
      else
        && s.tally.lastProgress > s.windowStarted && s.extensions < MAX_BUDGET_EXTENSIONS
        && next == s.(completeSince := None, extensions := s.extensions + 1, windowStarted := s.now,
                      deadline := s.now + b.Limit(), windows := next.windows)
  {
  }

  lemma OutstandingTracks(b: Budget, t: Trial, k: nat, w: State, starts: seq<nat>, s: State, outstanding: set<Id>)
    returns (next: seq<nat>)
    requires Tracks(b, t, k, w, starts) && s == w.(now := t.Clock(k + 1), tally := s.tally) && outstanding != {}
    requires Tallied(t.scope, t.replies, t.lastResponse, t.now, t.Heard(k + 1), s.tally) && !t.AllAnswered(k + 1)
    ensures var o := Conclude(b, s, outstanding);
      o.Waiting? ==> Tracks(b, t, k + 1, o.s, next)
  {
    next := starts;
    var o := Conclude(b, s, outstanding);
    if o.Waiting? {
      GoingOn(b, s, outstanding);
      next := if s.now < s.deadline then starts else starts + [k + 1];
      WaitingTracks(b, t, k, w, starts, s, o.s);
    }
  }

  lemma WaitingTracks(b: Budget, t: Trial, k: nat, w: State, starts: seq<nat>, s: State, next: State)
    requires Tracks(b, t, k, w, starts) && s == w.(now := t.Clock(k + 1), tally := s.tally)
    requires Tallied(t.scope, t.replies, t.lastResponse, t.now, t.Heard(k + 1), s.tally) && !t.AllAnswered(k + 1)
    requires if s.now < s.deadline then next == s.(completeSince := None)
      else
        && s.tally.lastProgress > s.windowStarted && s.extensions < MAX_BUDGET_EXTENSIONS
        && next == s.(completeSince := None, extensions := s.extensions + 1, windowStarted := s.now,
                      deadline := s.now + b.Limit(), windows := next.windows)
    ensures Tracks(b, t, k + 1, next, if s.now < s.deadline then starts else starts + [k + 1])
  {
    if s.now < s.deadline {
      SameWindowTracks(b, t, k, w, starts, s, next);
    } else {
      DeadlineExtends(b, t, k, w, starts, s);
      NextWindowTracks(b, t, k, w, starts, s, next);
    }
  }

  lemma StepVerdict(b: Budget, t: Trial, k: nat, w: State, starts: seq<nat>) returns (next: seq<nat>)
    requires Tracks(b, t, k, w, starts)
    ensures var o := Step(t.scope, b, w, t.polls(k));
      Verdict(b, t, k + 1, starts, o) && (o.Waiting? ==> Tracks(b, t, k + 1, o.s, next))
  {
    var s := Polled(t.scope, w, t.polls(k));
    PollTallies(t, k, w);
    ToldIsRight(t, k + 1, s.tally);
    next := starts;
    if !t.Wrong(k + 1) && t.polls(k).alive {
      var outstanding := Outstanding(t.scope, s.tally.replies);
      ConclusionMeans(b, t, k, w, starts, s, outstanding);
      if t.AllAnswered(k + 1) {
        CompleteTracks(b, t, k, w, starts, s);
      } else {
        next := OutstandingTracks(b, t, k, w, starts, s, outstanding);
      }
    }
  }

  ghost predicate Tracked(b: Budget, t: Trial, k: nat, w: State) {
    exists starts :: Tracks(b, t, k, w, starts)
  }

  // What the outcome of the k-th poll says, for the windows there were.
  ghost predicate Means(b: Budget, t: Trial, k: nat, o: Outcome)
    requires k > 0
  {
    exists starts :: t.Windows(b, k - 1, starts) && Verdict(b, t, k, starts, o)
  }

  lemma StepMeans(b: Budget, t: Trial, k: nat, w: State)
    requires Tracked(b, t, k, w)
    ensures var o := Step(t.scope, b, w, t.polls(k));
      Means(b, t, k + 1, o) && (o.Waiting? ==> Tracked(b, t, k + 1, o.s))
  {
    var starts :| Tracks(b, t, k, w, starts);
    var next := StepVerdict(b, t, k, w, starts);
  }

  lemma StartTracks(b: Budget, t: Trial)
    ensures Tracked(b, t, 0, t.Began(b))
  {
    assert Tracks(b, t, 0, t.Began(b), [0]);
  }

  // What every step keeps, every run keeps; what every step then says, the last one says.
  lemma {:induction false} RunKeeps(
    b: Budget, t: Trial, k: nat, keeps: (nat, State) -> bool, says: (nat, Outcome) -> bool)
    requires keeps(0, t.Began(b))
    requires forall i: nat, w :: keeps(i, w) ==>
               var o := Step(t.scope, b, w, t.polls(i));
               says(i + 1, o) && (o.Waiting? ==> keeps(i + 1, o.s))
    ensures t.After(b, k).Waiting? ==> keeps(k, t.After(b, k).s) && says(k + 1, t.After(b, k + 1))
    decreases k
  {
    if k > 0 {
      RunKeeps(b, t, k - 1, keeps, says);
    }
  }

  // For every trial: what the outcome of its last poll says, when the polls before it ended nothing.
  lemma OutcomeMeans(b: Budget, t: Trial)
    requires t.n > 0 && t.After(b, t.n - 1).Waiting?
    ensures Means(b, t, t.n, t.Result(b))
  {
    var keeps := (i: nat, w: State) => Tracked(b, t, i, w);
    var says := (i: nat, o: Outcome) => i > 0 && Means(b, t, i, o);
    StartTracks(b, t);
    forall i: nat, w | keeps(i, w)
      ensures var o := Step(t.scope, b, w, t.polls(i));
        says(i + 1, o) && (o.Waiting? ==> keeps(i + 1, o.s))
    {
      StepMeans(b, t, i, w);
    }
    RunKeeps(b, t, t.n - 1, keeps, says);
  }

  // ----- Wedged, or slow -----

  // No wait reports a wedge that was not silent for the whole stall time.
  ghost predicate WedgesAreSilent(b: Budget) {
    forall t: Trial :: t.Valid() && t.Result(b).TimedOut? && t.Result(b).wedged ==> t.Result(b).silent >= b.Stall()
  }

  // Nothing arrives in the only poll.
  function SilentTrial(elapsed: nat): Trial {
    Trial(Scope({"source"}, {}), map[], 0, 0, elapsed, _ => Poll(elapsed, [], true), 1)
  }

  lemma SilenceTimesOutEarly(b: Budget)
    requires b.Limit() < b.Stall()
    ensures var t := SilentTrial(Max(1, b.Limit()));
      t.Valid() && t.Result(b).TimedOut? && t.Result(b).wedged && t.Result(b).silent < b.Stall()
  {
    var t := SilentTrial(Max(1, b.Limit()));
    var w := t.Began(b);
    var s := Polled(t.scope, w, t.polls(0));
    assert s.tally == w.tally;
    assert "source" in Outstanding(t.scope, map[]);
    assert Run(t.scope, b, w, t.polls, 0) == Waiting(w);
    assert t.Result(b) == Conclude(b, s, Outstanding(t.scope, map[]));
  }

  // The guarantee holds exactly for budgets no shorter than the stall time.
  lemma WedgesAreSilentIff(b: Budget)
    ensures WedgesAreSilent(b) <==> b.Limit() >= b.Stall()
  {
    if b.Limit() >= b.Stall() {
      forall t: Trial | t.Valid() && t.Result(b).TimedOut? && t.Result(b).wedged
        ensures t.Result(b).silent >= b.Stall()
      {
        TimeoutsAreExplained(b, t);
      }
    } else {
      SilenceTimesOutEarly(b);
    }
  }

  // Two turns are always enough; one turn is when the floor or the settle time makes up for it.
  lemma LimitCoversStall(b: Budget)
    ensures b.turns >= 2 ==> b.Limit() >= b.Stall()
    ensures b.turns == 1 ==> (b.Limit() >= b.Stall() <==> b.floor + b.settle >= 4 * b.perTurn || b.settle >= b.perTurn)
  {
    if b.turns >= 2 {
      assert b.turns * b.perTurn >= 2 * b.perTurn;
    }
  }

  // ----- The oracle -----

  class ExactReplyOracle {
    const scope: Scope
    var replies: map<Id, set<Id>>
    var lastResponseAt: int
    var lastProgressAt: int

    constructor (scope: Scope, now: int)
      ensures this.scope == scope && replies == map[] && lastResponseAt == lastProgressAt == now
    {
      this.scope, replies, lastResponseAt, lastProgressAt := scope, map[], now, now;
    }

    ghost function Known(): Tally
      reads this
    {
      Tally(replies, lastResponseAt, lastProgressAt)
    }

    // _ingest_agent_message, for a threaded reply
    method IngestAgentMessage(a: Arrival, now: int)
      modifies this
      ensures Known() == Ingest(scope, old(Known()), a, now)
    {
      var first := RepliesTo(replies, a.source) == {};
      replies := replies[a.source := RepliesTo(replies, a.source) + {a.reply}];
      lastResponseAt := now - a.lag;
      if first && a.source in scope.expected {
        lastProgressAt := lastResponseAt;
      }
    }

    method SyncOnce(p: Poll, now: int)
      modifies this
      ensures Known() == IngestAll(scope, old(Known()), p.arrivals, now)
    {
      for i := 0 to |p.arrivals|
        invariant Known() == IngestAll(scope, old(Known()), p.arrivals[..i], now)
      {
        assert p.arrivals[..i + 1][..i] == p.arrivals[..i];
        IngestAgentMessage(p.arrivals[i], now);
      }
      assert p.arrivals[..|p.arrivals|] == p.arrivals;
    }

    // _wait_with_budget
    method WaitWithBudget(b: Budget, polls: nat -> Poll, begin: int, ghost longest: nat)
      returns (outcome: Outcome, ghost n: nat)
      requires lastResponseAt <= begin && forall i :: Timely(polls(i), longest)
      modifies this
      ensures !outcome.Waiting? && outcome.s.now - begin <= Longest(b, longest)
      ensures outcome == Trial(scope, old(replies), old(lastResponseAt), begin, longest, polls, n).Result(b)
      ensures outcome.s.tally == Known()
      ensures var t := Trial(scope, old(replies), old(lastResponseAt), begin, longest, polls, n);
        n > 0 && Means(b, t, n, outcome)
    {
      lastProgressAt := begin;
      var w := Start(scope, b, replies, lastResponseAt, begin);
      outcome, n := Waiting(w), 0;
      var i := 0;
      while outcome.Waiting?
        invariant i == n && outcome.s.tally == Known()
        invariant outcome == Trial(scope, old(replies), old(lastResponseAt), begin, longest, polls, n).Result(b)
        invariant n == 0 ==> outcome.Waiting?
        invariant n > 0 ==>
                    Trial(scope, old(replies), old(lastResponseAt), begin, longest, polls, n).After(b, n - 1).Waiting?
        decreases outcome.Waiting?, Longest(b, longest) + 1 - n
      {
        WaitsEnd(b, Trial(scope, old(replies), old(lastResponseAt), begin, longest, polls, n));
        outcome := Round(b, outcome.s, polls(i));
        i, n := i + 1, n + 1;
      }
      ghost var t := Trial(scope, old(replies), old(lastResponseAt), begin, longest, polls, n);
      WaitsEnd(b, t);
      OutcomeMeans(b, t);
    }

    // One round of its loop.
    method Round(b: Budget, w: State, p: Poll) returns (outcome: Outcome)
      requires w.tally == Known()
      modifies this
      ensures outcome == Step(scope, b, w, p) && outcome.s.tally == Known()
    {
      var now := w.now + p.elapsed;
      SyncOnce(p, now);
      var s := w.(now := now, tally := Tally(replies, lastResponseAt, lastProgressAt));
      assert s == Polled(scope, w, p);
      if !NoWrongReplies(scope, replies) {
        return WrongReply(s);
      }
      if !p.alive {
        return Dead(s);
      }
      outcome := Judge(b, s, Outstanding(scope, replies));
    }
  }

  // What the loop does with a poll that brought no wrong reply.
  method Judge(b: Budget, polled: State, outstanding: set<Id>) returns (outcome: Outcome)
    ensures outcome == Conclude(b, polled, outstanding)
  {
    var s := polled;
    if outstanding == {} {
      if s.now - s.tally.lastResponse >= b.settle {
        return Complete(s);
      }
      var since := if s.completeSince.None? then s.now else s.completeSince.value;
      s := s.(completeSince := Some(since));
      if s.now - since < b.Stall() {
        return Waiting(s);
      }
      return NeverQuiet(s);
    }
    s := s.(completeSince := None);
    var silent := s.now - s.tally.lastProgress;
    if silent >= b.Stall() {
      return TimedOut(s, silent, true);
    }
    if s.now < s.deadline {
      return Waiting(s);
    }
    var drained := s.tally.lastProgress > s.windowStarted;
    if drained && s.extensions < MAX_BUDGET_EXTENSIONS {
      s := s.(extensions := s.extensions + 1, windowStarted := s.now, windows := s.windows + [outstanding]);
      return Waiting(s.(deadline := s.now + b.Limit()));
    }
    return TimedOut(s, silent, !drained);
  }
}

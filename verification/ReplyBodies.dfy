// The body of a reply while its edits stream in: kept up to date message by message, against the
// newest replacement among all messages at the end.
module ReplyBodies {

  import opened Options
  import opened Sorting

  type Id = string

  datatype Kind = Plain | Edit(target: Option<Id>)

  // `body` is the text of the message, or of the new content if it is an edit; `ours` marks room
  // messages by the agent.
  datatype Message = Message(id: Id, ours: bool, room: Id, time: int, kind: Kind, body: Option<string>)

  // ----- The order of replacements -----

  datatype Order = Order(isEdit: bool, stamp: Stamp)

  predicate Below(a: Order, b: Order) {
    (!a.isEdit && b.isEdit) || (a.isEdit == b.isEdit && Earlier(a.stamp, b.stamp))
  }

  // _replacement_order
  function OrderOf(m: Message): Order {
    Order(m.kind.Edit?, Stamp(m.time, m.id))
  }

  lemma BelowIsTotal(a: Order, b: Order)
    ensures Below(a, b) || Below(b, a) || a == b
    ensures !(Below(a, b) && Below(b, a))
    ensures !Below(a, a)
  {
    EarlierIsTotal(a.stamp, b.stamp);
    EarlierIsTotal(a.stamp, a.stamp);
  }

  lemma BelowIsTransitive(a: Order, b: Order, c: Order)
    requires Below(a, b) && Below(b, c)
    ensures Below(a, c)
  {
    if a.isEdit == b.isEdit == c.isEdit {
      EarlierIsTransitive(a.stamp, b.stamp, c.stamp);
    }
  }

  // ----- Message by message -----

  type Latest = map<Id, (Order, string)>

  // The reply a message belongs to.
  function ReplyOf(m: Message): Option<Id> {
    match m.kind
    case Plain => Some(m.id)
    case Edit(target) => target
  }

  // Whether _track_reply_body counts the message as activity of a reply.
  predicate Counts(latest: Latest, m: Message) {
    && m.ours && m.body.Some? && ReplyOf(m).Some?
    && (m.kind.Edit? ==> ReplyOf(m).value in latest)
  }

  // _track_reply_body
  function Track(latest: Latest, m: Message): Latest {
    if !Counts(latest, m) then latest
    else
      var reply := ReplyOf(m).value;
      if reply in latest && Below(OrderOf(m), latest[reply].0) then latest
      else latest[reply := (OrderOf(m), m.body.value)]
  }

  function Fold(messages: seq<Message>): Latest {
    if messages == [] then map[]
    else Track(Fold(messages[..|messages| - 1]), messages[|messages| - 1])
  }

  // ----- What has been accepted -----

  ghost predicate UniqueIds(messages: seq<Message>) {
    forall i, j :: 0 <= i < j < |messages| ==> messages[i].id != messages[j].id
  }

  // The original of a reply, with a text.
  predicate IsOriginal(m: Message, reply: Id) {
    m.ours && m.kind.Plain? && m.id == reply && m.body.Some?
  }

  predicate IsEditOf(m: Message, reply: Id) {
    m.ours && m.kind == Edit(Some(reply)) && m.body.Some?
  }

  ghost predicate Started(messages: seq<Message>, reply: Id) {
    exists m :: m in messages && IsOriginal(m, reply)
  }

  // The original, or an edit that arrived after it.
  ghost predicate Accepted(messages: seq<Message>, reply: Id, i: nat)
    requires i < |messages|
  {
    IsOriginal(messages[i], reply) || (IsEditOf(messages[i], reply) && Started(messages[..i], reply))
  }

  // The newest accepted message of the reply is at i.
  ghost predicate IsLatest(messages: seq<Message>, reply: Id, i: nat)
    requires i < |messages|
  {
    && Accepted(messages, reply, i)
    && forall j :: 0 <= j < |messages| && j != i && Accepted(messages, reply, j) ==>
      Below(OrderOf(messages[j]), OrderOf(messages[i]))
  }

  // The entry of a reply is that of its newest accepted message.
  ghost predicate Holds(messages: seq<Message>, reply: Id, entry: Option<(Order, string)>) {
    match entry
    case None => !Started(messages, reply)
    case Some((order, body)) =>
      exists i :: 0 <= i < |messages| && IsLatest(messages, reply, i)
        && order == OrderOf(messages[i]) && messages[i].body == Some(body)
  }

  function Entry(latest: Latest, reply: Id): Option<(Order, string)> {
    if reply in latest then Some(latest[reply]) else None
  }

  lemma StartedSnoc(messages: seq<Message>, m: Message, reply: Id)
    ensures Started(messages + [m], reply) <==> Started(messages, reply) || IsOriginal(m, reply)
    ensures forall i :: 0 <= i < |messages| ==>
      (Accepted(messages + [m], reply, i) <==> Accepted(messages, reply, i))
    ensures Accepted(messages + [m], reply, |messages|) <==>
      IsOriginal(m, reply) || (IsEditOf(m, reply) && Started(messages, reply))
  {
    var more := messages + [m];
    assert forall x :: x in more <==> x in messages || x == m;
    assert forall i :: 0 <= i <= |messages| ==> more[..i] == messages[..i];
    assert messages[..|messages|] == messages;
  }

  lemma TrackHolds(messages: seq<Message>, m: Message, latest: Latest, reply: Id)
    requires UniqueIds(messages + [m]) && Holds(messages, reply, Entry(latest, reply))
    ensures Holds(messages + [m], reply, Entry(Track(latest, m), reply))
  {
    var more := messages + [m];
    StartedSnoc(messages, m, reply);
    if reply !in latest {
      NothingAccepted(messages, reply);
      if IsOriginal(m, reply) {
        assert IsLatest(more, reply, |messages|);
      }
    } else {
      var i :| 0 <= i < |messages| && IsLatest(messages, reply, i)
        && latest[reply].0 == OrderOf(messages[i]) && messages[i].body == Some(latest[reply].1);
      assert OrderOf(m).stamp.id != OrderOf(messages[i]).stamp.id by {
        assert more[i] == messages[i] && more[|messages|] == m;
      }
      BelowIsTotal(OrderOf(m), OrderOf(messages[i]));
      if !Accepted(more, reply, |messages|) || Below(OrderOf(m), OrderOf(messages[i])) {
        assert IsLatest(more, reply, i);
      } else {
        NewerWins(messages, m, reply, i);
      }
    }
  }

  lemma NothingAccepted(messages: seq<Message>, reply: Id)
    requires !Started(messages, reply)
    ensures forall j :: 0 <= j < |messages| ==> !Accepted(messages, reply, j)
  {
    forall j | 0 <= j < |messages| ensures !Accepted(messages, reply, j) {
      assert messages[j] in messages && forall x :: x in messages[..j] ==> x in messages;
    }
  }

  lemma NewerWins(messages: seq<Message>, m: Message, reply: Id, i: nat)
    requires i < |messages| && IsLatest(messages, reply, i)
    requires Accepted(messages + [m], reply, |messages|) && Below(OrderOf(messages[i]), OrderOf(m))
    ensures IsLatest(messages + [m], reply, |messages|)
  {
    var more := messages + [m];
    StartedSnoc(messages, m, reply);
    forall j | 0 <= j < |messages| && Accepted(more, reply, j) ensures Below(OrderOf(more[j]), OrderOf(m)) {
      if j != i {
        BelowIsTransitive(OrderOf(messages[j]), OrderOf(messages[i]), OrderOf(m));
      }
    }
  }

  lemma {:induction false} FoldHolds(messages: seq<Message>, reply: Id)
    requires UniqueIds(messages)
    ensures Holds(messages, reply, Entry(Fold(messages), reply))
  {
    if messages != [] {
      var init, last := messages[..|messages| - 1], messages[|messages| - 1];
      FoldHolds(init, reply);
      assert messages == init + [last];
      TrackHolds(init, last, Fold(init), reply);
    }
  }

  // ----- All messages at once -----

  predicate Candidate(room: Id, reply: Id, m: Message) {
    m.room == room && (IsOriginal(m, reply) || IsEditOf(m, reply))
  }

  // Event replacements of the Matrix Client-Server API: the newest edit, or else the original.
  ghost predicate IsNewest(messages: seq<Message>, room: Id, reply: Id, k: nat)
    requires k < |messages|
  {
    && Candidate(room, reply, messages[k])
    && forall j :: 0 <= j < |messages| && j != k && Candidate(room, reply, messages[j]) ==>
      Below(OrderOf(messages[j]), OrderOf(messages[k]))
  }

  // _canonical_response_view, for its body
  method CanonicalResponse(messages: seq<Message>, room: Id, reply: Id) returns (newest: Option<nat>)
    requires UniqueIds(messages)
    ensures newest.None? ==> forall m :: m in messages ==> !Candidate(room, reply, m)
    ensures newest.Some? ==> newest.value < |messages| && IsNewest(messages, room, reply, newest.value)
    ensures IsView(messages, room, reply, newest)
  {
    newest := None;
    for i := 0 to |messages|
      invariant newest.None? ==> forall j :: 0 <= j < i ==> !Candidate(room, reply, messages[j])
      invariant newest.Some? ==> newest.value < i && Candidate(room, reply, messages[newest.value])
      invariant newest.Some? ==> forall j :: 0 <= j < i && j != newest.value && Candidate(room, reply, messages[j]) ==>
        Below(OrderOf(messages[j]), OrderOf(messages[newest.value]))
    {
      if Candidate(room, reply, messages[i]) {
        if newest.None? {
          newest := Some(i);
        } else {
          var k := newest.value;
          BelowIsTotal(OrderOf(messages[i]), OrderOf(messages[k]));
          if Below(OrderOf(messages[k]), OrderOf(messages[i])) {
            forall j | 0 <= j < i && Candidate(room, reply, messages[j])
              ensures Below(OrderOf(messages[j]), OrderOf(messages[i]))
            {
              if j != k {
                BelowIsTransitive(OrderOf(messages[j]), OrderOf(messages[k]), OrderOf(messages[i]));
              }
            }
            newest := Some(i);
          }
        }
      }
    }
  }

  // The view is the newest message of the room that is the original or an edit of it, if there is one.
  ghost predicate IsView(messages: seq<Message>, room: Id, reply: Id, newest: Option<nat>) {
    var there := set i | 0 <= i < |messages| && messages[i].room == room
                         && (Original(messages[i], reply) || Edits(messages[i], reply));
    match newest
    case None => there == {}
    case Some(k) => k in there && forall j :: j in there && j != k ==> Newer(messages[k], messages[j])
  }

  // The entry kept for a reply is that of message k.
  predicate IsEntryOf(latest: Latest, reply: Id, m: Message) {
    m.body.Some? && Entry(latest, reply) == Some((OrderOf(m), m.body.value))
  }

  lemma LatestIsUnique(messages: seq<Message>, reply: Id, i: nat, k: nat)
    requires UniqueIds(messages) && i < |messages| && k < |messages| && IsLatest(messages, reply, i)
    ensures IsEntryOf(Fold(messages), reply, messages[k]) <==> k == i
  {
    FoldHolds(messages, reply);
    assert messages[i].body.Some?;
    assert Started(messages, reply) by {
      if IsOriginal(messages[i], reply) {
        assert messages[i] in messages;
      } else {
        assert forall x :: x in messages[..i] ==> x in messages;
      }
    }
    var n :| 0 <= n < |messages| && IsLatest(messages, reply, n)
      && Fold(messages)[reply].0 == OrderOf(messages[n]) && messages[n].body == Some(Fold(messages)[reply].1);
    BelowIsTotal(OrderOf(messages[i]), OrderOf(messages[n]));
    assert OrderOf(messages[k]).stamp.id == messages[k].id;
  }

  // The running body is the canonical one exactly when the newest replacement was accepted, and
  // no accepted edit from another room is newer.
  lemma BodiesAgreeIff(messages: seq<Message>, room: Id, reply: Id, k: nat)
    requires UniqueIds(messages) && k < |messages| && IsNewest(messages, room, reply, k)
    ensures IsEntryOf(Fold(messages), reply, messages[k]) <==>
      && Accepted(messages, reply, k)
      && forall j :: 0 <= j < |messages| && Accepted(messages, reply, j) && messages[j].room != room ==>
        Below(OrderOf(messages[j]), OrderOf(messages[k]))
  {
    FoldHolds(messages, reply);
    if Started(messages, reply) {
      var i :| 0 <= i < |messages| && IsLatest(messages, reply, i);
      LatestIsUnique(messages, reply, i, k);
      BelowIsTotal(OrderOf(messages[i]), OrderOf(messages[k]));
      if k != i && Accepted(messages, reply, k) {
        assert Below(OrderOf(messages[k]), OrderOf(messages[i]));
      }
      if k == i {
      } else if messages[i].room == room {
        assert Candidate(room, reply, messages[i]);
      }
    } else {
      NothingAccepted(messages, reply);
    }
  }

  // Every edit of the reply arrives after its original.
  ghost predicate OriginalFirst(messages: seq<Message>, reply: Id) {
    forall i :: 0 <= i < |messages| && IsEditOf(messages[i], reply) ==> Started(messages[..i], reply)
  }

  lemma BodiesAgree(messages: seq<Message>, room: Id, reply: Id, k: nat)
    requires UniqueIds(messages) && k < |messages| && IsNewest(messages, room, reply, k)
    requires OriginalFirst(messages, reply)
    requires forall m :: m in messages && IsEditOf(m, reply) ==> m.room == room
    requires forall m :: m in messages && IsOriginal(m, reply) ==> m.room == room
    ensures IsEntryOf(Fold(messages), reply, messages[k])
  {
    BodiesAgreeIff(messages, room, reply, k);
    forall j | 0 <= j < |messages| && Accepted(messages, reply, j) ensures messages[j].room == room {
      assert messages[j] in messages;
    }
  }

  // The order in which edits arrive makes no difference.
  lemma ArrivalOrderIsIrrelevant(a: seq<Message>, b: seq<Message>, reply: Id)
    requires UniqueIds(a) && UniqueIds(b) && forall m :: m in a <==> m in b
    requires OriginalFirst(a, reply) && OriginalFirst(b, reply)
    ensures Entry(Fold(a), reply) == Entry(Fold(b), reply)
  {
    FoldHolds(a, reply);
    FoldHolds(b, reply);
    StartedInBoth(a, b, reply);
    if Started(a, reply) {
      var i :| 0 <= i < |a| && IsLatest(a, reply, i)
        && Fold(a)[reply].0 == OrderOf(a[i]) && a[i].body == Some(Fold(a)[reply].1);
      var j :| 0 <= j < |b| && IsLatest(b, reply, j)
        && Fold(b)[reply].0 == OrderOf(b[j]) && b[j].body == Some(Fold(b)[reply].1);
      assert a[i] in b && b[j] in a;
      var i' :| 0 <= i' < |b| && b[i'] == a[i];
      var j' :| 0 <= j' < |a| && a[j'] == b[j];
      assert Accepted(b, reply, i') && Accepted(a, reply, j');
      BelowIsTotal(OrderOf(a[i]), OrderOf(b[j]));
    }
  }

  lemma StartedInBoth(a: seq<Message>, b: seq<Message>, reply: Id)
    requires forall m :: m in a <==> m in b
    ensures Started(a, reply) <==> Started(b, reply)
  {
    assert forall m :: m in a && IsOriginal(m, reply) ==> m in b;
    assert forall m :: m in b && IsOriginal(m, reply) ==> m in a;
  }

  // An edit that arrives before its original is lost to the running body.
  lemma EarlyEditsAreLost()
    ensures var original := Message("r", true, "room", 1, Plain, Some("partial"));
      var edit := Message("e", true, "room", 2, Edit(Some("r")), Some("done"));
      && IsNewest([edit, original], "room", "r", 0)
      && IsEntryOf(Fold([edit, original]), "r", original)
  {
    var original := Message("r", true, "room", 1, Plain, Some("partial"));
    var edit := Message("e", true, "room", 2, Edit(Some("r")), Some("done"));
    assert [edit, original][..1] == [edit] && [edit][..0] == [];
    assert Fold([edit]) == map[];
  }

  // ----- The oracle's state -----

  // An event, with the replacements the server bundled into it.
  datatype Event = Event(message: Message, bundled: seq<Event>)

  function Ids(messages: seq<Message>): set<Id> {
    set m | m in messages :: m.id
  }

  // The messages so far, the event's own if its id is new, and then whatever is new among the
  // events bundled into a message of the agent.
  function WithEvent(messages: seq<Message>, e: Event): seq<Message>
    decreases e, |e.bundled| + 1
  {
    if e.message.id in Ids(messages) then messages
    else if e.message.ours then WithBundled(messages + [e.message], e, |e.bundled|)
    else messages + [e.message]
  }

  function WithBundled(messages: seq<Message>, e: Event, n: nat): seq<Message>
    requires n <= |e.bundled|
    decreases e, n
  {
    if n == 0 then messages else WithEvent(WithBundled(messages, e, n - 1), e.bundled[n - 1])
  }

  // Nothing that was taken in is lost, and the event's own id is known afterwards.
  lemma {:induction false} EventIsTaken(messages: seq<Message>, e: Event)
    ensures messages <= WithEvent(messages, e) && e.message.id in Ids(WithEvent(messages, e))
    decreases e, |e.bundled| + 1
  {
    if e.message.id !in Ids(messages) {
      var more := messages + [e.message];
      assert e.message in more;
      if e.message.ours {
        BundledIsTaken(more, e, |e.bundled|);
        var all := WithBundled(more, e, |e.bundled|);
        assert all[|messages|] == e.message && all[|messages|] in all;
      }
    }
  }

  lemma {:induction false} BundledIsTaken(messages: seq<Message>, e: Event, n: nat)
    requires n <= |e.bundled|
    ensures messages <= WithBundled(messages, e, n)
    ensures forall i :: 0 <= i < n ==> e.bundled[i].message.id in Ids(WithBundled(messages, e, n))
    decreases e, n
  {
    if n > 0 {
      BundledIsTaken(messages, e, n - 1);
      EventIsTaken(WithBundled(messages, e, n - 1), e.bundled[n - 1]);
      var before, after := WithBundled(messages, e, n - 1), WithBundled(messages, e, n);
      assert forall m :: m in before ==> m in after by {
        assert forall k :: 0 <= k < |before| ==> before[k] == after[k];
      }
    }
  }

  // What the tracker knows after taking the messages in.
  ghost predicate Knows(taken: seq<Message>, seen: set<Id>, latest: Latest) {
    UniqueIds(taken) && seen == Ids(taken) && latest == Fold(taken)
  }

  lemma KnowsMore(taken: seq<Message>, seen: set<Id>, latest: Latest, m: Message)
    requires Knows(taken, seen, latest) && m.id !in seen
    ensures Knows(taken + [m], seen + {m.id}, Track(latest, m))
  {
    IdsSnoc(taken, m);
    assert (taken + [m])[..|taken|] == taken;
  }

  lemma IdsSnoc(taken: seq<Message>, m: Message)
    requires UniqueIds(taken) && m.id !in Ids(taken)
    ensures UniqueIds(taken + [m]) && Ids(taken + [m]) == Ids(taken) + {m.id}
  {
    assert forall x :: x in taken + [m] <==> x in taken || x == m;
    assert forall i :: 0 <= i < |taken| ==> taken[i] in taken && taken[i].id in Ids(taken);
  }

  // ----- What is taken in, and what is shown -----

  // The event, or one bundled into it, to any depth.
  ghost predicate Nested(e: Event, x: Event)
    decreases e
  {
    x == e || exists i :: 0 <= i < |e.bundled| && Nested(e.bundled[i], x)
  }

  // The message comes from the event; if it is the agent's, whatever was bundled into it is known too.
  ghost predicate TakenFrom(messages: seq<Message>, e: Event, m: Message) {
    exists x :: Nested(e, x) && x.message == m
      && (m.ours ==> forall i :: 0 <= i < |x.bundled| ==> x.bundled[i].message.id in Ids(messages))
  }

  // The messages grew by what comes from the event; the event's own message is first, if it is new.
  ghost predicate Takes(before: seq<Message>, after: seq<Message>, e: Event) {
    && before <= after && e.message.id in Ids(after)
    && (e.message.id !in Ids(before) ==> |before| < |after| && after[|before|] == e.message)
    && (e.message.id in Ids(before) ==> after == before)
    && forall k :: |before| <= k < |after| ==> TakenFrom(after, e, after[k])
  }

  lemma {:induction false} EventTakes(messages: seq<Message>, e: Event)
    ensures Takes(messages, WithEvent(messages, e), e)
    decreases e, |e.bundled| + 1
  {
    EventIsTaken(messages, e);
    var after := WithEvent(messages, e);
    if e.message.id !in Ids(messages) {
      var more := messages + [e.message];
      if e.message.ours {
        BundledTakes(more, e, |e.bundled|);
        BundledIsTaken(more, e, |e.bundled|);
      }
      assert Nested(e, e);
      forall k | |messages| <= k < |after| ensures TakenFrom(after, e, after[k]) {
        assert k == |messages| ==> after[k] == e.message;
      }
    }
  }

  lemma {:induction false} BundledTakes(messages: seq<Message>, e: Event, n: nat)
    requires n <= |e.bundled|
    ensures var after := WithBundled(messages, e, n);
      messages <= after && forall k :: |messages| <= k < |after| ==> TakenFrom(after, e, after[k])
    decreases e, n
  {
    if n > 0 {
      var before, x := WithBundled(messages, e, n - 1), e.bundled[n - 1];
      var after := WithEvent(before, x);
      BundledTakes(messages, e, n - 1);
      EventTakes(before, x);
      forall k | |messages| <= k < |after| ensures TakenFrom(after, e, after[k]) {
        if k < |before| {
          assert TakenFrom(before, e, before[k]);
          TakenStays(before, after, e, after[k]);
        } else {
          TakenDeeper(after, e, n - 1, after[k]);
        }
      }
    }
  }

  lemma TakenStays(before: seq<Message>, after: seq<Message>, e: Event, m: Message)
    requires before <= after && TakenFrom(before, e, m)
    ensures TakenFrom(after, e, m)
  {
    assert forall x :: x in before ==> x in after by {
      assert forall k :: 0 <= k < |before| ==> before[k] == after[k];
    }
  }

  lemma TakenDeeper(messages: seq<Message>, e: Event, i: nat, m: Message)
    requires i < |e.bundled| && TakenFrom(messages, e.bundled[i], m)
    ensures TakenFrom(messages, e, m)
  {
    var x :| Nested(e.bundled[i], x) && x.message == m
      && (m.ours ==> forall j :: 0 <= j < |x.bundled| ==> x.bundled[j].message.id in Ids(messages));
    assert Nested(e, x);
  }

  // An edit is newer than an original; edits and originals go by time, then by id.
  predicate Newer(a: Message, b: Message) {
    if a.kind.Edit? != b.kind.Edit? then a.kind.Edit?
    else a.time > b.time || (a.time == b.time && TextLess(b.id, a.id))
  }

  // A message of the agent with a text: the original of the reply, or an edit of it.
  predicate Original(m: Message, reply: Id) {
    m.ours && m.body.Some? && m.kind.Plain? && m.id == reply
  }

  predicate Edits(m: Message, reply: Id) {
    m.ours && m.body.Some? && m.kind == Edit(Some(reply))
  }

  // The original, or an edit that came after it.
  predicate Belongs(messages: seq<Message>, reply: Id, i: int)
    requires 0 <= i < |messages|
  {
    || Original(messages[i], reply)
    || (Edits(messages[i], reply) && exists k :: 0 <= k < i && Original(messages[k], reply))
  }

  ghost predicate Newest(messages: seq<Message>, reply: Id, i: int)
    requires 0 <= i < |messages|
  {
    && Belongs(messages, reply, i)
    && forall j :: 0 <= j < |messages| && j != i && Belongs(messages, reply, j) ==> Newer(messages[i], messages[j])
  }

  // Every reply whose original came shows the newest text that belongs to it, and no other reply any.
  ghost predicate Shows(messages: seq<Message>, latest: Latest, reply: Id) {
    if reply in latest then
      exists i :: 0 <= i < |messages| && Newest(messages, reply, i) && messages[i].body == Some(latest[reply].1)
    else forall i :: 0 <= i < |messages| ==> !Original(messages[i], reply)
  }

  lemma BelongsMeans(messages: seq<Message>, reply: Id, i: nat)
    requires i < |messages|
    ensures Belongs(messages, reply, i) <==> Accepted(messages, reply, i)
  {
    if Started(messages[..i], reply) {
      var m :| m in messages[..i] && IsOriginal(m, reply);
      var k :| 0 <= k < i && messages[..i][k] == m;
      assert Original(messages[k], reply);
    }
    if k :| 0 <= k < i && Original(messages[k], reply) {
      assert messages[..i][k] == messages[k] && messages[k] in messages[..i] && IsOriginal(messages[k], reply);
    }
  }

  lemma FoldShows(messages: seq<Message>, reply: Id)
    requires UniqueIds(messages)
    ensures Shows(messages, Fold(messages), reply)
  {
    FoldHolds(messages, reply);
    forall j | 0 <= j < |messages| ensures Belongs(messages, reply, j) <==> Accepted(messages, reply, j) {
      BelongsMeans(messages, reply, j);
    }
    if reply in Fold(messages) {
      var i :| 0 <= i < |messages| && IsLatest(messages, reply, i)
        && messages[i].body == Some(Fold(messages)[reply].1);
      assert Newest(messages, reply, i);
    } else {
      forall i | 0 <= i < |messages| ensures !Original(messages[i], reply) {
        assert messages[i] in messages && !IsOriginal(messages[i], reply);
      }
    }
  }

  class ReplyTracker {
    var seen: set<Id>
    var latestReplyBodies: Latest
    ghost var taken: seq<Message>

    ghost predicate Valid()
      reads this
    {
      Knows(taken, seen, latestReplyBodies)
    }

    constructor ()
      ensures Valid() && taken == []
    {
      seen, latestReplyBodies, taken := {}, map[], [];
    }

    // _ingest_event for one message: a repeated event changes nothing.
    method Ingest(m: Message) returns (isNew: bool)
      requires Valid()
      modifies this
      ensures Valid() && isNew == (m.id !in Ids(old(taken)))
      ensures taken == old(taken) + if isNew then [m] else []
    {
      isNew := m.id !in seen;
      if !isNew {
        assert taken + [] == taken;
        return;
      }
      KnowsMore(taken, seen, latestReplyBodies, m);
      seen := seen + {m.id};
      if Counts(latestReplyBodies, m) {
        var reply := ReplyOf(m).value;
        if reply !in latestReplyBodies || !Below(OrderOf(m), latestReplyBodies[reply].0) {
          latestReplyBodies := latestReplyBodies[reply := (OrderOf(m), m.body.value)];
        }
      }
      taken := taken + [m];
    }

    // _ingest_event: a new message, and then what is bundled into it.
    method IngestEvent(e: Event)
      requires Valid()
      modifies this
      ensures Valid() && taken == WithEvent(old(taken), e)
      ensures Takes(old(taken), taken, e) && forall reply :: Shows(taken, latestReplyBodies, reply)
      decreases e, 1
    {
      EventTakes(taken, e);
      var isNew := Ingest(e.message);
      if isNew && e.message.ours {
        IngestBundled(e);
      }
      forall reply ensures Shows(taken, latestReplyBodies, reply) {
        FoldShows(taken, reply);
      }
    }

    method IngestBundled(e: Event)
      requires Valid()
      modifies this
      ensures Valid() && taken == WithBundled(old(taken), e, |e.bundled|)
      decreases e, 0
    {
      for i := 0 to |e.bundled|
        invariant Valid() && taken == WithBundled(old(taken), e, i)
      {
        IngestEvent(e.bundled[i]);
      }
    }
  }
}

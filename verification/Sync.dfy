// The observer's cursor: it moves past an interval of the room only after every event of the
// interval has been read.
module Sync {

  import opened Options

  type Id = string
  type Token = string

  // One entry of a timeline or of a page; `payload` stands for the rest of the event.
  datatype Raw = NotAnObject | WithoutId | Event(id: Id, payload: string)

  datatype Failure =
    | RequestFailed | NoNextBatch | NotAList | BadEvent
    | UnexpectedStart | EndedEarly | InvalidEnd | DidNotAdvance | Cycled

  datatype Result<T> = Ok(value: T) | Failed(why: Failure)

  datatype End = Absent | Invalid | Cursor(token: Token)

  // A page of /messages, and what /sync returned; None is a chunk that is no list.
  datatype Page = Page(start: Option<Token>, chunk: Option<seq<Raw>>, end: End)

  datatype SyncReply = SyncReply(nextBatch: Option<Token>, timeline: Option<seq<Raw>>)

  // ----- Indexing events -----

  // The last event of each id.
  function Indexed(chunk: seq<Raw>): map<Id, Raw> {
    if chunk == [] then map[]
    else
      var last := chunk[|chunk| - 1];
      if last.Event? then Indexed(chunk[..|chunk| - 1])[last.id := last] else Indexed(chunk[..|chunk| - 1])
  }

  lemma {:induction false} IndexedIds(chunk: seq<Raw>)
    ensures forall e :: e in chunk && e.Event? ==> e.id in Indexed(chunk)
    ensures forall id :: id in Indexed(chunk) ==>
              Indexed(chunk)[id] in chunk && Indexed(chunk)[id].Event? && Indexed(chunk)[id].id == id
  {
    if chunk != [] {
      IndexedIds(chunk[..|chunk| - 1]);
      assert chunk == chunk[..|chunk| - 1] + [chunk[|chunk| - 1]];
    }
  }

  // _raw_event_map
  method RawEventMap(raw: Option<seq<Raw>>) returns (r: Result<map<Id, Raw>>)
    ensures r.Ok? <==> raw.Some? && forall e :: e in raw.value ==> e.Event?
    ensures r.Ok? ==> r.value == Indexed(raw.value)
  {
    if raw.None? {
      return Failed(NotAList);
    }
    var chunk, events: map<Id, Raw> := raw.value, map[];
    for i := 0 to |chunk|
      invariant forall j :: 0 <= j < i ==> chunk[j].Event?
      invariant events == Indexed(chunk[..i])
    {
      assert chunk[..i + 1][..i] == chunk[..i];
      if !chunk[i].Event? {
        assert chunk[i] in chunk;
        return Failed(BadEvent);
      }
      events := events[chunk[i].id := chunk[i]];
    }
    assert chunk[..|chunk|] == chunk;
    return Ok(events);
  }

  // ----- Servers -----

  // The answer to the i-th request for the page at a cursor; None when the request fails.
  type Answers = (nat, Token) -> Option<Page>

  // Whatever the server answers, it uses finitely many tokens.
  ghost predicate UsesTokens(answers: Answers, tokens: set<Token>) {
    forall i, cursor ::
      answers(i, cursor).Some? && answers(i, cursor).value.end.Cursor? ==> answers(i, cursor).value.end.token in tokens
  }

  // The room's log, of which a server only ever appends to the end; a token is a place in it.
  datatype Log = Log(at: nat -> Id, place: Token -> nat)

  // Where a page ends: at its end token, or else at the end of the interval.
  function EndPlace(log: Log, to: Token, page: Page): nat {
    if page.end.Cursor? then log.place(page.end.token) else log.place(to)
  }

  // The page holds what the log holds from its start to its end.
  ghost predicate Truthful(log: Log, to: Token, page: Page) {
    page.start.Some? && page.chunk.Some? ==>
      var from, end := log.place(page.start.value), EndPlace(log, to, page);
      from <= end && |page.chunk.value| == end - from
      && forall i :: 0 <= i < end - from ==> page.chunk.value[i].Event? && page.chunk.value[i].id == log.at(from + i)
  }

  ghost predicate Honest(log: Log, to: Token, answers: Answers) {
    forall i, cursor :: answers(i, cursor).Some? ==> Truthful(log, to, answers(i, cursor).value)
  }

  // A server that answers every request, gets ahead with every page, and says when it is done.
  ghost predicate Serves(log: Log, to: Token, answers: Answers) {
    forall i, cursor ::
      var answer := answers(i, cursor);
      && answer.Some? && answer.value.start == Some(cursor)
      && answer.value.chunk.Some? && (forall e :: e in answer.value.chunk.value ==> e.Event?)
      && (if log.place(cursor) >= log.place(to) then answer.value.end.Absent? && answer.value.chunk.value == []
          else answer.value.end.Cursor? && answer.value.end.token != ""
               && log.place(cursor) < log.place(answer.value.end.token))
  }

  // Every event of the log between the two places is known.
  ghost predicate Covers(log: Log, from: nat, to: nat, known: map<Id, Raw>) {
    forall k :: from <= k < to ==> log.at(k) in known
  }

  // Everything known is in the log, from that place on.
  ghost predicate Within(log: Log, from: nat, known: map<Id, Raw>) {
    forall id :: id in known ==> exists k :: from <= k && log.at(k) == id
  }

  lemma PageIsWithin(log: Log, from: Token, cursor: Token, to: Token, page: Page, recovered: map<Id, Raw>)
    requires Within(log, log.place(from), recovered) && log.place(from) <= log.place(cursor)
    requires Truthful(log, to, page) && page.start == Some(cursor) && page.chunk.Some?
    ensures Within(log, log.place(from), recovered + Indexed(page.chunk.value))
  {
    var chunk := page.chunk.value;
    IndexedIds(chunk);
    forall id | id in Indexed(chunk) ensures exists k :: log.place(from) <= k && log.at(k) == id {
      var i :| 0 <= i < |chunk| && chunk[i] == Indexed(chunk)[id];
      assert log.at(log.place(cursor) + i) == id;
    }
  }

  lemma PageCovers(log: Log, from: Token, cursor: Token, to: Token, page: Page, recovered: map<Id, Raw>)
    requires Covers(log, log.place(from), log.place(cursor), recovered)
    requires Truthful(log, to, page) && page.start == Some(cursor) && page.chunk.Some?
    ensures Covers(log, log.place(from), EndPlace(log, to, page), recovered + Indexed(page.chunk.value))
  {
    var chunk := page.chunk.value;
    IndexedIds(chunk);
    forall k | log.place(from) <= k < EndPlace(log, to, page) ensures log.at(k) in recovered + Indexed(chunk) {
      if k >= log.place(cursor) {
        assert chunk[k - log.place(cursor)] in chunk;
      }
    }
  }

  // ----- The client -----

  class MatrixClient {
    var nextBatch: Option<Token>
    var seenEvents: map<Id, Raw>
    ghost var first: Option<Token>

    constructor ()
      ensures nextBatch == None && seenEvents == map[] && first == None
    {
      nextBatch, seenEvents, first := None, map[], None;
    }

    // Every event since the first token has been seen.
    ghost predicate Complete(log: Log)
      reads this
    {
      && first.Some? == nextBatch.Some?
      && (first.Some? ==> Covers(log, log.place(first.value), log.place(nextBatch.value), seenEvents))
    }

    // _enumerate_sync_interval
    method EnumerateSyncInterval(
      from: Token, to: Token, answers: Answers, ghost tokens: set<Token>, ghost log: Log)
      returns (r: Result<map<Id, Raw>>)
      requires UsesTokens(answers, tokens)
      ensures r.Ok? && Honest(log, to, answers) ==>
        Covers(log, log.place(from), log.place(to), r.value) && Within(log, log.place(from), r.value)
      ensures Serves(log, to, answers) ==> r.Ok?
    {
      var cursor, visited, recovered: map<Id, Raw>, i := from, {from}, map[], 0;
      while true
        invariant cursor in visited && visited <= tokens + {from}
        invariant Honest(log, to, answers) ==> Covers(log, log.place(from), log.place(cursor), recovered)
        invariant Honest(log, to, answers) ==>
          log.place(from) <= log.place(cursor) && Within(log, log.place(from), recovered)
        invariant Serves(log, to, answers) ==> forall t :: t in visited ==> log.place(t) <= log.place(cursor)
        decreases tokens + {from} - visited
      {
        var answer := answers(i, cursor);
        if answer.None? {
          return Failed(RequestFailed);
        }
        var page := answer.value;
        if page.start != Some(cursor) {
          return Failed(UnexpectedStart);
        }
        var events := RawEventMap(page.chunk);
        if events.Failed? {
          return Failed(events.why);
        }
        if Honest(log, to, answers) {
          PageCovers(log, from, cursor, to, page, recovered);
          PageIsWithin(log, from, cursor, to, page, recovered);
        }
        recovered := recovered + events.value;
        match page.end {
          case Absent =>
            return if events.value != map[] then Failed(EndedEarly) else Ok(recovered);
          case Invalid =>
            return Failed(InvalidEnd);
          case Cursor(next) =>
            if next == "" {
              return Failed(InvalidEnd);
            }
            if next == cursor {
              return Failed(DidNotAdvance);
            }
            if next in visited {
              return Failed(Cycled);
            }
            visited := visited + {next};
            cursor := next;
        }
        i := i + 1;
      }
    }

    // sync_incremental_complete
    method SyncIncrementalComplete(
      reply: Option<SyncReply>, answers: Answers, ghost tokens: set<Token>, ghost log: Log)
      returns (r: Result<Token>)
      requires UsesTokens(answers, tokens)
      modifies this
      ensures r.Failed? ==> nextBatch == old(nextBatch) && seenEvents == old(seenEvents) && first == old(first)
      ensures r.Ok? ==> reply.Some? && reply.value.nextBatch == Some(r.value) && nextBatch == Some(r.value)
      ensures r.Ok? ==> old(seenEvents.Keys) <= seenEvents.Keys
      ensures r.Ok? && old(nextBatch).None? ==>
        reply.value.timeline.Some? && seenEvents == old(seenEvents) + Indexed(reply.value.timeline.value)
      ensures r.Ok? && old(nextBatch) == Some(r.value) ==> seenEvents == old(seenEvents)
      ensures r.Ok? ==> first == if old(nextBatch).None? then Some(r.value) else old(first)
      ensures old(Complete(log)) && (r.Ok? ==> Honest(log, r.value, answers)) ==> Complete(log)
    {
      if reply.None? {
        return Failed(RequestFailed);
      }
      if reply.value.nextBatch.None? {
        return Failed(NoNextBatch);
      }
      var next, recovered: map<Id, Raw> := reply.value.nextBatch.value, map[];
      if nextBatch.None? {
        var events := RawEventMap(reply.value.timeline);
        if events.Failed? {
          return Failed(events.why);
        }
        recovered := events.value;
        first := Some(next);
      } else if nextBatch.value != next {
        var events := EnumerateSyncInterval(nextBatch.value, next, answers, tokens, log);
        if events.Failed? {
          return Failed(events.why);
        }
        recovered := events.value;
      }
      seenEvents := seenEvents + recovered;
      nextBatch := Some(next);
      return Ok(next);
    }
  }
}

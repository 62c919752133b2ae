// Which text of a message is current while edits are sent and redacted. The runner keeps a stack
// of revisions for each source; the final audit looks for the newest edit that survived.
module Revisions {

  import opened Options
  import opened Sequences
  import opened Sorting

  type Id = string

  // The base entry of a stack has no edit.
  datatype Revision = Revision(edit: Option<Id>, marker: string)

  datatype Action =
    | Sent(source: Id, marker: string)
    | Edited(source: Id, edit: Id, marker: string)
    | Redacted(target: Id)

  // ----- What has happened to a source -----

  // The marker a source was sent with.
  function Original(history: seq<Action>, source: Id): Option<string> {
    if history == [] then None
    else
      var last := history[|history| - 1];
      if last.Sent? && last.source == source then Some(last.marker) else Original(history[..|history| - 1], source)
  }

  predicate IsOneOf(r: Revision, edits: set<Id>) {
    r.edit.Some? && r.edit.value in edits
  }

  function Without(revisions: seq<Revision>, gone: set<Id>): (r: seq<Revision>)
    ensures forall x :: x in r <==> x in revisions && !IsOneOf(x, gone)
  {
    if revisions == [] then []
    else
      var last := revisions[|revisions| - 1];
      Without(revisions[..|revisions| - 1], gone) + if IsOneOf(last, gone) then [] else [last]
  }

  // The edits of a source that were not redacted since, in the order they were sent.
  function Survivors(history: seq<Action>, source: Id): seq<Revision> {
    if history == [] then []
    else
      var rest := Survivors(history[..|history| - 1], source);
      match history[|history| - 1]
      case Sent(_, _) => rest
      case Edited(s, edit, marker) => if s == source then rest + [Revision(Some(edit), marker)] else rest
      case Redacted(target) => Without(rest, {target})
  }

  // The current text: that of the last surviving edit, or else the original.
  function Current(history: seq<Action>, source: Id): Option<string> {
    var survivors := Survivors(history, source);
    if survivors != [] then Some(survivors[|survivors| - 1].marker) else Original(history, source)
  }

  predicate WasEdited(history: seq<Action>, edit: Id) {
    exists a :: a in history && a.Edited? && a.edit == edit
  }

  predicate Mentions(history: seq<Action>, source: Id) {
    exists a :: a in history && !a.Redacted? && a.source == source
  }

  // The homeserver names every message and every edit once, and an edit is there to be redacted.
  ghost predicate Possible(history: seq<Action>) {
    history != [] ==>
      var init, last := history[..|history| - 1], history[|history| - 1];
      && Possible(init)
      && (last.Sent? ==> !Mentions(init, last.source))
      && (last.Edited? ==> !WasEdited(init, last.edit))
      && (last.Redacted? ==> WasEdited(init, last.target))
  }

  // ----- An independent reading of the history -----

  ghost predicate Survives(history: seq<Action>, i: nat)
    requires i < |history|
  {
    history[i].Edited? && forall j :: i < j < |history| ==> history[j] != Redacted(history[i].edit)
  }

  // i is the last edit of the source that survives.
  ghost predicate IsLastSurvivor(history: seq<Action>, source: Id, i: nat)
    requires i < |history|
  {
    && Survives(history, i) && history[i].source == source
    && forall j :: i < j < |history| && history[j].Edited? && history[j].source == source ==> !Survives(history, j)
  }

  // The revision made by some edit of the source that survives.
  ghost predicate FromSurvivor(history: seq<Action>, source: Id, r: Revision) {
    exists i :: 0 <= i < |history| && Survives(history, i) && history[i].source == source
      && r == Revision(Some(history[i].edit), history[i].marker)
  }

  lemma FromSurvivorSnoc(init: seq<Action>, last: Action, source: Id, r: Revision)
    ensures FromSurvivor(init + [last], source, r) <==>
      || (FromSurvivor(init, source, r) && !(last.Redacted? && r.edit == Some(last.target)))
      || (last.Edited? && last.source == source && r == Revision(Some(last.edit), last.marker))
  {
    var history := init + [last];
    assert history[|init|] == last;
    forall i | 0 <= i < |init| ensures Survives(history, i) <==> Survives(init, i) && last != Redacted(init[i].edit) {
      assert history[i] == init[i];
      assert forall j :: i < j < |init| ==> history[j] == init[j];
    }
    assert last.Edited? ==> Survives(history, |init|);
    if FromSurvivor(init, source, r) {
      var i :| 0 <= i < |init| && Survives(init, i) && init[i].source == source
               && r == Revision(Some(init[i].edit), init[i].marker);
      assert history[i] == init[i];
    }
  }

  // The survivors are exactly the edits that survive.
  lemma {:induction false} SurvivorsSurvive(history: seq<Action>, source: Id, r: Revision)
    ensures r in Survivors(history, source) <==> FromSurvivor(history, source, r)
  {
    if history != [] {
      var init, last := history[..|history| - 1], history[|history| - 1];
      assert history == init + [last];
      SurvivorsSurvive(init, source, r);
      FromSurvivorSnoc(init, last, source, r);
    }
  }

  lemma {:induction false} WithoutTwice(revisions: seq<Revision>, a: set<Id>, b: set<Id>)
    ensures Without(Without(revisions, a), b) == Without(revisions, a + b)
  {
    if revisions != [] {
      var init, last := revisions[..|revisions| - 1], revisions[|revisions| - 1];
      WithoutTwice(init, a, b);
      if IsOneOf(last, a) {
        assert Without(revisions, a) == Without(init, a);
      } else {
        SnocPrefix(Without(init, a), last);
        assert Without(revisions, a) == Without(init, a) + [last];
      }
    }
  }

  ghost predicate LaterGone(history: seq<Action>, source: Id, i: nat, gone: set<Id>) {
    forall j ::
      i < j < |history| && history[j].Edited? && history[j].source == source && Survives(history, j) ==>
        history[j].edit in gone
  }

  // When the edits after i are gone, the edit at i comes last.
  lemma {:induction false} LastOfRest(history: seq<Action>, source: Id, i: nat, gone: set<Id>)
    requires i < |history| && Survives(history, i) && history[i].source == source && history[i].edit !in gone
    requires LaterGone(history, source, i, gone)
    ensures var rest := Without(Survivors(history, source), gone);
      rest != [] && rest[|rest| - 1] == Revision(Some(history[i].edit), history[i].marker)
  {
    var init, last := history[..|history| - 1], history[|history| - 1];
    var rest := Survivors(init, source);
    if last.Edited? && last.source == source {
      SnocPrefix(rest, Revision(Some(last.edit), last.marker));
      if i < |init| {
        assert Survives(history, |init|) && last.edit in gone;
        StillLast(history, source, i, gone);
        LastOfRest(init, source, i, gone);
        assert Without(Survivors(history, source), gone) == Without(rest, gone);
      }
    } else if last.Redacted? {
      WithoutTwice(rest, {last.target}, gone);
      StillLast(history, source, i, {last.target} + gone);
      LastOfRest(init, source, i, {last.target} + gone);
    } else {
      StillLast(history, source, i, gone);
      LastOfRest(init, source, i, gone);
    }
  }

  // The premises of LastOfRest for the history without its last action.
  lemma StillLast(history: seq<Action>, source: Id, i: nat, gone: set<Id>)
    requires i < |history| - 1 && Survives(history, i)
    requires LaterGone(history, source, i, gone)
    requires history[|history| - 1].Redacted? ==> history[|history| - 1].target in gone
    ensures Survives(history[..|history| - 1], i)
    ensures LaterGone(history[..|history| - 1], source, i, gone)
  {
    var init := history[..|history| - 1];
    forall j | i < j < |init| && init[j].Edited? && init[j].source == source && Survives(init, j)
      ensures init[j].edit in gone
    {
      if history[|history| - 1] != Redacted(history[j].edit) {
        assert Survives(history, j);
      }
    }
  }

  // The current text is that of the last edit that survives, and the original when none does.
  lemma CurrentIsLastSurvivor(history: seq<Action>, source: Id)
    ensures forall i :: 0 <= i < |history| && IsLastSurvivor(history, source, i) ==>
      Current(history, source) == Some(history[i].marker)
    ensures (forall i ::
               0 <= i < |history| && history[i].Edited? && history[i].source == source ==> !Survives(history, i)) ==>
      Current(history, source) == Original(history, source)
  {
    forall i | 0 <= i < |history| && IsLastSurvivor(history, source, i)
      ensures Current(history, source) == Some(history[i].marker)
    {
      LastOfRest(history, source, i, {});
      WithoutNone(Survivors(history, source), {});
    }
    if Survivors(history, source) != [] {
      SurvivorsSurvive(history, source, Survivors(history, source)[0]);
    }
  }

  lemma {:induction false} WithoutNone(revisions: seq<Revision>, gone: set<Id>)
    requires forall i :: 0 <= i < |revisions| ==> !IsOneOf(revisions[i], gone)
    ensures Without(revisions, gone) == revisions
  {
    if revisions != [] {
      var init, last := revisions[..|revisions| - 1], revisions[|revisions| - 1];
      WithoutNone(init, gone);
      calc {
        Without(revisions, gone);
        Without(init, gone) + [last];
        init + [last];
        revisions;
      }
    }
  }

  // ----- The runner's stacks -----

  function Base(history: seq<Action>, source: Id): seq<Revision> {
    match Original(history, source)
    case None => []
    case Some(marker) => [Revision(None, marker)]
  }

  function Find<V>(table: map<Id, V>, key: Id): Option<V> {
    if key in table then Some(table[key]) else None
  }

  // The stack and the current marker of one source are what its history says.
  ghost predicate Tracks(history: seq<Action>, source: Id, stack: Option<seq<Revision>>, current: Option<string>) {
    && current == Current(history, source)
    && (stack.Some? ==> stack.value == Base(history, source) + Survivors(history, source))
    && (stack.None? <==> forall a :: a in history && a.Edited? ==> a.source != source)
  }

  lemma {:induction false} NoEditsNoSurvivors(history: seq<Action>, source: Id)
    requires forall a :: a in history && a.Edited? ==> a.source != source
    ensures Survivors(history, source) == []
  {
    if history != [] {
      NoEditsNoSurvivors(history[..|history| - 1], source);
    }
  }

  lemma {:induction false} NoMentionNoOriginal(history: seq<Action>, source: Id)
    requires !Mentions(history, source)
    ensures Original(history, source) == None && Survivors(history, source) == []
  {
    if history != [] {
      var init, last := history[..|history| - 1], history[|history| - 1];
      assert last in history && forall a :: a in init ==> a in history;
      assert !Mentions(init, source);
      NoMentionNoOriginal(init, source);
    }
  }

  lemma {:induction false} SurvivorsWereEdited(history: seq<Action>, source: Id)
    ensures forall r :: r in Survivors(history, source) ==>
              r.edit.Some? && Edited(source, r.edit.value, r.marker) in history
  {
    if history != [] {
      SurvivorsWereEdited(history[..|history| - 1], source);
    }
  }

  ghost predicate EditsDiffer(revisions: seq<Revision>) {
    forall i, j :: 0 <= i < j < |revisions| ==> revisions[i].edit != revisions[j].edit
  }

  lemma {:induction false} WithoutKeepsApart(revisions: seq<Revision>, gone: set<Id>)
    requires EditsDiffer(revisions)
    ensures EditsDiffer(Without(revisions, gone))
  {
    if revisions != [] {
      var init, last := revisions[..|revisions| - 1], revisions[|revisions| - 1];
      WithoutKeepsApart(init, gone);
      forall r | r in Without(init, gone) ensures r.edit != last.edit {
        var i :| 0 <= i < |init| && init[i] == r;
        assert revisions[i] == r;
      }
    }
  }

  lemma {:induction false} SurvivorsDiffer(history: seq<Action>, source: Id)
    requires Possible(history)
    ensures EditsDiffer(Survivors(history, source))
  {
    if history != [] {
      var init, last := history[..|history| - 1], history[|history| - 1];
      SurvivorsDiffer(init, source);
      SurvivorsWereEdited(init, source);
      if last.Redacted? {
        WithoutKeepsApart(Survivors(init, source), {last.target});
      }
    }
  }

  lemma SkipInSnoc<T>(init: seq<T>, last: T, k: nat)
    requires k < |init|
    ensures (init + [last])[..k] + (init + [last])[k + 1..] == (init[..k] + init[k + 1..]) + [last]
  {
  }

  // Taking the one entry of an edit out of the survivors ...
  lemma {:induction false} RemoveOne(revisions: seq<Revision>, k: nat, edit: Id)
    requires k < |revisions| && EditsDiffer(revisions) && revisions[k].edit == Some(edit)
    ensures revisions[..k] + revisions[k + 1..] == Without(revisions, {edit})
  {
    var init, last := revisions[..|revisions| - 1], revisions[|revisions| - 1];
    assert revisions == init + [last];
    if k == |init| {
      WithoutNone(init, {edit});
    } else {
      RemoveOne(init, k, edit);
      SkipInSnoc(init, last, k);
      assert !IsOneOf(last, {edit});
    }
  }

  lemma CutJoined<T>(base: seq<T>, s: seq<T>, i: nat)
    requires i < |s|
    ensures (base + s)[..|base| + i] + (base + s)[|base| + i + 1..] == base + (s[..i] + s[i + 1..])
  {
    assert (base + s)[..|base| + i] == base + s[..i];
    assert (base + s)[|base| + i + 1..] == s[i + 1..];
  }

  // ... is taking it out of the stack.
  lemma RemoveFromStack(stack: seq<Revision>, base: seq<Revision>, survivors: seq<Revision>, k: nat, edit: Id)
    requires stack == base + survivors && EditsDiffer(survivors) && |base| <= k < |stack|
    requires stack[k].edit == Some(edit)
    ensures stack[..k] + stack[k + 1..] == base + Without(survivors, {edit})
  {
    RemoveOne(survivors, k - |base|, edit);
    CutJoined(base, survivors, k - |base|);
  }

  lemma TracksSent(
    history: seq<Action>, source: Id, marker: string, s: Id, stack: Option<seq<Revision>>, current: Option<string>)
    requires Tracks(history, s, stack, current) && !Mentions(history, source)
    ensures Tracks(history + [Sent(source, marker)], s, stack, if s == source then Some(marker) else current)
  {
    SnocPrefix(history, Sent(source, marker));
    if s == source {
      NoMentionNoOriginal(history, s);
    }
  }

  lemma AfterEdit(history: seq<Action>, source: Id, edit: Id, marker: string, s: Id)
    ensures var more := history + [Edited(source, edit, marker)];
      && Survivors(more, s) == Survivors(history, s) + (if s == source then [Revision(Some(edit), marker)] else [])
      && Original(more, s) == Original(history, s)
      && ((forall a :: a in more && a.Edited? ==> a.source != s) <==>
            s != source && forall a :: a in history && a.Edited? ==> a.source != s)
  {
    var last := Edited(source, edit, marker);
    SnocPrefix(history, last);
    assert forall a :: a in history + [last] <==> a in history || a == last;
    assert Survivors(history, s) + [] == Survivors(history, s);
  }

  lemma TracksEdited(
    history: seq<Action>, source: Id, edit: Id, marker: string,
    s: Id, stack: Option<seq<Revision>>, current: Option<string>)
    requires Tracks(history, s, stack, current)
    ensures s != source ==> Tracks(history + [Edited(source, edit, marker)], s, stack, current)
    ensures s == source ==>
      var below := if stack.Some? then stack.value else if current.Some? then [Revision(None, current.value)] else [];
      Tracks(history + [Edited(source, edit, marker)], s, Some(below + [Revision(Some(edit), marker)]), Some(marker))
  {
    AfterEdit(history, source, edit, marker, s);
    if s == source && stack.None? {
      NoEditsNoSurvivors(history, s);
    }
  }

  lemma AfterRedaction(history: seq<Action>, edit: Id, s: Id)
    ensures Survivors(history + [Redacted(edit)], s) == Without(Survivors(history, s), {edit})
    ensures Original(history + [Redacted(edit)], s) == Original(history, s)
    ensures (forall a :: a in history && a.Edited? ==> a.source != s) <==>
      forall a :: a in history + [Redacted(edit)] && a.Edited? ==> a.source != s
  {
    SnocPrefix(history, Redacted(edit));
    assert forall a :: a in history + [Redacted(edit)] <==> a in history || a == Redacted(edit);
  }

  lemma RestOfStack(history: seq<Action>, edit: Id, s: Id, stack: seq<Revision>, k: nat)
    requires Possible(history) && stack == Base(history, s) + Survivors(history, s)
    requires k < |stack| && stack[k].edit == Some(edit)
    ensures stack[..k] + stack[k + 1..] == Base(history, s) + Without(Survivors(history, s), {edit})
  {
    SurvivorsDiffer(history, s);
    assert k == 0 ==> stack[0].edit.Some?;
    RemoveFromStack(stack, Base(history, s), Survivors(history, s), k, edit);
  }

  function Top(stack: seq<Revision>): Option<string> {
    if stack != [] then Some(stack[|stack| - 1].marker) else None
  }

  // The top of base and survivors is the current text.
  lemma TopIsCurrent(history: seq<Action>, s: Id)
    ensures Top(Base(history, s) + Survivors(history, s)) == Current(history, s)
  {
  }

  // A redaction of an edit that is in the stack, and of one that is not.
  lemma TracksRedacted(
    history: seq<Action>, edit: Id, s: Id, stack: seq<Revision>, current: Option<string>, k: nat, rest: seq<Revision>)
    requires Possible(history) && Tracks(history, s, Some(stack), current)
    requires k < |stack| && stack[k].edit == Some(edit) && rest == stack[..k] + stack[k + 1..]
    ensures Tracks(history + [Redacted(edit)], s, Some(rest), Top(rest))
  {
    RestOfStack(history, edit, s, stack, k);
    AfterRedaction(history, edit, s);
    TopIsCurrent(history + [Redacted(edit)], s);
  }

  lemma TracksOther(history: seq<Action>, edit: Id, s: Id, stack: Option<seq<Revision>>, current: Option<string>)
    requires Tracks(history, s, stack, current)
    requires forall r :: r in Survivors(history, s) ==> r.edit != Some(edit)
    ensures Tracks(history + [Redacted(edit)], s, stack, current)
  {
    AfterRedaction(history, edit, s);
    WithoutNone(Survivors(history, s), {edit});
  }

  // Every surviving edit can still be redacted.
  ghost predicate Live(history: seq<Action>, editSource: map<Id, Id>) {
    forall s, r :: r in Survivors(history, s) ==> r.edit.Some? && r.edit.value in editSource
  }

  // Whatever can be redacted is an edit of its source.
  ghost predicate Known(history: seq<Action>, editSource: map<Id, Id>) {
    forall e :: e in editSource ==> exists marker :: Edited(editSource[e], e, marker) in history
  }

  lemma KnownMore(history: seq<Action>, editSource: map<Id, Id>, a: Action)
    requires Known(history, editSource)
    ensures !a.Edited? ==> Known(history + [a], editSource)
    ensures a.Edited? ==> Known(history + [a], editSource[a.edit := a.source])
  {
    forall e | e in editSource ensures exists marker :: Edited(editSource[e], e, marker) in history + [a] {
      var marker :| Edited(editSource[e], e, marker) in history;
      assert Edited(editSource[e], e, marker) in history + [a];
    }
    if a.Edited? {
      assert Edited(a.source, a.edit, a.marker) in history + [a];
    }
  }

  function Edits(revisions: map<Id, map<Id, string>>, source: Id): map<Id, string> {
    if source in revisions then revisions[source] else map[]
  }

  // All edits there ever were.
  ghost predicate Listed(history: seq<Action>, revisions: map<Id, map<Id, string>>) {
    && (forall s, e :: e in Edits(revisions, s) ==> Edited(s, e, Edits(revisions, s)[e]) in history)
    && (forall a :: a in history && a.Edited? ==> a.edit in Edits(revisions, a.source))
  }

  ghost predicate Registers(history: seq<Action>, editSource: map<Id, Id>, revisions: map<Id, map<Id, string>>) {
    Possible(history) && Live(history, editSource) && Known(history, editSource) && Listed(history, revisions)
  }

  ghost predicate AllTrack(history: seq<Action>, stacks: map<Id, seq<Revision>>, current: map<Id, string>) {
    forall s :: Tracks(history, s, Find(stacks, s), Find(current, s))
  }

  lemma {:induction false} OneSourcePerEdit(history: seq<Action>, a: Action, b: Action)
    requires Possible(history) && a in history && b in history && a.Edited? && b.Edited? && a.edit == b.edit
    ensures a == b
  {
    var init, last := history[..|history| - 1], history[|history| - 1];
    assert history == init + [last];
    if a in init && b in init {
      OneSourcePerEdit(init, a, b);
    } else if a != b {
      assert WasEdited(init, last.edit);
    }
  }

  lemma SendTracks(
    history: seq<Action>, stacks: map<Id, seq<Revision>>, current: map<Id, string>, source: Id, marker: string)
    requires AllTrack(history, stacks, current) && !Mentions(history, source)
    ensures AllTrack(history + [Sent(source, marker)], stacks, current[source := marker])
  {
    forall s ensures
      Tracks(history + [Sent(source, marker)], s, Find(stacks, s), Find(current[source := marker], s))
    {
      TracksSent(history, source, marker, s, Find(stacks, s), Find(current, s));
    }
  }

  lemma PushTracks(
    history: seq<Action>, stacks: map<Id, seq<Revision>>, current: map<Id, string>,
    source: Id, edit: Id, marker: string, below: seq<Revision>)
    requires AllTrack(history, stacks, current)
    requires below == if source in stacks then stacks[source]
                      else if source in current then [Revision(None, current[source])] else []
    ensures AllTrack(history + [Edited(source, edit, marker)],
                     stacks[source := below + [Revision(Some(edit), marker)]], current[source := marker])
  {
    var stacks', current' := stacks[source := below + [Revision(Some(edit), marker)]], current[source := marker];
    forall s ensures Tracks(history + [Edited(source, edit, marker)], s, Find(stacks', s), Find(current', s)) {
      TracksEdited(history, source, edit, marker, s, Find(stacks, s), Find(current, s));
    }
  }

  lemma OtherSourcesTrack(
    history: seq<Action>, stacks: map<Id, seq<Revision>>, current: map<Id, string>,
    source: Id, edit: Id, marker: string, s: Id)
    requires Possible(history) && AllTrack(history, stacks, current)
    requires Edited(source, edit, marker) in history && s != source
    ensures Tracks(history + [Redacted(edit)], s, Find(stacks, s), Find(current, s))
  {
    SurvivorsWereEdited(history, s);
    forall r | r in Survivors(history, s) ensures r.edit != Some(edit) {
      if r.edit == Some(edit) {
        OneSourcePerEdit(history, Edited(source, edit, marker), Edited(s, edit, r.marker));
      }
    }
    TracksOther(history, edit, s, Find(stacks, s), Find(current, s));
  }

  lemma EditedHasStack(
    history: seq<Action>, stacks: map<Id, seq<Revision>>, current: map<Id, string>,
    source: Id, edit: Id, marker: string)
    requires AllTrack(history, stacks, current) && Edited(source, edit, marker) in history
    ensures source in stacks
  {
    assert Tracks(history, source, Find(stacks, source), Find(current, source));
  }

  lemma PopTracks(
    history: seq<Action>, stacks: map<Id, seq<Revision>>, current: map<Id, string>,
    source: Id, edit: Id, marker: string, i: nat, rest: seq<Revision>)
    requires Possible(history) && AllTrack(history, stacks, current) && Edited(source, edit, marker) in history
    requires source in stacks && i < |stacks[source]| && stacks[source][i].edit == Some(edit)
    requires rest == stacks[source][..i] + stacks[source][i + 1..]
    ensures AllTrack(history + [Redacted(edit)], stacks[source := rest], Replace(current, source, Top(rest)))
  {
    TracksRedacted(history, edit, source, stacks[source], Find(current, source), i, rest);
    var current' := Replace(current, source, Top(rest));
    forall s ensures Tracks(history + [Redacted(edit)], s, Find(stacks[source := rest], s), Find(current', s)) {
      if s != source {
        OtherSourcesTrack(history, stacks, current, source, edit, marker, s);
      }
    }
  }

  function Replace(current: map<Id, string>, source: Id, marker: Option<string>): map<Id, string> {
    if marker.Some? then current[source := marker.value] else current - {source}
  }

  // Redacting an edit that no longer survives anywhere.
  lemma PopIgnores(history: seq<Action>, stacks: map<Id, seq<Revision>>, current: map<Id, string>, edit: Id)
    requires AllTrack(history, stacks, current)
    requires forall s, r :: r in Survivors(history, s) ==> r.edit != Some(edit)
    ensures AllTrack(history + [Redacted(edit)], stacks, current)
  {
    forall s ensures Tracks(history + [Redacted(edit)], s, Find(stacks, s), Find(current, s)) {
      TracksOther(history, edit, s, Find(stacks, s), Find(current, s));
    }
  }

  lemma LiveSent(history: seq<Action>, editSource: map<Id, Id>, source: Id, marker: string)
    requires Live(history, editSource)
    ensures Live(history + [Sent(source, marker)], editSource)
  {
    SnocPrefix(history, Sent(source, marker));
  }

  lemma LiveEdited(history: seq<Action>, editSource: map<Id, Id>, source: Id, edit: Id, marker: string)
    requires Live(history, editSource)
    ensures Live(history + [Edited(source, edit, marker)], editSource[edit := source])
  {
    SnocPrefix(history, Edited(source, edit, marker));
  }

  lemma LiveRedacted(history: seq<Action>, editSource: map<Id, Id>, edit: Id)
    requires Live(history, editSource)
    ensures Live(history + [Redacted(edit)], editSource - {edit})
  {
    SnocPrefix(history, Redacted(edit));
    forall s, r | r in Survivors(history + [Redacted(edit)], s)
      ensures r.edit.Some? && r.edit.value in editSource - {edit}
    {
      assert r in Survivors(history, s) && !IsOneOf(r, {edit});
    }
  }

  lemma ListedMore(history: seq<Action>, revisions: map<Id, map<Id, string>>, a: Action)
    requires Listed(history, revisions)
    ensures !a.Edited? ==> Listed(history + [a], revisions)
    ensures a.Edited? && !WasEdited(history, a.edit) ==>
      Listed(history + [a], revisions[a.source := Edits(revisions, a.source)[a.edit := a.marker]])
  {
    assert forall b :: b in history + [a] <==> b in history || b == a;
    if a.Edited? {
      var revisions' := revisions[a.source := Edits(revisions, a.source)[a.edit := a.marker]];
      forall s, e | e in Edits(revisions', s) ensures Edited(s, e, Edits(revisions', s)[e]) in history + [a] {
        if s == a.source && e == a.edit {
          assert a == Edited(s, e, a.marker);
        } else {
          assert e in Edits(revisions, s) && Edited(s, e, Edits(revisions, s)[e]) in history;
        }
      }
    }
  }

  // The registers after a redaction.
  lemma RedactionFits(
    history: seq<Action>, editSource: map<Id, Id>, revisions: map<Id, map<Id, string>>, edit: Id)
    requires Registers(history, editSource, revisions) && WasEdited(history, edit)
    ensures Registers(history + [Redacted(edit)], editSource - {edit}, revisions)
  {
    SnocPrefix(history, Redacted(edit));
    KnownMore(history, editSource, Redacted(edit));
    KnownFewer(history + [Redacted(edit)], editSource, edit);
    LiveRedacted(history, editSource, edit);
    ListedMore(history, revisions, Redacted(edit));
  }

  lemma KnownFewer(history: seq<Action>, editSource: map<Id, Id>, edit: Id)
    requires Known(history, editSource)
    ensures Known(history, editSource - {edit})
  {
    var fewer := editSource - {edit};
    forall e | e in fewer ensures exists marker :: Edited(fewer[e], e, marker) in history {
      assert e in editSource && fewer[e] == editSource[e];
    }
  }

  class RevisionTracker {
    var stacks: map<Id, seq<Revision>>
    var currentMarkers: map<Id, string>
    var editSource: map<Id, Id>
    var revisionMarkers: map<Id, map<Id, string>>
    ghost var history: seq<Action>

    ghost predicate Valid()
      reads this
    {
      AllTrack(history, stacks, currentMarkers) && Registers(history, editSource, revisionMarkers)
    }

    constructor ()
      ensures Valid() && history == []
    {
      stacks, currentMarkers, editSource, revisionMarkers, history := map[], map[], map[], map[], [];
    }

    // A message is sent, and its marker registered.
    method Send(source: Id, marker: string)
      requires Valid() && Possible(history + [Sent(source, marker)])
      modifies this
      ensures Valid() && history == old(history) + [Sent(source, marker)]
    {
      SnocPrefix(history, Sent(source, marker));
      SendTracks(history, stacks, currentMarkers, source, marker);
      LiveSent(history, editSource, source, marker);
      KnownMore(history, editSource, Sent(source, marker));
      ListedMore(history, revisionMarkers, Sent(source, marker));
      currentMarkers := currentMarkers[source := marker];
      history := history + [Sent(source, marker)];
    }

    // _push_source_revision, and the registration of the edit that follows it
    method Push(source: Id, edit: Id, marker: string)
      requires Valid() && Possible(history + [Edited(source, edit, marker)])
      modifies this
      ensures Valid() && history == old(history) + [Edited(source, edit, marker)]
    {
      SnocPrefix(history, Edited(source, edit, marker));
      var stack :=
        if source in stacks then stacks[source]
        else if source in currentMarkers then [Revision(None, currentMarkers[source])] else [];
      PushTracks(history, stacks, currentMarkers, source, edit, marker, stack);
      LiveEdited(history, editSource, source, edit, marker);
      KnownMore(history, editSource, Edited(source, edit, marker));
      ListedMore(history, revisionMarkers, Edited(source, edit, marker));
      stacks := stacks[source := stack + [Revision(Some(edit), marker)]];
      revisionMarkers := revisionMarkers[source := Edits(revisionMarkers, source)[edit := marker]];
      currentMarkers := currentMarkers[source := marker];
      editSource := editSource[edit := source];
      history := history + [Edited(source, edit, marker)];
    }

    // _pop_source_revision, for an edit of that source if it is a registered one. An edit that was
    // never registered, or was redacted before, changes nothing.
    method Pop(source: Id, edit: Id)
      requires Valid() && (edit in editSource ==> editSource[edit] == source)
      modifies this`stacks, this`currentMarkers, this`editSource, this`history
      ensures Valid()
      ensures history == old(history) + if WasEdited(old(history), edit) then [Redacted(edit)] else []
      ensures old(edit !in editSource) ==>
        stacks == old(stacks) && currentMarkers == old(currentMarkers) && editSource == old(editSource)
      ensures old(edit in editSource) ==> WasEdited(old(history), edit) && editSource == old(editSource) - {edit}
    {
      if edit !in editSource {
        NoteRedaction(edit);
        return;
      }
      ghost var marker :| Edited(source, edit, marker) in history;
      RedactionFits(history, editSource, revisionMarkers, edit);
      Revert(source, edit, marker);
      Unregister(edit);
    }

    // The edit leaves the registers, and the redaction enters the history.
    method Unregister(edit: Id)
      requires AllTrack(history + [Redacted(edit)], stacks, currentMarkers)
      requires Registers(history + [Redacted(edit)], editSource - {edit}, revisionMarkers)
      modifies this`editSource, this`history
      ensures Valid() && history == old(history) + [Redacted(edit)] && editSource == old(editSource) - {edit}
    {
      editSource := editSource - {edit};
      history := history + [Redacted(edit)];
    }

    // A redaction that finds nothing to revert.
    ghost method NoteRedaction(edit: Id)
      requires Valid() && edit !in editSource
      modifies this`history
      ensures Valid()
      ensures history == old(history) + if WasEdited(old(history), edit) then [Redacted(edit)] else []
    {
      if WasEdited(history, edit) {
        PopIgnores(history, stacks, currentMarkers, edit);
        RedactionFits(history, editSource, revisionMarkers, edit);
        assert editSource - {edit} == editSource;
        history := history + [Redacted(edit)];
      } else {
        assert history + [] == history;
      }
    }

    // Its search in the stack, which removes the entry of the edit and restores the surviving top.
    method Revert(source: Id, edit: Id, ghost marker: string)
      requires Possible(history) && AllTrack(history, stacks, currentMarkers)
      requires Edited(source, edit, marker) in history
      modifies this`stacks, this`currentMarkers
      ensures AllTrack(history + [Redacted(edit)], stacks, currentMarkers)
    {
      EditedHasStack(history, stacks, currentMarkers, source, edit, marker);
      var found := IndexOf(stacks[source], edit);
      if found.None? {
        NowhereElse(history, stacks, currentMarkers, source, edit, marker);
        PopIgnores(history, stacks, currentMarkers, edit);
        return;
      }
      var i := found.value;
      var stack := stacks[source][..i] + stacks[source][i + 1..];
      PopTracks(history, stacks, currentMarkers, source, edit, marker, i, stack);
      stacks := stacks[source := stack];
      if stack != [] {
        currentMarkers := currentMarkers[source := stack[|stack| - 1].marker];
      } else {
        currentMarkers := currentMarkers - {source};
      }
    }
  }

  // The search for the entry of an edit, from the top of the stack.
  method IndexOf(stack: seq<Revision>, edit: Id) returns (found: Option<nat>)
    ensures found.Some? ==> found.value < |stack| && stack[found.value].edit == Some(edit)
    ensures found.None? ==> forall r :: r in stack ==> r.edit != Some(edit)
  {
    for i := |stack| downto 0
      invariant forall k :: i <= k < |stack| ==> stack[k].edit != Some(edit)
    {
      if stack[i].edit == Some(edit) {
        return Some(i);
      }
    }
    return None;
  }

  lemma NowhereElse(
    history: seq<Action>, stacks: map<Id, seq<Revision>>, current: map<Id, string>,
    source: Id, edit: Id, marker: string)
    requires Possible(history) && AllTrack(history, stacks, current) && Edited(source, edit, marker) in history
    requires source in stacks && forall r :: r in stacks[source] ==> r.edit != Some(edit)
    ensures forall s, r :: r in Survivors(history, s) ==> r.edit != Some(edit)
  {
    forall s, r | r in Survivors(history, s) ensures r.edit != Some(edit) {
      SurvivorsWereEdited(history, s);
      if r.edit == Some(edit) {
        OneSourcePerEdit(history, Edited(source, edit, marker), Edited(s, edit, r.marker));
      }
      assert Tracks(history, source, Find(stacks, source), Find(current, source));
    }
  }

  // ----- The final audit -----

  function StampOf(times: map<Id, int>, edit: Id): Stamp
    requires edit in times
  {
    Stamp(times[edit], edit)
  }

  predicate Remains(revisions: map<Id, string>, times: map<Id, int>, redacted: set<Id>, edit: Id) {
    edit in revisions && edit in times && edit !in redacted
  }

  // The newest of the edits that remain, in the order of Matrix replacements.
  ghost predicate IsNewest(revisions: map<Id, string>, times: map<Id, int>, redacted: set<Id>, edit: Id) {
    && Remains(revisions, times, redacted, edit)
    && forall f :: Remains(revisions, times, redacted, f) && f != edit ==>
         Earlier(StampOf(times, f), StampOf(times, edit))
  }

  // What the audit found among the edits outside `rest`.
  ghost predicate Found(
    revisions: map<Id, string>, times: map<Id, int>, redacted: set<Id>, original: string, rest: set<Id>,
    newest: Option<Id>, marker: string)
  {
    match newest
    case None => marker == original && forall e :: Remains(revisions, times, redacted, e) ==> e in rest
    case Some(edit) =>
      && Remains(revisions, times, redacted, edit) && edit !in rest && marker == revisions[edit]
      && forall f :: Remains(revisions, times, redacted, f) && f !in rest && f != edit ==>
        Earlier(StampOf(times, f), StampOf(times, edit))
  }

  lemma FindMore(
    revisions: map<Id, string>, times: map<Id, int>, redacted: set<Id>, original: string, rest: set<Id>,
    newest: Option<Id>, marker: string, edit: Id)
    requires Found(revisions, times, redacted, original, rest, newest, marker) && edit in rest && edit in revisions
    ensures !Remains(revisions, times, redacted, edit) ==>
      Found(revisions, times, redacted, original, rest - {edit}, newest, marker)
    ensures Remains(revisions, times, redacted, edit) ==>
      if newest.None? || Earlier(StampOf(times, newest.value), StampOf(times, edit))
      then Found(revisions, times, redacted, original, rest - {edit}, Some(edit), revisions[edit])
      else Found(revisions, times, redacted, original, rest - {edit}, newest, marker)
  {
    if Remains(revisions, times, redacted, edit) && newest.Some? {
      EarlierIsTotal(StampOf(times, edit), StampOf(times, newest.value));
      forall f | Remains(revisions, times, redacted, f) && f !in rest && f != newest.value
               && Earlier(StampOf(times, newest.value), StampOf(times, edit))
        ensures Earlier(StampOf(times, f), StampOf(times, edit))
      {
        EarlierIsTransitive(StampOf(times, f), StampOf(times, newest.value), StampOf(times, edit));
      }
    }
  }

  // _resolve_source_revision_markers, for one source
  method ResolveMarker(revisions: map<Id, string>, times: map<Id, int>, redacted: set<Id>, original: string)
    returns (newest: Option<Id>, marker: string)
    ensures newest.None? ==> marker == original && forall e :: !Remains(revisions, times, redacted, e)
    ensures newest.Some? ==> IsNewest(revisions, times, redacted, newest.value) && marker == revisions[newest.value]
  {
    newest, marker := None, original;
    var rest := revisions.Keys;
    while rest != {}
      invariant rest <= revisions.Keys
      invariant Found(revisions, times, redacted, original, rest, newest, marker)
      decreases |rest|
    {
      var edit :| edit in rest;
      FindMore(revisions, times, redacted, original, rest, newest, marker, edit);
      if edit in times && edit !in redacted
         && (newest.None? || Earlier(StampOf(times, newest.value), StampOf(times, edit))) {
        newest, marker := Some(edit), revisions[edit];
      }
      rest := rest - {edit};
    }
  }

  function RedactedIn(history: seq<Action>): set<Id> {
    set a | a in history && a.Redacted? :: a.target
  }

  lemma {:induction false} RedactionsComeLater(history: seq<Action>, i: nat, j: nat)
    requires Possible(history) && i < |history| && j < |history|
    requires history[i].Edited? && history[j] == Redacted(history[i].edit)
    ensures i < j
  {
    var init, last := history[..|history| - 1], history[|history| - 1];
    if i < |init| && j < |init| {
      RedactionsComeLater(init, i, j);
    } else if j < |init| {
      var edit := history[i].edit;
      WasEditedBefore(history, j, edit);
    }
  }

  lemma {:induction false} WasEditedBefore(history: seq<Action>, j: nat, edit: Id)
    requires Possible(history) && j < |history| - 1 && history[j] == Redacted(edit)
    ensures WasEdited(history[..|history| - 1], edit)
    decreases |history|
  {
    var init := history[..|history| - 1];
    if j < |init| - 1 {
      WasEditedBefore(init, j, edit);
      var a :| a in init[..|init| - 1] && a.Edited? && a.edit == edit;
      assert a in init;
    } else {
      var a :| a in init[..|init| - 1] && a.Edited? && a.edit == edit;
      assert a in init;
    }
  }

  // Every edit that survives has a time.
  ghost predicate Timed(history: seq<Action>, times: map<Id, int>) {
    forall a :: a in history && a.Edited? ==> a.edit in times
  }

  lemma SurvivesIffRemains(
    history: seq<Action>, revisions: map<Id, map<Id, string>>, times: map<Id, int>, source: Id, i: nat)
    requires Possible(history) && Listed(history, revisions) && Timed(history, times)
    requires i < |history| && history[i].Edited? && history[i].source == source
    ensures Survives(history, i) <==> Remains(Edits(revisions, source), times, RedactedIn(history), history[i].edit)
    ensures Edits(revisions, source)[history[i].edit] == history[i].marker
  {
    var edit := history[i].edit;
    assert history[i] in history;
    OneSourcePerEdit(history, history[i], Edited(source, edit, Edits(revisions, source)[edit]));
    if edit in RedactedIn(history) {
      var j :| 0 <= j < |history| && history[j] == Redacted(edit);
      RedactionsComeLater(history, i, j);
    } else {
      forall j | i < j < |history| ensures history[j] != Redacted(edit) {
        assert history[j] in history;
      }
    }
  }

  // Every other unredacted edit of the source is earlier.
  ghost predicate NoneNewer(history: seq<Action>, times: map<Id, int>, source: Id, edit: Id)
    requires Timed(history, times) && edit in times
  {
    forall a :: a in history && IsOther(history, source, edit, a) ==>
      Earlier(StampOf(times, a.edit), StampOf(times, edit))
  }

  predicate IsOther(history: seq<Action>, source: Id, edit: Id, a: Action) {
    a.Edited? && a.source == source && a.edit != edit && a.edit !in RedactedIn(history)
  }

  // The stack and the audit agree on a source exactly when the last edit that survives is the
  // newest of those that do.
  lemma StackAgreesIff(
    history: seq<Action>, revisions: map<Id, map<Id, string>>, times: map<Id, int>, source: Id, i: nat, newest: Id)
    requires Possible(history) && Listed(history, revisions) && Timed(history, times)
    requires i < |history| && IsLastSurvivor(history, source, i)
    requires IsNewest(Edits(revisions, source), times, RedactedIn(history), newest)
    ensures history[i] in history && history[i].edit in times
    ensures history[i].edit == newest <==> NoneNewer(history, times, source, history[i].edit)
    ensures history[i].edit == newest ==> Current(history, source) == Some(Edits(revisions, source)[newest])
  {
    var all, redacted, edit := Edits(revisions, source), RedactedIn(history), history[i].edit;
    assert history[i] in history;
    SurvivesIffRemains(history, revisions, times, source, i);
    CurrentIsLastSurvivor(history, source);
    forall a | a in history && a.Edited? && a.source == source && a.edit !in redacted
      ensures Remains(all, times, redacted, a.edit)
    {
    }
    if edit != newest {
      var a := Edited(source, newest, all[newest]);
      assert a in history && Earlier(StampOf(times, edit), StampOf(times, newest));
      EarlierIsTotal(StampOf(times, edit), StampOf(times, newest));
      assert IsOther(history, source, edit, a) && !Earlier(StampOf(times, a.edit), StampOf(times, edit));
    }
  }

  // Edits are sent in the order of their replacements.
  ghost predicate SentInOrder(history: seq<Action>, times: map<Id, int>, source: Id)
    requires Timed(history, times)
  {
    forall i, j ::
      0 <= i < j < |history| && history[i].Edited? && history[i].source == source
      && history[j].Edited? && history[j].source == source ==>
        history[i] in history && history[j] in history
        && Earlier(StampOf(times, history[i].edit), StampOf(times, history[j].edit))
  }

  lemma {:induction false} LastSurvivorExists(history: seq<Action>, source: Id, i: nat) returns (k: nat)
    requires i < |history| && Survives(history, i) && history[i].source == source
    ensures i <= k < |history| && IsLastSurvivor(history, source, k)
    decreases |history| - i
  {
    if j :| i < j < |history| && history[j].Edited? && history[j].source == source && Survives(history, j) {
      k := LastSurvivorExists(history, source, j);
    } else {
      k := i;
    }
  }

  // Then the stack's current marker is the audit's.
  lemma StackMatchesAudit(
    history: seq<Action>, revisions: map<Id, map<Id, string>>, times: map<Id, int>, source: Id,
    original: string, newest: Option<Id>, marker: string)
    requires Possible(history) && Listed(history, revisions) && Timed(history, times)
    requires SentInOrder(history, times, source) && Original(history, source) == Some(original)
    requires Found(Edits(revisions, source), times, RedactedIn(history), original, {}, newest, marker)
    ensures Current(history, source) == Some(marker)
  {
    var all, redacted := Edits(revisions, source), RedactedIn(history);
    match newest
    case None =>
      forall i | 0 <= i < |history| && history[i].Edited? && history[i].source == source ensures !Survives(history, i) {
        SurvivesIffRemains(history, revisions, times, source, i);
      }
      CurrentIsLastSurvivor(history, source);
    case Some(edit) =>
      assert Edited(source, edit, all[edit]) in history;
      var i :| 0 <= i < |history| && history[i] == Edited(source, edit, all[edit]);
      SurvivesIffRemains(history, revisions, times, source, i);
      var k := LastSurvivorExists(history, source, i);
      SurvivesIffRemains(history, revisions, times, source, k);
      CurrentIsLastSurvivor(history, source);
      EarlierIsTotal(StampOf(times, edit), StampOf(times, history[k].edit));
  }

  // Otherwise it need not be: of two edits, the first sent may be the newest.
  lemma StackMayDisagree()
    ensures var history := [Sent("s", "orig"), Edited("s", "a", "first"), Edited("s", "b", "second")];
      && Possible(history) && Current(history, "s") == Some("second")
      && IsNewest(map["a" := "first", "b" := "second"], map["a" := 2, "b" := 1], {}, "a")
  {
    var history := [Sent("s", "orig"), Edited("s", "a", "first"), Edited("s", "b", "second")];
    var one := [Sent("s", "orig")];
    var two := one + [Edited("s", "a", "first")];
    assert one[..0] == [] && two[..1] == one && history[..2] == two;
    assert Possible(one) && Possible(two);
    assert IsLastSurvivor(history, "s", 2);
    CurrentIsLastSurvivor(history, "s");
  }
}

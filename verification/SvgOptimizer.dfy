// The optimizer itself: passes that edit one document in place. Each pass keeps what every
// reference of the document paints, and so does their composition.
module SvgOptimizer {

  import opened Options
  import opened Sequences
  import opened Svg
  import opened SvgPasses
  import Decimals

  // What the body of a document paints, at every depth.
  ghost predicate SamePaintings(
    defs: seq<Definition>, body: seq<Token>, defs': seq<Definition>, body': seq<Token>)
  {
    forall depth: nat :: PaintTokens(defs, body, depth) == PaintTokens(defs', body', depth)
  }

  lemma CorrespondingPaintings(
    defs: seq<Definition>, body: seq<Token>, defs': seq<Definition>, p: Pass, known: iset<string>)
    requires Corresponds(defs, defs', p, known) && RefsIn(body, known)
    ensures SamePaintings(defs, body, defs', p.ApplyAll(body))
  {
    forall depth: nat ensures PaintTokens(defs, body, depth) == PaintTokens(defs', p.ApplyAll(body), depth) {
      SameMarkup(defs, defs', p, known, body, depth);
    }
  }

  ghost predicate Plain(defs: seq<Definition>) {
    UniqueIds(defs) && NoTemplates(defs)
  }

  // A name the document gives or refers to.
  ghost predicate Uses(defs: seq<Definition>, body: seq<Token>, x: string) {
    Mentions(defs, x) || Ref(x) in body
  }

  ghost predicate Unused(taken: set<string>, defs: seq<Definition>, body: seq<Token>) {
    forall x :: x in taken ==> !Uses(defs, body, x)
  }

  // Every name the new document uses is among `more`, or was used before.
  ghost predicate NewNames(
    defs: seq<Definition>, body: seq<Token>, defs': seq<Definition>, body': seq<Token>, more: set<string>)
  {
    forall x :: Uses(defs', body', x) ==> x in more || Uses(defs, body, x)
  }

  lemma UnusedIsBesides(taken: set<string>, defs: seq<Definition>, body: seq<Token>)
    requires Unused(taken, defs, body)
    ensures Unmentioned(taken, defs) && RefsIn(body, Besides(taken))
  {
    forall x | x in taken ensures !Mentions(defs, x) {
      assert !Uses(defs, body, x);
    }
    forall i | 0 <= i < |body| && body[i].Ref? ensures body[i].id in Besides(taken) {
      assert body[i] == Ref(body[i].id) && Uses(defs, body, body[i].id);
    }
  }

  // ----- Reachability -----

  ghost predicate Links(defs: seq<Definition>, x: string, y: string) {
    exists d :: d in defs && d.Id() == Some(x) && RefersTo(d, y)
  }

  ghost predicate Path(defs: seq<Definition>, body: seq<Token>, path: seq<string>) {
    && path != []
    && Ref(path[0]) in body
    && forall i :: 0 <= i < |path| - 1 ==> Links(defs, path[i], path[i + 1])
  }

  // Some chain of references leads from the body to the name.
  ghost predicate Reachable(defs: seq<Definition>, body: seq<Token>, x: string) {
    exists path :: Path(defs, body, path) && path[|path| - 1] == x
  }

  lemma ReachFromBody(defs: seq<Definition>, body: seq<Token>, x: string)
    requires Ref(x) in body
    ensures Reachable(defs, body, x)
  {
    assert Path(defs, body, [x]);
  }

  lemma ReachFurther(defs: seq<Definition>, body: seq<Token>, x: string, y: string)
    requires Reachable(defs, body, x) && Links(defs, x, y)
    ensures Reachable(defs, body, y)
  {
    var path :| Path(defs, body, path) && path[|path| - 1] == x;
    var longer := path + [y];
    forall i | 0 <= i < |longer| - 1 ensures Links(defs, longer[i], longer[i + 1]) {
      if i < |path| - 1 {
        assert Links(defs, path[i], path[i + 1]);
      }
    }
    assert Path(defs, body, longer) && longer[|longer| - 1] == y;
  }

  // A closed set that starts from the body holds every defined name a path leads to.
  lemma {:induction false} ClosedHoldsPaths(
    defs: seq<Definition>, body: seq<Token>, used: set<string>, path: seq<string>)
    requires Closed(defs, used) && Path(defs, body, path)
    requires forall x :: Ref(x) in body ==> x in Live(defs, used)
    ensures path[|path| - 1] in Live(defs, used)
    ensures forall i :: 0 <= i < |path| - 1 ==> path[i] in used
  {
    if |path| > 1 {
      var init := path[..|path| - 1];
      assert Path(defs, body, init) by {
        assert forall i :: 0 <= i < |init| - 1 ==> Links(defs, path[i], path[i + 1]);
      }
      ClosedHoldsPaths(defs, body, used, init);
      var x, y := path[|path| - 2], path[|path| - 1];
      assert Links(defs, x, y);
      assert forall i :: 0 <= i < |init| - 1 ==> path[i] in used by {
        assert forall i :: 0 <= i < |init| - 1 ==> path[i] == init[i];
      }
    }
  }

  function Names(defs: seq<Definition>): set<string> {
    set d | d in defs && d.Id().Some? :: d.Id().value
  }

  // references(definition)
  method References(d: Definition) returns (names: seq<string>)
    ensures forall x :: x in names <==> RefersTo(d, x)
  {
    match d {
      case Other(_, markup) =>
        names := MarkupRefs(markup);
        MarkupRefsFound(markup);
        assert forall x :: Ref(x) in markup ==> x in names;
      case Gradient(_, _, attrs, href, stops) =>
        names := if href.Some? then [href.value] else [];
        var rest := attrs.Keys;
        while rest != {}
          invariant rest <= attrs.Keys
          invariant forall x :: x in names <==>
                      href == Some(x) || exists k :: k in attrs.Keys - rest && Ref(x) in attrs[k]
          decreases rest
        {
          var k :| k in rest;
          MarkupRefsFound(attrs[k]);
          assert forall x :: Ref(x) in attrs[k] ==> x in MarkupRefs(attrs[k]);
          names, rest := names + MarkupRefs(attrs[k]), rest - {k};
        }
        ghost var before := names;
        for i := 0 to |stops|
          invariant forall x :: x in names <==> x in before || exists k :: 0 <= k < i && Ref(x) in stops[k].markup
        {
          MarkupRefsFound(stops[i].markup);
          assert forall x :: Ref(x) in stops[i].markup ==> x in MarkupRefs(stops[i].markup);
          names := names + MarkupRefs(stops[i].markup);
        }
    }
  }

  // ----- The worklist of remove_unused -----

  // A reference that needs no further work: visited, waiting, or without a definition.
  ghost predicate Noted(defs: seq<Definition>, used: set<string>, pending: seq<string>, x: string) {
    x in used || x in pending || Lookup(defs, x).None?
  }

  ghost predicate Sweeping(defs: seq<Definition>, body: seq<Token>, used: set<string>, pending: seq<string>) {
    && (forall x :: x in used ==> x in Names(defs) && Reachable(defs, body, x))
    && (forall x :: x in pending ==> Reachable(defs, body, x))
    && (forall x :: Ref(x) in body ==> Noted(defs, used, pending, x))
    && (forall d, x :: d in defs && d.Id().Some? && d.Id().value in used && RefersTo(d, x) ==>
          Noted(defs, used, pending, x))
  }

  lemma SweepStarts(defs: seq<Definition>, body: seq<Token>)
    ensures Sweeping(defs, body, {}, MarkupRefs(body))
  {
    MarkupRefsFound(body);
    forall x | x in MarkupRefs(body) ensures Reachable(defs, body, x) {
      ReachFromBody(defs, body, x);
    }
    forall x | Ref(x) in body ensures Noted(defs, {}, MarkupRefs(body), x) {
      var i :| 0 <= i < |body| && body[i] == Ref(x);
    }
  }

  lemma SweepSkips(
    defs: seq<Definition>, body: seq<Token>, used: set<string>, pending: seq<string>, name: string)
    requires Sweeping(defs, body, used, pending + [name])
    requires name in used || Lookup(defs, name).None?
    ensures Sweeping(defs, body, used, pending)
  {
    assert forall x :: x in pending + [name] <==> x in pending || x == name;
    assert forall x :: Noted(defs, used, pending + [name], x) ==> Noted(defs, used, pending, x);
  }

  lemma SweepVisits(
    defs: seq<Definition>, body: seq<Token>, used: set<string>, pending: seq<string>,
    d: Definition, name: string, names: seq<string>)
    requires UniqueIds(defs) && Sweeping(defs, body, used, pending + [name])
    requires d in defs && d.Id() == Some(name)
    requires forall x :: x in names <==> RefersTo(d, x)
    ensures Sweeping(defs, body, used + {name}, pending + names)
  {
    var used', pending' := used + {name}, pending + names;
    assert forall x :: x in pending + [name] <==> x in pending || x == name;
    assert forall x :: x in pending' <==> x in pending || x in names;
    assert forall x :: Noted(defs, used, pending + [name], x) ==> Noted(defs, used', pending', x);
    forall x | x in names ensures Reachable(defs, body, x) {
      assert Links(defs, name, x);
      ReachFurther(defs, body, name, x);
    }
    OnlyDefinition(defs, d, name);
    forall e, x | e in defs && e.Id().Some? && e.Id().value in used' && RefersTo(e, x)
      ensures Noted(defs, used', pending', x)
    {
      if e.Id().value in used {
        assert Noted(defs, used, pending + [name], x);
      }
    }
  }

  lemma SweepDone(defs: seq<Definition>, body: seq<Token>, used: set<string>)
    requires Sweeping(defs, body, used, [])
    ensures Closed(defs, used) && RefsIn(body, Live(defs, used))
    ensures forall x :: x in used <==> x in Names(defs) && Reachable(defs, body, x)
  {
    assert forall x :: Noted(defs, used, [], x) <==> x in Live(defs, used);
    forall x | x in Names(defs) && Reachable(defs, body, x) ensures x in used {
      var path :| Path(defs, body, path) && path[|path| - 1] == x;
      ClosedHoldsPaths(defs, body, used, path);
      var d :| d in defs && d.Id() == Some(x);
    }
  }

  method FindUsed(defs: seq<Definition>, body: seq<Token>) returns (used: set<string>)
    requires UniqueIds(defs)
    ensures Closed(defs, used) && RefsIn(body, Live(defs, used))
    ensures forall x :: x in used <==> x in Names(defs) && Reachable(defs, body, x)
  {
    var pending := MarkupRefs(body);
    used := {};
    SweepStarts(defs, body);
    while pending != []
      invariant Sweeping(defs, body, used, pending)
      decreases Names(defs) - used, |pending|
    {
      var name := pending[|pending| - 1];
      assert pending == pending[..|pending| - 1] + [name];
      pending := pending[..|pending| - 1];
      var found := Lookup(defs, name);
      if name !in used && found.Some? {
        var names := References(found.value);
        SweepVisits(defs, body, used, pending, found.value, name, names);
        assert name in Names(defs) - used;
        used := used + {name};
        pending := pending + names;
      } else {
        SweepSkips(defs, body, used, pending, name);
      }
    }
    SweepDone(defs, body, used);
  }

  // Generated row, fade, mask and band names get short aliases.
  predicate Contains(s: string, part: string) {
    part <= s || (s != "" && Contains(s[1..], part))
  }

  predicate IsGenerated(name: string) {
    Contains(name, "-row-") || Contains(name, "-fade-") || Contains(name, "-mask-") || Contains(name, "-band-")
  }

  function ShortName(i: nat): string {
    "p" + Decimals.Text(i)
  }

  // Aliases are numbered in the order they were given out.
  ghost predicate NumberedAliases(aliases: map<string, string>, order: seq<string>) {
    && (forall x :: x in aliases <==> x in order)
    && (forall i :: 0 <= i < |order| ==> aliases[order[i]] == ShortName(i))
  }

  lemma AliasesDiffer(aliases: map<string, string>, order: seq<string>)
    requires NumberedAliases(aliases, order)
    ensures forall x, y :: x in aliases && y in aliases && aliases[x] == aliases[y] ==> x == y
  {
    forall x, y | x in aliases && y in aliases && aliases[x] == aliases[y] ensures x == y {
      var i :| 0 <= i < |order| && order[i] == x;
      var j :| 0 <= j < |order| && order[j] == y;
      NumberedOnce("p", i, j);
    }
  }

  lemma AliasesKeepApart(aliases: map<string, string>, order: seq<string>, defs: seq<Definition>)
    requires NumberedAliases(aliases, order) && Unmentioned(aliases.Values, defs)
    ensures KeepsApart(Pass(aliases, false), defs, Besides(aliases.Values))
  {
    var p, known := Pass(aliases, false), Besides(aliases.Values);
    UnmentionedIsBesides(aliases.Values, defs);
    AliasesDiffer(aliases, order);
  }

  function GeneratedNames(defs: seq<Definition>): set<string> {
    set x | x in Names(defs) && IsGenerated(x)
  }

  ghost function AliasNames(n: nat): set<string> {
    set i: nat | i < n :: ShortName(i)
  }

  lemma AliasesAreNumbered(aliases: map<string, string>, order: seq<string>)
    requires NumberedAliases(aliases, order)
    ensures aliases.Values == AliasNames(|order|)
  {
    forall v | v in aliases.Values ensures v in AliasNames(|order|) {
      var x :| x in aliases && aliases[x] == v;
      var i: nat :| i < |order| && order[i] == x;
    }
    forall v | v in AliasNames(|order|) ensures v in aliases.Values {
      var i: nat :| i < |order| && ShortName(i) == v;
      assert order[i] in aliases && aliases[order[i]] == v;
    }
  }

  // No two definitions share a generated name.
  ghost predicate GeneratedOnce(defs: seq<Definition>) {
    forall i, j :: 0 <= i < j < |defs| && defs[i].Id().Some? && defs[i].Id() == defs[j].Id() ==>
      !IsGenerated(defs[i].Id().value)
  }

  lemma {:induction false} NoDashes(s: string, part: string)
    requires part != "" && part[0] == '-' && forall i :: 0 <= i < |s| ==> s[i] != '-'
    ensures !Contains(s, part)
  {
    if s != "" {
      NoDashes(s[1..], part);
    }
  }

  lemma TemplatesAreNotGenerated(j: nat)
    ensures !IsGenerated(TemplateName(j))
  {
    var name := TemplateName(j);
    assert forall i :: 0 <= i < |name| ==> name[i] == (if i < 5 then "stops"[i] else Decimals.Text(j)[i - 5]);
    NoDashes(name, "-row-");
    NoDashes(name, "-fade-");
    NoDashes(name, "-mask-");
    NoDashes(name, "-band-");
  }

  // ----- Sharing stops -----

  predicate Sharable(d: Definition) {
    d.Gradient? && d.linear && d.stops != []
  }

  // No two linear gradients spell out the same stops.
  ghost predicate DistinctStops(defs: seq<Definition>) {
    forall i, j :: 0 <= i < j < |defs| && Sharable(defs[i]) && Sharable(defs[j]) ==>
      Markups(defs[i].stops) != Markups(defs[j].stops)
  }

  type Key = seq<seq<Token>>

  ghost predicate HasStops(defs: seq<Definition>, n: nat, i: nat, key: Key)
    requires n <= |defs|
  {
    i < n && Sharable(defs[i]) && Markups(defs[i].stops) == key
  }

  // The table of share_stops: which of the first `n` gradients have which stops.
  ghost predicate Grouped(defs: seq<Definition>, n: nat, keys: seq<Key>, groups: map<Key, seq<nat>>)
    requires n <= |defs|
  {
    && |keys| <= n
    && (forall i, j :: 0 <= i < j < |keys| ==> keys[i] != keys[j])
    && (forall key :: key in keys <==> key in groups)
    && (forall key, m :: key in groups && 0 <= m < |groups[key]| ==> HasStops(defs, n, groups[key][m], key))
    && (forall i :: 0 <= i < n && Sharable(defs[i]) ==>
          Markups(defs[i].stops) in groups && i in groups[Markups(defs[i].stops)])
    && (forall key :: key in groups ==> groups[key] != [])
  }

  function Lend(d: Definition, template: string): Definition
    requires d.Gradient?
  {
    d.(stops := [], href := Some(template))
  }

  ghost predicate IsLentKey(groups: map<Key, seq<nat>>, key: Key) {
    key in groups && |groups[key]| >= 2
  }

  // A gradient whose stops are shared so far.
  ghost predicate IsLent(d: Definition, done: seq<Key>, groups: map<Key, seq<nat>>) {
    Sharable(d) && Markups(d.stops) in done && IsLentKey(groups, Markups(d.stops))
  }

  ghost predicate Follows(before: seq<Definition>, now: seq<Definition>, lent: bool, i: nat)
    requires i < |before| <= |now|
  {
    if lent then exists home :: |before| <= home && Borrows(before[i], now[i], now, home) else now[i] == before[i]
  }

  // The document once the groups of the keys in `done` have been shared.
  ghost predicate Sharing(before: seq<Definition>, now: seq<Definition>, done: seq<Key>, groups: map<Key, seq<nat>>) {
    && |before| <= |now| <= |before| + |done|
    && (forall j :: |before| <= j < |now| ==>
          now[j].Gradient? && now[j] == Template(j, now[j].stops) && now[j].stops != []
          && Markups(now[j].stops) in done && IsLentKey(groups, Markups(now[j].stops)))
    && (forall i, j :: |before| <= i < j < |now| ==> Markups(now[i].stops) != Markups(now[j].stops))
    && (forall i :: 0 <= i < |before| ==>
          Follows(before, now, IsLent(before[i], done, groups), i))
  }

  // `next` is `now` after the members of one more group gave their stops to a template.
  ghost predicate Gave(
    before: seq<Definition>, now: seq<Definition>, next: seq<Definition>, key: Key, group: seq<nat>)
  {
    && group != [] && |next| == |now| + 1
    && (forall m :: 0 <= m < |group| ==> HasStops(before, |before|, group[m], key))
    && next[|now|] == Template(|now|, before[group[0]].stops)
    && (forall i :: 0 <= i < |now| ==>
          next[i] == if i in group && now[i].Gradient? then Lend(now[i], next[|now|].id) else now[i])
  }

  lemma OneFollows(
    before: seq<Definition>, now: seq<Definition>, next: seq<Definition>, key: Key, group: seq<nat>, lent: bool, i: nat)
    requires i < |before| <= |now| && Gave(before, now, next, key, group) && Follows(before, now, lent, i)
    requires lent ==> i !in group
    ensures Follows(before, next, lent || i in group, i)
  {
    if lent {
      var home :| |before| <= home && Borrows(before[i], now[i], now, home);
      assert home !in group;
      assert Borrows(before[i], next[i], next, home);
    } else if i in group {
      assert HasStops(before, |before|, i, key) && HasStops(before, |before|, group[0], key);
      assert Borrows(before[i], next[i], next, |now|);
    }
  }

  lemma ShareOne(
    before: seq<Definition>, now: seq<Definition>, next: seq<Definition>,
    keys: seq<Key>, groups: map<Key, seq<nat>>, k: nat)
    requires Grouped(before, |before|, keys, groups) && k < |keys| && Sharing(before, now, keys[..k], groups)
    requires IsLentKey(groups, keys[k]) && Gave(before, now, next, keys[k], groups[keys[k]])
    ensures Sharing(before, next, keys[..k + 1], groups)
  {
    var key, group := keys[k], groups[keys[k]];
    assert forall x :: x in keys[..k + 1] <==> x in keys[..k] || x == key;
    assert key !in keys[..k];
    assert HasStops(before, |before|, group[0], key);
    forall i | 0 <= i < |before| ensures Follows(before, next, IsLent(before[i], keys[..k + 1], groups), i) {
      var lent := IsLent(before[i], keys[..k], groups);
      if i in group {
        assert HasStops(before, |before|, i, key);
      }
      OneFollows(before, now, next, key, group, lent, i);
      assert IsLent(before[i], keys[..k + 1], groups) <==> lent || i in group;
    }
    forall j | |before| <= j < |now| ensures next[j] == now[j] {
      assert j !in group;
    }
  }

  lemma MembersShare(before: seq<Definition>, now: seq<Definition>, keys: seq<Key>, groups: map<Key, seq<nat>>, k: nat)
    requires Grouped(before, |before|, keys, groups) && k < |keys| && Sharing(before, now, keys[..k], groups)
    ensures keys[k] in groups && groups[keys[k]] != []
    ensures forall m :: 0 <= m < |groups[keys[k]]| ==>
              groups[keys[k]][m] < |before| && Sharable(before[groups[keys[k]][m]])
              && now[groups[keys[k]][m]] == before[groups[keys[k]][m]]
  {
    assert keys[k] in keys;
    var group := groups[keys[k]];
    forall m | 0 <= m < |group|
      ensures group[m] < |before| && Sharable(before[group[m]]) && now[group[m]] == before[group[m]]
    {
      assert HasStops(before, |before|, group[m], keys[k]);
      assert !IsLent(before[group[m]], keys[..k], groups);
    }
  }

  lemma SkipOne(before: seq<Definition>, now: seq<Definition>, keys: seq<Key>, groups: map<Key, seq<nat>>, k: nat)
    requires k < |keys| && Sharing(before, now, keys[..k], groups)
    requires keys[k] in groups && |groups[keys[k]]| < 2
    ensures Sharing(before, now, keys[..k + 1], groups)
  {
    assert forall x :: x in keys[..k + 1] <==> x in keys[..k] || x == keys[k];
    assert forall i :: 0 <= i < |before| ==>
      (IsLent(before[i], keys[..k + 1], groups) <==> IsLent(before[i], keys[..k], groups));
  }

  lemma TwinsAreLent(before: seq<Definition>, keys: seq<Key>, groups: map<Key, seq<nat>>, i: nat, j: nat)
    requires Grouped(before, |before|, keys, groups) && i < j < |before|
    requires Sharable(before[i]) && Sharable(before[j]) && Markups(before[i].stops) == Markups(before[j].stops)
    ensures IsLent(before[i], keys, groups)
  {
    var group := groups[Markups(before[i].stops)];
    assert i in group && j in group;
  }

  lemma SharingDone(before: seq<Definition>, now: seq<Definition>, keys: seq<Key>, groups: map<Key, seq<nat>>)
    requires Grouped(before, |before|, keys, groups) && Sharing(before, now, keys, groups)
    ensures Shared(before, now) && DistinctStops(now)
  {
    forall i, j | 0 <= i < j < |now| && Sharable(now[i]) && Sharable(now[j])
      ensures Markups(now[i].stops) != Markups(now[j].stops)
    {
      if i < |before| && Markups(now[i].stops) == Markups(now[j].stops) {
        if j < |before| && !IsLent(before[i], keys, groups) && !IsLent(before[j], keys, groups) {
          TwinsAreLent(before, keys, groups, i, j);
        }
      }
    }
  }

  // Every template lends its stops to some gradient.
  ghost predicate AllBorrowed(before: seq<Definition>, now: seq<Definition>) {
    forall j :: |before| <= j < |now| ==> Borrowed(before, now, j)
  }

  ghost predicate Borrowed(before: seq<Definition>, now: seq<Definition>, j: nat) {
    exists i :: 0 <= i < |before| && i < |now| && Borrows(before[i], now[i], now, j)
  }

  lemma TemplatesAreBorrowed(
    before: seq<Definition>, now: seq<Definition>, keys: seq<Key>, groups: map<Key, seq<nat>>)
    requires Grouped(before, |before|, keys, groups) && Sharing(before, now, keys, groups)
    ensures AllBorrowed(before, now)
  {
    forall j | |before| <= j < |now| ensures Borrowed(before, now, j) {
      var key := Markups(now[j].stops);
      var o := groups[key][0];
      assert HasStops(before, |before|, o, key);
      assert Follows(before, now, IsLent(before[o], keys, groups), o);
      var home :| |before| <= home && Borrows(before[o], now[o], now, home);
      assert home == j;
    }
  }

  // Every name after sharing was there before, or is that of a template.
  lemma SharingNames(
    before: seq<Definition>, body: seq<Token>, now: seq<Definition>, keys: seq<Key>, groups: map<Key, seq<nat>>)
    requires Grouped(before, |before|, keys, groups) && Sharing(before, now, keys, groups)
    ensures NewNames(before, body, now, body, TemplateNames(|before|, |now|))
  {
    var taken := TemplateNames(|before|, |now|);
    forall j: nat | |before| <= j < |now| ensures now[j].Id() == Some(TemplateName(j)) && TemplateName(j) in taken {
    }
    forall x, d | d in now && (d.Id() == Some(x) || RefersTo(d, x)) ensures x in taken || Mentions(before, x) {
      var i :| 0 <= i < |now| && now[i] == d;
      if i < |before| {
        SharedMentions(before, now, keys, groups, i, x);
      } else if RefersTo(d, x) {
        TemplateMentions(before, now, keys, groups, i, x);
      }
    }
  }

  lemma SharedMentions(
    before: seq<Definition>, now: seq<Definition>, keys: seq<Key>, groups: map<Key, seq<nat>>, i: nat, x: string)
    requires Sharing(before, now, keys, groups) && i < |before|
    requires now[i].Id() == Some(x) || RefersTo(now[i], x)
    ensures x in TemplateNames(|before|, |now|) || Mentions(before, x)
  {
    assert before[i] in before;
    assert before[i].Id() == Some(x) || RefersTo(before[i], x) ==> Mentions(before, x);
    if IsLent(before[i], keys, groups) {
      var home :| |before| <= home && Borrows(before[i], now[i], now, home);
      assert now[home].id == TemplateName(home);
    }
  }

  lemma TemplateMentions(
    before: seq<Definition>, now: seq<Definition>, keys: seq<Key>, groups: map<Key, seq<nat>>, i: nat, x: string)
    requires Grouped(before, |before|, keys, groups) && Sharing(before, now, keys, groups)
    requires |before| <= i < |now| && RefersTo(now[i], x)
    ensures Mentions(before, x)
  {
    var stops := now[i].stops;
    var key := Markups(stops);
    var o := groups[key][0];
    assert o in groups[key] && Markups(before[o].stops) == key;
    var m :| 0 <= m < |stops| && Ref(x) in stops[m].markup;
    assert key[m] == stops[m].markup == before[o].stops[m].markup;
    assert before[o] in before && RefersTo(before[o], x);
  }

  lemma GroupMore(
    defs: seq<Definition>, n: nat, keys: seq<Key>, groups: map<Key, seq<nat>>,
    keys': seq<Key>, groups': map<Key, seq<nat>>)
    requires n < |defs| && Sharable(defs[n]) && Grouped(defs, n, keys, groups)
    requires var key := Markups(defs[n].stops);
      if key in groups then keys' == keys && groups' == groups[key := groups[key] + [n]]
      else keys' == keys + [key] && groups' == groups[key := [n]]
    ensures Grouped(defs, n + 1, keys', groups')
  {
    var key := Markups(defs[n].stops);
    assert forall x :: x in keys' <==> x in keys || x == key;
    assert forall i :: i in groups'[key] <==> i == n || (key in groups && i in groups[key]);
    forall i, j | 0 <= i < j < |keys'| ensures keys'[i] != keys'[j] {
      assert keys'[i] in keys;
    }
  }

  lemma SharingIsSound(before: seq<Definition>, body: seq<Token>, now: seq<Definition>, taken: set<string>)
    requires Plain(before) && Shared(before, now)
    requires taken == TemplateNames(|before|, |now|) && Unused(taken, before, body)
    ensures UniqueIds(now) && SamePaintings(before, body, now, body)
  {
    UnusedIsBesides(taken, before, body);
    SharedIds(before, now, taken);
    SharingCorresponds(before, now, taken);
    CorrespondingPaintings(before, body, now, Pass(map[], false), Besides(taken));
    assert Pass(map[], false).ApplyAll(body) == body;
  }

  lemma SharedNames(before: seq<Definition>, now: seq<Definition>)
    requires Shared(before, now)
    ensures Names(now) == Names(before) + TemplateNames(|before|, |now|)
  {
    forall j: nat | |before| <= j < |now|
      ensures now[j].Id() == Some(TemplateName(j)) && TemplateName(j) in Names(now)
    {
      assert now[j] in now;
    }
    forall x | x in Names(before) ensures x in Names(now) {
      var i :| 0 <= i < |before| && before[i].Id() == Some(x);
      assert now[i] in now && now[i].Id() == Some(x);
    }
    forall x | x in Names(now) ensures x in Names(before) || x in TemplateNames(|before|, |now|) {
      var i :| 0 <= i < |now| && now[i].Id() == Some(x);
      if i < |before| {
        assert before[i] in before && before[i].Id() == Some(x);
      }
    }
  }

  // Even when a template takes a name that was in use, generated names stay apart.
  lemma SharedGeneratedOnce(before: seq<Definition>, now: seq<Definition>)
    requires UniqueIds(before) && Shared(before, now)
    ensures GeneratedOnce(now)
  {
    forall i, j | 0 <= i < j < |now| && now[i].Id().Some? && now[i].Id() == now[j].Id()
      ensures !IsGenerated(now[i].Id().value)
    {
      if j >= |before| {
        assert now[j].Id() == Some(TemplateName(j));
        TemplatesAreNotGenerated(j);
      }
    }
  }

  lemma OneMoreAlias(aliases: map<string, string>, order: seq<string>, name: string)
    requires NumberedAliases(aliases, order) && |aliases| == |order| && name !in aliases
    ensures NumberedAliases(aliases[name := ShortName(|aliases|)], order + [name])
  {
    var more := order + [name];
    assert forall x :: x in more <==> x in order || x == name;
    forall i | 0 <= i < |more| ensures aliases[name := ShortName(|aliases|)][more[i]] == ShortName(i) {
      assert i < |order| ==> more[i] == order[i] && order[i] in order;
    }
  }

  lemma NewGeneratedId(defs: seq<Definition>, i: nat)
    requires i < |defs| && GeneratedOnce(defs)
    ensures defs[i].Id().Some? && IsGenerated(defs[i].Id().value) ==> defs[i].Id().value !in Names(defs[..i])
    ensures Names(defs[..i + 1]) == Names(defs[..i]) + if defs[i].Id().Some? then {defs[i].Id().value} else {}
  {
    assert defs[..i + 1] == defs[..i] + [defs[i]];
    NamesSnoc(defs[..i], defs[i]);
    if defs[i].Id().Some? && defs[i].Id().value in Names(defs[..i]) {
      var e :| e in defs[..i] && e.Id() == defs[i].Id();
      var k :| 0 <= k < i && defs[..i][k] == e;
    }
  }

  // The generated names of the definitions are those with aliases.
  ghost predicate ShortlyNamed(defs: seq<Definition>, aliases: map<string, string>, order: seq<string>) {
    && NumberedAliases(aliases, order) && |aliases| == |order|
    && forall x :: x in aliases <==> x in Names(defs) && IsGenerated(x)
  }

  lemma NameShortly(defs: seq<Definition>, i: nat, aliases: map<string, string>, order: seq<string>)
    requires i < |defs| && GeneratedOnce(defs) && ShortlyNamed(defs[..i], aliases, order)
    ensures var id := defs[i].Id();
      if id.Some? && IsGenerated(id.value)
      then ShortlyNamed(defs[..i + 1], aliases[id.value := ShortName(|aliases|)], order + [id.value])
      else ShortlyNamed(defs[..i + 1], aliases, order)
  {
    NewGeneratedId(defs, i);
    if defs[i].Id().Some? && IsGenerated(defs[i].Id().value) {
      OneMoreAlias(aliases, order, defs[i].Id().value);
    }
  }

  lemma RenamingIsSound(defs: seq<Definition>, body: seq<Token>, aliases: map<string, string>, order: seq<string>)
    requires UniqueIds(defs) && NumberedAliases(aliases, order) && Unused(aliases.Values, defs, body)
    ensures var p := Pass(aliases, false);
            UniqueIds(RenamedAll(p, defs)) && SamePaintings(defs, body, RenamedAll(p, defs), p.ApplyAll(body))
  {
    var p, known := Pass(aliases, false), Besides(aliases.Values);
    UnusedIsBesides(aliases.Values, defs, body);
    UnmentionedIsBesides(aliases.Values, defs);
    AliasesKeepApart(aliases, order, defs);
    RenamingCorresponds(p, defs, known);
    CorrespondingPaintings(defs, body, RenamedAll(p, defs), p, known);
    RenamedIds(p, defs, order);
  }

  lemma RenamedIds(p: Pass, defs: seq<Definition>, order: seq<string>)
    requires UniqueIds(defs) && NumberedAliases(p.aliases, order) && Unmentioned(p.aliases.Values, defs)
    requires KeepsApart(p, defs, Besides(p.aliases.Values))
    ensures UniqueIds(RenamedAll(p, defs))
  {
    var after := RenamedAll(p, defs);
    forall i | 0 <= i < |after|
      ensures after[i].Id() == if defs[i].Id().Some? then Some(p.Alias(defs[i].Id().value)) else None
      ensures after[i].Id() != Some("")
    {
      if defs[i].Id().Some? && defs[i].Id().value in p.aliases {
        var k :| 0 <= k < |order| && order[k] == defs[i].Id().value;
      }
    }
    UnmentionedIsBesides(p.aliases.Values, defs);
    forall i, j | 0 <= i < j < |after| && after[i].Id().Some? ensures after[i].Id() != after[j].Id() {
      assert defs[i] in defs && defs[j] in defs;
    }
  }

  // ----- The document -----

  // No two gradients look the same.
  ghost predicate DistinctSignatures(defs: seq<Definition>) {
    forall i, j :: 0 <= i < j < |defs| && defs[i].Gradient? && defs[j].Gradient? ==>
      Signature(defs[i]) != Signature(defs[j])
  }

  // The scan of the deduplication: what was kept and what got an alias so far ...
  ghost predicate Covered(done: seq<Definition>, kept: seq<Definition>, aliases: map<string, string>) {
    && (forall d :: d in kept ==> d in done && (d.Id().Some? ==> d.Id().value !in aliases))
    && (forall x {:trigger x in Names(done)} :: x in aliases ==> x in Names(done))
    && (forall d :: d in done && d !in kept ==>
          d.Gradient? && d.id in aliases && Stands(kept, aliases[d.id], Signature(d)))
  }

  // ... and the table of signatures.
  ghost predicate Tabled(kept: seq<Definition>, seen: map<Definition, string>) {
    && (forall key :: key in seen ==> Stands(kept, seen[key], key))
    && (forall d :: d in kept && d.Gradient? ==> Signature(d) in seen)
  }

  lemma NewId(defs: seq<Definition>, i: nat)
    requires i < |defs| && UniqueIds(defs)
    ensures forall e :: e in defs[..i] && e.Id().Some? ==> e.Id() != defs[i].Id()
    ensures defs[i].Id().Some? ==> defs[i].Id().value !in Names(defs[..i])
    ensures defs[..i + 1] == defs[..i] + [defs[i]]
    ensures Names(defs[..i + 1]) == Names(defs[..i]) + if defs[i].Id().Some? then {defs[i].Id().value} else {}
  {
    forall e | e in defs[..i] && e.Id().Some? ensures e.Id() != defs[i].Id() {
      var k :| 0 <= k < i && defs[..i][k] == e;
    }
    assert defs[..i + 1] == defs[..i] + [defs[i]];
  }

  lemma NamesSnoc(defs: seq<Definition>, d: Definition)
    ensures Names(defs + [d]) == Names(defs) + if d.Id().Some? then {d.Id().value} else {}
  {
    var all := defs + [d];
    assert forall e :: e in all <==> e in defs || e == d;
    assert forall x :: x in Names(defs) ==> x in Names(all) by {
      forall x | x in Names(defs) ensures x in Names(all) {
        var e :| e in defs && e.Id() == Some(x);
        assert e in all;
      }
    }
    assert d in all;
  }

  lemma StandsStill(kept: seq<Definition>, d: Definition, id: string, key: Definition)
    requires Stands(kept, id, key)
    ensures Stands(kept + [d], id, key)
  {
    var e :| e in kept && e.Gradient? && e.id == id && Signature(e) == key;
    assert e in kept + [d];
  }

  lemma CoveredKeep(done: seq<Definition>, kept: seq<Definition>, aliases: map<string, string>, d: Definition)
    requires Covered(done, kept, aliases) && (d.Id().Some? ==> d.Id().value !in Names(done))
    ensures Covered(done + [d], kept + [d], aliases)
  {
    assert Names(done) <= Names(done + [d]);
    forall e | e in done + [d] && e !in kept + [d]
      ensures e.Gradient? && e.id in aliases && Stands(kept + [d], aliases[e.id], Signature(e))
    {
      assert e !in kept && e != d by {
        assert forall x :: x in kept + [d] <==> x in kept || x == d;
      }
      StandsStill(kept, d, aliases[e.id], Signature(e));
    }
  }

  lemma CoveredDrop(
    done: seq<Definition>, kept: seq<Definition>, aliases: map<string, string>, d: Definition, target: string)
    requires Covered(done, kept, aliases) && d.Gradient? && d.id !in Names(done) && Stands(kept, target, Signature(d))
    ensures Covered(done + [d], kept, aliases[d.id := target])
  {
    NamesSnoc(done, d);
    forall e | e in done && e.Id().Some? ensures e.Id().value != d.id {
      assert e.Id().value in Names(done);
    }
  }

  lemma TabledKeep(kept: seq<Definition>, seen: map<Definition, string>, d: Definition)
    requires Tabled(kept, seen)
    ensures Tabled(kept + [d], if d.Gradient? then seen[Signature(d) := d.id] else seen)
  {
    var more := kept + [d];
    assert forall x :: x in more <==> x in kept || x == d;
    forall key | key in seen ensures Stands(more, seen[key], key) {
      StandsStill(kept, d, seen[key], key);
    }
    if d.Gradient? {
      assert Stands(more, d.id, Signature(d));
    }
  }

  lemma UniqueSnoc(kept: seq<Definition>, d: Definition)
    requires UniqueIds(kept) && d.Id() != Some("")
    requires forall e :: e in kept && e.Id().Some? ==> e.Id() != d.Id()
    ensures UniqueIds(kept + [d])
  {
    var more := kept + [d];
    assert forall i :: 0 <= i < |kept| ==> more[i] == kept[i] && kept[i] in kept;
  }

  lemma DistinctSignaturesSnoc(kept: seq<Definition>, d: Definition)
    requires DistinctSignatures(kept)
    requires d.Gradient? ==> forall e :: e in kept && e.Gradient? ==> Signature(e) != Signature(d)
    ensures DistinctSignatures(kept + [d])
  {
    var more := kept + [d];
    assert forall i :: 0 <= i < |kept| ==> more[i] == kept[i] && kept[i] in kept;
  }

  lemma AppliedRefs(p: Pass, tokens: seq<Token>, y: string)
    ensures Ref(y) in p.ApplyAll(tokens) ==> exists x :: Ref(x) in tokens && p.Alias(x) == y
  {
    if Ref(y) in p.ApplyAll(tokens) {
      var i :| 0 <= i < |tokens| && p.ApplyAll(tokens)[i] == Ref(y);
      assert tokens[i].Ref? && Ref(tokens[i].id) in tokens && p.Alias(tokens[i].id) == y;
    }
  }

  lemma AppliedDefRefs(p: Pass, d: Definition, y: string) returns (x: string)
    requires RefersTo(ApplyDef(p, d), y)
    ensures RefersTo(d, x) && p.Alias(x) == y
  {
    match d
    case Other(_, markup) =>
      AppliedRefs(p, markup, y);
      x :| Ref(x) in markup && p.Alias(x) == y;
    case Gradient(_, _, attrs, href, stops) =>
      if href.Some? && p.Alias(href.value) == y {
        x := href.value;
      } else if k :| k in attrs && Ref(y) in p.ApplyAll(attrs[k]) {
        AppliedRefs(p, attrs[k], y);
        x :| Ref(x) in attrs[k] && p.Alias(x) == y;
      } else {
        var i :| 0 <= i < |stops| && Ref(y) in ApplyDef(p, d).stops[i].markup;
        AppliedRefs(p, stops[i].markup, y);
        x :| Ref(x) in stops[i].markup && p.Alias(x) == y;
      }
  }

  // Redirecting duplicates introduces no name.
  lemma RedirectingNames(defs: seq<Definition>, body: seq<Token>, kept: seq<Definition>, aliases: map<string, string>)
    requires Deduplicated(defs, kept, aliases)
    ensures NewNames(defs, body, ApplyDefs(Pass(aliases, false), kept), Pass(aliases, false).ApplyAll(body), {})
  {
    var p := Pass(aliases, false);
    var after := ApplyDefs(p, kept);
    forall x, y | p.Alias(x) == y && Uses(defs, body, x) ensures Uses(defs, body, y) {
      if x in aliases {
        var d :| d in defs && d.Id() == Some(x);
        assert d !in kept;
        var e :| e in kept && e.Gradient? && e.id == aliases[d.id] && Signature(e) == Signature(d);
        assert e in defs && e.Id() == Some(y);
      }
    }
    forall y | Uses(after, p.ApplyAll(body), y) ensures Uses(defs, body, y) {
      if Ref(y) in p.ApplyAll(body) {
        AppliedRefs(p, body, y);
        var x :| Ref(x) in body && p.Alias(x) == y;
        assert Uses(defs, body, x);
      } else {
        var i, e :| 0 <= i < |after| && e == after[i] && (e.Id() == Some(y) || RefersTo(e, y));
        assert kept[i] in defs;
        if RefersTo(e, y) {
          var x := AppliedDefRefs(p, kept[i], y);
          assert Mentions(defs, x) && Uses(defs, body, x);
        }
      }
    }
  }

  lemma RedirectedNames(defs: seq<Definition>, kept: seq<Definition>, aliases: map<string, string>)
    requires Represented(defs, kept, aliases)
    ensures Names(ApplyDefs(Pass(aliases, false), kept)) <= Names(defs)
  {
    var after := ApplyDefs(Pass(aliases, false), kept);
    forall x | x in Names(after) ensures x in Names(defs) {
      var i :| 0 <= i < |after| && after[i].Id() == Some(x);
      assert kept[i] in kept && kept[i].Id() == Some(x);
    }
  }

  lemma RedirectingIsSound(
    defs: seq<Definition>, body: seq<Token>, kept: seq<Definition>, aliases: map<string, string>)
    requires Plain(defs) && Deduplicated(defs, kept, aliases) && UniqueIds(kept)
    ensures var p := Pass(aliases, false);
      && Plain(ApplyDefs(p, kept))
      && NewNames(defs, body, ApplyDefs(p, kept), p.ApplyAll(body), {})
      && SamePaintings(defs, body, ApplyDefs(p, kept), p.ApplyAll(body))
  {
    DeduplicationCorresponds(defs, kept, aliases);
    CorrespondingPaintings(defs, body, ApplyDefs(Pass(aliases, false), kept), Pass(aliases, false), Everything());
    RedirectingNames(defs, body, kept, aliases);
    RedirectedIsPlain(defs, kept, aliases);
  }

  lemma RedirectedIsPlain(defs: seq<Definition>, kept: seq<Definition>, aliases: map<string, string>)
    requires Plain(defs) && Represented(defs, kept, aliases) && UniqueIds(kept)
    ensures Plain(ApplyDefs(Pass(aliases, false), kept))
  {
    assert forall i :: 0 <= i < |kept| ==> kept[i] in kept;
  }

  // The scan of deduplicate_gradients.
  ghost predicate Scanning(
    done: seq<Definition>, kept: seq<Definition>, aliases: map<string, string>, seen: map<Definition, string>)
  {
    Covered(done, kept, aliases) && Tabled(kept, seen) && UniqueIds(kept) && DistinctSignatures(kept)
  }

  lemma ScanDrops(
    defs: seq<Definition>, i: nat, kept: seq<Definition>, aliases: map<string, string>, seen: map<Definition, string>)
    requires UniqueIds(defs) && i < |defs| && Scanning(defs[..i], kept, aliases, seen)
    requires defs[i].Gradient? && Signature(defs[i]) in seen
    ensures Scanning(defs[..i + 1], kept, aliases[defs[i].id := seen[Signature(defs[i])]], seen)
  {
    NewId(defs, i);
    CoveredDrop(defs[..i], kept, aliases, defs[i], seen[Signature(defs[i])]);
  }

  lemma ScanKeeps(
    defs: seq<Definition>, i: nat, kept: seq<Definition>, aliases: map<string, string>, seen: map<Definition, string>)
    requires UniqueIds(defs) && i < |defs| && Scanning(defs[..i], kept, aliases, seen)
    requires defs[i].Gradient? ==> Signature(defs[i]) !in seen
    ensures Scanning(defs[..i + 1], kept + [defs[i]], aliases,
                     if defs[i].Gradient? then seen[Signature(defs[i]) := defs[i].id] else seen)
  {
    NewId(defs, i);
    CoveredKeep(defs[..i], kept, aliases, defs[i]);
    TabledKeep(kept, seen, defs[i]);
    UniqueSnoc(kept, defs[i]);
    DistinctSignaturesSnoc(kept, defs[i]);
  }

  lemma SweepNames(defs: seq<Definition>, body: seq<Token>, kept: seq<Definition>, used: set<string>)
    requires Plain(defs) && kept == Keep(d => Kept(used, d), defs)
    ensures Plain(kept) && NewNames(defs, body, kept, body, {})
    ensures Names(kept) <= Names(defs) && |kept| <= |defs|
  {
    KeepIsUnique(defs, kept, used);
  }

  lemma SweepIsSound(defs: seq<Definition>, body: seq<Token>, kept: seq<Definition>, used: set<string>)
    requires Plain(defs) && Closed(defs, used) && RefsIn(body, Live(defs, used))
    requires UniqueIds(kept) && forall d :: d in kept <==> d in defs && Kept(used, d)
    ensures SamePaintings(defs, body, kept, body)
  {
    SweepCorresponds(defs, kept, used);
    CorrespondingPaintings(defs, body, kept, Pass(map[], false), Live(defs, used));
    assert Pass(map[], false).ApplyAll(body) == body;
  }

  lemma ScanEnds(
    defs: seq<Definition>, kept: seq<Definition>, aliases: map<string, string>, seen: map<Definition, string>)
    requires Scanning(defs, kept, aliases, seen)
    ensures Deduplicated(defs, kept, aliases) && DistinctSignatures(kept) && UniqueIds(kept)
  {
    forall x | x in aliases ensures exists d :: d in defs && d.Id() == Some(x) {
      assert x in Names(defs);
    }
  }

  datatype Scan = Scan(kept: seq<Definition>, aliases: map<string, string>, seen: map<Definition, string>)

  function ScanOne(s: Scan, d: Definition): Scan {
    if !d.Gradient? then s.(kept := s.kept + [d])
    else if Signature(d) in s.seen then s.(aliases := s.aliases[d.id := s.seen[Signature(d)]])
    else s.(kept := s.kept + [d], seen := s.seen[Signature(d) := d.id])
  }

  function ScanAll(defs: seq<Definition>): Scan {
    if defs == [] then Scan([], map[], map[]) else ScanOne(ScanAll(defs[..|defs| - 1]), defs[|defs| - 1])
  }

  lemma {:induction false} ScanIsFaithful(defs: seq<Definition>)
    requires UniqueIds(defs)
    ensures var s := ScanAll(defs); Scanning(defs, s.kept, s.aliases, s.seen) && |s.kept| <= |defs|
  {
    if defs != [] {
      var n := |defs| - 1;
      var s := ScanAll(defs[..n]);
      ScanIsFaithful(defs[..n]);
      assert defs[..n + 1] == defs;
      if defs[n].Gradient? && Signature(defs[n]) in s.seen {
        ScanDrops(defs, n, s.kept, s.aliases, s.seen);
      } else {
        ScanKeeps(defs, n, s.kept, s.aliases, s.seen);
      }
    }
  }

  predicate Unaliased(aliases: map<string, string>, d: Definition) {
    d.Gradient? ==> d.id !in aliases
  }

  lemma LastIsUnaliased(init: seq<Definition>, last: Definition, s: Scan)
    requires UniqueIds(init + [last]) && s == ScanAll(init)
    ensures last.Gradient? ==> last.id !in s.aliases
    ensures forall d :: d in init ==> Unaliased(s.aliases, d) == Unaliased(ScanOne(s, last).aliases, d)
  {
    var defs := init + [last];
    assert UniqueIds(init) by {
      assert forall i :: 0 <= i < |init| ==> defs[i] == init[i];
    }
    ScanIsFaithful(init);
    NewId(defs, |init|);
    assert defs[..|init|] == init;
  }

  // What the scan keeps is all that gets no alias, in order.
  lemma {:induction false} ScanInOrder(defs: seq<Definition>)
    requires UniqueIds(defs)
    ensures var s := ScanAll(defs); s.kept == Keep(d => Unaliased(s.aliases, d), defs)
  {
    if defs != [] {
      var init, last := defs[..|defs| - 1], defs[|defs| - 1];
      var s, s' := ScanAll(init), ScanAll(defs);
      assert defs == init + [last] && s' == ScanOne(s, last);
      ScanInOrder(init);
      LastIsUnaliased(init, last, s);
      KeepSame(d => Unaliased(s.aliases, d), d => Unaliased(s'.aliases, d), init);
    }
  }

  method WithoutDuplicates(defs: seq<Definition>) returns (kept: seq<Definition>, aliases: map<string, string>)
    requires UniqueIds(defs)
    ensures Deduplicated(defs, kept, aliases) && DistinctSignatures(kept) && UniqueIds(kept) && |kept| <= |defs|
    ensures kept == Keep(d => Unaliased(aliases, d), defs)
  {
    var seen: map<Definition, string>;
    kept, aliases, seen := [], map[], map[];
    for i := 0 to |defs|
      invariant Scan(kept, aliases, seen) == ScanAll(defs[..i])
    {
      PrefixStep(defs, i);
      var d := defs[i];
      if d.Gradient? && Signature(d) in seen {
        aliases := aliases[d.id := seen[Signature(d)]];
      } else {
        kept := kept + [d];
        if d.Gradient? {
          seen := seen[Signature(d) := d.id];
        }
      }
    }
    assert defs[..|defs|] == defs;
    ScanIsFaithful(defs);
    ScanInOrder(defs);
    ScanEnds(defs, kept, aliases, seen);
  }

  class SvgDocument {
    var defs: seq<Definition>
    var body: seq<Token>

    constructor (defs: seq<Definition>, body: seq<Token>)
      ensures this.defs == defs && this.body == body
    {
      this.defs, this.body := defs, body;
    }

    // rewrite_references, and with `shorten` the loop over scalar attributes
    method Rewrite(p: Pass)
      modifies this
      ensures defs == ApplyDefs(p, old(defs)) && body == p.ApplyAll(old(body))
    {
      for i := 0 to |defs|
        invariant |defs| == |old(defs)| && body == old(body)
        invariant forall k :: 0 <= k < i ==> defs[k] == ApplyDef(p, old(defs)[k])
        invariant forall k :: i <= k < |defs| ==> defs[k] == old(defs)[k]
      {
        defs := defs[i := ApplyDef(p, defs[i])];
      }
      body := p.ApplyAll(body);
    }

    // deduplicate_gradients
    method DeduplicateGradients() returns (ghost kept: seq<Definition>, ghost aliases: map<string, string>)
      requires Plain(defs)
      modifies this
      ensures Deduplicated(old(defs), kept, aliases) && DistinctSignatures(kept) && UniqueIds(kept)
      ensures defs == ApplyDefs(Pass(aliases, false), kept) && kept == Keep(d => Unaliased(aliases, d), old(defs))
      ensures Plain(defs) && NewNames(old(defs), old(body), defs, body, {})
      ensures Names(defs) <= Names(old(defs)) && |defs| <= |old(defs)|
      ensures SamePaintings(old(defs), old(body), defs, body)
    {
      var rest, names := WithoutDuplicates(defs);
      kept, aliases := rest, names;
      RedirectingIsSound(defs, body, kept, aliases);
      RedirectedNames(defs, kept, aliases);
      defs := rest;
      Rewrite(Pass(names, false));
    }

    // remove_unused: what stays is exactly what the body can reach, and whatever has no name.
    method RemoveUnused() returns (ghost used: set<string>)
      requires Plain(defs)
      modifies this`defs
      ensures defs == Keep(d => Kept(used, d), old(defs))
      ensures forall d :: d in defs <==>
                d in old(defs) && (d.Id().Some? ==> Reachable(old(defs), body, d.Id().value))
      ensures Plain(defs) && NewNames(old(defs), body, defs, body, {})
      ensures Names(defs) <= Names(old(defs)) && |defs| <= |old(defs)|
      ensures SamePaintings(old(defs), body, defs, body)
    {
      var found := FindUsed(defs, body);
      used := found;
      var kept := Keep(d => Kept(found, d), defs);
      SweepNames(defs, body, kept, used);
      SweepIsSound(defs, body, kept, used);
      defs := kept;
    }

    // The first loop of share_stops.
    method GroupStops() returns (keys: seq<Key>, groups: map<Key, seq<nat>>)
      ensures Grouped(defs, |defs|, keys, groups)
    {
      keys, groups := [], map[];
      for i := 0 to |defs|
        invariant Grouped(defs, i, keys, groups)
      {
        if Sharable(defs[i]) {
          var key := Markups(defs[i].stops);
          ghost var oldKeys, oldGroups := keys, groups;
          if key in groups {
            groups := groups[key := groups[key] + [i]];
          } else {
            keys, groups := keys + [key], groups[key := [i]];
          }
          GroupMore(defs, i, oldKeys, oldGroups, keys, groups);
        }
      }
    }

    // One round of the second loop: the template takes the stops, and the group borrows them.
    method ShareGroup(group: seq<nat>)
      requires group != [] && forall k :: 0 <= k < |group| ==> group[k] < |defs| && defs[group[k]].Gradient?
      modifies this`defs
      ensures |defs| == |old(defs)| + 1
      ensures defs[|old(defs)|] == Template(|old(defs)|, old(defs)[group[0]].stops)
      ensures forall i :: 0 <= i < |old(defs)| ==>
                defs[i] == if i in group && old(defs)[i].Gradient?
                           then Lend(old(defs)[i], defs[|old(defs)|].id) else old(defs)[i]
    {
      var template := Template(|defs|, defs[group[0]].stops);
      ghost var n := |defs|;
      defs := defs + [template];
      for k := 0 to |group|
        invariant |defs| == n + 1 && n == |old(defs)| && defs[n] == template
        invariant forall i :: 0 <= i < n ==>
                    defs[i] == if i in group[..k] && old(defs)[i].Gradient?
                               then Lend(old(defs)[i], template.id) else old(defs)[i]
      {
        assert group[k] in group && group[..k + 1] == group[..k] + [group[k]];
        defs := defs[group[k] := Lend(defs[group[k]], template.id)];
      }
      assert group[..|group|] == group;
    }

    // share_stops
    method ShareStops() returns (ghost taken: set<string>)
      requires Plain(defs)
      modifies this`defs
      ensures Shared(old(defs), defs) && AllBorrowed(old(defs), defs)
      ensures DistinctStops(defs) && |defs| <= 2 * |old(defs)|
      ensures taken == TemplateNames(|old(defs)|, |defs|) && NewNames(old(defs), body, defs, body, taken)
      ensures Names(defs) == Names(old(defs)) + taken && GeneratedOnce(defs)
      ensures Unused(taken, old(defs), body) ==> UniqueIds(defs) && SamePaintings(old(defs), body, defs, body)
    {
      ghost var before := defs;
      var keys, groups := GroupStops();
      for k := 0 to |keys|
        invariant Sharing(before, defs, keys[..k], groups)
      {
        ghost var now := defs;
        var group := groups[keys[k]];
        if |group| >= 2 {
          MembersShare(before, now, keys, groups, k);
          ShareGroup(group);
          ShareOne(before, now, defs, keys, groups, k);
        } else {
          SkipOne(before, now, keys, groups, k);
        }
      }
      assert keys[..|keys|] == keys;
      SharingDone(before, defs, keys, groups);
      TemplatesAreBorrowed(before, defs, keys, groups);
      SharingNames(before, body, defs, keys, groups);
      SharedNames(before, defs);
      SharedGeneratedOnce(before, defs);
      taken := TemplateNames(|before|, |defs|);
      if Unused(taken, before, body) {
        SharingIsSound(before, body, defs, taken);
      }
    }

    // The short names for the numerous generated definitions.
    method ShortNames() returns (aliases: map<string, string>, ghost order: seq<string>)
      requires GeneratedOnce(defs)
      ensures NumberedAliases(aliases, order) && |aliases| == |order|
      ensures forall x :: x in aliases <==> x in Names(defs) && IsGenerated(x)
    {
      aliases, order := map[], [];
      for i := 0 to |defs|
        invariant ShortlyNamed(defs[..i], aliases, order)
      {
        var id := defs[i].Id();
        NameShortly(defs, i, aliases, order);
        if id.Some? && IsGenerated(id.value) {
          order := order + [id.value];
          aliases := aliases[id.value := ShortName(|aliases|)];
        }
      }
      assert defs[..|defs|] == defs;
    }

    // The renaming of optimize_document, with its rewrite_references.
    method RenameGenerated() returns (aliases: map<string, string>)
      requires GeneratedOnce(defs)
      modifies this
      ensures forall x :: x in aliases <==> x in Names(old(defs)) && IsGenerated(x)
      ensures aliases.Values == AliasNames(|GeneratedNames(old(defs))|)
      ensures forall x, y :: x in aliases && y in aliases && aliases[x] == aliases[y] ==> x == y
      ensures defs == RenamedAll(Pass(aliases, false), old(defs))
      ensures body == Pass(aliases, false).ApplyAll(old(body))
      ensures UniqueIds(old(defs)) && Unused(aliases.Values, old(defs), old(body)) ==>
        UniqueIds(defs) && SamePaintings(old(defs), old(body), defs, body)
    {
      ghost var order;
      aliases, order := ShortNames();
      AliasesAreNumbered(aliases, order);
      AliasesDiffer(aliases, order);
      assert aliases.Keys == GeneratedNames(defs);
      ghost var p := Pass(aliases, false);
      if UniqueIds(defs) && Unused(aliases.Values, defs, body) {
        RenamingIsSound(defs, body, aliases, order);
      }
      for i := 0 to |defs|
        invariant |defs| == |old(defs)| && body == old(body)
        invariant forall k :: 0 <= k < i ==> defs[k] == RenameDef(p, old(defs)[k])
        invariant forall k :: i <= k < |defs| ==> defs[k] == old(defs)[k]
      {
        defs := defs[i := RenameDef(Pass(aliases, false), defs[i])];
      }
      Rewrite(Pass(aliases, false));
      assert defs == RenamedAll(p, old(defs));
    }

    // The loop over scalar attributes.
    method ShortenScalars()
      modifies this
      ensures defs == ApplyDefs(Pass(map[], true), old(defs)) && body == Pass(map[], true).ApplyAll(old(body))
      ensures SamePaintings(old(defs), old(body), defs, body)
    {
      ghost var p := Pass(map[], true);
      RenamingCorresponds(p, defs, Everything());
      CorrespondingPaintings(defs, body, RenamedAll(p, defs), p, Everything());
      assert ApplyDefs(p, defs) == RenamedAll(p, defs);
      Rewrite(Pass(map[], true));
    }
  }

  lemma OnlyDefinition(defs: seq<Definition>, d: Definition, name: string)
    requires UniqueIds(defs) && d in defs && d.Id() == Some(name)
    ensures forall e :: e in defs && e.Id() == Some(name) ==> e == d
  {
    forall e | e in defs && e.Id() == Some(name) ensures e == d {
      LookupUnique(defs, d, name);
      LookupUnique(defs, e, name);
    }
  }

  lemma {:induction false} KeepIsUnique(defs: seq<Definition>, kept: seq<Definition>, used: set<string>)
    requires UniqueIds(defs) && kept == Keep(d => Kept(used, d), defs)
    ensures UniqueIds(kept) && |kept| <= |defs|
  {
    if defs != [] {
      var init, last := defs[..|defs| - 1], defs[|defs| - 1];
      var rest := Keep(d => Kept(used, d), init);
      KeepIsUnique(init, rest, used);
      NewId(defs, |defs| - 1);
      UniqueSnoc(rest, last);
      assert kept == rest + if Kept(used, last) then [last] else [];
    }
  }
}

// optimize_document: the passes of the optimizer one after the other, and what the finished
// document is like.
module SvgFinish {

  import opened Options
  import opened Sequences
  import opened Svg
  import opened SvgPasses
  import opened SvgOptimizer
  import opened SvgOutcome
  import Decimals

  lemma {:induction false} SubsetIsSmaller(a: set<string>, b: set<string>)
    requires a <= b
    ensures |a| <= |b|
  {
    if x :| x in a {
      SubsetIsSmaller(a - {x}, b - {x});
    }
  }

  // The names the passes may give out: one for each generated name, and those of templates.
  ghost function MayGive(defs: seq<Definition>): set<string> {
    AliasNames(|GeneratedNames(defs)|) + TemplateNames(0, 2 * |defs|)
  }

  lemma NoneGenerated(taken: set<string>, n: nat)
    requires taken <= TemplateNames(0, n)
    ensures forall x :: x in taken ==> !IsGenerated(x)
  {
    forall x | x in taken ensures !IsGenerated(x) {
      var j: nat :| j < n && TemplateName(j) == x;
      TemplatesAreNotGenerated(j);
    }
  }

  lemma GivenNames(source: seq<Definition>, shared: seq<Definition>, taken: set<string>)
    requires Names(shared) <= Names(source) + taken && taken <= TemplateNames(0, 2 * |source|)
    ensures taken + AliasNames(|GeneratedNames(shared)|) <= MayGive(source)
  {
    NoneGenerated(taken, 2 * |source|);
    assert GeneratedNames(shared) <= GeneratedNames(source);
    SubsetIsSmaller(GeneratedNames(shared), GeneratedNames(source));
  }

  lemma AliasesAreNoTemplates(aliases: nat, templates: nat)
    ensures AliasNames(aliases) !! TemplateNames(0, templates)
  {
    assert forall i: nat :: ShortName(i)[0] == 'p';
    assert forall j: nat :: TemplateName(j)[0] == 's';
  }

  lemma ShortNamesAreNotGenerated(k: nat)
    ensures !IsGenerated(ShortName(k))
  {
    var name := ShortName(k);
    assert forall i :: 0 <= i < |name| ==> name[i] == (if i < 1 then 'p' else Decimals.Text(k)[i - 1]);
    NoDashes(name, "-row-");
    NoDashes(name, "-fade-");
    NoDashes(name, "-mask-");
    NoDashes(name, "-band-");
  }

  // The names of the finished document, one by one.
  lemma FinishedIds(shared: seq<Definition>, aliases: map<string, string>, p: Pass)
    ensures var r := Pass(aliases, false);
      var after := ApplyDefs(p, RenamedAll(r, shared));
      |after| == |shared| && forall i :: 0 <= i < |after| ==>
        && after[i].Gradient? == shared[i].Gradient?
        && after[i].Id() == if shared[i].Id().Some? then Some(r.Alias(shared[i].Id().value)) else None
  {
  }

  lemma NamesMapped(shared: seq<Definition>, after: seq<Definition>, p: Pass)
    requires |after| == |shared| && forall i :: 0 <= i < |after| ==>
      after[i].Id() == if shared[i].Id().Some? then Some(p.Alias(shared[i].Id().value)) else None
    ensures forall x :: x in Names(shared) ==> p.Alias(x) in Names(after)
    ensures forall y :: y in Names(after) ==> exists x :: x in Names(shared) && p.Alias(x) == y
  {
    forall x | x in Names(shared) ensures p.Alias(x) in Names(after) {
      var i :| 0 <= i < |shared| && shared[i].Id() == Some(x);
      assert after[i] in after;
    }
    forall y | y in Names(after) ensures exists x :: x in Names(shared) && p.Alias(x) == y {
      var i :| 0 <= i < |after| && after[i].Id() == Some(y);
      assert shared[i] in shared && shared[i].Id().value in Names(shared);
    }
  }

  lemma AliasesAreNotGenerated(n: nat)
    ensures forall y :: y in AliasNames(n) ==> !IsGenerated(y)
  {
    forall y | y in AliasNames(n) ensures !IsGenerated(y) {
      var k: nat :| k < n && ShortName(k) == y;
      ShortNamesAreNotGenerated(k);
    }
  }

  // All in all: what was given out, and names it had before; none of them generated.
  lemma FinishedNames(shared: seq<Definition>, taken: set<string>, aliases: map<string, string>, p: Pass)
    requires taken <= Names(shared) && forall x :: x in taken ==> !IsGenerated(x)
    requires forall x :: x in aliases <==> x in Names(shared) && IsGenerated(x)
    requires aliases.Values == AliasNames(|GeneratedNames(shared)|)
    ensures var after := ApplyDefs(p, RenamedAll(Pass(aliases, false), shared));
      && taken + aliases.Values <= Names(after) <= Names(shared) + aliases.Values
      && forall x :: x in Names(after) ==> !IsGenerated(x)
  {
    var r := Pass(aliases, false);
    var after := ApplyDefs(p, RenamedAll(r, shared));
    FinishedIds(shared, aliases, p);
    NamesMapped(shared, after, r);
    AliasesAreNotGenerated(|GeneratedNames(shared)|);
    forall x | x in taken ensures x in Names(after) {
      assert r.Alias(x) == x;
    }
  }

  // Unused before the passes, unused when they come to give it out.
  lemma StaysUnused(
    defs: seq<Definition>, body: seq<Token>, defs': seq<Definition>, body': seq<Token>,
    more: set<string>, taken: set<string>)
    requires NewNames(defs, body, defs', body', more) && Unused(taken, defs, body) && taken !! more
    ensures Unused(taken, defs', body')
  {
    forall x | x in taken ensures !Uses(defs', body', x) {
      assert !Uses(defs, body, x);
    }
  }

  lemma NewNamesCompose(
    defs: seq<Definition>, body: seq<Token>, defs': seq<Definition>, body': seq<Token>,
    defs'': seq<Definition>, body'': seq<Token>, more: set<string>)
    requires NewNames(defs, body, defs', body', {}) && NewNames(defs', body', defs'', body'', more)
    ensures NewNames(defs, body, defs'', body'', more)
  {
  }

  lemma PaintingsCompose(
    defs: seq<Definition>, body: seq<Token>, defs': seq<Definition>, body': seq<Token>,
    defs'': seq<Definition>, body'': seq<Token>)
    requires SamePaintings(defs, body, defs', body') && SamePaintings(defs', body', defs'', body'')
    ensures SamePaintings(defs, body, defs'', body'')
  {
  }

  // ----- Swept -----

  // Every named definition can be reached from the body.
  ghost predicate AllReachable(defs: seq<Definition>, body: seq<Token>) {
    forall d :: d in defs && d.Id().Some? ==> Reachable(defs, body, d.Id().value)
  }

  // Whatever the body reaches, it reaches without what it does not reach.
  lemma SweptIsReachable(defs: seq<Definition>, body: seq<Token>, swept: seq<Definition>)
    requires forall d :: d in swept <==> d in defs && (d.Id().Some? ==> Reachable(defs, body, d.Id().value))
    ensures AllReachable(swept, body)
  {
    forall d | d in swept && d.Id().Some? ensures Reachable(swept, body, d.Id().value) {
      var path :| Path(defs, body, path) && path[|path| - 1] == d.Id().value;
      forall i | 0 <= i < |path| - 1 ensures Links(swept, path[i], path[i + 1]) {
        assert Path(defs, body, path[..i + 1]) && path[..i + 1][i] == path[i];
        assert Links(defs, path[i], path[i + 1]);
        var e :| e in defs && e.Id() == Some(path[i]) && RefersTo(e, path[i + 1]);
        assert e in swept;
      }
      assert Path(swept, body, path);
    }
  }

  // A link of a gradient that gave its stops away leads over the template instead.
  lemma LinkStays(before: seq<Definition>, body: seq<Token>, now: seq<Definition>, x: string, y: string)
    requires NoTemplates(before) && Shared(before, now) && Links(before, x, y) && Reachable(now, body, x)
    ensures Reachable(now, body, y)
  {
    var d :| d in before && d.Id() == Some(x) && RefersTo(d, y);
    var i :| 0 <= i < |before| && before[i] == d;
    assert now[i] in now;
    if now[i] == d {
      assert Links(now, x, y);
      ReachFurther(now, body, x, y);
    } else {
      var home :| |before| <= home && Borrows(d, now[i], now, home);
      var t := now[home];
      if k :| k in d.attrs && Ref(y) in d.attrs[k] {
        assert Links(now, x, y);
        ReachFurther(now, body, x, y);
      } else {
        var m :| 0 <= m < |d.stops| && Ref(y) in d.stops[m].markup;
        assert Markups(d.stops)[m] == Markups(t.stops)[m] == t.stops[m].markup;
        assert t in now && RefersTo(now[i], t.id) && RefersTo(t, y);
        assert Links(now, x, t.id) && Links(now, t.id, y);
        ReachFurther(now, body, x, t.id);
        ReachFurther(now, body, t.id, y);
      }
    }
  }

  lemma PathPrefix(defs: seq<Definition>, body: seq<Token>, path: seq<string>)
    requires Path(defs, body, path) && |path| > 1
    ensures Path(defs, body, path[..|path| - 1]) && Links(defs, path[|path| - 2], path[|path| - 1])
  {
    var init := path[..|path| - 1];
    assert Links(defs, path[|path| - 2], path[|path| - 2 + 1]);
    forall i | 0 <= i < |init| - 1 ensures Links(defs, init[i], init[i + 1]) {
      assert Links(defs, path[i], path[i + 1]);
    }
  }

  lemma {:induction false} PathStays(before: seq<Definition>, body: seq<Token>, now: seq<Definition>, path: seq<string>)
    requires NoTemplates(before) && Shared(before, now) && Path(before, body, path)
    ensures Reachable(now, body, path[|path| - 1])
  {
    if |path| == 1 {
      ReachFromBody(now, body, path[0]);
    } else {
      PathPrefix(before, body, path);
      PathStays(before, body, now, path[..|path| - 1]);
      LinkStays(before, body, now, path[|path| - 2], path[|path| - 1]);
    }
  }

  lemma SharedIsReachable(before: seq<Definition>, body: seq<Token>, now: seq<Definition>)
    requires NoTemplates(before) && Shared(before, now) && AllBorrowed(before, now) && AllReachable(before, body)
    ensures AllReachable(now, body)
  {
    forall i | 0 <= i < |before| && before[i].Id().Some? ensures Reachable(now, body, before[i].Id().value) {
      assert before[i] in before;
      var path :| Path(before, body, path) && path[|path| - 1] == before[i].Id().value;
      PathStays(before, body, now, path);
    }
    forall d | d in now && d.Id().Some? ensures Reachable(now, body, d.Id().value) {
      var j :| 0 <= j < |now| && now[j] == d;
      if j < |before| {
        assert now[j].Id() == before[j].Id();
      } else {
        assert Borrowed(before, now, j);
        var i :| 0 <= i < |before| && i < |now| && Borrows(before[i], now[i], now, j);
        assert now[i] in now && now[i].Id() == before[i].Id();
        assert Links(now, now[i].id, d.Id().value);
        ReachFurther(now, body, now[i].id, d.Id().value);
      }
    }
  }

  lemma AppliedRefers(p: Pass, d: Definition, y: string)
    requires RefersTo(d, y)
    ensures RefersTo(ApplyDef(p, d), p.Alias(y))
  {
    var e, r := ApplyDef(p, d), Ref(p.Alias(y));
    match d
    case Other(_, markup) => AppliedIn(p, markup, Ref(y));
    case Gradient(_, _, attrs, href, stops) =>
      if href == Some(y) {
      } else if k :| k in attrs && Ref(y) in attrs[k] {
        AppliedIn(p, attrs[k], Ref(y));
        assert k in e.attrs && r in e.attrs[k];
      } else {
        var i :| 0 <= i < |stops| && Ref(y) in stops[i].markup;
        AppliedIn(p, stops[i].markup, Ref(y));
        assert r in e.stops[i].markup;
      }
  }

  lemma AppliedIn(p: Pass, tokens: seq<Token>, t: Token)
    requires t in tokens
    ensures p.Apply(t) in p.ApplyAll(tokens)
  {
    var i :| 0 <= i < |tokens| && tokens[i] == t;
    assert p.ApplyAll(tokens)[i] == p.Apply(t);
  }

  lemma LinkRenamed(p: Pass, defs: seq<Definition>, x: string, y: string)
    requires Links(defs, x, y)
    ensures Links(RenamedAll(p, defs), p.Alias(x), p.Alias(y))
  {
    var d :| d in defs && d.Id() == Some(x) && RefersTo(d, y);
    var i :| 0 <= i < |defs| && defs[i] == d;
    assert RefersTo(RenameDef(p, d), y);
    AppliedRefers(p, RenameDef(p, d), y);
    assert RenamedAll(p, defs)[i] == Renamed(p, d);
  }

  lemma RenamedIsReachable(p: Pass, defs: seq<Definition>, body: seq<Token>)
    requires AllReachable(defs, body)
    ensures AllReachable(RenamedAll(p, defs), p.ApplyAll(body))
  {
    var after := RenamedAll(p, defs);
    forall e | e in after && e.Id().Some? ensures Reachable(after, p.ApplyAll(body), e.Id().value) {
      var i :| 0 <= i < |after| && after[i] == e;
      assert defs[i] in defs && e.Id().value == p.Alias(defs[i].Id().value);
      var path :| Path(defs, body, path) && path[|path| - 1] == defs[i].Id().value;
      var renamed := seq(|path|, k requires 0 <= k < |path| => p.Alias(path[k]));
      AppliedIn(p, body, Ref(path[0]));
      forall k | 0 <= k < |renamed| - 1 ensures Links(after, renamed[k], renamed[k + 1]) {
        assert Links(defs, path[k], path[k + 1]);
        LinkRenamed(p, defs, path[k], path[k + 1]);
      }
      assert Path(after, p.ApplyAll(body), renamed) && renamed[|renamed| - 1] == e.Id().value;
    }
  }

  // ----- Short -----

  ghost predicate Has(d: Definition, t: Token) {
    match d
    case Gradient(_, _, attrs, _, stops) =>
      || (exists k :: k in attrs && t in attrs[k])
      || (exists i :: 0 <= i < |stops| && t in stops[i].markup)
    case Other(_, markup) => t in markup
  }

  // A scalar with no trailing zeros to drop.
  predicate IsShort(t: Token) {
    t.Scalar? && Decimals.HasDecimals(t.text) ==> Decimals.Shorten(t.text) == t.text
  }

  ghost predicate AllShort(defs: seq<Definition>, body: seq<Token>) {
    && (forall d, t :: d in defs && Has(d, t) ==> IsShort(t))
    && (forall t :: t in body ==> IsShort(t))
  }

  lemma AppliedTokensAreShort(p: Pass, tokens: seq<Token>)
    requires p.shorten
    ensures forall t :: t in p.ApplyAll(tokens) ==> IsShort(t)
  {
    forall t | t in p.ApplyAll(tokens) ensures IsShort(t) {
      var i :| 0 <= i < |tokens| && p.ApplyAll(tokens)[i] == t;
      if tokens[i].Scalar? && Decimals.HasDecimals(tokens[i].text) && Decimals.HasDecimals(t.text) {
        Decimals.ShortenTwice(tokens[i].text);
      }
    }
  }

  lemma AppliedIsShort(p: Pass, d: Definition, t: Token)
    requires p.shorten && Has(ApplyDef(p, d), t)
    ensures IsShort(t)
  {
    match d
    case Other(_, markup) => AppliedTokensAreShort(p, markup);
    case Gradient(_, _, attrs, _, stops) =>
      if k :| k in attrs && t in p.ApplyAll(attrs[k]) {
        AppliedTokensAreShort(p, attrs[k]);
      } else {
        var i :| 0 <= i < |stops| && t in ApplyDef(p, d).stops[i].markup;
        AppliedTokensAreShort(p, stops[i].markup);
      }
  }

  lemma AppliedAreShort(p: Pass, defs: seq<Definition>, body: seq<Token>)
    requires p.shorten
    ensures AllShort(ApplyDefs(p, defs), p.ApplyAll(body))
  {
    var after := ApplyDefs(p, defs);
    forall e, t | e in after && Has(e, t) ensures IsShort(t) {
      var i :| 0 <= i < |after| && after[i] == e;
      AppliedIsShort(p, defs[i], t);
    }
    AppliedTokensAreShort(p, body);
  }

  // ----- Shared -----

  // A token in the stops of a linear gradient.
  ghost predicate InStops(defs: seq<Definition>, t: Token) {
    exists d, i :: d in defs && Sharable(d) && 0 <= i < |d.stops| && t in d.stops[i].markup
  }

  function Spelling(text: string): string {
    if Decimals.HasDecimals(text) then Decimals.Shorten(text) else text
  }

  // No two scalars in the stops of linear gradients differ only in trailing zeros.
  ghost predicate SpelledOnce(defs: seq<Definition>) {
    forall a, b ::
      InStops(defs, Scalar(a)) && InStops(defs, Scalar(b)) && Spelling(a) == Spelling(b) ==> a == b
  }

  ghost predicate NoNewScalars(defs: seq<Definition>, defs': seq<Definition>) {
    forall a :: InStops(defs', Scalar(a)) ==> InStops(defs, Scalar(a))
  }

  lemma SharedScalars(before: seq<Definition>, now: seq<Definition>)
    requires Shared(before, now) && AllBorrowed(before, now)
    ensures NoNewScalars(before, now)
  {
    forall a | InStops(now, Scalar(a)) ensures InStops(before, Scalar(a)) {
      var e, m :| e in now && Sharable(e) && 0 <= m < |e.stops| && Scalar(a) in e.stops[m].markup;
      var j :| 0 <= j < |now| && now[j] == e;
      if j < |before| {
        assert before[j] in before;
      } else {
        assert Borrowed(before, now, j);
        var i :| 0 <= i < |before| && i < |now| && Borrows(before[i], now[i], now, j);
        assert Markups(before[i].stops)[m] == Markups(e.stops)[m] == e.stops[m].markup;
        assert before[i] in before && Scalar(a) in before[i].stops[m].markup;
      }
    }
  }

  ghost predicate OneToOne(p: Pass, defs: seq<Definition>) {
    forall s, t :: InStops(defs, s) && InStops(defs, t) && p.Apply(s) == p.Apply(t) ==> s == t
  }

  ghost predicate StopsApplied(p: Pass, defs: seq<Definition>, after: seq<Definition>) {
    && |after| == |defs|
    && forall i :: 0 <= i < |defs| && Sharable(after[i]) ==>
         Sharable(defs[i]) && Markups(after[i].stops) == p.ApplyStops(Markups(defs[i].stops))
  }

  lemma AppliedScalars(p: Pass, defs: seq<Definition>, after: seq<Definition>)
    requires !p.shorten && StopsApplied(p, defs, after)
    ensures NoNewScalars(defs, after)
  {
    forall a | InStops(after, Scalar(a)) ensures InStops(defs, Scalar(a)) {
      var e, i :| e in after && Sharable(e) && 0 <= i < |e.stops| && Scalar(a) in e.stops[i].markup;
      var k :| 0 <= k < |after| && after[k] == e;
      var m :| 0 <= m < |e.stops[i].markup| && e.stops[i].markup[m] == Scalar(a);
      assert Markups(e.stops)[i] == p.ApplyStops(Markups(defs[k].stops))[i] == p.ApplyAll(defs[k].stops[i].markup);
      assert defs[k] in defs && defs[k].stops[i].markup[m] == Scalar(a);
    }
  }

  // A pass that keeps the tokens in stops apart keeps the stops apart.
  lemma StopsStayDistinct(p: Pass, defs: seq<Definition>, after: seq<Definition>)
    requires DistinctStops(defs) && OneToOne(p, defs) && StopsApplied(p, defs, after)
    ensures DistinctStops(after)
  {
    forall i, j | 0 <= i < j < |after| && Sharable(after[i]) && Sharable(after[j])
      ensures Markups(after[i].stops) != Markups(after[j].stops)
    {
      SameStops(p, defs, i, j);
    }
  }

  lemma SameStops(p: Pass, defs: seq<Definition>, i: nat, j: nat)
    requires OneToOne(p, defs) && i < |defs| && j < |defs| && Sharable(defs[i]) && Sharable(defs[j])
    ensures p.ApplyStops(Markups(defs[i].stops)) == p.ApplyStops(Markups(defs[j].stops)) ==>
      Markups(defs[i].stops) == Markups(defs[j].stops)
  {
    var a, b := Markups(defs[i].stops), Markups(defs[j].stops);
    if p.ApplyStops(a) == p.ApplyStops(b) {
      assert |p.ApplyStops(a)| == |p.ApplyStops(b)|;
      forall m | 0 <= m < |a| ensures a[m] == b[m] {
        assert p.ApplyStops(a)[m] == p.ApplyStops(b)[m];
        SameMarkups(p, defs, i, j, m);
      }
    }
  }

  lemma SameMarkups(p: Pass, defs: seq<Definition>, i: nat, j: nat, m: nat)
    requires OneToOne(p, defs) && i < |defs| && j < |defs| && Sharable(defs[i]) && Sharable(defs[j])
    requires m < |defs[i].stops| && m < |defs[j].stops|
    requires p.ApplyAll(defs[i].stops[m].markup) == p.ApplyAll(defs[j].stops[m].markup)
    ensures defs[i].stops[m].markup == defs[j].stops[m].markup
  {
    var s, t := defs[i].stops[m].markup, defs[j].stops[m].markup;
    assert |p.ApplyAll(s)| == |p.ApplyAll(t)|;
    assert defs[i] in defs && defs[j] in defs;
    forall n | 0 <= n < |s| ensures s[n] == t[n] {
      assert p.ApplyAll(s)[n] == p.ApplyAll(t)[n];
      assert InStops(defs, s[n]) && InStops(defs, t[n]);
    }
  }

  lemma RenamingIsOneToOne(aliases: map<string, string>, defs: seq<Definition>)
    requires forall x, y :: x in aliases && y in aliases && aliases[x] == aliases[y] ==> x == y
    requires Unmentioned(aliases.Values, defs)
    ensures OneToOne(Pass(aliases, false), defs)
  {
    var p := Pass(aliases, false);
    forall x | InStops(defs, Ref(x)) ensures x !in aliases.Values {
      var d, i :| d in defs && Sharable(d) && 0 <= i < |d.stops| && Ref(x) in d.stops[i].markup;
      assert RefersTo(d, x) && Mentions(defs, x);
    }
    forall x | x in aliases ensures aliases[x] in aliases.Values {
    }
    forall s, t | InStops(defs, s) && InStops(defs, t) && p.Apply(s) == p.Apply(t) ensures s == t {
    }
  }

  lemma ShorteningIsOneToOne(defs: seq<Definition>)
    requires SpelledOnce(defs)
    ensures OneToOne(Pass(map[], true), defs)
  {
    var p := Pass(map[], true);
    forall s, t | InStops(defs, s) && InStops(defs, t) && p.Apply(s) == p.Apply(t) ensures s == t {
      if s.Scalar? {
        assert Spelling(s.text) == Spelling(t.text);
      }
    }
  }

  // The finished document: no two linear gradients spell out the same stops.
  lemma FinishedStops(shared: seq<Definition>, aliases: map<string, string>)
    requires DistinctStops(shared) && SpelledOnce(shared) && Unmentioned(aliases.Values, shared)
    requires forall x, y :: x in aliases && y in aliases && aliases[x] == aliases[y] ==> x == y
    ensures DistinctStops(ApplyDefs(Pass(map[], true), RenamedAll(Pass(aliases, false), shared)))
  {
    var r, q := Pass(aliases, false), Pass(map[], true);
    var renamed := RenamedAll(r, shared);
    RenamingIsOneToOne(aliases, shared);
    StopsStayDistinct(r, shared, renamed);
    AppliedScalars(r, shared, renamed);
    ShorteningIsOneToOne(renamed);
    StopsStayDistinct(q, renamed, ApplyDefs(q, renamed));
  }

  // ----- Without duplicates -----

  // The definitions stem from definitions of the source that all look different, and keep their
  // names unless those were generated; the rest are templates.
  ghost predicate Stems(origin: seq<Definition>, source: seq<Definition>, defs: seq<Definition>, given: set<string>) {
    && DistinctSignatures(origin) && (forall d :: d in origin ==> d in source) && |origin| <= |defs|
    && (forall i :: 0 <= i < |origin| ==>
          defs[i].Gradient? == origin[i].Gradient? && SameName(origin[i].Id(), defs[i].Id(), given))
    && (forall i :: |origin| <= i < |defs| ==> defs[i].Id() == Some(TemplateName(i)))
  }

  ghost predicate SameName(was: Option<string>, now: Option<string>, given: set<string>) {
    now == was || (was.Some? && IsGenerated(was.value) && now.Some? && now.value in given)
  }

  lemma AppliedSnoc(p: Pass, init: seq<Definition>, last: Definition)
    ensures ApplyDefs(p, init + [last]) == ApplyDefs(p, init) + [ApplyDef(p, last)]
  {
  }

  lemma KeepSnoc(keep: Definition -> bool, init: seq<Definition>, last: Definition)
    ensures Keep(keep, init + [last]) == Keep(keep, init) + if keep(last) then [last] else []
  {
    SnocPrefix(init, last);
  }

  lemma KeepAppliedSnoc(p: Pass, keep: Definition -> bool, init: seq<Definition>, last: Definition)
    requires keep(ApplyDef(p, last)) == keep(last)
    requires Keep(keep, ApplyDefs(p, init)) == ApplyDefs(p, Keep(keep, init))
    ensures Keep(keep, ApplyDefs(p, init + [last])) == ApplyDefs(p, Keep(keep, init + [last]))
  {
    KeepSnoc(keep, init, last);
    KeepSnoc(keep, ApplyDefs(p, init), ApplyDef(p, last));
    AppliedSnoc(p, init, last);
    AppliedSnoc(p, Keep(keep, init), last);
  }

  // Redirecting references and dropping definitions by name commute.
  lemma {:induction false} KeepApplied(p: Pass, keep: Definition -> bool, kept: seq<Definition>)
    requires forall d :: keep(ApplyDef(p, d)) == keep(d)
    ensures Keep(keep, ApplyDefs(p, kept)) == ApplyDefs(p, Keep(keep, kept))
  {
    if kept != [] {
      var init, last := kept[..|kept| - 1], kept[|kept| - 1];
      assert kept == init + [last];
      KeepApplied(p, keep, init);
      KeepAppliedSnoc(p, keep, init, last);
    }
  }

  lemma {:induction false} SweptSignatures(kept: seq<Definition>, used: set<string>)
    requires DistinctSignatures(kept)
    ensures DistinctSignatures(Keep(d => Kept(used, d), kept))
  {
    if kept != [] {
      var init, last := kept[..|kept| - 1], kept[|kept| - 1];
      var rest := Keep(d => Kept(used, d), init);
      SweptSignatures(init, used);
      forall e | e in rest && e.Gradient? && last.Gradient? ensures Signature(e) != Signature(last) {
        var i :| 0 <= i < |init| && init[i] == e;
        assert kept[i] == e;
      }
      DistinctSignaturesSnoc(rest, last);
    }
  }

  // Sharing keeps names, and so did redirecting.
  lemma SharedStems(
    origin: seq<Definition>, source: seq<Definition>, p: Pass, swept: seq<Definition>, shared: seq<Definition>)
    requires DistinctSignatures(origin) && forall d :: d in origin ==> d in source
    requires swept == ApplyDefs(p, origin) && Shared(swept, shared)
    ensures Stems(origin, source, shared, {})
  {
  }

  lemma SweptStems(
    source: seq<Definition>, kept: seq<Definition>, aliases: map<string, string>, used: set<string>,
    swept: seq<Definition>, shared: seq<Definition>)
    requires (forall d :: d in kept ==> d in source) && DistinctSignatures(kept)
    requires swept == Keep(d => Kept(used, d), ApplyDefs(Pass(aliases, false), kept)) && Shared(swept, shared)
    ensures Stems(Keep(d => Kept(used, d), kept), source, shared, {})
  {
    var p := Pass(aliases, false);
    KeepApplied(p, d => Kept(used, d), kept);
    SweptSignatures(kept, used);
    SharedStems(Keep(d => Kept(used, d), kept), source, p, swept, shared);
  }

  lemma FinishedStems(
    origin: seq<Definition>, source: seq<Definition>, shared: seq<Definition>, taken: set<string>,
    aliases: map<string, string>, p: Pass)
    requires Stems(origin, source, shared, {}) && forall x :: x in aliases ==> IsGenerated(x)
    ensures Stems(origin, source, ApplyDefs(p, RenamedAll(Pass(aliases, false), shared)), taken + aliases.Values)
  {
    var r := Pass(aliases, false);
    var after := ApplyDefs(p, RenamedAll(r, shared));
    FinishedIds(shared, aliases, p);
    forall i | |origin| <= i < |after| ensures after[i].Id() == Some(TemplateName(i)) {
      TemplatesAreNotGenerated(i);
    }
    forall x | x in aliases ensures aliases[x] in aliases.Values {
    }
  }

  // ----- The outcome, next to the source -----

  // Contains looks everywhere.
  lemma {:induction false} ContainsAt(name: string, part: string, i: nat)
    requires i + |part| <= |name| && name[i..i + |part|] == part && part != ""
    ensures Contains(name, part)
  {
    if i > 0 {
      assert name[1..][i - 1..i - 1 + |part|] == part;
      ContainsAt(name[1..], part, i - 1);
    } else {
      assert part <= name;
    }
  }

  lemma LacksPart(name: string, part: string)
    requires !Contains(name, part) && part != ""
    ensures Lacks(name, part)
  {
    forall i, j | 0 <= i <= j <= |name| && j == i + |part| ensures name[i..j] != part {
      if name[i..j] == part {
        ContainsAt(name, part, i);
      }
    }
  }

  lemma NotGeneratedIsReadable(defs: seq<Definition>)
    requires forall x :: x in Names(defs) ==> !IsGenerated(x)
    ensures AllReadable(defs)
  {
    forall d | d in defs && d.Id().Some? ensures Readable(d.Id().value) {
      var name := d.Id().value;
      assert name in Names(defs);
      LacksPart(name, "-row-");
      LacksPart(name, "-fade-");
      LacksPart(name, "-mask-");
      LacksPart(name, "-band-");
    }
  }

  lemma PaddedGetsShorter(s: string)
    requires Padded(s)
    ensures Decimals.HasDecimals(s) && Decimals.Shorten(s) != s
  {
    PaddedHasDecimals(s);
    assert s[|s| - 1] == '0' && Decimals.TrimRight(s, '0') != s;
    assert |Decimals.Shorten(s)| <= |Decimals.TrimRight(s, '0')| < |s|;
  }

  lemma PaddedHasDecimals(s: string)
    requires Padded(s)
    ensures Decimals.HasDecimals(s)
  {
    var sign, p :| PaddedAt(s, sign, p);
    UnsignedPadded(s, sign, p);
    DigitsAround(s[sign..], p - sign);
  }

  lemma UnsignedPadded(s: string, sign: int, p: int)
    requires PaddedAt(s, sign, p)
    ensures var u := s[sign..];
      && Decimals.Unsigned(s) == u && p - sign < |u| - 1
      && IsDigits(u[..p - sign]) && u[p - sign] == '.' && IsDigits(u[p - sign + 1..])
  {
    var u := s[sign..];
    assert u[..p - sign] == s[sign..p] && u[p - sign + 1..] == s[p + 1..];
    assert s[sign..p][0] == s[sign];
  }

  lemma DigitsAround(u: string, p: nat)
    requires p < |u| - 1 && IsDigits(u[..p]) && u[p] == '.' && IsDigits(u[p + 1..])
    ensures Decimals.IsUnsignedDecimal(u) && Decimals.Point(u) == p
  {
    PointAt(u, p);
  }

  lemma {:induction false} PointAt(u: string, p: nat)
    requires p < |u| && IsDigits(u[..p]) && u[p] == '.'
    ensures Decimals.Point(u) == p
  {
    if p > 0 {
      assert u[..p][0] == u[0] && u[1..][..p - 1] == u[..p][1..];
      if p > 1 {
        PointAt(u[1..], p - 1);
      } else {
        assert Decimals.Point(u[1..]) == 0;
      }
    }
  }

  lemma ShortIsNotPadded(defs: seq<Definition>, body: seq<Token>)
    requires AllShort(defs, body)
    ensures NothingPadded(defs, body)
  {
    forall t: Token | t.Scalar? && (t in body || exists d :: d in defs && InMarkup(d, t)) ensures !Padded(t.text) {
      if d :| d in defs && InMarkup(d, t) {
        assert Has(d, t);
      }
      assert IsShort(t);
      if Padded(t.text) {
        PaddedGetsShorter(t.text);
      }
    }
  }

  lemma DistinctStopsDiffer(defs: seq<Definition>)
    requires DistinctStops(defs)
    ensures StopsDiffer(defs)
  {
    forall i, j | 0 <= i < j < |defs| && OwnStops(defs[i]) && OwnStops(defs[j])
      ensures |defs[i].stops| != |defs[j].stops|
        || exists k :: 0 <= k < |defs[i].stops| && defs[i].stops[k].markup != defs[j].stops[k].markup
    {
      assert Sharable(defs[i]) && Sharable(defs[j]);
      if |defs[i].stops| == |defs[j].stops| {
        var k :| 0 <= k < |defs[i].stops| && Markups(defs[i].stops)[k] != Markups(defs[j].stops)[k];
      }
    }
  }

  lemma AppliedIsRetold(p: Pass, tokens: seq<Token>)
    ensures Retold(tokens, p.ApplyAll(tokens))
  {
    forall i | 0 <= i < |tokens| ensures RetoldToken(tokens[i], p.Apply(tokens[i])) {
      if p.shorten && tokens[i].Scalar? && Decimals.HasDecimals(tokens[i].text) {
        Decimals.ShortenKeepsValue(tokens[i].text);
      }
    }
  }

  lemma RetoldAgain(a: seq<Token>, b: seq<Token>, c: seq<Token>)
    requires Retold(a, b) && Retold(b, c)
    ensures Retold(a, c)
  {
    forall i | 0 <= i < |a| ensures RetoldToken(a[i], c[i]) {
      assert RetoldToken(a[i], b[i]) && RetoldToken(b[i], c[i]);
    }
  }

  lemma SharedOthers(origin: seq<Definition>, p: Pass, swept: seq<Definition>, shared: seq<Definition>)
    requires swept == ApplyDefs(p, origin) && Shared(swept, shared)
    ensures OthersRetold(origin, shared)
  {
    forall i | 0 <= i < |origin| && origin[i].Other?
      ensures shared[i].Other? && (shared[i].name.None? <==> origin[i].name.None?)
      ensures Retold(origin[i].markup, shared[i].markup)
    {
      AppliedIsRetold(p, origin[i].markup);
      assert shared[i] == swept[i] == ApplyDef(p, origin[i]);
    }
  }

  lemma FinishedOthers(origin: seq<Definition>, shared: seq<Definition>, r: Pass, q: Pass)
    requires OthersRetold(origin, shared)
    ensures OthersRetold(origin, ApplyDefs(q, RenamedAll(r, shared)))
  {
    var after := ApplyDefs(q, RenamedAll(r, shared));
    forall i | 0 <= i < |origin| && origin[i].Other?
      ensures after[i].Other? && (after[i].name.None? <==> origin[i].name.None?)
      ensures Retold(origin[i].markup, after[i].markup)
    {
      var was := shared[i].markup;
      assert after[i] == ApplyDef(q, Renamed(r, shared[i]));
      AppliedIsRetold(r, was);
      AppliedIsRetold(q, r.ApplyAll(was));
      RetoldAgain(origin[i].markup, was, r.ApplyAll(was));
      RetoldAgain(origin[i].markup, r.ApplyAll(was), q.ApplyAll(r.ApplyAll(was)));
    }
  }

  lemma KeptInOrder(
    source: seq<Definition>, aliases: map<string, string>, used: set<string>, kept: seq<Definition>,
    origin: seq<Definition>)
    requires kept == Keep(d => Unaliased(aliases, d), source) && origin == Keep(d => Kept(used, d), kept)
    requires DistinctSignatures(origin)
    ensures Chosen(origin, source)
  {
    KeepTwice(d => Unaliased(aliases, d), d => Kept(used, d), d => d in origin, source);
    forall i, j | 0 <= i < j < |origin| && origin[i].Gradient? && origin[j].Gradient?
      ensures LookDifferent(origin[i], origin[j])
    {
      assert Signature(origin[i]) != Signature(origin[j]);
    }
  }

  lemma SweptIsChosen(
    source: seq<Definition>, kept: seq<Definition>, aliases: map<string, string>, used: set<string>,
    origin: seq<Definition>)
    requires kept == Keep(d => Unaliased(aliases, d), source) && origin == Keep(d => Kept(used, d), kept)
    requires DistinctSignatures(kept)
    ensures Chosen(origin, source)
  {
    SweptSignatures(kept, used);
    KeptInOrder(source, aliases, used, kept, origin);
  }

  lemma SweptOthers(
    kept: seq<Definition>, p: Pass, used: set<string>, swept: seq<Definition>, shared: seq<Definition>)
    requires swept == Keep(d => Kept(used, d), ApplyDefs(p, kept)) && Shared(swept, shared)
    ensures OthersRetold(Keep(d => Kept(used, d), kept), shared)
  {
    KeepApplied(p, d => Kept(used, d), kept);
    SharedOthers(Keep(d => Kept(used, d), kept), p, swept, shared);
  }

  // ----- What can go wrong -----

  // A document that already uses an alias.
  const ROW := "logo-row-1"

  function Clashing(): seq<Definition> {
    [Other(Some("p0"), [Words("old")]), Other(Some(ROW), [Words("new")])]
  }

  lemma RowIsGenerated()
    ensures IsGenerated(ROW)
  {
    assert Contains("-row-1", "-row-") && Contains("o-row-1", "-row-") && Contains("go-row-1", "-row-");
    assert "ogo-row-1"[1..] == "go-row-1" && ROW[1..] == "ogo-row-1";
    assert "go-row-1"[1..] == "o-row-1" && "o-row-1"[1..] == "-row-1";
  }

  // RenameGenerated can name it in one way only ...
  lemma ClashingAliases(aliases: map<string, string>)
    requires forall x :: x in aliases <==> x in Names(Clashing()) && IsGenerated(x)
    requires aliases.Values == AliasNames(|GeneratedNames(Clashing())|)
    ensures aliases == map[ROW := "p0"]
  {
    var defs := Clashing();
    RowIsGenerated();
    ShortNamesAreNotGenerated(0);
    assert Decimals.Text(0) == "0" && ShortName(0) == "p0";
    assert defs[0] in defs && defs[1] in defs && Names(defs) == {"p0", ROW};
    assert GeneratedNames(defs) == {ROW};
    assert aliases[ROW] in aliases.Values && AliasNames(1) == {"p0"};
  }

  // ... and the renamed definition hides behind the older one. (Definitions that clash but look
  // alike do no harm, so Unused is sufficient for equal paintings, not necessary. What a caller can
  // test beforehand is Unused(MayGive(defs), defs, body).)
  lemma ClashesShow(aliases: map<string, string>)
    requires forall x :: x in aliases <==> x in Names(Clashing()) && IsGenerated(x)
    requires aliases.Values == AliasNames(|GeneratedNames(Clashing())|)
    ensures Plain(Clashing())
    ensures var p := Pass(aliases, false);
      !SamePaintings(Clashing(), [Ref(ROW)], RenamedAll(p, Clashing()), p.ApplyAll([Ref(ROW)]))
  {
    ClashingAliases(aliases);
    var p, defs := Pass(aliases, false), Clashing();
    var renamed := RenamedAll(p, defs);
    assert Lookup(defs, ROW) == Some(defs[1]) by {
      assert defs[1..][0] == defs[1];
    }
    assert Lookup(renamed, "p0") == Some(renamed[0]);
    assert PaintTokens(defs, [Ref(ROW)], 1)[0] == Painted(MarkupPaint([Text("new")])) by {
      assert PaintTokens(defs, [Words("new")], 0) == [Text("new")];
    }
    assert p.ApplyAll([Ref(ROW)]) == [Ref("p0")] && p.ApplyAll([Words("old")]) == [Words("old")];
    assert PaintTokens(renamed, [Ref("p0")], 1)[0] == Painted(MarkupPaint([Text("old")])) by {
      assert PaintTokens(renamed, [Words("old")], 0) == [Text("old")];
    }
    assert "old"[0] != "new"[0];
  }

  // Two gradients whose stops differ in a trailing zero: shortening comes too late for them to be
  // told to share, and makes them look the same.
  function Twin(id: string, offset: string): Definition {
    Gradient(id, true, map[], None, [Stop(None, [Scalar(offset)])])
  }

  lemma LateTwins(a: string, b: string)
    requires a != b && Spelling(a) == Spelling(b)
    ensures var defs := [Twin("a", a), Twin("b", b)];
      var short := ApplyDefs(Pass(map[], true), defs);
      && Plain(defs) && DistinctSignatures(defs) && DistinctStops(defs) && !SpelledOnce(defs)
      && !DistinctSignatures(short) && !DistinctStops(short)
  {
    var defs := [Twin("a", a), Twin("b", b)];
    TwinsDiffer(a, b, defs);
    TwinsAreSpelledTwice(a, b, defs);
    TwinsMeet(a, b, defs, ApplyDefs(Pass(map[], true), defs));
  }

  lemma TwinsDiffer(a: string, b: string, defs: seq<Definition>)
    requires a != b && defs == [Twin("a", a), Twin("b", b)]
    ensures Plain(defs) && DistinctSignatures(defs) && DistinctStops(defs)
  {
    assert Markups(defs[0].stops)[0][0] == Scalar(a) && Markups(defs[1].stops)[0][0] == Scalar(b);
  }

  lemma TwinsAreSpelledTwice(a: string, b: string, defs: seq<Definition>)
    requires a != b && Spelling(a) == Spelling(b) && defs == [Twin("a", a), Twin("b", b)]
    ensures !SpelledOnce(defs)
  {
    assert defs[0] in defs && defs[1] in defs;
    assert defs[0].stops[0].markup == [Scalar(a)] && defs[1].stops[0].markup == [Scalar(b)];
    assert InStops(defs, Scalar(a)) && InStops(defs, Scalar(b));
  }

  lemma TwinsMeet(a: string, b: string, defs: seq<Definition>, short: seq<Definition>)
    requires Spelling(a) == Spelling(b) && defs == [Twin("a", a), Twin("b", b)]
    requires short == ApplyDefs(Pass(map[], true), defs)
    ensures !DistinctSignatures(short) && !DistinctStops(short)
  {
    var p := Pass(map[], true);
    assert p.ApplyAll([Scalar(a)]) == p.ApplyAll([Scalar(b)]);
    assert short[0].stops == short[1].stops;
    assert Signature(short[0]) == Signature(short[1]);
  }

  lemma TwinsExist()
    ensures "0.5" != "0.50" && Spelling("0.5") == Spelling("0.50")
  {
    assert |"0.5"| != |"0.50"|;
    assert "0.50"[1..] == ".50" && "0.5"[1..] == ".5";
    assert Decimals.Point(".50") == 0 && Decimals.Point(".5") == 0;
    assert "0.50"[..3] == "0.5";
  }

  // ----- The document -----

  // The first passes of optimize_document.
  method ShareDefinitions(root: SvgDocument) returns (ghost taken: set<string>, ghost origin: seq<Definition>)
    requires Plain(root.defs)
    modifies root
    ensures NewNames(old(root.defs), old(root.body), root.defs, root.body, taken) && GeneratedOnce(root.defs)
    ensures taken <= TemplateNames(0, 2 * |old(root.defs)|)
    ensures taken <= Names(root.defs) <= Names(old(root.defs)) + taken
    ensures AllReachable(root.defs, root.body) && DistinctStops(root.defs)
    ensures NoNewScalars(old(root.defs), root.defs) && Stems(origin, old(root.defs), root.defs, {})
    ensures Chosen(origin, old(root.defs)) && OthersRetold(origin, root.defs)
    ensures Unused(taken, old(root.defs), old(root.body)) ==>
      UniqueIds(root.defs) && SamePaintings(old(root.defs), old(root.body), root.defs, root.body)
  {
    ghost var source, body := root.defs, root.body;
    ghost var kept, aliases := root.DeduplicateGradients();
    ghost var distinct, redirected := root.defs, root.body;
    ghost var used := root.RemoveUnused();
    ghost var swept := root.defs;
    NewNamesCompose(source, body, distinct, redirected, swept, root.body, {});
    SweptIsReachable(distinct, root.body, swept);
    taken := root.ShareStops();
    SharedIsReachable(swept, root.body, root.defs);
    origin := Keep(d => Kept(used, d), kept);
    SweptStems(source, kept, aliases, used, swept, root.defs);
    SweptIsChosen(source, kept, aliases, used, origin);
    SweptOthers(kept, Pass(aliases, false), used, swept, root.defs);
    ScalarsStay(source, kept, aliases, swept, root.defs);
    NewNamesCompose(source, body, swept, root.body, root.defs, root.body, taken);
    PaintingsCompose(source, body, distinct, redirected, swept, root.body);
    if Unused(taken, source, body) {
      StaysUnused(source, body, swept, root.body, {}, taken);
      PaintingsCompose(source, body, swept, root.body, root.defs, root.body);
    }
  }

  lemma ScalarsStay(
    source: seq<Definition>, kept: seq<Definition>, aliases: map<string, string>, swept: seq<Definition>,
    shared: seq<Definition>)
    requires Represented(source, kept, aliases) && forall d :: d in swept ==> d in ApplyDefs(Pass(aliases, false), kept)
    requires Shared(swept, shared) && AllBorrowed(swept, shared)
    ensures NoNewScalars(source, shared)
  {
    var p := Pass(aliases, false);
    AppliedScalars(p, kept, ApplyDefs(p, kept));
    SharedScalars(swept, shared);
  }

  // The last passes of optimize_document.
  method ShortenDocument(root: SvgDocument) returns (ghost aliases: map<string, string>)
    requires GeneratedOnce(root.defs)
    modifies root
    ensures forall x :: x in aliases <==> x in Names(old(root.defs)) && IsGenerated(x)
    ensures aliases.Values == AliasNames(|GeneratedNames(old(root.defs))|)
    ensures forall x, y :: x in aliases && y in aliases && aliases[x] == aliases[y] ==> x == y
    ensures root.defs == ApplyDefs(Pass(map[], true), RenamedAll(Pass(aliases, false), old(root.defs)))
    ensures root.body == Pass(map[], true).ApplyAll(Pass(aliases, false).ApplyAll(old(root.body)))
    ensures AllShort(root.defs, root.body)
    ensures UniqueIds(old(root.defs)) && Unused(aliases.Values, old(root.defs), old(root.body)) ==>
      UniqueIds(root.defs) && SamePaintings(old(root.defs), old(root.body), root.defs, root.body)
  {
    var names := root.RenameGenerated();
    aliases := names;
    ghost var renamed, body := root.defs, root.body;
    root.ShortenScalars();
    AppliedAreShort(Pass(map[], true), renamed, body);
    if UniqueIds(old(root.defs)) && Unused(aliases.Values, old(root.defs), old(root.body)) {
      PaintingsCompose(old(root.defs), old(root.body), renamed, body, root.defs, root.body);
    }
  }

  lemma FinishedIsReachable(shared: seq<Definition>, body: seq<Token>, aliases: map<string, string>)
    requires AllReachable(shared, body)
    ensures var r, q := Pass(aliases, false), Pass(map[], true);
      AllReachable(ApplyDefs(q, RenamedAll(r, shared)), q.ApplyAll(r.ApplyAll(body)))
  {
    var r, q := Pass(aliases, false), Pass(map[], true);
    RenamedIsReachable(r, shared, body);
    RenamedIsReachable(q, RenamedAll(r, shared), r.ApplyAll(body));
    assert ApplyDefs(q, RenamedAll(r, shared)) == RenamedAll(q, RenamedAll(r, shared));
  }

  // optimize_document: a copy of the source document that paints the same everywhere, unless the
  // source already used one of the names given out. What the body does not reach is gone, no two
  // definitions stem from gradients that looked the same, generated names and trailing zeros are
  // gone, and no two linear gradients spell out the same stops unless the source spelled one number
  // in two ways. Gradients that only came to look the same can remain: deduplication does not look
  // again after redirecting references, compares the ids of stops, and precedes shortening.
  method OptimizeDocument(source: SvgDocument)
    returns (root: SvgDocument, ghost given: set<string>, ghost origin: seq<Definition>)
    requires Plain(source.defs)
    ensures fresh(root)
    ensures given <= MayGive(source.defs)
    ensures given <= Names(root.defs) <= Names(source.defs) + given
    ensures Unused(given, source.defs, source.body) ==>
      UniqueIds(root.defs) && SamePaintings(source.defs, source.body, root.defs, root.body)
    ensures AllReachable(root.defs, root.body) && AllShort(root.defs, root.body)
    ensures Stems(origin, source.defs, root.defs, given)
    ensures forall x :: x in Names(root.defs) ==> !IsGenerated(x)
    ensures SpelledOnce(source.defs) && Unused(given, source.defs, source.body) ==>
      DistinctStops(root.defs) && StopsDiffer(root.defs)
    ensures Chosen(origin, source.defs) && OthersRetold(origin, root.defs)
    ensures AllReadable(root.defs) && NothingPadded(root.defs, root.body)
  {
    root := new SvgDocument(source.defs, source.body);
    ghost var taken;
    taken, origin := ShareDefinitions(root);
    ghost var shared, body := root.defs, root.body;
    ghost var names := ShortenDocument(root);
    given := taken + names.Values;
    GivenNames(source.defs, shared, taken);
    NoneGenerated(taken, 2 * |source.defs|);
    FinishedNames(shared, taken, names, Pass(map[], true));
    FinishedStems(origin, source.defs, shared, taken, names, Pass(map[], true));
    FinishedIsReachable(shared, body, names);
    FinishedOthers(origin, shared, Pass(names, false), Pass(map[], true));
    NotGeneratedIsReadable(root.defs);
    ShortIsNotPadded(root.defs, root.body);
    if Unused(given, source.defs, source.body) {
      AliasesAreNoTemplates(|GeneratedNames(shared)|, 2 * |source.defs|);
      StaysUnused(source.defs, source.body, shared, body, taken, names.Values);
      PaintingsCompose(source.defs, source.body, shared, body, root.defs, root.body);
      if SpelledOnce(source.defs) {
        UnusedIsBesides(names.Values, shared, body);
        FinishedStops(shared, names);
        DistinctStopsDiffer(root.defs);
      }
    }
  }
}

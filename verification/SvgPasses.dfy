// Why each pass of the optimizer leaves every painting alone.
module SvgPasses {

  import opened Options
  import opened Sequences
  import opened Svg
  import Decimals

  ghost predicate UniqueIds(defs: seq<Definition>) {
    && (forall i, j :: 0 <= i < j < |defs| && defs[i].Id().Some? ==> defs[i].Id() != defs[j].Id())
    && (forall i :: 0 <= i < |defs| ==> defs[i].Id() != Some(""))
  }

  ghost predicate NoTemplates(defs: seq<Definition>) {
    forall d :: d in defs && d.Gradient? ==> d.href.None?
  }

  lemma LookupUnique(defs: seq<Definition>, d: Definition, id: string)
    requires UniqueIds(defs) && d in defs && d.Id() == Some(id)
    ensures Lookup(defs, id) == Some(d)
  {
    var e := Lookup(defs, id).value;
    var i :| 0 <= i < |defs| && defs[i] == d;
    var j :| 0 <= j < |defs| && defs[j] == e;
  }

  // What a definition without a template amounts to.
  function Own(d: Definition): Content {
    match d
    case Gradient(_, linear, attrs, _, stops) => GradientContent(linear, attrs, Markups(stops))
    case Other(_, markup) => MarkupContent(markup)
  }

  lemma EffectiveIsOwn(defs: seq<Definition>, d: Definition)
    requires d.Gradient? ==> d.href.None?
    ensures Effective(defs, d) == Own(d)
  {
  }

  // ----- Renaming and rewriting -----

  function ApplyStop(p: Pass, s: Stop): Stop {
    s.(markup := p.ApplyAll(s.markup))
  }

  // An element with its references redirected.
  function ApplyDef(p: Pass, d: Definition): Definition {
    match d
    case Gradient(id, linear, attrs, href, stops) =>
      Gradient(id, linear, p.ApplyAttrs(attrs), if href.Some? then Some(p.Alias(href.value)) else None,
               seq(|stops|, i requires 0 <= i < |stops| => ApplyStop(p, stops[i])))
    case Other(name, markup) => Other(name, p.ApplyAll(markup))
  }

  function ApplyDefs(p: Pass, defs: seq<Definition>): seq<Definition> {
    seq(|defs|, i requires 0 <= i < |defs| => ApplyDef(p, defs[i]))
  }

  function RenameDef(p: Pass, d: Definition): Definition {
    match d
    case Gradient(id, _, _, _, _) => d.(id := p.Alias(id))
    case Other(name, _) => d.(name := if name.Some? then Some(p.Alias(name.value)) else None)
  }

  lemma ApplyMarkups(p: Pass, d: Definition)
    requires d.Gradient?
    ensures Markups(ApplyDef(p, d).stops) == p.ApplyStops(Markups(d.stops))
  {
  }

  lemma {:induction false} LookupApplied(p: Pass, defs: seq<Definition>, id: string)
    ensures Lookup(ApplyDefs(p, defs), id)
         == match Lookup(defs, id) case None => None case Some(d) => Some(ApplyDef(p, d))
  {
    if defs != [] {
      LookupApplied(p, defs[1..], id);
      assert ApplyDefs(p, defs)[1..] == ApplyDefs(p, defs[1..]);
    }
  }

  // ----- Deduplication -----

  const NO_NAME := ""

  function Signature(d: Definition): Definition
    requires d.Gradient?
  {
    d.(id := NO_NAME)
  }

  // A kept gradient stands for everything with its signature.
  ghost predicate Stands(kept: seq<Definition>, id: string, signature: Definition) {
    exists e :: e in kept && e.Gradient? && e.id == id && Signature(e) == signature
  }

  // Every definition was kept, or it is a gradient with an alias that looks the same.
  ghost predicate Represented(defs: seq<Definition>, kept: seq<Definition>, aliases: map<string, string>) {
    && (forall d :: d in kept ==> d in defs && (d.Id().Some? ==> d.Id().value !in aliases))
    && (forall d :: d in defs ==>
          d in kept || (d.Gradient? && d.id in aliases && Stands(kept, aliases[d.id], Signature(d))))
  }

  ghost predicate Deduplicated(defs: seq<Definition>, kept: seq<Definition>, aliases: map<string, string>) {
    && Represented(defs, kept, aliases)
    && (forall x {:trigger aliases[x]} :: x in aliases ==> exists d :: d in defs && d.Id() == Some(x))
  }

  ghost function Everything(): iset<string> {
    iset x: string | |x| >= 0
  }

  lemma RefsInEverything(c: Content)
    ensures ContentRefsIn(c, Everything())
  {
  }

  lemma DeduplicationCorresponds(defs: seq<Definition>, kept: seq<Definition>, aliases: map<string, string>)
    requires UniqueIds(defs) && UniqueIds(kept) && NoTemplates(defs) && Deduplicated(defs, kept, aliases)
    ensures Corresponds(defs, ApplyDefs(Pass(aliases, false), kept), Pass(aliases, false), Everything())
  {
    var p := Pass(aliases, false);
    var after := ApplyDefs(p, kept);
    forall id | id in Everything() ensures SameDefinition(defs, after, p, Everything(), id) {
      LookupApplied(p, kept, p.Alias(id));
      match Lookup(defs, id)
      case None =>
        assert id !in aliases;
        assert Lookup(kept, id).None?;
      case Some(d) =>
        var e := KeptFor(defs, kept, aliases, d, id);
        EffectiveIsOwn(defs, d);
        EffectiveIsOwn(after, ApplyDef(p, e));
        RefsInEverything(Own(d));
        if d.Gradient? {
          ApplyMarkups(p, d);
          ApplyMarkups(p, e);
        }
    }
  }

  // The kept definition a name now leads to.
  lemma KeptFor(defs: seq<Definition>, kept: seq<Definition>, aliases: map<string, string>, d: Definition, id: string)
    returns (e: Definition)
    requires UniqueIds(kept) && NoTemplates(defs) && Represented(defs, kept, aliases)
    requires d in defs && d.Id() == Some(id)
    ensures Lookup(kept, Pass(aliases, false).Alias(id)) == Some(e) && e in defs
    ensures if d.Gradient? then e.Gradient? && Signature(e) == Signature(d) else e == d
  {
    if d in kept {
      e := d;
      LookupUnique(kept, d, id);
    } else {
      e :| e in kept && e.Gradient? && e.id == aliases[id] && Signature(e) == Signature(d);
      LookupUnique(kept, e, aliases[id]);
    }
  }

  // ----- Sweeping -----

  // The names a definition refers to, its template included.
  function MarkupRefs(tokens: seq<Token>): seq<string> {
    if tokens == [] then []
    else (if tokens[0].Ref? then [tokens[0].id] else []) + MarkupRefs(tokens[1..])
  }

  function StopRefs(stops: seq<Stop>): seq<string> {
    if stops == [] then [] else MarkupRefs(stops[0].markup) + StopRefs(stops[1..])
  }

  lemma {:induction false} MarkupRefsFound(tokens: seq<Token>)
    ensures forall i :: 0 <= i < |tokens| && tokens[i].Ref? ==> tokens[i].id in MarkupRefs(tokens)
    ensures forall x :: x in MarkupRefs(tokens) ==> Ref(x) in tokens
  {
    if tokens != [] {
      MarkupRefsFound(tokens[1..]);
    }
  }

  ghost predicate RefersTo(d: Definition, x: string) {
    match d
    case Gradient(_, _, attrs, href, stops) =>
      || href == Some(x)
      || (exists k :: k in attrs && Ref(x) in attrs[k])
      || (exists i :: 0 <= i < |stops| && Ref(x) in stops[i].markup)
    case Other(_, markup) => Ref(x) in markup
  }

  ghost function Live(defs: seq<Definition>, used: set<string>): iset<string> {
    iset x: string | x in used || Lookup(defs, x).None?
  }

  // `used` keeps whatever a used definition refers to.
  ghost predicate Closed(defs: seq<Definition>, used: set<string>) {
    forall d, x :: d in defs && d.Id().Some? && d.Id().value in used && RefersTo(d, x) ==> x in Live(defs, used)
  }

  predicate Kept(used: set<string>, d: Definition) {
    d.Id().None? || d.Id().value in used
  }

  lemma SweepCorresponds(defs: seq<Definition>, kept: seq<Definition>, used: set<string>)
    requires UniqueIds(defs) && UniqueIds(kept) && NoTemplates(defs) && Closed(defs, used)
    requires forall d :: d in kept <==> d in defs && Kept(used, d)
    ensures Corresponds(defs, kept, Pass(map[], false), Live(defs, used))
  {
    var p, live := Pass(map[], false), Live(defs, used);
    forall id | id in live ensures SameDefinition(defs, kept, p, live, id) {
      match Lookup(defs, id)
      case None =>
      case Some(d) =>
        LookupUnique(kept, d, id);
        EffectiveIsOwn(defs, d);
        EffectiveIsOwn(kept, d);
        NothingChanges(Own(d));
        forall x | RefersTo(d, x) ensures x in live {
        }
        LiveContent(d, live);
    }
  }

  lemma LiveContent(d: Definition, live: iset<string>)
    requires forall x :: RefersTo(d, x) ==> x in live
    ensures ContentRefsIn(Own(d), live)
  {
    match d
    case Other(_, markup) =>
      forall i | 0 <= i < |markup| && markup[i].Ref? ensures markup[i].id in live {
        assert RefersTo(d, markup[i].id);
      }
    case Gradient(_, _, attrs, _, stops) =>
      forall k, i | k in attrs && 0 <= i < |attrs[k]| && attrs[k][i].Ref? ensures attrs[k][i].id in live {
        assert Ref(attrs[k][i].id) == attrs[k][i];
        assert RefersTo(d, attrs[k][i].id);
      }
      forall s, i | 0 <= s < |stops| && 0 <= i < |stops[s].markup| && stops[s].markup[i].Ref?
        ensures stops[s].markup[i].id in live
      {
        assert Ref(stops[s].markup[i].id) == stops[s].markup[i];
        assert RefersTo(d, stops[s].markup[i].id);
      }
  }

  // A pass without aliases that shortens nothing leaves content alone.
  lemma NothingChanges(c: Content)
    ensures Pass(map[], false).ApplyContent(c) == c
  {
    var p := Pass(map[], false);
    forall tokens: seq<Token> ensures p.ApplyAll(tokens) == tokens {
    }
  }

  // ----- Sharing stops -----

  lemma NumberedOnce(prefix: string, i: nat, j: nat)
    requires prefix + Decimals.Text(i) == prefix + Decimals.Text(j)
    ensures i == j
  {
    var a, b := prefix + Decimals.Text(i), prefix + Decimals.Text(j);
    assert a[|prefix|..] == Decimals.Text(i) && b[|prefix|..] == Decimals.Text(j);
    Decimals.TextIsInjective(i, j);
  }

  ghost predicate RefsKnown(defs: seq<Definition>, known: iset<string>) {
    forall d, x :: d in defs && RefersTo(d, x) ==> x in known
  }

  function TemplateName(index: nat): string {
    "stops" + Decimals.Text(index)
  }

  function Template(index: nat, stops: seq<Stop>): Definition {
    Gradient(TemplateName(index), true, map[], None, stops)
  }

  // The names of the templates at the positions from m up to n.
  ghost function TemplateNames(m: nat, n: nat): set<string> {
    set j: nat | m <= j < n :: TemplateName(j)
  }

  // A name the definitions give or refer to.
  ghost predicate Mentions(defs: seq<Definition>, x: string) {
    exists d :: d in defs && (d.Id() == Some(x) || RefersTo(d, x))
  }

  // d gave its stops away to the template at `home` and now borrows them.
  ghost predicate Borrows(d: Definition, e: Definition, all: seq<Definition>, home: nat) {
    && home < |all| && all[home].Gradient?
    && d.Gradient? && d.linear && d.stops != []
    && e == d.(stops := [], href := Some(all[home].id))
    && Markups(all[home].stops) == Markups(d.stops)
  }

  ghost predicate Shared(before: seq<Definition>, after: seq<Definition>) {
    && |before| <= |after|
    && (forall i :: 0 <= i < |before| ==>
          after[i] == before[i] || exists home :: |before| <= home && Borrows(before[i], after[i], after, home))
    && (forall j :: |before| <= j < |after| ==>
          after[j].Gradient? && after[j] == Template(j, after[j].stops) && after[j].stops != [])
  }

  ghost function Besides(taken: set<string>): iset<string> {
    iset x: string | x !in taken
  }

  // None of the names is given or referred to by the definitions.
  ghost predicate Unmentioned(taken: set<string>, defs: seq<Definition>) {
    forall x :: x in taken ==> !Mentions(defs, x)
  }

  lemma UnmentionedIsBesides(taken: set<string>, defs: seq<Definition>)
    requires Unmentioned(taken, defs)
    ensures forall d :: d in defs && d.Id().Some? ==> d.Id().value in Besides(taken)
    ensures RefsKnown(defs, Besides(taken))
  {
    forall d | d in defs && d.Id().Some? ensures d.Id().value in Besides(taken) {
      assert Mentions(defs, d.Id().value);
    }
    forall d, x | d in defs && RefersTo(d, x) ensures x in Besides(taken) {
      assert Mentions(defs, x);
    }
  }

  lemma SharedIds(before: seq<Definition>, after: seq<Definition>, taken: set<string>)
    requires Shared(before, after) && UniqueIds(before)
    requires taken == TemplateNames(|before|, |after|) && Unmentioned(taken, before)
    ensures UniqueIds(after)
    ensures forall i :: 0 <= i < |before| ==> after[i].Id() == before[i].Id()
    ensures forall j :: |before| <= j < |after| ==> after[j].Id().value in taken
  {
    forall j | |before| <= j < |after| ensures after[j].Id() == Some(TemplateName(j)) && TemplateName(j) in taken {
    }
    UnmentionedIsBesides(taken, before);
    forall i, j | 0 <= i < j < |after| && after[i].Id().Some? ensures after[i].Id() != after[j].Id() {
      if |before| <= i && after[i].Id() == after[j].Id() {
        NumberedOnce("stops", i, j);
      } else if i < |before| {
        assert before[i] in before;
      }
    }
  }

  lemma SharingCorresponds(before: seq<Definition>, after: seq<Definition>, taken: set<string>)
    requires Shared(before, after) && UniqueIds(before) && NoTemplates(before)
    requires taken == TemplateNames(|before|, |after|) && Unmentioned(taken, before)
    ensures Corresponds(before, after, Pass(map[], false), Besides(taken))
  {
    var p, known := Pass(map[], false), Besides(taken);
    SharedIds(before, after, taken);
    UnmentionedIsBesides(taken, before);
    forall id | id in known ensures SameDefinition(before, after, p, known, id) {
      match Lookup(before, id)
      case None =>
      case Some(d) =>
        var i :| 0 <= i < |before| && before[i] == d;
        assert after[i] in after;
        LookupUnique(after, after[i], id);
        BorrowedContent(before, after, i);
        NothingChanges(Own(d));
        EffectiveIsOwn(before, d);
        LiveContent(d, known);
    }
  }

  // A gradient that borrows its stops amounts to what it was.
  lemma BorrowedContent(before: seq<Definition>, after: seq<Definition>, i: nat)
    requires Shared(before, after) && UniqueIds(after) && NoTemplates(before) && i < |before|
    ensures Effective(after, after[i]) == Own(before[i])
  {
    assert before[i] in before;
    if after[i] == before[i] {
      EffectiveIsOwn(after, after[i]);
    } else {
      var home :| |before| <= home && Borrows(before[i], after[i], after, home);
      var t := after[home];
      assert t in after;
      LookupUnique(after, t, t.id);
      assert TemplateOf(after, after[i]) == Some(t);
      assert EffectiveStops(after, after[i], |after|) == EffectiveStops(after, t, |after| - 1) == Markups(t.stops);
      assert EffectiveAttrs(after, t, |after| - 1) == map[];
      assert map[] + after[i].attrs == after[i].attrs;
    }
  }

  // ----- Renaming -----

  function Renamed(p: Pass, d: Definition): Definition {
    ApplyDef(p, RenameDef(p, d))
  }

  function RenamedAll(p: Pass, defs: seq<Definition>): seq<Definition> {
    seq(|defs|, i requires 0 <= i < |defs| => Renamed(p, defs[i]))
  }

  // No two names that matter get the same alias.
  ghost predicate KeepsApart(p: Pass, defs: seq<Definition>, known: iset<string>) {
    forall d, x :: d in defs && d.Id().Some? && x in known && p.Alias(d.Id().value) == p.Alias(x) ==> d.Id().value == x
  }

  lemma {:induction false} LookupRenamed(p: Pass, defs: seq<Definition>, known: iset<string>, id: string)
    requires KeepsApart(p, defs, known) && id in known
    ensures Lookup(RenamedAll(p, defs), p.Alias(id))
         == match Lookup(defs, id) case None => None case Some(d) => Some(Renamed(p, d))
  {
    if defs != [] {
      assert defs[0] in defs && forall d :: d in defs[1..] ==> d in defs;
      LookupRenamed(p, defs[1..], known, id);
      assert RenamedAll(p, defs)[1..] == RenamedAll(p, defs[1..]);
    }
  }

  lemma TemplateRenamed(p: Pass, defs: seq<Definition>, known: iset<string>, d: Definition)
    requires KeepsApart(p, defs, known) && RefsKnown(defs, known) && d in defs
    ensures TemplateOf(RenamedAll(p, defs), Renamed(p, d))
         == match TemplateOf(defs, d) case None => None case Some(t) => Some(Renamed(p, t))
  {
    if d.Gradient? && d.href.Some? {
      assert RefersTo(d, d.href.value);
      LookupRenamed(p, defs, known, d.href.value);
    }
  }

  lemma {:induction false} StopsRenamed(p: Pass, defs: seq<Definition>, known: iset<string>, d: Definition, hops: nat)
    requires KeepsApart(p, defs, known) && RefsKnown(defs, known) && d in defs && d.Gradient?
    ensures EffectiveStops(RenamedAll(p, defs), Renamed(p, d), hops) == p.ApplyStops(EffectiveStops(defs, d, hops))
    decreases hops
  {
    if d.stops != [] {
      ApplyMarkups(p, RenameDef(p, d));
    } else {
      TemplateRenamed(p, defs, known, d);
      if hops > 0 && TemplateOf(defs, d).Some? {
        StopsRenamed(p, defs, known, TemplateOf(defs, d).value, hops - 1);
      }
    }
  }

  lemma InheritedAttrs(p: Pass, inherited: map<string, seq<Token>>, own: map<string, seq<Token>>)
    ensures p.ApplyAttrs(inherited + own) == p.ApplyAttrs(inherited) + p.ApplyAttrs(own)
  {
  }

  lemma {:induction false} AttrsRenamed(p: Pass, defs: seq<Definition>, known: iset<string>, d: Definition, hops: nat)
    requires KeepsApart(p, defs, known) && RefsKnown(defs, known) && d in defs && d.Gradient?
    ensures EffectiveAttrs(RenamedAll(p, defs), Renamed(p, d), hops) == p.ApplyAttrs(EffectiveAttrs(defs, d, hops))
    decreases hops
  {
    TemplateRenamed(p, defs, known, d);
    if hops > 0 && TemplateOf(defs, d).Some? {
      var t := TemplateOf(defs, d).value;
      AttrsRenamed(p, defs, known, t, hops - 1);
      InheritedAttrs(p, EffectiveAttrs(defs, t, hops - 1), d.attrs);
    }
  }

  lemma {:induction false} EffectiveRefsKnown(defs: seq<Definition>, known: iset<string>, d: Definition, hops: nat)
    requires RefsKnown(defs, known) && d in defs && d.Gradient?
    ensures forall k :: k in EffectiveAttrs(defs, d, hops) ==> RefsIn(EffectiveAttrs(defs, d, hops)[k], known)
    ensures forall i :: 0 <= i < |EffectiveStops(defs, d, hops)| ==> RefsIn(EffectiveStops(defs, d, hops)[i], known)
    decreases hops
  {
    LiveContent(d, known);
    if hops > 0 && TemplateOf(defs, d).Some? {
      EffectiveRefsKnown(defs, known, TemplateOf(defs, d).value, hops - 1);
    }
  }

  lemma RenamingCorresponds(p: Pass, defs: seq<Definition>, known: iset<string>)
    requires KeepsApart(p, defs, known) && RefsKnown(defs, known)
    ensures Corresponds(defs, RenamedAll(p, defs), p, known)
  {
    var after := RenamedAll(p, defs);
    forall id | id in known ensures SameDefinition(defs, after, p, known, id) {
      LookupRenamed(p, defs, known, id);
      match Lookup(defs, id)
      case None =>
      case Some(d) =>
        if d.Gradient? {
          StopsRenamed(p, defs, known, d, |defs|);
          AttrsRenamed(p, defs, known, d, |defs|);
          EffectiveRefsKnown(defs, known, d, |defs|);
        } else {
          LiveContent(d, known);
        }
    }
  }
}

// SVG documents as the optimizer sees them, and what their paint references mean. Markup is
// a sequence of words, scalar attribute values and references; only definitions have names.
module Svg {

  import opened Options
  import Decimals

  // url(#id) and href="#id" are references; a scalar is the value of a coordinate attribute.
  datatype Token = Words(text: string) | Scalar(text: string) | Ref(id: string)

  datatype Stop = Stop(id: Option<string>, markup: seq<Token>)

  datatype Definition =
    | Gradient(id: string, linear: bool, attrs: map<string, seq<Token>>, href: Option<string>, stops: seq<Stop>)
    | Other(name: Option<string>, markup: seq<Token>)
  {
    function Id(): Option<string> {
      match this
      case Gradient(id, _, _, _, _) => Some(id)
      case Other(name, _) => name
    }
  }

  function Lookup(defs: seq<Definition>, id: string): (d: Option<Definition>)
    ensures d.Some? ==> d.value in defs && d.value.Id() == Some(id)
    ensures d.None? ==> forall e :: e in defs ==> e.Id() != Some(id)
  {
    if defs == [] then None else if defs[0].Id() == Some(id) then Some(defs[0]) else Lookup(defs[1..], id)
  }

  // ----- What a definition amounts to (SVG 1.1, section 13.2.2) -----

  datatype Content =
    | GradientContent(linear: bool, attrs: map<string, seq<Token>>, stops: seq<seq<Token>>)
    | MarkupContent(markup: seq<Token>)

  function Markups(stops: seq<Stop>): seq<seq<Token>> {
    seq(|stops|, i requires 0 <= i < |stops| => stops[i].markup)
  }

  function TemplateOf(defs: seq<Definition>, d: Definition): Option<Definition> {
    if d.Gradient? && d.href.Some? && Lookup(defs, d.href.value).Some? && Lookup(defs, d.href.value).value.Gradient?
    then Lookup(defs, d.href.value) else None
  }

  // A gradient without stops of its own takes those of its template; `hops` bounds the chain.
  function EffectiveStops(defs: seq<Definition>, d: Definition, hops: nat): seq<seq<Token>>
    requires d.Gradient?
    decreases hops
  {
    if d.stops != [] then Markups(d.stops)
    else if hops == 0 || TemplateOf(defs, d).None? then []
    else EffectiveStops(defs, TemplateOf(defs, d).value, hops - 1)
  }

  // Attributes a gradient lacks are those of its template.
  function EffectiveAttrs(defs: seq<Definition>, d: Definition, hops: nat): map<string, seq<Token>>
    requires d.Gradient?
    decreases hops
  {
    if hops == 0 || TemplateOf(defs, d).None? then d.attrs
    else EffectiveAttrs(defs, TemplateOf(defs, d).value, hops - 1) + d.attrs
  }

  function Effective(defs: seq<Definition>, d: Definition): Content {
    match d
    case Gradient(_, linear, _, _, _) =>
      GradientContent(linear, EffectiveAttrs(defs, d, |defs|), EffectiveStops(defs, d, |defs|))
    case Other(_, markup) => MarkupContent(markup)
  }

  // ----- What a reference paints -----

  // Definitions may refer to one another in circles, so a painting is unfolded to a depth;
  // two documents paint the same when they agree at every depth.
  datatype Piece = Text(text: string) | Amount(value: real) | Painted(painting: Painting)

  datatype Painting =
    | Missing
    | Deeper
    | GradientPaint(linear: bool, attrs: map<string, seq<Piece>>, stops: seq<seq<Piece>>)
    | MarkupPaint(markup: seq<Piece>)

  function Paint(defs: seq<Definition>, id: string, depth: nat): Painting
    decreases depth, 2
  {
    if depth == 0 then Deeper
    else
      match Lookup(defs, id)
      case None => Missing
      case Some(d) => PaintContent(defs, Effective(defs, d), depth - 1)
  }

  function PaintContent(defs: seq<Definition>, c: Content, depth: nat): Painting
    decreases depth, 5
  {
    match c
    case GradientContent(linear, attrs, stops) =>
      GradientPaint(
        linear,
        map k | k in attrs :: PaintTokens(defs, attrs[k], depth),
        seq(|stops|, i requires 0 <= i < |stops| => PaintTokens(defs, stops[i], depth)))
    case MarkupContent(markup) => MarkupPaint(PaintTokens(defs, markup, depth))
  }

  function PaintTokens(defs: seq<Definition>, tokens: seq<Token>, depth: nat): seq<Piece>
    decreases depth, 4
  {
    seq(|tokens|, i requires 0 <= i < |tokens| => PaintToken(defs, tokens[i], depth))
  }

  function PaintToken(defs: seq<Definition>, t: Token, depth: nat): Piece
    decreases depth, 3
  {
    match t
    case Words(text) => Text(text)
    case Scalar(text) => if Decimals.IsDecimal(text) then Amount(Decimals.Value(text)) else Text(text)
    case Ref(id) => Painted(Paint(defs, id, depth))
  }

  // ----- What a pass does to markup -----

  // Redirect references, and shorten scalars if asked.
  datatype Pass = Pass(aliases: map<string, string>, shorten: bool) {

    function Alias(id: string): string {
      if id in aliases then aliases[id] else id
    }

    function Apply(t: Token): Token {
      match t
      case Words(_) => t
      case Scalar(text) => if shorten && Decimals.HasDecimals(text) then Scalar(Decimals.Shorten(text)) else t
      case Ref(id) => Ref(Alias(id))
    }

    function ApplyAll(tokens: seq<Token>): seq<Token> {
      seq(|tokens|, i requires 0 <= i < |tokens| => Apply(tokens[i]))
    }

    function ApplyAttrs(attrs: map<string, seq<Token>>): map<string, seq<Token>> {
      map k | k in attrs :: ApplyAll(attrs[k])
    }

    function ApplyStops(stops: seq<seq<Token>>): seq<seq<Token>> {
      seq(|stops|, i requires 0 <= i < |stops| => ApplyAll(stops[i]))
    }

    function ApplyContent(c: Content): Content {
      match c
      case GradientContent(linear, attrs, stops) => GradientContent(linear, ApplyAttrs(attrs), ApplyStops(stops))
      case MarkupContent(markup) => MarkupContent(ApplyAll(markup))
    }
  }

  // Every reference in the markup satisfies `known`.
  ghost predicate RefsIn(tokens: seq<Token>, known: iset<string>) {
    forall i :: 0 <= i < |tokens| && tokens[i].Ref? ==> tokens[i].id in known
  }

  ghost predicate ContentRefsIn(c: Content, known: iset<string>) {
    match c
    case GradientContent(_, attrs, stops) =>
      && (forall k :: k in attrs ==> RefsIn(attrs[k], known))
      && (forall i :: 0 <= i < |stops| ==> RefsIn(stops[i], known))
    case MarkupContent(markup) => RefsIn(markup, known)
  }

  // The definition of every known name in `before` is the one its alias has in `after`.
  ghost predicate Corresponds(before: seq<Definition>, after: seq<Definition>, pass: Pass, known: iset<string>) {
    forall id :: id in known ==> SameDefinition(before, after, pass, known, id)
  }

  ghost predicate SameDefinition(
    before: seq<Definition>, after: seq<Definition>, pass: Pass, known: iset<string>, id: string)
  {
    match (Lookup(before, id), Lookup(after, pass.Alias(id)))
    case (None, None) => true
    case (Some(d), Some(e)) =>
      && Effective(after, e) == pass.ApplyContent(Effective(before, d))
      && ContentRefsIn(Effective(before, d), known)
    case _ => false
  }

  // Corresponding documents paint the same, at every depth.
  lemma {:induction false} SamePaint(
    before: seq<Definition>, after: seq<Definition>, pass: Pass, known: iset<string>, id: string, depth: nat)
    requires Corresponds(before, after, pass, known) && id in known
    ensures Paint(before, id, depth) == Paint(after, pass.Alias(id), depth)
    decreases depth, 2
  {
    if depth > 0 {
      assert SameDefinition(before, after, pass, known, id);
      match Lookup(before, id)
      case None =>
      case Some(d) => SameContent(before, after, pass, known, Effective(before, d), depth - 1);
    }
  }

  lemma {:induction false} SameContent(
    before: seq<Definition>, after: seq<Definition>, pass: Pass, known: iset<string>, c: Content, depth: nat)
    requires Corresponds(before, after, pass, known) && ContentRefsIn(c, known)
    ensures PaintContent(before, c, depth) == PaintContent(after, pass.ApplyContent(c), depth)
    decreases depth, 5
  {
    match c
    case MarkupContent(markup) => SameMarkup(before, after, pass, known, markup, depth);
    case GradientContent(_, attrs, stops) =>
      forall k | k in attrs
        ensures PaintTokens(before, attrs[k], depth) == PaintTokens(after, pass.ApplyAll(attrs[k]), depth)
      {
        SameMarkup(before, after, pass, known, attrs[k], depth);
      }
      forall i | 0 <= i < |stops|
        ensures PaintTokens(before, stops[i], depth) == PaintTokens(after, pass.ApplyAll(stops[i]), depth)
      {
        SameMarkup(before, after, pass, known, stops[i], depth);
      }
      var p, q := PaintContent(before, c, depth), PaintContent(after, pass.ApplyContent(c), depth);
      assert p.attrs == q.attrs;
      assert p.stops == q.stops;
  }

  lemma {:induction false} SameMarkup(
    before: seq<Definition>, after: seq<Definition>, pass: Pass, known: iset<string>, tokens: seq<Token>, depth: nat)
    requires Corresponds(before, after, pass, known) && RefsIn(tokens, known)
    ensures PaintTokens(before, tokens, depth) == PaintTokens(after, pass.ApplyAll(tokens), depth)
    decreases depth, 4
  {
    forall i | 0 <= i < |tokens|
      ensures PaintToken(before, tokens[i], depth) == PaintToken(after, pass.Apply(tokens[i]), depth)
    {
      match tokens[i]
      case Words(_) =>
      case Scalar(text) =>
        if pass.shorten && Decimals.HasDecimals(text) {
          Decimals.ShortenKeepsValue(text);
        }
      case Ref(id) => SamePaint(before, after, pass, known, id, depth);
    }
  }
}

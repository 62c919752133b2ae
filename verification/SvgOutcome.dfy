// What a finished document looks like next to its source, in the documents' own terms.
module SvgOutcome {

  import opened Options
  import opened Sequences
  import opened Svg
  import Decimals

  // ----- Texts -----

  ghost predicate Lacks(name: string, part: string) {
    forall i, j :: 0 <= i <= j <= |name| && j == i + |part| ==> name[i..j] != part
  }

  // No mark of a generated row, fade, mask or band name.
  ghost predicate Readable(name: string) {
    Lacks(name, "-row-") && Lacks(name, "-fade-") && Lacks(name, "-mask-") && Lacks(name, "-band-")
  }

  predicate IsDigits(s: string) {
    s != "" && forall i :: 0 <= i < |s| ==> '0' <= s[i] <= '9'
  }

  // An optional sign, digits, a point and digits, the last of them a zero.
  ghost predicate Padded(s: string) {
    exists sign, p :: PaddedAt(s, sign, p)
  }

  predicate PaddedAt(s: string, sign: int, p: int) {
    && 0 <= sign <= 1 && (sign == 1 ==> s != "" && s[0] == '-') && sign < p < |s| - 1
    && IsDigits(s[sign..p]) && s[p] == '.' && IsDigits(s[p + 1..]) && s[|s| - 1] == '0'
  }

  // ----- Markup -----

  predicate InMarkup(d: Definition, t: Token) {
    match d
    case Gradient(_, _, attrs, _, stops) =>
      || (exists k :: k in attrs && t in attrs[k])
      || (exists i :: 0 <= i < |stops| && t in stops[i].markup)
    case Other(_, markup) => t in markup
  }

  ghost predicate NothingPadded(defs: seq<Definition>, body: seq<Token>) {
    forall t: Token :: t.Scalar? && (t in body || exists d :: d in defs && InMarkup(d, t)) ==> !Padded(t.text)
  }

  // The same words, scalars of the same value, and references where there were references.
  predicate RetoldToken(t: Token, t': Token) {
    match t
    case Words(_) => t' == t
    case Scalar(text) =>
      t'.Scalar?
      && (t'.text == text
          || (Decimals.IsDecimal(text) && Decimals.IsDecimal(t'.text)
              && Decimals.Value(text) == Decimals.Value(t'.text)))
    case Ref(_) => t'.Ref?
  }

  predicate Retold(tokens: seq<Token>, tokens': seq<Token>) {
    |tokens| == |tokens'| && forall i :: 0 <= i < |tokens| ==> RetoldToken(tokens[i], tokens'[i])
  }

  // ----- Definitions -----

  // Two gradients of different kinds, or with different attributes, templates or stops.
  predicate LookDifferent(d: Definition, e: Definition)
    requires d.Gradient? && e.Gradient?
  {
    d.linear != e.linear || d.attrs != e.attrs || d.href != e.href || d.stops != e.stops
  }

  // The definitions of the source that are still there: in their order, everything without a name,
  // and no two gradients that look the same.
  ghost predicate Chosen(origin: seq<Definition>, source: seq<Definition>) {
    && origin == Keep(d => d in origin, source)
    && (forall d :: d in source && d.Id().None? ==> d in origin)
    && forall i, j :: 0 <= i < j < |origin| && origin[i].Gradient? && origin[j].Gradient? ==>
         LookDifferent(origin[i], origin[j])
  }

  // What was no gradient is told again in its place.
  ghost predicate OthersRetold(origin: seq<Definition>, defs: seq<Definition>) {
    |origin| <= |defs|
    && forall i :: 0 <= i < |origin| && origin[i].Other? ==>
         defs[i].Other? && (defs[i].name.None? <==> origin[i].name.None?) && Retold(origin[i].markup, defs[i].markup)
  }

  ghost predicate AllReadable(defs: seq<Definition>) {
    forall d :: d in defs && d.Id().Some? ==> Readable(d.Id().value)
  }

  // No two linear gradients have stops of their own with the same markup.
  ghost predicate StopsDiffer(defs: seq<Definition>) {
    forall i, j :: 0 <= i < j < |defs| && OwnStops(defs[i]) && OwnStops(defs[j]) ==>
      |defs[i].stops| != |defs[j].stops|
      || exists k :: 0 <= k < |defs[i].stops| && defs[i].stops[k].markup != defs[j].stops[k].markup
  }

  predicate OwnStops(d: Definition) {
    d.Gradient? && d.linear && d.stops != []
  }
}

// Decimal texts: the names the optimizer numbers, and the numbers it shortens.
module Decimals {

  predicate IsDigit(c: char) {
    '0' <= c <= '9'
  }

  predicate AllDigits(s: string) {
    forall i :: 0 <= i < |s| ==> IsDigit(s[i])
  }

  function DigitValue(c: char): int
    requires IsDigit(c)
  {
    (c - '0') as int
  }

  // The number a digit string denotes; the empty string denotes zero.
  function Number(s: string): int
    requires AllDigits(s)
  {
    if s == "" then 0 else 10 * Number(s[..|s| - 1]) + DigitValue(s[|s| - 1])
  }

  // str(n) for a natural number
  function Text(n: nat): (s: string)
    ensures AllDigits(s) && s != ""
    decreases n
  {
    if n < 10 then [('0' as int + n) as char] else Text(n / 10) + [('0' as int + n % 10) as char]
  }

  lemma {:induction false} NumberOfText(n: nat)
    ensures Number(Text(n)) == n
    decreases n
  {
    if n >= 10 {
      NumberOfText(n / 10);
      var s := Text(n);
      assert s[..|s| - 1] == Text(n / 10) && DigitValue(s[|s| - 1]) == n % 10;
    } else {
      assert Text(n)[..0] == "";
    }
  }

  // Different numbers are written differently.
  lemma TextIsInjective(a: nat, b: nat)
    requires Text(a) == Text(b)
    ensures a == b
  {
    NumberOfText(a);
    NumberOfText(b);
  }

  // The value of the digits after a decimal point.
  function Fraction(s: string): real
    requires AllDigits(s)
  {
    if s == "" then 0.0 else (DigitValue(s[0]) as real + Fraction(s[1..])) / 10.0
  }

  // Where the decimal point is; |s| when there is none.
  function Point(s: string): (i: nat)
    ensures i <= |s|
    ensures i < |s| ==> s[i] == '.'
    ensures forall k :: 0 <= k < i ==> s[k] != '.'
  {
    if s == "" || s[0] == '.' then 0 else 1 + Point(s[1..])
  }

  function Unsigned(s: string): string {
    if s != "" && s[0] == '-' then s[1..] else s
  }

  // \d+ or \d+\.\d*
  predicate IsUnsignedDecimal(u: string) {
    var p := Point(u);
    p > 0 && AllDigits(u[..p]) && (p < |u| ==> AllDigits(u[p + 1..]))
  }

  function Magnitude(u: string): real
    requires IsUnsignedDecimal(u)
  {
    var p := Point(u);
    Number(u[..p]) as real + if p < |u| then Fraction(u[p + 1..]) else 0.0
  }

  predicate IsDecimal(s: string) {
    IsUnsignedDecimal(Unsigned(s))
  }

  // -?\d+\.\d+, the texts the optimizer shortens
  predicate HasDecimals(s: string) {
    IsDecimal(s) && Point(Unsigned(s)) + 1 < |Unsigned(s)|
  }

  function Value(s: string): real
    requires IsDecimal(s)
  {
    if s != Unsigned(s) then -Magnitude(Unsigned(s)) else Magnitude(s)
  }

  // s.rstrip(c)
  function TrimRight(s: string, c: char): (r: string)
    ensures |r| <= |s| && r == s[..|r|]
    ensures forall i :: |r| <= i < |s| ==> s[i] == c
    ensures r != "" ==> r[|r| - 1] != c
  {
    if s != "" && s[|s| - 1] == c then TrimRight(s[..|s| - 1], c) else s
  }

  // value.rstrip("0").rstrip(".")
  function Shorten(s: string): string {
    TrimRight(TrimRight(s, '0'), '.')
  }

  // What is left of a decimal has nothing more to drop.
  lemma ShortenTwice(s: string)
    requires HasDecimals(s) && HasDecimals(Shorten(s))
    ensures Shorten(Shorten(s)) == Shorten(s)
  {
    var r := Shorten(s);
    var q := |r| - |Unsigned(r)| + Point(Unsigned(r));
    assert r[q] == '.' == s[q];
    assert r[|r| - 1] != '0' && r[|r| - 1] != '.';
  }

  lemma {:induction false} TrailingZeros(digits: string, zeros: string)
    requires AllDigits(digits) && forall i :: 0 <= i < |zeros| ==> zeros[i] == '0'
    ensures AllDigits(zeros) && AllDigits(digits + zeros) && Fraction(digits + zeros) == Fraction(digits)
    decreases |digits|, |zeros|
  {
    if digits != "" {
      TrailingZeros(digits[1..], zeros);
      assert (digits + zeros)[1..] == digits[1..] + zeros;
    } else if zeros != "" {
      TrailingZeros("", zeros[1..]);
      assert "" + zeros == zeros && "" + zeros[1..] == zeros[1..];
    }
  }

  lemma PointOfPrefix(s: string, n: nat)
    requires n <= |s|
    ensures Point(s[..n]) == if Point(s) < n then Point(s) else n
  {
    var p, q := Point(s), Point(s[..n]);
    assert q < n ==> s[q] == '.';
    assert p < n ==> s[..n][p] == '.';
  }

  lemma PrefixParts(u: string, p: nat, n: nat)
    requires p < n <= |u|
    ensures u[..n][..p] == u[..p] && u[..n][p + 1..] == u[p + 1..n]
    ensures u[p + 1..] == u[p + 1..n] + u[n..]
  {
  }

  lemma DigitsOfParts(digits: string, zeros: string)
    requires AllDigits(digits + zeros)
    ensures AllDigits(digits)
  {
    assert forall i :: 0 <= i < |digits| ==> digits[i] == (digits + zeros)[i];
  }

  // Zeros cut off after the decimal point do not count.
  lemma CutZeros(u: string, n: nat)
    requires IsUnsignedDecimal(u) && Point(u) < n <= |u|
    requires forall i :: n <= i < |u| ==> u[i] == '0'
    ensures IsUnsignedDecimal(u[..n]) && Point(u[..n]) == Point(u) && Magnitude(u[..n]) == Magnitude(u)
  {
    var p := Point(u);
    PointOfPrefix(u, n);
    PrefixParts(u, p, n);
    DigitsOfParts(u[p + 1..n], u[n..]);
    TrailingZeros(u[p + 1..n], u[n..]);
  }

  // Nor does a point with nothing behind it.
  lemma CutPoint(u: string)
    requires IsUnsignedDecimal(u) && Point(u) + 1 == |u|
    ensures IsUnsignedDecimal(u[..|u| - 1]) && Magnitude(u[..|u| - 1]) == Magnitude(u)
  {
    PointOfPrefix(u, |u| - 1);
    assert u[..|u| - 1][..|u| - 1] == u[..|u| - 1];
    assert u[|u|..] == "";
  }

  lemma SignStays(s: string, n: nat)
    requires IsDecimal(s) && |s| - |Unsigned(s)| < n <= |s|
    ensures Unsigned(s[..n]) == Unsigned(s)[..n - (|s| - |Unsigned(s)|)]
    ensures s[..n] != Unsigned(s[..n]) <==> s != Unsigned(s)
  {
    assert IsDigit(Unsigned(s)[..Point(Unsigned(s))][0]);
  }

  // What is cut off: zeros behind the point at q, and the point itself when nothing else is left.
  lemma ShortenShape(s: string, q: nat) returns (n: nat)
    requires 0 < q < |s| && s[q] == '.' && s[q - 1] != '.'
    requires forall i :: q < i < |s| ==> s[i] != '.'
    ensures q < n <= |s| && (forall i :: n <= i < |s| ==> s[i] == '0')
    ensures Shorten(s) == s[..if n == q + 1 then q else n]
  {
    var cut := TrimRight(s, '0');
    n := |cut|;
    if n == q + 1 {
      assert cut[..q] == s[..q];
      assert TrimRight(s[..q], '.') == s[..q];
    } else {
      assert cut[n - 1] == s[n - 1];
    }
  }

  lemma PointIsAlone(s: string)
    requires HasDecimals(s)
    ensures var q := |s| - |Unsigned(s)| + Point(Unsigned(s));
            && 0 < q < |s| && s[q] == '.' && s[q - 1] != '.' && forall i :: q < i < |s| ==> s[i] != '.'
  {
    var u, sign := Unsigned(s), |s| - |Unsigned(s)|;
    assert forall i :: 0 <= i < |u| ==> u[i] == s[sign + i];
    assert IsDigit(u[..Point(u)][Point(u) - 1]);
    assert forall i :: Point(u) < i < |u| ==> u[i] == u[Point(u) + 1..][i - Point(u) - 1];
  }

  // The same, counted from behind the sign.
  lemma ShortenBehindSign(s: string, sign: nat, u: string) returns (n: nat, m: nat)
    requires HasDecimals(s) && u == Unsigned(s) && sign == |s| - |u|
    ensures Point(u) < n <= |u| && (forall i :: n <= i < |u| ==> u[i] == '0')
    ensures m == if n == Point(u) + 1 then n - 1 else n
    ensures Shorten(s) == s[..sign + m]
  {
    PointIsAlone(s);
    var cut := ShortenShape(s, sign + Point(u));
    n := cut - sign;
    m := if n == Point(u) + 1 then n - 1 else n;
    TailZeros(s, sign, u, cut);
  }

  lemma TailZeros(s: string, sign: nat, u: string, cut: nat)
    requires u == Unsigned(s) && sign == |s| - |u| && sign <= cut <= |s|
    requires forall i :: cut <= i < |s| ==> s[i] == '0'
    ensures forall i :: cut - sign <= i < |u| ==> u[i] == '0'
  {
    assert forall i :: 0 <= i < |u| ==> u[i] == s[sign + i];
  }

  // Dropping trailing zeros, and then a trailing point, keeps the value exactly.
  lemma ShortenKeepsValue(s: string)
    requires HasDecimals(s)
    ensures IsDecimal(Shorten(s)) && Value(Shorten(s)) == Value(s)
  {
    var u, sign := Unsigned(s), |s| - |Unsigned(s)|;
    var n, m := ShortenBehindSign(s, sign, u);
    CutBehindPoint(u, n, m);
    ValueOfPrefix(s, m, Shorten(s));
  }

  lemma ValueOfPrefix(s: string, m: nat, t: string)
    requires IsDecimal(s) && 0 < m <= |Unsigned(s)|
    requires IsUnsignedDecimal(Unsigned(s)[..m]) && Magnitude(Unsigned(s)[..m]) == Magnitude(Unsigned(s))
    requires t == s[..|s| - |Unsigned(s)| + m]
    ensures IsDecimal(t) && Value(t) == Value(s)
  {
    SignStays(s, |s| - |Unsigned(s)| + m);
  }

  lemma CutBehindPoint(u: string, n: nat, m: nat)
    requires IsUnsignedDecimal(u) && Point(u) < n <= |u|
    requires forall i :: n <= i < |u| ==> u[i] == '0'
    requires m == if n == Point(u) + 1 then n - 1 else n
    ensures m > 0 && IsUnsignedDecimal(u[..m]) && Magnitude(u[..m]) == Magnitude(u)
  {
    CutZeros(u, n);
    if m < n {
      CutPoint(u[..n]);
      assert u[..n][..m] == u[..m];
    }
  }
}

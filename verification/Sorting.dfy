// Python's sorted, and the orders the harness sorts by.
module Sorting {

  import opened Sequences

  ghost predicate Ranks<T(!new)>(atMost: (T, T) -> bool) {
    && (forall a, b :: atMost(a, b) || atMost(b, a))
    && (forall a, b, c :: atMost(a, b) && atMost(b, c) ==> atMost(a, c))
  }

  ghost predicate InOrder<T>(atMost: (T, T) -> bool, s: seq<T>) {
    forall i, j :: 0 <= i < j < |s| ==> atMost(s[i], s[j])
  }

  function Insert<T>(atMost: (T, T) -> bool, x: T, s: seq<T>): (r: seq<T>)
    ensures multiset(r) == multiset{x} + multiset(s)
  {
    if s == [] then [x]
    else if atMost(x, s[0]) then [x] + s
    else
      assert s == [s[0]] + s[1..];
      [s[0]] + Insert(atMost, x, s[1..])
  }

  function Sorted<T>(atMost: (T, T) -> bool, s: seq<T>): (r: seq<T>)
    ensures multiset(r) == multiset(s)
  {
    if s == [] then []
    else
      assert s == [s[0]] + s[1..];
      Insert(atMost, s[0], Sorted(atMost, s[1..]))
  }

  lemma {:induction false} InsertKeepsOrder<T(!new)>(atMost: (T, T) -> bool, x: T, s: seq<T>)
    requires Ranks(atMost) && InOrder(atMost, s)
    ensures InOrder(atMost, Insert(atMost, x, s))
  {
    if s != [] && !atMost(x, s[0]) {
      InsertKeepsOrder(atMost, x, s[1..]);
      var rest := Insert(atMost, x, s[1..]);
      forall y | y in rest ensures atMost(s[0], y) {
        assert y in multiset(rest);
        assert y == x || y in s[1..];
      }
    }
  }

  lemma {:induction false} SortedIsInOrder<T(!new)>(atMost: (T, T) -> bool, s: seq<T>)
    requires Ranks(atMost)
    ensures InOrder(atMost, Sorted(atMost, s))
  {
    if s != [] {
      SortedIsInOrder(atMost, s[1..]);
      InsertKeepsOrder(atMost, s[0], Sorted(atMost, s[1..]));
    }
  }

  lemma SortedHasTheSame<T>(atMost: (T, T) -> bool, s: seq<T>)
    ensures |Sorted(atMost, s)| == |s|
    ensures forall x :: x in Sorted(atMost, s) <==> x in s
  {
    var r := Sorted(atMost, s);
    assert |multiset(r)| == |multiset(s)|;
    assert forall x :: x in r <==> x in multiset(r);
    assert forall x :: x in s <==> x in multiset(s);
  }

  lemma SortedStaysDistinct<T>(atMost: (T, T) -> bool, s: seq<T>)
    requires Distinct(s)
    ensures Distinct(Sorted(atMost, s))
  {
    SortedHasTheSame(atMost, s);
    assert Elements(Sorted(atMost, s)) == Elements(s);
    DistinctIffAsManyElements(s);
    DistinctIffAsManyElements(Sorted(atMost, s));
  }

  // ----- Text and event order -----

  // str.__lt__
  predicate TextLess(a: string, b: string) {
    b != [] && (a == [] || a[0] < b[0] || (a[0] == b[0] && TextLess(a[1..], b[1..])))
  }

  lemma {:induction false} TextLessIsTotal(a: string, b: string)
    ensures TextLess(a, b) || TextLess(b, a) || a == b
    ensures !(TextLess(a, b) && TextLess(b, a))
    ensures !TextLess(a, a)
  {
    if a != [] {
      TextLessIsTotal(a[1..], if b != [] then b[1..] else []);
      if b != [] && a[0] == b[0] {
        assert a == [a[0]] + a[1..] && b == [b[0]] + b[1..];
      }
    }
  }

  lemma {:induction false} TextLessIsTransitive(a: string, b: string, c: string)
    requires TextLess(a, b) && TextLess(b, c)
    ensures TextLess(a, c)
  {
    if a != [] && a[0] == b[0] && b[0] == c[0] {
      TextLessIsTransitive(a[1..], b[1..], c[1..]);
    }
  }

  // (origin_server_ts, event_id)
  datatype Stamp = Stamp(time: int, id: string)

  predicate Earlier(a: Stamp, b: Stamp) {
    a.time < b.time || (a.time == b.time && TextLess(a.id, b.id))
  }

  lemma EarlierIsTotal(a: Stamp, b: Stamp)
    ensures Earlier(a, b) || Earlier(b, a) || a == b
    ensures !(Earlier(a, b) && Earlier(b, a))
    ensures !Earlier(a, a)
  {
    TextLessIsTotal(a.id, b.id);
    TextLessIsTotal(a.id, a.id);
  }

  lemma EarlierIsTransitive(a: Stamp, b: Stamp, c: Stamp)
    requires Earlier(a, b) && Earlier(b, c)
    ensures Earlier(a, c)
  {
    if a.time == b.time == c.time {
      TextLessIsTransitive(a.id, b.id, c.id);
    }
  }
}

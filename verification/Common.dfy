// Small shared vocabulary: optional values and the facts about sequences that
// the rest of the project uses.

module Options {

  datatype Option<+T> = None | Some(value: T)
}

module Sequences {

  // Dafny leaves s[..n][..m] and (s + [x])[..|s|] to be rediscovered at every use.
  lemma SnocPrefix<T>(s: seq<T>, x: T)
    ensures (s + [x])[..|s|] == s
    ensures (s + [x])[|s|] == x
  {
  }

  lemma PrefixStep<T>(s: seq<T>, i: nat)
    requires i < |s|
    ensures s[..i + 1] == s[..i] + [s[i]]
    ensures s[..i + 1][..i] == s[..i]
  {
  }

  // [x for x in s if keep(x)]
  function Keep<T(!new)>(keep: T -> bool, s: seq<T>): (r: seq<T>)
    ensures forall x :: x in r <==> x in s && keep(x)
  {
    if s == [] then []
    else Keep(keep, s[..|s| - 1]) + if keep(s[|s| - 1]) then [s[|s| - 1]] else []
  }

  lemma {:induction false} KeepSame<T(!new)>(p: T -> bool, q: T -> bool, s: seq<T>)
    requires forall x :: x in s ==> p(x) == q(x)
    ensures Keep(p, s) == Keep(q, s)
  {
    if s != [] {
      KeepSame(p, q, s[..|s| - 1]);
    }
  }

  lemma {:induction false} KeepTwice<T(!new)>(p: T -> bool, q: T -> bool, both: T -> bool, s: seq<T>)
    requires forall x :: x in s ==> both(x) == (p(x) && q(x))
    ensures Keep(q, Keep(p, s)) == Keep(both, s)
  {
    if s != [] {
      var init, last := s[..|s| - 1], s[|s| - 1];
      KeepTwice(p, q, both, init);
      if p(last) {
        SnocPrefix(Keep(p, init), last);
        assert Keep(p, s) == Keep(p, init) + [last];
      } else {
        assert Keep(p, s) == Keep(p, init);
      }
    }
  }

  // No element occurs twice.
  ghost predicate Distinct<T>(s: seq<T>) {
    s == [] || (Distinct(s[..|s| - 1]) && s[|s| - 1] !in s[..|s| - 1])
  }

  lemma {:induction false} DistinctMeansPairwiseDifferent<T>(s: seq<T>)
    ensures Distinct(s) <==> forall i, j :: 0 <= i < j < |s| ==> s[i] != s[j]
  {
    if s != [] {
      var init := s[..|s| - 1];
      DistinctMeansPairwiseDifferent(init);
      assert forall i :: 0 <= i < |init| ==> init[i] == s[i];
    }
  }

  function Elements<T(==)>(s: seq<T>): set<T> {
    set x | x in s
  }

  // The test the harness writes as len(keys) == len(set(keys)).
  lemma {:induction false} DistinctIffAsManyElements<T>(s: seq<T>)
    ensures |Elements(s)| <= |s|
    ensures Distinct(s) <==> |Elements(s)| == |s|
  {
    if s != [] {
      var init, last := s[..|s| - 1], s[|s| - 1];
      DistinctIffAsManyElements(init);
      assert s == init + [last];
      assert Elements(s) == Elements(init) + {last};
    }
  }

  lemma DistinctSnoc<T>(s: seq<T>, x: T)
    ensures Distinct(s + [x]) <==> Distinct(s) && x !in s
  {
    SnocPrefix(s, x);
  }
}

// The harness draws from random.Random. A proof about its traces has to hold for
// every seed, so each draw is an arbitrary value in the documented range.
module Draws {

  // randomizer.randrange(n)
  method RandRange(n: int) returns (r: int)
    requires n > 0
    ensures 0 <= r < n
  {
    r :| 0 <= r < n;
  }

  // randomizer.randint(lo, hi), both ends included
  method RandInt(lo: int, hi: int) returns (r: int)
    requires lo <= hi
    ensures lo <= r <= hi
  {
    r :| lo <= r <= hi;
  }

  // randomizer.choice(options)
  method Choice<T>(options: seq<T>) returns (x: T)
    requires options != []
    ensures x in options
  {
    var i := RandRange(|options|);
    x := options[i];
  }
}

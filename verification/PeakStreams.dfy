// How many streams were active at once: the sweep over interval boundaries, and the interval
// all streams share.
module PeakStreams {

  import opened Options
  import opened Sorting

  // One source's response: its status in the end, how often it completed, and when it was active.
  datatype Fold = Fold(source: string, response: string, status: Option<string>, completions: nat,
                       started: int, finished: int)

  predicate IsActive(f: Fold, t: int) {
    f.started <= t < f.finished
  }

  // How many streams are active at time t.
  function Active(folds: seq<Fold>, t: int): (n: nat)
    ensures n <= |folds|
  {
    if folds == [] then 0 else (if IsActive(folds[0], t) then 1 else 0) + Active(folds[1..], t)
  }

  lemma {:induction false} AllActive(folds: seq<Fold>, t: int)
    ensures Active(folds, t) == |folds| <==> forall f :: f in folds ==> IsActive(f, t)
  {
    if folds != [] {
      AllActive(folds[1..], t);
      assert folds == [folds[0]] + folds[1..];
    }
  }

  // ----- The sweep -----

  type Boundary = (int, int)

  predicate AtMost(a: Boundary, b: Boundary) {
    a.0 < b.0 || (a.0 == b.0 && a.1 <= b.1)
  }

  function Boundaries(folds: seq<Fold>): seq<Boundary> {
    if folds == [] then []
    else
      (if folds[0].finished > folds[0].started then [(folds[0].started, 1), (folds[0].finished, -1)] else [])
      + Boundaries(folds[1..])
  }

  lemma {:induction false} BoundariesStep(folds: seq<Fold>)
    ensures forall b :: b in Boundaries(folds) ==> b.1 == 1 || b.1 == -1
  {
    if folds != [] {
      BoundariesStep(folds[1..]);
    }
  }

  // The sum of the steps up to and including time t.
  function Upto(boundaries: seq<Boundary>, t: int): int {
    if boundaries == [] then 0
    else (if boundaries[0].0 <= t then boundaries[0].1 else 0) + Upto(boundaries[1..], t)
  }

  function Total(boundaries: seq<Boundary>): int {
    if boundaries == [] then 0 else Total(boundaries[..|boundaries| - 1]) + boundaries[|boundaries| - 1].1
  }

  lemma {:induction false} UptoJoins(a: seq<Boundary>, b: seq<Boundary>, t: int)
    ensures Upto(a + b, t) == Upto(a, t) + Upto(b, t)
  {
    if a == [] {
      assert a + b == b;
    } else {
      UptoJoins(a[1..], b, t);
      assert (a + b)[1..] == a[1..] + b;
    }
  }

  lemma {:induction false} BoundariesCountActive(folds: seq<Fold>, t: int)
    ensures Upto(Boundaries(folds), t) == Active(folds, t)
  {
    if folds != [] {
      BoundariesCountActive(folds[1..], t);
      var f := folds[0];
      if f.finished > f.started {
        var own: seq<Boundary> := [(f.started, 1), (f.finished, -1)];
        UptoJoins(own, Boundaries(folds[1..]), t);
        assert own[1..] == [(f.finished, -1)] && own[1..][1..] == [];
        assert Upto(own[1..], t) == if f.finished <= t then -1 else 0;
        assert Boundaries(folds) == own + Boundaries(folds[1..]);
      } else {
        assert Boundaries(folds) == Boundaries(folds[1..]);
      }
    }
  }

  lemma {:induction false} UptoInsert(x: Boundary, s: seq<Boundary>, t: int)
    ensures Upto(Insert(AtMost, x, s), t) == (if x.0 <= t then x.1 else 0) + Upto(s, t)
  {
    if s == [] {
      assert Insert(AtMost, x, s)[1..] == [];
    } else if AtMost(x, s[0]) {
      assert Insert(AtMost, x, s)[1..] == s;
    } else {
      UptoInsert(x, s[1..], t);
      assert Insert(AtMost, x, s)[1..] == Insert(AtMost, x, s[1..]);
    }
  }

  lemma {:induction false} UptoSorted(s: seq<Boundary>, t: int)
    ensures Upto(Sorted(AtMost, s), t) == Upto(s, t)
  {
    if s != [] {
      UptoSorted(s[1..], t);
      UptoInsert(s[0], Sorted(AtMost, s[1..]), t);
    }
  }

  lemma {:induction false} UptoAll(s: seq<Boundary>, t: int)
    requires forall i :: 0 <= i < |s| ==> s[i].0 <= t
    ensures Upto(s, t) == Total(s)
  {
    if s != [] {
      var init, last := s[..|s| - 1], s[|s| - 1];
      UptoAll(init, t);
      UptoJoins(init, [last], t);
      assert s == init + [last] && [last][1..] == [];
    }
  }

  lemma {:induction false} UptoNone(s: seq<Boundary>, t: int)
    requires forall i :: 0 <= i < |s| ==> s[i].0 > t
    ensures Upto(s, t) == 0
  {
    if s != [] {
      UptoNone(s[1..], t);
    }
  }

  lemma {:induction false} UptoRises(s: seq<Boundary>, t: int)
    requires forall i :: 0 <= i < |s| ==> s[i].0 <= t ==> s[i].1 >= 0
    ensures Upto(s, t) >= 0
  {
    if s != [] {
      UptoRises(s[1..], t);
    }
  }

  // After a step up, the sweep has counted no more streams than are active at that time.
  lemma StepUpIsActive(boundaries: seq<Boundary>, i: nat)
    requires InOrder(AtMost, boundaries) && i < |boundaries| && boundaries[i].1 > 0
    ensures Total(boundaries[..i + 1]) <= Upto(boundaries, boundaries[i].0)
  {
    var t := boundaries[i].0;
    UptoAll(boundaries[..i + 1], t);
    UptoRises(boundaries[i + 1..], t);
    UptoJoins(boundaries[..i + 1], boundaries[i + 1..], t);
    assert boundaries == boundaries[..i + 1] + boundaries[i + 1..];
  }

  // Whatever is active at time t was the sweep's count at some point.
  lemma {:induction false} ActiveIsCounted(boundaries: seq<Boundary>, t: int, n: nat) returns (i: nat)
    requires InOrder(AtMost, boundaries) && n <= |boundaries|
    requires forall k :: n <= k < |boundaries| ==> boundaries[k].0 > t
    ensures i <= |boundaries| && Total(boundaries[..i]) == Upto(boundaries, t)
  {
    if n == 0 || boundaries[n - 1].0 <= t {
      i := n;
      assert forall k :: 0 <= k < n ==> boundaries[k].0 <= t;
      UptoAll(boundaries[..n], t);
      UptoNone(boundaries[n..], t);
      UptoJoins(boundaries[..n], boundaries[n..], t);
      assert boundaries == boundaries[..n] + boundaries[n..];
    } else {
      i := ActiveIsCounted(boundaries, t, n - 1);
    }
  }

  // The peak is the number of streams active at the busiest time.
  ghost predicate IsPeak(folds: seq<Fold>, peak: int) {
    && (forall t :: Active(folds, t) <= peak)
    && (exists t :: Active(folds, t) == peak)
  }

  // No count of the sweep so far was above the peak.
  ghost predicate Swept(boundaries: seq<Boundary>, n: nat, peak: int)
    requires n <= |boundaries|
  {
    forall k :: 0 <= k <= n ==> Total(boundaries[..k]) <= peak
  }

  lemma SweepStep(boundaries: seq<Boundary>, n: nat, peak: int, peak': int)
    requires n < |boundaries| && Swept(boundaries, n, peak)
    requires peak <= peak' && Total(boundaries[..n]) + boundaries[n].1 <= peak'
    ensures Total(boundaries[..n + 1]) == Total(boundaries[..n]) + boundaries[n].1
    ensures Swept(boundaries, n + 1, peak')
  {
    assert boundaries[..n + 1][..n] == boundaries[..n];
  }

  lemma SweepIsActive(folds: seq<Fold>, boundaries: seq<Boundary>, i: nat)
    requires boundaries == Sorted(AtMost, Boundaries(folds)) && InOrder(AtMost, boundaries)
    requires i < |boundaries| && boundaries[i].1 > 0
    ensures Total(boundaries[..i + 1]) <= Active(folds, boundaries[i].0)
  {
    StepUpIsActive(boundaries, i);
    UptoSorted(Boundaries(folds), boundaries[i].0);
    BoundariesCountActive(folds, boundaries[i].0);
  }

  lemma SweepSeesEveryTime(folds: seq<Fold>, boundaries: seq<Boundary>, peak: int)
    requires boundaries == Sorted(AtMost, Boundaries(folds)) && InOrder(AtMost, boundaries)
    requires Swept(boundaries, |boundaries|, peak)
    ensures forall t :: Active(folds, t) <= peak
  {
    forall t ensures Active(folds, t) <= peak {
      var i := ActiveIsCounted(boundaries, t, |boundaries|);
      UptoSorted(Boundaries(folds), t);
      BoundariesCountActive(folds, t);
    }
  }

  // _peak_managed_streams
  method PeakManagedStreams(folds: seq<Fold>) returns (peak: int)
    ensures IsPeak(folds, peak)
  {
    var boundaries := Sorted(AtMost, Boundaries(folds));
    SortedIsInOrder(AtMost, Boundaries(folds));
    var active := 0;
    peak := 0;
    ghost var busiest := 0;
    for i := 0 to |boundaries|
      invariant active == Total(boundaries[..i])
      invariant Swept(boundaries, i, peak)
      invariant peak <= Active(folds, busiest)
    {
      ghost var before := peak;
      active := active + boundaries[i].1;
      peak := if active > peak then active else peak;
      SweepStep(boundaries, i, before, peak);
      if peak > before {
        assert active - boundaries[i].1 <= before;
        SweepIsActive(folds, boundaries, i);
        busiest := boundaries[i].0;
      }
    }
    SweepSeesEveryTime(folds, boundaries, peak);
  }

  // ----- The shared interval -----

  function FirstFinish(folds: seq<Fold>): (m: int)
    requires folds != []
    ensures forall f :: f in folds ==> m <= f.finished
    ensures exists f :: f in folds && m == f.finished
  {
    if |folds| == 1 then folds[0].finished
    else
      assert folds == [folds[0]] + folds[1..];
      var rest := FirstFinish(folds[1..]);
      if folds[0].finished < rest then folds[0].finished else rest
  }

  function LastStart(folds: seq<Fold>): (m: int)
    requires folds != []
    ensures forall f :: f in folds ==> f.started <= m
    ensures exists f :: f in folds && m == f.started
  {
    if |folds| == 1 then folds[0].started
    else
      assert folds == [folds[0]] + folds[1..];
      var rest := LastStart(folds[1..]);
      if folds[0].started > rest then folds[0].started else rest
  }

  function Seconds(ms: int): real {
    if ms > 0 then ms as real / 1000.0 else 0.0
  }

  // _full_managed_stream_overlap_seconds
  function FullOverlap(folds: seq<Fold>): real {
    if folds == [] then 0.0 else Seconds(FirstFinish(folds) - LastStart(folds))
  }

  // min(durations, default=0.0)
  function ShortestActive(folds: seq<Fold>): (m: real)
    ensures folds != [] ==> forall f :: f in folds ==> m <= Seconds(f.finished - f.started)
    ensures folds != [] ==> exists f :: f in folds && m == Seconds(f.finished - f.started)
  {
    if folds == [] then 0.0
    else
      assert folds == [folds[0]] + folds[1..];
      var own, rest := Seconds(folds[0].finished - folds[0].started), ShortestActive(folds[1..]);
      if |folds| == 1 || own < rest then own else rest
  }

  // max(durations, default=0.0)
  function LongestActive(folds: seq<Fold>): (m: real)
    ensures folds != [] ==> forall f :: f in folds ==> Seconds(f.finished - f.started) <= m
    ensures folds != [] ==> exists f :: f in folds && m == Seconds(f.finished - f.started)
  {
    if folds == [] then 0.0
    else
      assert folds == [folds[0]] + folds[1..];
      var own, rest := Seconds(folds[0].finished - folds[0].started), LongestActive(folds[1..]);
      if |folds| == 1 || own > rest then own else rest
  }

  // All streams are active at once exactly when all their intervals share some time.
  lemma PeakIsFullIff(folds: seq<Fold>, peak: int)
    requires folds != [] && IsPeak(folds, peak)
    ensures peak == |folds| <==> FullOverlap(folds) > 0.0
  {
    if peak == |folds| {
      var t :| Active(folds, t) == peak;
      AllActive(folds, t);
    }
    if FullOverlap(folds) > 0.0 {
      AllActive(folds, LastStart(folds));
      var t :| Active(folds, t) == peak;
    }
  }

  // Streams that all overlap for some time each last at least that long, and the peak is full.
  lemma OverlapBoundsEveryStream(folds: seq<Fold>, peak: int, seconds: real)
    requires IsPeak(folds, peak) && seconds > 0.0 && FullOverlap(folds) >= seconds
    ensures peak == |folds|
    ensures ShortestActive(folds) >= seconds
    ensures forall f :: f in folds ==> Seconds(f.finished - f.started) >= seconds
  {
    PeakIsFullIff(folds, peak);
    forall f | f in folds ensures Seconds(f.finished - f.started) >= seconds {
      assert FirstFinish(folds) <= f.finished && f.started <= LastStart(folds);
    }
  }
}

/** backend/app/metrics.py: the bounded Histogram and its two percentiles. Samples are exact reals. */
module Metrics {
  import opened Common
  import opened StableSort

  // ---- The window of samples ----

  class Histogram {
    var samples: seq<real>
    const maxSamples: int
    ghost var history: seq<real>

    ghost predicate Valid()
      reads this
    {
      samples == LastN(history, Max(0, maxSamples))
    }

    constructor (maxSamples: int)
      ensures Valid() && history == [] && this.maxSamples == maxSamples
    {
      samples, history := [], [];
      this.maxSamples := maxSamples;
    }

    method Add(value: real)
      requires Valid()
      modifies this
      ensures Valid() && history == old(history) + [value]
    {
      history := history + [value];
      samples := samples + [value];
      if |samples| > maxSamples {
        var excess := |samples| - maxSamples;
        samples := samples[Min(excess, |samples|)..];
      }
    }

    method Percentiles() returns (p50: real, p95: real)
      ensures (p50, p95) == PercentilesOf(samples)
    {
      if samples == [] { return 0.0, 0.0; }
      var ordered := Ordered(samples);
      SortedIsPermutation(samples, Negated);
      p50 := Median(ordered);
      p95 := Percentile95(ordered);
    }

    method Median(ordered: seq<real>) returns (v: real)
      requires ordered != []
      ensures v == At(ordered, Middle(|ordered|))
    {
      var n := |ordered|;
      v := if n % 2 == 1 then ordered[n / 2] else (ordered[n / 2 - 1] + ordered[n / 2]) / 2.0;
      MedianIsMiddle(ordered);
    }

    method Percentile95(ordered: seq<real>) returns (v: real)
      requires ordered != []
      ensures v == At(ordered, Position95(|ordered|))
    {
      if |ordered| == 1 { return ordered[0]; }
      var position := 0.95 * (|ordered| - 1) as real;
      var lower, upper := position.Floor, Ceil(position);
      if lower == upper {
        v := ordered[lower];
      } else {
        v := ordered[lower] + (ordered[upper] - ordered[lower]) * (position - lower as real);
      }
    }
  }

  // ---- Percentiles as interpolation ----

  function Negated(v: real): real { -v }

  /** Ascending. */
  function Ordered(samples: seq<real>): seq<real> { Sorted(samples, Negated) }

  predicate Ascending(s: seq<real>) { forall i, j :: 0 <= i <= j < |s| ==> s[i] <= s[j] }

  /** The value at weight w on the straight line from a to b. */
  function Line(a: real, b: real, w: real): real { a + (b - a) * w }

  /** The value at a position between 0 and |s| - 1, on the straight line between its neighbours. */
  function At(s: seq<real>, position: real): real
    requires s != [] && 0.0 <= position <= (|s| - 1) as real
  {
    var lower, upper := position.Floor, Ceil(position);
    if lower == upper then s[lower] else Line(s[lower], s[upper], position - lower as real)
  }

  function Middle(n: nat): (position: real)
    requires n >= 1
    ensures 0.0 <= position <= (n - 1) as real
  {
    (n - 1) as real / 2.0
  }

  function Position95(n: nat): (position: real)
    requires n >= 1
    ensures Middle(n) <= position <= (n - 1) as real
  {
    0.95 * (n - 1) as real
  }

  /** The values in the middle and 95 hundredths of the way; (0, 0) without samples. */
  function PercentilesOf(samples: seq<real>): (real, real) {
    var s := Ordered(samples);
    if s == [] then (0.0, 0.0) else (At(s, Middle(|s|)), At(s, Position95(|s|)))
  }

  /** statistics.median is the value in the middle. */
  lemma MedianIsMiddle(s: seq<real>)
    requires s != []
    ensures var n := |s|;
            At(s, Middle(n)) == if n % 2 == 1 then s[n / 2] else (s[n / 2 - 1] + s[n / 2]) / 2.0
  {
    var n, position := |s|, Middle(|s|);
    if n % 2 == 1 {
      assert position == (n / 2) as real;
    } else {
      assert position == (n / 2) as real - 0.5;
      assert position.Floor == n / 2 - 1 && Ceil(position) == n / 2;
    }
  }

  lemma OrderedIsAscending(samples: seq<real>)
    ensures Ascending(Ordered(samples)) && multiset(Ordered(samples)) == multiset(samples)
    ensures |Ordered(samples)| == |samples|
  {
    SortedIsPermutation(samples, Negated);
    SortedIsDescending(samples, Negated);
    var s := Ordered(samples);
    forall i, j | 0 <= i <= j < |s| ensures s[i] <= s[j] {
      assert i < j ==> Negated(s[i]) >= Negated(s[j]);
    }
  }

  lemma LineIsMonotone(a: real, b: real, w: real, v: real)
    requires a <= b && 0.0 <= w <= v <= 1.0
    ensures a <= Line(a, b, w) <= Line(a, b, v) <= b
  {
    var d := b - a;
    assert d * w <= d * v && d * v <= d * 1.0;
  }

  /** The value at a position lies between its neighbours. */
  lemma AtIsBetween(s: seq<real>, position: real)
    requires s != [] && Ascending(s) && 0.0 <= position <= (|s| - 1) as real
    ensures s[position.Floor] <= At(s, position) <= s[Ceil(position)]
  {
    var lower, upper := position.Floor, Ceil(position);
    if lower != upper {
      var w := position - lower as real;
      LineIsMonotone(s[lower], s[upper], w, w);
      assert At(s, position) == Line(s[lower], s[upper], w);
    }
  }

  /** Interpolation is monotone in the position. */
  lemma AtIsMonotone(s: seq<real>, p: real, q: real)
    requires s != [] && Ascending(s) && 0.0 <= p <= q <= (|s| - 1) as real
    ensures At(s, p) <= At(s, q)
  {
    var lower, upper := p.Floor, Ceil(p);
    if q.Floor == lower && lower != upper {
      assert Ceil(q) == upper;
      LineIsMonotone(s[lower], s[upper], p - lower as real, q - lower as real);
    } else {
      AtIsBetween(s, p);
      AtIsBetween(s, q);
      assert upper <= q.Floor;
    }
  }

  /** Without samples both are zero, and with one sample both are that. */
  lemma FewSamples(v: real)
    ensures PercentilesOf([]) == (0.0, 0.0) && PercentilesOf([v]) == (v, v)
  {
    assert [v][1..] == [];
    assert Sorted([v], Negated) == [v];
    AtEnds([v]);
  }

  lemma AtEnds(s: seq<real>)
    requires s != []
    ensures At(s, 0.0) == s[0] && At(s, (|s| - 1) as real) == s[|s| - 1]
  {
  }

  lemma {:induction false} OrderedHasSameMembers(samples: seq<real>)
    ensures forall v :: v in samples <==> v in Ordered(samples)
  {
    OrderedIsAscending(samples);
    forall v ensures v in samples <==> v in Ordered(samples) {
      assert v in multiset(samples) <==> v in multiset(Ordered(samples));
    }
  }

  ghost predicate IsLeast(v: real, samples: seq<real>) { v in samples && forall w :: w in samples ==> v <= w }

  ghost predicate IsGreatest(v: real, samples: seq<real>) { v in samples && forall w :: w in samples ==> w <= v }

  /** The least sample, the median, the 95th percentile and the greatest sample are in this order. */
  lemma PercentilesAreOrdered(samples: seq<real>) returns (least: real, greatest: real)
    requires samples != []
    ensures IsLeast(least, samples) && IsGreatest(greatest, samples)
    ensures least <= PercentilesOf(samples).0 <= PercentilesOf(samples).1 <= greatest
  {
    OrderedIsAscending(samples);
    OrderedHasSameMembers(samples);
    var s := Ordered(samples);
    least, greatest := s[0], s[|s| - 1];
    OrderedPercentiles(s);
  }

  lemma OrderedPercentiles(s: seq<real>)
    requires s != [] && Ascending(s)
    ensures s[0] <= At(s, Middle(|s|)) <= At(s, Position95(|s|)) <= s[|s| - 1]
  {
    AtEnds(s);
    AtIsMonotone(s, 0.0, Middle(|s|));
    AtIsMonotone(s, Middle(|s|), Position95(|s|));
    AtIsMonotone(s, Position95(|s|), (|s| - 1) as real);
  }

  // ---- What share of the samples they bound ----

  function CountAtMost(s: seq<real>, x: real): nat {
    if s == [] then 0 else CountAtMost(s[..|s| - 1], x) + (if s[|s| - 1] <= x then 1 else 0)
  }

  function CountAtLeast(s: seq<real>, x: real): nat {
    if s == [] then 0 else CountAtLeast(s[..|s| - 1], x) + (if s[|s| - 1] >= x then 1 else 0)
  }

  lemma {:induction false} CountsConcat(a: seq<real>, b: seq<real>, x: real)
    ensures CountAtMost(a + b, x) == CountAtMost(a, x) + CountAtMost(b, x)
    ensures CountAtLeast(a + b, x) == CountAtLeast(a, x) + CountAtLeast(b, x)
  {
    if b == [] {
      assert a + b == a;
    } else {
      assert (a + b)[..|a + b| - 1] == a + b[..|b| - 1];
      CountsConcat(a, b[..|b| - 1], x);
    }
  }

  lemma {:induction false} CountsOfPermutation(s: seq<real>, t: seq<real>, x: real)
    requires multiset(s) == multiset(t)
    ensures CountAtMost(s, x) == CountAtMost(t, x) && CountAtLeast(s, x) == CountAtLeast(t, x)
    decreases |s|
  {
    if s == [] {
      assert |multiset(t)| == 0;
    } else {
      var i := RemoveLast(s, t);
      CountsOfPermutation(s[..|s| - 1], t[..i] + t[i + 1..], x);
      assert t == t[..i] + [t[i]] + t[i + 1..];
      CountsConcat(t[..i] + [t[i]], t[i + 1..], x);
      CountsConcat(t[..i], t[i + 1..], x);
      assert (t[..i] + [t[i]])[..i] == t[..i];
    }
  }

  lemma {:induction false} CountOfPrefix(s: seq<real>, k: nat, x: real)
    requires k <= |s| && forall i :: 0 <= i < k ==> s[i] <= x
    ensures CountAtMost(s, x) >= k
  {
    if k > 0 {
      var last := |s| - 1;
      CountOfPrefix(s[..last], if k == |s| then k - 1 else k, x);
    }
  }

  lemma {:induction false} CountOfSuffix(s: seq<real>, k: nat, x: real)
    requires k <= |s| && forall i :: k <= i < |s| ==> s[i] >= x
    ensures CountAtLeast(s, x) >= |s| - k
  {
    if k < |s| {
      CountOfSuffix(s[..|s| - 1], k, x);
    }
  }

  lemma RankBetween(s: seq<real>, lower: nat, upper: nat, x: real)
    requires Ascending(s) && lower <= upper < |s| && s[lower] <= x <= s[upper]
    ensures CountAtMost(s, x) >= lower + 1 && CountAtLeast(s, x) >= |s| - upper
  {
    CountOfPrefix(s, lower + 1, x);
    CountOfSuffix(s, upper, x);
  }

  /** More samples than the position says are at most the value there, and more than are left at least that. */
  lemma RankAt(samples: seq<real>, position: real)
    requires samples != [] && 0.0 <= position <= (|samples| - 1) as real
    ensures |Ordered(samples)| == |samples|
    ensures CountAtMost(samples, At(Ordered(samples), position)) as real > position
    ensures CountAtLeast(samples, At(Ordered(samples), position)) as real > (|samples| - 1) as real - position
  {
    OrderedIsAscending(samples);
    var s := Ordered(samples);
    AtIsBetween(s, position);
    RankBetween(s, position.Floor, Ceil(position), At(s, position));
    CountsOfPermutation(s, samples, At(s, position));
  }

  /** Half of the samples lie on either side of p50, 95 hundredths of the way up to p95 and the rest beyond. */
  lemma PercentilesBoundTheirShare(samples: seq<real>)
    requires samples != []
    ensures CountAtMost(samples, PercentilesOf(samples).0) as real > 0.5 * (|samples| - 1) as real
    ensures CountAtLeast(samples, PercentilesOf(samples).0) as real > 0.5 * (|samples| - 1) as real
    ensures CountAtMost(samples, PercentilesOf(samples).1) as real > 0.95 * (|samples| - 1) as real
    ensures CountAtLeast(samples, PercentilesOf(samples).1) as real > 0.05 * (|samples| - 1) as real
  {
    RankAt(samples, Middle(|samples|));
    RankAt(samples, Position95(|samples|));
  }
}

/** Shared by every module: an optional value, in place of the source's None/undefined. */
module Common {
  datatype Option<+T> = None | Some(value: T)

  /** No two positions hold the same value. */
  predicate Distinct<T(==)>(s: seq<T>) {
    forall i, j :: 0 <= i < j < |s| ==> s[i] != s[j]
  }

  function Max(a: int, b: int): int { if a >= b then a else b }

  function Min(a: int, b: int): int { if a <= b then a else b }

  function MaxReal(a: real, b: real): real { if a >= b then a else b }

  /** math.ceil */
  function Ceil(x: real): (n: int)
    ensures (n - 1) as real < x <= n as real
  {
    -((-x).Floor)
  }

  /** The last n elements, all of them when there are fewer (a deque of maximal length n). */
  function LastN<T>(s: seq<T>, n: nat): (r: seq<T>)
    ensures |r| == Min(|s|, n)
    ensures forall i :: 0 <= i < |r| ==> r[i] == s[|s| - |r| + i]
  {
    if |s| <= n then s else s[|s| - n..]
  }

  /** A non-empty sequence is its front and its last element. */
  lemma SplitLast<T>(s: seq<T>)
    requires s != []
    ensures s == s[..|s| - 1] + [s[|s| - 1]]
  {
  }

  lemma SplitAt<T>(s: seq<T>, i: nat)
    requires i < |s|
    ensures s == (s[..i] + [s[i]]) + s[i + 1..]
  {
  }

  /** What stands in the middle of a sequence without repeats stands nowhere else. */
  lemma DistinctMiddle<T>(before: seq<T>, x: T, after: seq<T>)
    requires Distinct(before + ([x] + after))
    ensures x !in before && x !in after && Distinct([x] + after)
  {
    var s := before + ([x] + after);
    assert s[|before|] == x;
    assert forall i :: 0 <= i < |before| ==> s[i] == before[i];
    assert forall i :: 0 <= i < |after| + 1 ==> s[|before| + i] == ([x] + after)[i];
    assert forall i :: 0 <= i < |after| ==> s[|before| + 1 + i] == after[i];
  }

  /** Equally many of everything means the same length, and equal sequences of one element. */
  lemma DistinctPermutation<T>(s: seq<T>, t: seq<T>)
    requires Distinct(s) && Distinct(t)
    requires forall x :: x in s <==> x in t
    ensures multiset(s) == multiset(t)
  {
    forall x: T | true ensures multiset(s)[x] == multiset(t)[x] {
      DistinctCount(s, x);
      DistinctCount(t, x);
    }
  }

  lemma {:induction false} DistinctCount<T>(s: seq<T>, x: T)
    requires Distinct(s)
    ensures multiset(s)[x] == if x in s then 1 else 0
  {
    if s != [] {
      var front, last := s[..|s| - 1], s[|s| - 1];
      assert s == front + [last];
      assert last !in front;
      DistinctCount(front, x);
    }
  }

  lemma TwoOccurrences<T>(s: seq<T>, i: nat, j: nat)
    requires i < j < |s| && s[i] == s[j]
    ensures multiset(s)[s[i]] >= 2
  {
    assert s == s[..i] + [s[i]] + s[i + 1..j] + [s[j]] + s[j + 1..];
  }

  /** A permutation of a sequence without repeats has none either. */
  lemma PermutationIsDistinct<T>(s: seq<T>, t: seq<T>)
    requires Distinct(s) && multiset(s) == multiset(t)
    ensures Distinct(t)
    ensures forall x :: x in s <==> x in t
  {
    forall x: T | true ensures multiset(t)[x] <= 1 && (x in s <==> x in t) {
      DistinctCount(s, x);
      assert x in multiset(t) <==> x in t;
    }
    forall i, j | 0 <= i < j < |t| && t[i] == t[j] ensures multiset(t)[t[i]] >= 2 {
      TwoOccurrences(t, i, j);
    }
  }

  lemma SliceOfSlice<T>(s: seq<T>, a: nat, b: nat, c: nat, d: nat)
    requires a <= b <= |s| && c <= d <= b - a
    ensures s[a..b][c..d] == s[a + c..a + d]
  {
    var left, right := s[a..b][c..d], s[a + c..a + d];
    forall i | 0 <= i < d - c ensures left[i] == right[i] {
      assert left[i] == s[a..b][c + i] == s[a + c + i];
    }
  }

  /** A permutation of s still holds s's last item somewhere; taking both out leaves a permutation. */
  lemma RemoveLast<T>(s: seq<T>, t: seq<T>) returns (i: nat)
    requires s != [] && multiset(s) == multiset(t)
    ensures i < |t| && t[i] == s[|s| - 1]
    ensures multiset(s[..|s| - 1]) == multiset(t[..i] + t[i + 1..])
  {
    SplitLast(s);
    assert s[|s| - 1] in multiset(t);
    i :| 0 <= i < |t| && t[i] == s[|s| - 1];
    var rest := t[..i] + t[i + 1..];
    assert t == (t[..i] + [t[i]]) + t[i + 1..];
    assert multiset(t) == multiset(rest) + multiset{t[i]};
    assert multiset(s) == multiset(s[..|s| - 1]) + multiset{t[i]};
    assert multiset(s[..|s| - 1]) == multiset(s) - multiset{t[i]};
  }
}

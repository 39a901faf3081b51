/** Python's `sorted(items, key=..., reverse=True)`: descending, and stable for equal keys. */
module StableSort {
  import opened Common

  predicate Descending<T>(s: seq<T>, key: T -> real) {
    forall i, j :: 0 <= i < j < |s| ==> key(s[i]) >= key(s[j])
  }

  /** Where x goes in a descending s: before the first element whose key is not greater. */
  function Place<T>(x: T, s: seq<T>, key: T -> real, from: nat): (k: nat)
    requires from <= |s|
    ensures from <= k <= |s|
    ensures forall i :: from <= i < k ==> key(s[i]) > key(x)
    ensures k < |s| ==> key(x) >= key(s[k])
    decreases |s| - from
  {
    if from == |s| || key(x) >= key(s[from]) then from else Place(x, s, key, from + 1)
  }

  function Sorted<T>(s: seq<T>, key: T -> real): seq<T> {
    if s == [] then []
    else
      var rest := Sorted(s[1..], key);
      var k := Place(s[0], rest, key, 0);
      rest[..k] + [s[0]] + rest[k..]
  }

  lemma {:induction false} SortedIsPermutation<T>(s: seq<T>, key: T -> real)
    ensures multiset(Sorted(s, key)) == multiset(s)
    ensures |Sorted(s, key)| == |s|
  {
    if s != [] {
      SortedIsPermutation(s[1..], key);
      var rest := Sorted(s[1..], key);
      var k := Place(s[0], rest, key, 0);
      assert rest == rest[..k] + rest[k..];
      assert s == [s[0]] + s[1..];
    }
  }

  lemma {:induction false} SortedIsDescending<T>(s: seq<T>, key: T -> real)
    ensures Descending(Sorted(s, key), key)
  {
    if s != [] {
      SortedIsDescending(s[1..], key);
    }
  }

  /** The elements whose key is v, in order. */
  function WithKey<T>(s: seq<T>, key: T -> real, v: real): seq<T> {
    if s == [] then [] else WithKey(s[..|s| - 1], key, v) + (if key(s[|s| - 1]) == v then [s[|s| - 1]] else [])
  }

  lemma {:induction false} WithKeyConcat<T>(a: seq<T>, b: seq<T>, key: T -> real, v: real)
    ensures WithKey(a + b, key, v) == WithKey(a, key, v) + WithKey(b, key, v)
  {
    if b == [] {
      assert a + b == a;
    } else {
      assert (a + b)[..|a + b| - 1] == a + b[..|b| - 1];
      WithKeyConcat(a, b[..|b| - 1], key, v);
    }
  }

  lemma {:induction false} WithKeyNone<T>(s: seq<T>, key: T -> real, v: real)
    requires forall i :: 0 <= i < |s| ==> key(s[i]) != v
    ensures WithKey(s, key, v) == []
  {
    if s != [] {
      WithKeyNone(s[..|s| - 1], key, v);
    }
  }

  /** Moving x in front of a prefix that holds no equal key leaves every WithKey as it was. */
  lemma InsertionKeepsWithKey<T>(x: T, before: seq<T>, after: seq<T>, key: T -> real, v: real)
    requires forall i :: 0 <= i < |before| ==> key(before[i]) != key(x)
    ensures WithKey(before + [x] + after, key, v) == WithKey([x], key, v) + WithKey(before + after, key, v)
  {
    WithKeyConcat(before, after, key, v);
    WithKeyConcat(before, [x], key, v);
    WithKeyConcat(before + [x], after, key, v);
    if key(x) == v {
      WithKeyNone(before, key, v);
    } else {
      WithKeyNone([x], key, v);
    }
  }

  /** Elements with equal keys keep the order they arrived in. */
  lemma {:induction false} SortedIsStable<T>(s: seq<T>, key: T -> real, v: real)
    ensures WithKey(Sorted(s, key), key, v) == WithKey(s, key, v)
  {
    if s != [] {
      var rest := Sorted(s[1..], key);
      var k := Place(s[0], rest, key, 0);
      assert Sorted(s, key) == rest[..k] + [s[0]] + rest[k..];
      InsertionKeepsWithKey(s[0], rest[..k], rest[k..], key, v);
      assert rest[..k] + rest[k..] == rest;
      SortedIsStable(s[1..], key, v);
      WithKeyConcat([s[0]], s[1..], key, v);
      assert [s[0]] + s[1..] == s;
    }
  }
}

/**
 The selection rule at the end of build_frontier, on its own: walk an ordered list and keep an item
 while fewer than `limit` are kept and fewer than `cap` of its host are. The feasible sets are the
 independent sets of a truncated partition matroid; the lemmas say what greed achieves over them.
 */
module CappedGreedy {
  import opened Common
  import opened StableSort

  /** How many items of s each host has. */
  function Hosts<T>(s: seq<T>, host: T -> string): multiset<string> {
    if s == [] then multiset{} else Hosts(s[..|s| - 1], host) + multiset{host(s[|s| - 1])}
  }

  function Total<T>(s: seq<T>, prio: T -> real): real {
    if s == [] then 0.0 else Total(s[..|s| - 1], prio) + prio(s[|s| - 1])
  }

  ghost predicate Feasible<T>(s: seq<T>, host: T -> string, cap: nat, limit: nat) {
    |s| <= limit && forall h :: Hosts(s, host)[h] <= cap
  }

  /** What the greedy walk keeps. */
  function Select<T>(order: seq<T>, host: T -> string, cap: nat, limit: nat): seq<T> {
    if order == [] then []
    else
      var kept := Select(order[..|order| - 1], host, cap, limit);
      var item := order[|order| - 1];
      if |kept| < limit && Hosts(kept, host)[host(item)] < cap then kept + [item] else kept
  }

  /** The items of order that t also holds, in order. */
  function Restrict<T(==)>(order: seq<T>, t: seq<T>): seq<T> {
    if order == [] then []
    else
      Restrict(order[..|order| - 1], t) + (if order[|order| - 1] in t then [order[|order| - 1]] else [])
  }

  // ---- Counting ----

  lemma {:induction false} HostsSize<T>(s: seq<T>, host: T -> string)
    ensures |Hosts(s, host)| == |s|
  {
    if s != [] {
      HostsSize(s[..|s| - 1], host);
    }
  }

  lemma {:induction false} HostsConcat<T>(a: seq<T>, b: seq<T>, host: T -> string)
    ensures Hosts(a + b, host) == Hosts(a, host) + Hosts(b, host)
  {
    if b == [] {
      assert a + b == a;
    } else {
      assert (a + b)[..|a + b| - 1] == a + b[..|b| - 1];
      HostsConcat(a, b[..|b| - 1], host);
    }
  }

  lemma {:induction false} TotalConcat<T>(a: seq<T>, b: seq<T>, prio: T -> real)
    ensures Total(a + b, prio) == Total(a, prio) + Total(b, prio)
  {
    if b == [] {
      assert a + b == a;
    } else {
      assert (a + b)[..|a + b| - 1] == a + b[..|b| - 1];
      TotalConcat(a, b[..|b| - 1], prio);
    }
  }

  /** What one more item adds. */
  lemma Snoc<T>(s: seq<T>, x: T, host: T -> string, prio: T -> real)
    ensures Hosts(s + [x], host) == Hosts(s, host) + multiset{host(x)}
    ensures Total(s + [x], prio) == Total(s, prio) + prio(x)
  {
    assert (s + [x])[..|s|] == s;
  }

  lemma HostsMiddle<T>(before: seq<T>, x: T, after: seq<T>, host: T -> string)
    ensures Hosts((before + [x]) + after, host) == Hosts(before + after, host) + multiset{host(x)}
  {
    HostsConcat(before + [x], after, host);
    Snoc(before, x, host, _ => 0.0);
    HostsConcat(before, after, host);
  }

  lemma TotalMiddle<T>(before: seq<T>, x: T, after: seq<T>, prio: T -> real)
    ensures Total((before + [x]) + after, prio) == Total(before + after, prio) + prio(x)
  {
    TotalConcat(before + [x], after, prio);
    Snoc(before, x, _ => "", prio);
    TotalConcat(before, after, prio);
  }

  /** Splitting out one position of a sequence. */
  lemma WithoutOne<T>(s: seq<T>, i: nat, host: T -> string, prio: T -> real)
    requires i < |s|
    ensures Total(s, prio) == Total(s[..i] + s[i + 1..], prio) + prio(s[i])
    ensures Hosts(s, host) == Hosts(s[..i] + s[i + 1..], host) + multiset{host(s[i])}
  {
    SplitAt(s, i);
    HostsMiddle(s[..i], s[i], s[i + 1..], host);
    TotalMiddle(s[..i], s[i], s[i + 1..], prio);
  }

  /** Totals and host counts do not depend on the order of the items. */
  lemma {:induction false} PermutationInvariant<T>(s: seq<T>, t: seq<T>, host: T -> string, prio: T -> real)
    requires multiset(s) == multiset(t)
    ensures Total(s, prio) == Total(t, prio)
    ensures Hosts(s, host) == Hosts(t, host)
    ensures |s| == |t|
    decreases |s|
  {
    assert |multiset(s)| == |multiset(t)|;
    if s != [] {
      var i := RemoveLast(s, t);
      PermutationInvariant(s[..|s| - 1], t[..i] + t[i + 1..], host, prio);
      WithoutOne(t, i, host, prio);
    }
  }

  // ---- Feasibility and saturation of the greedy walk ----

  lemma {:induction false} SelectIsFeasible<T>(order: seq<T>, host: T -> string, cap: nat, limit: nat)
    ensures Feasible(Select(order, host, cap, limit), host, cap, limit)
  {
    if order != [] {
      SelectIsFeasible(order[..|order| - 1], host, cap, limit);
      var kept := Select(order[..|order| - 1], host, cap, limit);
      var item := order[|order| - 1];
      assert (kept + [item])[..|kept|] == kept;
    }
  }

  /** The kept items come from the order, each position at most once and in order. */
  lemma {:induction false} SelectIsSubsequence<T>(order: seq<T>, host: T -> string, cap: nat, limit: nat)
    ensures forall x :: x in Select(order, host, cap, limit) ==> x in order
    ensures Distinct(order) ==> Distinct(Select(order, host, cap, limit))
  {
    if order != [] {
      var front := order[..|order| - 1];
      SelectIsSubsequence(front, host, cap, limit);
      assert forall x :: x in front ==> x in order;
      if Distinct(order) {
        assert order[|order| - 1] !in front;
      }
    }
  }

  /** Unless the walk is full, every host is kept up to its cap or as far as it is offered. */
  lemma {:induction false} Saturation<T>(order: seq<T>, host: T -> string, cap: nat, limit: nat)
    ensures var kept := Select(order, host, cap, limit);
            |kept| == limit ||
            forall h :: Hosts(kept, host)[h] >= Min(cap, Hosts(order, host)[h])
  {
    if order != [] {
      var front, item := order[..|order| - 1], order[|order| - 1];
      Saturation(front, host, cap, limit);
      SelectIsFeasible(front, host, cap, limit);
      var before, kept := Select(front, host, cap, limit), Select(order, host, cap, limit);
      HostsConcat(before, [item], host);
      if |kept| < limit {
        forall h ensures Hosts(kept, host)[h] >= Min(cap, Hosts(order, host)[h]) {
          assert Hosts(before, host)[h] >= Min(cap, Hosts(front, host)[h]);
        }
      }
    }
  }

  lemma {:induction false} RestrictHosts<T>(order: seq<T>, t: seq<T>, host: T -> string)
    ensures Hosts(Restrict(order, t), host) <= Hosts(order, host)
  {
    if order != [] {
      RestrictHosts(order[..|order| - 1], t, host);
      var r, item := Restrict(order[..|order| - 1], t), order[|order| - 1];
      assert (r + [item])[..|r|] == r;
      assert r + [] == r;
    }
  }

  /** A feasible choice stays feasible when only a shorter prefix of the order is considered. */
  lemma RestrictPrefixFeasible<T>(order: seq<T>, t: seq<T>, host: T -> string, cap: nat, limit: nat)
    requires order != []
    requires Feasible(Restrict(order, t), host, cap, limit)
    ensures Feasible(Restrict(order[..|order| - 1], t), host, cap, limit)
  {
    var r, item := Restrict(order[..|order| - 1], t), order[|order| - 1];
    assert (r + [item])[..|r|] == r;
    assert r + [] == r;
    forall h ensures Hosts(r, host)[h] <= cap {
      assert Hosts(r, host)[h] <= Hosts(Restrict(order, t), host)[h];
    }
  }

  /** On every prefix the walk keeps at least as many items as any feasible choice has there. */
  lemma PrefixDomination<T>(order: seq<T>, t: seq<T>, host: T -> string, cap: nat, limit: nat)
    requires Feasible(Restrict(order, t), host, cap, limit)
    ensures |Restrict(order, t)| <= |Select(order, host, cap, limit)|
  {
    var r, kept := Restrict(order, t), Select(order, host, cap, limit);
    Saturation(order, host, cap, limit);
    if |kept| != limit {
      RestrictHosts(order, t, host);
      forall h ensures Hosts(r, host)[h] <= Hosts(kept, host)[h] {
        assert Hosts(r, host)[h] <= Hosts(order, host)[h];
      }
      BagSize(Hosts(r, host), Hosts(kept, host));
      HostsSize(r, host);
      HostsSize(kept, host);
    }
  }

  lemma BagSize(a: multiset<string>, b: multiset<string>)
    requires a <= b
    ensures |a| <= |b|
  {
    assert b == a + (b - a);
  }

  // ---- Totals ----

  /** n items of priority p each. */
  function Copies(n: nat, p: real): real {
    if n == 0 then 0.0 else Copies(n - 1, p) + p
  }

  lemma {:induction false} CopiesMonotone(n: nat, p: real, q: real)
    requires q >= p
    ensures Copies(n, q) >= Copies(n, p)
  {
    if n > 0 {
      CopiesMonotone(n - 1, p, q);
    }
  }

  lemma {:induction false} CopiesSign(n: nat, p: real)
    requires p >= 0.0
    ensures Copies(n, p) >= 0.0
  {
    if n > 0 {
      CopiesSign(n - 1, p);
    }
  }

  /** By how much the greedy walk leads the choice t, in items and in total priority. */
  ghost function Lead<T>(order: seq<T>, t: seq<T>, host: T -> string, cap: nat, limit: nat): int {
    |Select(order, host, cap, limit)| - |Restrict(order, t)|
  }

  ghost function Gain<T>(order: seq<T>, t: seq<T>, host: T -> string, prio: T -> real, cap: nat, limit: nat): real {
    Total(Select(order, host, cap, limit), prio) - Total(Restrict(order, t), prio)
  }

  /** One more item moves the lead and the gain together. */
  lemma LeadStep<T>(order: seq<T>, t: seq<T>, host: T -> string, prio: T -> real, cap: nat, limit: nat)
    returns (gained: bool, lost: bool)
    requires order != []
    ensures var front, p := order[..|order| - 1], prio(order[|order| - 1]);
            && Lead(order, t, host, cap, limit)
               == Lead(front, t, host, cap, limit) + (if gained then 1 else 0) - (if lost then 1 else 0)
            && Gain(order, t, host, prio, cap, limit)
               == Gain(front, t, host, prio, cap, limit) + (if gained then p else 0.0) - (if lost then p else 0.0)
  {
    var front, item := order[..|order| - 1], order[|order| - 1];
    var kept, r := Select(front, host, cap, limit), Restrict(front, t);
    gained := |kept| < limit && Hosts(kept, host)[host(item)] < cap;
    lost := item in t;
    Snoc(kept, item, host, prio);
    Snoc(r, item, host, prio);
    assert r + [] == r;
  }

  /** Abel summation: the lead in items is worth at least the smallest priority seen so far. */
  lemma {:induction false} LeadPays<T>(order: seq<T>, t: seq<T>, host: T -> string, prio: T -> real,
                                       cap: nat, limit: nat)
    requires order != []
    requires Descending(order, prio)
    requires Feasible(Restrict(order, t), host, cap, limit)
    ensures Lead(order, t, host, cap, limit) >= 0
    ensures Gain(order, t, host, prio, cap, limit)
            >= Copies(Lead(order, t, host, cap, limit), prio(order[|order| - 1]))
    decreases |order|
  {
    var front, p := order[..|order| - 1], prio(order[|order| - 1]);
    var lead := Lead(front, t, host, cap, limit);
    PrefixDomination(order, t, host, cap, limit);
    assert lead >= 0 && Gain(front, t, host, prio, cap, limit) >= Copies(lead, p) by {
      if front != [] {
        RestrictPrefixFeasible(order, t, host, cap, limit);
        LeadPays(front, t, host, prio, cap, limit);
        assert prio(front[|front| - 1]) >= p;
        CopiesMonotone(lead, p, prio(front[|front| - 1]));
      }
    }
    var gained, lost := LeadStep(order, t, host, prio, cap, limit);
  }

  // ---- Main results ----

  /** t is any choice of different items from the order that respects both caps. */
  ghost predicate FeasibleChoice<T>(t: seq<T>, order: seq<T>, host: T -> string, cap: nat, limit: nat) {
    Distinct(t) && (forall x :: x in t ==> x in order) && Feasible(t, host, cap, limit)
  }

  lemma {:induction false} RestrictMembers<T>(order: seq<T>, t: seq<T>)
    requires Distinct(order)
    ensures Distinct(Restrict(order, t))
    ensures forall x :: x in Restrict(order, t) <==> x in order && x in t
  {
    if order != [] {
      var front, item := order[..|order| - 1], order[|order| - 1];
      RestrictMembers(front, t);
      assert order == front + [item];
      assert item !in front;
    }
  }

  lemma ChoiceIsRestriction<T>(order: seq<T>, t: seq<T>, host: T -> string, prio: T -> real, cap: nat, limit: nat)
    requires Distinct(order) && FeasibleChoice(t, order, host, cap, limit)
    ensures var r := Restrict(order, t);
            Feasible(r, host, cap, limit) && Total(r, prio) == Total(t, prio) && |r| == |t|
  {
    RestrictMembers(order, t);
    DistinctPermutation(Restrict(order, t), t);
    PermutationInvariant(Restrict(order, t), t, host, prio);
  }

  /** Whatever the order, no feasible choice holds more items than the greedy walk keeps. */
  lemma GreedyIsLargest<T>(order: seq<T>, t: seq<T>, host: T -> string, cap: nat, limit: nat)
    requires Distinct(order) && FeasibleChoice(t, order, host, cap, limit)
    ensures |t| <= |Select(order, host, cap, limit)|
  {
    ChoiceIsRestriction(order, t, host, _ => 0.0, cap, limit);
    PrefixDomination(order, t, host, cap, limit);
  }

  lemma {:induction false} NonNegativePicksWin<T>(order: seq<T>, t: seq<T>, host: T -> string, prio: T -> real,
                                                  cap: nat, limit: nat)
    requires Descending(order, prio) && Feasible(Restrict(order, t), host, cap, limit)
    requires forall x :: x in Select(order, host, cap, limit) ==> prio(x) >= 0.0
    ensures Total(Restrict(order, t), prio) <= Total(Select(order, host, cap, limit), prio)
    decreases |order|
  {
    if order != [] {
      var front, item := order[..|order| - 1], order[|order| - 1];
      if prio(item) >= 0.0 {
        LeadPays(order, t, host, prio, cap, limit);
        CopiesSign(Lead(order, t, host, cap, limit), prio(item));
      } else {
        assert Select(order, host, cap, limit) == Select(front, host, cap, limit);
        RestrictPrefixFeasible(order, t, host, cap, limit);
        NonNegativePicksWin(front, t, host, prio, cap, limit);
        Snoc(Restrict(front, t), item, host, prio);
        assert Restrict(front, t) + [] == Restrict(front, t);
      }
    }
  }

  /**
   Greedy selection from a descending order is at least as good as every feasible choice, provided no
   kept item has a negative priority; among choices of the same size it is best in any case.
   */
  lemma GreedyIsOptimal<T>(order: seq<T>, t: seq<T>, host: T -> string, prio: T -> real, cap: nat, limit: nat)
    requires Distinct(order) && Descending(order, prio)
    requires FeasibleChoice(t, order, host, cap, limit)
    requires (forall x :: x in Select(order, host, cap, limit) ==> prio(x) >= 0.0)
             || |t| == |Select(order, host, cap, limit)|
    ensures Total(t, prio) <= Total(Select(order, host, cap, limit), prio)
  {
    ChoiceIsRestriction(order, t, host, prio, cap, limit);
    if |t| == |Select(order, host, cap, limit)| {
      if order != [] {
        LeadPays(order, t, host, prio, cap, limit);
      }
    } else {
      NonNegativePicksWin(order, t, host, prio, cap, limit);
    }
  }

  lemma DropIsFeasible<T>(kept: seq<T>, i: nat, host: T -> string, cap: nat, limit: nat)
    requires i < |kept| && Feasible(kept, host, cap, limit)
    ensures Feasible(kept[..i] + kept[i + 1..], host, cap, limit)
  {
    WithoutOne(kept, i, host, _ => 0.0);
    var rest := kept[..i] + kept[i + 1..];
    forall h ensures Hosts(rest, host)[h] <= cap {
      assert Hosts(rest, host)[h] <= Hosts(kept, host)[h];
    }
  }

  lemma DropIsDistinct<T>(kept: seq<T>, i: nat, t: seq<T>)
    requires i < |kept| && Distinct(kept) && t == kept[..i] + kept[i + 1..]
    ensures Distinct(t)
    ensures forall x :: x in t ==> x in kept
  {
    assert forall j :: 0 <= j < i ==> t[j] == kept[j];
    assert forall j :: i <= j < |t| ==> t[j] == kept[j + 1];
  }

  /** The proviso is exact: dropping a kept item of negative priority gives a better feasible choice. */
  lemma NegativePickIsBeaten<T>(order: seq<T>, i: nat, host: T -> string, prio: T -> real, cap: nat, limit: nat)
    returns (t: seq<T>)
    requires Distinct(order)
    requires i < |Select(order, host, cap, limit)| && prio(Select(order, host, cap, limit)[i]) < 0.0
    ensures FeasibleChoice(t, order, host, cap, limit)
    ensures Total(t, prio) > Total(Select(order, host, cap, limit), prio)
  {
    var kept := Select(order, host, cap, limit);
    SelectIsSubsequence(order, host, cap, limit);
    SelectIsFeasible(order, host, cap, limit);
    t := kept[..i] + kept[i + 1..];
    DropIsDistinct(kept, i, t);
    DropIsFeasible(kept, i, host, cap, limit);
    WithoutOne(kept, i, host, prio);
  }

  // ---- When nothing negative is kept, told from the items alone ----

  function NonNegative<T>(s: seq<T>, prio: T -> real): seq<T> {
    if s == [] then []
    else NonNegative(s[..|s| - 1], prio) + (if prio(s[|s| - 1]) >= 0.0 then [s[|s| - 1]] else [])
  }

  /** The sum over all hosts of their count, each counted up to the cap. */
  ghost function CappedSize(bag: multiset<string>, cap: nat): nat
    decreases |bag|
  {
    if bag == multiset{} then 0
    else
      var h :| h in bag;
      Min(cap, bag[h]) + CappedSize(bag[h := 0], cap)
  }

  /**
   The non-negative items fill the limit, or they fill the host of every negative one. Callers can see this
   before they select.
   */
  ghost predicate NoRoomForNegatives<T>(s: seq<T>, host: T -> string, prio: T -> real, cap: nat, limit: nat) {
    var good := Hosts(NonNegative(s, prio), host);
    CappedSize(good, cap) >= limit || forall x :: x in s && prio(x) < 0.0 ==> good[host(x)] >= cap
  }

  lemma {:induction false} CappedSizeTakesAny(bag: multiset<string>, cap: nat, x: string)
    requires x in bag
    ensures CappedSize(bag, cap) == Min(cap, bag[x]) + CappedSize(bag[x := 0], cap)
    decreases |bag|
  {
    var h :| h in bag && CappedSize(bag, cap) == Min(cap, bag[h]) + CappedSize(bag[h := 0], cap);
    if h != x {
      CappedSizeTakesAny(bag[h := 0], cap, x);
      CappedSizeTakesAny(bag[x := 0], cap, h);
      assert bag[h := 0][x := 0] == bag[x := 0][h := 0];
    }
  }

  lemma {:induction false} CappedSizeAtLeast(picked: multiset<string>, bag: multiset<string>, cap: nat)
    requires forall h :: picked[h] <= Min(cap, bag[h])
    ensures |picked| <= CappedSize(bag, cap)
    decreases |bag|
  {
    if bag == multiset{} {
      assert picked == multiset{};
    } else {
      var x :| x in bag;
      CappedSizeTakesAny(bag, cap, x);
      CappedSizeAtLeast(picked[x := 0], bag[x := 0], cap);
    }
  }

  lemma {:induction false} CappedSizeAtMost(picked: multiset<string>, bag: multiset<string>, cap: nat)
    requires forall h :: picked[h] >= Min(cap, bag[h])
    ensures |picked| >= CappedSize(bag, cap)
    decreases |bag|
  {
    if bag != multiset{} {
      var x :| x in bag;
      CappedSizeTakesAny(bag, cap, x);
      CappedSizeAtMost(picked[x := 0], bag[x := 0], cap);
    }
  }

  lemma {:induction false} NonNegativeHosts<T>(s: seq<T>, host: T -> string, prio: T -> real)
    ensures Hosts(NonNegative(s, prio), host) <= Hosts(s, host)
  {
    if s != [] {
      NonNegativeHosts(s[..|s| - 1], host, prio);
      var good, item := NonNegative(s[..|s| - 1], prio), s[|s| - 1];
      assert (good + [item])[..|good|] == good;
      assert good + [] == good;
    }
  }

  lemma {:induction false} NonNegativeConcat<T>(a: seq<T>, b: seq<T>, prio: T -> real)
    ensures NonNegative(a + b, prio) == NonNegative(a, prio) + NonNegative(b, prio)
  {
    if b == [] {
      assert a + b == a;
    } else {
      assert (a + b)[..|a + b| - 1] == a + b[..|b| - 1];
      NonNegativeConcat(a, b[..|b| - 1], prio);
    }
  }

  lemma MiddleOut<T>(a: seq<T>, middle: seq<T>, b: seq<T>)
    ensures multiset((a + middle) + b) == multiset(a + b) + multiset(middle)
  {
  }

  lemma NonNegativeSnoc<T>(s: seq<T>, x: T, prio: T -> real)
    ensures NonNegative(s + [x], prio) == NonNegative(s, prio) + (if prio(x) >= 0.0 then [x] else [])
  {
    assert (s + [x])[..|s|] == s;
  }

  lemma NonNegativeMiddle<T>(before: seq<T>, x: T, after: seq<T>, prio: T -> real)
    ensures multiset(NonNegative((before + [x]) + after, prio))
            == multiset(NonNegative(before + after, prio)) + multiset(if prio(x) >= 0.0 then [x] else [])
  {
    NonNegativeConcat(before + [x], after, prio);
    NonNegativeSnoc(before, x, prio);
    NonNegativeConcat(before, after, prio);
    MiddleOut(NonNegative(before, prio), if prio(x) >= 0.0 then [x] else [], NonNegative(after, prio));
  }

  lemma {:induction false} NonNegativeOfPermutation<T>(s: seq<T>, t: seq<T>, prio: T -> real)
    requires multiset(s) == multiset(t)
    ensures multiset(NonNegative(s, prio)) == multiset(NonNegative(t, prio))
    decreases |s|
  {
    assert |multiset(s)| == |multiset(t)|;
    if s != [] {
      var i := RemoveLast(s, t);
      NonNegativeOfPermutation(s[..|s| - 1], t[..i] + t[i + 1..], prio);
      SplitAt(t, i);
      NonNegativeMiddle(t[..i], t[i], t[i + 1..], prio);
    }
  }

  /** With the non-negative items in front of it, a negative item finds no room. */
  lemma NegativeFindsNoRoom<T>(front: seq<T>, item: T, good: multiset<string>, host: T -> string, cap: nat, limit: nat)
    requires good <= Hosts(front, host)
    requires CappedSize(good, cap) >= limit || good[host(item)] >= cap
    ensures var kept := Select(front, host, cap, limit); |kept| >= limit || Hosts(kept, host)[host(item)] >= cap
  {
    var kept := Select(front, host, cap, limit);
    Saturation(front, host, cap, limit);
    if |kept| != limit {
      forall h ensures Hosts(kept, host)[h] >= Min(cap, good[h]) {
        assert Hosts(front, host)[h] >= good[h];
      }
      CappedSizeAtMost(Hosts(kept, host), good, cap);
      HostsSize(kept, host);
    }
  }

  lemma {:induction false} NegativesAreLeft<T>(order: seq<T>, good: multiset<string>, host: T -> string, prio: T -> real,
                                               cap: nat, limit: nat)
    requires Descending(order, prio)
    requires CappedSize(good, cap) >= limit || forall x :: x in order && prio(x) < 0.0 ==> good[host(x)] >= cap
    requires order != [] && prio(order[|order| - 1]) < 0.0 ==> good <= Hosts(NonNegative(order, prio), host)
    ensures forall x :: x in Select(order, host, cap, limit) ==> prio(x) >= 0.0
  {
    if order != [] {
      var front, item := order[..|order| - 1], order[|order| - 1];
      if front != [] && prio(front[|front| - 1]) < 0.0 {
        assert prio(front[|front| - 1]) >= prio(item);
      }
      if prio(item) < 0.0 {
        assert NonNegative(order, prio) == NonNegative(front, prio);
        NonNegativeHosts(front, host, prio);
        assert item in order;
        NegativeFindsNoRoom(front, item, good, host, cap, limit);
      }
      NegativesAreLeft(front, good, host, prio, cap, limit);
    }
  }

  /** As long as nothing negative is kept, what is kept counts among the non-negative items. */
  lemma {:induction false} KeptAmongNonNegative<T>(order: seq<T>, host: T -> string, prio: T -> real, cap: nat, limit: nat)
    requires forall x :: x in Select(order, host, cap, limit) ==> prio(x) >= 0.0
    ensures Hosts(Select(order, host, cap, limit), host) <= Hosts(NonNegative(order, prio), host)
  {
    if order != [] {
      var front, item := order[..|order| - 1], order[|order| - 1];
      var kept, good := Select(front, host, cap, limit), NonNegative(front, prio);
      assert forall x :: x in kept ==> x in Select(order, host, cap, limit);
      KeptAmongNonNegative(front, host, prio, cap, limit);
      assert (kept + [item])[..|kept|] == kept && (good + [item])[..|good|] == good;
      assert good + [] == good;
      assert item in kept + [item];
    }
  }

  lemma KeptFitsCap<T>(order: seq<T>, host: T -> string, prio: T -> real, cap: nat, limit: nat)
    requires forall x :: x in Select(order, host, cap, limit) ==> prio(x) >= 0.0
    ensures var kept, good := Select(order, host, cap, limit), Hosts(NonNegative(order, prio), host);
            |kept| <= CappedSize(good, cap) && forall h :: Hosts(kept, host)[h] <= good[h]
  {
    var kept, good := Select(order, host, cap, limit), Hosts(NonNegative(order, prio), host);
    KeptAmongNonNegative(order, host, prio, cap, limit);
    SelectIsFeasible(order, host, cap, limit);
    forall h ensures Hosts(kept, host)[h] <= Min(cap, good[h]) {
    }
    CappedSizeAtLeast(Hosts(kept, host), good, cap);
    HostsSize(kept, host);
  }

  /** With room for a negative item, one is kept. */
  lemma NegativeIsKept<T>(order: seq<T>, host: T -> string, prio: T -> real, cap: nat, limit: nat)
    requires !NoRoomForNegatives(order, host, prio, cap, limit)
    ensures exists x :: x in Select(order, host, cap, limit) && prio(x) < 0.0
  {
    if forall x :: x in Select(order, host, cap, limit) ==> prio(x) >= 0.0 {
      KeptFitsCap(order, host, prio, cap, limit);
      Saturation(order, host, cap, limit);
      var good := Hosts(NonNegative(order, prio), host);
      var x :| x in order && prio(x) < 0.0 && good[host(x)] < cap;
      NegativeCounts(order, x, host, prio);
    }
  }

  /** A negative item makes the count of its host exceed that of the non-negative items. */
  lemma {:induction false} NegativeCounts<T>(order: seq<T>, x: T, host: T -> string, prio: T -> real)
    requires x in order && prio(x) < 0.0
    ensures Hosts(order, host)[host(x)] > Hosts(NonNegative(order, prio), host)[host(x)]
  {
    var front, item := order[..|order| - 1], order[|order| - 1];
    var good := NonNegative(front, prio);
    SplitLast(order);
    NonNegativeHosts(front, host, prio);
    assert Hosts(good, host)[host(x)] <= Hosts(front, host)[host(x)];
    assert (good + [item])[..|good|] == good && good + [] == good;
    if x in front {
      NegativeCounts(front, x, host, prio);
    }
  }

  /** Greedy selection is best exactly when the items leave no room for a negative one. */
  lemma GreedyIsOptimalIff<T>(order: seq<T>, host: T -> string, prio: T -> real, cap: nat, limit: nat)
    requires Distinct(order) && Descending(order, prio)
    ensures (forall t :: FeasibleChoice(t, order, host, cap, limit) ==>
               Total(t, prio) <= Total(Select(order, host, cap, limit), prio))
            <==> NoRoomForNegatives(order, host, prio, cap, limit)
  {
    var kept := Select(order, host, cap, limit);
    if NoRoomForNegatives(order, host, prio, cap, limit) {
      NegativesAreLeft(order, Hosts(NonNegative(order, prio), host), host, prio, cap, limit);
      forall t | FeasibleChoice(t, order, host, cap, limit) ensures Total(t, prio) <= Total(kept, prio) {
        GreedyIsOptimal(order, t, host, prio, cap, limit);
      }
    } else {
      NegativeIsKept(order, host, prio, cap, limit);
      var i :| 0 <= i < |kept| && prio(kept[i]) < 0.0;
      var t := NegativePickIsBeaten(order, i, host, prio, cap, limit);
    }
  }
}

/**
 seed_loader/curate.py: at most three seeds per domain, one per URL whatever its case, then a greedy selection
 that fills a non-English quota, a non-US quota and the rest, best value first. Language, region, domain and
 value of a seed are given with it.
 */
module Curate {
  import opened Common
  import opened StableSort

  /** `key` is the lower-cased URL. */
  datatype Seed = Seed(url: string, key: string, domain: string, lang: string, region: string, value: real)

  const PER_DOMAIN := 3

  function ValueOf(s: Seed): real { s.value }

  /** Equal URLs have equal lower-cased URLs. */
  ghost predicate KeysOk(s: seq<Seed>) {
    forall i, j :: 0 <= i < |s| && 0 <= j < |s| && s[i].url == s[j].url ==> s[i].key == s[j].key
  }

  ghost predicate DistinctKeys(s: seq<Seed>) {
    forall i, j :: 0 <= i < j < |s| ==> s[i].key != s[j].key
  }

  ghost predicate DistinctUrls(s: seq<Seed>) {
    forall i, j :: 0 <= i < j < |s| ==> s[i].url != s[j].url
  }

  function CountDomain(s: seq<Seed>, domain: string): nat {
    if s == [] then 0 else CountDomain(s[..|s| - 1], domain) + (if s[|s| - 1].domain == domain then 1 else 0)
  }

  // ---- Preparation ----

  /** Sources in order, without those whose domain has had its three. */
  function Prepared(sources: seq<Seed>): seq<Seed> {
    if sources == [] then []
    else
      var prepared, c := Prepared(sources[..|sources| - 1]), sources[|sources| - 1];
      if CountDomain(prepared, c.domain) >= PER_DOMAIN then prepared else prepared + [c]
  }

  lemma {:induction false} PreparedPerDomain(sources: seq<Seed>, domain: string)
    ensures CountDomain(Prepared(sources), domain) <= PER_DOMAIN
    ensures forall c :: c in Prepared(sources) ==> c in sources
  {
    if sources != [] {
      var front := sources[..|sources| - 1];
      PreparedPerDomain(front, domain);
      var prepared := Prepared(front);
      SplitLast(sources);
      assert (prepared + [sources[|sources| - 1]])[..|prepared|] == prepared;
    }
  }

  /** Of each domain exactly the first three get through. */
  lemma {:induction false} PreparedKeepsFirstThree(sources: seq<Seed>, domain: string)
    ensures CountDomain(Prepared(sources), domain) == Min(PER_DOMAIN, CountDomain(sources, domain))
    ensures sources != [] ==>
              var front, c := sources[..|sources| - 1], sources[|sources| - 1];
              Prepared(sources) == if CountDomain(front, c.domain) < PER_DOMAIN then Prepared(front) + [c] else Prepared(front)
  {
    if sources != [] {
      var front, c := sources[..|sources| - 1], sources[|sources| - 1];
      PreparedKeepsFirstThree(front, domain);
      PreparedKeepsFirstThree(front, c.domain);
      assert (Prepared(front) + [c])[..|Prepared(front)|] == Prepared(front);
    }
  }

  method Prepare(sources: seq<Seed>) returns (prepared: seq<Seed>)
    ensures prepared == Prepared(sources)
  {
    prepared := [];
    var perDomain: map<string, nat> := map[];
    for i := 0 to |sources|
      invariant prepared == Prepared(sources[..i])
      invariant forall d :: CountDomain(prepared, d) == if d in perDomain then perDomain[d] else 0
    {
      assert sources[..i + 1][..i] == sources[..i];
      var c := sources[i];
      var count := if c.domain in perDomain then perDomain[c.domain] else 0;
      if count < PER_DOMAIN {
        perDomain := perDomain[c.domain := count + 1];
        assert (prepared + [c])[..|prepared|] == prepared;
        prepared := prepared + [c];
      }
    }
    assert sources[..|sources|] == sources;
  }

  // ---- De-duplication ----

  function FindKey(s: seq<Seed>, key: string): (i: int)
    ensures -1 <= i < |s|
    ensures i >= 0 ==> s[i].key == key
    ensures i == -1 ==> forall k :: 0 <= k < |s| ==> s[k].key != key
  {
    if s == [] then -1 else if s[|s| - 1].key == key then |s| - 1 else FindKey(s[..|s| - 1], key)
  }

  /** The dictionary of _dedupe, as its values in key order: a better seed takes over the place of its key. */
  function Put(seen: seq<Seed>, c: Seed): seq<Seed> {
    var i := FindKey(seen, c.key);
    if i < 0 then seen + [c] else if c.value > seen[i].value then seen[i := c] else seen
  }

  function Deduped(candidates: seq<Seed>): seq<Seed> {
    if candidates == [] then [] else Put(Deduped(candidates[..|candidates| - 1]), candidates[|candidates| - 1])
  }

  method Dedupe(candidates: seq<Seed>) returns (seen: seq<Seed>)
    ensures seen == Deduped(candidates)
  {
    seen := [];
    for i := 0 to |candidates|
      invariant seen == Deduped(candidates[..i])
    {
      assert candidates[..i + 1][..i] == candidates[..i];
      var existing := FindKey(seen, candidates[i].key);
      if existing < 0 {
        seen := seen + [candidates[i]];
      } else if candidates[i].value > seen[existing].value {
        seen := seen[existing := candidates[i]];
      }
    }
    assert candidates[..|candidates|] == candidates;
  }

  /** One seed per key, each an occurrence of a candidate, and for every candidate one that is at least as good. */
  lemma {:induction false} DedupedKeepsBest(candidates: seq<Seed>)
    ensures DistinctKeys(Deduped(candidates))
    ensures multiset(Deduped(candidates)) <= multiset(candidates)
    ensures forall c :: c in candidates ==>
              exists d :: d in Deduped(candidates) && d.key == c.key && d.value >= c.value
  {
    if candidates != [] {
      var front, last := candidates[..|candidates| - 1], candidates[|candidates| - 1];
      DedupedKeepsBest(front);
      SplitLast(candidates);
      var seen, t := Deduped(front), Deduped(candidates);
      var i := FindKey(seen, last.key);
      PutIsBag(seen, last);
      forall c | c in candidates ensures exists d :: d in t && d.key == c.key && d.value >= c.value {
        if c in front {
          var d :| d in seen && d.key == c.key && d.value >= c.value;
          PutKeeps(seen, last, d);
        } else {
          assert c == last;
          if i < 0 { assert t[|seen|] == last; } else { assert t[i].key == last.key && t[i].value >= last.value; }
        }
      }
    }
  }

  lemma PutIsBag(seen: seq<Seed>, c: Seed)
    ensures multiset(Put(seen, c)) <= multiset(seen) + multiset{c}
    ensures DistinctKeys(seen) ==> DistinctKeys(Put(seen, c))
  {
    var i := FindKey(seen, c.key);
    if i >= 0 {
      assert seen == seen[..i] + [seen[i]] + seen[i + 1..];
      assert seen[i := c] == seen[..i] + [c] + seen[i + 1..];
    }
  }

  lemma PutKeeps(seen: seq<Seed>, c: Seed, d: Seed)
    requires d in seen
    ensures exists e :: e in Put(seen, c) && e.key == d.key && e.value >= d.value
  {
    var i, j := FindKey(seen, c.key), 0;
    var k :| 0 <= k < |seen| && seen[k] == d;
    assert Put(seen, c)[k].key == d.key && Put(seen, c)[k].value >= d.value;
  }

  lemma TakeOut(t: seq<Seed>, i: nat, domain: string)
    requires i < |t|
    ensures multiset(t) == multiset(t[..i] + t[i + 1..]) + multiset{t[i]}
    ensures CountDomain(t, domain)
            == CountDomain(t[..i] + t[i + 1..], domain) + (if t[i].domain == domain then 1 else 0)
  {
    assert t == (t[..i] + [t[i]]) + t[i + 1..];
    CountDomainConcat(t[..i], t[i + 1..], domain);
    CountDomainConcat(t[..i] + [t[i]], t[i + 1..], domain);
    assert (t[..i] + [t[i]])[..i] == t[..i];
  }

  lemma CancelOne(a: multiset<Seed>, b: multiset<Seed>, x: Seed)
    requires a + multiset{x} <= b + multiset{x}
    ensures a <= b
  {
    forall y: Seed | true ensures a[y] <= b[y] {
      assert (a + multiset{x})[y] <= (b + multiset{x})[y];
    }
  }

  lemma {:induction false} CountDomainBag(s: seq<Seed>, t: seq<Seed>, domain: string)
    requires multiset(s) <= multiset(t)
    ensures CountDomain(s, domain) <= CountDomain(t, domain)
    decreases |s|
  {
    if s != [] {
      SplitLast(s);
      var front, last := s[..|s| - 1], s[|s| - 1];
      assert multiset(s) == multiset(front) + multiset{last};
      assert last in multiset(t);
      var i :| 0 <= i < |t| && t[i] == last;
      TakeOut(t, i, domain);
      CancelOne(multiset(front), multiset(t[..i] + t[i + 1..]), last);
      CountDomainBag(front, t[..i] + t[i + 1..], domain);
    }
  }

  lemma {:induction false} CountDomainConcat(a: seq<Seed>, b: seq<Seed>, domain: string)
    ensures CountDomain(a + b, domain) == CountDomain(a, domain) + CountDomain(b, domain)
  {
    if b == [] {
      assert a + b == a;
    } else {
      assert (a + b)[..|a + b| - 1] == a + b[..|b| - 1];
      CountDomainConcat(a, b[..|b| - 1], domain);
    }
  }

  /** Of the candidates with its key, none is worth more, and none before it as much. */
  ghost predicate IsFirstBest(candidates: seq<Seed>, i: nat) {
    i < |candidates| && forall j :: 0 <= j < |candidates| && candidates[j].key == candidates[i].key ==>
      candidates[j].value <= candidates[i].value && (j < i ==> candidates[j].value < candidates[i].value)
  }

  lemma StaysFirstBest(front: seq<Seed>, c: Seed, i: nat)
    requires IsFirstBest(front, i) && (c.key == front[i].key ==> c.value <= front[i].value)
    ensures IsFirstBest(front + [c], i)
  {
  }

  lemma LastIsFirstBest(front: seq<Seed>, c: Seed)
    requires forall j :: 0 <= j < |front| && front[j].key == c.key ==> front[j].value < c.value
    ensures IsFirstBest(front + [c], |front|)
  {
  }

  lemma NewKeyIsFirst(front: seq<Seed>, c: Seed)
    requires FindKey(Deduped(front), c.key) < 0
    ensures forall j :: 0 <= j < |front| ==> front[j].key != c.key
  {
    DedupedKeepsBest(front);
    forall j | 0 <= j < |front| ensures front[j].key != c.key {
      assert front[j] in front;
    }
  }

  /** The seed kept for a key is the first of those of greatest value. */
  lemma {:induction false} DedupedIsFirstBest(candidates: seq<Seed>, k: nat) returns (i: nat)
    requires k < |Deduped(candidates)|
    ensures IsFirstBest(candidates, i) && candidates[i] == Deduped(candidates)[k]
  {
    var front, c := candidates[..|candidates| - 1], candidates[|candidates| - 1];
    var seen := Deduped(front);
    var at := FindKey(seen, c.key);
    SplitLast(candidates);
    if at < 0 && k == |seen| {
      NewKeyIsFirst(front, c);
      LastIsFirstBest(front, c);
      i := |front|;
    } else {
      i := DedupedIsFirstBest(front, k);
      if k == at && c.value > seen[k].value {
        LastIsFirstBest(front, c);
        i := |front|;
      } else {
        if k != at { OnlyPlaceOfKey(front, c, k); }
        StaysFirstBest(front, c, i);
      }
    }
  }

  lemma OnlyPlaceOfKey(front: seq<Seed>, c: Seed, k: nat)
    requires k < |Deduped(front)| && k != FindKey(Deduped(front), c.key)
    ensures Deduped(front)[k].key != c.key
  {
    DedupedKeepsBest(front);
  }

  // ---- Selection ----

  datatype Test = NonEnglish | NonUs {
    predicate Holds(c: Seed) {
      match this
      case NonEnglish => c.lang != "en"
      case NonUs => c.region != "us"
    }
  }

  function Pool(s: seq<Seed>, test: Test): seq<Seed> {
    if s == [] then [] else Pool(s[..|s| - 1], test) + (if test.Holds(s[|s| - 1]) then [s[|s| - 1]] else [])
  }

  function Urls(s: seq<Seed>): set<string> { set c | c in s :: c.url }

  /** The members of a pool whose URL is not taken. */
  function Untaken(pool: seq<Seed>, taken: set<string>): seq<Seed> {
    if pool == [] then []
    else (if pool[0].url in taken then [] else [pool[0]]) + Untaken(pool[1..], taken)
  }

  /** How many of n available members a quota and the room left allow; a quota of zero still takes one. */
  function Take(quota: Option<int>, room: nat, available: nat): nat {
    Min(Min(room, available), if quota.Some? then Max(1, quota.value) else available)
  }

  /** The members that a quota and the room left allow. */
  function Taken(untaken: seq<Seed>, quota: Option<int>, room: nat): seq<Seed> {
    untaken[..Take(quota, room, |untaken|)]
  }

  function Room(selected: seq<Seed>, target: nat): nat {
    if |selected| < target then target - |selected| else 0
  }

  /** _consume: what is selected after offering a pool. */
  function Consumed(selected: seq<Seed>, pool: seq<Seed>, quota: Option<int>, target: nat): seq<Seed> {
    selected + Taken(Untaken(pool, Urls(selected)), quota, Room(selected, target))
  }

  lemma {:induction false} UntakenSkips(pool: seq<Seed>, taken: set<string>, url: string)
    requires forall c :: c in pool ==> c.url != url
    ensures Untaken(pool, taken + {url}) == Untaken(pool, taken)
  {
    if pool != [] {
      UntakenSkips(pool[1..], taken, url);
    }
  }

  lemma UntakenAfterFirst(selected: seq<Seed>, pool: seq<Seed>)
    requires pool != [] && DistinctUrls(pool) && pool[0].url !in Urls(selected)
    ensures Untaken(pool, Urls(selected)) == [pool[0]] + Untaken(pool[1..], Urls(selected + [pool[0]]))
  {
    assert Urls(selected + [pool[0]]) == Urls(selected) + {pool[0].url};
    forall c | c in pool[1..] ensures c.url != pool[0].url {
      var i :| 0 <= i < |pool[1..]| && pool[1..][i] == c;
      assert pool[i + 1] == c;
    }
    UntakenSkips(pool[1..], Urls(selected), pool[0].url);
  }

  function Less(quota: Option<int>): Option<int> {
    if quota.Some? then Some(quota.value - 1) else None
  }

  lemma TakeLess(quota: Option<int>, room: nat, available: nat)
    requires room >= 1 && available >= 1
    ensures Take(quota, room, available)
            == if quota.Some? && quota.value - 1 <= 0 then 1 else 1 + Take(Less(quota), room - 1, available - 1)
  {
  }

  lemma TakenFirst(x: Seed, rest: seq<Seed>, quota: Option<int>, room: nat)
    requires room >= 1
    ensures Taken([x] + rest, quota, room)
            == if quota.Some? && quota.value - 1 <= 0 then [x] else [x] + Taken(rest, Less(quota), room - 1)
  {
    TakeLess(quota, room, |rest| + 1);
    var n := Take(quota, room, |rest| + 1);
    assert ([x] + rest)[..n] == [x] + rest[..n - 1];
  }

  lemma Regroup(s: seq<Seed>, x: Seed, rest: seq<Seed>)
    ensures s + ([x] + rest) == (s + [x]) + rest
  {
  }

  /** One turn of _consume that takes the next member. */
  lemma TakeNext(selected: seq<Seed>, pool: seq<Seed>, quota: Option<int>, target: nat)
    requires pool != [] && DistinctUrls(pool) && |selected| < target && pool[0].url !in Urls(selected)
    ensures Consumed(selected, pool, quota, target)
            == if quota.Some? && quota.value - 1 <= 0 then selected + [pool[0]]
               else Consumed(selected + [pool[0]], pool[1..], Less(quota), target)
  {
    var rest := Untaken(pool[1..], Urls(selected + [pool[0]]));
    UntakenAfterFirst(selected, pool);
    TakenFirst(pool[0], rest, quota, Room(selected, target));
    Regroup(selected, pool[0], Taken(rest, Less(quota), Room(selected, target) - 1));
  }

  /** A pass takes as many as there is room for and are untaken, and with a quota no more than that, but one even at zero. */
  lemma PassSize(untaken: seq<Seed>, quota: int, room: nat)
    ensures |Taken(untaken, None, room)| == Min(room, |untaken|)
    ensures quota >= 1 ==> |Taken(untaken, Some(quota), room)| == Min(quota, Min(room, |untaken|))
    ensures quota <= 0 ==> |Taken(untaken, Some(quota), room)| == Min(1, Min(room, |untaken|))
    ensures Taken(untaken, Some(quota), room) <= untaken && Taken(untaken, None, room) <= untaken
  {
  }

  method Consume(selected: seq<Seed>, pool: seq<Seed>, quota: Option<int>, target: nat) returns (selected': seq<Seed>)
    requires DistinctUrls(pool)
    ensures selected' == Consumed(selected, pool, quota, target)
  {
    selected' := selected;
    var taken, left := Urls(selected), quota;
    for i := 0 to |pool|
      invariant taken == Urls(selected')
      invariant Consumed(selected', pool[i..], left, target) == Consumed(selected, pool, quota, target)
    {
      assert pool[i..][1..] == pool[i + 1..];
      if |selected'| >= target { return; }
      var c := pool[i];
      if c.url !in taken {
        TakeNext(selected', pool[i..], left, target);
        selected' := selected' + [c];
        taken := taken + {c.url};
        if left.Some? {
          left := Some(left.value - 1);
          if left.value <= 0 { return; }
        }
      }
    }
  }

  /** The three passes of curate_seeds over the sorted seeds. */
  function Selected(sorted: seq<Seed>, target: nat, nonEn: int, nonUs: int): seq<Seed> {
    var first := Consumed([], Pool(sorted, NonEnglish), Some(nonEn), target);
    var second := Consumed(first, Pool(sorted, NonUs), Some(nonUs), target);
    Consumed(second, sorted, None, target)
  }

  // ---- Sizes of pools and of what is left of them ----

  lemma {:induction false} UrlCount(s: seq<Seed>)
    requires DistinctUrls(s)
    ensures |Urls(s)| == |s|
  {
    if s != [] {
      var front, last := s[..|s| - 1], s[|s| - 1];
      UrlCount(front);
      SplitLast(s);
      assert Urls(s) == Urls(front) + {last.url};
      assert last.url !in Urls(front);
    }
  }

  lemma {:induction false} UntakenMembers(pool: seq<Seed>, taken: set<string>)
    requires DistinctUrls(pool)
    ensures forall c :: c in Untaken(pool, taken) ==> c in pool && c.url !in taken
    ensures forall c :: c in pool && c.url !in taken ==> c in Untaken(pool, taken)
    ensures DistinctUrls(Untaken(pool, taken))
  {
    if pool != [] {
      UntakenMembers(pool[1..], taken);
      assert pool == [pool[0]] + pool[1..];
      forall c | c in pool[1..] ensures c.url != pool[0].url {
        var i :| 0 <= i < |pool[1..]| && pool[1..][i] == c;
        assert pool[i + 1] == c;
      }
    }
  }

  /** A pool loses one member for each of its URLs that is taken. */
  lemma UntakenCount(pool: seq<Seed>, taken: set<string>)
    requires DistinctUrls(pool)
    ensures |Untaken(pool, taken)| == |pool| - |Urls(pool) * taken|
  {
    UntakenMembers(pool, taken);
    UrlCount(pool);
    UrlCount(Untaken(pool, taken));
    assert Urls(Untaken(pool, taken)) == Urls(pool) - taken;
  }

  lemma {:induction false} PoolMembers(s: seq<Seed>, test: Test)
    ensures forall c :: c in Pool(s, test) ==> c in s && test.Holds(c)
    ensures forall c :: c in s && test.Holds(c) ==> c in Pool(s, test)
  {
    if s != [] {
      PoolMembers(s[..|s| - 1], test);
      SplitLast(s);
    }
  }

  lemma {:induction false} PoolDistinct(s: seq<Seed>, test: Test)
    requires DistinctUrls(s)
    ensures DistinctUrls(Pool(s, test))
  {
    if s != [] {
      var front, last := s[..|s| - 1], s[|s| - 1];
      PoolDistinct(front, test);
      PoolMembers(front, test);
      forall c | c in front ensures c.url != last.url {
        var i :| 0 <= i < |front| && front[i] == c;
        assert s[i] == c;
      }
    }
  }

  lemma {:induction false} PoolConcat(a: seq<Seed>, b: seq<Seed>, test: Test)
    ensures Pool(a + b, test) == Pool(a, test) + Pool(b, test)
  {
    if b == [] {
      assert a + b == a;
    } else {
      assert (a + b)[..|a + b| - 1] == a + b[..|b| - 1];
      PoolConcat(a, b[..|b| - 1], test);
    }
  }

  lemma {:induction false} PoolAll(s: seq<Seed>, test: Test)
    requires forall c :: c in s ==> test.Holds(c)
    ensures Pool(s, test) == s
  {
    if s != [] {
      SplitLast(s);
      PoolAll(s[..|s| - 1], test);
      assert test.Holds(s[|s| - 1]);
    }
  }

  /** The selection so far: different seeds of the sorted list, no more than the target. */
  ghost predicate Chosen(selected: seq<Seed>, sorted: seq<Seed>, target: nat) {
    DistinctUrls(selected) && |selected| <= target && forall c :: c in selected ==> c in sorted
  }

  /** What a pass over a pool of the sorted seeds adds. */
  lemma PassAdds(selected: seq<Seed>, sorted: seq<Seed>, pool: seq<Seed>, quota: Option<int>, target: nat)
    returns (added: seq<Seed>)
    requires DistinctUrls(sorted) && Chosen(selected, sorted, target)
    requires DistinctUrls(pool) && forall c :: c in pool ==> c in sorted
    ensures Consumed(selected, pool, quota, target) == selected + added
    ensures Chosen(selected + added, sorted, target)
    ensures forall c :: c in added ==> c in pool
    ensures |Urls(pool) * Urls(selected)| <= |pool|
    ensures |added| == Take(quota, target - |selected|, |pool| - |Urls(pool) * Urls(selected)|)
  {
    var untaken := Untaken(pool, Urls(selected));
    UntakenMembers(pool, Urls(selected));
    UntakenCount(pool, Urls(selected));
    added := untaken[..Take(quota, target - |selected|, |untaken|)];
    assert forall c :: c in added ==> c in untaken;
    forall i, j | 0 <= i < |selected| && 0 <= j < |added| ensures selected[i].url != added[j].url {
      assert selected[i].url in Urls(selected) && added[j] in untaken;
    }
    JoinDistinct(selected, added);
  }

  lemma JoinDistinct(a: seq<Seed>, b: seq<Seed>)
    requires DistinctUrls(a) && DistinctUrls(b)
    requires forall i, j :: 0 <= i < |a| && 0 <= j < |b| ==> a[i].url != b[j].url
    ensures DistinctUrls(a + b)
  {
  }

  lemma SameUrlSameSeed(sorted: seq<Seed>, a: seq<Seed>, b: seq<Seed>)
    requires DistinctUrls(sorted)
    requires (forall c :: c in a ==> c in sorted) && (forall c :: c in b ==> c in sorted)
    ensures forall u :: u in Urls(a) && u in Urls(b) ==> exists c :: c in a && c in b && c.url == u
  {
    forall u | u in Urls(a) && u in Urls(b) ensures exists c :: c in a && c in b && c.url == u {
      var c :| c in a && c.url == u;
      var d :| d in b && d.url == u;
      assert c in sorted && d in sorted;
    }
  }

  /** Of a pool, those already chosen are the chosen ones that pass its test. */
  lemma ChosenOfPool(selected: seq<Seed>, sorted: seq<Seed>, target: nat, test: Test)
    requires DistinctUrls(sorted) && Chosen(selected, sorted, target)
    ensures |Urls(Pool(sorted, test)) * Urls(selected)| == |Pool(selected, test)|
  {
    PoolMembers(sorted, test);
    PoolMembers(selected, test);
    PoolDistinct(selected, test);
    UrlCount(Pool(selected, test));
    SameUrlSameSeed(sorted, Pool(sorted, test), selected);
    assert Urls(Pool(sorted, test)) * Urls(selected) == Urls(Pool(selected, test)) by {
      forall u | u in Urls(Pool(selected, test)) ensures u in Urls(Pool(sorted, test)) && u in Urls(selected) {
        var c :| c in Pool(selected, test) && c.url == u;
        assert c in Pool(sorted, test) && c in selected;
      }
      forall u | u in Urls(Pool(sorted, test)) && u in Urls(selected) ensures u in Urls(Pool(selected, test)) {
        var c :| c in Pool(sorted, test) && c in selected && c.url == u;
        assert c in Pool(selected, test);
      }
    }
  }

  // ---- The three passes ----

  lemma PoolIsOk(sorted: seq<Seed>, test: Test)
    requires DistinctUrls(sorted)
    ensures DistinctUrls(Pool(sorted, test)) && forall c :: c in Pool(sorted, test) ==> c in sorted && test.Holds(c)
  {
    PoolDistinct(sorted, test);
    PoolMembers(sorted, test);
  }

  lemma NothingTaken(pool: seq<Seed>, first: seq<Seed>)
    ensures |Urls(pool) * Urls([])| == 0 && [] + first == first
  {
    assert Urls(pool) * Urls([]) == {};
  }

  lemma FirstPass(sorted: seq<Seed>, target: nat, nonEn: int) returns (first: seq<Seed>)
    requires DistinctUrls(sorted)
    ensures first == Consumed([], Pool(sorted, NonEnglish), Some(nonEn), target)
    ensures Chosen(first, sorted, target) && Pool(first, NonEnglish) == first
    ensures |first| == Take(Some(nonEn), target, |Pool(sorted, NonEnglish)|)
  {
    PoolIsOk(sorted, NonEnglish);
    first := PassAdds([], sorted, Pool(sorted, NonEnglish), Some(nonEn), target);
    NothingTaken(Pool(sorted, NonEnglish), first);
    PoolAll(first, NonEnglish);
  }

  lemma SecondPass(sorted: seq<Seed>, target: nat, nonUs: int, first: seq<Seed>) returns (second: seq<Seed>)
    requires DistinctUrls(sorted) && Chosen(first, sorted, target)
    ensures Consumed(first, Pool(sorted, NonUs), Some(nonUs), target) == first + second
    ensures Chosen(first + second, sorted, target) && forall c :: c in second ==> NonUs.Holds(c)
    ensures |Pool(first, NonUs)| <= |Pool(sorted, NonUs)|
    ensures |second| == Take(Some(nonUs), target - |first|, |Pool(sorted, NonUs)| - |Pool(first, NonUs)|)
  {
    PoolIsOk(sorted, NonUs);
    ChosenOfPool(first, sorted, target, NonUs);
    second := PassAdds(first, sorted, Pool(sorted, NonUs), Some(nonUs), target);
  }

  lemma ThirdPass(sorted: seq<Seed>, target: nat, chosen: seq<Seed>) returns (third: seq<Seed>)
    requires DistinctUrls(sorted) && Chosen(chosen, sorted, target)
    ensures Consumed(chosen, sorted, None, target) == chosen + third
    ensures Chosen(chosen + third, sorted, target) && |chosen| + |third| == Min(target, |sorted|)
  {
    third := PassAdds(chosen, sorted, sorted, None, target);
    assert Urls(sorted) * Urls(chosen) == Urls(chosen);
    UrlCount(chosen);
  }

  /**
   The sizes of the three passes: how many non-English seeds the first takes, how many of those are non-US
   already, how many non-US seeds the second adds, and that the third fills up.
   */
  lemma PassSizes(sorted: seq<Seed>, target: nat, nonEn: int, nonUs: int)
    returns (first: seq<Seed>, second: seq<Seed>, third: seq<Seed>)
    requires DistinctUrls(sorted)
    ensures Selected(sorted, target, nonEn, nonUs) == first + second + third
    ensures Chosen(first + second + third, sorted, target) && |first| <= target
    ensures |first| == Take(Some(nonEn), target, |Pool(sorted, NonEnglish)|) && Pool(first, NonEnglish) == first
    ensures |Pool(first, NonUs)| <= |Pool(sorted, NonUs)|
    ensures |second| == Take(Some(nonUs), target - |first|, |Pool(sorted, NonUs)| - |Pool(first, NonUs)|)
    ensures Pool(second, NonUs) == second
    ensures |first| + |second| + |third| == Min(target, |sorted|)
  {
    first := FirstPass(sorted, target, nonEn);
    second := SecondPass(sorted, target, nonUs, first);
    PoolAll(second, NonUs);
    third := ThirdPass(sorted, target, first + second);
  }

  lemma PoolOfSelection(first: seq<Seed>, second: seq<Seed>, third: seq<Seed>, test: Test)
    ensures |Pool(first + second + third, test)| == |Pool(first, test)| + |Pool(second, test)| + |Pool(third, test)|
  {
    PoolConcat(first + second, third, test);
    PoolConcat(first, second, test);
  }

  /** Exactly as many as asked for or available, all different; the non-English quota is always met. */
  lemma SelectionFills(sorted: seq<Seed>, target: nat, nonEn: int, nonUs: int)
    requires DistinctUrls(sorted) && nonEn <= target
    ensures var selected := Selected(sorted, target, nonEn, nonUs);
            && Chosen(selected, sorted, target) && |selected| == Min(target, |sorted|)
            && |Pool(selected, NonEnglish)| >= Min(nonEn, |Pool(sorted, NonEnglish)|)
  {
    var first, second, third := PassSizes(sorted, target, nonEn, nonUs);
    PoolOfSelection(first, second, third, NonEnglish);
  }

  /** When the second pass has room for its quota. */
  predicate RoomForBoth(target: nat, nonEn: int, nonUs: int) {
    nonUs <= 0 || Max(1, nonEn) + nonUs <= target
  }

  lemma EnoughNonUs(target: nat, nonEn: int, nonUs: int, poolEn: nat, poolUs: nat, already: nat)
    requires RoomForBoth(target, nonEn, nonUs) && already <= poolUs
    ensures var first := Take(Some(nonEn), target, poolEn);
            first <= target && already + Take(Some(nonUs), target - first, poolUs - already) >= Min(nonUs, poolUs)
  {
  }

  /** The non-US seeds selected are at least those of the first pass and what the second adds. */
  lemma NonUsCount(sorted: seq<Seed>, target: nat, nonEn: int, nonUs: int) returns (already: nat)
    requires DistinctUrls(sorted)
    ensures var first := Take(Some(nonEn), target, |Pool(sorted, NonEnglish)|);
            && first <= target && already <= |Pool(sorted, NonUs)|
            && |Pool(Selected(sorted, target, nonEn, nonUs), NonUs)|
               >= already + Take(Some(nonUs), target - first, |Pool(sorted, NonUs)| - already)
  {
    var first, second, third := PassSizes(sorted, target, nonEn, nonUs);
    PoolOfSelection(first, second, third, NonUs);
    already := |Pool(first, NonUs)|;
  }

  /** With room for both quotas the non-US quota is met too. */
  lemma NonUsQuotaMet(sorted: seq<Seed>, target: nat, nonEn: int, nonUs: int)
    requires DistinctUrls(sorted) && RoomForBoth(target, nonEn, nonUs)
    ensures |Pool(Selected(sorted, target, nonEn, nonUs), NonUs)| >= Min(nonUs, |Pool(sorted, NonUs)|)
  {
    var already := NonUsCount(sorted, target, nonEn, nonUs);
    EnoughNonUs(target, nonEn, nonUs, |Pool(sorted, NonEnglish)|, |Pool(sorted, NonUs)|, already);
  }

  // ---- The best are taken ----

  lemma {:induction false} UntakenDescends(pool: seq<Seed>, taken: set<string>)
    requires Descending(pool, ValueOf)
    ensures Descending(Untaken(pool, taken), ValueOf)
    ensures forall c :: c in Untaken(pool, taken) ==> c in pool
  {
    if pool != [] {
      UntakenDescends(pool[1..], taken);
      forall c | c in pool[1..] ensures ValueOf(pool[0]) >= ValueOf(c) {
        var i :| 0 <= i < |pool[1..]| && pool[1..][i] == c;
        assert pool[i + 1] == c;
      }
    }
  }

  lemma {:induction false} PoolDescends(s: seq<Seed>, test: Test)
    requires Descending(s, ValueOf)
    ensures Descending(Pool(s, test), ValueOf)
  {
    if s != [] {
      var front, last := s[..|s| - 1], s[|s| - 1];
      PoolDescends(front, test);
      PoolMembers(front, test);
      forall c | c in front ensures ValueOf(c) >= ValueOf(last) {
        var i :| 0 <= i < |front| && front[i] == c;
        assert s[i] == c;
      }
    }
  }

  lemma PrefixIsBest(s: seq<Seed>, n: nat, d: Seed)
    requires Descending(s, ValueOf) && n <= |s| && d in s && d !in s[..n]
    ensures forall c :: c in s[..n] ==> c.value >= d.value
  {
    var j :| 0 <= j < |s| && s[j] == d;
    assert forall k :: 0 <= k < n ==> s[..n][k] == s[k];
    forall c | c in s[..n] ensures c.value >= d.value {
      var i :| 0 <= i < n && s[..n][i] == c;
      assert ValueOf(s[i]) == c.value && ValueOf(s[j]) == d.value;
    }
  }

  /** A pass takes the best of its pool: what it leaves of those not taken before is worth no more. */
  lemma PassTakesBest(selected: seq<Seed>, pool: seq<Seed>, quota: Option<int>, target: nat, d: Seed)
    requires DistinctUrls(pool) && Descending(pool, ValueOf)
    requires d in pool && d.url !in Urls(selected)
    ensures var added := Taken(Untaken(pool, Urls(selected)), quota, Room(selected, target));
            d !in added ==> forall c :: c in added ==> c.value >= d.value
  {
    var untaken := Untaken(pool, Urls(selected));
    var n := Take(quota, Room(selected, target), |untaken|);
    UntakenMembers(pool, Urls(selected));
    UntakenDescends(pool, Urls(selected));
    if d !in untaken[..n] {
      PrefixIsBest(untaken, n, d);
    }
  }

  lemma NotTakenYet(sorted: seq<Seed>, selected: seq<Seed>, d: Seed)
    requires DistinctUrls(sorted) && d in sorted && d !in selected && forall c :: c in selected ==> c in sorted
    ensures d.url !in Urls(selected)
  {
  }

  /**
   Each pass takes the best: a seed that is not selected is worth no more than any the third pass took, a
   non-English one no more than any of the first, and a non-US one no more than any of the second.
   */
  lemma SelectionTakesBest(sorted: seq<Seed>, target: nat, nonEn: int, nonUs: int, d: Seed)
    returns (first: seq<Seed>, second: seq<Seed>, third: seq<Seed>)
    requires DistinctUrls(sorted) && Descending(sorted, ValueOf)
    requires d in sorted && d !in Selected(sorted, target, nonEn, nonUs)
    ensures Selected(sorted, target, nonEn, nonUs) == first + second + third
    ensures NonEnglish.Holds(d) ==> forall c :: c in first ==> c.value >= d.value
    ensures NonUs.Holds(d) ==> forall c :: c in second ==> c.value >= d.value
    ensures forall c :: c in third ==> c.value >= d.value
  {
    first := FirstPass(sorted, target, nonEn);
    second := SecondPass(sorted, target, nonUs, first);
    third := ThirdPass(sorted, target, first + second);
    assert d !in first && d !in second && d !in third;
    assert forall c :: c in first + second ==> c in sorted;
    NotTakenYet(sorted, first, d);
    NotTakenYet(sorted, first + second, d);
    if NonEnglish.Holds(d) {
      PassIsBest([], sorted, NonEnglish, Some(nonEn), target, d, first);
    }
    if NonUs.Holds(d) {
      PassIsBest(first, sorted, NonUs, Some(nonUs), target, d, second);
    }
    PassTakesBest(first + second, sorted, None, target, d);
    SameSuffix(first + second, third, Taken(Untaken(sorted, Urls(first + second)), None, Room(first + second, target)));
  }

  lemma SameSuffix(a: seq<Seed>, b: seq<Seed>, c: seq<Seed>)
    requires a + b == a + c
    ensures b == c
  {
    assert b == (a + b)[|a|..] == (a + c)[|a|..] == c;
  }

  lemma PassIsBest(selected: seq<Seed>, sorted: seq<Seed>, test: Test, quota: Option<int>, target: nat, d: Seed, added: seq<Seed>)
    requires DistinctUrls(sorted) && Descending(sorted, ValueOf)
    requires d in sorted && test.Holds(d) && d.url !in Urls(selected) && d !in added
    requires Consumed(selected, Pool(sorted, test), quota, target) == selected + added
    ensures forall c :: c in added ==> c.value >= d.value
  {
    var pool := Pool(sorted, test);
    PoolMembers(sorted, test);
    PoolDistinct(sorted, test);
    PoolDescends(sorted, test);
    SameSuffix(selected, added, Taken(Untaken(pool, Urls(selected)), quota, Room(selected, target)));
    PassTakesBest(selected, pool, quota, target, d);
  }

  lemma {:induction false} PoolKeeps(s: seq<Seed>, test: Test, c: Seed)
    ensures multiset(Pool(s, test))[c] == if test.Holds(c) then multiset(s)[c] else 0
  {
    if s != [] {
      SplitLast(s);
      PoolKeeps(s[..|s| - 1], test, c);
    }
  }

  /** The pools hold exactly the seeds with another language than English, and with another region than the US. */
  lemma PoolsAre(s: seq<Seed>, c: Seed)
    ensures multiset(Pool(s, NonEnglish))[c] == if c.lang != "en" then multiset(s)[c] else 0
    ensures multiset(Pool(s, NonUs))[c] == if c.region != "us" then multiset(s)[c] else 0
  {
    PoolKeeps(s, NonEnglish, c);
    PoolKeeps(s, NonUs, c);
  }

  // ---- Without room for both ----

  function Marks(n: nat, c: char): string { seq(n, _ => c) }

  /** The page of a domain: French under .com, of no stated language under .ie. */
  function PageUrl(domain: string): string {
    "https://" + domain + (if domain != "" && domain[0] == 'e' then "/fr/" else "/")
  }

  /**
   A seed that passes exactly one of the tests. Its attributes are those the source guesses for such URLs: French
   and US from a path "/fr/" under .com, English and EU under .ie, and 0.6 for a URL without any keyword.
   */
  function Member(n: nat, test: Test): Seed {
    var domain := if test == NonUs then Marks(n, 'u') + ".ie" else Marks(n, 'e') + ".com";
    var url := PageUrl(domain);
    Seed(url, url, domain, if test == NonEnglish then "fr" else "en", if test == NonUs then "eu" else "us", 0.6)
  }

  function Family(n: nat, test: Test): seq<Seed> { seq(n, i requires 0 <= i < n => Member(i + 1, test)) }

  lemma {:induction false} PoolNone(s: seq<Seed>, test: Test)
    requires forall c :: c in s ==> !test.Holds(c)
    ensures Pool(s, test) == []
  {
    if s != [] {
      SplitLast(s);
      PoolNone(s[..|s| - 1], test);
      assert !test.Holds(s[|s| - 1]);
    }
  }

  function OtherTest(test: Test): Test { if test == NonUs then NonEnglish else NonUs }

  lemma MemberUrl(n: nat, test: Test)
    requires n >= 1
    ensures |Member(n, test).url| == n + (if test == NonUs then 12 else 16)
    ensures Member(n, test).url[8] == if test == NonUs then 'u' else 'e'
  {
    var domain := Member(n, test).domain;
    assert domain[0] == if test == NonUs then 'u' else 'e';
  }

  lemma FamilyUrls(n: nat, test: Test)
    ensures |Family(n, test)| == n && DistinctUrls(Family(n, test))
  {
    var s := Family(n, test);
    var tail := if test == NonUs then 12 else 16;
    forall i | 0 <= i < n ensures |s[i].url| == i + 1 + tail {
      MemberUrl(i + 1, test);
    }
  }

  lemma FamilyPasses(n: nat, test: Test)
    ensures forall c :: c in Family(n, test) ==> test.Holds(c) && !OtherTest(test).Holds(c)
  {
  }

  lemma FamilyPools(n: nat, test: Test)
    ensures Pool(Family(n, test), test) == Family(n, test) && Pool(Family(n, test), OtherTest(test)) == []
  {
    FamilyPasses(n, test);
    PoolAll(Family(n, test), test);
    PoolNone(Family(n, test), OtherTest(test));
  }

  lemma MembersApart(m: nat, n: nat, i: nat, j: nat)
    requires i < m && j < n
    ensures Family(m, NonEnglish)[i].url != Family(n, NonUs)[j].url
  {
    MemberUrl(i + 1, NonEnglish);
    MemberUrl(j + 1, NonUs);
  }

  /** Families of the two tests share no URL. */
  lemma FamiliesApart(m: nat, n: nat)
    ensures DistinctUrls(Family(m, NonEnglish) + Family(n, NonUs))
  {
    var a, b := Family(m, NonEnglish), Family(n, NonUs);
    assert DistinctUrls(a) by { FamilyUrls(m, NonEnglish); }
    assert DistinctUrls(b) by { FamilyUrls(n, NonUs); }
    forall i, j | 0 <= i < m && 0 <= j < n ensures a[i].url != b[j].url {
      MembersApart(m, n, i, j);
    }
    JoinDistinct(a, b);
  }

  lemma FamilyPoolSizes(m: nat, n: nat)
    ensures var sorted := Family(m, NonEnglish) + Family(n, NonUs);
            |Pool(sorted, NonEnglish)| == m && |Pool(sorted, NonUs)| == n && |sorted| == m + n
  {
    var a, b := Family(m, NonEnglish), Family(n, NonUs);
    assert |a| == m && |b| == n by { FamilyUrls(m, NonEnglish); FamilyUrls(n, NonUs); }
    FamilyPools(m, NonEnglish);
    FamilyPools(n, NonUs);
    PoolConcat(a, b, NonEnglish);
    PoolConcat(a, b, NonUs);
  }

  lemma NoMemberPassesBoth(first: seq<Seed>)
    requires forall c :: c in first ==> !NonEnglish.Holds(c) || !NonUs.Holds(c)
    requires Pool(first, NonEnglish) == first
    ensures Pool(first, NonUs) == []
  {
    PoolMembers(first, NonEnglish);
    PoolNone(first, NonUs);
  }

  /** The URL is its own key and follows from the domain, and all values are equal. */
  predicate IsPlain(c: Seed) { c.key == c.url && c.url == PageUrl(c.domain) && c.value == 0.6 }

  lemma {:induction false} CountNone(s: seq<Seed>, domain: string)
    requires forall c :: c in s ==> c.domain != domain
    ensures CountDomain(s, domain) == 0
  {
    if s != [] {
      SplitLast(s);
      CountNone(s[..|s| - 1], domain);
      assert s[|s| - 1] in s;
    }
  }

  lemma LastIsApart(s: seq<Seed>)
    requires s != [] && DistinctUrls(s) && forall c :: c in s ==> IsPlain(c)
    ensures var front, last := s[..|s| - 1], s[|s| - 1];
            forall c :: c in front ==> c.key != last.key && c.domain != last.domain
  {
    var front, last := s[..|s| - 1], s[|s| - 1];
    assert IsPlain(last);
    forall c | c in front ensures c.key != last.key && c.domain != last.domain {
      var i :| 0 <= i < |front| && front[i] == c;
      assert s[i] == c && c in s;
    }
  }

  /** Nothing is dropped from plain seeds with different URLs. */
  lemma {:induction false} PlainSeedsAreKept(s: seq<Seed>)
    requires DistinctUrls(s) && forall c :: c in s ==> IsPlain(c)
    ensures Prepared(s) == s
  {
    if s != [] {
      SplitLast(s);
      LastIsApart(s);
      PlainSeedsAreKept(s[..|s| - 1]);
      CountNone(s[..|s| - 1], s[|s| - 1].domain);
    }
  }

  lemma {:induction false} PlainSeedsAreUnique(s: seq<Seed>)
    requires DistinctUrls(s) && forall c :: c in s ==> IsPlain(c)
    ensures Deduped(s) == s
  {
    if s != [] {
      SplitLast(s);
      LastIsApart(s);
      PlainSeedsAreUnique(s[..|s| - 1]);
      var front := s[..|s| - 1];
      assert forall k :: 0 <= k < |front| ==> front[k] in front && front[k].key != s[|s| - 1].key;
    }
  }

  lemma GoesFirst(x: Seed, s: seq<Seed>)
    requires s != [] ==> x.value >= s[0].value
    ensures Place(x, s, ValueOf, 0) == 0
  {
  }

  /** Sorting is stable. */
  lemma {:induction false} EqualValuesStay(s: seq<Seed>)
    requires forall c :: c in s ==> IsPlain(c)
    ensures Sorted(s, ValueOf) == s
  {
    if s != [] {
      EqualValuesStay(s[1..]);
      assert IsPlain(s[0]) && (s[1..] != [] ==> s[1..][0] in s && IsPlain(s[1..][0]));
      GoesFirst(s[0], s[1..]);
      assert s[1..][..0] + [s[0]] + s[1..][0..] == s;
    }
  }

  lemma FamiliesArePlain(m: nat, n: nat)
    ensures forall c :: c in Family(m, NonEnglish) + Family(n, NonUs) ==> IsPlain(c)
  {
  }

  /** With no seed in both pools and no more non-English seeds than the quota, the first pass crowds out the second. */
  lemma PoolsCompete(sorted: seq<Seed>, target: nat, nonEn: int, nonUs: int)
    requires DistinctUrls(sorted) && nonEn <= target && nonUs <= target && !RoomForBoth(target, nonEn, nonUs) && target >= 1
    requires forall c :: c in sorted ==> !NonEnglish.Holds(c) || !NonUs.Holds(c)
    requires |Pool(sorted, NonEnglish)| == Max(1, nonEn) && |Pool(sorted, NonUs)| == nonUs
    requires |sorted| == Max(1, nonEn) + nonUs
    ensures |Pool(Selected(sorted, target, nonEn, nonUs), NonUs)| == target - Max(1, nonEn)
  {
    var first, second, third := PassSizes(sorted, target, nonEn, nonUs);
    assert Pool(first, NonUs) == [] by {
      assert forall c :: c in first ==> c in first + second + third;
      NoMemberPassesBoth(first);
    }
    assert third == [];
    assert Pool(third, NonUs) == [];
    PoolOfSelection(first, second, third, NonUs);
  }

  lemma FamiliesCompete(m: nat, n: nat)
    ensures var sorted := Family(m, NonEnglish) + Family(n, NonUs);
            DistinctUrls(sorted) && forall c :: c in sorted ==> !NonEnglish.Holds(c) || !NonUs.Holds(c)
  {
    FamiliesApart(m, n);
    FamilyPasses(m, NonEnglish);
    FamilyPasses(n, NonUs);
  }

  /**
   The condition is exact: whenever there is no room for both, with quotas no greater than the target, there
   are sources for which the non-US quota could be met and is not.
   */
  lemma NonUsQuotaMissed(target: nat, nonEn: int, nonUs: int) returns (sources: seq<Seed>)
    requires target >= 1 && nonEn <= target && nonUs <= target && !RoomForBoth(target, nonEn, nonUs)
    ensures KeysOk(sources)
    ensures var sorted := Sorted(Deduped(Prepared(sources)), ValueOf);
            |Pool(Selected(sorted, target, nonEn, nonUs), NonUs)| < Min(nonUs, |Pool(sorted, NonUs)|)
  {
    sources := Family(Max(1, nonEn), NonEnglish) + Family(nonUs, NonUs);
    assert DistinctUrls(sources) by { FamiliesCompete(Max(1, nonEn), nonUs); }
    assert forall c :: c in sources ==> IsPlain(c) by { FamiliesArePlain(Max(1, nonEn), nonUs); }
    assert Sorted(Deduped(Prepared(sources)), ValueOf) == sources by {
      PlainSeedsAreKept(sources);
      PlainSeedsAreUnique(sources);
      EqualValuesStay(sources);
    }
    FamiliesCompete(Max(1, nonEn), nonUs);
    FamilyPoolSizes(Max(1, nonEn), nonUs);
    PoolsCompete(sources, target, nonEn, nonUs);
  }

  // ---- curate_seeds ----

  const CURATED_LIMIT := 200
  const NON_EN_QUOTA := 0.3
  const NON_US_QUOTA := 0.4

  /** A quota cut to [0, 1], the default when none is given. */
  function Share(quota: Option<real>, default: real): (share: real)
    requires 0.0 <= default <= 1.0
    ensures 0.0 <= share <= 1.0
    ensures quota.None? ==> share == default
    ensures quota.Some? && 0.0 <= quota.value <= 1.0 ==> share == quota.value
    ensures quota.Some? && quota.value < 0.0 ==> share == 0.0
    ensures quota.Some? && quota.value > 1.0 ==> share == 1.0
  {
    var given := if quota.Some? then quota.value else default;
    MaxReal(0.0, if given <= 1.0 then given else 1.0)
  }

  lemma ShareOfTarget(target: real, share: real)
    requires target >= 0.0 && 0.0 <= share <= 1.0
    ensures 0.0 <= target * share <= target
  {
    assert target * share <= target * 1.0;
  }

  function CeilWithin(x: real, target: nat): (n: int)
    requires 0.0 <= x <= target as real
    ensures 0 <= n <= target && (n - 1) as real < x <= n as real
  {
    Ceil(x)
  }

  /** The least number of seeds that is a share of the target. */
  function Required(target: nat, share: real): (n: int)
    requires 0.0 <= share <= 1.0
    ensures 0 <= n <= target
    ensures (n - 1) as real < target as real * share <= n as real
  {
    ShareOfTarget(target as real, share);
    CeilWithin(target as real * share, target)
  }

  /** Of a pool as many are selected as the share asks for, or all there are. */
  ghost predicate Meets(selected: seq<Seed>, sorted: seq<Seed>, test: Test, target: nat, share: real) {
    || |Pool(selected, test)| as real >= target as real * share
    || |Pool(selected, test)| == |Pool(sorted, test)|
  }

  /** m seeds (at least one) and n seeds are enough for the two shares, and there is room for both. */
  ghost predicate Fit(target: nat, nonEn: real, nonUs: real, m: nat, n: nat) {
    m >= 1 && m as real >= target as real * nonEn && n as real >= target as real * nonUs && m + n <= target
  }

  method CurateSeeds(sources: seq<Seed>, limit: Option<int>, nonEnQuota: Option<real>, nonUsQuota: Option<real>)
    returns (selected: seq<Seed>)
    requires KeysOk(sources)
    ensures var target := if limit.None? || limit.value == 0 then CURATED_LIMIT else limit.value;
            var sorted := Sorted(Deduped(Prepared(sources)), ValueOf);
            var nonEn, nonUs := Share(nonEnQuota, NON_EN_QUOTA), Share(nonUsQuota, NON_US_QUOTA);
            if target <= 0 then selected == []
            else
              && selected == Selected(sorted, target, Required(target, nonEn), Required(target, nonUs))
              && |selected| == Min(target, |sorted|) && DistinctKeys(selected)
              && (forall domain :: CountDomain(selected, domain) <= PER_DOMAIN)
              && Meets(selected, sorted, NonEnglish, target, nonEn)
              && ((exists m: nat, n: nat :: Fit(target, nonEn, nonUs, m, n)) ==> Meets(selected, sorted, NonUs, target, nonUs))
  {
    SortedUrls(sources);
    var target := if limit.None? || limit.value == 0 then CURATED_LIMIT else limit.value;
    if target <= 0 { return []; }
    var nonEn, nonUs := Share(nonEnQuota, NON_EN_QUOTA), Share(nonUsQuota, NON_US_QUOTA);
    var prepared := Prepare(sources);
    var unique := Dedupe(prepared);
    selected := SelectSeeds(Sorted(unique, ValueOf), target, Required(target, nonEn), Required(target, nonUs));
    AnswerMeetsQuotas(sources, target, nonEn, nonUs);
  }

  /** The three calls of _consume. */
  method SelectSeeds(ordered: seq<Seed>, target: nat, nonEn: int, nonUs: int) returns (selected: seq<Seed>)
    requires DistinctUrls(ordered)
    ensures selected == Selected(ordered, target, nonEn, nonUs)
  {
    PoolDistinct(ordered, NonEnglish);
    PoolDistinct(ordered, NonUs);
    selected := Consume([], Pool(ordered, NonEnglish), Some(nonEn), target);
    selected := Consume(selected, Pool(ordered, NonUs), Some(nonUs), target);
    selected := Consume(selected, ordered, None, target);
  }

  lemma FitIsRoom(target: nat, nonEn: real, nonUs: real, m: nat, n: nat)
    requires 0.0 <= nonEn <= 1.0 && 0.0 <= nonUs <= 1.0 && Fit(target, nonEn, nonUs, m, n)
    ensures RoomForBoth(target, Required(target, nonEn), Required(target, nonUs))
  {
    var a, b := target as real * nonEn, target as real * nonUs;
    LeastInteger(a, Required(target, nonEn), m);
    LeastInteger(b, Required(target, nonUs), n);
  }

  lemma LeastInteger(x: real, least: int, n: int)
    requires (least - 1) as real < x <= n as real
    ensures least <= n
  {
  }

  lemma AnswerMeetsQuotas(sources: seq<Seed>, target: nat, nonEn: real, nonUs: real)
    requires KeysOk(sources) && 0.0 <= nonEn <= 1.0 && 0.0 <= nonUs <= 1.0
    ensures var sorted := Sorted(Deduped(Prepared(sources)), ValueOf);
            var selected := Selected(sorted, target, Required(target, nonEn), Required(target, nonUs));
            && |selected| == Min(target, |sorted|) && DistinctKeys(selected)
            && (forall domain :: CountDomain(selected, domain) <= PER_DOMAIN)
            && Meets(selected, sorted, NonEnglish, target, nonEn)
            && ((exists m: nat, n: nat :: Fit(target, nonEn, nonUs, m, n)) ==> Meets(selected, sorted, NonUs, target, nonUs))
  {
    var a, b := Required(target, nonEn), Required(target, nonUs);
    CuratedSelection(sources, target, a, b);
    SortedIsPermutation(Deduped(Prepared(sources)), ValueOf);
    SelectedFromPool(sources, target, a, b, NonEnglish);
    SelectedFromPool(sources, target, a, b, NonUs);
    if m: nat, n: nat :| Fit(target, nonEn, nonUs, m, n) {
      FitIsRoom(target, nonEn, nonUs, m, n);
    }
  }

  lemma SelectedFromPool(sources: seq<Seed>, target: nat, nonEn: int, nonUs: int, test: Test)
    requires KeysOk(sources) && nonEn <= target
    ensures var sorted := Sorted(Deduped(Prepared(sources)), ValueOf);
            |Pool(Selected(sorted, target, nonEn, nonUs), test)| <= |Pool(sorted, test)|
  {
    var sorted := Sorted(Deduped(Prepared(sources)), ValueOf);
    var selected := Selected(sorted, target, nonEn, nonUs);
    SortedUrls(sources);
    SelectionFills(sorted, target, nonEn, nonUs);
    ChosenOfPool(selected, sorted, target, test);
    PoolDistinct(sorted, test);
    UrlCount(Pool(sorted, test));
    SubsetSize(Urls(Pool(sorted, test)) * Urls(selected), Urls(Pool(sorted, test)));
  }

  lemma SubsetSize(a: set<string>, b: set<string>)
    requires a <= b
    ensures |a| <= |b|
  {
    assert b == a + (b - a);
  }

  /** What is sorted has one seed per URL, and at most three per domain. */
  lemma SortedUrls(sources: seq<Seed>)
    requires KeysOk(sources)
    ensures var sorted := Sorted(Deduped(Prepared(sources)), ValueOf);
            DistinctUrls(sorted) && DistinctKeys(sorted) && forall domain :: CountDomain(sorted, domain) <= PER_DOMAIN
  {
    var prepared := Prepared(sources);
    var deduped, sorted := Deduped(prepared), Sorted(Deduped(prepared), ValueOf);
    DedupedKeepsBest(prepared);
    SortedIsPermutation(deduped, ValueOf);
    forall domain ensures CountDomain(sorted, domain) <= PER_DOMAIN {
      PreparedPerDomain(sources, domain);
      CountDomainBag(sorted, prepared, domain);
    }
    KeysSurviveSorting(deduped, sorted);
    forall i, j | 0 <= i < j < |sorted| ensures sorted[i].url != sorted[j].url {
      PreparedPerDomain(sources, "");
      assert sorted[i] in multiset(sorted) && sorted[j] in multiset(sorted);
      assert sorted[i] in multiset(prepared) && sorted[j] in multiset(prepared);
      assert sorted[i] in sources && sorted[j] in sources;
    }
  }

  lemma KeysSurviveSorting(s: seq<Seed>, t: seq<Seed>)
    requires DistinctKeys(s) && multiset(s) == multiset(t)
    ensures DistinctKeys(t)
  {
    assert Distinct(s);
    PermutationIsDistinct(s, t);
    forall i, j | 0 <= i < j < |t| ensures t[i].key != t[j].key {
      assert t[i] in s && t[j] in s && t[i] != t[j];
    }
  }

  lemma ChosenBag(selected: seq<Seed>, sorted: seq<Seed>, target: nat)
    requires DistinctUrls(sorted) && Chosen(selected, sorted, target)
    ensures multiset(selected) <= multiset(sorted)
  {
    assert Distinct(selected) && Distinct(sorted);
    forall c: Seed | true ensures multiset(selected)[c] <= multiset(sorted)[c] {
      DistinctCount(selected, c);
      DistinctCount(sorted, c);
    }
  }

  /**
   What curate_seeds returns: as many as asked for or available, no URL twice ignoring case, at most three per
   domain, the non-English quota met, and the non-US quota met whenever there is room for both.
   */
  lemma CuratedSelection(sources: seq<Seed>, target: nat, nonEn: int, nonUs: int)
    requires KeysOk(sources) && nonEn <= target
    ensures var sorted := Sorted(Deduped(Prepared(sources)), ValueOf);
            var selected := Selected(sorted, target, nonEn, nonUs);
            && |selected| == Min(target, |Deduped(Prepared(sources))|)
            && DistinctKeys(selected) && (forall domain :: CountDomain(selected, domain) <= PER_DOMAIN)
            && |Pool(selected, NonEnglish)| >= Min(nonEn, |Pool(sorted, NonEnglish)|)
            && (RoomForBoth(target, nonEn, nonUs) ==> |Pool(selected, NonUs)| >= Min(nonUs, |Pool(sorted, NonUs)|))
  {
    var sorted := Sorted(Deduped(Prepared(sources)), ValueOf);
    var selected := Selected(sorted, target, nonEn, nonUs);
    SortedUrls(sources);
    SortedIsPermutation(Deduped(Prepared(sources)), ValueOf);
    SelectionFills(sorted, target, nonEn, nonUs);
    if RoomForBoth(target, nonEn, nonUs) {
      NonUsQuotaMet(sorted, target, nonEn, nonUs);
    }
    ChosenBag(selected, sorted, target);
    forall domain ensures CountDomain(selected, domain) <= PER_DOMAIN {
      CountDomainBag(selected, sorted, domain);
    }
    ChosenKeys(selected, sorted, target);
  }

  lemma ChosenKeys(selected: seq<Seed>, sorted: seq<Seed>, target: nat)
    requires DistinctKeys(sorted) && Chosen(selected, sorted, target)
    ensures DistinctKeys(selected)
  {
    forall i, j | 0 <= i < j < |selected| ensures selected[i].key != selected[j].key {
      assert selected[i] in sorted && selected[j] in sorted && selected[i].url != selected[j].url;
    }
  }
}

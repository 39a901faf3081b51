/**
 crawler/frontier.py: build_frontier collects candidates by URL, sorts them, lets an optional reranker
 reorder a window, and selects greedily under a per-host cap and a budget while assigning fetch times.
 */
module Frontier {
  import opened Common
  import opened StableSort
  import opened CappedGreedy

  /** A value here: what the source updates in place, `available_at`, is set on the copy that is selected. */
  datatype Candidate = Candidate(url: string, source: string, weight: real, availableAt: real, score: Option<real>) {
    function Priority(): real { if score.Some? then score.value else weight }
  }

  function PriorityOf(c: Candidate): real { c.Priority() }

  function HostBy(hostOf: string -> string): Candidate -> string { (c: Candidate) => hostOf(c.url) }

  /** Candidates share a host exactly when their URLs do. */
  lemma HostIsOfUrl(hostOf: string -> string, c: Candidate)
    ensures HostBy(hostOf)(c) == hostOf(c.url)
  {
  }

  /**
   What the environment decides: blank removal, URL clean-up, the lower-cased host of a URL, whether the
   cooldown of a host has passed, and the learned host scores.
   */
  datatype Env = Env(
    strip: string -> string,
    sanitize: string -> Option<string>,
    hostOf: string -> string,
    cooledDown: string -> bool,
    overrides: map<string, real>)

  function BareHost(host: string): string { if "www." <= host then host[4..] else host }

  /** One call of _add that got past clean-up and cooldown. */
  datatype Offer = Offer(url: string, source: string, weight: real, priority: real)

  function MakeOffer(env: Env, url: string, source: string, weight: real, score: Option<real>, respectOverride: bool)
    : Option<Offer>
  {
    var clean := env.sanitize(url);
    if clean.None? || clean.value == "" || !env.cooledDown(env.hostOf(clean.value)) then None
    else
      var host := BareHost(env.hostOf(clean.value));
      var adjusted := if respectOverride && host in env.overrides then MaxReal(weight, env.overrides[host]) else weight;
      var learned := if host in env.overrides then env.overrides[host] else adjusted;
      Some(Offer(clean.value, source, adjusted, if score.Some? then score.value else MaxReal(adjusted, learned)))
  }

  /** The arguments of one call of _add. */
  datatype Attempt = Attempt(url: string, source: string, weight: real, score: Option<real>, respectOverride: bool)

  /** The URL is not clean, or its host has to cool down. */
  predicate Refused(env: Env, a: Attempt) {
    var clean := env.sanitize(a.url);
    clean.None? || clean.value == "" || !env.cooledDown(env.hostOf(clean.value))
  }

  /** The learned score of a host, looked up without its "www.". */
  function LearnedScore(env: Env, host: string): Option<real> {
    var known := if |host| >= 4 && host[..4] == "www." then host[4..] else host;
    if known in env.overrides then Some(env.overrides[known]) else None
  }

  predicate IsGreater(x: real, a: real, b: real) { x >= a && x >= b && (x == a || x == b) }

  /**
   What an offer says: a given score is the priority; without one it is the greater of the weight and the learned
   score of the host. The weight is raised to the learned score exactly when overrides are respected.
   */
  ghost predicate IsOffer(env: Env, a: Attempt, offer: Offer) {
    var learned := LearnedScore(env, env.hostOf(offer.url));
    && env.sanitize(a.url) == Some(offer.url) && offer.url != "" && offer.source == a.source
    && (a.score.Some? ==> offer.priority == a.score.value)
    && (a.score.None? ==> if learned.None? then offer.priority == a.weight
                          else IsGreater(offer.priority, a.weight, learned.value))
    && (if a.respectOverride && learned.Some? then IsGreater(offer.weight, a.weight, learned.value)
        else offer.weight == a.weight)
  }

  lemma OfferMeans(env: Env, a: Attempt)
    ensures var offer := MakeOffer(env, a.url, a.source, a.weight, a.score, a.respectOverride);
            (offer.None? <==> Refused(env, a)) && (offer.Some? ==> IsOffer(env, a, offer.value))
  {
    var clean := env.sanitize(a.url);
    if clean.Some? {
      var host := env.hostOf(clean.value);
      assert "www." <= host <==> |host| >= 4 && host[..4] == "www.";
    }
  }

  function Append(offers: seq<Offer>, offer: Option<Offer>): seq<Offer> {
    if offer.Some? then offers + [offer.value] else offers
  }

  /** The offer a URL is left with: a later one replaces an earlier one only if strictly better. */
  function Best(offers: seq<Offer>, url: string): Option<Offer> {
    if offers == [] then None
    else
      var best, last := Best(offers[..|offers| - 1], url), offers[|offers| - 1];
      if last.url == url && (best.None? || last.priority > best.value.priority) then Some(last) else best
  }

  /** URLs in the order they were first offered. */
  function FirstSeen(offers: seq<Offer>): seq<string> {
    if offers == [] then []
    else
      var seen, last := FirstSeen(offers[..|offers| - 1]), offers[|offers| - 1];
      if last.url in seen then seen else seen + [last.url]
  }

  ghost predicate IsFirstGreatest(offers: seq<Offer>, url: string, i: nat) {
    && i < |offers| && offers[i].url == url
    && (forall j :: 0 <= j < i && offers[j].url == url ==> offers[j].priority < offers[i].priority)
    && (forall j :: i < j < |offers| && offers[j].url == url ==> offers[j].priority <= offers[i].priority)
  }

  /** What Best returns is the first offer of greatest priority made for the URL. */
  lemma {:induction false} BestIsFirstGreatest(offers: seq<Offer>, url: string) returns (i: nat)
    ensures Best(offers, url).None? <==> forall j :: 0 <= j < |offers| ==> offers[j].url != url
    ensures Best(offers, url).Some? ==> IsFirstGreatest(offers, url, i) && Best(offers, url).value == offers[i]
  {
    i := 0;
    if offers != [] {
      var front := offers[..|offers| - 1];
      i := BestIsFirstGreatest(front, url);
      assert forall j :: 0 <= j < |front| ==> front[j] == offers[j];
      if Best(offers, url) != Best(front, url) {
        i := |offers| - 1;
      }
    }
  }

  lemma {:induction false} FirstSeenUrls(offers: seq<Offer>)
    ensures Distinct(FirstSeen(offers))
    ensures forall url :: url in FirstSeen(offers) <==> Best(offers, url).Some?
    ensures forall url :: Best(offers, url).Some? ==> Best(offers, url).value.url == url
  {
    if offers != [] {
      FirstSeenUrls(offers[..|offers| - 1]);
    }
  }

  lemma OneMoreOffer(offers: seq<Offer>, offer: Offer)
    ensures FirstSeen(offers + [offer])
            == if offer.url in FirstSeen(offers) then FirstSeen(offers) else FirstSeen(offers) + [offer.url]
    ensures forall url :: url != offer.url ==> Best(offers + [offer], url) == Best(offers, url)
    ensures var best := Best(offers, offer.url);
            Best(offers + [offer], offer.url)
            == if best.None? || offer.priority > best.value.priority then Some(offer) else best
  {
    assert (offers + [offer])[..|offers|] == offers;
  }

  /** The source loops that stop as soon as `limit` URLs are held after an _add. */
  function FeedUntilFull(env: Env, offers: seq<Offer>, urls: seq<string>, source: string, weight: real, limit: nat)
    : seq<Offer>
    decreases |urls|
  {
    if urls == [] then offers
    else
      var more := Append(offers, MakeOffer(env, urls[0], source, weight, None, true));
      if |FirstSeen(more)| >= limit then more else FeedUntilFull(env, more, urls[1..], source, weight, limit)
  }

  datatype Hint = Hint(url: Option<string>, source: string, score: Option<real>, boost: real)

  function HintOffer(env: Env, hint: Hint): Option<Offer> {
    var weight := if hint.score.Some? then hint.score.value else hint.boost;
    if hint.url.None? then None
    else MakeOffer(env, hint.url.value, hint.source, weight, Some(weight), false)
  }

  function HintOffers(env: Env, hints: seq<Hint>): seq<Offer> {
    if hints == [] then []
    else Append(HintOffers(env, hints[..|hints| - 1]), HintOffer(env, hints[|hints| - 1]))
  }

  /** Where candidates come from; the generators of the source are given here already flattened. */
  datatype Inputs = Inputs(hints: seq<Hint>, extraUrls: seq<string>, domainUrls: seq<string>, queryUrls: seq<string>)

  /** Hints are always taken; the next stages run while the collection is not full. */
  function AllOffers(env: Env, inputs: Inputs, limit: nat): seq<Offer> {
    var hinted := FeedUntilFull(env, HintOffers(env, inputs.hints), inputs.extraUrls, "llm", 1.5, limit);
    var seeded := if |FirstSeen(hinted)| < limit
                  then FeedUntilFull(env, hinted, inputs.domainUrls, "seed", 1.0, limit) else hinted;
    if |FirstSeen(seeded)| < limit then FeedUntilFull(env, seeded, inputs.queryUrls, "heuristic", 0.8, limit) else seeded
  }

  function FromOffer(offer: Offer): Candidate {
    Candidate(offer.url, offer.source, offer.weight, 0.0, Some(offer.priority))
  }

  ghost predicate DistinctUrls(s: seq<Candidate>) {
    forall i, j :: 0 <= i < j < |s| ==> s[i].url != s[j].url
  }

  /** One candidate for each URL, in order of first offer: the best offer made for it. */
  ghost predicate Collected(candidates: seq<Candidate>, offers: seq<Offer>) {
    && |candidates| == |FirstSeen(offers)|
    && forall i :: 0 <= i < |candidates| ==>
         var best := Best(offers, FirstSeen(offers)[i]);
         best.Some? && candidates[i] == FromOffer(best.value) && candidates[i].url == FirstSeen(offers)[i]
  }

  /** The `collection` dictionary of build_frontier, with its key order, and the nested _add. */
  class Collection {
    const env: Env
    var urls: seq<string>
    var entries: map<string, Candidate>
    ghost var offers: seq<Offer>

    ghost predicate Valid()
      reads this
    {
      && urls == FirstSeen(offers)
      && (forall url :: url in entries <==> url in urls)
      && (forall url :: url in entries ==> Best(offers, url).Some? && entries[url] == FromOffer(Best(offers, url).value))
    }

    constructor (env: Env)
      ensures Valid() && offers == [] && entries == map[] && this.env == env
    {
      this.env := env;
      urls, entries, offers := [], map[], [];
    }

    method Add(url: string, source: string, weight: real, score: Option<real>, respectOverride: bool)
      requires Valid()
      modifies this
      ensures Valid()
      ensures offers == Append(old(offers), MakeOffer(env, url, source, weight, score, respectOverride))
      ensures var a := Attempt(url, source, weight, score, respectOverride);
              if Refused(env, a) then offers == old(offers)
              else |offers| == |old(offers)| + 1 && offers[..|old(offers)|] == old(offers)
                   && IsOffer(env, a, offers[|old(offers)|])
    {
      OfferMeans(env, Attempt(url, source, weight, score, respectOverride));
      var clean := env.sanitize(url);
      if clean.None? || clean.value == "" { return; }
      var u := clean.value;
      var domain := env.hostOf(u);
      var host := BareHost(domain);
      var adjusted := weight;
      if respectOverride && host in env.overrides {
        adjusted := MaxReal(adjusted, env.overrides[host]);
      }
      if !env.cooledDown(domain) { return; }
      var priority := if score.Some? then score.value
                      else MaxReal(adjusted, if host in env.overrides then env.overrides[host] else adjusted);
      Store(Offer(u, source, adjusted, priority));
    }

    /** The end of _add: keep the offer if its URL is new or it beats the candidate held. */
    method Store(offer: Offer)
      requires Valid()
      modifies this
      ensures Valid()
      ensures offers == old(offers) + [offer]
    {
      FirstSeenUrls(offers);
      OneMoreOffer(offers, offer);
      offers := offers + [offer];
      if offer.url !in entries || offer.priority > entries[offer.url].Priority() {
        if offer.url !in entries {
          urls := urls + [offer.url];
        }
        entries := entries[offer.url := FromOffer(offer)];
      }
    }

    /** `collection.values()` */
    method Values() returns (candidates: seq<Candidate>)
      requires Valid()
      ensures Collected(candidates, offers) && DistinctUrls(candidates)
    {
      FirstSeenUrls(offers);
      var (urls, entries) := (this.urls, this.entries);
      candidates := seq(|urls|, i requires 0 <= i < |urls| && urls[i] in entries => entries[urls[i]]);
    }

    method AddHints(hints: seq<Hint>)
      requires Valid() && offers == []
      modifies this
      ensures Valid() && offers == HintOffers(env, hints)
    {
      for i := 0 to |hints|
        invariant Valid() && offers == HintOffers(env, hints[..i])
      {
        assert hints[..i + 1][..i] == hints[..i];
        var hint := hints[i];
        if hint.url.Some? {
          var weight := if hint.score.Some? then hint.score.value else hint.boost;
          Add(hint.url.value, hint.source, weight, Some(weight), false);
        }
      }
      assert hints[..|hints|] == hints;
    }

    method Feed(candidates: seq<string>, source: string, weight: real, limit: nat)
      requires Valid()
      modifies this
      ensures Valid()
      ensures offers == FeedUntilFull(env, old(offers), candidates, source, weight, limit)
    {
      var i := 0;
      while i < |candidates|
        invariant 0 <= i <= |candidates|
        invariant Valid()
        invariant FeedUntilFull(env, offers, candidates[i..], source, weight, limit)
                  == FeedUntilFull(env, old(offers), candidates, source, weight, limit)
      {
        assert candidates[i..][1..] == candidates[i + 1..];
        Add(candidates[i], source, weight, None, true);
        if |urls| >= limit { return; }
        i := i + 1;
      }
    }
  }

  // ---- Reranking ----

  /** A reranker answers a query and a list of candidates with a list of URLs, any list. */
  type Reranker = (string, seq<Candidate>) -> seq<string>

  /** The three conditions the source filters candidate lists by. */
  datatype Test = AtLeast(threshold: real) | Below(threshold: real) | Unseen(urls: set<string>) {
    predicate Holds(c: Candidate) {
      match this
      case AtLeast(threshold) => c.Priority() >= threshold
      case Below(threshold) => c.Priority() < threshold
      case Unseen(urls) => c.url !in urls
    }
  }

  function Keep(s: seq<Candidate>, test: Test): seq<Candidate> {
    if s == [] then [] else Keep(s[..|s| - 1], test) + (if test.Holds(s[|s| - 1]) then [s[|s| - 1]] else [])
  }

  function Urls(s: seq<Candidate>): set<string> { set c | c in s :: c.url }

  function Find(s: seq<Candidate>, url: string): (c: Option<Candidate>)
    ensures c.Some? ==> c.value in s && c.value.url == url
    ensures c.None? ==> forall x :: x in s ==> x.url != url
  {
    if s == [] then None else if s[|s| - 1].url == url then Some(s[|s| - 1]) else Find(s[..|s| - 1], url)
  }

  /** The reranker's URLs that name window members, each at its first mention. */
  function Accepted(replies: seq<string>, window: seq<Candidate>): seq<Candidate> {
    if replies == [] then []
    else
      var sofar, target := Accepted(replies[..|replies| - 1], window), Find(window, replies[|replies| - 1]);
      if target.Some? && target.value.url !in Urls(sofar) then sofar + [target.value] else sofar
  }

  /** The window as the reranker wants it, followed by the members it did not mention. */
  function WindowOrder(window: seq<Candidate>, replies: seq<string>): seq<Candidate> {
    var accepted := Accepted(replies, window);
    accepted + Keep(window, Unseen(Urls(accepted)))
  }

  /** The order after reranking: what is below the window first, then the reranked window. */
  function RerankOrder(ordered: seq<Candidate>, threshold: real, replies: seq<string>): seq<Candidate> {
    Keep(ordered, Below(threshold)) + WindowOrder(Keep(ordered, AtLeast(threshold)), replies)
  }

  lemma {:induction false} KeepFilters(s: seq<Candidate>, p: Test)
    ensures forall c :: c in Keep(s, p) ==> c in s && p.Holds(c)
    ensures forall c :: c in s && p.Holds(c) ==> c in Keep(s, p)
  {
    if s != [] {
      KeepFilters(s[..|s| - 1], p);
      SplitLast(s);
    }
  }

  lemma {:induction false} KeepDistinct(s: seq<Candidate>, p: Test)
    requires DistinctUrls(s)
    ensures DistinctUrls(Keep(s, p))
  {
    if s != [] {
      var front, last := s[..|s| - 1], s[|s| - 1];
      KeepDistinct(front, p);
      KeepFilters(front, p);
      forall c | c in front ensures c.url != last.url {
        var i :| 0 <= i < |front| && front[i] == c;
        assert s[i] == c;
      }
      JoinDistinct(Keep(front, p), [last]);
      assert Keep(front, p) + [] == Keep(front, p);
    }
  }

  lemma KeepMembers(s: seq<Candidate>, p: Test)
    requires DistinctUrls(s)
    ensures forall c :: c in Keep(s, p) ==> c in s && p.Holds(c)
    ensures forall c :: c in s && p.Holds(c) ==> c in Keep(s, p)
    ensures DistinctUrls(Keep(s, p))
  {
    KeepFilters(s, p);
    KeepDistinct(s, p);
  }

  lemma {:induction false} KeepConcat(a: seq<Candidate>, b: seq<Candidate>, p: Test)
    ensures Keep(a + b, p) == Keep(a, p) + Keep(b, p)
  {
    if b == [] {
      assert a + b == a;
    } else {
      assert (a + b)[..|a + b| - 1] == a + b[..|b| - 1];
      KeepConcat(a, b[..|b| - 1], p);
    }
  }

  lemma {:induction false} KeepAll(s: seq<Candidate>, p: Test)
    requires forall c :: c in s ==> p.Holds(c)
    ensures Keep(s, p) == s
  {
    if s != [] {
      SplitLast(s);
      KeepAll(s[..|s| - 1], p);
      assert p.Holds(s[|s| - 1]);
    }
  }

  lemma {:induction false} KeepNone(s: seq<Candidate>, p: Test)
    requires forall c :: c in s ==> !p.Holds(c)
    ensures Keep(s, p) == []
  {
    if s != [] {
      KeepNone(s[..|s| - 1], p);
    }
  }

  lemma {:induction false} AcceptedMembers(replies: seq<string>, window: seq<Candidate>)
    ensures forall c :: c in Accepted(replies, window) ==> c in window
    ensures DistinctUrls(Accepted(replies, window))
  {
    if replies != [] {
      AcceptedMembers(replies[..|replies| - 1], window);
    }
  }

  lemma JoinDistinct(a: seq<Candidate>, b: seq<Candidate>)
    requires DistinctUrls(a) && DistinctUrls(b)
    requires forall c, d :: c in a && d in b ==> c.url != d.url
    ensures DistinctUrls(a + b)
  {
  }

  lemma UrlIdentifies(s: seq<Candidate>)
    requires DistinctUrls(s)
    ensures forall c, d :: c in s && d in s && c.url == d.url ==> c == d
  {
  }

  /** The reranked window holds exactly the window's candidates. */
  lemma WindowMembers(window: seq<Candidate>, replies: seq<string>)
    requires DistinctUrls(window)
    ensures var part := WindowOrder(window, replies);
            && DistinctUrls(part)
            && (forall c :: c in part ==> c in window)
            && (forall c :: c in window ==> c in part)
  {
    var accepted := Accepted(replies, window);
    var rest := Keep(window, Unseen(Urls(accepted)));
    AcceptedMembers(replies, window);
    KeepMembers(window, Unseen(Urls(accepted)));
    UrlIdentifies(window);
    forall c, d | c in accepted && d in rest ensures c.url != d.url {
      assert c.url in Urls(accepted) && Unseen(Urls(accepted)).Holds(d);
    }
    JoinDistinct(accepted, rest);
    forall c | c in window ensures c in accepted + rest {
      if c !in rest {
        assert c.url in Urls(accepted);
      }
    }
  }

  /** The candidates in the window and those below it share no URL and are all there are. */
  lemma SplitAtThreshold(ordered: seq<Candidate>, threshold: real)
    requires DistinctUrls(ordered)
    ensures var window, low := Keep(ordered, AtLeast(threshold)), Keep(ordered, Below(threshold));
            && DistinctUrls(window) && DistinctUrls(low)
            && (forall c :: c in window || c in low ==> c in ordered)
            && (forall c :: c in ordered ==> c in low || c in window)
            && (forall c, d :: c in low && d in window ==> c.url != d.url)
  {
    KeepMembers(ordered, AtLeast(threshold));
    KeepMembers(ordered, Below(threshold));
    UrlIdentifies(ordered);
    forall c | c in ordered ensures c in Keep(ordered, Below(threshold)) || c in Keep(ordered, AtLeast(threshold)) {
      assert AtLeast(threshold).Holds(c) || Below(threshold).Holds(c);
    }
  }

  lemma RerankMembers(ordered: seq<Candidate>, threshold: real, replies: seq<string>)
    requires DistinctUrls(ordered)
    ensures DistinctUrls(RerankOrder(ordered, threshold, replies))
    ensures forall c :: c in RerankOrder(ordered, threshold, replies) ==> c in ordered
    ensures forall c :: c in ordered ==> c in RerankOrder(ordered, threshold, replies)
  {
    var window, low := Keep(ordered, AtLeast(threshold)), Keep(ordered, Below(threshold));
    var part := WindowOrder(window, replies);
    SplitAtThreshold(ordered, threshold);
    WindowMembers(window, replies);
    JoinParts(low, window, part);
  }

  /** Rearranging the second of two parts that share no URL. */
  lemma JoinParts(low: seq<Candidate>, window: seq<Candidate>, part: seq<Candidate>)
    requires DistinctUrls(low) && DistinctUrls(part)
    requires forall c, d :: c in low && d in window ==> c.url != d.url
    requires forall c :: c in part ==> c in window
    requires forall c :: c in window ==> c in part
    ensures DistinctUrls(low + part)
    ensures forall c :: c in low + part <==> c in low || c in window
  {
    JoinDistinct(low, part);
  }

  lemma RerankKeepsLowOrder(ordered: seq<Candidate>, threshold: real, replies: seq<string>)
    requires DistinctUrls(ordered)
    ensures Keep(RerankOrder(ordered, threshold, replies), Below(threshold)) == Keep(ordered, Below(threshold))
  {
    var window, low := Keep(ordered, AtLeast(threshold)), Keep(ordered, Below(threshold));
    var part := WindowOrder(window, replies);
    assert Keep(low, Below(threshold)) == low by {
      KeepMembers(ordered, Below(threshold));
      KeepAll(low, Below(threshold));
    }
    assert Keep(part, Below(threshold)) == [] by {
      KeepMembers(ordered, AtLeast(threshold));
      WindowMembers(window, replies);
      forall c | c in part ensures !Below(threshold).Holds(c) {
        assert c in window && AtLeast(threshold).Holds(c);
      }
      KeepNone(part, Below(threshold));
    }
    KeepConcat(low, part, Below(threshold));
  }

  /** An empty answer leaves the order as it is. */
  function Reranked(ordered: seq<Candidate>, threshold: real, replies: seq<string>): seq<Candidate> {
    if replies == [] then ordered else RerankOrder(ordered, threshold, replies)
  }

  /**
   Whatever the reranker answers (foreign, repeated or missing URLs), no candidate is lost, repeated or
   invented, and the candidates outside the window keep their relative order.
   */
  lemma RerankIsPermutation(ordered: seq<Candidate>, threshold: real, replies: seq<string>)
    requires DistinctUrls(ordered)
    ensures multiset(Reranked(ordered, threshold, replies)) == multiset(ordered)
    ensures Keep(Reranked(ordered, threshold, replies), Below(threshold)) == Keep(ordered, Below(threshold))
  {
    if replies != [] {
      RerankMembers(ordered, threshold, replies);
      DistinctPermutation(RerankOrder(ordered, threshold, replies), ordered);
      RerankKeepsLowOrder(ordered, threshold, replies);
    }
  }

  function UrlList(s: seq<Candidate>): seq<string> {
    if s == [] then [] else UrlList(s[..|s| - 1]) + [s[|s| - 1].url]
  }

  lemma AcceptNext(replies: seq<string>, window: seq<Candidate>, c: Candidate)
    requires Find(window, c.url) == Some(c) && forall d :: d in Accepted(replies, window) ==> d.url != c.url
    ensures Accepted(replies + [c.url], window) == Accepted(replies, window) + [c]
  {
    assert (replies + [c.url])[..|replies|] == replies;
  }

  ghost predicate Echoes(window: seq<Candidate>, s: seq<Candidate>) { Accepted(UrlList(s), window) == s }

  lemma EchoNext(window: seq<Candidate>, s: seq<Candidate>, c: Candidate)
    requires Echoes(window, s) && Find(window, c.url) == Some(c) && forall d :: d in s ==> d.url != c.url
    ensures Echoes(window, s + [c])
  {
    AcceptNext(UrlList(s), window, c);
    assert (s + [c])[..|s|] == s;
  }

  lemma PrefixGrows<T>(s: seq<T>, k: nat)
    requires k < |s|
    ensures s[..k + 1] == s[..k] + [s[k]]
  {
  }

  /** The URLs of the first k of the window are accepted as those k. */
  lemma {:induction false} EchoIsAccepted(window: seq<Candidate>, k: nat)
    requires DistinctUrls(window) && k <= |window|
    ensures Echoes(window, window[..k])
  {
    if k > 0 {
      EchoIsAccepted(window, k - 1);
      FindInWindow(window, k - 1);
      EchoNext(window, window[..k - 1], window[k - 1]);
      PrefixGrows(window, k - 1);
    }
  }

  /** Looking up the URL of a window's candidate finds it, and no earlier candidate has that URL. */
  lemma FindInWindow(window: seq<Candidate>, k: nat)
    requires DistinctUrls(window) && k < |window|
    ensures Find(window, window[k].url) == Some(window[k])
    ensures forall c :: c in window[..k] ==> c.url != window[k].url
  {
    assert window[k] in window;
    UrlIdentifies(window);
    forall c | c in window[..k] ensures c.url != window[k].url {
      var i :| 0 <= i < k && window[..k][i] == c;
      assert window[i] == c;
    }
  }

  lemma EchoOrder(ordered: seq<Candidate>, threshold: real)
    requires DistinctUrls(ordered)
    ensures RerankOrder(ordered, threshold, UrlList(Keep(ordered, AtLeast(threshold))))
            == Keep(ordered, Below(threshold)) + Keep(ordered, AtLeast(threshold))
  {
    var window := Keep(ordered, AtLeast(threshold));
    KeepMembers(ordered, AtLeast(threshold));
    EchoIsAccepted(window, |window|);
    assert window[..|window|] == window;
    KeepNone(window, Unseen(Urls(window)));
  }

  lemma AllInWindow(ordered: seq<Candidate>, threshold: real)
    requires Descending(ordered, PriorityOf) && ordered != [] && ordered[|ordered| - 1].Priority() >= threshold
    ensures Keep(ordered, Below(threshold)) == [] && Keep(ordered, AtLeast(threshold)) == ordered
  {
    forall c | c in ordered ensures !Below(threshold).Holds(c) && AtLeast(threshold).Holds(c) {
      var i :| 0 <= i < |ordered| && ordered[i] == c;
      assert PriorityOf(ordered[i]) >= PriorityOf(ordered[|ordered| - 1]);
    }
    KeepNone(ordered, Below(threshold));
    KeepAll(ordered, AtLeast(threshold));
  }

  lemma LowComesFirst(ordered: seq<Candidate>, threshold: real)
    requires ordered != [] && ordered[0].Priority() >= threshold > ordered[|ordered| - 1].Priority()
    ensures Keep(ordered, Below(threshold)) + Keep(ordered, AtLeast(threshold)) != ordered
  {
    var low := Keep(ordered, Below(threshold));
    KeepFilters(ordered, Below(threshold));
    assert ordered[|ordered| - 1] in low;
    assert low[0] in low && Below(threshold).Holds(low[0]);
    assert (low + Keep(ordered, AtLeast(threshold)))[0] == low[0];
  }

  /**
   A reranker that returns its window unchanged leaves the order alone exactly when nothing lies below
   the window: the list the source calls `prefix` holds the low candidates, and it goes in front.
   */
  lemma EchoingRerankerKeepsOrderIff(ordered: seq<Candidate>, threshold: real)
    requires DistinctUrls(ordered) && Descending(ordered, PriorityOf)
    requires ordered != [] && ordered[0].Priority() >= threshold
    ensures RerankOrder(ordered, threshold, UrlList(Keep(ordered, AtLeast(threshold)))) == ordered
            <==> ordered[|ordered| - 1].Priority() >= threshold
  {
    EchoOrder(ordered, threshold);
    if ordered[|ordered| - 1].Priority() >= threshold {
      AllInWindow(ordered, threshold);
      assert [] + ordered == ordered;
    } else {
      LowComesFirst(ordered, threshold);
    }
  }

  /** The least priority that is in the reranker's window. */
  function Threshold(sorted: seq<Candidate>, limit: nat, margin: real): real
    requires sorted != [] && limit >= 1
  {
    sorted[Min(|sorted|, limit) - 1].Priority() - margin
  }

  /** The order after the reranker has been asked about the window. */
  ghost function Ranked(query: string, sorted: seq<Candidate>, limit: nat, margin: real, rerankFn: Reranker): seq<Candidate>
    requires sorted != [] && limit >= 1
  {
    var threshold := Threshold(sorted, limit, margin);
    Reranked(sorted, threshold, rerankFn(query, Keep(sorted, AtLeast(threshold))))
  }

  /** The reranking branch of build_frontier. */
  method Rerank(query: string, ordered: seq<Candidate>, limit: nat, margin: real, rerankFn: Reranker)
    returns (result: seq<Candidate>)
    requires ordered != [] && limit >= 1 && margin >= 0.0
    requires DistinctUrls(ordered)
    ensures result == Ranked(query, ordered, limit, margin, rerankFn)
  {
    var cutoff := ordered[Min(|ordered|, limit) - 1].Priority();
    var borderline := Keep(ordered, AtLeast(cutoff - margin));
    var reranked := rerankFn(query, borderline);
    if reranked == [] { return ordered; }
    var reordered := ReorderWindow(borderline, reranked);
    result := Keep(ordered, Below(cutoff - margin)) + reordered;
  }

  /** The two loops over the reranker's answer and over the window. */
  method ReorderWindow(borderline: seq<Candidate>, reranked: seq<string>) returns (reordered: seq<Candidate>)
    ensures reordered == WindowOrder(borderline, reranked)
  {
    var seen: set<string> := {};
    reordered := [];
    for i := 0 to |reranked|
      invariant reordered == Accepted(reranked[..i], borderline)
      invariant seen == Urls(reordered)
    {
      assert reranked[..i + 1][..i] == reranked[..i];
      var target := Find(borderline, reranked[i]);
      if target.Some? && target.value.url !in seen {
        reordered := reordered + [target.value];
        seen := seen + {target.value.url};
      }
    }
    assert reranked[..|reranked|] == reranked;
    ghost var accepted := reordered;
    for i := 0 to |borderline|
      invariant reordered == accepted + Keep(borderline[..i], Unseen(seen))
    {
      assert borderline[..i + 1][..i] == borderline[..i];
      if borderline[i].url !in seen {
        reordered := reordered + [borderline[i]];
      }
    }
    assert borderline[..|borderline|] == borderline;
  }

  // ---- Selection and politeness ----

  /** The walk may stop at the end of the order or as soon as it is full. */
  lemma {:induction false} WalkEnds(order: seq<Candidate>, k: nat, host: Candidate -> string, cap: nat, limit: nat)
    requires k <= |order| && (k == |order| || |Select(order[..k], host, cap, limit)| == limit)
    ensures Select(order, host, cap, limit) == Select(order[..k], host, cap, limit)
    decreases |order|
  {
    if k < |order| {
      assert order[..|order| - 1][..k] == order[..k];
      WalkEnds(order[..|order| - 1], k, host, cap, limit);
    } else {
      assert order[..k] == order;
    }
  }

  /** When the n-th pick of a host (from 0) may be fetched. */
  function Slot(n: nat, start: real, delay: real): real {
    if n == 0 then start else Slot(n - 1, start, delay) + delay
  }

  lemma {:induction false} SlotsAscend(m: nat, n: nat, start: real, delay: real)
    requires m <= n && delay >= 0.0
    ensures Slot(m, start, delay) <= Slot(n, start, delay)
  {
    if m < n {
      SlotsAscend(m, n - 1, start, delay);
    }
  }

  /** `host_counts` and `host_available` say how often each host was picked and when it is free again. */
  ghost predicate Tables(counts: map<string, nat>, available: map<string, real>, picked: multiset<string>,
                         start: real, delay: real)
  {
    && counts.Keys == available.Keys
    && (forall h :: picked[h] == if h in counts then counts[h] else 0)
    && (forall h :: h in counts ==> counts[h] >= 1 && available[h] == Slot(counts[h], start, delay))
  }

  lemma TablesStep(counts: map<string, nat>, available: map<string, real>, picked: multiset<string>, h: string,
                   now: real, delay: real)
    requires delay >= 0.0
    requires Tables(counts, available, picked, MaxReal(now, 0.0), delay)
    ensures var at := MaxReal(if h in available then available[h] else now, 0.0);
            && at == Slot(picked[h], MaxReal(now, 0.0), delay)
            && Tables(counts[h := picked[h] + 1], available[h := at + delay], picked + multiset{h},
                      MaxReal(now, 0.0), delay)
  {
    SlotsAscend(0, picked[h], MaxReal(now, 0.0), delay);
  }

  /** The picks with their fetch times filled in. */
  function Stamp(picks: seq<Candidate>, host: Candidate -> string, start: real, delay: real): (final: seq<Candidate>)
    ensures |final| == |picks|
  {
    if picks == [] then []
    else
      var front, last := picks[..|picks| - 1], picks[|picks| - 1];
      Stamp(front, host, start, delay)
      + [last.(availableAt := Slot(Hosts(front, host)[host(last)], start, delay))]
  }

  /** What the last loop of build_frontier does with a candidate whose host is below its cap. */
  method Claim(candidate: Candidate, h: string, hostCounts: map<string, nat>, hostAvailable: map<string, real>,
               now: real, delay: real, ghost picked: multiset<string>)
    returns (stamped: Candidate, hostCounts': map<string, nat>, hostAvailable': map<string, real>)
    requires delay >= 0.0 && candidate.availableAt == 0.0
    requires Tables(hostCounts, hostAvailable, picked, MaxReal(now, 0.0), delay)
    ensures stamped == candidate.(availableAt := Slot(picked[h], MaxReal(now, 0.0), delay))
    ensures Tables(hostCounts', hostAvailable', picked + multiset{h}, MaxReal(now, 0.0), delay)
  {
    var count := if h in hostCounts then hostCounts[h] else 0;
    var availableAt := MaxReal(if h in hostAvailable then hostAvailable[h] else now, candidate.availableAt);
    TablesStep(hostCounts, hostAvailable, picked, h, now, delay);
    stamped := candidate.(availableAt := availableAt);
    hostCounts' := hostCounts[h := count + 1];
    hostAvailable' := hostAvailable[h := availableAt + delay];
  }

  /** The loop body: the candidate is skipped when its host is at its cap. */
  method Consider(candidate: Candidate, host: Candidate -> string, cap: nat, now: real, delay: real,
                  final: seq<Candidate>, hostCounts: map<string, nat>, hostAvailable: map<string, real>,
                  ghost picks: seq<Candidate>)
    returns (final': seq<Candidate>, hostCounts': map<string, nat>, hostAvailable': map<string, real>,
             ghost picks': seq<Candidate>)
    requires delay >= 0.0 && candidate.availableAt == 0.0
    requires final == Stamp(picks, host, MaxReal(now, 0.0), delay)
    requires Tables(hostCounts, hostAvailable, Hosts(picks, host), MaxReal(now, 0.0), delay)
    ensures picks' == if Hosts(picks, host)[host(candidate)] < cap then picks + [candidate] else picks
    ensures final' == Stamp(picks', host, MaxReal(now, 0.0), delay)
    ensures Tables(hostCounts', hostAvailable', Hosts(picks', host), MaxReal(now, 0.0), delay)
  {
    final', hostCounts', hostAvailable', picks' := final, hostCounts, hostAvailable, picks;
    var h := host(candidate);
    var count := if h in hostCounts then hostCounts[h] else 0;
    if count >= cap { return; }
    var stamped;
    stamped, hostCounts', hostAvailable' :=
      Claim(candidate, h, hostCounts, hostAvailable, now, delay, Hosts(picks, host));
    OneMoreStamp(picks, candidate, host, MaxReal(now, 0.0), delay);
    final', picks' := final + [stamped], picks + [candidate];
  }

  lemma SelectStep(order: seq<Candidate>, i: nat, host: Candidate -> string, cap: nat, limit: nat)
    requires i < |order|
    ensures var kept := Select(order[..i], host, cap, limit);
            Select(order[..i + 1], host, cap, limit)
            == if |kept| < limit && Hosts(kept, host)[host(order[i])] < cap then kept + [order[i]] else kept
  {
    assert order[..i + 1][..i] == order[..i];
  }

  /** The last loop of build_frontier. Candidates reach it with the `available_at` they were created with. */
  method SelectPolitely(ordered: seq<Candidate>, host: Candidate -> string, cap: nat, limit: nat, now: real, delay: real)
    returns (final: seq<Candidate>)
    requires limit >= 1 && delay >= 0.0
    requires forall k :: 0 <= k < |ordered| ==> ordered[k].availableAt == 0.0
    ensures final == Stamp(Select(ordered, host, cap, limit), host, MaxReal(now, 0.0), delay)
  {
    var hostCounts: map<string, nat> := map[];
    var hostAvailable: map<string, real> := map[];
    ghost var picks := [];
    final := [];
    var i := 0;
    while i < |ordered| && |final| < limit
      invariant 0 <= i <= |ordered|
      invariant picks == Select(ordered[..i], host, cap, limit) && |picks| <= limit
      invariant final == Stamp(picks, host, MaxReal(now, 0.0), delay)
      invariant Tables(hostCounts, hostAvailable, Hosts(picks, host), MaxReal(now, 0.0), delay)
    {
      SelectStep(ordered, i, host, cap, limit);
      final, hostCounts, hostAvailable, picks :=
        Consider(ordered[i], host, cap, now, delay, final, hostCounts, hostAvailable, picks);
      i := i + 1;
    }
    WalkEnds(ordered, i, host, cap, limit);
  }

  lemma OneMoreStamp(picks: seq<Candidate>, c: Candidate, host: Candidate -> string, start: real, delay: real)
    ensures Stamp(picks + [c], host, start, delay)
            == Stamp(picks, host, start, delay)
               + [c.(availableAt := Slot(Hosts(picks, host)[host(c)], start, delay))]
    ensures Hosts(picks + [c], host) == Hosts(picks, host) + multiset{host(c)}
  {
    assert (picks + [c])[..|picks|] == picks;
  }

  lemma {:induction false} StampAt(picks: seq<Candidate>, j: nat, host: Candidate -> string, start: real, delay: real)
    requires j < |picks|
    ensures Stamp(picks, host, start, delay)[j]
            == picks[j].(availableAt := Slot(Hosts(picks[..j], host)[host(picks[j])], start, delay))
  {
    if j < |picks| - 1 {
      StampAt(picks[..|picks| - 1], j, host, start, delay);
      assert picks[..|picks| - 1][..j] == picks[..j];
    }
  }

  /** Between two picks of one host the count of that host grows. */
  lemma LaterPickCounts(picks: seq<Candidate>, i: nat, j: nat, host: Candidate -> string)
    requires i < j < |picks| && host(picks[i]) == host(picks[j])
    ensures Hosts(picks[..i], host)[host(picks[i])] < Hosts(picks[..j], host)[host(picks[j])]
  {
    assert picks[..j] == (picks[..i] + [picks[i]]) + picks[i + 1..j];
    HostsConcat(picks[..i] + [picks[i]], picks[i + 1..j], host);
    CappedGreedy.Snoc(picks[..i], picks[i], host, PriorityOf);
  }

  /** Picks of one host are at least one delay apart, and none comes before the start. */
  lemma PicksAreSpaced(picks: seq<Candidate>, i: nat, j: nat, host: Candidate -> string, start: real, delay: real)
    requires i < j < |picks| && delay >= 0.0
    requires host(picks[i]) == host(picks[j])
    ensures var times := Stamp(picks, host, start, delay);
            times[j].availableAt >= times[i].availableAt + delay && times[i].availableAt >= start
  {
    var m, n := Hosts(picks[..i], host)[host(picks[i])], Hosts(picks[..j], host)[host(picks[j])];
    StampAt(picks, i, host, start, delay);
    StampAt(picks, j, host, start, delay);
    LaterPickCounts(picks, i, j, host);
    SlotsAscend(0, m, start, delay);
    SlotsAscend(m + 1, n, start, delay);
  }

  // ---- build_frontier ----

  method Collect(env: Env, inputs: Inputs, limit: nat) returns (candidates: seq<Candidate>)
    ensures Collected(candidates, AllOffers(env, inputs, limit))
    ensures DistinctUrls(candidates)
  {
    var collection := new Collection(env);
    collection.AddHints(inputs.hints);
    collection.Feed(inputs.extraUrls, "llm", 1.5, limit);
    if |collection.urls| < limit {
      collection.Feed(inputs.domainUrls, "seed", 1.0, limit);
    }
    if |collection.urls| < limit {
      collection.Feed(inputs.queryUrls, "heuristic", 0.8, limit);
    }
    candidates := collection.Values();
  }

  const DEFAULT_PER_HOST := 3
  const DEFAULT_POLITENESS_DELAY := 1.0
  const DEFAULT_RERANK_MARGIN := 0.15

  datatype Options = Options(
    budget: int,
    perHostCap: Option<int>,
    politenessDelay: Option<real>,
    rerankFn: Option<Reranker>,
    rerankMargin: Option<real>)
  {
    function Limit(): nat { Max(1, budget) }
    function HostCap(): nat { if perHostCap.None? then DEFAULT_PER_HOST else Max(1, perHostCap.value) }
    function Delay(): real { if politenessDelay.None? then DEFAULT_POLITENESS_DELAY else MaxReal(0.0, politenessDelay.value) }
    function Margin(): real { if rerankMargin.None? then DEFAULT_RERANK_MARGIN else MaxReal(0.0, rerankMargin.value) }
  }

  /** The order the selection loop walks: by priority, then as the reranker, if there is one, wants it. */
  ghost function WalkOrder(query: string, candidates: seq<Candidate>, options: Options): seq<Candidate> {
    var sorted := Sorted(candidates, PriorityOf);
    if options.rerankFn.None? || sorted == [] then sorted
    else Ranked(query, sorted, options.Limit(), options.Margin(), options.rerankFn.value)
  }

  lemma PermutationKeepsUrls(s: seq<Candidate>, t: seq<Candidate>)
    requires DistinctUrls(s) && multiset(s) == multiset(t)
    ensures DistinctUrls(t)
    ensures forall c :: c in t ==> c in s
    ensures forall c :: c in s ==> c in t
  {
    UrlIdentifies(s);
    PermutationIsDistinct(s, t);
  }

  lemma SortKeepsUrls(candidates: seq<Candidate>)
    requires DistinctUrls(candidates)
    ensures DistinctUrls(Sorted(candidates, PriorityOf))
    ensures multiset(Sorted(candidates, PriorityOf)) == multiset(candidates)
  {
    SortedIsPermutation(candidates, PriorityOf);
    PermutationKeepsUrls(candidates, Sorted(candidates, PriorityOf));
  }

  lemma WalkOrderIsPermutation(query: string, candidates: seq<Candidate>, options: Options)
    requires DistinctUrls(candidates)
    ensures var order := WalkOrder(query, candidates, options);
            && DistinctUrls(order)
            && (forall c :: c in order ==> c in candidates)
            && (forall c :: c in candidates ==> c in order)
  {
    var sorted, order := Sorted(candidates, PriorityOf), WalkOrder(query, candidates, options);
    SortKeepsUrls(candidates);
    if options.rerankFn.Some? && sorted != [] {
      var threshold := Threshold(sorted, options.Limit(), options.Margin());
      RerankIsPermutation(sorted, threshold, options.rerankFn.value(query, Keep(sorted, AtLeast(threshold))));
    }
    PermutationKeepsUrls(candidates, order);
  }

  /** Sorting and the optional reranking. */
  method OrderCandidates(query: string, collected: seq<Candidate>, options: Options) returns (ordered: seq<Candidate>)
    requires DistinctUrls(collected)
    ensures ordered == WalkOrder(query, collected, options)
  {
    ordered := Sorted(collected, PriorityOf);
    assert DistinctUrls(ordered) by { SortKeepsUrls(collected); }
    if options.rerankFn.Some? && ordered != [] {
      ordered := Rerank(query, ordered, options.Limit(), options.Margin(), options.rerankFn.value);
    }
  }

  /** The greedy choice in walking order, stamped with fetch times. */
  ghost function Final(query: string, candidates: seq<Candidate>, options: Options, hostOf: string -> string, now: real)
    : seq<Candidate>
  {
    Stamp(Select(WalkOrder(query, candidates, options), HostBy(hostOf), options.HostCap(), options.Limit()),
          HostBy(hostOf), MaxReal(now, 0.0), options.Delay())
  }

  method BuildFrontier(query: string, env: Env, inputs: Inputs, options: Options, now: real)
    returns (final: seq<Candidate>, ghost candidates: seq<Candidate>)
    ensures env.strip(query) == "" ==> final == []
    ensures env.strip(query) != "" ==>
              && Collected(candidates, AllOffers(env, inputs, options.Limit())) && DistinctUrls(candidates)
              && final == Final(env.strip(query), candidates, options, env.hostOf, now)
  {
    final, candidates := [], [];
    var q := env.strip(query);
    if q == "" { return; }
    var collected := Collect(env, inputs, options.Limit());
    candidates := collected;
    var ordered := OrderCandidates(q, collected, options);
    WalkOrderIsPermutation(q, collected, options);
    forall k | 0 <= k < |ordered| ensures ordered[k].availableAt == 0.0 {
      assert ordered[k] in collected;
    }
    final := SelectPolitely(ordered, HostBy(env.hostOf), options.HostCap(), options.Limit(), now, options.Delay());
  }

  // ---- What the frontier promises ----

  /** Stamping fetch times changes neither hosts nor priorities, hence neither caps nor totals. */
  lemma {:induction false} StampKeepsChoice(picks: seq<Candidate>, hostOf: string -> string, start: real, delay: real)
    ensures var final := Stamp(picks, HostBy(hostOf), start, delay);
            Hosts(final, HostBy(hostOf)) == Hosts(picks, HostBy(hostOf)) && Total(final, PriorityOf) == Total(picks, PriorityOf)
  {
    if picks != [] {
      StampKeepsChoice(picks[..|picks| - 1], hostOf, start, delay);
    }
  }

  /** Sorting does not change what is non-negative. */
  lemma SortKeepsRoom(candidates: seq<Candidate>, host: Candidate -> string, cap: nat, limit: nat)
    ensures NoRoomForNegatives(Sorted(candidates, PriorityOf), host, PriorityOf, cap, limit)
            <==> NoRoomForNegatives(candidates, host, PriorityOf, cap, limit)
  {
    var order := Sorted(candidates, PriorityOf);
    SortedIsPermutation(candidates, PriorityOf);
    NonNegativeOfPermutation(candidates, order, PriorityOf);
    PermutationInvariant(NonNegative(candidates, PriorityOf), NonNegative(order, PriorityOf), host, PriorityOf);
    forall c: Candidate | true ensures c in candidates <==> c in order {
      assert c in multiset(candidates) <==> c in multiset(order);
    }
  }

  /**
   Without a reranker, no set of collected candidates within the caps has a greater total priority than the
   frontier exactly when the non-negative candidates leave no room for a negative one.
   */
  lemma FrontierIsOptimalIff(query: string, candidates: seq<Candidate>, options: Options, hostOf: string -> string, now: real)
    requires DistinctUrls(candidates) && options.rerankFn.None?
    ensures (forall t :: FeasibleChoice(t, candidates, HostBy(hostOf), options.HostCap(), options.Limit()) ==>
               Total(t, PriorityOf) <= Total(Final(query, candidates, options, hostOf, now), PriorityOf))
            <==> NoRoomForNegatives(candidates, HostBy(hostOf), PriorityOf, options.HostCap(), options.Limit())
  {
    var order, host, cap, limit := Sorted(candidates, PriorityOf), HostBy(hostOf), options.HostCap(), options.Limit();
    SortedIsPermutation(candidates, PriorityOf);
    SortedIsDescending(candidates, PriorityOf);
    PermutationKeepsUrls(candidates, order);
    SortKeepsRoom(candidates, host, cap, limit);
    GreedyIsOptimalIff(order, host, PriorityOf, cap, limit);
    StampKeepsChoice(Select(order, host, cap, limit), hostOf, MaxReal(now, 0.0), options.Delay());
    forall t: seq<Candidate> | true ensures FeasibleChoice(t, candidates, host, cap, limit) <==> FeasibleChoice(t, order, host, cap, limit) {
    }
  }

  /** In particular the frontier is optimal when no candidate has a negative priority. */
  lemma FrontierIsOptimal(query: string, candidates: seq<Candidate>, options: Options, hostOf: string -> string,
                          now: real, t: seq<Candidate>)
    requires DistinctUrls(candidates) && options.rerankFn.None?
    requires forall c :: c in candidates ==> c.Priority() >= 0.0
    requires FeasibleChoice(t, candidates, HostBy(hostOf), options.HostCap(), options.Limit())
    ensures Total(t, PriorityOf) <= Total(Final(query, candidates, options, hostOf, now), PriorityOf)
  {
    FrontierIsOptimalIff(query, candidates, options, hostOf, now);
  }

  /** A case where it is not: one discovery hint with a negative score is picked, and nothing would be better. */
  lemma NegativeHintIsPicked(query: string, env: Env, options: Options, now: real, candidates: seq<Candidate>)
    requires env.sanitize("https://a.org") == Some("https://a.org") && env.cooledDown(env.hostOf("https://a.org"))
    requires options.rerankFn.None? && options.budget == 1
    requires Collected(candidates, AllOffers(env, Inputs([Hint(Some("https://a.org"), "discovery", Some(-1.0), 1.0)], [], [], []), 1))
    ensures !NoRoomForNegatives(candidates, HostBy(env.hostOf), PriorityOf, options.HostCap(), options.Limit())
    ensures FeasibleChoice([], candidates, HostBy(env.hostOf), options.HostCap(), options.Limit())
    ensures Total([], PriorityOf) == 0.0 && Total(Final(query, candidates, options, env.hostOf, now), PriorityOf) == -1.0
  {
    var c := FromOffer(Offer("https://a.org", "discovery", -1.0, -1.0));
    OnlyHint(env, "https://a.org", "discovery", -1.0, 1.0, 1, candidates);
    SingleIsPicked(c, HostBy(env.hostOf), options.HostCap(), options.Limit());
    NegativeLeavesRoom(c, HostBy(env.hostOf), options.HostCap(), options.Limit());
    assert WalkOrder(query, [c], options) == [c];
    StampKeepsChoice([c], env.hostOf, MaxReal(now, 0.0), options.Delay());
  }

  lemma SingleIsPicked(c: Candidate, host: Candidate -> string, cap: nat, limit: nat)
    requires cap >= 1 && limit >= 1
    ensures Sorted([c], PriorityOf) == [c] && Select([c], host, cap, limit) == [c] && Total([c], PriorityOf) == c.Priority()
  {
    assert [c][..0] == [] && [c][1..] == [];
  }

  lemma NegativeLeavesRoom(c: Candidate, host: Candidate -> string, cap: nat, limit: nat)
    requires cap >= 1 && limit >= 1 && c.Priority() < 0.0
    ensures !NoRoomForNegatives([c], host, PriorityOf, cap, limit)
  {
    assert [c][..0] == [] && NonNegative([c], PriorityOf) == [];
    assert c in [c] && PriorityOf(c) < 0.0;
  }

  /** With one hint and no other URL the one candidate is the hint's. */
  lemma OnlyHint(env: Env, url: string, source: string, score: real, boost: real, limit: nat, candidates: seq<Candidate>)
    requires url != "" && env.sanitize(url) == Some(url) && env.cooledDown(env.hostOf(url)) && limit == 1
    requires Collected(candidates, AllOffers(env, Inputs([Hint(Some(url), source, Some(score), boost)], [], [], []), limit))
    ensures candidates == [FromOffer(Offer(url, source, score, score))]
  {
    var hints := [Hint(Some(url), source, Some(score), boost)];
    var offer := Offer(url, source, score, score);
    assert hints[..0] == [] && [offer][..0] == [];
    assert HintOffers(env, hints) == [offer];
    assert Best([], url) == None && FirstSeen([]) == [];
    assert FirstSeen([offer]) == [url];
    assert Best([offer], url) == Some(offer);
  }

  /** With or without a reranker, the frontier respects both caps and no choice that does is larger. */
  lemma FrontierIsLargest(query: string, candidates: seq<Candidate>, options: Options, hostOf: string -> string,
                          t: seq<Candidate>)
    requires DistinctUrls(candidates)
    requires FeasibleChoice(t, candidates, HostBy(hostOf), options.HostCap(), options.Limit())
    ensures var picks := Select(WalkOrder(query, candidates, options), HostBy(hostOf), options.HostCap(), options.Limit());
            && FeasibleChoice(picks, candidates, HostBy(hostOf), options.HostCap(), options.Limit())
            && |t| <= |picks|
  {
    var order, host := WalkOrder(query, candidates, options), HostBy(hostOf);
    WalkOrderIsPermutation(query, candidates, options);
    SelectIsSubsequence(order, host, options.HostCap(), options.Limit());
    SelectIsFeasible(order, host, options.HostCap(), options.Limit());
    GreedyIsLargest(order, t, host, options.HostCap(), options.Limit());
  }
}

/**
 What build_frontier of crawler/frontier.py makes of its arguments, told without the functions that compute it:
 which URLs are tried, what the candidates are worth, and what the limits, the delay and the reranker mean for the
 result.
 */
module FrontierInputs {
  import opened Common
  import opened StableSort
  import opened CappedGreedy
  import opened Frontier

  // ---- What is tried ----

  function HintAttempts(hints: seq<Hint>): seq<Attempt> {
    if hints == [] then []
    else
      var hint := hints[|hints| - 1];
      var weight := if hint.score.Some? then hint.score.value else hint.boost;
      HintAttempts(hints[..|hints| - 1])
      + (if hint.url.None? then [] else [Attempt(hint.url.value, hint.source, weight, Some(weight), false)])
  }

  function Trials(urls: seq<string>, source: string, weight: real): seq<Attempt> {
    if urls == [] then []
    else Trials(urls[..|urls| - 1], source, weight) + [Attempt(urls[|urls| - 1], source, weight, None, true)]
  }

  function OffersOf(env: Env, attempts: seq<Attempt>): seq<Offer> {
    if attempts == [] then []
    else
      var a := attempts[|attempts| - 1];
      Append(OffersOf(env, attempts[..|attempts| - 1]), MakeOffer(env, a.url, a.source, a.weight, a.score, a.respectOverride))
  }

  /** The collection is full after these attempts. */
  predicate Full(env: Env, attempts: seq<Attempt>, limit: nat) {
    |FirstSeen(OffersOf(env, attempts))| >= limit
  }

  lemma OneMoreAttempt(env: Env, attempts: seq<Attempt>, a: Attempt)
    ensures OffersOf(env, attempts + [a])
            == Append(OffersOf(env, attempts), MakeOffer(env, a.url, a.source, a.weight, a.score, a.respectOverride))
  {
    assert (attempts + [a])[..|attempts|] == attempts;
  }

  lemma OneMoreTrial(urls: seq<string>, n: nat, source: string, weight: real)
    requires n < |urls|
    ensures Trials(urls[..n + 1], source, weight) == Trials(urls[..n], source, weight) + [Attempt(urls[n], source, weight, None, true)]
  {
    assert urls[..n + 1][..n] == urls[..n];
  }

  lemma Assoc<T>(a: seq<T>, b: seq<T>, c: seq<T>)
    ensures a + (b + c) == (a + b) + c && a + [] == a
  {
  }

  /** A stage tries its URLs in order, at least one, until the collection is full: no earlier and no later. */
  ghost predicate StageStops(env: Env, before: seq<Attempt>, urls: seq<string>, source: string, weight: real, limit: nat, n: nat) {
    && n <= |urls| && (urls != [] ==> n >= 1)
    && (n < |urls| ==> Full(env, before + Trials(urls[..n], source, weight), limit))
    && forall m: nat :: 0 < m < n ==> !Full(env, before + Trials(urls[..m], source, weight), limit)
  }

  lemma TryNext(env: Env, before: seq<Attempt>, urls: seq<string>, source: string, weight: real, n: nat)
    requires n < |urls|
    ensures OffersOf(env, before + Trials(urls[..n + 1], source, weight))
            == Append(OffersOf(env, before + Trials(urls[..n], source, weight)), MakeOffer(env, urls[n], source, weight, None, true))
  {
    var tried, a := Trials(urls[..n], source, weight), Attempt(urls[n], source, weight, None, true);
    OneMoreTrial(urls, n, source, weight);
    Assoc(before, tried, [a]);
    OneMoreAttempt(env, before + tried, a);
  }

  lemma {:induction false} FeedFrom(env: Env, before: seq<Attempt>, urls: seq<string>, source: string, weight: real,
                                    limit: nat, from: nat) returns (n: nat)
    requires from <= |urls|
    requires forall m: nat :: 0 < m <= from ==> !Full(env, before + Trials(urls[..m], source, weight), limit)
    ensures from <= n && StageStops(env, before, urls, source, weight, limit, n)
    ensures FeedUntilFull(env, OffersOf(env, before + Trials(urls[..from], source, weight)), urls[from..], source, weight, limit)
            == OffersOf(env, before + Trials(urls[..n], source, weight))
    decreases |urls| - from
  {
    n := from;
    if from < |urls| {
      TryNext(env, before, urls, source, weight, from);
      assert urls[from..][0] == urls[from] && urls[from..][1..] == urls[from + 1..];
      n := from + 1;
      if !Full(env, before + Trials(urls[..n], source, weight), limit) {
        n := FeedFrom(env, before, urls, source, weight, limit, n);
      }
    }
  }

  lemma Feed(env: Env, before: seq<Attempt>, urls: seq<string>, source: string, weight: real, limit: nat) returns (n: nat)
    ensures StageStops(env, before, urls, source, weight, limit, n)
    ensures FeedUntilFull(env, OffersOf(env, before), urls, source, weight, limit)
            == OffersOf(env, before + Trials(urls[..n], source, weight))
  {
    assert Trials(urls[..0], source, weight) == [] && urls[0..] == urls;
    Assoc(before, [], []);
    n := FeedFrom(env, before, urls, source, weight, limit, 0);
  }

  lemma {:induction false} HintsAreTried(env: Env, hints: seq<Hint>)
    ensures HintOffers(env, hints) == OffersOf(env, HintAttempts(hints))
  {
    if hints != [] {
      var hint := hints[|hints| - 1];
      HintsAreTried(env, hints[..|hints| - 1]);
      if hint.url.Some? {
        var weight := if hint.score.Some? then hint.score.value else hint.boost;
        OneMoreAttempt(env, HintAttempts(hints[..|hints| - 1]), Attempt(hint.url.value, hint.source, weight, Some(weight), false));
      } else {
        Assoc(HintAttempts(hints[..|hints| - 1]), [], []);
      }
    }
  }

  /** All hints, then the model's URLs, those of the seed domains, and those made from the query. */
  function Tried(inputs: Inputs, i: nat, j: nat, k: nat): seq<Attempt>
    requires i <= |inputs.extraUrls| && j <= |inputs.domainUrls| && k <= |inputs.queryUrls|
  {
    HintAttempts(inputs.hints) + Trials(inputs.extraUrls[..i], "llm", 1.5) + Trials(inputs.domainUrls[..j], "seed", 1.0)
    + Trials(inputs.queryUrls[..k], "heuristic", 0.8)
  }

  /** How far each stage gets: the model's URLs always begin, the others only while the collection is not full. */
  ghost predicate StagesStop(env: Env, inputs: Inputs, limit: nat, i: nat, j: nat, k: nat) {
    var hinted := HintAttempts(inputs.hints);
    && StageStops(env, hinted, inputs.extraUrls, "llm", 1.5, limit, i)
    && j <= |inputs.domainUrls| && k <= |inputs.queryUrls|
    && var first := hinted + Trials(inputs.extraUrls[..i], "llm", 1.5);
    && (if Full(env, first, limit) then j == 0 else StageStops(env, first, inputs.domainUrls, "seed", 1.0, limit, j))
    && var second := first + Trials(inputs.domainUrls[..j], "seed", 1.0);
    && (if Full(env, second, limit) then k == 0 else StageStops(env, second, inputs.queryUrls, "heuristic", 0.8, limit, k))
  }

  /** The offers are those of the attempts made, stage by stage. */
  lemma OffersAreTried(env: Env, inputs: Inputs, limit: nat) returns (i: nat, j: nat, k: nat)
    ensures StagesStop(env, inputs, limit, i, j, k)
    ensures AllOffers(env, inputs, limit) == OffersOf(env, Tried(inputs, i, j, k))
  {
    var hinted := HintAttempts(inputs.hints);
    HintsAreTried(env, inputs.hints);
    i := Feed(env, hinted, inputs.extraUrls, "llm", 1.5, limit);
    var first := hinted + Trials(inputs.extraUrls[..i], "llm", 1.5);
    j := 0;
    if !Full(env, first, limit) {
      j := Feed(env, first, inputs.domainUrls, "seed", 1.0, limit);
    }
    assert Trials(inputs.domainUrls[..0], "seed", 1.0) == [];
    Assoc(first, [], []);
    var second := first + Trials(inputs.domainUrls[..j], "seed", 1.0);
    k := 0;
    if !Full(env, second, limit) {
      k := Feed(env, second, inputs.queryUrls, "heuristic", 0.8, limit);
    }
    assert Trials(inputs.queryUrls[..0], "heuristic", 0.8) == [];
    Assoc(second, [], []);
  }

  // ---- What the candidates are ----

  lemma {:induction false} OfferHasAttempt(env: Env, attempts: seq<Attempt>, i: nat) returns (k: nat)
    requires i < |OffersOf(env, attempts)|
    ensures k < |attempts| && IsOffer(env, attempts[k], OffersOf(env, attempts)[i])
  {
    k := |attempts| - 1;
    OfferMeans(env, attempts[k]);
    if i < |OffersOf(env, attempts[..k])| {
      k := OfferHasAttempt(env, attempts[..k], i);
    }
  }

  lemma {:induction false} AttemptHasOffer(env: Env, attempts: seq<Attempt>, k: nat) returns (i: nat)
    requires k < |attempts| && !Refused(env, attempts[k])
    ensures i < |OffersOf(env, attempts)| && IsOffer(env, attempts[k], OffersOf(env, attempts)[i])
  {
    var last := |attempts| - 1;
    OfferMeans(env, attempts[last]);
    if k < last {
      i := AttemptHasOffer(env, attempts[..last], k);
    } else {
      i := |OffersOf(env, attempts)| - 1;
    }
  }

  /** The candidate an offer gives, not due yet at any time. */
  predicate IsCandidate(c: Candidate, offer: Offer) {
    c.url == offer.url && c.source == offer.source && c.weight == offer.weight && c.availableAt == 0.0
    && c.Priority() == offer.priority
  }

  /** Every candidate comes from an attempt, with the weight and priority that attempt means. */
  lemma CandidateStems(env: Env, attempts: seq<Attempt>, candidates: seq<Candidate>, x: nat) returns (a: Attempt, offer: Offer)
    requires Collected(candidates, OffersOf(env, attempts)) && x < |candidates|
    ensures a in attempts && IsOffer(env, a, offer) && IsCandidate(candidates[x], offer)
  {
    var offers := OffersOf(env, attempts);
    var i := BestIsFirstGreatest(offers, FirstSeen(offers)[x]);
    var k := OfferHasAttempt(env, attempts, i);
    a, offer := attempts[k], offers[i];
  }

  /** Every attempt that is not refused has a candidate for its URL, worth at least as much as the attempt means. */
  lemma AttemptCounts(env: Env, attempts: seq<Attempt>, candidates: seq<Candidate>, k: nat) returns (x: nat, offer: Offer)
    requires Collected(candidates, OffersOf(env, attempts)) && k < |attempts| && !Refused(env, attempts[k])
    ensures IsOffer(env, attempts[k], offer)
    ensures x < |candidates| && candidates[x].url == offer.url && candidates[x].Priority() >= offer.priority
  {
    var offers := OffersOf(env, attempts);
    var i := AttemptHasOffer(env, attempts, k);
    offer := offers[i];
    var b := BestIsFirstGreatest(offers, offer.url);
    FirstSeenUrls(offers);
    x :| 0 <= x < |FirstSeen(offers)| && FirstSeen(offers)[x] == offer.url;
    assert i == b || i < b || i > b;
  }

  /**
   What Collect returns: the candidates come from the attempts the stages made, and every one of those counts. So a
   URL of a host with a learned score is worth at least that score, unless a score was given with it.
   */
  lemma CollectedMeans(env: Env, inputs: Inputs, limit: nat, candidates: seq<Candidate>) returns (tried: seq<Attempt>)
    requires Collected(candidates, AllOffers(env, inputs, limit))
    ensures exists i: nat, j: nat, k: nat :: StagesStop(env, inputs, limit, i, j, k) && tried == Tried(inputs, i, j, k)
    ensures forall c :: c in candidates ==> exists a, offer :: a in tried && IsOffer(env, a, offer) && IsCandidate(c, offer)
    ensures forall a :: a in tried && !Refused(env, a) ==>
              exists c, offer :: c in candidates && IsOffer(env, a, offer) && c.url == offer.url && c.Priority() >= offer.priority
  {
    var i, j, k := OffersAreTried(env, inputs, limit);
    tried := Tried(inputs, i, j, k);
    forall c | c in candidates ensures exists a, offer :: a in tried && IsOffer(env, a, offer) && IsCandidate(c, offer) {
      var x :| 0 <= x < |candidates| && candidates[x] == c;
      var a, offer := CandidateStems(env, tried, candidates, x);
    }
    forall a | a in tried && !Refused(env, a)
      ensures exists c, offer :: c in candidates && IsOffer(env, a, offer) && c.url == offer.url && c.Priority() >= offer.priority
    {
      var m :| 0 <= m < |tried| && tried[m] == a;
      var x, offer := AttemptCounts(env, tried, candidates, m);
      assert candidates[x] in candidates;
    }
  }

  // ---- What the settings mean ----

  /** The values in force: those given, raised to the least sensible one, or the defaults. */
  predicate InForce(options: Options, limit: nat, cap: nat, delay: real) {
    && limit == (if options.budget >= 1 then options.budget else 1)
    && (options.perHostCap.None? ==> cap == 3)
    && (options.perHostCap.Some? ==> cap == if options.perHostCap.value >= 1 then options.perHostCap.value else 1)
    && (options.politenessDelay.None? ==> delay == 1.0)
    && (options.politenessDelay.Some? ==> delay == if options.politenessDelay.value >= 0.0 then options.politenessDelay.value else 0.0)
  }

  /** So many delays after the start. */
  function Due(start: real, n: nat, delay: real): real { start + n as real * delay }

  lemma OneMoreDelay(m: real, delay: real)
    ensures (m + 1.0) * delay == m * delay + delay
  {
  }

  lemma DueNext(start: real, n: nat, delay: real)
    requires n > 0
    ensures Due(start, n, delay) == Due(start, n - 1, delay) + delay
  {
    var m := (n - 1) as real;
    assert n as real == m + 1.0;
    OneMoreDelay(m, delay);
    assert n as real * delay == (m + 1.0) * delay;
  }

  lemma {:induction false} SlotIsMultiple(n: nat, start: real, delay: real)
    ensures Slot(n, start, delay) == Due(start, n, delay)
  {
    if n > 0 {
      SlotIsMultiple(n - 1, start, delay);
      DueNext(start, n, delay);
    }
  }

  lemma SettingsAre(options: Options, limit: nat, cap: nat, delay: real)
    requires InForce(options, limit, cap, delay)
    ensures options.Limit() == limit >= 1 && options.HostCap() == cap >= 1 && options.Delay() == delay >= 0.0
  {
  }

  /** The frontier is the stamped greedy choice for the values in force. */
  lemma FinalIs(query: string, candidates: seq<Candidate>, options: Options, hostOf: string -> string, now: real,
                limit: nat, cap: nat, delay: real) returns (picks: seq<Candidate>)
    requires InForce(options, limit, cap, delay)
    ensures picks == Select(WalkOrder(query, candidates, options), HostBy(hostOf), cap, limit)
    ensures Final(query, candidates, options, hostOf, now) == Stamp(picks, HostBy(hostOf), MaxReal(now, 0.0), delay)
  {
    SettingsAre(options, limit, cap, delay);
    picks := Select(WalkOrder(query, candidates, options), HostBy(hostOf), cap, limit);
  }

  /** The frontier keeps within the budget and the host cap in force, and no choice that does is larger. */
  lemma FrontierKeepsLimits(query: string, candidates: seq<Candidate>, options: Options, hostOf: string -> string, now: real,
                            limit: nat, cap: nat, delay: real, t: seq<Candidate>)
    requires DistinctUrls(candidates) && InForce(options, limit, cap, delay)
    ensures Feasible(Final(query, candidates, options, hostOf, now), HostBy(hostOf), cap, limit)
    ensures FeasibleChoice(t, candidates, HostBy(hostOf), cap, limit) ==>
              |t| <= |Final(query, candidates, options, hostOf, now)|
  {
    var picks := FinalIs(query, candidates, options, hostOf, now, limit, cap, delay);
    StampKeepsChoice(picks, hostOf, MaxReal(now, 0.0), delay);
    SelectIsFeasible(WalkOrder(query, candidates, options), HostBy(hostOf), cap, limit);
    if FeasibleChoice(t, candidates, HostBy(hostOf), cap, limit) {
      SettingsAre(options, limit, cap, delay);
      FrontierIsLargest(query, candidates, options, hostOf, t);
    }
  }

  /** How many before number j have its host. */
  function Earlier(s: seq<Candidate>, j: nat, hostOf: string -> string): nat
    requires j < |s|
  {
    Hosts(s[..j], HostBy(hostOf))[hostOf(s[j].url)]
  }

  lemma EarlierStays(picks: seq<Candidate>, hostOf: string -> string, start: real, delay: real, j: nat)
    requires j < |picks|
    ensures Earlier(Stamp(picks, HostBy(hostOf), start, delay), j, hostOf) == Earlier(picks, j, hostOf)
  {
    StampAt(picks, j, HostBy(hostOf), start, delay);
    StampOfPrefix(picks, j, HostBy(hostOf), start, delay);
    StampKeepsChoice(picks[..j], hostOf, start, delay);
  }

  lemma StampedAt(picks: seq<Candidate>, hostOf: string -> string, start: real, delay: real, j: nat)
    requires j < |picks|
    ensures Stamp(picks, HostBy(hostOf), start, delay)[j].availableAt == Due(start, Earlier(picks, j, hostOf), delay)
  {
    StampAt(picks, j, HostBy(hostOf), start, delay);
    SlotIsMultiple(Earlier(picks, j, hostOf), start, delay);
  }

  /** A pick is due as many delays after the start as picks of its host come before it. */
  ghost predicate IsDue(final: seq<Candidate>, j: nat, hostOf: string -> string, start: real, delay: real) {
    j < |final| && final[j].availableAt == Due(start, Earlier(final, j, hostOf), delay)
  }

  lemma TimesOfPicks(picks: seq<Candidate>, hostOf: string -> string, start: real, delay: real, j: nat)
    requires j < |picks|
    ensures IsDue(Stamp(picks, HostBy(hostOf), start, delay), j, hostOf, start, delay)
  {
    EarlierStays(picks, hostOf, start, delay, j);
    StampedAt(picks, hostOf, start, delay, j);
  }

  /** In the frontier the start is now. */
  lemma FrontierTimes(query: string, candidates: seq<Candidate>, options: Options, hostOf: string -> string, now: real,
                      limit: nat, cap: nat, delay: real, j: nat)
    requires InForce(options, limit, cap, delay) && now >= 0.0
    requires j < |Final(query, candidates, options, hostOf, now)|
    ensures IsDue(Final(query, candidates, options, hostOf, now), j, hostOf, now, delay)
  {
    var picks := FinalIs(query, candidates, options, hostOf, now, limit, cap, delay);
    assert MaxReal(now, 0.0) == now;
    TimesOfPicks(picks, hostOf, now, delay, j);
  }

  lemma {:induction false} StampOfPrefix(picks: seq<Candidate>, j: nat, host: Candidate -> string, start: real, delay: real)
    requires j <= |picks|
    ensures Stamp(picks, host, start, delay)[..j] == Stamp(picks[..j], host, start, delay)
  {
    if j < |picks| {
      var front := picks[..|picks| - 1];
      StampOfPrefix(front, j, host, start, delay);
      assert front[..j] == picks[..j];
    } else {
      assert picks[..j] == picks;
    }
  }

  // ---- What the reranker decides ----

  /** It is asked about the candidates that are within the margin of the last one that the budget would reach. */
  lemma WindowIsWithinMargin(sorted: seq<Candidate>, limit: nat, margin: real, c: Candidate)
    requires sorted != [] && limit >= 1
    ensures c in Keep(sorted, AtLeast(Threshold(sorted, limit, margin))) <==>
              c in sorted && c.Priority() + margin >= sorted[(if |sorted| <= limit then |sorted| else limit) - 1].Priority()
  {
    KeepFilters(sorted, AtLeast(Threshold(sorted, limit, margin)));
  }

  lemma FindGivesUrl(window: seq<Candidate>, url: string)
    requires exists c :: c in window && c.url == url
    ensures Find(window, url).Some? && Find(window, url).value.url == url
  {
  }

  /** Replies that name members of the window, each once, come first in the order they were given. */
  lemma {:induction false} RepliesDecide(window: seq<Candidate>, replies: seq<string>)
    requires Distinct(replies) && forall r :: r in replies ==> exists c :: c in window && c.url == r
    ensures UrlList(Accepted(replies, window)) == replies
    ensures Accepted(replies, window) <= WindowOrder(window, replies)
  {
    if replies != [] {
      var front, last := replies[..|replies| - 1], replies[|replies| - 1];
      assert forall r :: r in front ==> r in replies;
      assert last in replies;
      RepliesDecide(window, front);
      FindGivesUrl(window, last);
      UrlListMembers(Accepted(front, window));
      assert last !in front;
      var sofar, found := Accepted(front, window), Find(window, last).value;
      assert (sofar + [found])[..|sofar|] == sofar;
      SplitLast(replies);
    }
  }

  lemma {:induction false} UrlListMembers(s: seq<Candidate>)
    ensures forall u :: u in UrlList(s) <==> u in Urls(s)
  {
    if s != [] {
      UrlListMembers(s[..|s| - 1]);
      SplitLast(s);
    }
  }
}

/**
 Whole runs of the crawler of crawler/run.py: the workers cannot get stuck or run on for ever, so the wait for the
 queue ends, and no worker stops early, exactly when no candidate has an empty URL.
 */
module CrawlerRuns {
  import opened Common
  import opened Dedupe
  import opened Crawler

  // ---- Runs without empty URLs ----

  ghost predicate NoEmptyLinks(actions: seq<Action>) {
    forall i :: 0 <= i < |actions| && actions[i].FetchEnds? && actions[i].page.Some? ==> "" !in actions[i].page.value.links
  }

  predicate NoEmptyInHand(pc: Worker) {
    (pc.HasResult? ==> "" !in pc.page.links) && (pc.Following? ==> "" !in pc.links)
  }

  ghost predicate NoneEmpty(s: State) {
    s.early == 0 && forall w :: 0 <= w < |s.workers| ==> NoEmptyInHand(s.workers[w])
  }

  /** A worker's step brings no empty URL into hand. */
  lemma WorkerKeepsNoneEmpty(config: Config, s: State, action: Action)
    requires config.Valid() && NoneEmpty(s) && !action.JoinReturns? && action.w < |s.workers|
    requires action.FetchEnds? && action.page.Some? ==> "" !in action.page.value.links
    ensures Step(config, s, action).early == 0 && |Step(config, s, action).workers| == |s.workers|
    ensures NoEmptyInHand(Step(config, s, action).workers[action.w])
  {
    assert NoEmptyInHand(s.workers[action.w]);
  }

  lemma OthersStay(config: Config, s: State, action: Action, v: nat)
    requires config.Valid() && v < |s.workers| && (action.JoinReturns? || v != action.w)
    ensures |Step(config, s, action).workers| == |s.workers| && Step(config, s, action).workers[v] == s.workers[v]
  {
  }

  lemma StepKeepsNoneEmpty(config: Config, s: State, action: Action)
    requires config.Valid() && NoneEmpty(s)
    requires action.FetchEnds? && action.page.Some? ==> "" !in action.page.value.links
    ensures NoneEmpty(Step(config, s, action))
  {
    var t := Step(config, s, action);
    if !action.JoinReturns? && action.w < |s.workers| {
      WorkerKeepsNoneEmpty(config, s, action);
    }
    forall v | 0 <= v < |t.workers| ensures NoEmptyInHand(t.workers[v]) {
      if action.JoinReturns? || v != action.w {
        OthersStay(config, s, action, v);
      }
    }
  }

  lemma {:induction false} NoBlankHasNoStops(queue: seq<string>)
    requires "" !in queue
    ensures CountStops(queue) == 0
  {
    if queue != [] {
      NoBlankHasNoStops(queue[..|queue| - 1]);
    }
  }

  lemma {:induction false} RunHasNoneEmpty(config: Config, seeds: seq<string>, actions: seq<Action>)
    requires config.Valid() && "" !in seeds && NoEmptyLinks(actions)
    ensures NoneEmpty(Run(config, seeds, actions))
  {
    if actions == [] {
      NoBlankHasNoStops(seeds);
    } else {
      RunHasNoneEmpty(config, seeds, actions[..|actions| - 1]);
      StepKeepsNoneEmpty(config, Run(config, seeds, actions[..|actions| - 1]), actions[|actions| - 1]);
    }
  }

  lemma {:induction false} NobodyExited(workers: seq<Worker>, w: nat)
    requires CountExited(workers) == 0 && w < |workers|
    ensures !workers[w].Exited?
  {
    if w < |workers| - 1 {
      NobodyExited(workers[..|workers| - 1], w);
    }
  }

  /**
   With no empty URL among seeds and links no worker stops before the sentinels are sent, each takes exactly one,
   and when all have stopped none is left.
   */
  lemma OneSentinelEach(config: Config, seeds: seq<string>, actions: seq<Action>)
    requires config.Valid() && "" !in seeds && NoEmptyLinks(actions)
    ensures var s := Run(config, seeds, actions);
            && CountExited(s.workers) + CountStops(s.queue) == (if s.posted then config.workers else 0)
            && (!s.posted ==> forall w :: 0 <= w < |s.workers| ==> !s.workers[w].Exited?)
            && (CountExited(s.workers) == config.workers > 0 ==> s.posted && CountStops(s.queue) == 0)
  {
    var s := Run(config, seeds, actions);
    RunHasNoneEmpty(config, seeds, actions);
    SentinelsBalance(config, seeds, actions);
    if !s.posted {
      forall w | 0 <= w < |s.workers| ensures !s.workers[w].Exited? {
        NobodyExited(s.workers, w);
      }
    }
  }

  // ---- Working off the queue with the first worker ----

  /** All workers wait for the queue, but for the first, which is at pc; the guard is free. */
  ghost predicate OnlyFirst(config: Config, s: State, pc: Worker) {
    && config.workers >= 1 && s.workers == seq(config.workers, _ => AtGet)[0 := pc]
    && s.locks.guard.None? && !s.posted
  }

  lemma RunExtends(config: Config, seeds: seq<string>, actions: seq<Action>, action: Action)
    requires config.Valid()
    ensures Run(config, seeds, actions + [action]) == Step(config, Run(config, seeds, actions), action)
  {
    assert (actions + [action])[..|actions|] == actions;
  }

  /** One more action of the first worker. */
  lemma RunOn(config: Config, seeds: seq<string>, actions: seq<Action>, action: Action) returns (more: seq<Action>)
    requires config.Valid() && NoEmptyLinks(actions)
    requires action.FetchEnds? && action.page.Some? ==> "" !in action.page.value.links
    ensures NoEmptyLinks(more) && Run(config, seeds, more) == Step(config, Run(config, seeds, actions), action)
  {
    more := actions + [action];
    RunExtends(config, seeds, actions, action);
  }

  lemma FirstMoves(config: Config, pc: Worker, pc': Worker)
    requires config.workers >= 1
    ensures seq(config.workers, _ => AtGet)[0 := pc][0 := pc'] == seq(config.workers, _ => AtGet)[0 := pc']
  {
  }

  /** The item in front leaves the queue; a new one is in the first worker's hand. */
  lemma TakeFirst(config: Config, seeds: seq<string>, actions: seq<Action>) returns (more: seq<Action>)
    requires config.Valid() && NoEmptyLinks(actions)
    requires var s := Run(config, seeds, actions); OnlyFirst(config, s, AtGet) && s.queue != [] && s.queue[0] != ""
    ensures NoEmptyLinks(more)
    ensures var s, t := Run(config, seeds, actions), Run(config, seeds, more);
            && t.queue == s.queue[1..] && t.results == s.results && t.stop == s.stop && t.visited == s.visited
            && (OnlyFirst(config, t, AtGet) || OnlyFirst(config, t, WantGuard(s.queue[0])))
            && (!s.stop && !InFilter(config, s.added, s.queue[0]) && s.queue[0] !in s.visited ==>
                  OnlyFirst(config, t, WantGuard(s.queue[0])) && t.added == s.added + {s.queue[0]})
  {
    var s := Run(config, seeds, actions);
    FirstMoves(config, AtGet, WantGuard(s.queue[0]));
    more := RunOn(config, seeds, actions, Get(0));
  }

  /** The guard is free, so the first worker gets its domain's semaphore. */
  lemma PassGuard(config: Config, seeds: seq<string>, actions: seq<Action>, url: string)
    returns (more: seq<Action>, lock: LockId)
    requires config.Valid() && NoEmptyLinks(actions) && OnlyFirst(config, Run(config, seeds, actions), WantGuard(url))
    ensures NoEmptyLinks(more)
    ensures var s, t := Run(config, seeds, actions), Run(config, seeds, more);
            && OnlyFirst(config, t, WantPermit(url, lock)) && t.queue == s.queue && t.results == s.results
            && t.stop == s.stop && t.added == s.added && t.visited == s.visited
  {
    var s := Run(config, seeds, actions);
    var found := Lookup(s.locks.table, config.hostOf(url));
    FirstMoves(config, WantGuard(url), InGuard(url, found));
    var entered := RunOn(config, seeds, actions, EnterGuard(0));
    lock := if found.Some? then found.value else |s.locks.permits|;
    FirstMoves(config, InGuard(url, found), WantPermit(url, lock));
    more := RunOn(config, seeds, entered, LeaveGuard(0));
  }

  /** Nobody else holds a permit, so there is one. */
  lemma PermitIsFree(config: Config, seeds: seq<string>, actions: seq<Action>, url: string, lock: LockId)
    requires config.Valid() && config.perDomain >= 1
    requires OnlyFirst(config, Run(config, seeds, actions), WantPermit(url, lock))
    ensures CanAcquire(Run(config, seeds, actions), 0)
  {
    var s := Run(config, seeds, actions);
    RunKeepsInv(config, seeds, actions);
    assert LockFits(config, s.locks, s.workers[0]);
    NoHolders(s.workers, lock);
    assert s.locks.permits[lock] + Holders(s.workers, lock) == config.perDomain;
  }

  /** The first worker fetches, with or without a result. */
  lemma FetchFirst(config: Config, seeds: seq<string>, actions: seq<Action>, url: string, lock: LockId, page: Option<Page>)
    returns (more: seq<Action>)
    requires config.Valid() && NoEmptyLinks(actions) && config.perDomain >= 1
    requires OnlyFirst(config, Run(config, seeds, actions), WantPermit(url, lock))
    requires page.Some? ==> "" !in page.value.links
    ensures NoEmptyLinks(more)
    ensures var s, t := Run(config, seeds, actions), Run(config, seeds, more);
            && OnlyFirst(config, t, if page.Some? then HasResult(url, page.value) else AtGet)
            && t.queue == s.queue && t.results == s.results && t.stop == s.stop && t.added == s.added && t.visited == s.visited
  {
    PermitIsFree(config, seeds, actions, url, lock);
    FirstMoves(config, WantPermit(url, lock), Fetching(url, lock));
    var acquired := RunOn(config, seeds, actions, Acquire(0));
    FirstMoves(config, Fetching(url, lock), if page.Some? then HasResult(url, page.value) else AtGet);
    more := RunOn(config, seeds, acquired, FetchEnds(0, page));
  }

  /** The first worker can work off the queue up to the first empty URL, and stops there. */
  lemma {:induction false} Drain(config: Config, seeds: seq<string>, actions: seq<Action>) returns (more: seq<Action>)
    requires config.Valid() && NoEmptyLinks(actions) && config.perDomain >= 1
    requires var s := Run(config, seeds, actions); OnlyFirst(config, s, AtGet) && "" in s.queue
    ensures NoEmptyLinks(more) && OnlyFirst(config, Run(config, seeds, more), Exited)
    decreases |Run(config, seeds, actions).queue|
  {
    var s := Run(config, seeds, actions);
    if s.queue[0] == "" {
      FirstMoves(config, AtGet, Exited);
      more := RunOn(config, seeds, actions, Get(0));
    } else {
      var url := s.queue[0];
      assert "" in s.queue[1..] by { assert s.queue == [url] + s.queue[1..]; }
      more := TakeFirst(config, seeds, actions);
      if !OnlyFirst(config, Run(config, seeds, more), AtGet) {
        var lock;
        more, lock := PassGuard(config, seeds, more, url);
        more := FetchFirst(config, seeds, more, url, lock, None);
      }
      more := Drain(config, seeds, more);
    }
  }

  ghost predicate SomeExited(s: State) { exists w :: 0 <= w < |s.workers| && s.workers[w].Exited? }

  /**
   No run without empty links has a worker stop before the sentinels are sent, if and only if no seed has an empty
   URL.
   */
  lemma EarlyExitIff(config: Config, seeds: seq<string>)
    requires config.Valid() && config.workers >= 1 && config.perDomain >= 1
    ensures (forall actions :: NoEmptyLinks(actions) && !Run(config, seeds, actions).posted ==>
               !SomeExited(Run(config, seeds, actions)))
            <==> "" !in seeds
  {
    if "" in seeds {
      assert OnlyFirst(config, Run(config, seeds, []), AtGet);
      var actions := Drain(config, seeds, []);
      assert Run(config, seeds, actions).workers[0].Exited?;
    } else {
      forall actions | NoEmptyLinks(actions) && !Run(config, seeds, actions).posted
        ensures !SomeExited(Run(config, seeds, actions))
      {
        OneSentinelEach(config, seeds, actions);
      }
    }
  }

  /** A case: behind an empty seed the only worker stops, and a second seed is never taken: the wait has no end. */
  lemma EmptySeedHangs(config: Config, url: string, action: Action)
    requires config.Valid() && config.workers == 1 && !action.JoinReturns?
    ensures var s := Run(config, ["", url], [Get(0)]);
            SomeExited(s) && !s.posted && s.unfinished == 1 && Step(config, s, action) == s
  {
    var actions: seq<Action> := [Get(0)];
    assert actions[..0] == [];
    var first := Initial(config, ["", url]);
    assert first.workers == [AtGet] && first.queue[0] == "";
    assert Run(config, ["", url], []) == first;
    GetStops(config, first, 0);
    var s := Run(config, ["", url], actions);
    assert s == Step(config, first, Get(0));
    assert s.workers == [Exited] && s.workers[0].Exited?;
  }

  // ---- Redirects ----

  /** The first worker records a page without links. */
  lemma RecordFirst(config: Config, seeds: seq<string>, actions: seq<Action>, url: string, target: string)
    returns (more: seq<Action>)
    requires config.Valid() && NoEmptyLinks(actions)
    requires var s := Run(config, seeds, actions);
             OnlyFirst(config, s, HasResult(url, Page(target, []))) && |s.results| < config.budget && !s.stop
    ensures NoEmptyLinks(more)
    ensures var s, t := Run(config, seeds, actions), Run(config, seeds, more);
            && OnlyFirst(config, t, AtGet) && t.queue == s.queue && t.results == s.results + [Result(url, target)]
            && t.added == s.added && t.visited == s.visited + {url} && t.stop == (|t.results| >= config.budget)
  {
    FirstMoves(config, HasResult(url, Page(target, [])), AtGet);
    more := RunOn(config, seeds, actions, Record(0));
  }

  /** From an idle state a new URL is fetched, redirected to `target`, and recorded. */
  lemma FetchAndRecord(config: Config, seeds: seq<string>, actions: seq<Action>, target: string) returns (more: seq<Action>)
    requires config.Valid() && NoEmptyLinks(actions) && config.perDomain >= 1
    requires var s := Run(config, seeds, actions);
             && OnlyFirst(config, s, AtGet) && s.queue != [] && s.queue[0] != "" && |s.results| < config.budget
             && !s.stop && !InFilter(config, s.added, s.queue[0]) && s.queue[0] !in s.visited
    ensures NoEmptyLinks(more)
    ensures var s, t := Run(config, seeds, actions), Run(config, seeds, more);
            && OnlyFirst(config, t, AtGet) && t.queue == s.queue[1..] && t.results == s.results + [Result(s.queue[0], target)]
            && t.added == s.added + {s.queue[0]} && t.visited == s.visited + {s.queue[0]}
            && t.stop == (|t.results| >= config.budget)
  {
    var s, page := Run(config, seeds, actions), Page(target, []);
    var url := s.queue[0];
    more := TakeFirst(config, seeds, actions);
    var lock;
    more, lock := PassGuard(config, seeds, more, url);
    more := FetchFirst(config, seeds, more, url, lock, Some(page));
    more := RecordFirst(config, seeds, more, url, target);
  }

  /** A case: two seeds that the filter tells apart are redirected to one URL and give two results with it. */
  lemma RedirectsCollide(config: Config, a: string, b: string, target: string) returns (actions: seq<Action>)
    requires config.Valid() && config.workers >= 1 && config.perDomain >= 1 && config.budget >= 2
    requires a != b && a != "" && b != "" && !InFilter(config, {}, a) && !InFilter(config, {a}, b)
    ensures Run(config, [a, b], actions).results == [Result(a, target), Result(b, target)]
  {
    assert OnlyFirst(config, Run(config, [a, b], []), AtGet);
    actions := FetchAndRecord(config, [a, b], [], target);
    assert {} + {a} == {a};
    actions := FetchAndRecord(config, [a, b], actions, target);
  }

  // ---- Source links are followed ----

  /** The links that are offered to the queue: not skipped, and before the source budget ends the loop. */
  function Offered(links: seq<string>, choices: seq<FollowChoice>): seq<string>
    requires |choices| == |links|
  {
    if links == [] || choices[0] == Break then []
    else (if choices[0] == Take then [links[0]] else []) + Offered(links[1..], choices[1..])
  }

  /** Those that are not known yet, each at its first mention. */
  function Fresh(links: seq<string>, known: set<string>): seq<string> {
    if links == [] then []
    else if links[0] in known then Fresh(links[1..], known)
    else [links[0]] + Fresh(links[1..], known + {links[0]})
  }

  /** Fresh links are exactly the unknown ones, each once. */
  lemma {:induction false} FreshMembers(links: seq<string>, known: set<string>)
    ensures Distinct(Fresh(links, known))
    ensures forall l :: l in Fresh(links, known) <==> l in links && l !in known
  {
    if links != [] {
      assert links == [links[0]] + links[1..];
      FreshMembers(links[1..], known);
      FreshMembers(links[1..], known + {links[0]});
    }
  }

  /** They come in the order of the page. */
  lemma {:induction false} FreshInOrder(links: seq<string>, known: set<string>, i: nat, j: nat) returns (k: nat, l: nat)
    requires i < j < |Fresh(links, known)|
    ensures k < l < |links| && links[k] == Fresh(links, known)[i] && links[l] == Fresh(links, known)[j]
  {
    if links[0] in known {
      k, l := FreshInOrder(links[1..], known, i, j);
      k, l := k + 1, l + 1;
    } else if i == 0 {
      var rest := Fresh(links[1..], known + {links[0]});
      FreshMembers(links[1..], known + {links[0]});
      assert rest[j - 1] in rest;
      var m :| 0 <= m < |links[1..]| && links[1..][m] == rest[j - 1];
      k, l := 0, m + 1;
    } else {
      k, l := FreshInOrder(links[1..], known + {links[0]}, i - 1, j - 1);
      k, l := k + 1, l + 1;
    }
  }

  /** A link taken stands on the page at a place where it was taken and no earlier choice ended the loop. */
  lemma {:induction false} OfferedIff(links: seq<string>, choices: seq<FollowChoice>, l: string)
    requires |choices| == |links|
    ensures l in Offered(links, choices) <==>
              exists i :: 0 <= i < |links| && links[i] == l && choices[i] == Take && Break !in choices[..i]
  {
    if links != [] && choices[0] != Break {
      OfferedIff(links[1..], choices[1..], l);
      if i :| 0 <= i < |links[1..]| && links[1..][i] == l && choices[1..][i] == Take && Break !in choices[1..][..i] {
        assert links[i + 1] == l && choices[i + 1] == Take && choices[..i + 1] == [choices[0]] + choices[1..][..i];
      }
      if i :| 0 <= i < |links| && links[i] == l && choices[i] == Take && Break !in choices[..i] {
        if i > 0 {
          assert links[1..][i - 1] == l && choices[1..][i - 1] == Take;
          assert forall c :: c in choices[1..][..i - 1] ==> c in choices[..i];
        } else {
          assert Offered(links, choices)[0] == l;
        }
      }
    } else if links != [] {
      assert forall i :: 0 < i < |links| ==> choices[..i][0] == Break;
    }
  }

  /** The actions of worker w over its links. */
  function Follows(w: nat, choices: seq<FollowChoice>): seq<Action> {
    if choices == [] then [] else [Follow(w, choices[0])] + Follows(w, choices[1..])
  }

  ghost function Steps(config: Config, s: State, actions: seq<Action>): State
    requires config.Valid()
    decreases |actions|
  {
    if actions == [] then s else Steps(config, Step(config, s, actions[0]), actions[1..])
  }

  /** What is known when a link comes up. */
  function Known(s: State): set<string> { s.queuedUrls + s.visited }

  lemma OneFollow(config: Config, s: State, w: nat, choice: FollowChoice)
    requires config.Valid() && w < |s.workers| && s.workers[w].Following? && s.workers[w].links != []
    ensures var links, t := s.workers[w].links, Step(config, s, Follow(w, choice));
            && |t.workers| == |s.workers| && t.visited == s.visited
            && t.workers[w] == (if choice == Break || |links| == 1 then AtGet else Following(links[1..]))
            && (if choice == Take && links[0] !in Known(s)
                then t.queue == s.queue + [links[0]] && t.queuedUrls == s.queuedUrls + {links[0]}
                else t.queue == s.queue && t.queuedUrls == s.queuedUrls)
  {
  }

  lemma {:induction false} IdleFollows(config: Config, s: State, w: nat, choices: seq<FollowChoice>)
    requires config.Valid() && w < |s.workers| && !s.workers[w].Following?
    ensures Steps(config, s, Follows(w, choices)) == s
    decreases |choices|
  {
    if choices != [] {
      assert Follows(w, choices)[1..] == Follows(w, choices[1..]);
      IdleFollows(config, s, w, choices[1..]);
    }
  }

  lemma FreshStep(link: string, take: bool, rest: seq<string>, known: set<string>)
    ensures Fresh((if take then [link] else []) + rest, known)
            == if take && link !in known then [link] + Fresh(rest, known + {link}) else Fresh(rest, known)
  {
    if take {
      assert ([link] + rest)[1..] == rest;
    } else {
      assert [] + rest == rest;
    }
  }

  lemma AddedFirst(queue: seq<string>, urls: set<string>, link: string, rest: seq<string>)
    ensures (queue + [link]) + rest == queue + ([link] + rest)
    ensures (urls + {link}) + (set l | l in rest) == urls + (set l | l in [link] + rest)
  {
  }

  lemma {:induction false} FollowsQueueFresh(config: Config, s: State, w: nat, choices: seq<FollowChoice>)
    requires config.Valid() && w < |s.workers| && s.workers[w].Following? && s.workers[w].links != []
    requires |choices| == |s.workers[w].links|
    ensures var t := Steps(config, s, Follows(w, choices));
            var added := Fresh(Offered(s.workers[w].links, choices), Known(s));
            && w < |t.workers| && t.workers[w] == AtGet
            && t.queue == s.queue + added && t.queuedUrls == s.queuedUrls + (set l | l in added)
    decreases |choices|
  {
    var links, t := s.workers[w].links, Step(config, s, Follow(w, choices[0]));
    OneFollow(config, s, w, choices[0]);
    assert Follows(w, choices)[1..] == Follows(w, choices[1..]);
    if choices[0] == Break || |links| == 1 {
      IdleFollows(config, t, w, choices[1..]);
      if choices[0] != Break {
        assert Offered(links[1..], choices[1..]) == [];
        assert Offered(links, choices) == if choices[0] == Take then [links[0]] else [];
      }
    } else {
      FollowsQueueFresh(config, t, w, choices[1..]);
      FreshStep(links[0], choices[0] == Take, Offered(links[1..], choices[1..]), Known(s));
      if choices[0] == Take && links[0] !in Known(s) {
        assert Known(t) == Known(s) + {links[0]};
        AddedFirst(s.queue, s.queuedUrls, links[0], Fresh(Offered(links[1..], choices[1..]), Known(t)));
      }
    }
  }

  lemma OneRecord(config: Config, s: State, w: nat)
    requires config.Valid() && w < |s.workers| && s.workers[w].HasResult? && |s.results| < config.budget
    ensures var url, page, t := s.workers[w].url, s.workers[w].page, Step(config, s, Record(w));
            && t.results == s.results + [Result(url, page.url)] && t.visited == s.visited + {url}
            && t.queue == s.queue && t.queuedUrls == s.queuedUrls && |t.workers| == |s.workers|
            && t.workers[w] == (if page.links == [] then AtGet else Following(page.links))
  {
  }

  /**
   A result below the budget is recorded, and of its source links exactly those are queued that are taken and were
   neither queued nor visited before, each once and in order; a link that is skipped or cut off is not queued.
   */
  lemma LinksAreFollowed(config: Config, s: State, w: nat, choices: seq<FollowChoice>)
    requires config.Valid() && w < |s.workers| && s.workers[w].HasResult? && |s.results| < config.budget
    requires |choices| == |s.workers[w].page.links|
    ensures var url, page, t := s.workers[w].url, s.workers[w].page, Steps(config, s, [Record(w)] + Follows(w, choices));
            var added := Fresh(Offered(page.links, choices), s.queuedUrls + s.visited + {url});
            && w < |t.workers| && t.workers[w] == AtGet
            && t.queue == s.queue + added && t.queuedUrls == s.queuedUrls + (set l | l in added)
  {
    var t, page := Step(config, s, Record(w)), s.workers[w].page;
    OneRecord(config, s, w);
    assert ([Record(w)] + Follows(w, choices))[1..] == Follows(w, choices);
    assert Known(t) == s.queuedUrls + s.visited + {s.workers[w].url};
    if page.links == [] {
      IdleFollows(config, t, w, choices);
    } else {
      FollowsQueueFresh(config, t, w, choices);
    }
  }

  // ---- The budget stops the crawl ----

  lemma StepStopsWhenFull(config: Config, s: State, action: Action)
    requires config.Valid() && (|s.results| >= config.budget ==> s.stop)
    ensures var t := Step(config, s, action); |t.results| >= config.budget ==> t.stop
  {
  }

  /** Once the results fill the budget the crawl is stopped, and then no worker takes up another URL. */
  lemma {:induction false} FullCrawlStops(config: Config, seeds: seq<string>, actions: seq<Action>, w: nat)
    requires config.Valid()
    ensures var s := Run(config, seeds, actions);
            && (|s.results| >= config.budget ==> s.stop)
            && (s.stop && w < |s.workers| && s.workers[w].AtGet? && s.queue != [] ==>
                  var t := Step(config, s, Get(w)); InHand(t.workers[w]).None? && t.added == s.added)
  {
    if actions != [] {
      var front := actions[..|actions| - 1];
      FullCrawlStops(config, seeds, front, w);
      StepStopsWhenFull(config, Run(config, seeds, front), actions[|actions| - 1]);
    }
    GetWhenStopped(config, Run(config, seeds, actions), w);
  }

  lemma GetWhenStopped(config: Config, s: State, w: nat)
    requires config.Valid()
    ensures s.stop && w < |s.workers| && s.workers[w].AtGet? && s.queue != [] ==>
              var t := Step(config, s, Get(w)); |t.workers| == |s.workers| && InHand(t.workers[w]).None? && t.added == s.added
  {
  }

  // ---- Nobody gets stuck ----

  /** Who holds the guard is under it. */
  ghost predicate GuardHeld(s: State) {
    s.locks.guard.Some? ==> s.locks.guard.value < |s.workers| && s.workers[s.locks.guard.value].InGuard?
  }

  /** A worker that follows links has some left. */
  predicate LinksLeft(pc: Worker) { pc.Following? ==> pc.links != [] }

  ghost predicate CanProceed(s: State) {
    GuardHeld(s) && forall w :: 0 <= w < |s.workers| ==> LinksLeft(s.workers[w])
  }

  lemma StepKeepsGuardHeld(config: Config, s: State, action: Action)
    requires config.Valid() && GuardHeld(s) && GuardOk(config, s.locks, s.workers)
    ensures GuardHeld(Step(config, s, action))
  {
  }

  lemma WorkerKeepsLinksLeft(config: Config, s: State, action: Action)
    requires config.Valid() && !action.JoinReturns? && action.w < |s.workers| && LinksLeft(s.workers[action.w])
    ensures |Step(config, s, action).workers| == |s.workers| && LinksLeft(Step(config, s, action).workers[action.w])
  {
  }

  lemma StepKeepsCanProceed(config: Config, s: State, action: Action)
    requires config.Valid() && CanProceed(s) && LocksOk(config, s.locks, s.workers)
    ensures CanProceed(Step(config, s, action))
  {
    var t := Step(config, s, action);
    StepKeepsGuardHeld(config, s, action);
    if !action.JoinReturns? && action.w < |s.workers| {
      WorkerKeepsLinksLeft(config, s, action);
    }
    forall v | 0 <= v < |t.workers| ensures LinksLeft(t.workers[v]) {
      if action.JoinReturns? || v != action.w {
        OthersStay(config, s, action, v);
      }
    }
  }

  lemma {:induction false} RunCanProceed(config: Config, seeds: seq<string>, actions: seq<Action>)
    requires config.Valid()
    ensures CanProceed(Run(config, seeds, actions))
  {
    if actions != [] {
      var front := actions[..|actions| - 1];
      RunCanProceed(config, seeds, front);
      RunKeepsInv(config, seeds, front);
      StepKeepsCanProceed(config, Run(config, seeds, front), actions[|actions| - 1]);
    }
  }

  lemma {:induction false} FindOpen(workers: seq<Worker>) returns (w: nat)
    requires CountOpen(workers) > 0
    ensures w < |workers| && Open(workers[w])
  {
    w := |workers| - 1;
    if !Open(workers[w]) {
      w := FindOpen(workers[..w]);
    }
  }

  lemma {:induction false} FindHolder(workers: seq<Worker>, lock: LockId) returns (w: nat)
    requires Holders(workers, lock) > 0
    ensures w < |workers| && workers[w].Fetching? && workers[w].lock == lock
  {
    w := |workers| - 1;
    if !(workers[w].Fetching? && workers[w].lock == lock) {
      w := FindHolder(workers[..w], lock);
    }
  }

  /** A worker with an item in hand can go on, or the one it waits for can. */
  lemma OpenCanMove(config: Config, s: State, w: nat) returns (action: Action)
    requires config.Valid() && config.perDomain >= 1 && CanProceed(s) && LocksOk(config, s.locks, s.workers)
    requires w < |s.workers| && Open(s.workers[w])
    ensures !action.JoinReturns? && Step(config, s, action) != s
  {
    assert LockFits(config, s.locks, s.workers[w]);
    match s.workers[w]
    case WantGuard(_) => action := if s.locks.guard.None? then EnterGuard(w) else LeaveGuard(s.locks.guard.value);
    case InGuard(_, _) => action := LeaveGuard(w);
    case WantPermit(_, lock) =>
      if s.locks.permits[lock] > 0 {
        action := Acquire(w);
      } else {
        var v := FindHolder(s.workers, lock);
        action := FetchEnds(v, None);
      }
    case Fetching(_, _) => action := FetchEnds(w, None);
    case _ =>
  }

  /** While anything is unfinished and some worker has not stopped, some worker can take a step. */
  lemma SomeoneCanMove(config: Config, seeds: seq<string>, actions: seq<Action>, w: nat) returns (action: Action)
    requires config.Valid() && config.perDomain >= 1
    requires var s := Run(config, seeds, actions); s.unfinished > 0 && w < |s.workers| && !s.workers[w].Exited?
    ensures !action.JoinReturns? && Step(config, Run(config, seeds, actions), action) != Run(config, seeds, actions)
  {
    var s := Run(config, seeds, actions);
    RunKeepsInv(config, seeds, actions);
    RunCanProceed(config, seeds, actions);
    if CountOpen(s.workers) > 0 {
      var v := FindOpen(s.workers);
      action := OpenCanMove(config, s, v);
    } else if Open(s.workers[w]) {
      action := OpenCanMove(config, s, w);
    } else {
      action := if s.workers[w].HasResult? then Record(w) else if s.workers[w].Following? then Follow(w, Skip) else Get(w);
    }
  }

  // ---- Nobody goes on for ever ----

  /** How far a worker is from waiting for the queue again; following a link may queue an item, worth six. */
  function Distance(pc: Worker): nat {
    match pc
    case WantGuard(_) => 5
    case InGuard(_, _) => 4
    case WantPermit(_, _) => 3
    case Fetching(_, _) => 2
    case HasResult(_, _) => 1
    case Following(links) => 1 + 7 * |links|
    case _ => 0
  }

  function Distances(workers: seq<Worker>): nat {
    if workers == [] then 0 else Distances(workers[..|workers| - 1]) + Distance(workers[|workers| - 1])
  }

  function Work(s: State): nat { 6 * |s.queue| + Distances(s.workers) }

  lemma {:induction false} DistancesUpdate(workers: seq<Worker>, w: nat, pc: Worker)
    requires w < |workers|
    ensures Distances(workers[w := pc]) == Distances(workers) - Distance(workers[w]) + Distance(pc)
  {
    var front := workers[..|workers| - 1];
    if w < |workers| - 1 {
      assert workers[w := pc][..|workers| - 1] == front[w := pc];
      DistancesUpdate(front, w, pc);
    } else {
      assert workers[w := pc][..|workers| - 1] == front;
    }
  }

  /** Worker w has added a result, or has come closer. */
  ghost predicate Closer(config: Config, s: State, t: State, w: nat) {
    && w < |s.workers| && |t.workers| == |s.workers| && t.workers == s.workers[w := t.workers[w]]
    && ((|t.results| == |s.results| + 1 && |t.results| <= config.budget)
        || (t.results == s.results && 6 * |t.queue| + Distance(t.workers[w]) < 6 * |s.queue| + Distance(s.workers[w])))
  }

  lemma GetComesCloser(config: Config, s: State, w: nat)
    requires CanGet(config, s, w)
    ensures Closer(config, s, GetStep(config, s, w), w)
  {
  }

  lemma FollowComesCloser(config: Config, s: State, w: nat, choice: FollowChoice)
    requires w < |s.workers| && s.workers[w].Following? && s.workers[w].links != []
    ensures Closer(config, s, FollowStep(s, w, choice), w)
  {
  }

  /** What one step of a worker does to the queue and its own distance. */
  lemma StepComesCloser(config: Config, s: State, action: Action)
    requires config.Valid() && !action.JoinReturns? && Step(config, s, action) != s
    ensures Closer(config, s, Step(config, s, action), action.w)
  {
    match action
    case Get(w) => GetComesCloser(config, s, w);
    case Follow(w, choice) => FollowComesCloser(config, s, w, choice);
    case _ =>
  }

  /** A step adds a result, of which there are at most `budget`, or leaves less work. */
  lemma StepLeavesLess(config: Config, s: State, action: Action)
    requires config.Valid() && !action.JoinReturns? && Step(config, s, action) != s
    ensures var t := Step(config, s, action);
            || (|t.results| == |s.results| + 1 && |t.results| <= config.budget)
            || (t.results == s.results && Work(t) < Work(s))
  {
    StepComesCloser(config, s, action);
    DistancesUpdate(s.workers, action.w, Step(config, s, action).workers[action.w]);
  }

  type Schedule = nat -> Action

  ghost function Prefix(schedule: Schedule, k: nat): seq<Action> {
    if k == 0 then [] else Prefix(schedule, k - 1) + [schedule(k - 1)]
  }

  /** The state after the first k actions of a schedule. */
  ghost function After(config: Config, seeds: seq<string>, schedule: Schedule, k: nat): State
    requires config.Valid()
  {
    Run(config, seeds, Prefix(schedule, k))
  }

  lemma NextLeavesLess(config: Config, seeds: seq<string>, schedule: Schedule, i: nat)
    requires config.Valid() && !schedule(i).JoinReturns?
    requires After(config, seeds, schedule, i + 1) != After(config, seeds, schedule, i)
    ensures var t, u := After(config, seeds, schedule, i), After(config, seeds, schedule, i + 1);
            || (|u.results| == |t.results| + 1 && |u.results| <= config.budget)
            || (u.results == t.results && Work(u) < Work(t))
  {
    RunExtends(config, seeds, Prefix(schedule, i), schedule(i));
    StepLeavesLess(config, After(config, seeds, schedule, i), schedule(i));
  }

  /** Whatever the workers do and fetch, at some point from i on a step changes nothing. */
  lemma {:induction false} WorkRunsOut(config: Config, seeds: seq<string>, schedule: Schedule, i: nat) returns (k: nat)
    requires config.Valid() && forall j: nat :: !schedule(j).JoinReturns?
    requires |After(config, seeds, schedule, i).results| <= config.budget
    ensures After(config, seeds, schedule, k + 1) == After(config, seeds, schedule, k)
    decreases config.budget - |After(config, seeds, schedule, i).results|, Work(After(config, seeds, schedule, i))
  {
    k := i;
    if After(config, seeds, schedule, i + 1) != After(config, seeds, schedule, i) {
      NextLeavesLess(config, seeds, schedule, i);
      k := WorkRunsOut(config, seeds, schedule, i + 1);
    }
  }

  /** Some worker can take a step. */
  ghost predicate Movable(config: Config, s: State)
    requires config.Valid()
  {
    exists action: Action :: !action.JoinReturns? && Step(config, s, action) != s
  }

  lemma {:induction false} PrefixIsSchedule(schedule: Schedule, k: nat)
    ensures |Prefix(schedule, k)| == k && forall i :: 0 <= i < k ==> Prefix(schedule, k)[i] == schedule(i)
  {
    if k > 0 {
      PrefixIsSchedule(schedule, k - 1);
    }
  }

  lemma StepPosts(config: Config, s: State, action: Action)
    requires config.Valid() && !action.JoinReturns?
    ensures Step(config, s, action).posted == s.posted
  {
  }

  /** Only the main task posts sentinels. */
  lemma {:induction false} WorkersPostNothing(config: Config, seeds: seq<string>, actions: seq<Action>)
    requires config.Valid() && forall i :: 0 <= i < |actions| ==> !actions[i].JoinReturns?
    ensures !Run(config, seeds, actions).posted
  {
    if actions != [] {
      var front := actions[..|actions| - 1];
      WorkersPostNothing(config, seeds, front);
      StepPosts(config, Run(config, seeds, front), actions[|actions| - 1]);
    }
  }

  /**
   The wait for the queue ends: with no empty URL among seeds and links, however the workers' steps follow each
   other, as long as one of them moves while one can, there comes a time when nothing is unfinished.
   */
  lemma QueueIsFinished(config: Config, seeds: seq<string>, schedule: Schedule) returns (k: nat)
    requires config.Valid() && config.workers >= 1 && config.perDomain >= 1 && "" !in seeds
    requires forall i: nat :: !schedule(i).JoinReturns?
    requires forall i: nat :: schedule(i).FetchEnds? && schedule(i).page.Some? ==> "" !in schedule(i).page.value.links
    requires forall i: nat :: Movable(config, After(config, seeds, schedule, i)) ==>
               After(config, seeds, schedule, i + 1) != After(config, seeds, schedule, i)
    ensures After(config, seeds, schedule, k).unfinished == 0
  {
    k := WorkRunsOut(config, seeds, schedule, 0);
    var s, actions := After(config, seeds, schedule, k), Prefix(schedule, k);
    PrefixIsSchedule(schedule, k);
    WorkersPostNothing(config, seeds, actions);
    OneSentinelEach(config, seeds, actions);
    RunKeepsInv(config, seeds, actions);
    if s.unfinished > 0 {
      var action := SomeoneCanMove(config, seeds, actions, 0);
      assert Movable(config, s);
    }
  }
}

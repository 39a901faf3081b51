/**
 crawler/run.py: workers take candidates from a shared queue, let a Bloom filter turn away URLs that were
 seen, fetch under a per-domain semaphore kept in a table under a guard lock, and record results up to a budget;
 the main task waits for the queue and then sends one stop sentinel (an empty URL) per worker. Everything between
 two awaits is one atomic step; what happens under the guard is two. Fetch results with their final URLs, source
 links and the source budget are arbitrary.
 */
module Crawler {
  import opened Common
  import opened Dedupe

  datatype Config = Config(workers: nat, perDomain: nat, budget: nat, hostOf: string -> string,
                           digest: Digest, hashes: nat, size: nat)
  {
    predicate Valid() { size > 0 && budget >= 1 }
  }

  /** Where a worker is suspended. */
  datatype Worker =
    | AtGet                                     // await queue.get()
    | WantGuard(url: string)                    // past the filter, waiting for the guard in _get_domain_lock
    | InGuard(url: string, found: Option<LockId>)  // holding the guard, with what the table has for the domain
    | WantPermit(url: string, lock: LockId)     // waiting for a permit of the semaphore it was given
    | Fetching(url: string, lock: LockId)       // inside _fetch_single, holding a permit
    | HasResult(url: string, page: Page)        // waiting for the results lock
    | Following(links: seq<string>)             // in _handle_sources
    | Exited

  type LockId = nat

  /** What a fetch of a URL gave: the URL after redirects, and the source links. */
  datatype Page = Page(url: string, links: seq<string>)

  datatype Result = Result(requested: string, url: string)

  /**
   The guard with its holder, the table `_domain_locks`, and the permits left in each semaphore ever made. `owners`
   is a history variable: the domain each semaphore was made for.
   */
  datatype Locks = Locks(guard: Option<nat>, table: map<string, LockId>, permits: seq<nat>, owners: seq<string>)

  /**
   `posted`: the sentinels are sent. History variables: `fetched`, the URLs handed to _fetch_single, in order, and
   `early`, how many candidates with an empty URL were queued, each of which acts as a sentinel.
   */
  datatype State = State(
    queue: seq<string>,
    unfinished: int,
    stop: bool,
    added: set<string>,
    visited: set<string>,
    results: seq<Result>,
    queuedUrls: set<string>,
    workers: seq<Worker>,
    posted: bool,
    locks: Locks,
    fetched: seq<string>,
    early: nat)

  const NO_LOCKS := Locks(None, map[], [], [])

  function Initial(config: Config, seeds: seq<string>): State {
    State(seeds, |seeds|, false, {}, {}, [], set u | u in seeds, seq(config.workers, _ => AtGet), false, NO_LOCKS, [],
          CountStops(seeds))
  }

  /** What the Bloom filter answers. */
  ghost predicate InFilter(config: Config, added: set<string>, url: string)
    requires config.Valid()
  {
    PositionSet(config.digest, config.hashes, config.size, url)
    <= Footprint(config.digest, config.hashes, config.size, added)
  }

  // ---- Counting ----

  function CountFetching(workers: seq<Worker>, hostOf: string -> string, host: string): nat {
    if workers == [] then 0
    else
      var last := workers[|workers| - 1];
      CountFetching(workers[..|workers| - 1], hostOf, host)
      + (if last.Fetching? && hostOf(last.url) == host then 1 else 0)
  }

  /** Workers that hold a permit of a semaphore. */
  function Holders(workers: seq<Worker>, lock: LockId): nat {
    if workers == [] then 0
    else
      var last := workers[|workers| - 1];
      Holders(workers[..|workers| - 1], lock) + (if last.Fetching? && last.lock == lock then 1 else 0)
  }

  predicate Open(pc: Worker) { pc.WantGuard? || pc.InGuard? || pc.WantPermit? || pc.Fetching? }

  /** Workers that hold an item they have not reported done. */
  function CountOpen(workers: seq<Worker>): nat {
    if workers == [] then 0
    else
      var last := workers[|workers| - 1];
      CountOpen(workers[..|workers| - 1]) + (if Open(last) then 1 else 0)
  }

  function CountExited(workers: seq<Worker>): nat {
    if workers == [] then 0
    else CountExited(workers[..|workers| - 1]) + (if workers[|workers| - 1].Exited? then 1 else 0)
  }

  function CountStops(queue: seq<string>): nat {
    if queue == [] then 0 else CountStops(queue[..|queue| - 1]) + (if queue[|queue| - 1] == "" then 1 else 0)
  }

  // ---- Steps ----

  datatype FollowChoice = Take | Skip | Break

  datatype Action =
    | Get(w: nat)
    | EnterGuard(w: nat)                              // acquire the guard and look the domain up
    | LeaveGuard(w: nat)                              // make a semaphore if there is none, and release the guard
    | Acquire(w: nat)                                 // get a permit
    | FetchEnds(w: nat, page: Option<Page>)           // None: no result
    | Record(w: nat)
    | Follow(w: nat, choice: FollowChoice)            // one source link, or the source budget is spent
    | JoinReturns                                     // queue.join(), stop event and sentinels

  function SetWorker(s: State, w: nat, pc: Worker): State
    requires w < |s.workers|
  {
    s.(workers := s.workers[w := pc])
  }

  /** The worker loop from queue.get() to the next await. */
  ghost function GetStep(config: Config, s: State, w: nat): State
    requires config.Valid() && w < |s.workers| && s.queue != []
  {
    var url, t := s.queue[0], s.(queue := s.queue[1..]);
    if url == "" then SetWorker(t.(unfinished := t.unfinished - 1), w, Exited)
    else if s.stop || InFilter(config, s.added, url) then t.(unfinished := t.unfinished - 1)
    else if url in s.visited then t.(unfinished := t.unfinished - 1, added := s.added + {url})
    else SetWorker(t.(added := s.added + {url}), w, WantGuard(url))
  }

  function Lookup(table: map<string, LockId>, domain: string): Option<LockId> {
    if domain in table then Some(table[domain]) else None
  }

  function EnterGuardStep(config: Config, s: State, w: nat): State
    requires w < |s.workers| && s.workers[w].WantGuard?
  {
    var url := s.workers[w].url;
    SetWorker(s.(locks := s.locks.(guard := Some(w))), w, InGuard(url, Lookup(s.locks.table, config.hostOf(url))))
  }

  /** A new semaphore for a domain. */
  function NewLock(config: Config, l: Locks, domain: string): Locks {
    Locks(l.guard, l.table[domain := |l.permits|], l.permits + [config.perDomain], l.owners + [domain])
  }

  function LeaveGuardStep(config: Config, s: State, w: nat): State
    requires w < |s.workers| && s.workers[w].InGuard?
  {
    var url, found := s.workers[w].url, s.workers[w].found;
    if found.Some? then SetWorker(s.(locks := s.locks.(guard := None)), w, WantPermit(url, found.value))
    else
      SetWorker(s.(locks := NewLock(config, s.locks, config.hostOf(url)).(guard := None)), w,
                WantPermit(url, |s.locks.permits|))
  }

  predicate CanAcquire(s: State, w: nat) {
    w < |s.workers| && s.workers[w].WantPermit? && s.workers[w].lock < |s.locks.permits|
    && s.locks.permits[s.workers[w].lock] > 0
  }

  function AcquireStep(s: State, w: nat): State
    requires CanAcquire(s, w)
  {
    var url, lock, permits := s.workers[w].url, s.workers[w].lock, s.locks.permits;
    SetWorker(s.(fetched := s.fetched + [url], locks := s.locks.(permits := permits[lock := permits[lock] - 1])), w,
              Fetching(url, lock))
  }

  predicate CanRelease(s: State, w: nat) {
    w < |s.workers| && s.workers[w].Fetching? && s.workers[w].lock < |s.locks.permits|
  }

  function FetchEndsStep(s: State, w: nat, page: Option<Page>): State
    requires CanRelease(s, w)
  {
    var url, lock, permits := s.workers[w].url, s.workers[w].lock, s.locks.permits;
    SetWorker(s.(unfinished := s.unfinished - 1, locks := s.locks.(permits := permits[lock := permits[lock] + 1])), w,
              if page.Some? then HasResult(url, page.value) else AtGet)
  }

  function RecordStep(config: Config, s: State, w: nat): State
    requires w < |s.workers| && s.workers[w].HasResult?
  {
    var url, page := s.workers[w].url, s.workers[w].page;
    if |s.results| >= config.budget then SetWorker(s.(stop := true), w, AtGet)
    else
      SetWorker(s.(results := s.results + [Result(url, page.url)], visited := s.visited + {url},
                   stop := s.stop || |s.results| + 1 >= config.budget),
                w, if page.links == [] then AtGet else Following(page.links))
  }

  /** A source link becomes a candidate. */
  function Queued(s: State, link: string): State {
    s.(queuedUrls := s.queuedUrls + {link}, queue := s.queue + [link], unfinished := s.unfinished + 1,
       early := s.early + (if link == "" then 1 else 0))
  }

  function FollowStep(s: State, w: nat, choice: FollowChoice): State
    requires w < |s.workers| && s.workers[w].Following? && s.workers[w].links != []
  {
    var link, rest := s.workers[w].links[0], s.workers[w].links[1..];
    var t := if choice != Take || link in s.queuedUrls || link in s.visited then s else Queued(s, link);
    SetWorker(t, w, if choice == Break || rest == [] then AtGet else Following(rest))
  }

  function Stops(n: nat): seq<string> { if n == 0 then [] else Stops(n - 1) + [""] }

  function JoinStep(s: State): State {
    s.(stop := true, queue := s.queue + Stops(|s.workers|), unfinished := s.unfinished + |s.workers|, posted := true)
  }

  /** An action that is not possible leaves the state alone. join() may return at any time here, which allows more runs. */
  ghost function Step(config: Config, s: State, action: Action): State
    requires config.Valid()
  {
    match action
    case Get(w) => if w < |s.workers| && s.workers[w].AtGet? && s.queue != [] then GetStep(config, s, w) else s
    case EnterGuard(w) =>
      if w < |s.workers| && s.workers[w].WantGuard? && s.locks.guard.None? then EnterGuardStep(config, s, w) else s
    case LeaveGuard(w) => if w < |s.workers| && s.workers[w].InGuard? then LeaveGuardStep(config, s, w) else s
    case Acquire(w) => if CanAcquire(s, w) then AcquireStep(s, w) else s
    case FetchEnds(w, page) => if CanRelease(s, w) then FetchEndsStep(s, w, page) else s
    case Record(w) => if w < |s.workers| && s.workers[w].HasResult? then RecordStep(config, s, w) else s
    case Follow(w, choice) =>
      if w < |s.workers| && s.workers[w].Following? && s.workers[w].links != [] then FollowStep(s, w, choice) else s
    case JoinReturns => if s.posted then s else JoinStep(s)
  }

  ghost function Run(config: Config, seeds: seq<string>, actions: seq<Action>): State
    requires config.Valid()
  {
    if actions == [] then Initial(config, seeds)
    else Step(config, Run(config, seeds, actions[..|actions| - 1]), actions[|actions| - 1])
  }

  // ---- Invariants ----

  /** The URL a worker has in hand between the filter and the results. */
  function InHand(pc: Worker): Option<string> {
    if Open(pc) || pc.HasResult? then Some(pc.url) else None
  }

  ghost predicate HandsApart(workers: seq<Worker>) {
    forall v, w :: 0 <= v < w < |workers| && InHand(workers[v]).Some? ==> InHand(workers[v]) != InHand(workers[w])
  }

  ghost predicate HandOk(s: State, pc: Worker) {
    if pc.WantGuard? || pc.InGuard? || pc.WantPermit? then pc.url in s.added && pc.url !in s.fetched
    else pc.Fetching? || pc.HasResult? ==> pc.url in s.fetched && pc.url !in s.visited
  }

  /** No URL is fetched twice: what was fetched is in the filter, and no two workers have the same URL in hand. */
  ghost predicate OnceOnly(s: State) {
    && Distinct(s.fetched) && (forall u :: u in s.fetched ==> u in s.added)
    && (forall w :: 0 <= w < |s.workers| ==> HandOk(s, s.workers[w]))
    && HandsApart(s.workers)
  }

  ghost predicate DistinctRequests(results: seq<Result>) {
    forall i, j :: 0 <= i < j < |results| ==> results[i].requested != results[j].requested
  }

  ghost predicate ResultsOk(config: Config, s: State) {
    && |s.results| <= config.budget && DistinctRequests(s.results)
    && s.visited == (set r | r in s.results :: r.requested)
    && (forall u :: u in s.visited ==> u in s.fetched)
  }

  ghost predicate Counts(config: Config, s: State) {
    && |s.workers| == config.workers
    && s.unfinished == |s.queue| + CountOpen(s.workers)
    && CountStops(s.queue) + CountExited(s.workers) == s.early + (if s.posted then config.workers else 0)
  }

  /** The table and the semaphores name each other: a domain has at most one. */
  ghost predicate TableOk(l: Locks) {
    && |l.permits| == |l.owners|
    && (forall domain :: domain in l.table ==> l.table[domain] < |l.owners| && l.owners[l.table[domain]] == domain)
    && (forall id :: 0 <= id < |l.owners| ==> l.owners[id] in l.table && l.table[l.owners[id]] == id)
  }

  /** Whoever is under the guard holds it, and what it found is still what the table has. */
  ghost predicate GuardOk(config: Config, l: Locks, workers: seq<Worker>) {
    forall w :: 0 <= w < |workers| && workers[w].InGuard? ==>
      l.guard == Some(w) && workers[w].found == Lookup(l.table, config.hostOf(workers[w].url))
  }

  /** A worker's semaphore is its domain's. */
  predicate LockFits(config: Config, l: Locks, pc: Worker) {
    pc.WantPermit? || pc.Fetching? ==> pc.lock < |l.owners| && l.owners[pc.lock] == config.hostOf(pc.url)
  }

  ghost predicate LocksFit(config: Config, l: Locks, workers: seq<Worker>) {
    forall w :: 0 <= w < |workers| ==> LockFits(config, l, workers[w])
  }

  /** Permits left and permits held add up to the size of the semaphore. */
  ghost predicate PermitsOk(config: Config, l: Locks, workers: seq<Worker>) {
    forall id :: 0 <= id < |l.permits| ==> l.permits[id] + Holders(workers, id) == config.perDomain
  }

  ghost predicate LocksOk(config: Config, l: Locks, workers: seq<Worker>) {
    TableOk(l) && GuardOk(config, l, workers) && LocksFit(config, l, workers) && PermitsOk(config, l, workers)
  }

  ghost predicate Inv(config: Config, s: State) {
    OnceOnly(s) && ResultsOk(config, s) && Counts(config, s) && LocksOk(config, s.locks, s.workers)
  }

  // ---- Counting lemmas ----

  lemma {:induction false} HoldersUpdate(workers: seq<Worker>, w: nat, pc: Worker, lock: LockId)
    requires w < |workers|
    ensures Holders(workers[w := pc], lock)
            == Holders(workers, lock) - (if workers[w].Fetching? && workers[w].lock == lock then 1 else 0)
               + (if pc.Fetching? && pc.lock == lock then 1 else 0)
  {
    var front := workers[..|workers| - 1];
    if w < |workers| - 1 {
      assert workers[w := pc][..|workers| - 1] == front[w := pc];
      HoldersUpdate(front, w, pc, lock);
    } else {
      assert workers[w := pc][..|workers| - 1] == front;
    }
  }

  lemma {:induction false} NoHolders(workers: seq<Worker>, lock: LockId)
    requires forall w :: 0 <= w < |workers| && workers[w].Fetching? ==> workers[w].lock != lock
    ensures Holders(workers, lock) == 0
  {
    if workers != [] {
      NoHolders(workers[..|workers| - 1], lock);
    }
  }

  /** The fetches of a domain are the holders of its semaphore, and there are none without one. */
  lemma {:induction false} FetchesHoldPermits(config: Config, l: Locks, workers: seq<Worker>, host: string)
    requires TableOk(l) && LocksFit(config, l, workers)
    ensures CountFetching(workers, config.hostOf, host) == if host in l.table then Holders(workers, l.table[host]) else 0
  {
    if workers != [] {
      FetchesHoldPermits(config, l, workers[..|workers| - 1], host);
      assert LockFits(config, l, workers[|workers| - 1]);
    }
  }

  lemma {:induction false} CountOpenUpdate(workers: seq<Worker>, w: nat, pc: Worker)
    requires w < |workers|
    ensures CountOpen(workers[w := pc])
            == CountOpen(workers) - (if Open(workers[w]) then 1 else 0) + (if Open(pc) then 1 else 0)
    ensures CountExited(workers[w := pc])
            == CountExited(workers) - (if workers[w].Exited? then 1 else 0) + (if pc.Exited? then 1 else 0)
  {
    var front := workers[..|workers| - 1];
    if w < |workers| - 1 {
      assert workers[w := pc][..|workers| - 1] == front[w := pc];
      CountOpenUpdate(front, w, pc);
    } else {
      assert workers[w := pc][..|workers| - 1] == front;
    }
  }

  lemma {:induction false} CountStopsConcat(a: seq<string>, b: seq<string>)
    ensures CountStops(a + b) == CountStops(a) + CountStops(b)
  {
    if b == [] {
      assert a + b == a;
    } else {
      assert (a + b)[..|a + b| - 1] == a + b[..|b| - 1];
      CountStopsConcat(a, b[..|b| - 1]);
    }
  }

  lemma CountStopsRest(queue: seq<string>)
    requires queue != []
    ensures CountStops(queue) == (if queue[0] == "" then 1 else 0) + CountStops(queue[1..])
  {
    assert queue == [queue[0]] + queue[1..];
    assert [queue[0]][..0] == [];
    CountStopsConcat([queue[0]], queue[1..]);
  }

  lemma {:induction false} StopsAreStops(n: nat)
    ensures |Stops(n)| == n && CountStops(Stops(n)) == n
  {
    if n > 0 {
      StopsAreStops(n - 1);
      assert Stops(n)[..n - 1] == Stops(n - 1);
    }
  }

  /** The filter has no false negatives. */
  lemma AddedIsInFilter(config: Config, added: set<string>, url: string)
    requires config.Valid() && url in added
    ensures InFilter(config, added, url)
  {
  }

  // ---- Every step keeps OnceOnly ----

  /** One worker moves on with the URL it has in hand, or lets go of it; only its own URL is fetched or visited. */
  lemma WorkerMovesOn(s: State, t: State, w: nat, pc: Worker)
    requires OnceOnly(s) && w < |s.workers| && t.workers == s.workers[w := pc] && HandOk(t, pc)
    requires InHand(pc) == None || InHand(pc) == InHand(s.workers[w])
    requires t.added == s.added
    requires t.fetched == s.fetched || (InHand(s.workers[w]).Some? && t.fetched == s.fetched + [InHand(s.workers[w]).value])
    requires t.visited == s.visited || (InHand(s.workers[w]).Some? && t.visited == s.visited + {InHand(s.workers[w]).value})
    ensures forall v :: 0 <= v < |t.workers| ==> HandOk(t, t.workers[v])
    ensures HandsApart(t.workers)
  {
    forall v | 0 <= v < |t.workers| ensures HandOk(t, t.workers[v]) {
      if v != w {
        assert HandOk(s, s.workers[v]);
        assert InHand(s.workers[v]).Some? ==> InHand(s.workers[v]) != InHand(s.workers[w]);
      }
    }
  }

  /** A worker takes up a URL that was never in the filter. */
  lemma WorkerTakesUp(s: State, t: State, w: nat, url: string)
    requires OnceOnly(s) && w < |s.workers| && InHand(s.workers[w]) == None
    requires url !in s.added && forall u :: u in s.visited ==> u in s.fetched
    requires t.workers == s.workers[w := WantGuard(url)] && t.added == s.added + {url}
    requires t.fetched == s.fetched && t.visited == s.visited
    ensures OnceOnly(t)
  {
    forall v | 0 <= v < |s.workers| && v != w ensures InHand(s.workers[v]) != Some(url) && HandOk(t, t.workers[v]) {
      assert HandOk(s, s.workers[v]);
    }
  }

  lemma GetKeepsOnceOnly(config: Config, s: State, w: nat)
    requires config.Valid() && OnceOnly(s) && ResultsOk(config, s)
    requires w < |s.workers| && s.workers[w].AtGet? && s.queue != []
    ensures OnceOnly(GetStep(config, s, w))
  {
    var t, url := GetStep(config, s, w), s.queue[0];
    if t.workers != s.workers && url != "" {
      if url in s.added { AddedIsInFilter(config, s.added, url); }
      WorkerTakesUp(s, t, w, url);
    } else if url == "" {
      WorkerMovesOn(s, t, w, Exited);
    } else {
      assert forall v :: 0 <= v < |s.workers| ==> HandOk(s, s.workers[v]);
      assert t.workers == s.workers && t.fetched == s.fetched && t.visited == s.visited && s.added <= t.added;
    }
  }

  /** On the way to the fetch a worker keeps its URL in hand. */
  lemma LockingKeepsOnceOnly(config: Config, s: State, action: Action)
    requires config.Valid() && OnceOnly(s) && ResultsOk(config, s)
    requires action.EnterGuard? || action.LeaveGuard? || action.Acquire?
    ensures OnceOnly(Step(config, s, action))
  {
    var t, w := Step(config, s, action), action.w;
    if t == s { return; }
    assert HandOk(s, s.workers[w]);
    WorkerMovesOn(s, t, w, t.workers[w]);
  }

  /** Later it keeps the URL or drops it. */
  lemma FetchedKeepsOnceOnly(config: Config, s: State, action: Action)
    requires config.Valid() && OnceOnly(s) && ResultsOk(config, s)
    requires action.FetchEnds? || action.Record? || action.Follow?
    ensures OnceOnly(Step(config, s, action))
  {
    var t, w := Step(config, s, action), action.w;
    if t == s { return; }
    assert HandOk(s, s.workers[w]);
    WorkerMovesOn(s, t, w, t.workers[w]);
  }

  lemma StepKeepsOnceOnly(config: Config, s: State, action: Action)
    requires config.Valid() && OnceOnly(s) && ResultsOk(config, s)
    ensures OnceOnly(Step(config, s, action))
  {
    match action
    case Get(w) => if Step(config, s, action) != s { GetKeepsOnceOnly(config, s, w); }
    case JoinReturns =>
      assert forall v :: 0 <= v < |s.workers| ==> HandOk(s, s.workers[v]);
    case FetchEnds(_, _) => FetchedKeepsOnceOnly(config, s, action);
    case Record(_) => FetchedKeepsOnceOnly(config, s, action);
    case Follow(_, _) => FetchedKeepsOnceOnly(config, s, action);
    case _ => LockingKeepsOnceOnly(config, s, action);
  }

  lemma RecordKeepsResults(config: Config, s: State, w: nat)
    requires OnceOnly(s) && ResultsOk(config, s) && w < |s.workers| && s.workers[w].HasResult?
    ensures ResultsOk(config, RecordStep(config, s, w))
  {
    var t := RecordStep(config, s, w);
    assert HandOk(s, s.workers[w]);
    forall i | 0 <= i < |s.results| ensures s.results[i].requested != s.workers[w].url {
      assert s.results[i] in s.results;
    }
    if t.results != s.results {
      assert (set r | r in t.results :: r.requested) == s.visited + {s.workers[w].url};
    }
  }

  lemma StepKeepsResults(config: Config, s: State, action: Action)
    requires config.Valid() && OnceOnly(s) && ResultsOk(config, s)
    ensures ResultsOk(config, Step(config, s, action))
  {
    var t := Step(config, s, action);
    if action.Record? && t != s {
      RecordKeepsResults(config, s, action.w);
    } else {
      assert t.results == s.results && t.visited == s.visited && s.fetched <= t.fetched;
    }
  }

  // ---- Every step keeps the counts ----

  lemma GetKeepsCounts(config: Config, s: State, w: nat)
    requires config.Valid() && Counts(config, s) && w < |s.workers| && s.workers[w].AtGet? && s.queue != []
    ensures Counts(config, GetStep(config, s, w))
  {
    var t := GetStep(config, s, w);
    CountStopsRest(s.queue);
    CountOpenUpdate(s.workers, w, t.workers[w]);
    assert s.workers[w := s.workers[w]] == s.workers;
  }

  lemma FollowKeepsCounts(config: Config, s: State, w: nat, choice: FollowChoice)
    requires Counts(config, s) && w < |s.workers| && s.workers[w].Following? && s.workers[w].links != []
    ensures Counts(config, FollowStep(s, w, choice))
  {
    var t, link := FollowStep(s, w, choice), s.workers[w].links[0];
    assert [link][..0] == [];
    CountOpenUpdate(s.workers, w, t.workers[w]);
    CountStopsConcat(s.queue, [link]);
  }

  lemma JoinKeepsCounts(config: Config, s: State)
    requires Counts(config, s) && !s.posted
    ensures Counts(config, JoinStep(s))
  {
    StopsAreStops(|s.workers|);
    CountStopsConcat(s.queue, Stops(|s.workers|));
  }

  /** A step that changes one worker and not the queue. */
  lemma MoveKeepsCounts(config: Config, s: State, t: State, w: nat, pc: Worker)
    requires Counts(config, s) && w < |s.workers| && t.workers == s.workers[w := pc]
    requires t.queue == s.queue && t.early == s.early && t.posted == s.posted
    requires pc.Exited? == s.workers[w].Exited?
    requires t.unfinished == s.unfinished - (if Open(s.workers[w]) then 1 else 0) + (if Open(pc) then 1 else 0)
    ensures Counts(config, t)
  {
    CountOpenUpdate(s.workers, w, pc);
  }

  lemma StepKeepsCounts(config: Config, s: State, action: Action)
    requires config.Valid() && Counts(config, s)
    ensures Counts(config, Step(config, s, action))
  {
    var t := Step(config, s, action);
    if t == s { return; }
    match action
    case Get(w) => GetKeepsCounts(config, s, w);
    case Follow(w, choice) => FollowKeepsCounts(config, s, w, choice);
    case JoinReturns => JoinKeepsCounts(config, s);
    case _ => MoveKeepsCounts(config, s, t, action.w, t.workers[action.w]);
  }

  // ---- Every step keeps the locks ----

  /** One worker moves without gaining or losing a permit, and not under the guard. */
  lemma MoveKeepsLocks(config: Config, l: Locks, workers: seq<Worker>, w: nat, pc: Worker)
    requires LocksOk(config, l, workers) && w < |workers|
    requires !workers[w].Fetching? && !pc.Fetching? && !pc.InGuard? && LockFits(config, l, pc)
    ensures LocksOk(config, l, workers[w := pc])
  {
    forall id | 0 <= id < |l.permits| ensures l.permits[id] + Holders(workers[w := pc], id) == config.perDomain {
      HoldersUpdate(workers, w, pc, id);
    }
  }

  lemma EnterGuardKeepsLocks(config: Config, s: State, w: nat)
    requires LocksOk(config, s.locks, s.workers) && w < |s.workers| && s.workers[w].WantGuard? && s.locks.guard.None?
    ensures var t := EnterGuardStep(config, s, w); LocksOk(config, t.locks, t.workers)
  {
    var t := EnterGuardStep(config, s, w);
    forall id | 0 <= id < |t.locks.permits| ensures t.locks.permits[id] + Holders(t.workers, id) == config.perDomain {
      HoldersUpdate(s.workers, w, t.workers[w], id);
    }
  }

  /** Leaving with the semaphore that was found. */
  lemma LeaveWithFound(config: Config, l: Locks, workers: seq<Worker>, w: nat)
    requires LocksOk(config, l, workers) && w < |workers| && workers[w].InGuard? && workers[w].found.Some?
    ensures LocksOk(config, l.(guard := None), workers[w := WantPermit(workers[w].url, workers[w].found.value)])
  {
    var pc := WantPermit(workers[w].url, workers[w].found.value);
    MoveKeepsLocks(config, l, workers, w, pc);
  }

  /** Making a semaphore: nobody holds it yet, and the guard has kept others from making one for the domain. */
  lemma NewLockKeepsLocks(config: Config, l: Locks, workers: seq<Worker>, domain: string)
    requires LocksOk(config, l, workers) && domain !in l.table
    requires forall v :: 0 <= v < |workers| ==> !workers[v].InGuard?
    ensures LocksOk(config, NewLock(config, l, domain), workers)
  {
    var n := NewLock(config, l, domain);
    forall v | 0 <= v < |workers| ensures LockFits(config, n, workers[v]) {
      assert LockFits(config, l, workers[v]);
    }
    forall v | 0 <= v < |workers| && workers[v].Fetching? ensures workers[v].lock != |l.permits| {
      assert LockFits(config, l, workers[v]);
    }
    NoHolders(workers, |l.permits|);
  }

  lemma LeaveGuardKeepsLocks(config: Config, s: State, w: nat)
    requires LocksOk(config, s.locks, s.workers) && w < |s.workers| && s.workers[w].InGuard?
    ensures var t := LeaveGuardStep(config, s, w); LocksOk(config, t.locks, t.workers)
  {
    if s.workers[w].found.Some? {
      LeaveWithFound(config, s.locks, s.workers, w);
    } else {
      var url, domain := s.workers[w].url, config.hostOf(s.workers[w].url);
      MoveKeepsLocks(config, s.locks, s.workers, w, AtGet);
      var idle := s.workers[w := AtGet];
      NewLockKeepsLocks(config, s.locks, idle, domain);
      MoveKeepsLocks(config, NewLock(config, s.locks, domain), idle, w, WantPermit(url, |s.locks.permits|));
      assert idle[w := WantPermit(url, |s.locks.permits|)] == s.workers[w := WantPermit(url, |s.locks.permits|)];
    }
  }

  /** A permit changes hands: one fewer left and one more held, or the other way round. */
  lemma PermitMoves(config: Config, l: Locks, workers: seq<Worker>, w: nat, pc: Worker, lock: LockId, left: nat)
    requires LocksOk(config, l, workers) && w < |workers| && lock < |l.permits|
    requires !workers[w].InGuard? && !pc.InGuard? && LockFits(config, l, pc)
    requires pc.Fetching? ==> pc.lock == lock
    requires workers[w].Fetching? ==> workers[w].lock == lock
    requires left + (if pc.Fetching? then 1 else 0) == l.permits[lock] + (if workers[w].Fetching? then 1 else 0)
    ensures LocksOk(config, l.(permits := l.permits[lock := left]), workers[w := pc])
  {
    var m, after := l.(permits := l.permits[lock := left]), workers[w := pc];
    forall id | 0 <= id < |m.permits| ensures m.permits[id] + Holders(after, id) == config.perDomain {
      HoldersUpdate(workers, w, pc, id);
      assert l.permits[id] + Holders(workers, id) == config.perDomain;
    }
    forall v | 0 <= v < |after| ensures LockFits(config, m, after[v]) {
      assert LockFits(config, l, workers[v]);
    }
  }

  lemma AcquireKeepsLocks(config: Config, s: State, w: nat)
    requires LocksOk(config, s.locks, s.workers) && CanAcquire(s, w)
    ensures var t := AcquireStep(s, w); LocksOk(config, t.locks, t.workers)
  {
    var lock := s.workers[w].lock;
    assert LockFits(config, s.locks, s.workers[w]);
    PermitMoves(config, s.locks, s.workers, w, Fetching(s.workers[w].url, lock), lock, s.locks.permits[lock] - 1);
  }

  lemma ReleaseKeepsLocks(config: Config, s: State, w: nat, page: Option<Page>)
    requires LocksOk(config, s.locks, s.workers) && CanRelease(s, w)
    ensures var t := FetchEndsStep(s, w, page); LocksOk(config, t.locks, t.workers)
  {
    var lock, pc := s.workers[w].lock, FetchEndsStep(s, w, page).workers[w];
    PermitMoves(config, s.locks, s.workers, w, pc, lock, s.locks.permits[lock] + 1);
  }

  lemma StepKeepsLocks(config: Config, s: State, action: Action)
    requires config.Valid() && LocksOk(config, s.locks, s.workers)
    ensures LocksOk(config, Step(config, s, action).locks, Step(config, s, action).workers)
  {
    match action
    case EnterGuard(w) =>
      if w < |s.workers| && s.workers[w].WantGuard? && s.locks.guard.None? { EnterGuardKeepsLocks(config, s, w); }
    case LeaveGuard(w) => if w < |s.workers| && s.workers[w].InGuard? { LeaveGuardKeepsLocks(config, s, w); }
    case Acquire(w) => if CanAcquire(s, w) { AcquireKeepsLocks(config, s, w); }
    case FetchEnds(w, page) => if CanRelease(s, w) { ReleaseKeepsLocks(config, s, w, page); }
    case JoinReturns =>
    case _ => OtherKeepsLocks(config, s, action);
  }

  /** The other steps of a worker leave the locks alone. */
  lemma OtherKeepsLocks(config: Config, s: State, action: Action)
    requires config.Valid() && LocksOk(config, s.locks, s.workers) && (action.Get? || action.Record? || action.Follow?)
    ensures LocksOk(config, Step(config, s, action).locks, Step(config, s, action).workers)
  {
    var t, w := Step(config, s, action), action.w;
    if t.workers != s.workers {
      MoveKeepsLocks(config, s.locks, s.workers, w, t.workers[w]);
    }
  }

  lemma {:induction false} IdleCounts(n: nat, lock: LockId)
    ensures var workers := seq(n, _ => AtGet);
            Holders(workers, lock) == 0 && CountOpen(workers) == 0 && CountExited(workers) == 0
  {
    if n > 0 {
      assert seq(n, _ => AtGet)[..n - 1] == seq(n - 1, _ => AtGet);
      IdleCounts(n - 1, lock);
    }
  }

  lemma {:induction false} RunKeepsInv(config: Config, seeds: seq<string>, actions: seq<Action>)
    requires config.Valid()
    ensures Inv(config, Run(config, seeds, actions))
  {
    if actions == [] {
      IdleCounts(config.workers, 0);
    } else {
      var s, action := Run(config, seeds, actions[..|actions| - 1]), actions[|actions| - 1];
      RunKeepsInv(config, seeds, actions[..|actions| - 1]);
      StepKeepsOnceOnly(config, s, action);
      StepKeepsResults(config, s, action);
      StepKeepsCounts(config, s, action);
      StepKeepsLocks(config, s, action);
    }
  }

  // ---- What every interleaving guarantees ----

  /**
   No URL is handed to _fetch_single twice, and no two results were requested by the same URL; they stay within
   the budget. Two results may have the same URL after redirects.
   */
  lemma NoUrlTwice(config: Config, seeds: seq<string>, actions: seq<Action>)
    requires config.Valid()
    ensures var s := Run(config, seeds, actions);
            && Distinct(s.fetched)
            && DistinctRequests(s.results) && |s.results| <= config.budget
            && (forall r :: r in s.results ==> r.requested in s.fetched)
  {
    RunKeepsInv(config, seeds, actions);
    var s := Run(config, seeds, actions);
    assert forall r :: r in s.results ==> r.requested in s.visited;
  }

  /** No domain ever gets a second semaphore, and permits are neither lost nor made. */
  lemma OneSemaphorePerDomain(config: Config, seeds: seq<string>, actions: seq<Action>)
    requires config.Valid()
    ensures var s := Run(config, seeds, actions);
            && |s.locks.permits| == |s.locks.owners| && Distinct(s.locks.owners)
            && forall id :: 0 <= id < |s.locks.permits| ==>
                 s.locks.permits[id] + Holders(s.workers, id) == config.perDomain
  {
    RunKeepsInv(config, seeds, actions);
  }

  /** At most `perDomain` fetches of one domain are under way at any time. */
  lemma DomainsAreThrottled(config: Config, seeds: seq<string>, actions: seq<Action>, host: string)
    requires config.Valid()
    ensures CountFetching(Run(config, seeds, actions).workers, config.hostOf, host) <= config.perDomain
  {
    var s := Run(config, seeds, actions);
    RunKeepsInv(config, seeds, actions);
    FetchesHoldPermits(config, s.locks, s.workers, host);
  }

  /**
   Each item is reported done once: the queue's open count is the items queued and in hand, so it is never
   negative and is zero only when nothing is. Sentinels and exits balance, with every empty URL among the
   candidates acting as one. Without any, no worker exits before the sentinels are sent, the workers consume
   exactly one each, and when all have exited no sentinel is left.
   */
  lemma SentinelsBalance(config: Config, seeds: seq<string>, actions: seq<Action>)
    requires config.Valid()
    ensures var s := Run(config, seeds, actions);
            && s.unfinished == |s.queue| + CountOpen(s.workers)
            && CountExited(s.workers) + CountStops(s.queue) == s.early + (if s.posted then config.workers else 0)
            && (s.early == 0 && !s.posted ==> CountExited(s.workers) == 0)
            && (s.early == 0 && CountExited(s.workers) == config.workers > 0 ==> s.posted && CountStops(s.queue) == 0)
  {
    RunKeepsInv(config, seeds, actions);
  }

  // ---- The outcomes of a get ----

  /** The item is taken off the queue. */
  function Dequeued(s: State): State
    requires s.queue != []
  {
    s.(queue := s.queue[1..])
  }

  ghost predicate CanGet(config: Config, s: State, w: nat) {
    config.Valid() && w < |s.workers| && s.workers[w].AtGet? && s.queue != []
  }

  lemma GetStops(config: Config, s: State, w: nat)
    requires CanGet(config, s, w) && s.queue[0] == ""
    ensures Step(config, s, Get(w)) == SetWorker(Dequeued(s).(unfinished := s.unfinished - 1), w, Exited)
  {
  }

  lemma GetSkips(config: Config, s: State, w: nat)
    requires CanGet(config, s, w) && s.queue[0] != "" && (s.stop || InFilter(config, s.added, s.queue[0]))
    ensures Step(config, s, Get(w)) == Dequeued(s).(unfinished := s.unfinished - 1)
  {
  }

  lemma GetTakes(config: Config, s: State, w: nat)
    requires CanGet(config, s, w) && s.queue[0] != "" && !s.stop && !InFilter(config, s.added, s.queue[0])
    ensures var url, t := s.queue[0], Dequeued(s).(added := s.added + {s.queue[0]});
            Step(config, s, Get(w))
            == if url in s.visited then t.(unfinished := s.unfinished - 1) else SetWorker(t, w, WantGuard(url))
  {
  }

  // ---- The crawler object ----

  class FocusedCrawler {
    const config: Config
    const filter: UrlBloom
    var queue: seq<string>
    var unfinished: int
    var stop: bool
    var visited: set<string>
    var results: seq<Result>
    var queuedUrls: set<string>
    var workers: seq<Worker>
    var posted: bool
    var domainLockGuard: Option<nat>
    var domainLocks: map<string, LockId>
    var permits: seq<nat>
    ghost var owners: seq<string>
    ghost var fetched: seq<string>
    ghost var early: nat

    ghost predicate Ready()
      reads this, filter, filter.bits
    {
      && config.Valid() && filter.Valid()
      && filter.digest == config.digest && filter.hashes == config.hashes && filter.size == config.size
    }

    ghost function View(): State
      reads this, filter
    {
      State(queue, unfinished, stop, filter.added, visited, results, queuedUrls, workers, posted,
            Locks(domainLockGuard, domainLocks, permits, owners), fetched, early)
    }

    constructor (config: Config, seeds: seq<string>)
      requires config.size >= 8 && config.hashes >= 1 && config.budget >= 1
      ensures Ready() && View() == Initial(config, seeds) && this.config == config && fresh(filter) && fresh(filter.bits)
    {
      this.config := config;
      filter := new UrlBloom(config.digest, config.size, config.hashes);
      queue, unfinished, stop, visited, results := seeds, |seeds|, false, {}, [];
      queuedUrls, workers, posted := set u | u in seeds, seq(config.workers, _ => AtGet), false;
      domainLockGuard, domainLocks, permits, owners := None, map[], [], [];
      fetched, early := [], CountStops(seeds);
    }

    /** Ask the filter, and put the URL in if it is new. */
    method SeenBefore(url: string) returns (seen: bool)
      requires Ready()
      modifies filter`added, filter.bits
      ensures Ready() && seen == InFilter(config, old(filter.added), url)
      ensures filter.added == if seen then old(filter.added) else old(filter.added) + {url}
    {
      seen := filter.Contains(url);
      if !seen {
        filter.Add(url);
      }
    }

    /** The worker loop from queue.get() to the next await. */
    method GetNext(w: nat)
      requires Ready() && w < |workers| && workers[w].AtGet? && queue != []
      modifies this, filter`added, filter.bits
      ensures Ready() && View() == Step(config, old(View()), Get(w))
    {
      ghost var s := View();
      var url := queue[0];
      queue := queue[1..];
      if url == "" {
        GetStops(config, s, w);
        unfinished := unfinished - 1;
        workers := workers[w := Exited];
        return;
      }
      if stop {
        GetSkips(config, s, w);
        unfinished := unfinished - 1;
        return;
      }
      var seen := SeenBefore(url);
      if seen {
        GetSkips(config, s, w);
        unfinished := unfinished - 1;
        return;
      }
      GetTakes(config, s, w);
      if url in visited {
        unfinished := unfinished - 1;
        return;
      }
      workers := workers[w := WantGuard(url)];
    }

    /** _get_domain_lock up to the lookup, once the guard is free. */
    method EnterGuard(w: nat)
      requires Ready() && w < |workers| && workers[w].WantGuard? && domainLockGuard.None?
      modifies this
      ensures Ready() && View() == Step(config, old(View()), Action.EnterGuard(w))
    {
      var url := workers[w].url;
      domainLockGuard := Some(w);
      workers := workers[w := InGuard(url, Lookup(domainLocks, config.hostOf(url)))];
    }

    /** The rest of _get_domain_lock. */
    method LeaveGuard(w: nat)
      requires Ready() && w < |workers| && workers[w].InGuard?
      modifies this
      ensures Ready() && View() == Step(config, old(View()), Action.LeaveGuard(w))
    {
      var url, lock := workers[w].url, |permits|;
      if workers[w].found.Some? {
        lock := workers[w].found.value;
      } else {
        permits := permits + [config.perDomain];
        owners := owners + [config.hostOf(url)];
        domainLocks := domainLocks[config.hostOf(url) := lock];
      }
      domainLockGuard := None;
      workers := workers[w := WantPermit(url, lock)];
    }

    /** Entering `async with lock`, once the semaphore has a permit. */
    method EnterLock(w: nat)
      requires Ready() && CanAcquire(View(), w)
      modifies this
      ensures Ready() && View() == Step(config, old(View()), Acquire(w))
    {
      var url, lock := workers[w].url, workers[w].lock;
      permits := permits[lock := permits[lock] - 1];
      fetched := fetched + [url];
      workers := workers[w := Fetching(url, lock)];
    }

    /** _fetch_single returns, the permit is given back and the item reported done. */
    method LeaveLock(w: nat, page: Option<Page>)
      requires Ready() && CanRelease(View(), w)
      modifies this
      ensures Ready() && View() == Step(config, old(View()), FetchEnds(w, page))
    {
      var url, lock := workers[w].url, workers[w].lock;
      permits := permits[lock := permits[lock] + 1];
      unfinished := unfinished - 1;
      workers := workers[w := if page.Some? then HasResult(url, page.value) else AtGet];
    }

    /** The block under the results lock. */
    method RecordResult(w: nat)
      requires Ready() && w < |workers| && workers[w].HasResult?
      modifies this
      ensures Ready() && View() == Step(config, old(View()), Record(w))
    {
      var url, page := workers[w].url, workers[w].page;
      if |results| >= config.budget {
        stop, workers := true, workers[w := AtGet];
        return;
      }
      results := results + [Result(url, page.url)];
      visited := visited + {url};
      if |results| >= config.budget {
        stop := true;
      }
      workers := workers[w := if page.links == [] then AtGet else Following(page.links)];
    }

    /** One turn of the loop in _handle_sources. */
    method FollowLink(w: nat, choice: FollowChoice)
      requires Ready() && w < |workers| && workers[w].Following? && workers[w].links != []
      modifies this
      ensures Ready() && View() == Step(config, old(View()), Follow(w, choice))
    {
      var link, rest := workers[w].links[0], workers[w].links[1..];
      if choice == Take && link !in queuedUrls && link !in visited {
        QueueLink(link);
      }
      workers := workers[w := if choice == Break || rest == [] then AtGet else Following(rest)];
    }

    method QueueLink(link: string)
      requires Ready()
      modifies `queuedUrls, `queue, `unfinished, `early
      ensures Ready() && View() == Queued(old(View()), link)
    {
      queuedUrls := queuedUrls + {link};
      queue := queue + [link];
      unfinished := unfinished + 1;
      early := early + (if link == "" then 1 else 0);
    }

    /** _crawl once queue.join() has returned. */
    method PostStops()
      requires Ready() && !posted
      modifies this
      ensures Ready() && View() == Step(config, old(View()), JoinReturns)
    {
      stop := true;
      for i := 0 to |workers|
        invariant stop && queue == old(queue) + Stops(i) && unfinished == old(unfinished) + i
        invariant unchanged(`visited, `results, `queuedUrls, `workers, `posted, `fetched, `early, `owners) && unchanged(filter)
        invariant unchanged(`domainLockGuard, `domainLocks, `permits)
        invariant Ready()
      {
        queue := queue + [""];
        unfinished := unfinished + 1;
      }
      posted := true;
    }
  }
}

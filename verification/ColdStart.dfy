/**
 engine/indexing/coldstart.py: build_index fetches candidate pages until enough are stored. What a URL fetches
 (None for a failed fetch), how text is cut and what it embeds to are parameters, the same in every run that is
 compared: pages that do not change.
 */
module ColdStart {
  import opened Common
  import opened VectorStores

  datatype Fetched = Fetched(title: string, etag: Option<string>, hash: string, text: string)

  datatype Env = Env(fetch: string -> Option<Fetched>, cut: string -> seq<Chunk>,
                     embed: seq<Chunk> -> seq<seq<real>>)

  function PageOf(env: Env, url: string): Page
    requires env.fetch(url).Some?
  {
    var f := env.fetch(url).value;
    Page(url, f.title, f.etag, f.hash, env.cut(f.text), env.embed(env.cut(f.text)), map[], None)
  }

  /** The page is fetched and has text that is cut and embedded. */
  predicate Usable(env: Env, url: string) {
    env.fetch(url).Some? && PageOf(env, url).chunks != [] && PageOf(env, url).embeddings != []
  }

  /** The stored document is the page as it is fetched. */
  predicate Current(env: Env, db: Db, url: string)
    requires env.fetch(url).Some?
  {
    !NeedsUpdate(db.docs, url, PageOf(env, url).etag, PageOf(env, url).hash)
  }

  /** What becomes of one new URL; an upsert may raise. */
  datatype Outcome = Skipped | Stored(db: Db) | Raised

  function Attempt(env: Env, db: Db, url: string): Outcome {
    if !Usable(env, url) || Current(env, db, url) then Skipped
    else
      var after := Upserted(db, PageOf(env, url));
      if after.None? then Raised else Stored(after.value)
  }

  /** `upserted` lists the URLs stored, in order; `failed` tells that an upsert raised. */
  datatype Progress = Progress(db: Db, seen: set<string>, upserted: seq<string>, failed: bool)

  predicate Stopped(s: Progress, maxPages: int) { s.failed || |s.upserted| >= maxPages }

  /** One turn of the loop; once it has stopped nothing changes. */
  function Visit(env: Env, maxPages: int, s: Progress, url: string): Progress {
    if Stopped(s, maxPages) || url == "" || url in s.seen then s
    else
      var seen := s.seen + {url};
      match Attempt(env, s.db, url)
      case Skipped => s.(seen := seen)
      case Stored(db) => Progress(db, seen, s.upserted + [url], false)
      case Raised => s.(seen := seen, failed := true)
  }

  function Build(env: Env, maxPages: int, db: Db, candidates: seq<string>): Progress {
    if candidates == [] then Progress(db, {}, [], false)
    else Visit(env, maxPages, Build(env, maxPages, db, candidates[..|candidates| - 1]), candidates[|candidates| - 1])
  }

  lemma {:induction false} StoppedStays(env: Env, maxPages: int, db: Db, candidates: seq<string>, i: nat)
    requires i <= |candidates| && Stopped(Build(env, maxPages, db, candidates[..i]), maxPages)
    ensures Build(env, maxPages, db, candidates) == Build(env, maxPages, db, candidates[..i])
  {
    if i == |candidates| {
      assert candidates[..i] == candidates;
    } else {
      var front := candidates[..|candidates| - 1];
      assert front[..i] == candidates[..i];
      StoppedStays(env, maxPages, db, front, i);
    }
  }

  class ColdStartIndexer {
    const env: Env
    const store: VectorStore
    const maxPages: int

    constructor (env: Env, store: VectorStore, maxPages: int)
      ensures this.env == env && this.store == store && this.maxPages == maxPages
    {
      this.env := env;
      this.store := store;
      this.maxPages := maxPages;
    }

    /** Returns how many pages were stored, None when an upsert raised. */
    method BuildIndex(candidates: seq<string>) returns (indexed: Option<nat>)
      modifies store
      ensures var s := Build(env, maxPages, old(store.View()), candidates);
              store.View() == s.db && indexed == if s.failed then None else Some(|s.upserted|)
    {
      ghost var db, s := store.View(), Progress(store.View(), {}, [], false);
      var count: nat, seen: set<string>, i: nat := 0, {}, 0;
      while i < |candidates| && count < maxPages
        invariant i <= |candidates| && s == Build(env, maxPages, db, candidates[..i])
        invariant store.View() == s.db && count == |s.upserted| && seen == s.seen && !s.failed
      {
        assert candidates[..i + 1][..i] == candidates[..i];
        var url := candidates[i];
        s := Visit(env, maxPages, s, url);
        i := i + 1;
        if url == "" || url in seen { continue; }
        seen := seen + {url};
        var outcome := IndexPage(url);
        if outcome.Raised? {
          StoppedStays(env, maxPages, db, candidates, i);
          return None;
        }
        if outcome.Stored? { count := count + 1; }
      }
      if i < |candidates| {
        StoppedStays(env, maxPages, db, candidates, i);
      } else {
        assert candidates[..i] == candidates;
      }
      indexed := Some(count);
    }

    /** The turn of a new URL: fetch, compare, cut, embed, store. */
    method IndexPage(url: string) returns (outcome: Outcome)
      modifies store
      ensures outcome == Attempt(env, old(store.View()), url)
      ensures store.View() == if outcome.Stored? then outcome.db else old(store.View())
    {
      var result := env.fetch(url);
      if result.None? { return Skipped; }
      var stale := store.NeedsUpdateFor(url, result.value.etag, result.value.hash);
      if !stale { return Skipped; }
      var chunks := env.cut(result.value.text);
      if chunks == [] { return Skipped; }
      var embeddings := env.embed(chunks);
      if embeddings == [] { return Skipped; }
      var ok := store.Upsert(Page(url, result.value.title, result.value.etag, result.value.hash, chunks, embeddings,
                                  map[], None));
      outcome := if ok then Stored(store.View()) else Raised;
    }
  }

  // ---- One run ----

  /** Never more than max_pages, each URL once and each one a candidate. */
  lemma {:induction false} BuildIsBounded(env: Env, maxPages: int, db: Db, candidates: seq<string>)
    ensures var s := Build(env, maxPages, db, candidates);
            && |s.upserted| <= Max(0, maxPages) && Distinct(s.upserted)
            && (forall url :: url in s.upserted ==> url in s.seen)
            && (forall url :: url in s.seen ==> url in candidates && url != "")
  {
    if candidates != [] {
      BuildIsBounded(env, maxPages, db, candidates[..|candidates| - 1]);
      SplitLast(candidates);
    }
  }

  /** A turn leaves current pages current, and makes current what it stores, which was not. */
  lemma VisitKeepsCurrent(env: Env, maxPages: int, s: Progress, url: string, other: string)
    requires env.fetch(other).Some?
    ensures var t := Visit(env, maxPages, s, url);
            Current(env, t.db, other) <==> Current(env, s.db, other) || (t.upserted != s.upserted && other == url)
    ensures Visit(env, maxPages, s, url).upserted != s.upserted ==> Usable(env, url) && !Current(env, s.db, url)
  {
  }

  /** What a run stored is current afterwards, and was not before; nothing stops being current. */
  lemma {:induction false} BuildMakesCurrent(env: Env, maxPages: int, db: Db, candidates: seq<string>, url: string)
    requires env.fetch(url).Some?
    ensures var s := Build(env, maxPages, db, candidates);
            && (Current(env, s.db, url) <==> Current(env, db, url) || url in s.upserted)
            && (url in s.upserted ==> Usable(env, url) && !Current(env, db, url))
  {
    if candidates != [] {
      var front, last := candidates[..|candidates| - 1], candidates[|candidates| - 1];
      BuildMakesCurrent(env, maxPages, db, front, url);
      VisitKeepsCurrent(env, maxPages, Build(env, maxPages, db, front), last, url);
    }
  }

  lemma {:induction false} UpsertedIsFetched(env: Env, maxPages: int, db: Db, candidates: seq<string>)
    ensures forall url :: url in Build(env, maxPages, db, candidates).upserted ==> env.fetch(url).Some?
  {
    if candidates != [] {
      UpsertedIsFetched(env, maxPages, db, candidates[..|candidates| - 1]);
    }
  }

  /** A run that neither raised nor filled up leaves no usable candidate behind. */
  lemma {:induction false} BuildIsComplete(env: Env, maxPages: int, db: Db, candidates: seq<string>, url: string)
    requires !Stopped(Build(env, maxPages, db, candidates), maxPages)
    requires url in candidates && url != "" && Usable(env, url)
    ensures Current(env, Build(env, maxPages, db, candidates).db, url)
  {
    SeenIsCurrent(env, maxPages, db, candidates, url);
  }

  lemma {:induction false} SeenIsCurrent(env: Env, maxPages: int, db: Db, candidates: seq<string>, url: string)
    requires !Stopped(Build(env, maxPages, db, candidates), maxPages) && url != ""
    ensures var s := Build(env, maxPages, db, candidates);
            (url in s.seen <==> url in candidates) && (url in s.seen && Usable(env, url) ==> Current(env, s.db, url))
  {
    if candidates != [] {
      var front, last := candidates[..|candidates| - 1], candidates[|candidates| - 1];
      SplitLast(candidates);
      SeenIsCurrent(env, maxPages, db, front, url);
      if Usable(env, url) {
        VisitKeepsCurrent(env, maxPages, Build(env, maxPages, db, front), last, url);
      }
    }
  }

  // ---- Any number of runs over pages that do not change ----

  datatype Job = Job(maxPages: int, candidates: seq<string>)

  /** The store after the runs, and everything they stored. */
  datatype Session = Session(db: Db, trace: seq<string>)

  function Runs(env: Env, db: Db, jobs: seq<Job>): Session {
    if jobs == [] then Session(db, [])
    else
      var before, job := Runs(env, db, jobs[..|jobs| - 1]), jobs[|jobs| - 1];
      var s := Build(env, job.maxPages, before.db, job.candidates);
      Session(s.db, before.trace + s.upserted)
  }

  lemma {:induction false} TraceIsCurrent(env: Env, db: Db, jobs: seq<Job>, url: string)
    requires env.fetch(url).Some?
    ensures var t := Runs(env, db, jobs);
            && (Current(env, t.db, url) <==> Current(env, db, url) || url in t.trace)
            && (url in t.trace ==> !Current(env, db, url))
  {
    if jobs != [] {
      var front, job := jobs[..|jobs| - 1], jobs[|jobs| - 1];
      TraceIsCurrent(env, db, front, url);
      BuildMakesCurrent(env, job.maxPages, Runs(env, db, front).db, job.candidates, url);
    }
  }

  /** However often the index is built, no page is stored twice. */
  lemma {:induction false} NoPageIsStoredTwice(env: Env, db: Db, jobs: seq<Job>)
    ensures Distinct(Runs(env, db, jobs).trace)
  {
    if jobs != [] {
      var front, job := jobs[..|jobs| - 1], jobs[|jobs| - 1];
      NoPageIsStoredTwice(env, db, front);
      var before := Runs(env, db, front);
      var s := Build(env, job.maxPages, before.db, job.candidates);
      BuildIsBounded(env, job.maxPages, before.db, job.candidates);
      UpsertedIsFetched(env, job.maxPages, before.db, job.candidates);
      forall i, j | 0 <= i < |before.trace| && 0 <= j < |s.upserted| ensures before.trace[i] != s.upserted[j] {
        var url := s.upserted[j];
        assert url in s.upserted;
        BuildMakesCurrent(env, job.maxPages, before.db, job.candidates, url);
        TraceIsCurrent(env, db, front, url);
      }
    }
  }

  // ---- What the store then holds ----

  /** The collection holds the chunks of the page as it is fetched, and no other record of its URL. */
  predicate Whole(env: Env, db: Db, url: string)
    requires env.fetch(url).Some?
  {
    var p := PageOf(env, url);
    |p.chunks| == |p.embeddings| && RecordsOf(db.collection, url) == ById(url, RecordsFor(p))
  }

  /** A stored page is whole, and the records of every other URL are left alone. */
  lemma StoringIsLocal(env: Env, db: Db, url: string, other: string)
    requires KeyedFor(db.collection, other) && Attempt(env, db, url).Stored?
    ensures var after := Attempt(env, db, url).db;
            && KeyedFor(after.collection, other) && env.fetch(url).Some?
            && if other == url then Whole(env, after, url)
               else RecordsOf(after.collection, other) == RecordsOf(db.collection, other)
  {
    UpsertIsLocal(db, PageOf(env, url), other);
  }

  /** A turn that stores adds to the list; another leaves both tables alone. */
  lemma VisitIsLocal(env: Env, maxPages: int, s: Progress, url: string, other: string)
    requires KeyedFor(s.db.collection, other)
    ensures var t := Visit(env, maxPages, s, url);
            && KeyedFor(t.db.collection, other)
            && (t.upserted == s.upserted ==> t.db == s.db)
            && (t.upserted != s.upserted ==> t.upserted == s.upserted + [url])
            && if t.upserted != s.upserted && other == url then env.fetch(url).Some? && Whole(env, t.db, url)
               else RecordsOf(t.db.collection, other) == RecordsOf(s.db.collection, other)
  {
    var t := Visit(env, maxPages, s, url);
    if t.upserted != s.upserted {
      StoringIsLocal(env, s.db, url, other);
    } else {
      assert |t.upserted| == |s.upserted|;
    }
  }

  /** After a run every page it stored is whole, and the records of all other URLs are what they were. */
  lemma {:induction false} BuildStoresWhole(env: Env, maxPages: int, db: Db, candidates: seq<string>, url: string)
    requires KeyedFor(db.collection, url)
    ensures var s := Build(env, maxPages, db, candidates);
            && KeyedFor(s.db.collection, url)
            && (url in s.upserted ==> env.fetch(url).Some? && Whole(env, s.db, url))
            && (url !in s.upserted ==> RecordsOf(s.db.collection, url) == RecordsOf(db.collection, url))
  {
    if candidates != [] {
      var front, last := candidates[..|candidates| - 1], candidates[|candidates| - 1];
      BuildStoresWhole(env, maxPages, db, front, url);
      VisitIsLocal(env, maxPages, Build(env, maxPages, db, front), last, url);
    }
  }

  /** From an empty store, any runs leave exactly the chunks of the pages stored. */
  lemma {:induction false} RunsStoreWhole(env: Env, jobs: seq<Job>, url: string)
    ensures var t := Runs(env, Run([]), jobs);
            && KeyedFor(t.db.collection, url)
            && (url in t.trace ==> env.fetch(url).Some? && Whole(env, t.db, url))
            && (url !in t.trace ==> RecordsOf(t.db.collection, url) == map[])
  {
    if jobs != [] {
      var front, job := jobs[..|jobs| - 1], jobs[|jobs| - 1];
      RunsStoreWhole(env, front, url);
      BuildStoresWhole(env, job.maxPages, Runs(env, Run([]), front).db, job.candidates, url);
    }
  }

  /** What is stored is what was fetched: the row has its title, etag and hash, and each record its chunk. */
  lemma StoredIsFetched(env: Env, jobs: seq<Job>, url: string, i: nat)
    requires url in Runs(env, Run([]), jobs).trace
    ensures env.fetch(url).Some?
    ensures var t, f := Runs(env, Run([]), jobs), env.fetch(url).value;
            var chunks := env.cut(f.text);
            && |chunks| == |env.embed(chunks)|
            && (i < |chunks| ==>
                  && ChunkId(url, i) in t.db.collection
                  && t.db.collection[ChunkId(url, i)].text == chunks[i].text
                  && t.db.collection[ChunkId(url, i)].embedding == env.embed(chunks)[i])
  {
    RunsStoreWhole(env, jobs, url);
    var t, p := Runs(env, Run([]), jobs), PageOf(env, url);
    if i < |p.chunks| {
      RecordIsFound(url, RecordsFor(p), i);
      RecordHoldsChunk(p, i);
      assert ChunkId(url, i) in RecordsOf(t.db.collection, url);
    }
  }

  lemma VisitWritesRow(env: Env, maxPages: int, s: Progress, url: string, other: string)
    ensures var t := Visit(env, maxPages, s, url);
            if t.upserted != s.upserted && other == url then
              && env.fetch(url).Some? && url in t.db.docs
              && t.db.docs[url] == Document(env.fetch(url).value.title, env.fetch(url).value.etag, env.fetch(url).value.hash)
            else (other in t.db.docs <==> other in s.db.docs) && (other in s.db.docs ==> t.db.docs[other] == s.db.docs[other])
  {
    var t := Visit(env, maxPages, s, url);
    if t.upserted == s.upserted {
      assert |t.upserted| == |s.upserted|;
    }
  }

  /** A run writes the row of each page it stores, as fetched, and no other row. */
  lemma {:induction false} BuildWritesRows(env: Env, maxPages: int, db: Db, candidates: seq<string>, url: string)
    ensures var s := Build(env, maxPages, db, candidates);
            if url in s.upserted then
              && env.fetch(url).Some? && url in s.db.docs
              && s.db.docs[url] == Document(env.fetch(url).value.title, env.fetch(url).value.etag, env.fetch(url).value.hash)
            else (url in s.db.docs <==> url in db.docs) && (url in db.docs ==> s.db.docs[url] == db.docs[url])
  {
    if candidates != [] {
      var front, last := candidates[..|candidates| - 1], candidates[|candidates| - 1];
      BuildWritesRows(env, maxPages, db, front, url);
      VisitWritesRow(env, maxPages, Build(env, maxPages, db, front), last, url);
      VisitAddsOne(env, maxPages, Build(env, maxPages, db, front), last);
    }
  }

  lemma VisitAddsOne(env: Env, maxPages: int, s: Progress, url: string)
    ensures var t := Visit(env, maxPages, s, url); t.upserted == s.upserted || t.upserted == s.upserted + [url]
  {
  }

  /** A turn raises exactly when a stale page gets another number of embeddings than it has chunks. */
  lemma RaisesIff(env: Env, maxPages: int, s: Progress, url: string)
    requires !Stopped(s, maxPages) && url != "" && url !in s.seen
    ensures Visit(env, maxPages, s, url).failed <==>
              && Usable(env, url) && !Current(env, s.db, url)
              && |env.cut(env.fetch(url).value.text)| != |env.embed(env.cut(env.fetch(url).value.text))|
  {
  }

  /** A page that was fetched, cut and embedded is usable, and no other. */
  lemma UsableMeans(env: Env, url: string)
    ensures Usable(env, url) <==>
              env.fetch(url).Some? && var chunks := env.cut(env.fetch(url).value.text); chunks != [] && env.embed(chunks) != []
  {
  }
}

/**
 engine/data/store.py: a table of documents and a collection of chunk records that must agree, and the part of
 `query` after the collection has answered. A record's id is the string whose digest the source takes.
 */
module VectorStores {
  import opened Common
  import opened StableSort

  datatype Value = Text(text: string) | Number(number: int)

  type Metadata = map<string, Value>

  datatype Chunk = Chunk(text: string, start: nat, end: nat, tokens: nat)

  datatype Document = Document(title: string, etag: Option<string>, hash: string)

  datatype Record = Record(text: string, meta: Metadata, embedding: seq<real>)

  /** The arguments of one upsert. */
  datatype Page = Page(url: string, title: string, etag: Option<string>, hash: string, chunks: seq<Chunk>,
                       embeddings: seq<seq<real>>, metadata: Metadata, docId: Option<string>)

  datatype Db = Db(docs: map<string, Document>, collection: map<string, Record>)

  // ---- Chunk ids ----

  const DECIMALS := "0123456789"

  function Digits(n: nat): (s: string)
    ensures |s| >= 1
  {
    if n < 10 then [DECIMALS[n]] else Digits(n / 10) + [DECIMALS[n % 10]]
  }

  function ChunkId(url: string, index: nat): string { url + "::" + Digits(index) }

  lemma {:induction false} DigitsAreNoColons(n: nat)
    ensures forall k :: 0 <= k < |Digits(n)| ==> Digits(n)[k] != ':'
  {
    if n >= 10 {
      DigitsAreNoColons(n / 10);
    }
  }

  lemma {:induction false} DigitsAreInjective(m: nat, n: nat)
    requires Digits(m) == Digits(n)
    ensures m == n
  {
    var s := Digits(m);
    assert s[|s| - 1] == DECIMALS[m % 10] == DECIMALS[n % 10];
    if m >= 10 && n >= 10 {
      assert s[..|s| - 1] == Digits(m / 10) == Digits(n / 10);
      DigitsAreInjective(m / 10, n / 10);
    }
  }

  lemma ColonBeforeDigits(url: string, i: nat)
    ensures ChunkId(url, i)[|ChunkId(url, i)| - |Digits(i)| - 1] == ':'
  {
  }

  lemma NoColonAmongDigits(url: string, i: nat, k: nat)
    requires |ChunkId(url, i)| - |Digits(i)| <= k < |ChunkId(url, i)|
    ensures ChunkId(url, i)[k] != ':'
  {
    DigitsAreNoColons(i);
    assert ChunkId(url, i)[k] == Digits(i)[k - (|ChunkId(url, i)| - |Digits(i)|)];
  }

  lemma NotLonger(url: string, i: nat, other: string, j: nat)
    requires ChunkId(url, i) == ChunkId(other, j)
    ensures |Digits(i)| >= |Digits(j)|
  {
    ColonBeforeDigits(url, i);
    if |Digits(i)| < |Digits(j)| {
      NoColonAmongDigits(other, j, |ChunkId(url, i)| - |Digits(i)| - 1);
    }
  }

  /** The text that is hashed tells URL and index apart, even for URLs that contain "::". */
  lemma ChunkIdIsInjective(url: string, i: nat, other: string, j: nat)
    requires ChunkId(url, i) == ChunkId(other, j)
    ensures url == other && i == j
  {
    NotLonger(url, i, other, j);
    NotLonger(other, j, url, i);
    var s, n := ChunkId(url, i), |ChunkId(url, i)| - |Digits(i)|;
    assert s[n..] == Digits(i) && s[n..] == Digits(j);
    assert s[..n - 2] == url && s[..n - 2] == other;
    DigitsAreInjective(i, j);
  }

  // ---- The two tables ----

  predicate HasUrl(r: Record, url: string) { "url" in r.meta && r.meta["url"] == Text(url) }

  /** delete(where={"url": url}) */
  function Without(collection: map<string, Record>, url: string): map<string, Record> {
    map id | id in collection && !HasUrl(collection[id], url) :: collection[id]
  }

  function RecordsOf(collection: map<string, Record>, url: string): map<string, Record> {
    map id | id in collection && HasUrl(collection[id], url) :: collection[id]
  }

  function MetaOf(p: Page, index: nat): Metadata
    requires index < |p.chunks|
  {
    var c := p.chunks[index];
    map["url" := Text(p.url), "title" := Text(p.title), "chunk_index" := Number(index), "start" := Number(c.start),
        "end" := Number(c.end), "token_count" := Number(c.tokens), "content_hash" := Text(p.hash),
        "doc_id" := Text(if p.docId.Some? && p.docId.value != "" then p.docId.value else p.url)]
    + (if p.etag.Some? then map["etag" := Text(p.etag.value)] else map[])
    + p.metadata
  }

  function RecordAt(p: Page, index: nat): Record
    requires index < |p.chunks| && |p.embeddings| == |p.chunks|
  {
    Record(p.chunks[index].text, MetaOf(p, index), p.embeddings[index])
  }

  function RecordsFor(p: Page): seq<Record>
    requires |p.embeddings| == |p.chunks|
  {
    seq(|p.chunks|, i requires 0 <= i < |p.chunks| => RecordAt(p, i))
  }

  /** Records under their ids. */
  function ById(url: string, records: seq<Record>): map<string, Record> {
    if records == [] then map[]
    else ById(url, records[..|records| - 1])[ChunkId(url, |records| - 1) := records[|records| - 1]]
  }

  /** Delete the URL's records, then add; adding leaves a record that is present. */
  function Replaced(collection: map<string, Record>, url: string, records: seq<Record>): map<string, Record> {
    ById(url, records) + Without(collection, url)
  }

  /** One upsert; None is the ValueError. */
  function Upserted(db: Db, p: Page): Option<Db> {
    if |p.chunks| != |p.embeddings| then None
    else Some(Db(db.docs[p.url := Document(p.title, p.etag, p.hash)],
                 Replaced(db.collection, p.url, RecordsFor(p))))
  }

  function NeedsUpdate(docs: map<string, Document>, url: string, etag: Option<string>, hash: string): bool {
    url !in docs
    || (docs[url].hash != hash && !(docs[url].hash == "" && etag.Some? && docs[url].etag == etag))
  }

  class VectorStore {
    var docs: map<string, Document>
    var collection: map<string, Record>

    constructor ()
      ensures View() == Run([])
    {
      docs, collection := map[], map[];
    }

    function View(): Db
      reads this
    {
      Db(docs, collection)
    }

    method NeedsUpdateFor(url: string, etag: Option<string>, hash: string) returns (stale: bool)
      ensures stale == NeedsUpdate(docs, url, etag, hash)
    {
      if url !in docs { return true; }
      var stored := docs[url];
      if stored.hash == hash { return false; }
      if stored.hash == "" && etag.Some? && stored.etag.Some? && stored.etag == etag { return false; }
      stale := true;
    }

    /** False stands for the ValueError, which leaves both tables as they were. */
    method Upsert(p: Page) returns (ok: bool)
      modifies this
      ensures ok == Upserted(old(View()), p).Some?
      ensures View() == if ok then Upserted(old(View()), p).value else old(View())
    {
      if |p.chunks| != |p.embeddings| { return false; }
      docs := docs[p.url := Document(p.title, p.etag, p.hash)];
      collection := Without(collection, p.url);
      ok := true;
      if p.chunks == [] {
        assert ById(p.url, []) + collection == collection;
        return;
      }
      collection := ById(p.url, RecordsFor(p)) + collection;
    }
  }

  // ---- Runs of upserts ----

  function Run(ps: seq<Page>): Db {
    if ps == [] then Db(map[], map[])
    else
      var db := Run(ps[..|ps| - 1]);
      var next := Upserted(db, ps[|ps| - 1]);
      if next.Some? then next.value else db
  }

  /** The last upsert of a URL that was not refused. */
  function LastFor(ps: seq<Page>, url: string): Option<Page> {
    if ps == [] then None
    else
      var p := ps[|ps| - 1];
      if p.url == url && |p.chunks| == |p.embeddings| then Some(p) else LastFor(ps[..|ps| - 1], url)
  }

  /** The caller's metadata does not override the URL. */
  predicate KeepsUrl(p: Page) { "url" in p.metadata ==> p.metadata["url"] == Text(p.url) }

  /** A page of this URL does not give it another, and a page of another does not give it this one. */
  predicate Undisturbing(p: Page, url: string) {
    if p.url == url then KeepsUrl(p) else "url" in p.metadata ==> p.metadata["url"] != Text(url)
  }

  ghost predicate IsIdOf(id: string, url: string) { exists i: nat :: id == ChunkId(url, i) }

  /** The records of a URL are those that lie under its ids. */
  ghost predicate KeyedFor(collection: map<string, Record>, url: string) {
    forall id :: id in collection ==> (HasUrl(collection[id], url) <==> IsIdOf(id, url))
  }

  lemma PageRecordsHaveItsUrl(p: Page, i: nat, url: string)
    requires i < |p.chunks| == |p.embeddings| && Undisturbing(p, url)
    ensures HasUrl(RecordAt(p, i), url) <==> url == p.url
  {
    assert MetaOf(p, i)["url"] == if "url" in p.metadata then p.metadata["url"] else Text(p.url);
  }

  /** Each record is found under its own id. */
  lemma {:induction false} RecordIsFound(url: string, records: seq<Record>, i: nat)
    requires i < |records|
    ensures ChunkId(url, i) in ById(url, records) && ById(url, records)[ChunkId(url, i)] == records[i]
  {
    var last := |records| - 1;
    if i < last {
      RecordIsFound(url, records[..last], i);
      if ChunkId(url, i) == ChunkId(url, last) {
        ChunkIdIsInjective(url, i, url, last);
      }
    }
  }

  /** Nothing else is found. */
  lemma {:induction false} FoundIsRecord(url: string, records: seq<Record>, id: string) returns (i: nat)
    requires id in ById(url, records)
    ensures i < |records| && id == ChunkId(url, i) && ById(url, records)[id] == records[i]
  {
    i := |records| - 1;
    if id != ChunkId(url, i) {
      i := FoundIsRecord(url, records[..|records| - 1], id);
    }
  }

  lemma {:induction false} OneRecordEach(url: string, records: seq<Record>)
    ensures |ById(url, records)| == |records|
  {
    if records != [] {
      var last := |records| - 1;
      OneRecordEach(url, records[..last]);
      if ChunkId(url, last) in ById(url, records[..last]) {
        var i := FoundIsRecord(url, records[..last], ChunkId(url, last));
        ChunkIdIsInjective(url, i, url, last);
      }
    }
  }

  /** An id of this URL is not left once its records are deleted, so adding meets no id that is present. */
  lemma NoIdIsLeft(collection: map<string, Record>, url: string, i: nat)
    requires KeyedFor(collection, url)
    ensures ChunkId(url, i) !in Without(collection, url)
  {
    assert IsIdOf(ChunkId(url, i), url);
  }

  /** What an upsert adds lies under ids of its URL, and has the watched URL exactly when that is the page's. */
  lemma AddedIsOwn(p: Page, id: string, url: string)
    requires |p.chunks| == |p.embeddings| && Undisturbing(p, url) && id in ById(p.url, RecordsFor(p))
    ensures IsIdOf(id, url) <==> url == p.url
    ensures HasUrl(ById(p.url, RecordsFor(p))[id], url) <==> url == p.url
  {
    var i := FoundIsRecord(p.url, RecordsFor(p), id);
    PageRecordsHaveItsUrl(p, i, url);
    if IsIdOf(id, url) {
      var j: nat :| id == ChunkId(url, j);
      ChunkIdIsInjective(p.url, i, url, j);
    }
  }

  lemma MergingIsLocal(collection: map<string, Record>, added: map<string, Record>, url: string, other: string)
    requires KeyedFor(collection, other)
    requires forall id :: id in added ==> (IsIdOf(id, other) <==> url == other) && (HasUrl(added[id], other) <==> url == other)
    ensures var after := added + Without(collection, url);
            KeyedFor(after, other) && RecordsOf(after, other) == if other == url then added else RecordsOf(collection, other)
  {
    var after := RecordsOf(added + Without(collection, url), other);
    if other == url {
      assert forall id :: id in after <==> id in added;
    } else {
      assert forall id :: id in after <==> id in collection && HasUrl(collection[id], other);
    }
  }

  /** After an upsert the page's URL has the new records, and nobody else's have changed. */
  lemma UpsertIsLocal(db: Db, p: Page, url: string)
    requires KeyedFor(db.collection, url) && |p.chunks| == |p.embeddings| && Undisturbing(p, url)
    ensures var after := Upserted(db, p).value.collection;
            KeyedFor(after, url)
            && RecordsOf(after, url) == if url == p.url then ById(url, RecordsFor(p)) else RecordsOf(db.collection, url)
  {
    forall id | id in ById(p.url, RecordsFor(p))
      ensures (IsIdOf(id, url) <==> p.url == url) && (HasUrl(ById(p.url, RecordsFor(p))[id], url) <==> p.url == url)
    {
      AddedIsOwn(p, id, url);
    }
    MergingIsLocal(db.collection, ById(p.url, RecordsFor(p)), p.url, url);
  }

  /** The URL's records are those just added exactly when the metadata does not give them another URL. */
  lemma UpsertIsExactIff(db: Db, p: Page)
    requires KeyedFor(db.collection, p.url) && |p.chunks| == |p.embeddings|
    ensures RecordsOf(Upserted(db, p).value.collection, p.url) == ById(p.url, RecordsFor(p))
            <==> p.chunks == [] || KeepsUrl(p)
  {
    if KeepsUrl(p) {
      UpsertIsLocal(db, p, p.url);
    } else if p.chunks != [] {
      RecordIsFound(p.url, RecordsFor(p), 0);
      NoIdIsLeft(db.collection, p.url, 0);
      assert !HasUrl(RecordAt(p, 0), p.url) by { assert MetaOf(p, 0)["url"] == p.metadata["url"]; }
      assert ChunkId(p.url, 0) !in RecordsOf(Upserted(db, p).value.collection, p.url);
    } else {
      assert RecordsFor(p) == [];
    }
  }

  /** A case: one chunk whose metadata names another URL is found under that one and not under its own. */
  lemma MovedRecordIsLost(db: Db)
    requires db.collection == map[]
    ensures var p := Page("a", "", None, "h", [Chunk("x", 0, 1, 1)], [[1.0]], map["url" := Text("b")], None);
            && RecordsOf(Upserted(db, p).value.collection, "a") == map[]
            && ChunkId("a", 0) in RecordsOf(Upserted(db, p).value.collection, "b")
            && !NeedsUpdate(Upserted(db, p).value.docs, "a", None, "h")
  {
    var p := Page("a", "", None, "h", [Chunk("x", 0, 1, 1)], [[1.0]], map["url" := Text("b")], None);
    var records := RecordsFor(p);
    assert records == [RecordAt(p, 0)] && records[..0] == [];
    assert ById("a", records) == map[ChunkId("a", 0) := RecordAt(p, 0)];
    assert MetaOf(p, 0)["url"] == Text("b");
    assert Without(db.collection, "a") == map[];
    assert Upserted(db, p).value.collection == map[ChunkId("a", 0) := RecordAt(p, 0)];
  }

  /**
   After any upserts the records of a URL are exactly the chunks of its last one, as long as metadata did not
   move records to this URL or away from it; no record is left of a URL that was never stored.
   */
  lemma {:induction false} RecordsAreLastUpsert(ps: seq<Page>, url: string)
    requires forall p :: p in ps ==> Undisturbing(p, url)
    ensures var db, p := Run(ps), LastFor(ps, url);
            KeyedFor(db.collection, url)
            && if p.None? then RecordsOf(db.collection, url) == map[]
               else |p.value.chunks| == |p.value.embeddings|
                    && RecordsOf(db.collection, url) == ById(url, RecordsFor(p.value))
  {
    if ps != [] {
      var front, p := ps[..|ps| - 1], ps[|ps| - 1];
      RecordsAreLastUpsert(front, url);
      if |p.chunks| == |p.embeddings| {
        UpsertIsLocal(Run(front), p, url);
      }
    }
  }

  /** After any upserts the document row of a URL is that of its last one. */
  lemma {:induction false} RowIsLastUpsert(ps: seq<Page>, url: string)
    ensures var docs, p := Run(ps).docs, LastFor(ps, url);
            if p.None? then url !in docs
            else url in docs && docs[url] == Document(p.value.title, p.value.etag, p.value.hash)
  {
    if ps != [] {
      RowIsLastUpsert(ps[..|ps| - 1], url);
    }
  }

  /** A stored page is up to date for its own hash, and for another only if it was stored without one under the same etag. */
  lemma UpToDateIff(ps: seq<Page>, url: string, etag: Option<string>, hash: string)
    ensures var p := LastFor(ps, url);
            !NeedsUpdate(Run(ps).docs, url, etag, hash) <==>
              p.Some? && (p.value.hash == hash || (p.value.hash == "" && etag.Some? && p.value.etag == etag))
  {
    RowIsLastUpsert(ps, url);
  }

  /** A record holds its chunk's text and embedding, and says which chunk of which page it is; given metadata comes first. */
  lemma RecordHoldsChunk(p: Page, i: nat)
    requires i < |p.chunks| == |p.embeddings|
    ensures var r := RecordAt(p, i);
            && r.text == p.chunks[i].text && r.embedding == p.embeddings[i]
            && (forall key :: key in p.metadata ==> key in r.meta && r.meta[key] == p.metadata[key])
            && (p.metadata == map[] ==>
                  && HasUrl(r, p.url) && "chunk_index" in r.meta && r.meta["chunk_index"] == Number(i)
                  && "start" in r.meta && r.meta["start"] == Number(p.chunks[i].start)
                  && "end" in r.meta && r.meta["end"] == Number(p.chunks[i].end)
                  && "content_hash" in r.meta && r.meta["content_hash"] == Text(p.hash))
  {
  }

  /** After any upserts, the record under the id of chunk i of a URL holds chunk i of its last upsert. */
  lemma LastChunksAreStored(ps: seq<Page>, url: string, i: nat)
    requires forall p :: p in ps ==> Undisturbing(p, url)
    requires LastFor(ps, url).Some? && i < |LastFor(ps, url).value.chunks|
    ensures var p, collection := LastFor(ps, url).value, Run(ps).collection;
            && ChunkId(url, i) in collection && HasUrl(collection[ChunkId(url, i)], url)
            && collection[ChunkId(url, i)].text == p.chunks[i].text
            && i < |p.embeddings| && collection[ChunkId(url, i)].embedding == p.embeddings[i]
  {
    var p := LastFor(ps, url).value;
    RecordsAreLastUpsert(ps, url);
    RecordIsFound(url, RecordsFor(p), i);
    assert ChunkId(url, i) in RecordsOf(Run(ps).collection, url);
    RecordHoldsChunk(p, i);
  }

  // ---- query, after the collection has answered ----

  datatype Hit = Hit(text: Option<string>, meta: Option<Metadata>, distance: Option<real>)

  function Similarity(h: Hit): real { if h.distance.Some? then 1.0 - h.distance.value else 0.0 }

  predicate Passes(h: Hit, threshold: real, filters: Metadata) {
    && h.text.Some? && h.meta.Some? && Similarity(h) >= threshold
    && forall key :: key in filters ==> key in h.meta.value && h.meta.value[key] == filters[key]
  }

  function Passing(hits: seq<Hit>, threshold: real, filters: Metadata): seq<Hit> {
    if hits == [] then []
    else Passing(hits[..|hits| - 1], threshold, filters)
         + (if Passes(hits[|hits| - 1], threshold, filters) then [hits[|hits| - 1]] else [])
  }

  lemma {:induction false} PassingMembers(hits: seq<Hit>, threshold: real, filters: Metadata)
    ensures forall h :: h in Passing(hits, threshold, filters) <==> h in hits && Passes(h, threshold, filters)
  {
    if hits != [] {
      SplitLast(hits);
      PassingMembers(hits[..|hits| - 1], threshold, filters);
    }
  }

  function Best(hits: seq<Hit>, k: nat, threshold: real, filters: Metadata): seq<Hit> {
    var sorted := Sorted(Passing(hits, threshold, filters), Similarity);
    sorted[..Min(k, |sorted|)]
  }

  method Query(dimensions: nat, k: int, threshold: real, filters: Metadata, hits: seq<Hit>) returns (retrieved: seq<Hit>)
    ensures retrieved == if k <= 0 || dimensions == 0 then [] else Best(hits, k, threshold, filters)
  {
    if k <= 0 || dimensions == 0 { return []; }
    var passing := [];
    for i := 0 to |hits|
      invariant passing == Passing(hits[..i], threshold, filters)
    {
      assert hits[..i + 1][..i] == hits[..i];
      if Passes(hits[i], threshold, filters) {
        passing := passing + [hits[i]];
      }
    }
    assert hits[..|hits|] == hits;
    var sorted := Sorted(passing, Similarity);
    retrieved := sorted[..Min(k, |sorted|)];
  }

  lemma SortedMembers(hits: seq<Hit>, threshold: real, filters: Metadata)
    ensures forall h :: h in Sorted(Passing(hits, threshold, filters), Similarity) <==> h in hits && Passes(h, threshold, filters)
  {
    var passing := Passing(hits, threshold, filters);
    PassingMembers(hits, threshold, filters);
    SortedIsPermutation(passing, Similarity);
    forall h: Hit | true ensures h in passing <==> h in Sorted(passing, Similarity) {
      assert h in multiset(passing) <==> h in multiset(Sorted(passing, Similarity));
    }
  }

  /**
   The k best of what passes: as many as asked for or available, best first, each a hit that passes threshold and
   filters, and nothing that passes is left out and better than one of them.
   */
  lemma BestIsBest(hits: seq<Hit>, k: nat, threshold: real, filters: Metadata) returns (rest: seq<Hit>)
    ensures var best, passing := Best(hits, k, threshold, filters), Passing(hits, threshold, filters);
            && |best| == Min(k, |passing|) && Descending(best, Similarity)
            && multiset(best) + multiset(rest) == multiset(passing)
            && (forall h :: h in hits && Passes(h, threshold, filters) <==> h in best || h in rest)
            && forall i, j :: 0 <= i < |best| && 0 <= j < |rest| ==> Similarity(best[i]) >= Similarity(rest[j])
  {
    var passing := Passing(hits, threshold, filters);
    var sorted := Sorted(passing, Similarity);
    SortedIsPermutation(passing, Similarity);
    SortedIsDescending(passing, Similarity);
    SortedMembers(hits, threshold, filters);
    var n := Min(k, |sorted|);
    rest := sorted[n..];
    assert sorted == sorted[..n] + rest;
  }

  /**
   What query returns is nearest first: each hit has text and metadata, is near enough, and agrees with every filter;
   none comes before a nearer one, and none left out that does as much is nearer.
   */
  lemma BestAreNearest(hits: seq<Hit>, k: nat, threshold: real, filters: Metadata)
    ensures var best := Best(hits, k, threshold, filters);
            && (forall h :: h in best ==>
                  && h in hits && h.text.Some? && h.meta.Some?
                  && (if h.distance.Some? then h.distance.value <= 1.0 - threshold else threshold <= 0.0)
                  && forall key :: key in filters ==> key in h.meta.value && h.meta.value[key] == filters[key])
            && forall i, j :: 0 <= i < j < |best| && best[i].distance.Some? && best[j].distance.Some? ==>
                 best[i].distance.value <= best[j].distance.value
  {
    var best := Best(hits, k, threshold, filters);
    var rest := BestIsBest(hits, k, threshold, filters);
    forall i, j | 0 <= i < j < |best| && best[i].distance.Some? && best[j].distance.Some?
      ensures best[i].distance.value <= best[j].distance.value
    {
      assert Similarity(best[i]) >= Similarity(best[j]);
    }
  }

  /** A hit left out although it passes is no nearer than any returned. */
  lemma LeftOutAreFarther(hits: seq<Hit>, k: nat, threshold: real, filters: Metadata, h: Hit, i: nat)
    requires h in hits && Passes(h, threshold, filters) && h !in Best(hits, k, threshold, filters)
    requires i < |Best(hits, k, threshold, filters)| && h.distance.Some? && Best(hits, k, threshold, filters)[i].distance.Some?
    ensures Best(hits, k, threshold, filters)[i].distance.value <= h.distance.value
  {
    var rest := BestIsBest(hits, k, threshold, filters);
    var j :| 0 <= j < |rest| && rest[j] == h;
    assert Similarity(Best(hits, k, threshold, filters)[i]) >= Similarity(rest[j]);
  }
}

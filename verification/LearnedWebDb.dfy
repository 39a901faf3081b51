/**
 server/learned_web_db.py: the domains table with its merging upsert, and the discoveries table. Tables are maps
 and sequences in memory; a domain's id is its host. What urlparse makes of a string is a parameter.
 */
module LearnedWebDbs {
  import opened Common

  /** The arguments of one upsert; `score` and the reason are None when not given. */
  datatype Upsert = Upsert(seen: real, score: Option<real>, discovery: bool, reason: Option<string>,
                           crawlAt: Option<real>, indexAt: Option<real>)

  datatype Row = Row(firstSeen: real, lastSeen: real, score: real, count: nat, reason: Option<string>,
                     crawlAt: Option<real>, indexAt: Option<real>)

  function ScoreOf(u: Upsert): real { if u.score.Some? then u.score.value else 0.0 }

  function One(discovery: bool): nat { if discovery then 1 else 0 }

  /** The later of a stored and an offered time; SQL's NULL gives way to any time. */
  function Later(stored: Option<real>, offered: Option<real>): Option<real> {
    if offered.None? then stored
    else if stored.None? then offered
    else if offered.value > stored.value then offered else stored
  }

  function Inserted(u: Upsert): Row {
    Row(u.seen, u.seen, ScoreOf(u), One(u.discovery), if u.discovery then u.reason else None, u.crawlAt, u.indexAt)
  }

  function Updated(r: Row, u: Upsert): Row {
    Row(r.firstSeen,
        if u.seen > r.lastSeen then u.seen else r.lastSeen,
        if ScoreOf(u) > r.score then ScoreOf(u) else r.score,
        r.count + One(u.discovery),
        if u.discovery then u.reason else r.reason,
        Later(r.crawlAt, u.crawlAt), Later(r.indexAt, u.indexAt))
  }

  /** The row of a host after its upserts. */
  function Replay(us: seq<Upsert>): Row
    requires us != []
  {
    if |us| == 1 then Inserted(us[0]) else Updated(Replay(us[..|us| - 1]), us[|us| - 1])
  }

  // ---- What a row says about its upserts ----

  /** The four columns that hold a maximum. */
  datatype Column = LastSeen | Score | LastCrawl | LastIndex {
    function Offered(u: Upsert): Option<real> {
      match this
      case LastSeen => Some(u.seen)
      case Score => Some(ScoreOf(u))
      case LastCrawl => u.crawlAt
      case LastIndex => u.indexAt
    }

    function Stored(r: Row): Option<real> {
      match this
      case LastSeen => Some(r.lastSeen)
      case Score => Some(r.score)
      case LastCrawl => r.crawlAt
      case LastIndex => r.indexAt
    }
  }

  /** x is the greatest value offered, None when none is. */
  ghost predicate IsGreatest(us: seq<Upsert>, column: Column, x: Option<real>) {
    && (x.Some? ==> exists u :: u in us && column.Offered(u) == x)
    && (forall u :: u in us && column.Offered(u).Some? ==> x.Some? && column.Offered(u).value <= x.value)
  }

  function Discoveries(us: seq<Upsert>): nat {
    if us == [] then 0 else Discoveries(us[..|us| - 1]) + One(us[|us| - 1].discovery)
  }

  lemma GreatestGrows(us: seq<Upsert>, u: Upsert, column: Column, x: Option<real>)
    requires IsGreatest(us, column, x)
    ensures IsGreatest(us + [u], column, Later(x, column.Offered(u)))
  {
    assert u in us + [u];
    assert forall v :: v in us + [u] ==> v in us || v == u;
    assert x.Some? ==> exists v :: v in us && v in us + [u] && column.Offered(v) == x;
  }

  lemma StoredAfter(r: Row, u: Upsert, column: Column)
    ensures column.Stored(Updated(r, u)) == Later(column.Stored(r), column.Offered(u))
  {
  }

  /** Every maximum column holds the greatest value offered. */
  lemma {:induction false} RowHoldsGreatest(us: seq<Upsert>, column: Column)
    requires us != []
    ensures IsGreatest(us, column, column.Stored(Replay(us)))
  {
    var front, last := us[..|us| - 1], us[|us| - 1];
    SplitLast(us);
    if |us| > 1 {
      RowHoldsGreatest(front, column);
      StoredAfter(Replay(front), last, column);
      GreatestGrows(front, last, column, column.Stored(Replay(front)));
    } else {
      assert last in us && forall u :: u in us <==> u == last;
    }
  }

  /** The count column holds how many upserts were discoveries; the first time seen is that of the first upsert. */
  lemma {:induction false} RowCounts(us: seq<Upsert>)
    requires us != []
    ensures Replay(us).count == Discoveries(us) && Replay(us).firstSeen == us[0].seen
  {
    if |us| > 1 {
      RowCounts(us[..|us| - 1]);
    } else {
      assert Discoveries(us[..0]) == 0;
    }
  }

  lemma GreatestIsUnique(us: seq<Upsert>, vs: seq<Upsert>, column: Column, x: Option<real>, y: Option<real>)
    requires forall u :: u in us <==> u in vs
    requires IsGreatest(us, column, x) && IsGreatest(vs, column, y)
    ensures x == y
  {
  }

  /** The maxima depend only on which upserts there were, neither on their order nor on repeats. */
  lemma MaximaIgnoreOrderAndRepeats(us: seq<Upsert>, vs: seq<Upsert>)
    requires us != [] && forall u :: u in us <==> u in vs
    ensures vs != [] && forall column: Column :: column.Stored(Replay(us)) == column.Stored(Replay(vs))
  {
    assert us[0] in vs;
    forall column: Column | true ensures column.Stored(Replay(us)) == column.Stored(Replay(vs)) {
      RowHoldsGreatest(us, column);
      RowHoldsGreatest(vs, column);
      GreatestIsUnique(us, vs, column, column.Stored(Replay(us)), column.Stored(Replay(vs)));
    }
  }

  lemma {:induction false} DiscoveriesConcat(us: seq<Upsert>, vs: seq<Upsert>)
    ensures Discoveries(us + vs) == Discoveries(us) + Discoveries(vs)
  {
    if vs == [] {
      assert us + vs == us;
    } else {
      assert (us + vs)[..|us + vs| - 1] == us + vs[..|vs| - 1];
      DiscoveriesConcat(us, vs[..|vs| - 1]);
    }
  }

  lemma {:induction false} DiscoveriesOfPermutation(us: seq<Upsert>, vs: seq<Upsert>)
    requires multiset(us) == multiset(vs)
    ensures Discoveries(us) == Discoveries(vs)
    decreases |us|
  {
    if us == [] {
      assert |multiset(vs)| == 0;
    } else {
      var i := RemoveLast(us, vs);
      DiscoveriesOfPermutation(us[..|us| - 1], vs[..i] + vs[i + 1..]);
      assert vs == vs[..i] + [vs[i]] + vs[i + 1..];
      DiscoveriesConcat(vs[..i] + [vs[i]], vs[i + 1..]);
      DiscoveriesConcat(vs[..i], [vs[i]]);
      DiscoveriesConcat(vs[..i], vs[i + 1..]);
      assert Discoveries([vs[i]]) == One(vs[i].discovery) by { assert [vs[i]][..0] == []; }
    }
  }

  /** Any permutation of the upserts gives the same five columns. */
  lemma OrderDoesNotMatter(us: seq<Upsert>, vs: seq<Upsert>)
    requires us != [] && multiset(us) == multiset(vs)
    ensures vs != []
    ensures var r, s := Replay(us), Replay(vs);
            r.lastSeen == s.lastSeen && r.score == s.score && r.count == s.count
            && r.crawlAt == s.crawlAt && r.indexAt == s.indexAt
  {
    forall u ensures u in us <==> u in vs {
      assert u in multiset(us) <==> u in multiset(vs);
    }
    MaximaIgnoreOrderAndRepeats(us, vs);
    var r, s := Replay(us), Replay(vs);
    assert LastSeen.Stored(r) == LastSeen.Stored(s) && Score.Stored(r) == Score.Stored(s);
    assert LastCrawl.Stored(r) == LastCrawl.Stored(s) && LastIndex.Stored(r) == LastIndex.Stored(s);
    RowCounts(us);
    RowCounts(vs);
    DiscoveriesOfPermutation(us, vs);
  }

  /** The reason given by the last discovery, None without one. */
  function LastReason(us: seq<Upsert>): Option<string> {
    if us == [] then None else if us[|us| - 1].discovery then us[|us| - 1].reason else LastReason(us[..|us| - 1])
  }

  lemma {:induction false} RowHoldsLastReason(us: seq<Upsert>)
    requires us != []
    ensures Replay(us).reason == LastReason(us)
  {
    if |us| > 1 {
      RowHoldsLastReason(us[..|us| - 1]);
    } else {
      assert us[..0] == [];
    }
  }

  /**
   The other two columns do depend on the order: a permutation gives the same row exactly when its first upsert
   was seen at the same time and its last discovery gave the same reason.
   */
  lemma OrderMattersForTheRest(us: seq<Upsert>, vs: seq<Upsert>)
    requires us != [] && multiset(us) == multiset(vs)
    ensures vs != []
    ensures Replay(us).firstSeen == Replay(vs).firstSeen <==> us[0].seen == vs[0].seen
    ensures Replay(us).reason == Replay(vs).reason <==> LastReason(us) == LastReason(vs)
    ensures Replay(us) == Replay(vs) <==> us[0].seen == vs[0].seen && LastReason(us) == LastReason(vs)
  {
    OrderDoesNotMatter(us, vs);
    RowCounts(us);
    RowCounts(vs);
    RowHoldsLastReason(us);
    RowHoldsLastReason(vs);
  }

  ghost predicate NotLowered(r: Row, s: Row) {
    && s.firstSeen == r.firstSeen && s.lastSeen >= r.lastSeen && s.score >= r.score && s.count >= r.count
    && (r.crawlAt.Some? ==> s.crawlAt.Some? && s.crawlAt.value >= r.crawlAt.value)
    && (r.indexAt.Some? ==> s.indexAt.Some? && s.indexAt.value >= r.indexAt.value)
  }

  /** No later upsert lowers anything. */
  lemma {:induction false} RowsOnlyGrow(us: seq<Upsert>, vs: seq<Upsert>)
    requires us != []
    ensures NotLowered(Replay(us), Replay(us + vs))
  {
    if vs == [] {
      assert us + vs == us;
    } else {
      assert (us + vs)[..|us + vs| - 1] == us + vs[..|vs| - 1];
      RowsOnlyGrow(us, vs[..|vs| - 1]);
    }
  }

  // ---- The tables ----

  datatype Discovery = Discovery(query: string, host: string, url: string, reason: string, source: Option<string>,
                                 score: real, at: real)

  /** `netloc` and `urlOf` give "" where the source has None: every caller only asks whether it is falsy. */
  datatype Env = Env(netloc: string -> string, urlOf: string -> string)

  datatype Db = Db(domains: map<string, Row>, discoveries: seq<Discovery>)

  datatype Event =
    | UpsertDomain(host: string, upsert: Upsert)
    | RecordDiscovery(query: string, url: string, reason: string, score: real, source: Option<string>, at: real)

  predicate StartsWithWww(host: string) { |host| >= 4 && host[..4] == "www." }

  function StripWww(host: string): string { if StartsWithWww(host) then host[4..] else host }

  /** _normalize_host */
  function HostOf(env: Env, url: string): string { StripWww(env.netloc(url)) }

  /** The host record_discovery looks up before it upserts. */
  function LookedUp(env: Env, url: string): string {
    var normalized := env.urlOf(url);
    if normalized == "" then "" else HostOf(env, normalized)
  }

  /** The host whose row an event changes; record_discovery's host is normalised once more by the upsert. */
  function Reached(env: Env, e: Event): string {
    match e
    case UpsertDomain(host, _) => HostOf(env, host)
    case RecordDiscovery(_, url, _, _, _, _) =>
      var host := LookedUp(env, url);
      if host == "" then "" else HostOf(env, host)
  }

  function UpsertOf(e: Event): Upsert {
    match e
    case UpsertDomain(_, u) => u
    case RecordDiscovery(_, _, reason, score, _, at) => Upsert(at, Some(score), true, Some(reason), None, None)
  }

  function Put(domains: map<string, Row>, host: string, u: Upsert): map<string, Row> {
    domains[host := if host in domains then Updated(domains[host], u) else Inserted(u)]
  }

  function DiscoveryOf(env: Env, e: Event): seq<Discovery> {
    match e
    case UpsertDomain(_, _) => []
    case RecordDiscovery(query, url, reason, score, source, at) =>
      [Discovery(query, Reached(env, e), env.urlOf(url), reason, source, score, at)]
  }

  function Step(env: Env, db: Db, e: Event): Db {
    var host := Reached(env, e);
    if host == "" then db else Db(Put(db.domains, host, UpsertOf(e)), db.discoveries + DiscoveryOf(env, e))
  }

  /** A row is raised to what an upsert offers, and by no more. */
  ghost predicate Raised(before: Option<Row>, after: Row, u: Upsert) {
    && after.lastSeen >= u.seen && after.score >= ScoreOf(u) && after.count >= One(u.discovery)
    && (u.discovery ==> after.reason == u.reason)
    && (before.Some? ==> NotLowered(before.value, after) && after.count == before.value.count + One(u.discovery)
                         && (after.lastSeen == u.seen || after.lastSeen == before.value.lastSeen)
                         && (after.score == ScoreOf(u) || after.score == before.value.score)
                         && (!u.discovery ==> after.reason == before.value.reason))
    && (before.None? ==> after == Row(u.seen, u.seen, ScoreOf(u), One(u.discovery), if u.discovery then u.reason else None,
                                      u.crawlAt, u.indexAt))
  }

  /**
   A recorded discovery raises the row of its host, to its score and time and with its reason, counts once, and adds
   one row to the discoveries with everything given; no other host is touched.
   */
  lemma DiscoveryIsRecorded(env: Env, db: Db, e: Event)
    requires e.RecordDiscovery? && Reached(env, e) != ""
    ensures var host, t := Reached(env, e), Step(env, db, e);
            && host in t.domains
            && Raised(if host in db.domains then Some(db.domains[host]) else None, t.domains[host],
                      Upsert(e.at, Some(e.score), true, Some(e.reason), None, None))
            && (forall other :: other != host ==> (other in t.domains <==> other in db.domains)
                                                  && (other in db.domains ==> t.domains[other] == db.domains[other]))
            && t.discoveries == db.discoveries + [Discovery(e.query, host, env.urlOf(e.url), e.reason, e.source, e.score, e.at)]
  {
  }

  /** An upsert raises the row of its host as it says and touches nothing else. */
  lemma UpsertIsRecorded(env: Env, db: Db, e: Event)
    requires e.UpsertDomain? && Reached(env, e) != ""
    ensures var host, t := Reached(env, e), Step(env, db, e);
            && host in t.domains
            && Raised(if host in db.domains then Some(db.domains[host]) else None, t.domains[host], e.upsert)
            && (forall other :: other != host ==> (other in t.domains <==> other in db.domains)
                                                  && (other in db.domains ==> t.domains[other] == db.domains[other]))
            && t.discoveries == db.discoveries
  {
    assert db.discoveries + [] == db.discoveries;
  }

  function Run(env: Env, es: seq<Event>): Db {
    if es == [] then Db(map[], []) else Step(env, Run(env, es[..|es| - 1]), es[|es| - 1])
  }

  class LearnedWebDb {
    const env: Env
    var domains: map<string, Row>
    var discoveries: seq<Discovery>

    constructor (env: Env)
      ensures this.env == env && View() == Run(env, [])
    {
      this.env := env;
      domains := map[];
      discoveries := [];
    }

    function View(): Db
      reads this
    {
      Db(domains, discoveries)
    }

    method UpsertDomainLocked(host: string, u: Upsert) returns (id: Option<string>)
      modifies this
      ensures View() == Step(env, old(View()), UpsertDomain(host, u))
      ensures id == if HostOf(env, host) == "" then None else Some(HostOf(env, host))
    {
      var normalized := HostOf(env, host);
      if normalized == "" { return None; }
      if normalized in domains {
        domains := domains[normalized := Updated(domains[normalized], u)];
      } else {
        domains := domains[normalized := Inserted(u)];
      }
      assert discoveries + [] == discoveries;
      id := Some(normalized);
    }

    /** Returns the domain and whether it was unknown before. */
    method RecordDiscovery(query: string, url: string, reason: string, score: real, source: Option<string>, at: real)
      returns (recorded: Option<(string, bool)>)
      modifies this
      ensures var e := Event.RecordDiscovery(query, url, reason, score, source, at);
              && View() == Step(env, old(View()), e)
              && recorded == if Reached(env, e) == "" then None
                             else Some((Reached(env, e), LookedUp(env, url) !in old(domains)))
    {
      var normalizedUrl := env.urlOf(url);
      if normalizedUrl == "" { return None; }
      var host := HostOf(env, normalizedUrl);
      if host == "" { return None; }
      var existing := host in domains;
      var domain := UpsertDomainLocked(host, Upsert(at, Some(score), true, Some(reason), None, None));
      if domain.None? { return None; }
      discoveries := discoveries + [Discovery(query, domain.value, normalizedUrl, reason, source, score, at)];
      recorded := Some((domain.value, !existing));
    }

    method DomainValueMap() returns (values: map<string, real>)
      ensures IsValueMap(values, domains)
    {
      var rows := domains;
      values := map h | h in rows && rows[h].score > 0.0 :: rows[h].score;
    }
  }

  /** The hosts with a positive score, each with its score. */
  ghost predicate IsValueMap(values: map<string, real>, domains: map<string, Row>) {
    && (forall host :: host in values <==> host in domains && domains[host].score > 0.0)
    && (forall host :: host in values ==> values[host] == domains[host].score)
  }

  // ---- Runs ----

  /** The upserts a run made to a host. */
  function MadeTo(env: Env, es: seq<Event>, host: string): seq<Upsert> {
    if es == [] then []
    else MadeTo(env, es[..|es| - 1], host)
         + (if Reached(env, es[|es| - 1]) == host then [UpsertOf(es[|es| - 1])] else [])
  }

  /** Hosts do not interfere: each row is what its own upserts make of it, whatever came between them. */
  lemma {:induction false} RowIsReplay(env: Env, es: seq<Event>, host: string)
    requires host != ""
    ensures host in Run(env, es).domains <==> MadeTo(env, es, host) != []
    ensures MadeTo(env, es, host) != [] ==> Run(env, es).domains[host] == Replay(MadeTo(env, es, host))
  {
    if es != [] {
      var front, e := es[..|es| - 1], es[|es| - 1];
      RowIsReplay(env, front, host);
      var made := MadeTo(env, front, host);
      if Reached(env, e) == host {
        assert MadeTo(env, es, host) == made + [UpsertOf(e)];
        assert (made + [UpsertOf(e)])[..|made|] == made;
      } else {
        assert MadeTo(env, es, host) == made;
      }
    }
  }

  /** Runs that make the same upserts to a host, in any order and mixed with any others, agree on its five columns. */
  lemma InterleavingDoesNotMatter(env: Env, es: seq<Event>, fs: seq<Event>, host: string)
    requires host != "" && multiset(MadeTo(env, es, host)) == multiset(MadeTo(env, fs, host))
    ensures host in Run(env, es).domains <==> host in Run(env, fs).domains
    ensures host in Run(env, es).domains ==>
              var r, s := Run(env, es).domains[host], Run(env, fs).domains[host];
              r.lastSeen == s.lastSeen && r.score == s.score && r.count == s.count
              && r.crawlAt == s.crawlAt && r.indexAt == s.indexAt
  {
    var us, vs := MadeTo(env, es, host), MadeTo(env, fs, host);
    RowIsReplay(env, es, host);
    RowIsReplay(env, fs, host);
    assert |us| == |multiset(us)| == |multiset(vs)| == |vs|;
    if us != [] {
      OrderDoesNotMatter(us, vs);
    }
  }

  function RowsFor(ds: seq<Discovery>, host: string): nat {
    if ds == [] then 0 else RowsFor(ds[..|ds| - 1], host) + (if ds[|ds| - 1].host == host then 1 else 0)
  }

  /** Upserts of the host that count as discoveries without a row in the discoveries table. */
  function Unrecorded(env: Env, es: seq<Event>, host: string): nat {
    if es == [] then 0
    else
      var e := es[|es| - 1];
      Unrecorded(env, es[..|es| - 1], host)
      + (if e.UpsertDomain? && Reached(env, e) == host then One(e.upsert.discovery) else 0)
  }

  function CountIn(db: Db, host: string): nat {
    if host in db.domains then db.domains[host].count else 0
  }

  lemma CountAfter(env: Env, db: Db, e: Event, host: string)
    requires host != ""
    ensures CountIn(Step(env, db, e), host)
            == CountIn(db, host) + (if Reached(env, e) == host then One(UpsertOf(e).discovery) else 0)
  {
  }

  lemma RowsAfter(env: Env, db: Db, e: Event, host: string)
    requires host != ""
    ensures RowsFor(Step(env, db, e).discoveries, host)
            == RowsFor(db.discoveries, host) + (if e.RecordDiscovery? && Reached(env, e) == host then 1 else 0)
  {
    var ds, added := db.discoveries, DiscoveryOf(env, e);
    if e.RecordDiscovery? {
      assert (ds + added)[..|ds|] == ds && (ds + added)[|ds|] == added[0];
    } else {
      assert ds + added == ds;
    }
  }

  /** The discovery count is the number of discovery rows plus the unrecorded increments. */
  lemma {:induction false} CountMatchesDiscoveries(env: Env, es: seq<Event>, host: string)
    requires host != ""
    ensures CountIn(Run(env, es), host) == RowsFor(Run(env, es).discoveries, host) + Unrecorded(env, es, host)
  {
    if es != [] {
      var front, e := es[..|es| - 1], es[|es| - 1];
      CountMatchesDiscoveries(env, front, host);
      CountAfter(env, Run(env, front), e, host);
      RowsAfter(env, Run(env, front), e, host);
    }
  }

  /** A host has a value exactly when a positive score was ever given for it, and it is the greatest one. */
  lemma ValueIsGreatestScore(env: Env, es: seq<Event>, values: map<string, real>, host: string)
    requires host != "" && IsValueMap(values, Run(env, es).domains)
    ensures var us := MadeTo(env, es, host);
            && (host in values <==> exists u :: u in us && ScoreOf(u) > 0.0)
            && (host in values ==> IsGreatest(us, Score, Some(values[host])))
  {
    var us := MadeTo(env, es, host);
    RowIsReplay(env, es, host);
    if us != [] {
      RowHoldsGreatest(us, Score);
      assert forall u :: u in us ==> Score.Offered(u) == Some(ScoreOf(u));
    }
  }

  // ---- The created flag of record_discovery ----

  /** Stripping "www." once is enough exactly when none is left. */
  lemma StripTwice(host: string)
    ensures StripWww(StripWww(host)) == StripWww(host) <==> !StartsWithWww(StripWww(host))
  {
    var once := StripWww(host);
    if StartsWithWww(once) {
      assert |StripWww(once)| == |once| - 4;
    }
  }

  /**
   Recording a discovery a second time reports the domain as new again exactly when its host still carries a
   "www." after one was stripped, given that urlparse finds a bare host to be its own netloc.
   */
  lemma CreatedAgainIff(env: Env, db: Db, e: Event)
    requires e.RecordDiscovery? && Reached(env, e) != ""
    requires env.netloc(LookedUp(env, e.url)) == LookedUp(env, e.url)
    requires LookedUp(env, e.url) !in db.domains
    ensures LookedUp(env, e.url) !in Step(env, db, e).domains <==> StartsWithWww(LookedUp(env, e.url))
  {
    var host := LookedUp(env, e.url);
    if StartsWithWww(host) {
      assert |Reached(env, e)| == |host| - 4;
    }
  }

  /** A case: a URL on "www.www.a.org" is looked up as "www.a.org", stored as "a.org", and new each time. */
  lemma RepeatedWwwIsNewAgain(env: Env, e: Event)
    requires e.RecordDiscovery? && env.urlOf(e.url) == "https://www.www.a.org" && env.netloc("https://www.www.a.org") == "www.www.a.org"
    requires env.netloc("www.a.org") == "www.a.org"
    ensures LookedUp(env, e.url) == "www.a.org" && Reached(env, e) == "a.org"
    ensures "www.a.org" !in Run(env, [e]).domains && "a.org" in Run(env, [e]).domains
  {
    var once, twice, e1: seq<Event> := StripWww("www.www.a.org"), StripWww("www.a.org"), [e];
    assert once == "www.a.org" && twice == "a.org";
    assert e1[..0] == [];
    assert |"www.a.org"| == 9 && |"a.org"| == 5;
  }
}

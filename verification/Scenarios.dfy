/**
 Runs of the engine, built step by step over a catalogue of one feed, that show where its
 guarantees end: what shares a feed, and what a harmful record leads to.
 */
module Scenarios {
  import opened Prelude
  import opened Parse
  import opened Fetch
  import opened Catalogue
  import opened Crawler
  import opened Effects
  import opened Engine
  import opened Safety
  import opened Leases
  import opened Freshness
  import History

  const URL := "https://example.org/feed"

  /** What the catalogue of one feed looks like between claims. */
  datatype View = View(row: Feed, parses: History.Parses, crawls: map<Key, Crawl>, now: int, log: set<Issue>)

  ghost predicate Shows(s: System, v: View) {
    && s.db.feeds == map[1 := v.row] && v.row.id == 1
    && s.Trace().ParsesOf(1) == v.parses
    && s.claims == map[] && s.crawls == v.crawls && s.now == v.now && s.log == v.log
  }

  /** An honest run that ends in a state of this kind. */
  ghost predicate Reaches(setup: Setup, events: seq<Event>, v: View) {
    Runs(setup, events) && HonestFrom(setup, events, 1, 0) && Shows(Final(setup, events), v)
  }

  lemma Extend(setup: Setup, events: seq<Event>, e: Event)
    requires Runs(setup, events) && HonestFrom(setup, events, 1, 0)
    requires Enabled(setup, Final(setup, events), e) && HonestStep(setup.crawler, Final(setup, events), e, 1)
    ensures Runs(setup, events + [e]) && HonestFrom(setup, events + [e], 1, 0)
    ensures Final(setup, events + [e]) == Next(setup, Final(setup, events), e)
  {
    assert (events + [e])[..|events|] == events;
  }

  lemma Seeded(setup: Setup)
    ensures Reaches(setup, [Seed(URL)], View(NewFeed(1, URL, 0), [], map[], 0, {}))
  {
    Extend(setup, [], Seed(URL));
    assert [] + [Seed(URL)] == [Seed(URL)];
  }

  lemma Woken(setup: Setup, events: seq<Event>, v: View)
    requires Reaches(setup, events, v) && v.row.status == Dormant
    ensures Reaches(setup, events + [Request(1, 0)], v.(row := Requested(v.row, v.now)))
  {
    Extend(setup, events, Request(1, 0));
  }

  lemma Ticked(setup: Setup, events: seq<Event>, v: View, to: int)
    requires Reaches(setup, events, v) && to >= v.now
    ensures Reaches(setup, events + [Tick(to)], v.(now := to))
  {
    Extend(setup, events, Tick(to));
  }

  lemma ColdStarted(setup: Setup, events: seq<Event>, v: View, p: nat)
    requires Reaches(setup, events, v) && v.row.NeverCrawled() && Key(p, 1) !in v.crawls
    ensures Reaches(setup, events + [StartCold(p, 1)], v.(crawls := v.crawls[Key(p, 1) := Fetching(v.row, Cold)]))
  {
    Extend(setup, events, StartCold(p, 1));
  }

  function ClaimOf(p: nat): seq<Event> {
    [LockDue(p, 1, {}, {1}), FinishClaim(p)]
  }

  lemma OnlyOneDue(s: System, v: View)
    requires Shows(s, v) && IsDue(v.row, v.now)
    ensures IsClaim(s.db, s.now, 1, s.LockedIds() + {}, {1})
  {
    assert s.LockedIds() + {} == {};
    assert Due(s.db, s.now) - {} == {1};
  }

  function AfterClaim(v: View, p: nat, lease: int): View {
    var row := Leased(v.row, v.now, lease);
    v.(row := row, crawls := v.crawls[Key(p, 1) := Fetching(row, Lease(v.now + lease))])
  }

  lemma LeasesOne(db: Db, row: Feed, now: int, lease: int)
    requires db.feeds == map[1 := row]
    ensures LeaseAll(db, {1}, now, lease).feeds == map[1 := Leased(row, now, lease)]
  {
  }

  lemma ClaimsOne(s: System, row: Feed, p: nat, now: int, lease: int)
    requires s.db.feeds == map[1 := row] && p in s.claims && s.claims[p] == Hold({1}, now)
    ensures Engine.Claimed(s, p, lease) == map[Key(p, 1) := Fetching(Leased(row, now, lease), Lease(now + lease))]
  {
    assert Engine.Claimed(s, p, lease).Keys == {Key(p, 1)};
  }

  lemma ClaimShows(s: System, v: View, p: nat, lease: int)
    requires s.claims == map[p := Hold({1}, v.now)] && Shows(s.(claims := map[]), v)
    ensures
      var after := s.(db := LeaseAll(s.db, {1}, v.now, lease), claims := map[],
                      crawls := s.crawls + Engine.Claimed(s, p, lease));
      Shows(after, AfterClaim(v, p, lease))
  {
    LeasesOne(s.db, v.row, v.now, lease);
    ClaimsOne(s, v.row, p, v.now, lease);
  }

  lemma ClaimFinished(setup: Setup, s: System, v: View, p: nat)
    requires s.claims == map[p := Hold({1}, v.now)] && Enabled(setup, s, FinishClaim(p))
    ensures Next(setup, s, FinishClaim(p)) ==
            s.(db := LeaseAll(s.db, {1}, v.now, setup.lease), claims := map[],
               crawls := s.crawls + Engine.Claimed(s, p, setup.lease))
  {
    assert s.claims - {p} == map[];
  }

  /** An honest run that ends with the lock of the claim taken. */
  ghost predicate Locks(setup: Setup, events: seq<Event>, v: View, p: nat) {
    && Runs(setup, events) && HonestFrom(setup, events, 1, 0)
    && Final(setup, events).claims == map[p := Hold({1}, v.now)]
    && Shows(Final(setup, events).(claims := map[]), v)
    && forall k :: k in v.crawls ==> k.process != p
  }

  lemma ClaimLocks(setup: Setup, events: seq<Event>, v: View, p: nat)
    requires Reaches(setup, events, v) && IsDue(v.row, v.now) && forall k :: k in v.crawls ==> k.process != p
    ensures Locks(setup, events + [LockDue(p, 1, {}, {1})], v, p)
  {
    OnlyOneDue(Final(setup, events), v);
    Extend(setup, events, LockDue(p, 1, {}, {1}));
  }

  lemma LockedClaimEnds(setup: Setup, events: seq<Event>, v: View, p: nat)
    requires Locks(setup, events, v, p)
    ensures Reaches(setup, events + [FinishClaim(p)], AfterClaim(v, p, setup.lease))
  {
    Extend(setup, events, FinishClaim(p));
    ClaimFinished(setup, Final(setup, events), v, p);
    ClaimShows(Final(setup, events), v, p, setup.lease);
  }

  lemma ClaimRuns(setup: Setup, events: seq<Event>, v: View, p: nat)
    requires Reaches(setup, events, v) && IsDue(v.row, v.now) && forall k :: k in v.crawls ==> k.process != p
    ensures Reaches(setup, events + ClaimOf(p), AfterClaim(v, p, setup.lease))
  {
    ClaimLocks(setup, events, v, p);
    var locked := events + [LockDue(p, 1, {}, {1})];
    LockedClaimEnds(setup, locked, v, p);
    assert locked + [FinishClaim(p)] == events + ClaimOf(p);
  }

  // ---- Sharing a feed ----

  /** Two processes crawl the feed at once. */
  ghost predicate Shared(setup: Setup, run: seq<Event>) {
    Runs(setup, run) && Key(0, 1) in Final(setup, run).crawls && Key(1, 1) in Final(setup, run).crawls
  }

  predicate NoColdCrawl(run: seq<Event>) {
    forall i :: 0 <= i < |run| ==> !run[i].StartCold?
  }

  predicate NoTick(run: seq<Event>) {
    forall i :: 0 <= i < |run| ==> !run[i].Tick?
  }

  predicate PastItsLease(crawl: Crawl, now: int) {
    crawl.origin.Lease? && crawl.origin.until <= now
  }

  predicate WithinItsLease(crawl: Crawl, now: int) {
    crawl.origin.Lease? && now < crawl.origin.until
  }

  /** No crawl was cold: one process has outlived its lease, and the other has claimed the feed. */
  ghost predicate SharedAfterOverrun(setup: Setup, run: seq<Event>) {
    && Shared(setup, run) && NoColdCrawl(run)
    && var s := Final(setup, run);
       PastItsLease(s.crawls[Key(0, 1)], s.now) && WithinItsLease(s.crawls[Key(1, 1)], s.now)
  }

  /** One process is within its lease, and the other crawls the feed cold. */
  ghost predicate SharedInTime(setup: Setup, run: seq<Event>) {
    && Shared(setup, run) && NoTick(run)
    && var s := Final(setup, run);
       WithinItsLease(s.crawls[Key(0, 1)], s.now) && s.crawls[Key(1, 1)].origin == Cold
  }

  function TakenView(lease: int): View {
    AfterClaim(View(Requested(NewFeed(1, URL, 0), 0), [], map[], 0, {}), 0, lease)
  }

  /** A feed was seeded, requested and claimed, and nothing else has happened. */
  ghost predicate IsTaken(setup: Setup, events: seq<Event>) {
    Reaches(setup, events, TakenView(setup.lease)) && NoColdCrawl(events) && NoTick(events)
  }

  lemma ClaimIsQuiet(events: seq<Event>, p: nat)
    ensures NoColdCrawl(events) ==> NoColdCrawl(events + ClaimOf(p))
    ensures NoTick(events) ==> NoTick(events + ClaimOf(p))
  {
  }

  lemma Requestable(setup: Setup) returns (events: seq<Event>)
    ensures Reaches(setup, events, View(Requested(NewFeed(1, URL, 0), 0), [], map[], 0, {}))
    ensures NoColdCrawl(events) && NoTick(events)
  {
    Seeded(setup);
    Woken(setup, [Seed(URL)], View(NewFeed(1, URL, 0), [], map[], 0, {}));
    events := [Seed(URL)] + [Request(1, 0)];
  }

  lemma Taken(setup: Setup) returns (events: seq<Event>)
    ensures IsTaken(setup, events)
  {
    var woken := Requestable(setup);
    ClaimRuns(setup, woken, View(Requested(NewFeed(1, URL, 0), 0), [], map[], 0, {}), 0);
    ClaimIsQuiet(woken, 0);
    events := woken + ClaimOf(0);
  }

  lemma ClaimShares(setup: Setup, run: seq<Event>, v: View)
    requires setup.Valid() && Reaches(setup, run, AfterClaim(v, 1, setup.lease)) && NoColdCrawl(run)
    requires v.crawls.Keys == {Key(0, 1)} && PastItsLease(v.crawls[Key(0, 1)], v.now)
    ensures SharedAfterOverrun(setup, run)
  {
  }

  lemma SecondClaimShares(setup: Setup, events: seq<Event>, v: View)
    requires setup.Valid() && Reaches(setup, events, v) && NoColdCrawl(events) && IsDue(v.row, v.now)
    requires v.crawls.Keys == {Key(0, 1)} && PastItsLease(v.crawls[Key(0, 1)], v.now)
    ensures SharedAfterOverrun(setup, events + ClaimOf(1))
  {
    ClaimRuns(setup, events, v, 1);
    ClaimIsQuiet(events, 1);
    ClaimShares(setup, events + ClaimOf(1), v);
  }

  lemma ColdStartShares(setup: Setup, events: seq<Event>, v: View)
    requires Reaches(setup, events, v) && NoTick(events) && v.row.NeverCrawled()
    requires v.crawls.Keys == {Key(0, 1)} && WithinItsLease(v.crawls[Key(0, 1)], v.now)
    ensures SharedInTime(setup, events + [StartCold(1, 1)])
  {
    ColdStarted(setup, events, v, 1);
  }

  lemma OverrunShares(setup: Setup, events: seq<Event>)
    requires setup.Valid() && IsTaken(setup, events)
    ensures SharedAfterOverrun(setup, events + [Tick(setup.lease)] + ClaimOf(1))
  {
    var v := TakenView(setup.lease);
    Ticked(setup, events, v, setup.lease);
    SecondClaimShares(setup, events + [Tick(setup.lease)], v.(now := setup.lease));
  }

  /** Without any cold crawl, a crawl that outlives its lease ends up sharing its feed. */
  lemma OverrunSharesFeed(setup: Setup)
    requires setup.Valid()
    ensures exists run :: SharedAfterOverrun(setup, run)
  {
    var events := Taken(setup);
    OverrunShares(setup, events);
  }

  /** Within its lease, a crawl shares its feed with a cold crawl. */
  lemma ColdCrawlSharesFeed(setup: Setup)
    requires setup.Valid()
    ensures exists run :: SharedInTime(setup, run)
  {
    var events := Taken(setup);
    ColdStartShares(setup, events, TakenView(setup.lease));
  }

  // ---- A harmful record ----

  /** A document the crawler can store: within the limit, parsable, and announcing no move. */
  predicate IsDocument(cfg: Config, d: string) {
    && |d| <= cfg.maxBody
    && ParseDocument(cfg.codec, d).Some? && ParseDocument(cfg.codec, d).value.newFeedUrl == ""
  }

  function EpisodesOf(cfg: Config, d: string): seq<EpisodeUpsert>
    requires IsDocument(cfg, d)
  {
    ParseDocument(cfg.codec, d).value.episodes
  }

  function Full(tag: string, d: string): Response {
    Response(200, tag, "", None, Absent, Stream(d, false))
  }

  const NOT_MODIFIED := Response(304, "", "", None, Absent, Stream("", false))

  /** How a crawl of the snapshot goes that gets the response now. */
  function AnswerAt(cfg: Config, s: System, snapshot: Feed, response: Response, document: string): Answer {
    var env := Env(s.now, 0.5, LookupFailed, []);
    var fetched := ClassifyFor(cfg, snapshot, response, s.now);
    Answer(s.db, snapshot, response, document, s.now, env, fetched, NextState(cfg, snapshot, fetched, env),
           Issued(cfg, snapshot.url, response, document))
  }

  /** The row is active and holds the tag and the hash of the document. */
  predicate Tagged(cfg: Config, row: Feed, tag: string, d: string) {
    && row.id == 1 && row.url == URL && row.redirectedTo == None && row.status == Active
    && row.etag == tag && row.lastModified == "" && row.bodyHash == cfg.codec.sha(d)
  }

  lemma FullFetch(cfg: Config, snapshot: Feed, tag: string, d: string, now: int)
    requires |d| <= cfg.maxBody && snapshot.bodyHash == ""
    ensures
      var fetched := ClassifyFor(cfg, snapshot, Full(tag, d), now);
      && fetched.outcome == Changed && fetched.body == d && fetched.bodyHash == cfg.codec.sha(d)
      && fetched.etag == tag && fetched.lastModified == ""
  {
  }

  lemma FullAnswer(cfg: Config, s: System, snapshot: Feed, tag: string, d: string)
    requires IsDocument(cfg, d) && snapshot.id == 1 && snapshot.url == URL && snapshot.redirectedTo == None
    requires snapshot.bodyHash == ""
    ensures
      var a := AnswerAt(cfg, s, snapshot, Full(tag, d), d);
      && a.result.parsed && a.result.episodes == EpisodesOf(cfg, d) && Tagged(cfg, a.result.feed, tag, d)
      && a.issues == {Issue(URL, tag, "", cfg.codec.sha(d), d)}
  {
    FullFetch(cfg, snapshot, tag, d, s.now);
  }

  lemma ConfirmingAnswer(cfg: Config, s: System, snapshot: Feed, tag: string, d: string)
    requires Tagged(cfg, snapshot, tag, d)
    ensures
      var a := AnswerAt(cfg, s, snapshot, NOT_MODIFIED, d);
      && !a.result.parsed && a.fetched.outcome == NotModified && Tagged(cfg, a.result.feed, tag, d)
      && a.issues == {Issue(URL, "", "", "", d)}
  {
  }

  lemma Responded(setup: Setup, events: seq<Event>, v: View, k: Key, response: Response, document: string)
    returns (run: seq<Event>, w: View)
    requires setup.Valid() && Reaches(setup, events, v) && k in v.crawls && v.crawls[k].Fetching? && k.feed == 1
    requires Honest(setup.crawler, v.log,
                    AnswerAt(setup.crawler, Final(setup, events), v.crawls[k].waiting, response, document))
    ensures Reaches(setup, run, w)
    ensures
      var a := AnswerAt(setup.crawler, Final(setup, events), v.crawls[k].waiting, response, document);
      w == v.(crawls := v.crawls[k := Ready(a, v.crawls[k].origin)], log := v.log + a.issues)
  {
    var a := AnswerAt(setup.crawler, Final(setup, events), v.crawls[k].waiting, response, document);
    assert IsAnswer(setup.crawler, a);
    Extend(setup, events, Respond(k, a));
    run := events + [Respond(k, a)];
    w := v.(crawls := v.crawls[k := Ready(a, v.crawls[k].origin)], log := v.log + a.issues);
  }

  function AfterRecord(v: View, k: Key): View
    requires k in v.crawls && v.crawls[k].Ready?
  {
    var result := v.crawls[k].answer.result;
    v.(row := RowAfterCrawl(v.row, result, v.now),
       parses := v.parses + (if result.parsed then [result.episodes] else []),
       crawls := v.crawls - {k})
  }

  lemma RecordsOne(db: Db, row: Feed, result: CrawlResult, now: int)
    requires db.feeds == map[1 := row] && result.feed.id == 1 && result.feed.redirectedTo == None
    ensures ApplyCrawl(db, result, now).Ok?
    ensures ApplyCrawl(db, result, now).value.feeds == map[1 := RowAfterCrawl(row, result, now)]
  {
  }

  lemma Recorded(setup: Setup, events: seq<Event>, v: View, k: Key) returns (run: seq<Event>)
    requires Reaches(setup, events, v) && k in v.crawls && v.crawls[k].Ready? && k.feed == 1
    requires var a := v.crawls[k].answer;
             a.env.now <= v.now && a.result.feed.id == 1 && a.result.feed.redirectedTo == None
    ensures run == events + [Record(k, v.now)] && Reaches(setup, run, AfterRecord(v, k))
    ensures Engine.Recorded(Final(setup, events), Record(k, v.now), 1)
  {
    var s := Final(setup, events);
    RecordsOne(s.db, v.row, v.crawls[k].answer.result, v.now);
    ParsesOfStatement(s.Trace(), History.Record(v.crawls[k].answer.result, v.now), 1);
    Extend(setup, events, Record(k, v.now));
    assert Next(setup, s, Record(k, v.now)).Trace() == NextTrace(setup, s, Record(k, v.now));
    run := events + [Record(k, v.now)];
  }

  /** The crawl got a 304 for the document's tag. */
  predicate Confirming(cfg: Config, crawl: Crawl, d: string, now: int) {
    && Confirms(crawl) && Tagged(cfg, crawl.answer.result.feed, "a", d)
    && crawl.answer.document == d && crawl.answer.env.now <= now
  }

  /** Only the document was ever served under the tag. */
  ghost predicate TagIsFor(log: set<Issue>, d: string) {
    TagMeans(log, URL, "a", d)
  }

  lemma ClaimWhenDue(setup: Setup, events: seq<Event>, v: View, p: nat) returns (run: seq<Event>, w: View)
    requires Reaches(setup, events, v) && v.row.status == Active && forall k :: k in v.crawls ==> k.process != p
    ensures Reaches(setup, run, w) && w == AfterClaim(v.(now := Max(v.now, v.row.nextCheckAt)), p, setup.lease)
  {
    var to := Max(v.now, v.row.nextCheckAt);
    Ticked(setup, events, v, to);
    ClaimRuns(setup, events + [Tick(to)], v.(now := to), p);
    run := events + [Tick(to)] + ClaimOf(p);
    w := AfterClaim(v.(now := to), p, setup.lease);
  }

  /** A crawl without validators gets the document and is recorded. */
  lemma ParseRecorded(setup: Setup, events: seq<Event>, v: View, k: Key, tag: string, d: string)
    returns (run: seq<Event>, w: View)
    requires setup.Valid() && IsDocument(setup.crawler, d) && Reaches(setup, events, v)
    requires k in v.crawls && k.feed == 1 && v.crawls[k] == Fetching(NewFeed(1, URL, 0), Cold)
    ensures Reaches(setup, run, w) && Tagged(setup.crawler, w.row, tag, d)
    ensures w.parses == v.parses + [EpisodesOf(setup.crawler, d)] && w.crawls == v.crawls - {k} && w.now == v.now
    ensures w.log == v.log + {Issue(URL, tag, "", setup.crawler.codec.sha(d), d)}
  {
    FullAnswer(setup.crawler, Final(setup, events), v.crawls[k].waiting, tag, d);
    var answered, u := Responded(setup, events, v, k, Full(tag, d), d);
    run := Recorded(setup, answered, u, k);
    w := AfterRecord(u, k);
  }

  /** A crawl of the tagged row is claimed when due, and gets a 304. */
  lemma ConfirmationArrives(setup: Setup, events: seq<Event>, v: View, p: nat, d: string)
    returns (run: seq<Event>, w: View)
    requires setup.Valid() && Reaches(setup, events, v) && forall k :: k in v.crawls ==> k.process != p
    requires Tagged(setup.crawler, v.row, "a", d) && TagIsFor(v.log, d)
    ensures Reaches(setup, run, w) && Tagged(setup.crawler, w.row, "a", d) && w.parses == v.parses
    ensures Key(p, 1) in w.crawls && Confirming(setup.crawler, w.crawls[Key(p, 1)], d, w.now)
    ensures w.crawls == v.crawls[Key(p, 1) := w.crawls[Key(p, 1)]] && w.log == v.log + {Issue(URL, "", "", "", d)}
  {
    var claimed, u := ClaimWhenDue(setup, events, v, p);
    ConfirmingAnswer(setup.crawler, Final(setup, claimed), u.crawls[Key(p, 1)].waiting, "a", d);
    run, w := Responded(setup, claimed, u, Key(p, 1), NOT_MODIFIED, d);
  }

  lemma TwoColdCrawls(setup: Setup) returns (run: seq<Event>, v: View)
    ensures Reaches(setup, run, v) && v.log == {} && v.parses == []
    ensures v.crawls == map[Key(0, 1) := Fetching(NewFeed(1, URL, 0), Cold), Key(1, 1) := Fetching(NewFeed(1, URL, 0), Cold)]
  {
    v := View(NewFeed(1, URL, 0), [], map[], 0, {});
    run := [Seed(URL)];
    Seeded(setup);
    ColdStarted(setup, run, v, 0);
    run, v := run + [StartCold(0, 1)], v.(crawls := v.crawls[Key(0, 1) := Fetching(v.row, Cold)]);
    ColdStarted(setup, run, v, 1);
    run, v := run + [StartCold(1, 1)], v.(crawls := v.crawls[Key(1, 1) := Fetching(v.row, Cold)]);
  }

  /** A slow first crawl and one of the stored document are under way together. */
  lemma CrawlsOverlap(setup: Setup, d: string) returns (run: seq<Event>, v: View)
    requires setup.Valid() && IsDocument(setup.crawler, d)
    ensures Reaches(setup, run, v) && v.parses == [EpisodesOf(setup.crawler, d)] && TagIsFor(v.log, d)
    ensures v.crawls.Keys == {Key(1, 1), Key(2, 1)} && v.crawls[Key(1, 1)] == Fetching(NewFeed(1, URL, 0), Cold)
    ensures Confirming(setup.crawler, v.crawls[Key(2, 1)], d, v.now)
  {
    run, v := TwoColdCrawls(setup);
    run, v := ParseRecorded(setup, run, v, Key(0, 1), "a", d);
    run, v := ConfirmationArrives(setup, run, v, 2, d);
  }

  /** The new document is recorded first, then the 304 for the old one. */
  lemma ChangedThenConfirmed(setup: Setup, d: string, e: string) returns (run: seq<Event>, v: View)
    requires setup.Valid() && IsDocument(setup.crawler, d) && IsDocument(setup.crawler, e)
    ensures Reaches(setup, run, v) && v.parses == [EpisodesOf(setup.crawler, d), EpisodesOf(setup.crawler, e)]
    ensures v.crawls == map[] && Tagged(setup.crawler, v.row, "a", d) && TagIsFor(v.log, d)
  {
    run, v := CrawlsOverlap(setup, d);
    run, v := ParseRecorded(setup, run, v, Key(1, 1), "b", e);
    run := Recorded(setup, run, v, Key(2, 1));
    v := AfterRecord(v, Key(2, 1));
  }

  /** An honest run that ends in a crawl, alone and not modified, after which reads are wrong. */
  ghost predicate ServesStale(setup: Setup, run: seq<Event>, document: string) {
    && run != [] && Runs(setup, run) && HonestFrom(setup, run, 1, 0)
    && var before, e := Final(setup, run[..|run| - 1]), run[|run| - 1];
       && EndsFresh(before, e) && Alone(before, 1) && Confirms(before.crawls[e.key])
       && before.crawls[e.key].answer.document == document
       && forall list :: IsEpisodesByFeed(Final(setup, run).db, 1, list) ==>
                           !ServesDocument(setup.crawler, document, list)
  }

  lemma ReadsServeTheOther(setup: Setup, run: seq<Event>, v: View, d: string, list: seq<EpisodeRow>)
    requires setup.Valid() && IsDocument(setup.crawler, d) && Reaches(setup, run, v) && v.parses != []
    requires History.LastOccurrences(EpisodesOf(setup.crawler, d)) != History.LastOccurrences(v.parses[|v.parses| - 1])
    requires IsEpisodesByFeed(Final(setup, run).db, 1, list)
    ensures !ServesDocument(setup.crawler, d, list)
  {
    EveryReadServesLastParse(setup, run, 1, list);
  }

  /**
   Why an outdated confirmation must not be recorded: two crawls overlap, the one with the new
   document is recorded first and the 304 for the old one second. When the server goes back to
   the old document, a third crawl, alone, is told not modified, and the new one stays served.
   */
  lemma HarmfulRecordServesStale(setup: Setup, d: string, e: string)
    requires setup.Valid() && IsDocument(setup.crawler, d) && IsDocument(setup.crawler, e)
    requires History.LastOccurrences(EpisodesOf(setup.crawler, d)) != History.LastOccurrences(EpisodesOf(setup.crawler, e))
    ensures exists run :: ServesStale(setup, run, d)
  {
    var run, v := ChangedThenConfirmed(setup, d, e);
    run, v := ConfirmationArrives(setup, run, v, 2, d);
    var front := run;
    assert v.crawls.Keys == {Key(2, 1)};
    run := Recorded(setup, front, v, Key(2, 1));
    v := AfterRecord(v, Key(2, 1));
    forall list | IsEpisodesByFeed(Final(setup, run).db, 1, list) ensures !ServesDocument(setup.crawler, d, list) {
      ReadsServeTheOther(setup, run, v, d, list);
    }
    assert run[..|run| - 1] == front;
    assert ServesStale(setup, run, d);
  }
}

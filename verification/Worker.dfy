/**
 The drain loop of crawl/worker.go with the clock held still: one claimed batch after another
 until nothing is due. What each feed's server and the environment do is an oracle.
 */
module Worker {
  import opened Prelude
  import opened Query
  import opened Fetch
  import opened Catalogue
  import opened Schedule
  import opened Store
  import opened Crawler
  import opened Effects

  datatype Exchange = Exchange(response: Response, draw: real, lookupFails: bool, queryFails: bool, commits: bool)

  type Oracle = nat -> Exchange

  // ---- A crawled feed is not due any more ----

  lemma NextCheckIsLater(p: Policy, interval: int, now: int, draw: real)
    requires p.Valid() && p.min >= 2 && p.min <= interval && IsDraw(draw)
    ensures NextCheck(now, interval, draw) > now
  {
    JitterWithinTenPercent(interval, draw);
  }

  lemma FailureIsLater(p: Policy, feed: Feed, cause: Option<string>, env: Env)
    requires p.Valid() && p.min >= 2 && IsDraw(env.draw)
    ensures AfterFailure(p, feed, cause, env).nextCheckAt > env.now
  {
    IntervalsAreClamped(p, feed.checkInterval, []);
    NextCheckIsLater(p, IntervalAfterError(p, feed.checkInterval), env.now, env.draw);
  }

  /** A crawl of a leased feed puts it off, unless it moved: then it is due again at once. */
  lemma CrawlReschedules(cfg: Config, snapshot: Feed, fetched: FetchResult, env: Env)
    requires cfg.policy.Valid() && cfg.policy.min >= 2 && IsDraw(env.draw)
    requires snapshot.nextCheckAt > env.now
    ensures
      var next := NextState(cfg, snapshot, fetched, env).feed;
      next.nextCheckAt > env.now <==> next.url == snapshot.url
  {
    var p := cfg.policy;
    var feed := Awake(snapshot, fetched.statusCode);
    IntervalsAreClamped(p, feed.checkInterval, []);
    match fetched.outcome
    case Changed =>
      FailureIsLater(p, feed, Some(PARSE_ERROR), env);
      var parsed := Parse.ParseDocument(cfg.codec, fetched.body);
      if parsed.Some? {
        var dates := CadenceDates(parsed.value.episodes, env.stored);
        IntervalsAreClamped(p, 0, dates);
        NextCheckIsLater(p, IntervalAfterChange(p, dates), env.now, env.draw);
      }
    case NotModified =>
      NextCheckIsLater(p, IntervalAfterNoChange(p, feed.checkInterval), env.now, env.draw);
    case Failed =>
      FailureIsLater(p, feed, fetched.error, env);
    case _ =>
  }

  // ---- The state of a drain ----

  ghost predicate SameUrls(a: Db, b: Db) {
    a.feeds.Keys == b.feeds.Keys && forall id :: id in a.feeds ==> a.feeds[id].url == b.feeds[id].url
  }

  /** No due feed's crawl ends in an accepted move. */
  ghost predicate NobodyMoves(cfg: Config, db: Db, oracle: Oracle, now: int, lease: int) {
    forall id: nat, env: Env | id in db.feeds && IsDue(db.feeds[id], now) && env.now == now ::
      var snapshot := Leased(db.feeds[id], now, lease);
      LooksUp(cfg, db, snapshot, oracle(id).response, now, env) ==>
        CrawlOf(cfg, snapshot, oracle(id).response, now, env).feed.url == db.feeds[id].url
  }

  ghost predicate LooksUp(cfg: Config, db: Db, snapshot: Feed, response: Response, now: int, env: Env) {
    IsLookup(db, MoveTarget(Announced(cfg, ClassifyFor(cfg, snapshot, response, now)), snapshot.url), env.lookup)
  }

  /** The feeds not yet claimed are as they were, the claimed ones are not due. */
  ghost predicate Progress(start: Db, db: Db, claimed: set<nat>, now: int) {
    && SameUrls(start, db)
    && (forall id :: id in db.feeds && id !in claimed ==> Same(start, db, id))
    && (forall id :: id in db.feeds && id in claimed ==> !IsDue(db.feeds[id], now))
  }

  /** The feed's row and its episodes are the same. */
  ghost predicate Same(a: Db, b: Db, id: nat) {
    id in a.feeds && id in b.feeds && a.feeds[id] == b.feeds[id] && a.RowsOf(id) == b.RowsOf(id)
  }

  /** The feed is as one crawl of it from its leased row left it, seeing what env says. */
  ghost predicate IsOutcome(
    cfg: Config, start: Db, db: Db, id: nat, x: Exchange, now: int, lease: int, env: Env)
  {
    && id in start.feeds && id in db.feeds
    && var snapshot := Leased(start.feeds[id], now, lease);
       var fetched := ClassifyFor(cfg, snapshot, x.response, now);
       var result := NextState(cfg, snapshot, fetched, env);
       && snapshot.id == id && env.now == now && env.draw == x.draw
       && Observes(cfg, start, snapshot, fetched, env)
       && Answered(cfg, start, snapshot, fetched, env, x.lookupFails, x.queryFails)
       && (if x.commits then
             && db.feeds[id] == RowAfterCrawl(snapshot, result, now)
             && db.RowsOf(id) == RowsAfterCrawl(start.RowsOf(id), db.feeds[id].crawlSeq, result)
           else
             db.feeds[id] == snapshot && db.RowsOf(id) == start.RowsOf(id))
  }

  ghost predicate Settled(cfg: Config, start: Db, db: Db, id: nat, oracle: Oracle, now: int, lease: int) {
    exists env :: IsOutcome(cfg, start, db, id, oracle(id), now, lease, env)
  }

  /** Each of the feeds was crawled once, and the crawl recorded unless its commit failed. */
  ghost predicate AllSettled(cfg: Config, start: Db, db: Db, ids: set<nat>, oracle: Oracle, now: int, lease: int) {
    forall id :: id in ids ==> Settled(cfg, start, db, id, oracle, now, lease)
  }

  lemma LookupIsStable(start: Db, db: Db, url: string, lookup: Lookup)
    requires SameUrls(start, db) && IsLookup(db, url, lookup)
    ensures IsLookup(start, url, lookup)
  {
  }

  /** A recorded crawl touches its own row only, and leaves it not due. */
  lemma RecordedIsNotDue(cfg: Config, start: Db, db: Db, id: nat, oracle: Oracle, now: int, lease: int, env: Env)
    requires cfg.policy.Valid() && cfg.policy.min >= 2 && lease > 0
    requires NobodyMoves(cfg, start, oracle, now, lease)
    requires SameUrls(start, db) && id in start.feeds && IsDue(start.feeds[id], now) && start.feeds[id].id == id
    requires env.now == now
    requires var snapshot := Leased(start.feeds[id], now, lease);
             Observes(cfg, db, snapshot, ClassifyFor(cfg, snapshot, oracle(id).response, now), env)
    ensures
      var result := CrawlOf(cfg, Leased(start.feeds[id], now, lease), oracle(id).response, now, env);
      && result.feed.id == id && result.feed.url == start.feeds[id].url
      && result.feed.nextCheckAt > now
  {
    var snapshot := Leased(start.feeds[id], now, lease);
    var fetched := ClassifyFor(cfg, snapshot, oracle(id).response, now);
    LookupIsStable(start, db, MoveTarget(Announced(cfg, fetched), snapshot.url), env.lookup);
    assert LooksUp(cfg, start, snapshot, oracle(id).response, now, env);
    CrawlReschedules(cfg, snapshot, fetched, env);
    ResultKeepsId(cfg, snapshot, fetched, env);
  }

  lemma ApplyTouchesOneRow(db: Db, result: CrawlResult, now: int)
    requires ApplyCrawl(db, result, now).Ok?
    ensures
      var after := ApplyCrawl(db, result, now).value;
      && after.feeds.Keys == db.feeds.Keys && result.feed.id in db.feeds
      && (forall id :: id in db.feeds && id != result.feed.id ==> after.feeds[id] == db.feeds[id])
      && after.feeds[result.feed.id].url == result.feed.url
      && after.feeds[result.feed.id].nextCheckAt == result.feed.nextCheckAt
      && (forall id :: id != result.feed.id ==> after.RowsOf(id) == db.RowsOf(id))
  {
  }

  /** What a crawl saw of the tables in mid-batch it would have seen at the start. */
  lemma SeenAtStart(cfg: Config, start: Db, db: Db, feed: Feed, fetched: FetchResult, env: Env, x: Exchange)
    requires SameUrls(start, db) && db.RowsOf(feed.id) == start.RowsOf(feed.id)
    requires Observes(cfg, db, feed, fetched, env) && Answered(cfg, db, feed, fetched, env, x.lookupFails, x.queryFails)
    ensures Observes(cfg, start, feed, fetched, env)
    ensures Answered(cfg, start, feed, fetched, env, x.lookupFails, x.queryFails)
  {
  }

  /** A crawl of the current row that does not move it is never refused. */
  lemma NotRefused(cfg: Config, db: Db, feed: Feed, fetched: FetchResult, env: Env)
    requires db.Consistent() && feed.id in db.feeds && db.feeds[feed.id] == feed
    requires IsLookup(db, MoveTarget(Announced(cfg, fetched), feed.url), env.lookup)
    requires NextState(cfg, feed, fetched, env).feed.url == feed.url
    ensures UpdateError(db, NextState(cfg, feed, fetched, env).feed) == None
  {
    ResultKeepsId(cfg, feed, fetched, env);
    assert SoundTarget(db.feeds, feed);
    TargetStaysSound(cfg, db, feed, fetched, env);
  }

  lemma TargetStaysSound(cfg: Config, db: Db, feed: Feed, fetched: FetchResult, env: Env)
    requires SoundTarget(db.feeds, feed)
    requires IsLookup(db, MoveTarget(Announced(cfg, fetched), feed.url), env.lookup)
    ensures SoundTarget(db.feeds, NextState(cfg, feed, fetched, env).feed)
  {
  }

  lemma SettledByCrawl(
    cfg: Config, start: Db, db: Db, after: Db, feed: Feed, oracle: Oracle, now: int, lease: int, env: Env)
    requires feed.id in start.feeds && feed.id in db.feeds
    requires feed == Leased(start.feeds[feed.id], now, lease) == db.feeds[feed.id]
    requires SameUrls(start, db) && db.RowsOf(feed.id) == start.RowsOf(feed.id)
    requires env.now == now && env.draw == oracle(feed.id).draw
    requires var x, fetched := oracle(feed.id), ClassifyFor(cfg, feed, oracle(feed.id).response, now);
             && Observes(cfg, db, feed, fetched, env)
             && Answered(cfg, db, feed, fetched, env, x.lookupFails, x.queryFails)
    requires if oracle(feed.id).commits
             then ApplyCrawl(db, CrawlOf(cfg, feed, oracle(feed.id).response, now, env), now) == Ok(after)
             else after == db
    ensures Settled(cfg, start, after, feed.id, oracle, now, lease)
  {
    var fetched := ClassifyFor(cfg, feed, oracle(feed.id).response, now);
    SeenAtStart(cfg, start, db, feed, fetched, env, oracle(feed.id));
    ResultKeepsId(cfg, feed, fetched, env);
    assert IsOutcome(cfg, start, after, feed.id, oracle(feed.id), now, lease, env);
  }

  lemma SettledStays(cfg: Config, start: Db, db: Db, after: Db, ids: set<nat>, oracle: Oracle, now: int, lease: int)
    requires AllSettled(cfg, start, db, ids, oracle, now, lease)
    requires forall id :: id in ids && id in db.feeds ==> Same(db, after, id)
    ensures AllSettled(cfg, start, after, ids, oracle, now, lease)
  {
    forall id | id in ids ensures Settled(cfg, start, after, id, oracle, now, lease) {
      var env :| IsOutcome(cfg, start, db, id, oracle(id), now, lease, env);
      assert IsOutcome(cfg, start, after, id, oracle(id), now, lease, env);
    }
  }

  /** Feeds that were untouched until their batch are settled as seen from the start of it all. */
  lemma SettledFromStart(
    cfg: Config, start: Db, before: Db, after: Db, ids: set<nat>, oracle: Oracle, now: int, lease: int)
    requires AllSettled(cfg, before, after, ids, oracle, now, lease)
    requires SameUrls(start, before) && forall id :: id in ids && id in before.feeds ==> Same(start, before, id)
    ensures AllSettled(cfg, start, after, ids, oracle, now, lease)
  {
    forall id | id in ids ensures Settled(cfg, start, after, id, oracle, now, lease) {
      var env :| IsOutcome(cfg, before, after, id, oracle(id), now, lease, env);
      var snapshot := Leased(before.feeds[id], now, lease);
      SeenAtStart(cfg, start, before, snapshot, ClassifyFor(cfg, snapshot, oracle(id).response, now), env, oracle(id));
      assert IsOutcome(cfg, start, after, id, oracle(id), now, lease, env);
    }
  }

  /** A claimed feed whose crawl was not recorded keeps its lease, so it is not due. */
  lemma ProgressUnrecorded(leased: Db, db: Db, id: nat, done: set<nat>, now: int)
    requires Progress(leased, db, done, now) && id in leased.feeds && !IsDue(leased.feeds[id], now)
    ensures Progress(leased, db, done + {id}, now)
  {
    assert id in db.feeds && id !in done ==> Same(leased, db, id);
  }

  lemma ProgressRecorded(leased: Db, db: Db, after: Db, result: CrawlResult, done: set<nat>, now: int)
    requires Progress(leased, db, done, now) && ApplyCrawl(db, result, now) == Ok(after)
    requires result.feed.id in leased.feeds && result.feed.url == leased.feeds[result.feed.id].url
    requires result.feed.nextCheckAt > now
    ensures Progress(leased, after, done + {result.feed.id}, now)
  {
    ApplyTouchesOneRow(db, result, now);
  }

  /** A crawl of a claimed feed, recorded or not, adds it to the settled ones. */
  lemma ProgressOfCrawl(
    cfg: Config, start: Db, leased: Db, db: Db, after: Db, feed: Feed, oracle: Oracle, now: int, lease: int,
    env: Env, done: set<nat>)
    requires cfg.policy.Valid() && cfg.policy.min >= 2 && lease > 0
    requires NobodyMoves(cfg, start, oracle, now, lease)
    requires SameUrls(start, leased) && Progress(leased, db, done, now)
    requires feed.id !in done && ClaimedFrom(start, leased, feed, now, lease)
    requires env.now == now && Observes(cfg, db, feed, ClassifyFor(cfg, feed, oracle(feed.id).response, now), env)
    requires after == db || ApplyCrawl(db, CrawlOf(cfg, feed, oracle(feed.id).response, now, env), now) == Ok(after)
    ensures Progress(leased, after, done + {feed.id}, now)
  {
    RecordedIsNotDue(cfg, start, db, feed.id, oracle, now, lease, env);
    if after == db {
      ProgressUnrecorded(leased, db, feed.id, done, now);
    } else {
      ProgressRecorded(leased, db, after, CrawlOf(cfg, feed, oracle(feed.id).response, now, env), done, now);
    }
  }

  /** A crawl of a claimed feed whose commit works is recorded. */
  lemma CrawlIsRecorded(
    cfg: Config, start: Db, leased: Db, db: Db, feed: Feed, oracle: Oracle, now: int, lease: int, env: Env, done: set<nat>)
    requires cfg.policy.Valid() && cfg.policy.min >= 2 && lease > 0
    requires NobodyMoves(cfg, start, oracle, now, lease)
    requires SameUrls(start, leased) && Progress(leased, db, done, now) && db.Consistent()
    requires feed.id !in done && ClaimedFrom(start, leased, feed, now, lease)
    requires env.now == now && Observes(cfg, db, feed, ClassifyFor(cfg, feed, oracle(feed.id).response, now), env)
    ensures ApplyCrawl(db, CrawlOf(cfg, feed, oracle(feed.id).response, now, env), now).Ok?
  {
    RecordedIsNotDue(cfg, start, db, feed.id, oracle, now, lease, env);
    assert Same(leased, db, feed.id);
    NotRefused(cfg, db, feed, ClassifyFor(cfg, feed, oracle(feed.id).response, now), env);
  }

  lemma OneMoreSettled(
    cfg: Config, start: Db, leased: Db, db: Db, after: Db, feed: Feed, oracle: Oracle, now: int, lease: int,
    env: Env, done: set<nat>)
    requires SameUrls(start, leased) && start.episodes == leased.episodes && Progress(leased, db, done, now)
    requires AllSettled(cfg, start, db, done, oracle, now, lease)
    requires feed.id !in done && ClaimedFrom(start, leased, feed, now, lease)
    requires env.now == now && env.draw == oracle(feed.id).draw
    requires var x, fetched := oracle(feed.id), ClassifyFor(cfg, feed, oracle(feed.id).response, now);
             && Observes(cfg, db, feed, fetched, env)
             && Answered(cfg, db, feed, fetched, env, x.lookupFails, x.queryFails)
    requires if oracle(feed.id).commits
             then ApplyCrawl(db, CrawlOf(cfg, feed, oracle(feed.id).response, now, env), now) == Ok(after)
             else after == db
    ensures AllSettled(cfg, start, after, done + {feed.id}, oracle, now, lease)
  {
    assert Same(leased, db, feed.id);
    SettledByCrawl(cfg, start, db, after, feed, oracle, now, lease, env);
    OthersStay(cfg, db, after, feed, oracle, now, env);
    SettledStays(cfg, start, db, after, done, oracle, now, lease);
  }

  lemma OthersStay(cfg: Config, db: Db, after: Db, feed: Feed, oracle: Oracle, now: int, env: Env)
    requires after == db || ApplyCrawl(db, CrawlOf(cfg, feed, oracle(feed.id).response, now, env), now) == Ok(after)
    ensures forall id :: id in db.feeds && id != feed.id ==> Same(db, after, id)
  {
    if after != db {
      ResultKeepsId(cfg, feed, ClassifyFor(cfg, feed, oracle(feed.id).response, now), env);
      ApplyTouchesOneRow(db, CrawlOf(cfg, feed, oracle(feed.id).response, now, env), now);
    }
  }

  /** The feed is the due row as the claim returned it. */
  predicate ClaimedFrom(start: Db, leased: Db, feed: Feed, now: int, lease: int) {
    && feed.id in start.feeds && feed.id in leased.feeds
    && IsDue(start.feeds[feed.id], now) && start.feeds[feed.id].id == feed.id
    && feed == Leased(start.feeds[feed.id], now, lease) == leased.feeds[feed.id]
  }

  lemma SetOfPrefix(picked: seq<nat>, i: nat)
    requires i < |picked|
    requires forall j, k :: 0 <= j < k < |picked| ==> picked[j] != picked[k]
    ensures SetOf(picked[..i + 1]) == SetOf(picked[..i]) + {picked[i]}
    ensures picked[i] !in SetOf(picked[..i])
  {
  }

  class Worker {
    const store: Store
    const crawler: Crawler
    const batchSize: nat
    const lease: int

    constructor (crawler: Crawler, batchSize: nat, lease: int)
      ensures this.crawler == crawler && this.store == crawler.store
      ensures this.batchSize == batchSize && this.lease == lease
    {
      this.store := crawler.store;
      this.crawler := crawler;
      this.batchSize := batchSize;
      this.lease := lease;
    }

    ghost predicate Configured() {
      && store == crawler.store && batchSize >= 1 && lease > 0
      && crawler.cfg.policy.Valid() && crawler.cfg.policy.min >= 2
    }

    /** Crawls one claimed feed. An outcome that cannot be recorded is not an error here. */
    method CrawlClaimed(
      feed: Feed, oracle: Oracle, now: int, ghost start: Db, ghost leased: Db, ghost done: set<nat>)
      requires Configured() && IsDraw(oracle(feed.id).draw)
      requires store.Contents().Consistent() && NobodyMoves(crawler.cfg, start, oracle, now, lease)
      requires SameUrls(start, leased) && start.episodes == leased.episodes
      requires Progress(leased, store.Contents(), done, now)
      requires AllSettled(crawler.cfg, start, store.Contents(), done, oracle, now, lease)
      requires feed.id !in done && ClaimedFrom(start, leased, feed, now, lease)
      modifies store`feeds, store`episodes
      ensures store.Contents().Consistent()
      ensures Progress(leased, store.Contents(), done + {feed.id}, now)
      ensures AllSettled(crawler.cfg, start, store.Contents(), done + {feed.id}, oracle, now, lease)
    {
      var x := oracle(feed.id);
      ghost var db := store.Contents();
      var report;
      ghost var env;
      report, env := crawler.CrawlFeed(feed, x.response, now, now, now, x.draw, x.lookupFails, x.queryFails, x.commits);
      CrawlIsRecorded(crawler.cfg, start, leased, db, feed, oracle, now, lease, env, done);
      ProgressOfCrawl(crawler.cfg, start, leased, db, store.Contents(), feed, oracle, now, lease, env, done);
      OneMoreSettled(crawler.cfg, start, leased, db, store.Contents(), feed, oracle, now, lease, env, done);
    }

    method CrawlAll(
      feeds: seq<Feed>, oracle: Oracle, now: int, ghost start: Db, ghost leased: Db, ghost picked: seq<nat>)
      requires Configured() && (forall id :: IsDraw(oracle(id).draw))
      requires store.Contents().Consistent() && NobodyMoves(crawler.cfg, start, oracle, now, lease)
      requires SameUrls(start, leased) && start.episodes == leased.episodes && store.Contents() == leased
      requires Distinct(picked)
      requires AllClaimedFrom(start, leased, feeds, picked, now, lease)
      modifies store`feeds, store`episodes
      ensures store.Contents().Consistent() && Progress(leased, store.Contents(), SetOf(picked), now)
      ensures AllSettled(crawler.cfg, start, store.Contents(), SetOf(picked), oracle, now, lease)
    {
      for i := 0 to |feeds|
        invariant store.Contents().Consistent() && Progress(leased, store.Contents(), SetOf(picked[..i]), now)
        invariant AllSettled(crawler.cfg, start, store.Contents(), SetOf(picked[..i]), oracle, now, lease)
      {
        SetOfPrefix(picked, i);
        CrawlClaimed(feeds[i], oracle, now, start, leased, SetOf(picked[..i]));
      }
      assert picked[..|feeds|] == picked;
    }

    /** Claims one batch of due feeds and crawls them, returning how many were claimed. */
    method RunBatch(oracle: Oracle, now: int) returns (crawled: nat, ghost picked: seq<nat>)
      requires Configured() && (forall id :: IsDraw(oracle(id).draw))
      requires store.Contents().Consistent() && NobodyMoves(crawler.cfg, store.Contents(), oracle, now, lease)
      modifies store`feeds, store`episodes
      ensures store.Contents().Consistent()
      ensures crawled == |picked|
      ensures IsClaim(old(store.Contents()), now, batchSize, {}, SetOf(picked))
      ensures EarliestFirst(old(store.feeds), picked)
      ensures Progress(old(store.Contents()), store.Contents(), SetOf(picked), now)
      ensures AllSettled(crawler.cfg, old(store.Contents()), store.Contents(), SetOf(picked), oracle, now, lease)
    {
      ghost var start := store.Contents();
      var feeds;
      feeds, picked := store.ClaimDueFeeds(batchSize, lease, now);
      ghost var leased := store.Contents();
      BatchIsClaimed(start, leased, feeds, picked, now, lease, batchSize);
      CrawlAll(feeds, oracle, now, start, leased, picked);
      BatchProgress(start, picked, store.Contents(), now, lease);
      return |feeds|, picked;
    }

    /**
     Drains the backlog: keeps running batches while there is work. batches counts the batches
     that claimed something.
     */
    method Drain(oracle: Oracle, now: int) returns (batches: nat, ghost order: seq<nat>)
      requires Configured() && (forall id :: IsDraw(oracle(id).draw))
      requires store.Contents().Consistent() && NobodyMoves(crawler.cfg, store.Contents(), oracle, now, lease)
      modifies store`feeds, store`episodes
      ensures NothingDue(store.Contents(), now)
      ensures SetOf(order) == Due(old(store.Contents()), now)
      ensures EarliestFirst(old(store.feeds), order)
      ensures Progress(old(store.Contents()), store.Contents(), SetOf(order), now)
      ensures AllSettled(crawler.cfg, old(store.Contents()), store.Contents(), SetOf(order), oracle, now, lease)
      ensures batches == Backlog(old(store.Contents()), batchSize, now)
    {
      ghost var start := store.Contents();
      order, batches := [], 0;
      while true
        invariant store.Contents().Consistent()
        invariant Drained(start, store.Contents(), order, now)
        invariant AllSettled(crawler.cfg, start, store.Contents(), SetOf(order), oracle, now, lease)
        invariant NobodyMoves(crawler.cfg, store.Contents(), oracle, now, lease)
        invariant batches + Backlog(store.Contents(), batchSize, now) == Backlog(start, batchSize, now)
        decreases |Due(store.Contents(), now)|
      {
        ghost var before := store.Contents();
        var crawled;
        ghost var picked;
        crawled, picked := RunBatch(oracle, now);
        BatchDrains(start, before, store.Contents(), order, picked, now, batchSize);
        BatchSettles(crawler.cfg, start, before, store.Contents(), order, picked, oracle, now, lease, batchSize);
        NobodyMovesLater(crawler.cfg, before, store.Contents(), SetOf(picked), oracle, now, lease);
        BatchCounts(before, store.Contents(), picked, batchSize, now);
        order := order + picked;
        if crawled == 0 {
          break;
        }
        batches := batches + 1;
      }
      AllDrained(start, store.Contents(), order, now);
    }
  }

  /** How many batches n feeds take. */
  function Batches(n: nat, batchSize: nat): nat
    requires batchSize >= 1
  {
    if n == 0 then 0 else 1 + Batches(n - Min(batchSize, n), batchSize)
  }

  function Backlog(db: Db, batchSize: nat, now: int): nat
    requires batchSize >= 1
  {
    Batches(|Due(db, now)|, batchSize)
  }

  lemma {:induction false} BatchesRoundUp(n: nat, batchSize: nat)
    requires batchSize >= 1
    ensures Batches(n, batchSize) == (n + batchSize - 1) / batchSize
  {
    if n == 0 {
      QuotientIs(batchSize - 1, 0, batchSize, batchSize - 1);
    } else if n <= batchSize {
      assert Batches(0, batchSize) == 0;
      QuotientIs(n + batchSize - 1, 1, batchSize, n - 1);
    } else {
      BatchesRoundUp(n - batchSize, batchSize);
      var q := (n - 1) / batchSize;
      QuotientIs(n + batchSize - 1, q + 1, batchSize, (n - 1) % batchSize);
    }
  }

  predicate NothingDue(db: Db, now: int) {
    Due(db, now) == {}
  }

  /** What has been claimed so far: the earliest of the due feeds, each once. */
  ghost predicate Drained(start: Db, db: Db, order: seq<nat>, now: int) {
    && Progress(start, db, SetOf(order), now)
    && EarliestFirst(start.feeds, order)
    && SetOf(order) <= Due(start, now)
    && Due(db, now) == Due(start, now) - SetOf(order)
    && forall i, j :: 0 <= i < |order| && j in Due(db, now) ==>
         start.feeds[order[i]].nextCheckAt <= start.feeds[j].nextCheckAt
  }

  lemma AllDrained(start: Db, db: Db, order: seq<nat>, now: int)
    requires Drained(start, db, order, now) && NothingDue(db, now)
    ensures SetOf(order) == Due(start, now) && EarliestFirst(start.feeds, order)
  {
  }

  lemma QuotientIs(x: nat, q: nat, d: nat, r: nat)
    requires d >= 1 && x == q * d + r && r < d
    ensures x / d == q
  {
    var p := x / d;
    assert x == p * d + x % d;
    assert p < q ==> (p + 1) * d <= q * d;
    assert p > q ==> (q + 1) * d <= p * d;
  }

  lemma DueAfterBatch(before: Db, after: Db, picked: set<nat>, now: int)
    requires Progress(before, after, picked, now) && picked <= Due(before, now)
    ensures Due(after, now) == Due(before, now) - picked
  {
  }

  lemma SetOfAppend(order: seq<nat>, picked: seq<nat>)
    ensures SetOf(order + picked) == SetOf(order) + SetOf(picked)
  {
  }

  /** A feed of the batch was due all along and is not one of those claimed before. */
  lemma PickedInTurn(start: Db, before: Db, order: seq<nat>, picked: seq<nat>, now: int, limit: nat, i: nat)
    requires Drained(start, before, order, now) && IsClaim(before, now, limit, {}, SetOf(picked))
    requires i < |picked|
    ensures picked[i] in Due(before, now) && picked[i] in start.feeds && picked[i] in before.feeds
    ensures picked[i] !in SetOf(order) && before.feeds[picked[i]] == start.feeds[picked[i]]
  {
    assert picked[i] in SetOf(picked);
  }

  /** The batch takes the earliest of the due feeds, after all of those claimed before. */
  lemma BatchInTurn(start: Db, before: Db, order: seq<nat>, picked: seq<nat>, now: int, limit: nat)
    requires Drained(start, before, order, now)
    requires IsClaim(before, now, limit, {}, SetOf(picked)) && EarliestFirst(before.feeds, picked)
    ensures EarliestFirst(start.feeds, picked)
    ensures forall i, j :: 0 <= i < |order| && 0 <= j < |picked| ==>
              order[i] != picked[j] && start.feeds[order[i]].nextCheckAt <= start.feeds[picked[j]].nextCheckAt
  {
    forall i | 0 <= i < |picked|
      ensures picked[i] in Due(before, now) && picked[i] in start.feeds && picked[i] in before.feeds
      ensures picked[i] !in SetOf(order) && before.feeds[picked[i]] == start.feeds[picked[i]]
    {
      PickedInTurn(start, before, order, picked, now, limit, i);
    }
    forall i | 0 <= i < |order| ensures order[i] in SetOf(order) {
    }
  }

  lemma BatchBeforeRest(start: Db, before: Db, order: seq<nat>, picked: seq<nat>, now: int, limit: nat, i: nat, j: nat)
    requires Drained(start, before, order, now) && IsClaim(before, now, limit, {}, SetOf(picked))
    requires i < |picked| && j in Due(before, now) - SetOf(picked)
    ensures picked[i] in start.feeds && j in start.feeds
    ensures start.feeds[picked[i]].nextCheckAt <= start.feeds[j].nextCheckAt
  {
    PickedInTurn(start, before, order, picked, now, limit, i);
    assert picked[i] in SetOf(picked) && j in (Due(before, now) - {}) - SetOf(picked);
  }

  lemma AppendedOrder(feeds: map<nat, Feed>, order: seq<nat>, picked: seq<nat>)
    requires EarliestFirst(feeds, order) && EarliestFirst(feeds, picked)
    requires forall i, j :: 0 <= i < |order| && 0 <= j < |picked| ==>
               order[i] != picked[j] && feeds[order[i]].nextCheckAt <= feeds[picked[j]].nextCheckAt
    ensures EarliestFirst(feeds, order + picked)
  {
  }

  lemma ProgressChains(start: Db, before: Db, after: Db, order: set<nat>, picked: set<nat>, now: int)
    requires Progress(start, before, order, now) && Progress(before, after, picked, now)
    ensures Progress(start, after, order + picked, now)
  {
  }

  lemma ClaimsDue(db: Db, now: int, limit: nat, ids: set<nat>)
    requires IsClaim(db, now, limit, {}, ids)
    ensures ids <= Due(db, now)
  {
  }

  lemma Removed<T>(all: set<T>, first: set<T>, second: set<T>)
    ensures (all - first) - second == all - (first + second)
  {
  }

  lemma DueShrinks(start: Db, before: Db, after: Db, order: seq<nat>, picked: seq<nat>, now: int, limit: nat)
    requires Drained(start, before, order, now) && IsClaim(before, now, limit, {}, SetOf(picked))
    requires Progress(before, after, SetOf(picked), now)
    ensures SetOf(order + picked) <= Due(start, now)
    ensures Due(after, now) == Due(start, now) - SetOf(order + picked)
  {
    SetOfAppend(order, picked);
    ClaimsDue(before, now, limit, SetOf(picked));
    DueAfterBatch(before, after, SetOf(picked), now);
    Removed(Due(start, now), SetOf(order), SetOf(picked));
  }

  lemma BatchDrains(start: Db, before: Db, after: Db, order: seq<nat>, picked: seq<nat>, now: int, limit: nat)
    requires Drained(start, before, order, now)
    requires IsClaim(before, now, limit, {}, SetOf(picked)) && EarliestFirst(before.feeds, picked)
    requires Progress(before, after, SetOf(picked), now)
    ensures Drained(start, after, order + picked, now)
  {
    BatchInTurn(start, before, order, picked, now, limit);
    AppendedOrder(start.feeds, order, picked);
    SetOfAppend(order, picked);
    ProgressChains(start, before, after, SetOf(order), SetOf(picked), now);
    DueShrinks(start, before, after, order, picked, now, limit);
    forall i, j | 0 <= i < |order + picked| && j in Due(after, now)
      ensures start.feeds[(order + picked)[i]].nextCheckAt <= start.feeds[j].nextCheckAt
    {
      DueAfterBatch(before, after, SetOf(picked), now);
      if i >= |order| {
        BatchBeforeRest(start, before, order, picked, now, limit, i - |order|, j);
      }
    }
  }

  /** The batch takes as many of the due feeds as it may, and those are not due any more. */
  lemma BatchTakes(before: Db, after: Db, picked: seq<nat>, now: int, limit: nat)
    requires IsClaim(before, now, limit, {}, SetOf(picked)) && EarliestFirst(before.feeds, picked)
    requires Progress(before, after, SetOf(picked), now)
    ensures |picked| == Min(limit, |Due(before, now)|) && |Due(after, now)| == |Due(before, now)| - |picked|
  {
    DueAfterBatch(before, after, SetOf(picked), now);
    DistinctSize(picked);
    assert Due(before, now) - {} == Due(before, now);
  }

  lemma BatchCounts(before: Db, after: Db, picked: seq<nat>, batchSize: nat, now: int)
    requires batchSize >= 1
    requires IsClaim(before, now, batchSize, {}, SetOf(picked)) && EarliestFirst(before.feeds, picked)
    requires Progress(before, after, SetOf(picked), now)
    ensures picked == [] ==> NothingDue(after, now) && Backlog(after, batchSize, now) == Backlog(before, batchSize, now)
    ensures picked != [] ==> Backlog(after, batchSize, now) + 1 == Backlog(before, batchSize, now)
    ensures picked != [] ==> |Due(after, now)| < |Due(before, now)|
  {
    BatchTakes(before, after, picked, now, batchSize);
  }

  /** The due feeds that remain are crawled as they would have been at the start. */
  lemma NobodyMovesLater(cfg: Config, before: Db, after: Db, picked: set<nat>, oracle: Oracle, now: int, lease: int)
    requires NobodyMoves(cfg, before, oracle, now, lease) && Progress(before, after, picked, now)
    ensures NobodyMoves(cfg, after, oracle, now, lease)
  {
  }

  /** The batch settles its feeds, and leaves those settled before alone. */
  lemma BatchSettles(
    cfg: Config, start: Db, before: Db, after: Db, order: seq<nat>, picked: seq<nat>, oracle: Oracle, now: int, lease: int,
    limit: nat)
    requires Drained(start, before, order, now) && IsClaim(before, now, limit, {}, SetOf(picked))
    requires Progress(before, after, SetOf(picked), now)
    requires AllSettled(cfg, start, before, SetOf(order), oracle, now, lease)
    requires AllSettled(cfg, before, after, SetOf(picked), oracle, now, lease)
    ensures AllSettled(cfg, start, after, SetOf(order + picked), oracle, now, lease)
  {
    SetOfAppend(order, picked);
    ClaimsDue(before, now, limit, SetOf(picked));
    SettledFromStart(cfg, start, before, after, SetOf(picked), oracle, now, lease);
    SettledStays(cfg, start, before, after, SetOf(order), oracle, now, lease);
  }

  /** Seen from before the claim, too, only the batch's feeds have changed. */
  lemma BatchProgress(start: Db, picked: seq<nat>, after: Db, now: int, lease: int)
    requires Progress(LeaseAll(start, SetOf(picked), now, lease), after, SetOf(picked), now)
    ensures Progress(start, after, SetOf(picked), now)
  {
  }

  ghost predicate AllClaimedFrom(start: Db, leased: Db, feeds: seq<Feed>, picked: seq<nat>, now: int, lease: int) {
    |feeds| == |picked| &&
    forall i :: 0 <= i < |feeds| ==> feeds[i].id == picked[i] && ClaimedFrom(start, leased, feeds[i], now, lease)
  }

  /** What a claim returns is the batch's due rows, leased, and nothing else has changed. */
  lemma BatchIsClaimed(
    start: Db, leased: Db, feeds: seq<Feed>, picked: seq<nat>, now: int, lease: int, limit: nat)
    requires start.Consistent() && IsClaim(start, now, limit, {}, SetOf(picked))
    requires leased == LeaseAll(start, SetOf(picked), now, lease) && |feeds| == |picked|
    requires forall i :: 0 <= i < |feeds| ==> picked[i] in leased.feeds && feeds[i] == leased.feeds[picked[i]]
    ensures SameUrls(start, leased) && start.episodes == leased.episodes
    ensures AllClaimedFrom(start, leased, feeds, picked, now, lease)
  {
    PickedAreDue(start, now, limit, picked);
    LeasedRows(start, picked, now, lease);
  }

  lemma PickedAreDue(db: Db, now: int, limit: nat, picked: seq<nat>)
    requires IsClaim(db, now, limit, {}, SetOf(picked))
    ensures forall i :: 0 <= i < |picked| ==> picked[i] in db.feeds && IsDue(db.feeds[picked[i]], now)
  {
    forall i | 0 <= i < |picked| ensures picked[i] in db.feeds && IsDue(db.feeds[picked[i]], now) {
      assert picked[i] in SetOf(picked);
    }
  }

  lemma LeasedRows(db: Db, picked: seq<nat>, now: int, lease: int)
    ensures SameUrls(db, LeaseAll(db, SetOf(picked), now, lease))
    ensures forall i :: 0 <= i < |picked| && picked[i] in db.feeds ==>
              LeaseAll(db, SetOf(picked), now, lease).feeds[picked[i]] == Leased(db.feeds[picked[i]], now, lease)
    ensures forall id :: id in db.feeds && id !in SetOf(picked) ==>
              LeaseAll(db, SetOf(picked), now, lease).feeds[id] == db.feeds[id]
  {
  }
}

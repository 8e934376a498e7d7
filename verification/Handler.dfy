/**
 The episodes endpoint of service/podcast/routes.go: resolving a podcast to its feed, waking the
 feed, and crawling it on the spot when nobody has before. The crawl uses the row as it was read
 before the feed was woken.
 */
module Handler {
  import opened Prelude
  import opened Fetch
  import opened Catalogue
  import opened Schedule
  import opened Seeding
  import opened Store
  import opened Crawler
  import opened Effects
  import opened Parse
  import History

  datatype ItunesResult = ItunesResult(collectionId: int, kind: string, feedUrl: string, details: Details)

  datatype RequestError = NotFound | NoFeed | NotStored | CrawlFailed

  /** What iTunes and the feed's server answer. */
  datatype Upstream = Upstream(lookup: Option<ItunesResult>, response: Response, draw: real)

  /** Which of the database operations work out. */
  datatype Faults = Faults(
    readFails: bool, storeCommits: bool, requestFails: bool, lookupFails: bool, queryFails: bool, crawlCommits: bool)

  datatype Clock = Clock(stored: int, requested: int, fetched: int, applied: int, recorded: int)

  /** An iTunes id may also belong to an artist or an album. */
  predicate IsPodcast(result: ItunesResult) {
    result.collectionId != 0 && (result.kind == "podcast" || result.feedUrl != "")
  }

  function MapPodcastUpsert(result: ItunesResult): PodcastUpsert {
    PodcastUpsert(result.collectionId, result.feedUrl, result.details)
  }

  /** The feed the catalogue links the podcast to. */
  function KnownFeed(db: Db, itunesId: int): Option<nat> {
    if itunesId in db.podcasts && db.podcasts[itunesId].feedId.Some? && db.podcasts[itunesId].feedId.value in db.feeds
    then db.podcasts[itunesId].feedId else None
  }

  /** The catalogue after resolving: iTunes is asked, and its answer stored, only if it must be. */
  ghost function Resolved(db: Db, itunesId: int, lookup: Option<ItunesResult>, faults: Faults, now: int): Db {
    if (!faults.readFails && KnownFeed(db, itunesId).Some?) || lookup == None || !IsPodcast(lookup.value)
       || !faults.storeCommits
    then db
    else SeedOne(db, MapPodcastUpsert(lookup.value), now)
  }

  lemma ResolvedLeavesEpisodes(db: Db, itunesId: int, lookup: Option<ItunesResult>, faults: Faults, now: int)
    requires db.Consistent()
    ensures History.LeavesEpisodes(db, Resolved(db, itunesId, lookup, faults, now))
  {
    if lookup.Some? {
      NothingSeeded(db);
      SeedOneSeeds(db, [], db, MapPodcastUpsert(lookup.value), now);
    }
  }

  lemma CrawlWakes(db: Db, result: CrawlResult, now: int, cfg: Config, snapshot: Feed, fetched: FetchResult, env: Env)
    requires result == NextState(cfg, snapshot, fetched, env) && ApplyCrawl(db, result, now).Ok?
    ensures snapshot.id in db.feeds && ApplyCrawl(db, result, now).value.feeds[snapshot.id].status != Dormant
  {
  }

  /** The response carries a document that parses and does not send the feed elsewhere. */
  predicate BringsDocument(cfg: Config, feed: Feed, response: Response, now: int, parsed: ParsedFeed) {
    var fetched := ClassifyFor(cfg, feed, response, now);
    && fetched.outcome == Changed
    && ParseDocument(cfg.codec, fetched.body) == Some(parsed)
    && MoveTarget(parsed.newFeedUrl, feed.url) == ""
  }

  lemma DocumentIsRecorded(cfg: Config, feed: Feed, response: Response, now: int, parsed: ParsedFeed, env: Env)
    requires BringsDocument(cfg, feed, response, now, parsed)
    ensures
      var result := CrawlOf(cfg, feed, response, now, env);
      && result.parsed && result.episodes == parsed.episodes && result.pruneGrace == cfg.grace
      && result.feed.id == feed.id && History.InDocumentOrder(parsed.episodes)
  {
  }

  /** Once a document is recorded, a read returns it. */
  lemma RecordedDocumentIsRead(
    s: History.Traced, grace: nat, result: CrawlResult, now: int, list: seq<EpisodeRow>)
    requires History.InClosedForm(s, grace) && result.parsed && result.pruneGrace == grace
    requires History.InDocumentOrder(result.episodes)
    requires ApplyCrawl(s.db, result, now).Ok?
    requires IsEpisodesByFeed(ApplyCrawl(s.db, result, now).value, result.feed.id, list)
    ensures History.Plain(list) == History.LastOccurrences(result.episodes)
  {
    var after := History.Step(s, History.Record(result, now));
    History.ClosedFormKept(s, History.Record(result, now), grace);
    History.ReadsInClosedForm(after, grace, result.feed.id, list);
  }

  /** What a cold crawl of the snapshot leaves behind, and whether the request fails on it. */
  ghost predicate IsColdCrawl(
    cfg: Config, before: Db, feed: Feed, upstream: Upstream, faults: Faults, clock: Clock, env: Env,
    after: Db, error: Option<RequestError>)
  {
    var fetched := ClassifyFor(cfg, feed, upstream.response, clock.fetched);
    && env.now == clock.applied && env.draw == upstream.draw
    && Observes(cfg, before, feed, fetched, env)
    && Answered(cfg, before, feed, fetched, env, faults.lookupFails, faults.queryFails)
    && var recorded := if faults.crawlCommits
                       then ApplyCrawl(before, NextState(cfg, feed, fetched, env), clock.recorded) else Err(Aborted);
       match recorded
       case Ok(db) => after == db && error == if ReportError(cfg, fetched) == None then None else Some(CrawlFailed)
       case Err(_) => after == before && error == Some(CrawlFailed)
  }

  /**
   How a request that found its feed ends: fed from the table, after a cold crawl if the feed was
   never crawled. ready is the catalogue as the crawl and the read find it.
   */
  ghost predicate IsServed(
    cfg: Config, ready: Db, after: Db, feed: Feed, upstream: Upstream, faults: Faults, clock: Clock, env: Env,
    list: Result<seq<EpisodeRow>, RequestError>)
  {
    && feed.id in after.feeds
    && (list.Ok? ==> IsEpisodesByFeed(after, feed.id, list.value))
    && (if feed.NeverCrawled() then
          && IsColdCrawl(cfg, ready, feed, upstream, faults, clock, env, after, ErrorOf(list))
          && (list.Ok? ==>
                after.feeds[feed.id].status != Dormant
                && ServesDocument(cfg, feed, upstream.response, clock.fetched, list.value))
        else list.Ok? && after == ready)
  }

  /** The catalogue links the podcast to a feed. */
  predicate IsLinked(db: Db, itunesId: int) {
    itunesId in db.podcasts && db.podcasts[itunesId].feedId.Some?
  }

  /** The catalogue knows the feed, or iTunes names one that can be stored. */
  predicate IsResolvable(db: Db, itunesId: int, lookup: Option<ItunesResult>, faults: Faults) {
    || (!faults.readFails && IsLinked(db, itunesId))
    || (lookup.Some? && lookup.value.collectionId != 0 && lookup.value.feedUrl != "" && faults.storeCommits)
  }

  /** Why there is no feed to serve: iTunes has no such podcast, it has no feed, or it was not stored. */
  predicate IsResolveError(lookup: Option<ItunesResult>, faults: Faults, error: RequestError) {
    match error
    case NotFound => lookup == None
    case NoFeed => lookup.Some? && (lookup.value.collectionId == 0 || (lookup.value.feedUrl == "" && !IsLost(lookup, faults)))
    case NotStored => lookup.Some? && IsLost(lookup, faults)
    case CrawlFailed => false
  }

  /** iTunes knows the podcast, but the transaction that would store it does not commit. */
  predicate IsLost(lookup: Option<ItunesResult>, faults: Faults)
    requires lookup.Some?
  {
    && lookup.value.collectionId != 0 && (lookup.value.kind == "podcast" || lookup.value.feedUrl != "")
    && !faults.storeCommits
  }

  /** The podcast is stored under its own id with what iTunes says of it, its feed too if it has one. */
  predicate IsRemembered(db: Db, result: ItunesResult) {
    && result.collectionId in db.podcasts && db.podcasts[result.collectionId].details == result.details
    && (result.feedUrl != "" ==>
          && db.podcasts[result.collectionId].feedId.Some?
          && db.podcasts[result.collectionId].feedId.value in db.feeds
          && db.feeds[db.podcasts[result.collectionId].feedId.value].url == result.feedUrl)
  }

  lemma SeedingRemembers(db: Db, result: ItunesResult, now: int)
    requires db.Consistent()
    ensures IsRemembered(SeedOne(db, MapPodcastUpsert(result), now), result)
  {
    if result.feedUrl != "" {
      UpsertFeedConsistent(db, result.feedUrl, now);
    }
  }

  /** The row of the feed the catalogue links to the podcast, or else of the one iTunes names. */
  ghost predicate IsFeedOf(
    db: Db, itunesId: int, lookup: Option<ItunesResult>, faults: Faults, now: int, feed: Feed)
  {
    var resolved := Resolved(db, itunesId, lookup, faults, now);
    && feed.id in resolved.feeds && resolved.feeds[feed.id] == feed
    && if !faults.readFails && IsLinked(db, itunesId) then db.podcasts[itunesId].feedId == Some(feed.id)
       else lookup.Some? && feed.url == lookup.value.feedUrl
  }

  /** The row says that the feed was asked for, now or within the throttle. */
  predicate IsAskedFor(row: Feed, throttle: int, now: int) {
    && row.status != Dormant && row.lastRequestedAt.Some?
    && (row.lastRequestedAt.value == now || now <= row.lastRequestedAt.value + throttle)
  }

  class Handler {
    const store: Store
    const crawler: Crawler
    const throttle: int

    constructor (crawler: Crawler, throttle: int)
      ensures this.crawler == crawler && this.store == crawler.store && this.throttle == throttle
    {
      this.store := crawler.store;
      this.crawler := crawler;
      this.throttle := throttle;
    }

    /** Finds a podcast's feed, preferring the catalogue and falling back to iTunes. */
    method ResolveFeed(itunesId: int, lookup: Option<ItunesResult>, faults: Faults, now: int)
      returns (feed: Result<Feed, RequestError>, fromCatalogue: bool)
      requires store.Contents().Consistent()
      modifies store
      ensures store.Contents() == Resolved(old(store.Contents()), itunesId, lookup, faults, now)
      ensures store.Contents().Consistent()
      ensures fromCatalogue <==> !faults.readFails && IsLinked(old(store.Contents()), itunesId)
      ensures if fromCatalogue || lookup == None || !faults.storeCommits || lookup.value.collectionId == 0
                 || (lookup.value.kind != "podcast" && lookup.value.feedUrl == "")
              then store.Contents() == old(store.Contents())
              else IsRemembered(store.Contents(), lookup.value)
      ensures feed.Ok? <==> IsResolvable(old(store.Contents()), itunesId, lookup, faults)
      ensures feed.Ok? ==> IsFeedOf(old(store.Contents()), itunesId, lookup, faults, now, feed.value)
      ensures feed.Err? ==> IsResolveError(lookup, faults, feed.error)
    {
      if !faults.readFails && itunesId in store.podcasts {
        var feedId := store.podcasts[itunesId].feedId;
        if feedId.Some? && feedId.value in store.feeds {
          return Ok(store.feeds[feedId.value]), true;
        }
      }
      if lookup == None {
        return Err(NotFound), false;
      }
      if !IsPodcast(lookup.value) {
        return Err(NoFeed), false;
      }
      SeedingRemembers(store.Contents(), lookup.value, now);
      var upserted := store.UpsertPodcastWithFeed(MapPodcastUpsert(lookup.value), now, faults.storeCommits);
      if upserted.Err? {
        return Err(NotStored), false;
      }
      if upserted.value == None {
        return Err(NoFeed), false;
      }
      return Ok(upserted.value.value), false;
    }

    /** Wakes the feed, best effort. */
    method ActivateFeed(id: nat, faults: Faults, now: int)
      requires store.Contents().Consistent()
      modifies store`feeds
      ensures store.Contents() ==
              if faults.requestFails then old(store.Contents()) else MarkRequested(old(store.Contents()), id, throttle, now)
      ensures id in store.feeds && !faults.requestFails ==> IsAskedFor(store.feeds[id], throttle, now)
      ensures store.Contents().Consistent()
    {
      if !faults.requestFails {
        var written := store.MarkFeedRequested(id, throttle, now);
      }
    }

    /** Crawls a feed the catalogue has never filled, from the snapshot the request holds. */
    method CrawlColdFeed(feed: Feed, upstream: Upstream, faults: Faults, clock: Clock)
      returns (error: Option<RequestError>, ghost env: Env)
      requires store == crawler.store && store.Contents().Consistent() && IsDraw(upstream.draw)
      modifies store`feeds, store`episodes
      ensures store.Contents().Consistent()
      ensures IsColdCrawl(crawler.cfg, old(store.Contents()), feed, upstream, faults, clock, env, store.Contents(), error)
    {
      var report;
      report, env := crawler.CrawlFeed(feed, upstream.response, clock.fetched, clock.applied, clock.recorded,
                                       upstream.draw, faults.lookupFails, faults.queryFails, faults.crawlCommits);
      if report.Err? || report.value.error.Some? {
        return Some(CrawlFailed), env;
      }
      return None, env;
    }

    /** The second half of the endpoint: fill the feed if it must be, and read it. */
    method Serve(feed: Feed, upstream: Upstream, faults: Faults, clock: Clock, ghost parses: map<nat, History.Parses>)
      returns (list: Result<seq<EpisodeRow>, RequestError>, ghost env: Env)
      requires store == crawler.store && store.Contents().Consistent() && IsDraw(upstream.draw)
      requires History.InClosedForm(History.Traced(store.Contents(), parses), crawler.cfg.grace)
      requires feed.id in store.feeds
      requires store.feeds[feed.id].url == feed.url && store.feeds[feed.id].redirectedTo == feed.redirectedTo
      modifies store`feeds, store`episodes
      ensures store.Contents().Consistent()
      ensures feed.id in store.feeds && store.feeds[feed.id].lastRequestedAt == old(store.feeds)[feed.id].lastRequestedAt
      ensures list.Err? <==>
                feed.NeverCrawled() && (!faults.crawlCommits || GoesWrong(crawler.cfg, feed, upstream.response))
      ensures IsServed(crawler.cfg, old(store.Contents()), store.Contents(), feed, upstream, faults, clock, env, list)
    {
      env := Env(clock.applied, upstream.draw, LookupFailed, []);
      if feed.NeverCrawled() {
        ghost var before := History.Traced(store.Contents(), parses);
        var error;
        error, env := CrawlColdFeed(feed, upstream, faults, clock);
        FailsExactlyWhenWrong(crawler.cfg, before.db, store.Contents(), feed, upstream, faults, clock, env, error);
        if error.Some? {
          return Err(error.value), env;
        }
        var episodes := store.EpisodesByFeed(feed.id);
        ColdRequestIsServed(crawler.cfg, before, feed, upstream.response, clock.fetched, env, clock.recorded, episodes);
        return Ok(episodes), env;
      }
      var episodes := store.EpisodesByFeed(feed.id);
      return Ok(episodes), env;
    }

    /**
     Serves a podcast's episodes. What comes back is what the table holds for the feed; asking
     for them woke it. A feed that was ever crawled with success costs no fetch. A feed that was
     not is crawled now, and if its server sends a document, that document is the answer.
     */
    method GetEpisodes(
      itunesId: int, upstream: Upstream, faults: Faults, clock: Clock, ghost parses: map<nat, History.Parses>)
      returns (list: Result<seq<EpisodeRow>, RequestError>, ghost found: Option<Feed>, ghost env: Env)
      requires store == crawler.store && store.Contents().Consistent() && IsDraw(upstream.draw)
      requires History.InClosedForm(History.Traced(store.Contents(), parses), crawler.cfg.grace)
      modifies store
      ensures store.Contents().Consistent()
      ensures found.Some? <==> IsResolvable(old(store.Contents()), itunesId, upstream.lookup, faults)
      ensures found == None ==>
                list.Err? && IsResolveError(upstream.lookup, faults, list.error)
                && store.Contents() == Resolved(old(store.Contents()), itunesId, upstream.lookup, faults, clock.stored)
      ensures found.Some? ==>
                var feed := found.value;
                var ready :=
                  Opened(old(store.Contents()), itunesId, upstream.lookup, faults, clock, throttle, feed.id);
                && IsFeedOf(old(store.Contents()), itunesId, upstream.lookup, faults, clock.stored, feed)
                && feed.id in ready.feeds && feed.id in store.feeds
                && (!faults.requestFails ==>
                      && IsAskedFor(ready.feeds[feed.id], throttle, clock.requested)
                      && store.feeds[feed.id].lastRequestedAt == ready.feeds[feed.id].lastRequestedAt)
                && IsServed(crawler.cfg, ready, store.Contents(), feed, upstream, faults, clock, env, list)
                && (list.Err? <==>
                      feed.NeverCrawled() && (!faults.crawlCommits || GoesWrong(crawler.cfg, feed, upstream.response)))
    {
      env := Env(clock.applied, upstream.draw, LookupFailed, []);
      var resolved, fromCatalogue := ResolveFeed(itunesId, upstream.lookup, faults, clock.stored);
      if resolved.Err? {
        return Err(resolved.error), None, env;
      }
      found := Some(resolved.value);
      ActivateFeed(resolved.value.id, faults, clock.requested);
      OpenedInClosedForm(old(store.Contents()), parses, crawler.cfg.grace, itunesId, upstream.lookup, faults, clock,
                         throttle, resolved.value.id);
      list, env := Serve(resolved.value, upstream, faults, clock, parses);
    }
  }

  /** A crawl of the feed whose URL and target its row still has is recorded. */
  lemma ColdCrawlIsNotRefused(cfg: Config, db: Db, feed: Feed, fetched: FetchResult, env: Env)
    requires db.Consistent() && feed.id in db.feeds
    requires db.feeds[feed.id].url == feed.url && db.feeds[feed.id].redirectedTo == feed.redirectedTo
    requires IsLookup(db, MoveTarget(Announced(cfg, fetched), feed.url), env.lookup)
    ensures UpdateError(db, NextState(cfg, feed, fetched, env).feed) == None
  {
    ResultKeepsId(cfg, feed, fetched, env);
    assert SoundTarget(db.feeds, db.feeds[feed.id]);
  }

  /** So a first request fails if and only if the crawl does, or its commit. */
  lemma FailsExactlyWhenWrong(
    cfg: Config, ready: Db, after: Db, feed: Feed, upstream: Upstream, faults: Faults, clock: Clock, env: Env,
    error: Option<RequestError>)
    requires ready.Consistent() && feed.id in ready.feeds
    requires ready.feeds[feed.id].url == feed.url && ready.feeds[feed.id].redirectedTo == feed.redirectedTo
    requires IsColdCrawl(cfg, ready, feed, upstream, faults, clock, env, after, error)
    ensures error.Some? <==> !faults.crawlCommits || GoesWrong(cfg, feed, upstream.response)
  {
    ColdCrawlIsNotRefused(cfg, ready, feed, ClassifyFor(cfg, feed, upstream.response, clock.fetched), env);
    ErrorExactlyWhenWrong(cfg, feed, upstream.response, clock.fetched);
  }

  function ErrorOf(list: Result<seq<EpisodeRow>, RequestError>): Option<RequestError> {
    if list.Ok? then None else Some(list.error)
  }

  /** The catalogue once the podcast is resolved and its feed woken. */
  ghost function Opened(
    db: Db, itunesId: int, lookup: Option<ItunesResult>, faults: Faults, clock: Clock, throttle: int, id: nat): Db
  {
    var resolved := Resolved(db, itunesId, lookup, faults, clock.stored);
    if faults.requestFails then resolved else MarkRequested(resolved, id, throttle, clock.requested)
  }

  lemma OpenedInClosedForm(
    db: Db, parses: map<nat, History.Parses>, grace: nat, itunesId: int, lookup: Option<ItunesResult>,
    faults: Faults, clock: Clock, throttle: int, id: nat)
    requires History.InClosedForm(History.Traced(db, parses), grace)
    ensures var after := Opened(db, itunesId, lookup, faults, clock, throttle, id);
            && History.InClosedForm(History.Traced(after, parses), grace)
            && (id in after.feeds && !faults.requestFails ==> after.feeds[id].status != Dormant)
  {
    var resolved := Resolved(db, itunesId, lookup, faults, clock.stored);
    ResolvedLeavesEpisodes(db, itunesId, lookup, faults, clock.stored);
    History.ClosedFormFramed(History.Traced(db, parses), resolved, grace);
    if !faults.requestFails {
      History.RequestLeavesEpisodes(resolved, id, throttle, clock.requested);
      History.ClosedFormFramed(History.Traced(resolved, parses), Opened(db, itunesId, lookup, faults, clock, throttle, id), grace);
    }
  }

  /** If the response brought a document, the list is that document. */
  ghost predicate ServesDocument(cfg: Config, feed: Feed, response: Response, now: int, list: seq<EpisodeRow>) {
    forall parsed :: BringsDocument(cfg, feed, response, now, parsed) ==>
      History.Plain(list) == History.LastOccurrences(parsed.episodes)
  }

  /** After a recorded cold crawl the feed is awake, and a document it brought is what is read. */
  lemma ColdRequestIsServed(
    cfg: Config, s: History.Traced, feed: Feed, response: Response, fetchedAt: int, env: Env, recordedAt: int,
    list: seq<EpisodeRow>)
    requires History.InClosedForm(s, cfg.grace)
    requires ApplyCrawl(s.db, CrawlOf(cfg, feed, response, fetchedAt, env), recordedAt).Ok?
    requires IsEpisodesByFeed(
      ApplyCrawl(s.db, CrawlOf(cfg, feed, response, fetchedAt, env), recordedAt).value, feed.id, list)
    ensures var after := ApplyCrawl(s.db, CrawlOf(cfg, feed, response, fetchedAt, env), recordedAt).value;
            feed.id in after.feeds && after.feeds[feed.id].status != Dormant
    ensures ServesDocument(cfg, feed, response, fetchedAt, list)
  {
    var result := CrawlOf(cfg, feed, response, fetchedAt, env);
    CrawlWakes(s.db, result, recordedAt, cfg, feed, ClassifyFor(cfg, feed, response, fetchedAt), env);
    forall parsed | BringsDocument(cfg, feed, response, fetchedAt, parsed)
      ensures History.Plain(list) == History.LastOccurrences(parsed.episodes)
    {
      DocumentIsRecorded(cfg, feed, response, fetchedAt, parsed, env);
      RecordedDocumentIsRead(s, cfg.grace, result, recordedAt, list);
    }
  }
}

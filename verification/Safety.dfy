/**
 What every reachable state of the engine satisfies, whatever the interleaving and however
 stale the snapshots that are written back: the one-way lifecycle, whose validators a row
 holds, the consistency of the feeds table, and that no feed is stranded.
 */
module Safety {
  import opened Prelude
  import opened Parse
  import opened Fetch
  import opened Catalogue
  import opened Schedule
  import opened Crawler
  import opened Effects
  import opened Engine
  import History

  // ---- Results are computed, not made up ----

  ghost predicate AnswersInFlight(setup: Setup, s: System) {
    forall k :: k in s.crawls && s.crawls[k].Ready? ==> s.crawls[k].answer in setup.answers
  }

  lemma AnswersInFlightKept(setup: Setup, s: System, e: Event)
    requires WellFormed(s) && Enabled(setup, s, e) && AnswersInFlight(setup, s)
    ensures AnswersInFlight(setup, Next(setup, s, e))
  {
  }

  // ---- One-way lifecycle ----

  predicate InRotation(feed: Feed) {
    feed.status == Active || feed.status == Dead
  }

  /** Nothing but the seeding has ever written the feed. */
  predicate Untouched(feed: Feed, id: nat, now: int) {
    feed == NewFeed(id, feed.url, feed.nextCheckAt) && feed.nextCheckAt <= now
  }

  predicate HasEpisodes(s: System, id: nat) {
    id in s.db.episodes || id in s.parses
  }

  /** The crawl brings the feed back awake, and a leased one was in the rotation. */
  ghost predicate CrawlAwake(crawl: Crawl) {
    && (crawl.Ready? ==> crawl.answer.result.feed.status != Dormant)
    && (crawl.origin.Lease? ==> InRotation(crawl.Snapshot()))
  }

  ghost predicate Lifecycle(s: System) {
    && (forall id :: id in s.db.feeds && s.db.feeds[id].status == Dormant ==> Untouched(s.db.feeds[id], id, s.now))
    && (forall p, id :: p in s.claims && id in s.claims[p].ids ==> id in s.db.feeds && InRotation(s.db.feeds[id]))
    && (forall k :: k in s.crawls ==> CrawlAwake(s.crawls[k]))
  }

  /** Only feeds that were crawled have episodes. */
  ghost predicate EpisodesOfCrawled(s: System) {
    forall id :: HasEpisodes(s, id) ==> id in s.db.feeds && s.db.feeds[id].status != Dormant
  }

  /** Even a snapshot that still says dormant is written back awake. */
  ghost predicate Wakes(setup: Setup) {
    forall a :: a in setup.answers ==> a.result.feed.status != Dormant
  }

  lemma ResultIsAwake(cfg: Config, snapshot: Feed, fetched: FetchResult, env: Env)
    ensures NextState(cfg, snapshot, fetched, env).feed.status != Dormant
  {
  }

  lemma AnswersWake(setup: Setup)
    requires setup.Valid()
    ensures Wakes(setup)
  {
    forall a | a in setup.answers ensures a.result.feed.status != Dormant {
      ResultIsAwake(setup.crawler, a.snapshot, a.fetched, a.env);
    }
  }

  lemma LifecycleOfRow(setup: Setup, s: System, e: Event, id: nat, row: Feed)
    requires Lifecycle(s) && RowStep(setup, s, e, id, row) && row.status == Dormant
    ensures Untouched(row, id, s.now)
    ensures id in s.db.feeds ==> s.db.feeds[id].status == Dormant && !Recorded(s, e, id)
  {
  }

  lemma LifecycleOfRows(setup: Setup, s: System, e: Event, after: System, id: nat)
    requires Lifecycle(s) && Follows(setup, s, e, after)
    requires id in after.db.feeds && after.db.feeds[id].status == Dormant
    ensures Untouched(after.db.feeds[id], id, after.now)
    ensures id in s.db.feeds ==> s.db.feeds[id].status == Dormant && !Recorded(s, e, id)
  {
    assert RowStep(setup, s, e, id, after.db.feeds[id]);
    LifecycleOfRow(setup, s, e, id, after.db.feeds[id]);
  }

  lemma LifecycleOfClaim(setup: Setup, s: System, e: Event, p: nat, hold: Hold, id: nat)
    requires Lifecycle(s) && id in hold.ids && ClaimStep(s, e, p, hold)
    ensures id in s.db.feeds && forall row :: RowStep(setup, s, e, id, row) ==> InRotation(row)
  {
    if p in s.claims && hold == s.claims[p] {
      assert s.Locked(id);
    }
  }

  lemma LifecycleOfClaims(setup: Setup, s: System, e: Event, after: System, p: nat, id: nat)
    requires Lifecycle(s) && Follows(setup, s, e, after)
    requires p in after.claims && id in after.claims[p].ids
    ensures id in after.db.feeds && InRotation(after.db.feeds[id])
  {
    LifecycleOfClaim(setup, s, e, p, after.claims[p], id);
    assert RowStep(setup, s, e, id, after.db.feeds[id]);
  }

  lemma LifecycleOfCrawl(setup: Setup, s: System, e: Event, k: Key, crawl: Crawl, row: Feed)
    requires Wakes(setup) && Lifecycle(s)
    requires CrawlStep(setup, s, e, k, crawl, row) && RowStep(setup, s, e, k.feed, row)
    ensures CrawlAwake(crawl)
  {
  }

  lemma LifecycleOfCrawls(setup: Setup, s: System, e: Event, after: System, k: Key)
    requires Wakes(setup) && Lifecycle(s) && Follows(setup, s, e, after)
    requires k in after.crawls
    ensures CrawlAwake(after.crawls[k])
  {
    var row := after.db.feeds[k.feed];
    assert CrawlStep(setup, s, e, k, after.crawls[k], row) && RowStep(setup, s, e, k.feed, row);
    LifecycleOfCrawl(setup, s, e, k, after.crawls[k], row);
  }

  lemma LifecycleKept(setup: Setup, s: System, e: Event, after: System)
    requires Wakes(setup) && Lifecycle(s) && Follows(setup, s, e, after)
    ensures Lifecycle(after)
  {
    forall id | id in after.db.feeds && after.db.feeds[id].status == Dormant
      ensures Untouched(after.db.feeds[id], id, after.now)
    {
      LifecycleOfRows(setup, s, e, after, id);
    }
    forall p, id | p in after.claims && id in after.claims[p].ids
      ensures id in after.db.feeds && InRotation(after.db.feeds[id])
    {
      LifecycleOfClaims(setup, s, e, after, p, id);
    }
    forall k | k in after.crawls ensures CrawlAwake(after.crawls[k]) {
      LifecycleOfCrawls(setup, s, e, after, k);
    }
  }

  lemma RecordedEpisodes(t: History.Traced, result: CrawlResult, now: int, id: nat)
    ensures
      var after := History.Step(t, History.Record(result, now));
      (id in after.db.episodes && id !in t.db.episodes) || (id in after.parses && id !in t.parses) ==>
        id == result.feed.id && UpdateError(t.db, result.feed) == None
  {
  }

  lemma NewEpisodesOfRecorded(setup: Setup, s: System, e: Event, id: nat)
    requires WellFormed(s) && Enabled(setup, s, e)
    requires HasEpisodes(Next(setup, s, e), id) && !HasEpisodes(s, id)
    ensures Recorded(s, e, id)
  {
    if e.Record? {
      assert Next(setup, s, e).Trace() == History.Step(s.Trace(), History.Record(s.crawls[e.key].answer.result, e.at));
      RecordedEpisodes(s.Trace(), s.crawls[e.key].answer.result, e.at, id);
    }
  }

  lemma EpisodesOfCrawledKept(setup: Setup, s: System, e: Event)
    requires Wakes(setup) && WellFormed(s) && Enabled(setup, s, e) && Lifecycle(s) && EpisodesOfCrawled(s)
    ensures EpisodesOfCrawled(Next(setup, s, e))
  {
    var after := Next(setup, s, e);
    StepFollows(setup, s, e);
    forall id | HasEpisodes(after, id) ensures id in after.db.feeds && after.db.feeds[id].status != Dormant {
      if !HasEpisodes(s, id) {
        NewEpisodesOfRecorded(setup, s, e, id);
      }
      if after.db.feeds[id].status == Dormant {
        LifecycleOfRows(setup, s, e, after, id);
      }
    }
  }

  // ---- Validators belong to the URL beside them ----

  /** A fetch of the feed is unconditional. */
  predicate NoValidators(feed: Feed) {
    feed.etag == feed.lastModified == feed.bodyHash == ""
  }

  ghost predicate TagIssued(log: set<Issue>, url: string, etag: string) {
    exists i :: i in log && i.url == url && i.etag == etag
  }

  ghost predicate DateIssued(log: set<Issue>, url: string, lastModified: string) {
    exists i :: i in log && i.url == url && i.lastModified == lastModified
  }

  ghost predicate HashIssued(log: set<Issue>, url: string, bodyHash: string) {
    exists i :: i in log && i.url == url && i.bodyHash == bodyHash
  }

  /** Each validator present came from a response to a request for the feed's URL. */
  ghost predicate OwnsValidators(log: set<Issue>, feed: Feed) {
    && (feed.etag != "" ==> TagIssued(log, feed.url, feed.etag))
    && (feed.lastModified != "" ==> DateIssued(log, feed.url, feed.lastModified))
    && (feed.bodyHash != "" ==> HashIssued(log, feed.url, feed.bodyHash))
  }

  ghost predicate Validators(s: System) {
    && (forall id :: id in s.db.feeds ==> OwnsValidators(s.log, s.db.feeds[id]))
    && (forall k :: k in s.crawls ==> OwnsValidators(s.log, s.crawls[k].Snapshot()))
    && (forall k :: k in s.crawls && s.crawls[k].Ready? ==> OwnsValidators(s.log, s.crawls[k].answer.result.feed))
  }

  ghost predicate KeepOwnership(setup: Setup) {
    forall a, log :: a in setup.answers && OwnsValidators(log, a.snapshot) ==>
      OwnsValidators(log + a.issues, a.result.feed)
  }

  lemma OwnershipGrows(log: set<Issue>, more: set<Issue>, feed: Feed)
    requires OwnsValidators(log, feed)
    ensures OwnsValidators(log + more, feed)
  {
  }

  /** apply keeps the snapshot's validators, takes the fetch's, or, on a move, drops them. */
  lemma StateValidators(cfg: Config, snapshot: Feed, fetched: FetchResult, env: Env)
    ensures
      var f := NextState(cfg, snapshot, fetched, env).feed;
      || NoValidators(f)
      || (f.url == snapshot.url && f.etag == snapshot.etag && f.lastModified == snapshot.lastModified
          && f.bodyHash == snapshot.bodyHash)
      || (f.url == snapshot.url && f.etag == fetched.etag && f.lastModified == fetched.lastModified
          && (fetched.outcome == Changed || fetched.outcome == NotModified)
          && (f.bodyHash == snapshot.bodyHash || f.bodyHash == fetched.bodyHash))
  {
  }

  /** Only 2xx and 304 responses hand validators on, and each comes from them or the request. */
  lemma FetchedValidators(cfg: Config, snapshot: Feed, response: Response, at: int, document: string)
    ensures
      var fetched := ClassifyFor(cfg, snapshot, response, at);
      fetched.outcome == Changed || fetched.outcome == NotModified ==>
        && response.Response? && Issued(cfg, snapshot.url, response, document) != {}
        && (fetched.etag == response.etag || fetched.etag == snapshot.etag)
        && (fetched.lastModified == response.lastModified || fetched.lastModified == snapshot.lastModified)
        && (fetched.bodyHash == ""
            || (Usable(response, cfg.maxBody) && fetched.bodyHash == cfg.codec.sha(response.body.content)))
  {
  }

  /** The validators of a result: none, the snapshot's, or those of this response. */
  lemma ResultValidators(cfg: Config, a: Answer)
    requires IsAnswer(cfg, a)
    ensures
      var f, r := a.result.feed, a.response;
      || NoValidators(f)
      || (f.url == a.snapshot.url
          && (f.etag == a.snapshot.etag || (a.issues != {} && f.etag == r.etag))
          && (f.lastModified == a.snapshot.lastModified || (a.issues != {} && f.lastModified == r.lastModified))
          && (f.bodyHash == a.snapshot.bodyHash || f.bodyHash == ""
              || (a.issues != {} && Usable(r, cfg.maxBody) && f.bodyHash == cfg.codec.sha(r.body.content))))
  {
    StateValidators(cfg, a.snapshot, a.fetched, a.env);
    FetchedValidators(cfg, a.snapshot, a.response, a.fetchedAt, a.document);
  }

  lemma IssueInLog(cfg: Config, a: Answer, log: set<Issue>)
    requires IsAnswer(cfg, a) && a.issues != {}
    ensures TagIssued(log + a.issues, a.snapshot.url, a.response.etag)
    ensures DateIssued(log + a.issues, a.snapshot.url, a.response.lastModified)
    ensures Usable(a.response, cfg.maxBody) ==>
              HashIssued(log + a.issues, a.snapshot.url, cfg.codec.sha(a.response.body.content))
  {
  }

  lemma ResultOwnsValidators(cfg: Config, a: Answer, log: set<Issue>)
    requires IsAnswer(cfg, a) && OwnsValidators(log, a.snapshot)
    ensures OwnsValidators(log + a.issues, a.result.feed)
  {
    ResultValidators(cfg, a);
    OwnershipGrows(log, a.issues, a.snapshot);
    if a.issues != {} {
      IssueInLog(cfg, a, log);
    }
  }

  lemma AnswersKeepOwnership(setup: Setup)
    requires setup.Valid()
    ensures KeepOwnership(setup)
  {
    forall a, log | a in setup.answers && OwnsValidators(log, a.snapshot)
      ensures OwnsValidators(log + a.issues, a.result.feed)
    {
      ResultOwnsValidators(setup.crawler, a, log);
    }
  }

  lemma LogGrows(setup: Setup, s: System, e: Event, after: System, feed: Feed)
    requires Follows(setup, s, e, after) && OwnsValidators(s.log, feed)
    ensures OwnsValidators(after.log, feed)
  {
  }

  lemma ValidatorsOfRows(setup: Setup, s: System, e: Event, after: System, id: nat)
    requires Validators(s) && Follows(setup, s, e, after) && id in after.db.feeds
    ensures OwnsValidators(after.log, after.db.feeds[id])
  {
    assert RowStep(setup, s, e, id, after.db.feeds[id]);
    assert OwnsValidators(s.log, after.db.feeds[id]);
    LogGrows(setup, s, e, after, after.db.feeds[id]);
  }

  lemma ValidatorsOfCrawls(setup: Setup, s: System, e: Event, after: System, k: Key)
    requires KeepOwnership(setup) && Validators(s) && Follows(setup, s, e, after) && k in after.crawls
    ensures OwnsValidators(after.log, after.crawls[k].Snapshot())
    ensures after.crawls[k].Ready? ==> OwnsValidators(after.log, after.crawls[k].answer.result.feed)
  {
    assert CrawlStep(setup, s, e, k, after.crawls[k], after.db.feeds[k.feed]);
    if k !in s.crawls {
      ValidatorsOfRows(setup, s, e, after, k.feed);
    } else {
      LogGrows(setup, s, e, after, s.crawls[k].Snapshot());
      if s.crawls[k].Ready? {
        LogGrows(setup, s, e, after, s.crawls[k].answer.result.feed);
      }
    }
  }

  lemma ValidatorsKept(setup: Setup, s: System, e: Event, after: System)
    requires KeepOwnership(setup) && Validators(s) && Follows(setup, s, e, after)
    ensures Validators(after)
  {
    forall id | id in after.db.feeds ensures OwnsValidators(after.log, after.db.feeds[id]) {
      ValidatorsOfRows(setup, s, e, after, id);
    }
    forall k | k in after.crawls
      ensures OwnsValidators(after.log, after.crawls[k].Snapshot())
      ensures after.crawls[k].Ready? ==> OwnsValidators(after.log, after.crawls[k].answer.result.feed)
    {
      ValidatorsOfCrawls(setup, s, e, after, k);
    }
  }

  // ---- Redirects ----

  predicate SoundRedirect(feeds: map<nat, Feed>, feed: Feed) {
    (feed.status == Redirected ==> feed.redirectedTo.Some?) && SoundTarget(feeds, feed)
  }

  ghost predicate Redirects(s: System) {
    && (forall id :: id in s.db.feeds ==> SoundRedirect(s.db.feeds, s.db.feeds[id]))
    && (forall k :: k in s.crawls ==> SoundRedirect(s.db.feeds, s.crawls[k].Snapshot()))
    && (forall k :: k in s.crawls && s.crawls[k].Ready? ==> SoundRedirect(s.db.feeds, s.crawls[k].answer.result.feed))
  }

  ghost predicate KeepRedirects(setup: Setup) {
    forall a :: a in setup.answers && SoundRedirect(a.db.feeds, a.snapshot) ==> SoundRedirect(a.db.feeds, a.result.feed)
  }

  /** Only a move onto another row's URL redirects, and it points at that row. */
  lemma RedirectsByMove(cfg: Config, snapshot: Feed, fetched: FetchResult, env: Env)
    ensures
      var f := NextState(cfg, snapshot, fetched, env).feed;
      || (f.redirectedTo == snapshot.redirectedTo && (f.status == Redirected ==> snapshot.status == Redirected))
      || (env.lookup.Found? && env.lookup.id != f.id && f.redirectedTo == Some(env.lookup.id))
  {
  }

  lemma ResultRedirects(cfg: Config, a: Answer)
    requires IsAnswer(cfg, a) && SoundRedirect(a.db.feeds, a.snapshot)
    ensures SoundRedirect(a.db.feeds, a.result.feed)
  {
    RedirectsByMove(cfg, a.snapshot, a.fetched, a.env);
    ResultKeepsId(cfg, a.snapshot, a.fetched, a.env);
  }

  lemma AnswersKeepRedirects(setup: Setup)
    requires setup.Valid()
    ensures KeepRedirects(setup)
  {
    forall a | a in setup.answers && SoundRedirect(a.db.feeds, a.snapshot)
      ensures SoundRedirect(a.db.feeds, a.result.feed)
    {
      ResultRedirects(setup.crawler, a);
    }
  }

  lemma RedirectsOfRows(setup: Setup, s: System, e: Event, after: System, id: nat)
    requires WellFormed(s) && Redirects(s) && Follows(setup, s, e, after) && id in after.db.feeds
    ensures SoundRedirect(after.db.feeds, after.db.feeds[id])
  {
    assert RowStep(setup, s, e, id, after.db.feeds[id]);
    assert id in s.db.feeds ==> s.db.feeds[id].id == id;
  }

  lemma RedirectsKept(setup: Setup, s: System, e: Event, after: System)
    requires KeepRedirects(setup) && WellFormed(s) && Redirects(s) && Follows(setup, s, e, after)
    ensures Redirects(after)
  {
    forall id | id in after.db.feeds ensures SoundRedirect(after.db.feeds, after.db.feeds[id]) {
      RedirectsOfRows(setup, s, e, after, id);
    }
    forall k | k in after.crawls
      ensures SoundRedirect(after.db.feeds, after.crawls[k].Snapshot())
      ensures after.crawls[k].Ready? ==> SoundRedirect(after.db.feeds, after.crawls[k].answer.result.feed)
    {
      assert CrawlStep(setup, s, e, k, after.crawls[k], after.db.feeds[k.feed]);
      RedirectsOfRows(setup, s, e, after, k.feed);
    }
  }

  // ---- No feed is stranded ----

  /** The longest a schedule-setting write can put a feed off. */
  function Horizon(setup: Setup, longestRetry: int): int {
    Max(Max(setup.lease, setup.crawler.policy.deadRecheck), Max(11 * setup.crawler.policy.max / 10, longestRetry))
  }

  /** When the feed's schedule was last set: at the last claim or record, or else the activation. */
  function LastScheduled(feed: Feed): int {
    if feed.lastCheckedAt.Some? then feed.lastCheckedAt.value
    else if feed.activatedAt.Some? then feed.activatedAt.value
    else feed.nextCheckAt
  }

  predicate OnSchedule(feed: Feed, now: int, horizon: int) {
    LastScheduled(feed) <= now && feed.nextCheckAt <= LastScheduled(feed) + horizon
  }

  /** The longest the feed can have been put off so far. */
  function HorizonOf(setup: Setup, s: System, id: nat): int {
    Horizon(setup, s.LongestRetry(id))
  }

  /** A crawl's snapshot, and its result once computed, put the feed off by at most the horizon. */
  predicate CrawlOnSchedule(crawl: Crawl, now: int, horizon: int) {
    match crawl
    case Fetching(feed, _) => feed.nextCheckAt <= now + horizon
    case Ready(a, _) => a.env.now <= now && a.result.feed.nextCheckAt <= a.env.now + horizon
  }

  ghost predicate Schedules(setup: Setup, s: System) {
    && (forall id :: id in s.db.feeds ==> OnSchedule(s.db.feeds[id], s.now, HorizonOf(setup, s, id)))
    && (forall p :: p in s.claims ==> s.claims[p].start <= s.now)
    && (forall k :: k in s.crawls ==> CrawlOnSchedule(s.crawls[k], s.now, HorizonOf(setup, s, k.feed)))
  }

  /** A result puts the feed off by at most the horizon, or keeps the snapshot's date. */
  predicate WithinHorizon(a: Answer, horizon: int) {
    a.result.feed.nextCheckAt <= Max(a.env.now + horizon, a.snapshot.nextCheckAt)
  }

  ghost predicate KeepHorizon(setup: Setup) {
    forall a, longest :: a in setup.answers ==>
      WithinHorizon(a, Horizon(setup, Max(longest, a.fetched.retryAfter)))
  }

  lemma JitterBelow(p: Policy, interval: int, draw: real)
    requires p.Valid() && p.min <= interval <= p.max && IsDraw(draw)
    ensures Jitter(interval, draw) <= 11 * p.max / 10
  {
    JitterWithinTenPercent(interval, draw);
  }

  lemma FailureWithinHorizon(p: Policy, feed: Feed, cause: Option<string>, env: Env)
    requires p.Valid() && IsDraw(env.draw)
    ensures AfterFailure(p, feed, cause, env).nextCheckAt <= env.now + Max(p.deadRecheck, 11 * p.max / 10)
  {
    IntervalsAreClamped(p, feed.checkInterval, []);
    JitterBelow(p, IntervalAfterError(p, feed.checkInterval), env.draw);
  }

  lemma DocumentWithinHorizon(cfg: Config, feed: Feed, fetched: FetchResult, eps: seq<EpisodeUpsert>, env: Env)
    requires cfg.policy.Valid() && IsDraw(env.draw)
    ensures AfterChange(cfg, feed, fetched, eps, env).nextCheckAt <= env.now + 11 * cfg.policy.max / 10
  {
    var dates := CadenceDates(eps, env.stored);
    IntervalsAreClamped(cfg.policy, 0, dates);
    JitterBelow(cfg.policy, IntervalAfterChange(cfg.policy, dates), env.draw);
  }

  lemma ChangedWithinHorizon(cfg: Config, snapshot: Feed, fetched: FetchResult, env: Env)
    requires cfg.policy.Valid() && IsDraw(env.draw) && fetched.outcome == Changed
    ensures NextState(cfg, snapshot, fetched, env).feed.nextCheckAt
            <= env.now + Max(cfg.policy.deadRecheck, 11 * cfg.policy.max / 10)
  {
    var feed := Awake(snapshot, fetched.statusCode);
    FailureWithinHorizon(cfg.policy, feed, Some(PARSE_ERROR), env);
    var parsed := ParseDocument(cfg.codec, fetched.body);
    if parsed.Some? {
      DocumentWithinHorizon(cfg, feed, fetched, parsed.value.episodes, env);
    }
  }

  lemma NotModifiedWithinHorizon(cfg: Config, snapshot: Feed, fetched: FetchResult, env: Env)
    requires cfg.policy.Valid() && IsDraw(env.draw) && fetched.outcome == NotModified
    ensures NextState(cfg, snapshot, fetched, env).feed.nextCheckAt <= env.now + 11 * cfg.policy.max / 10
  {
    IntervalsAreClamped(cfg.policy, snapshot.checkInterval, []);
    JitterBelow(cfg.policy, IntervalAfterNoChange(cfg.policy, snapshot.checkInterval), env.draw);
  }

  lemma RateLimitedWithinHorizon(p: Policy, feed: Feed, fetched: FetchResult, env: Env)
    requires p.Valid()
    ensures AfterRateLimit(p, feed, fetched, env).nextCheckAt <= env.now + Max(11 * p.max / 10, fetched.retryAfter)
  {
    IntervalsAreClamped(p, feed.checkInterval, []);
  }

  lemma ResultWithinHorizon(setup: Setup, a: Answer, longest: int)
    requires setup.crawler.policy.Valid() && IsAnswer(setup.crawler, a) && longest >= a.fetched.retryAfter
    ensures WithinHorizon(a, Horizon(setup, longest))
  {
    var cfg := setup.crawler;
    var feed := Awake(a.snapshot, a.fetched.statusCode);
    match a.fetched.outcome
    case Changed => ChangedWithinHorizon(cfg, a.snapshot, a.fetched, a.env);
    case NotModified => NotModifiedWithinHorizon(cfg, a.snapshot, a.fetched, a.env);
    case Failed => FailureWithinHorizon(cfg.policy, feed, a.fetched.error, a.env);
    case RateLimited => RateLimitedWithinHorizon(cfg.policy, feed, a.fetched, a.env);
    case _ =>
  }

  lemma AnswersKeepHorizon(setup: Setup)
    requires setup.Valid()
    ensures KeepHorizon(setup)
  {
    forall a, longest | a in setup.answers
      ensures WithinHorizon(a, Horizon(setup, Max(longest, a.fetched.retryAfter)))
    {
      ResultWithinHorizon(setup, a, Max(longest, a.fetched.retryAfter));
    }
  }

  lemma HorizonGrows(setup: Setup, s: System, e: Event, after: System, id: nat)
    requires setup.lease > 0 && Follows(setup, s, e, after)
    ensures setup.lease <= HorizonOf(setup, s, id) <= HorizonOf(setup, after, id)
    ensures s.now <= after.now
  {
  }

  lemma RecordedOnSchedule(setup: Setup, s: System, e: Event, id: nat)
    requires Schedules(setup, s) && Recorded(s, e, id)
    ensures OnSchedule(RowAfterCrawl(s.db.feeds[id], s.crawls[e.key].answer.result, e.at), s.now, HorizonOf(setup, s, id))
  {
    assert CrawlOnSchedule(s.crawls[e.key], s.now, HorizonOf(setup, s, e.key.feed));
  }

  lemma SchedulesOfRows(setup: Setup, s: System, e: Event, after: System, id: nat)
    requires setup.lease > 0 && Lifecycle(s) && Schedules(setup, s) && Follows(setup, s, e, after)
    requires id in after.db.feeds
    ensures OnSchedule(after.db.feeds[id], after.now, HorizonOf(setup, after, id))
  {
    HorizonGrows(setup, s, e, after, id);
    assert RowStep(setup, s, e, id, after.db.feeds[id]);
    if Recorded(s, e, id) {
      RecordedOnSchedule(setup, s, e, id);
    } else if id in s.db.feeds {
      assert OnSchedule(s.db.feeds[id], s.now, HorizonOf(setup, s, id));
    }
  }

  /** A crawl computed in this step, from a snapshot within the horizon, ends within it. */
  lemma ScheduleOfAnswer(setup: Setup, s: System, a: Answer, id: nat)
    requires KeepHorizon(setup) && a in setup.answers && a.env.now == s.now
    requires a.snapshot.nextCheckAt <= s.now + HorizonOf(setup, s, id)
    ensures a.result.feed.nextCheckAt <= s.now + HorizonOn(setup, s, a, id)
  {
  }

  function HorizonOn(setup: Setup, s: System, a: Answer, id: nat): int {
    Horizon(setup, Max(s.LongestRetry(id), a.fetched.retryAfter))
  }

  lemma HorizonFollows(setup: Setup, s: System, e: Event, after: System)
    requires Follows(setup, s, e, after) && e.Respond?
    ensures HorizonOf(setup, after, e.key.feed) == HorizonOn(setup, s, e.answer, e.key.feed)
  {
  }

  lemma ScheduleOfCrawl(setup: Setup, s: System, e: Event, k: Key, crawl: Crawl, row: Feed, now: int, horizon: int)
    requires KeepHorizon(setup) && Schedules(setup, s) && CrawlStep(setup, s, e, k, crawl, row)
    requires OnSchedule(row, now, horizon) && s.now <= now && HorizonOf(setup, s, k.feed) <= horizon
    requires e.Respond? && e.key == k ==> horizon == HorizonOn(setup, s, e.answer, k.feed)
    ensures CrawlOnSchedule(crawl, now, horizon)
  {
    if k in s.crawls {
      assert CrawlOnSchedule(s.crawls[k], s.now, HorizonOf(setup, s, k.feed));
      if e.Respond? && e.key == k {
        ScheduleOfAnswer(setup, s, e.answer, k.feed);
      }
    }
  }

  lemma SchedulesOfCrawls(setup: Setup, s: System, e: Event, after: System, k: Key)
    requires KeepHorizon(setup) && setup.lease > 0 && Lifecycle(s) && Schedules(setup, s) && Follows(setup, s, e, after)
    requires k in after.crawls
    ensures CrawlOnSchedule(after.crawls[k], after.now, HorizonOf(setup, after, k.feed))
  {
    var row := after.db.feeds[k.feed];
    HorizonGrows(setup, s, e, after, k.feed);
    SchedulesOfRows(setup, s, e, after, k.feed);
    assert CrawlStep(setup, s, e, k, after.crawls[k], row);
    if e.Respond? {
      HorizonFollows(setup, s, e, after);
    }
    ScheduleOfCrawl(setup, s, e, k, after.crawls[k], row, after.now, HorizonOf(setup, after, k.feed));
  }

  lemma SchedulesKept(setup: Setup, s: System, e: Event, after: System)
    requires KeepHorizon(setup) && setup.lease > 0 && Lifecycle(s) && Schedules(setup, s) && Follows(setup, s, e, after)
    ensures Schedules(setup, after)
  {
    forall id | id in after.db.feeds ensures OnSchedule(after.db.feeds[id], after.now, HorizonOf(setup, after, id)) {
      SchedulesOfRows(setup, s, e, after, id);
    }
    forall p | p in after.claims ensures after.claims[p].start <= after.now {
      assert ClaimStep(s, e, p, after.claims[p]);
    }
    forall k | k in after.crawls ensures CrawlOnSchedule(after.crawls[k], after.now, HorizonOf(setup, after, k.feed)) {
      SchedulesOfCrawls(setup, s, e, after, k);
    }
  }

  // ---- Every interleaving ----

  ghost predicate Safe(setup: Setup, s: System) {
    && WellFormed(s) && Lifecycle(s) && EpisodesOfCrawled(s)
    && Validators(s) && Redirects(s) && Schedules(setup, s) && AnswersInFlight(setup, s)
  }

  lemma SafeKept(setup: Setup, s: System, e: Event)
    requires setup.Valid() && Safe(setup, s) && Enabled(setup, s, e)
    ensures Safe(setup, Next(setup, s, e))
  {
    var after := Next(setup, s, e);
    StepFollows(setup, s, e);
    AnswersKeepIds(setup);
    WellFormedKept(setup, s, e, after);
    AnswersWake(setup);
    LifecycleKept(setup, s, e, after);
    EpisodesOfCrawledKept(setup, s, e);
    AnswersKeepOwnership(setup);
    ValidatorsKept(setup, s, e, after);
    AnswersKeepRedirects(setup);
    RedirectsKept(setup, s, e, after);
    AnswersKeepHorizon(setup);
    SchedulesKept(setup, s, e, after);
    AnswersInFlightKept(setup, s, e);
  }

  /** All the invariants hold in every reachable state. */
  lemma {:induction false} EveryRunIsSafe(setup: Setup, events: seq<Event>)
    requires setup.Valid() && Runs(setup, events)
    ensures Safe(setup, Final(setup, events))
    decreases |events|
  {
    if events != [] {
      var n := |events| - 1;
      EveryRunIsSafe(setup, events[..n]);
      SafeKept(setup, Final(setup, events[..n]), events[n]);
    }
  }

  // ---- What that means ----

  /** A dormant feed costs nothing: nobody has requested, crawled or parsed it. */
  lemma DormantFeedsAreUntouched(setup: Setup, events: seq<Event>, id: nat)
    requires setup.Valid() && Runs(setup, events)
    requires id in Final(setup, events).db.feeds && Final(setup, events).db.feeds[id].status == Dormant
    ensures
      var s := Final(setup, events);
      var feed := s.db.feeds[id];
      && feed.crawlSeq == 0 && s.db.RowsOf(id) == map[]
      && feed.lastSuccessAt == None && feed.activatedAt == None && feed.lastCheckedAt == None
  {
    EveryRunIsSafe(setup, events);
    assert !HasEpisodes(Final(setup, events), id);
  }

  lemma StaysAwake(setup: Setup, s: System, e: Event, after: System, id: nat)
    requires Lifecycle(s) && Follows(setup, s, e, after) && IsAwake(s, id)
    ensures IsAwake(after, id)
  {
    if after.db.feeds[id].status == Dormant {
      LifecycleOfRows(setup, s, e, after, id);
    }
  }

  predicate IsAwake(s: System, id: nat) {
    id in s.db.feeds && s.db.feeds[id].status != Dormant
  }

  /** Once awake, a feed never goes back to dormant, whatever is written back later. */
  lemma {:induction false} NeverDormantAgain(setup: Setup, events: seq<Event>, n: nat, id: nat)
    requires setup.Valid() && Runs(setup, events) && n <= |events| && IsAwake(StateAt(setup, events, n), id)
    ensures IsAwake(Final(setup, events), id)
    decreases |events|
  {
    if n < |events| {
      var front, e := events[..|events| - 1], events[|events| - 1];
      NeverDormantAgain(setup, front, n, id);
      EveryRunIsSafe(setup, front);
      StepFollows(setup, Final(setup, front), e);
      StaysAwake(setup, Final(setup, front), e, Final(setup, events), id);
    }
  }

  /** Dormant feeds and redirect stubs are in no claimed batch. */
  lemma ClaimedFeedsAreInRotation(setup: Setup, events: seq<Event>, p: nat, id: nat)
    requires setup.Valid() && Runs(setup, events)
    requires p in Final(setup, events).claims && id in Final(setup, events).claims[p].ids
    ensures id in Final(setup, events).db.feeds && InRotation(Final(setup, events).db.feeds[id])
  {
    EveryRunIsSafe(setup, events);
  }

  /** Until a URL has answered, every fetch of the feed is unconditional: so after a move. */
  lemma FirstFetchIsUnconditional(setup: Setup, events: seq<Event>, id: nat)
    requires setup.Valid() && Runs(setup, events) && id in Final(setup, events).db.feeds
    requires forall i :: i in Final(setup, events).log ==> i.url != Final(setup, events).db.feeds[id].url
    ensures NoValidators(Final(setup, events).db.feeds[id])
  {
    EveryRunIsSafe(setup, events);
    var s := Final(setup, events);
    assert OwnsValidators(s.log, s.db.feeds[id]);
  }

  /** The step records a crawl of the feed that takes the feed to another URL. */
  ghost predicate AcceptsMove(s: System, e: Event, id: nat) {
    && Recorded(s, e, id)
    && s.crawls[e.key].answer.result.feed.url != s.crawls[e.key].answer.snapshot.url
  }

  /** The crawl of the feed recorded last was an accepted move. */
  ghost predicate JustMoved(setup: Setup, events: seq<Event>, id: nat)
    requires Runs(setup, events)
  {
    events != [] &&
    var n := |events| - 1;
    var s := Final(setup, events[..n]);
    AcceptsMove(s, events[n], id) || (!Recorded(s, events[n], id) && JustMoved(setup, events[..n], id))
  }

  lemma MovesAreUnconditional(setup: Setup, s: System, e: Event, id: nat)
    requires setup.Valid() && AnswersInFlight(setup, s) && AcceptsMove(s, e, id)
    ensures NoValidators(s.crawls[e.key].answer.result.feed)
  {
    var a := s.crawls[e.key].answer;
    StateValidators(setup.crawler, a.snapshot, a.fetched, a.env);
  }

  /** An accepted move leaves no validators, not even those the new URL once issued. */
  lemma {:induction false} FetchAfterMoveIsUnconditional(setup: Setup, events: seq<Event>, id: nat)
    requires setup.Valid() && Runs(setup, events) && JustMoved(setup, events, id)
    ensures id in Final(setup, events).db.feeds && NoValidators(Final(setup, events).db.feeds[id])
    decreases |events|
  {
    var n := |events| - 1;
    var s := Final(setup, events[..n]);
    EveryRunIsSafe(setup, events[..n]);
    if AcceptsMove(s, events[n], id) {
      MovesAreUnconditional(setup, s, events[n], id);
    } else {
      FetchAfterMoveIsUnconditional(setup, events[..n], id);
    }
    RowsStay(setup, s, events[n], id);
    RowsFollow(setup, s, events[n], id);
  }

  /** No two rows share a URL, and every stub points at another existing row. */
  lemma FeedsTableIsConsistent(setup: Setup, events: seq<Event>)
    requires setup.Valid() && Runs(setup, events)
    ensures
      var feeds := Final(setup, events).db.feeds;
      && (forall a, b :: a in feeds && b in feeds && a != b ==> feeds[a].url != feeds[b].url)
      && (forall id :: id in feeds && feeds[id].status == Redirected ==>
            && feeds[id].redirectedTo.Some?
            && feeds[id].redirectedTo.value in feeds && feeds[id].redirectedTo.value != id)
  {
    EveryRunIsSafe(setup, events);
    var s := Final(setup, events);
    forall id | id in s.db.feeds && s.db.feeds[id].status == Redirected
      ensures s.db.feeds[id].redirectedTo.Some?
      ensures s.db.feeds[id].redirectedTo.value in s.db.feeds && s.db.feeds[id].redirectedTo.value != id
    {
      assert SoundRedirect(s.db.feeds, s.db.feeds[id]);
    }
  }

  lemma ResultUrl(cfg: Config, a: Answer)
    requires IsAnswer(cfg, a)
    ensures a.result.feed.url == a.snapshot.url || IsFeedByUrl(a.db, a.result.feed.url, None)
            || IsFeedByUrl(a.db, a.result.feed.url, Some(a.snapshot.id))
  {
  }

  /**
   A crawl of the current row is refused only for the unique URL, and exactly when, since the
   tables were consulted, another row has come to hold the URL it writes. With no writer in
   between an accepted move is never refused.
   */
  lemma RefusedOnlyForInterveningWriter(cfg: Config, a: Answer, later: Db)
    requires IsAnswer(cfg, a) && a.db.Consistent()
    requires a.snapshot.id in a.db.feeds && a.db.feeds[a.snapshot.id].url == a.snapshot.url
    requires SoundRedirect(a.db.feeds, a.snapshot)
    requires forall id :: id in a.db.feeds ==> id in later.feeds
    ensures UpdateError(a.db, a.result.feed) == None
    ensures
      var error, url := UpdateError(later, a.result.feed), a.result.feed.url;
      && (error == None || error == Some(UniqueUrl))
      && (error == Some(UniqueUrl) <==>
          exists id :: id in later.feeds && id != a.snapshot.id && later.feeds[id].url == url
                       && (id !in a.db.feeds || a.db.feeds[id].url != url))
  {
    ResultUrl(cfg, a);
    ResultRedirects(cfg, a);
    ResultKeepsId(cfg, a.snapshot, a.fetched, a.env);
    forall id | id in a.db.feeds && id != a.snapshot.id ensures a.db.feeds[id].url != a.result.feed.url {
    }
  }

  /**
   Every feed in the rotation is due again within the horizon of its last claim, record or
   activation, whether the worker holding it records the crawl, fails to, or dies.
   */
  lemma NoFeedIsStranded(setup: Setup, events: seq<Event>, id: nat, at: int)
    requires setup.Valid() && Runs(setup, events)
    requires id in Final(setup, events).db.feeds && InRotation(Final(setup, events).db.feeds[id])
    ensures
      var s := Final(setup, events);
      var feed := s.db.feeds[id];
      && LastScheduled(feed) <= s.now
      && (at >= LastScheduled(feed) + HorizonOf(setup, s, id) ==> IsDue(feed, at))
  {
    EveryRunIsSafe(setup, events);
    var s := Final(setup, events);
    assert OnSchedule(s.db.feeds[id], s.now, HorizonOf(setup, s, id));
  }
}

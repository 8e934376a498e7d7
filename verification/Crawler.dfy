/**
 The unit of work of crawl/crawler.go: turning a fetch result into the feed's next state and
 recording it. Clock readings, the jitter's draw, the database's answers to the two queries
 apply makes, and whether they fail, are gathered in Env.
 */
module Crawler {
  import opened Prelude
  import opened Parse
  import opened Fetch
  import opened Catalogue
  import opened Schedule
  import opened Effects
  import Cadence
  import Sorting
  import opened Store

  /** The dates of the first n dated episodes. */
  function FirstDated(eps: seq<EpisodeUpsert>, n: nat): seq<int> {
    if eps == [] || n == 0 then []
    else match eps[0].pubDate
         case Some(date) => [date] + FirstDated(eps[1..], n - 1)
         case None => FirstDated(eps[1..], n)
  }

  /** The dates the cadence is estimated from: the parsed ones, or those and the stored ones. */
  function CadenceDates(eps: seq<EpisodeUpsert>, stored: seq<int>): seq<int> {
    var parsed := FirstDated(eps, CADENCE_SAMPLE);
    if |parsed| >= 2 then parsed else parsed + stored
  }

  /** Stored dates the document repeats do not disturb the cadence. */
  lemma RepeatedDatesAreHarmless(eps: seq<EpisodeUpsert>, stored: seq<int>, others: seq<int>)
    requires forall d :: d !in FirstDated(eps, CADENCE_SAMPLE) ==> (d in stored <==> d in others)
    ensures Cadence.MedianGap(CadenceDates(eps, stored)) == Cadence.MedianGap(CadenceDates(eps, others))
  {
    Cadence.MedianGapDependsOnSet(CadenceDates(eps, stored), CadenceDates(eps, others));
  }

  /** Empty when the announcement is empty or points at where the feed already is. */
  function MoveTarget(newUrl: string, currentUrl: string): string {
    var target := TrimSpace(newUrl);
    if target == "" || target == currentUrl then "" else target
  }

  /** The feed after a move announcement; None when the announcement is not acted on. */
  function AfterMove(policy: Policy, feed: Feed, newUrl: string, env: Env): Option<Feed> {
    var target := MoveTarget(newUrl, feed.url);
    if target == "" || env.lookup.LookupFailed? then None
    else if env.lookup.Found? && env.lookup.id != feed.id then
      Some(feed.(status := Redirected, redirectedTo := Some(env.lookup.id), nextCheckAt := env.now + policy.deadRecheck))
    else
      Some(feed.(url := target, etag := "", lastModified := "", bodyHash := "",
                 status := Active, consecutiveFailures := 0, lastError := "", nextCheckAt := env.now))
  }

  function AfterFailure(policy: Policy, feed: Feed, cause: Option<string>, env: Env): Feed {
    var failed := feed.(consecutiveFailures := feed.consecutiveFailures + 1,
                        lastError := if cause.Some? then cause.value else feed.lastError);
    if IsDead(policy, failed.consecutiveFailures) then
      failed.(status := Dead, nextCheckAt := env.now + policy.deadRecheck)
    else
      var interval := IntervalAfterError(policy, failed.checkInterval);
      failed.(checkInterval := interval, nextCheckAt := NextCheck(env.now, interval, env.draw))
  }

  function AfterSuccess(feed: Feed, interval: int, env: Env): Feed {
    feed.(status := Active, consecutiveFailures := 0, lastError := "", lastSuccessAt := Some(env.now),
          checkInterval := interval, nextCheckAt := NextCheck(env.now, interval, env.draw))
  }

  function AfterChange(cfg: Config, feed: Feed, fetched: FetchResult, eps: seq<EpisodeUpsert>, env: Env): Feed {
    AfterSuccess(feed.(etag := fetched.etag, lastModified := fetched.lastModified, bodyHash := fetched.bodyHash,
                       lastModifiedAt := Some(env.now)),
                 IntervalAfterChange(cfg.policy, CadenceDates(eps, env.stored)), env)
  }

  function AfterNoChange(cfg: Config, feed: Feed, fetched: FetchResult, env: Env): Feed {
    AfterSuccess(feed.(etag := fetched.etag, lastModified := fetched.lastModified,
                       bodyHash := if |fetched.bodyHash| > 0 then fetched.bodyHash else feed.bodyHash),
                 IntervalAfterNoChange(cfg.policy, feed.checkInterval), env)
  }

  /** The delay a 429 asks for, or an error backoff when it names none. */
  function RateLimitDelay(policy: Policy, feed: Feed, fetched: FetchResult): int {
    if fetched.retryAfter <= 0 then IntervalAfterError(policy, feed.checkInterval) else fetched.retryAfter
  }

  function AfterRateLimit(policy: Policy, feed: Feed, fetched: FetchResult, env: Env): Feed {
    feed.(lastError := if fetched.error.Some? then fetched.error.value else "",
          nextCheckAt := env.now + RateLimitDelay(policy, feed, fetched))
  }

  function AfterGone(policy: Policy, feed: Feed, fetched: FetchResult, env: Env): Feed {
    feed.(status := Dead, lastError := if fetched.error.Some? then fetched.error.value else "",
          consecutiveFailures := feed.consecutiveFailures + 1, nextCheckAt := env.now + policy.deadRecheck)
  }

  /** Crawling a feed at all puts it into the rotation. */
  function Awake(feed: Feed, statusCode: int): Feed {
    feed.(lastStatusCode := statusCode, status := if feed.status == Dormant then Active else feed.status)
  }

  function Unparsed(feed: Feed): CrawlResult {
    CrawlResult(feed, false, [], 0)
  }

  const PARSE_ERROR := "parsing feed"

  /** What a new document makes of the feed. */
  function DocumentState(cfg: Config, feed: Feed, fetched: FetchResult, env: Env): CrawlResult {
    match ParseDocument(cfg.codec, fetched.body)
    case None => Unparsed(AfterFailure(cfg.policy, feed, Some(PARSE_ERROR), env))
    case Some(parsed) =>
      match AfterMove(cfg.policy, feed, parsed.newFeedUrl, env)
      case Some(moved) => Unparsed(moved)
      case None => CrawlResult(AfterChange(cfg, feed, fetched, parsed.episodes, env), true, parsed.episodes, cfg.grace)
  }

  /** What apply computes from the snapshot it was handed. */
  function NextState(cfg: Config, snapshot: Feed, fetched: FetchResult, env: Env): CrawlResult {
    var feed := Awake(snapshot, fetched.statusCode);
    match fetched.outcome
    case Changed => DocumentState(cfg, feed, fetched, env)
    case NotModified => Unparsed(AfterNoChange(cfg, feed, fetched, env))
    case Moved =>
      (match AfterMove(cfg.policy, feed, fetched.newUrl, env)
       case Some(moved) => Unparsed(moved)
       case None => Unparsed(feed))
    case Gone => Unparsed(AfterGone(cfg.policy, feed, fetched, env))
    case RateLimited => Unparsed(AfterRateLimit(cfg.policy, feed, fetched, env))
    case Failed => Unparsed(AfterFailure(cfg.policy, feed, fetched.error, env))
  }

  lemma ResultKeepsId(cfg: Config, snapshot: Feed, fetched: FetchResult, env: Env)
    ensures NextState(cfg, snapshot, fetched, env).feed.id == snapshot.id
  {
  }

  function ClassifyFor(cfg: Config, snapshot: Feed, response: Response, now: int): FetchResult {
    Classify(cfg.codec.sha, cfg.maxBody, snapshot.etag, snapshot.lastModified, snapshot.bodyHash, response, now)
  }

  /** The crawl of a snapshot: fetch and apply. fetchedAt is the clock reading of the fetch. */
  function CrawlOf(cfg: Config, snapshot: Feed, response: Response, fetchedAt: int, env: Env): CrawlResult {
    NextState(cfg, snapshot, ClassifyFor(cfg, snapshot, response, fetchedAt), env)
  }

  /** The move announcement a fetch result carries, if any. */
  function Announced(cfg: Config, fetched: FetchResult): string {
    match fetched.outcome
    case Changed =>
      var parsed := ParseDocument(cfg.codec, fetched.body);
      if parsed.Some? then parsed.value.newFeedUrl else ""
    case Moved => fetched.newUrl
    case _ => ""
  }

  ghost predicate IsStored(db: Db, id: nat, stored: seq<int>) {
    stored == [] || IsRecentDates(db.RowsOf(id), CADENCE_SAMPLE, stored)
  }

  /** env could have been observed by a crawl of the snapshot against this database. */
  ghost predicate Observes(cfg: Config, db: Db, snapshot: Feed, fetched: FetchResult, env: Env) {
    && IsDraw(env.draw)
    && IsLookup(db, MoveTarget(Announced(cfg, fetched), snapshot.url), env.lookup)
    && IsStored(db, snapshot.id, env.stored)
  }

  /** The cadence of a document with fewer than two dates is completed from the table. */
  predicate AsksForDates(result: CrawlResult) {
    result.parsed && |FirstDated(result.episodes, CADENCE_SAMPLE)| < 2
  }

  /** env misses an answer of the database only where the query was made and failed. */
  ghost predicate Answered(
    cfg: Config, db: Db, snapshot: Feed, fetched: FetchResult, env: Env, lookupFails: bool, queryFails: bool)
  {
    && (MoveTarget(Announced(cfg, fetched), snapshot.url) != "" ==> (env.lookup.LookupFailed? <==> lookupFails))
    && (AsksForDates(NextState(cfg, snapshot, fetched, env)) ==>
          if queryFails then env.stored == [] else IsRecentDates(db.RowsOf(snapshot.id), CADENCE_SAMPLE, env.stored))
  }

  // ---- What that comes to ----

  lemma {:induction false} FirstDatedIsPrefix(items: seq<Item>, eps: seq<EpisodeUpsert>, n: nat)
    requires |eps| == |items| && forall i :: 0 <= i < |items| ==> eps[i].pubDate == items[i].published
    ensures FirstDated(eps, n) == DatesOf(items)[..Min(n, |DatesOf(items)|)]
  {
    if items != [] && n > 0 {
      FirstDatedIsPrefix(items[1..], eps[1..], if items[0].published.Some? then n - 1 else n);
    }
  }

  lemma CadenceIsOfSample(sha: string -> string, items: seq<Item>, stored: seq<int>)
    ensures CadenceDates(Episodes(sha, items), stored) == Sample(items, stored)
    ensures |FirstDated(Episodes(sha, items), CADENCE_SAMPLE)| < 2 <==> |DatesOf(items)| < 2
  {
    FirstDatedIsPrefix(items, Episodes(sha, items), CADENCE_SAMPLE);
    var dates := DatesOf(items);
    assert |dates| < 2 ==> dates[..|dates|] == dates;
  }

  lemma OutcomeOf(cfg: Config, snapshot: Feed, response: Response, fetchedAt: int)
    ensures
      var fetched := ClassifyFor(cfg, snapshot, response, fetchedAt);
      && IsOutcome(cfg.codec.sha, cfg.maxBody, snapshot.bodyHash, response, fetched.outcome)
      && HasParts(cfg.codec.sha, cfg.maxBody, snapshot.etag, snapshot.lastModified, response, fetchedAt, fetched)
  {
    ClassifyIsRight(cfg.codec.sha, cfg.maxBody, snapshot.etag, snapshot.lastModified, snapshot.bodyHash, response, fetchedAt);
  }

  lemma NextCheckIsScheduled(cfg: Config, interval: int, env: Env, row: Feed)
    requires row.checkInterval == Clamp(cfg.policy, interval)
    requires row.nextCheckAt == NextCheck(env.now, row.checkInterval, env.draw)
    ensures IsScheduled(cfg, interval, env, row)
  {
    ClampIsExact(cfg.policy, interval);
    if cfg.policy.Valid() && IsDraw(env.draw) {
      JitterFollowsDraw(row.checkInterval, env.draw);
    }
  }

  lemma StoredIsEffect(cfg: Config, snapshot: Feed, response: Response, fetchedAt: int, env: Env, row: Feed)
    requires Reads(cfg, snapshot, response)
    requires
      var fetched := ClassifyFor(cfg, snapshot, response, fetchedAt);
      var eps := ParseDocument(cfg.codec, response.body.content).value.episodes;
      row == AfterChange(cfg, Awake(snapshot, response.status), fetched, eps, env)
    ensures IsStoredRow(cfg, snapshot, response, env, row)
  {
    var items := ChannelOf(cfg, response).items;
    OutcomeOf(cfg, snapshot, response, fetchedAt);
    CadenceIsOfSample(cfg.codec.sha, items, env.stored);
    Cadence.GapExactlyWhenDifferent(Sample(items, env.stored));
    NextCheckIsScheduled(cfg, CadenceOf(items, env.stored), env, row);
  }

  lemma ConfirmedIsEffect(cfg: Config, snapshot: Feed, response: Response, fetchedAt: int, env: Env, row: Feed)
    requires IsNothingNew(cfg, snapshot, response)
    requires row == AfterNoChange(cfg, Awake(snapshot, response.status),
                                  ClassifyFor(cfg, snapshot, response, fetchedAt), env)
    ensures IsConfirmedRow(cfg, snapshot, response, env, row)
  {
    var c := CurrentInterval(snapshot);
    OutcomeOf(cfg, snapshot, response, fetchedAt);
    NextCheckIsScheduled(cfg, c + c / 2, env, row);
  }

  lemma FailedIsEffect(
    cfg: Config, snapshot: Feed, response: Response, statusCode: int, cause: string, env: Env, row: Feed)
    requires if response.TransportError? then cause == response.error else cause != ""
    requires row == AfterFailure(cfg.policy, Awake(snapshot, statusCode), Some(cause), env)
    ensures IsFailedRow(cfg, snapshot, response, env, row)
  {
    if !IsDead(cfg.policy, row.consecutiveFailures) {
      NextCheckIsScheduled(cfg, 2 * CurrentInterval(snapshot), env, row);
    }
  }

  lemma ThrottledIsEffect(cfg: Config, snapshot: Feed, response: Response, fetchedAt: int, env: Env, row: Feed)
    requires response.Response? && response.status == 429
    requires row == AfterRateLimit(cfg.policy, Awake(snapshot, response.status),
                                   ClassifyFor(cfg, snapshot, response, fetchedAt), env)
    ensures IsThrottledRow(cfg, snapshot, response.retryAfter, fetchedAt, env, row)
  {
    OutcomeOf(cfg, snapshot, response, fetchedAt);
    if cfg.policy.Valid() {
      FactorsAreExact(cfg.policy, snapshot.checkInterval);
    }
    assert IsRetryDelay(response.retryAfter, fetchedAt, ClassifyFor(cfg, snapshot, response, fetchedAt).retryAfter);
  }

  lemma MovedIsEffect(cfg: Config, snapshot: Feed, statusCode: int, announced: string, env: Env)
    ensures
      var moved := AfterMove(cfg.policy, Awake(snapshot, statusCode), announced, env);
      var target := TrimSpace(announced);
      if target != "" && target != snapshot.url && !env.lookup.LookupFailed? then
        && moved.Some? && IsMovedRow(cfg, snapshot, target, env, moved.value)
        && moved.value.lastStatusCode == statusCode && moved.value.id == snapshot.id
      else moved == None
  {
  }

  /** The response decides what becomes of the row. */
  ghost predicate IsDecided(
    cfg: Config, snapshot: Feed, response: Response, fetchedAt: int, env: Env, result: CrawlResult)
  {
    var moves := IsMove(cfg, snapshot, response) && !env.lookup.LookupFailed?;
    && result.feed.lastStatusCode == (if response.Response? then response.status else 0)
    && result.parsed == (Reads(cfg, snapshot, response) && !moves)
    && (result.parsed ==>
          && AreEpisodesOf(cfg.codec.sha, ChannelOf(cfg, response).items, result.episodes)
          && result.pruneGrace == cfg.grace)
    && IsDecision(cfg, snapshot, response, fetchedAt, env, moves, result.feed)
  }

  lemma DocumentDecides(cfg: Config, snapshot: Feed, response: Response, fetchedAt: int, env: Env)
    requires IsNewBody(cfg, snapshot, response)
    ensures IsDecided(cfg, snapshot, response, fetchedAt, env, CrawlOf(cfg, snapshot, response, fetchedAt, env))
  {
    var result := CrawlOf(cfg, snapshot, response, fetchedAt, env);
    OutcomeOf(cfg, snapshot, response, fetchedAt);
    var fetched := ClassifyFor(cfg, snapshot, response, fetchedAt);
    assert fetched.outcome == Changed && fetched.body == response.body.content;
    if !Reads(cfg, snapshot, response) {
      FailedIsEffect(cfg, snapshot, response, response.status, PARSE_ERROR, env, result.feed);
    } else {
      DocumentIsParsed(cfg.codec, response.body.content);
      TrimmedTwice(ChannelOf(cfg, response).newFeedUrl);
      MovedIsEffect(cfg, snapshot, response.status, TrimSpace(ChannelOf(cfg, response).newFeedUrl), env);
      if result.parsed {
        StoredIsEffect(cfg, snapshot, response, fetchedAt, env, result.feed);
      }
    }
  }

  lemma RedirectDecides(cfg: Config, snapshot: Feed, response: Response, fetchedAt: int, env: Env)
    requires IsRedirect(response)
    ensures IsDecided(cfg, snapshot, response, fetchedAt, env, CrawlOf(cfg, snapshot, response, fetchedAt, env))
  {
    OutcomeOf(cfg, snapshot, response, fetchedAt);
    MovedIsEffect(cfg, snapshot, response.status, response.location.value, env);
  }

  lemma ResponseDecides(cfg: Config, snapshot: Feed, response: Response, fetchedAt: int, env: Env)
    requires !IsNewBody(cfg, snapshot, response)
    ensures IsDecided(cfg, snapshot, response, fetchedAt, env, CrawlOf(cfg, snapshot, response, fetchedAt, env))
  {
    var result := CrawlOf(cfg, snapshot, response, fetchedAt, env);
    OutcomeOf(cfg, snapshot, response, fetchedAt);
    var fetched := ClassifyFor(cfg, snapshot, response, fetchedAt);
    match fetched.outcome
    case NotModified => ConfirmedIsEffect(cfg, snapshot, response, fetchedAt, env, result.feed);
    case Moved => RedirectDecides(cfg, snapshot, response, fetchedAt, env);
    case RateLimited => ThrottledIsEffect(cfg, snapshot, response, fetchedAt, env, result.feed);
    case Failed => FailedIsEffect(cfg, snapshot, response, fetched.statusCode, fetched.error.value, env, result.feed);
    case Gone =>
  }

  lemma CrawlIsDecided(cfg: Config, snapshot: Feed, response: Response, fetchedAt: int, env: Env)
    ensures IsDecided(cfg, snapshot, response, fetchedAt, env, CrawlOf(cfg, snapshot, response, fetchedAt, env))
  {
    if IsNewBody(cfg, snapshot, response) {
      DocumentDecides(cfg, snapshot, response, fetchedAt, env);
    } else {
      ResponseDecides(cfg, snapshot, response, fetchedAt, env);
    }
  }

  /** What recording a crawl does to the row of its feed. */
  lemma CrawlIsEffect(
    cfg: Config, before: Feed, snapshot: Feed, response: Response, fetchedAt: int, env: Env, at: int)
    ensures
      var row := RowAfterCrawl(before, CrawlOf(cfg, snapshot, response, fetchedAt, env), at);
      IsEffect(cfg, before, snapshot, response, fetchedAt, env, at, row)
  {
    CrawlIsDecided(cfg, snapshot, response, fetchedAt, env);
    DecisionIsRecorded(cfg, before, snapshot, response, fetchedAt, env, at,
                       CrawlOf(cfg, snapshot, response, fetchedAt, env));
  }

  lemma DecisionIsRecorded(
    cfg: Config, before: Feed, snapshot: Feed, response: Response, fetchedAt: int, env: Env, at: int, result: CrawlResult)
    requires IsDecided(cfg, snapshot, response, fetchedAt, env, result)
    ensures IsEffect(cfg, before, snapshot, response, fetchedAt, env, at, RowAfterCrawl(before, result, at))
  {
  }

  /** What the caller of CrawlFeed learns went wrong with the feed itself. */
  function ReportError(cfg: Config, fetched: FetchResult): Option<string> {
    match fetched.outcome
    case Changed => if ParseDocument(cfg.codec, fetched.body) == None then Some(PARSE_ERROR) else None
    case NotModified => None
    case Moved => None
    case _ => fetched.error
  }

  lemma ErrorExactlyWhenWrong(cfg: Config, snapshot: Feed, response: Response, fetchedAt: int)
    ensures ReportError(cfg, ClassifyFor(cfg, snapshot, response, fetchedAt)).Some? <==> GoesWrong(cfg, snapshot, response)
  {
    OutcomeOf(cfg, snapshot, response, fetchedAt);
  }

  /** The queries apply makes are those the response calls for. */
  lemma QueriesAreAsked(
    cfg: Config, db: Db, snapshot: Feed, response: Response, fetchedAt: int, env: Env, lookupFails: bool, queryFails: bool)
    requires
      var fetched := ClassifyFor(cfg, snapshot, response, fetchedAt);
      Observes(cfg, db, snapshot, fetched, env) && Answered(cfg, db, snapshot, fetched, env, lookupFails, queryFails)
    ensures IsAsked(cfg, db, snapshot, response, env, lookupFails, queryFails)
  {
    OutcomeOf(cfg, snapshot, response, fetchedAt);
    if IsNewBody(cfg, snapshot, response) {
      DocumentDecides(cfg, snapshot, response, fetchedAt, env);
      if Reads(cfg, snapshot, response) {
        TrimmedTwice(ChannelOf(cfg, response).newFeedUrl);
        CadenceIsOfSample(cfg.codec.sha, ChannelOf(cfg, response).items, env.stored);
      }
    }
  }

  /** The row of a crawl whose new document was stored has the clamped cadence of its items. */
  lemma StoredDocumentSetsInterval(
    cfg: Config, db: Db, snapshot: Feed, response: Response, fetchedAt: int, env: Env, at: int)
    requires cfg.policy.Valid() && IsDraw(env.draw) && Reads(cfg, snapshot, response)
    requires IsMove(cfg, snapshot, response) ==> env.lookup.LookupFailed?
    requires Catalogue.ApplyCrawl(db, CrawlOf(cfg, snapshot, response, fetchedAt, env), at).Ok?
    ensures
      var after := Catalogue.ApplyCrawl(db, CrawlOf(cfg, snapshot, response, fetchedAt, env), at).value;
      var cadence := CadenceOf(ChannelOf(cfg, response).items, env.stored);
      && snapshot.id in after.feeds
      && after.feeds[snapshot.id].checkInterval == Max(cfg.policy.min, Min(cadence, cfg.policy.max))
  {
    ResultKeepsId(cfg, snapshot, ClassifyFor(cfg, snapshot, response, fetchedAt), env);
    CrawlIsEffect(cfg, db.feeds[snapshot.id], snapshot, response, fetchedAt, env, at);
  }

  /** A daily show is polled daily and a monthly one monthly, within the clamps. */
  lemma RegularShowIsPolledAtItsGap(
    cfg: Config, db: Db, snapshot: Feed, response: Response, fetchedAt: int, env: Env, at: int, gap: int)
    requires cfg.policy.Valid() && IsDraw(env.draw) && Reads(cfg, snapshot, response)
    requires IsMove(cfg, snapshot, response) ==> env.lookup.LookupFailed?
    requires Catalogue.ApplyCrawl(db, CrawlOf(cfg, snapshot, response, fetchedAt, env), at).Ok?
    requires var gaps := Cadence.Gaps(Sorting.Sort(Sample(ChannelOf(cfg, response).items, env.stored)));
             2 * Cadence.Occurrences(gaps, gap) > |gaps|
    ensures
      var after := Catalogue.ApplyCrawl(db, CrawlOf(cfg, snapshot, response, fetchedAt, env), at).value;
      && snapshot.id in after.feeds
      && after.feeds[snapshot.id].checkInterval == Max(cfg.policy.min, Min(gap, cfg.policy.max))
  {
    StoredDocumentSetsInterval(cfg, db, snapshot, response, fetchedAt, env, at);
    MajorityGapIsCadence(ChannelOf(cfg, response).items, env.stored, gap);
  }

  /** A feed that a callee changes in place. */
  class FeedCell {
    var feed: Feed

    constructor (feed: Feed)
      ensures this.feed == feed
    {
      this.feed := feed;
    }
  }

  datatype Report = Report(error: Option<string>, counts: CrawlCounts)

  class Crawler {
    const store: Store
    const cfg: Config

    constructor (store: Store, cfg: Config)
      ensures this.store == store && this.cfg == cfg
    {
      this.store := store;
      this.cfg := cfg;
    }

    /** Points the feed at its new URL, or retires it when another row owns that URL. */
    method ApplyMove(cell: FeedCell, newUrl: string, now: int, lookupFails: bool)
      returns (moved: bool, ghost lookup: Lookup)
      requires store.Contents().Consistent()
      modifies cell
      ensures IsLookup(store.Contents(), MoveTarget(newUrl, old(cell.feed).url), lookup)
      ensures MoveTarget(newUrl, old(cell.feed).url) != "" ==> (lookup.LookupFailed? <==> lookupFails)
      ensures forall draw, stored ::
                match AfterMove(cfg.policy, old(cell.feed), newUrl, Env(now, draw, lookup, stored))
                case Some(after) => moved && cell.feed == after
                case None => !moved && cell.feed == old(cell.feed)
    {
      lookup := LookupFailed;
      var target := MoveTarget(newUrl, cell.feed.url);
      if target == "" || lookupFails {
        return false, lookup;
      }
      var existing := store.FeedByURL(target);
      lookup := if existing.Some? then Found(existing.value.id) else Missing;
      if existing.Some? && existing.value.id != cell.feed.id {
        cell.feed := cell.feed.(status := Redirected);
        cell.feed := cell.feed.(redirectedTo := Some(existing.value.id));
        cell.feed := cell.feed.(nextCheckAt := now + cfg.policy.deadRecheck);
      } else {
        cell.feed := cell.feed.(url := target);
        cell.feed := cell.feed.(etag := "", lastModified := "", bodyHash := "");
        cell.feed := cell.feed.(status := Active, consecutiveFailures := 0, lastError := "");
        cell.feed := cell.feed.(nextCheckAt := now);
      }
      return true, lookup;
    }

    method ApplyFailure(feed: Feed, cause: Option<string>, now: int, draw: real) returns (result: CrawlResult)
      ensures forall lookup, stored :: result == Unparsed(AfterFailure(cfg.policy, feed, cause, Env(now, draw, lookup, stored)))
    {
      var next := feed.(consecutiveFailures := feed.consecutiveFailures + 1);
      if cause.Some? {
        next := next.(lastError := cause.value);
      }
      if IsDead(cfg.policy, next.consecutiveFailures) {
        next := next.(status := Dead);
        next := next.(nextCheckAt := now + cfg.policy.deadRecheck);
        return Unparsed(next);
      }
      next := next.(checkInterval := IntervalAfterError(cfg.policy, next.checkInterval));
      next := next.(nextCheckAt := NextCheck(now, next.checkInterval, draw));
      return Unparsed(next);
    }

    method RecentDates(id: nat, eps: seq<EpisodeUpsert>, queryFails: bool)
      returns (dates: seq<int>, ghost stored: seq<int>)
      ensures IsStored(store.Contents(), id, stored)
      ensures |FirstDated(eps, CADENCE_SAMPLE)| < 2 ==>
                if queryFails then stored == [] else IsRecentDates(store.Contents().RowsOf(id), CADENCE_SAMPLE, stored)
      ensures dates == CadenceDates(eps, stored)
    {
      dates, stored := [], [];
      for i := 0 to |eps|
        invariant |dates| < CADENCE_SAMPLE
        invariant FirstDated(eps, CADENCE_SAMPLE) == dates + FirstDated(eps[i..], CADENCE_SAMPLE - |dates|)
      {
        assert eps[i..][0] == eps[i] && eps[i..][1..] == eps[i + 1..];
        if eps[i].pubDate.Some? {
          dates := dates + [eps[i].pubDate.value];
          if |dates| == CADENCE_SAMPLE {
            return;
          }
        }
      }
      assert FirstDated(eps, CADENCE_SAMPLE) == dates;
      if |dates| >= 2 || queryFails {
        return;
      }
      var found := store.RecentEpisodeDates(id, CADENCE_SAMPLE);
      stored := found;
      dates := dates + found;
    }

    /** The Changed case of apply: parse, move, or store. next is already awake. */
    method ApplyDocument(
      feed: Feed, fetched: FetchResult, now: int, draw: real, lookupFails: bool, queryFails: bool)
      returns (result: CrawlResult, ghost env: Env)
      requires store.Contents().Consistent() && IsDraw(draw) && fetched.outcome == Changed
      ensures env.now == now && env.draw == draw
      ensures IsLookup(store.Contents(), MoveTarget(Announced(cfg, fetched), feed.url), env.lookup)
      ensures IsStored(store.Contents(), feed.id, env.stored)
      ensures MoveTarget(Announced(cfg, fetched), feed.url) != "" ==> (env.lookup.LookupFailed? <==> lookupFails)
      ensures AsksForDates(result) ==>
                if queryFails then env.stored == []
                else IsRecentDates(store.Contents().RowsOf(feed.id), CADENCE_SAMPLE, env.stored)
      ensures result == DocumentState(cfg, feed, fetched, env)
    {
      env := Env(now, draw, LookupFailed, []);
      var parsed := ParseFeed(cfg.codec, fetched.body);
      if parsed == None {
        result := ApplyFailure(feed, Some(PARSE_ERROR), now, draw);
        return;
      }
      var cell := new FeedCell(feed);
      var moved;
      ghost var lookup;
      moved, lookup := ApplyMove(cell, parsed.value.newFeedUrl, now, lookupFails);
      env := env.(lookup := lookup);
      var next := cell.feed;
      if moved {
        return Unparsed(next), env;
      }
      next := next.(etag := fetched.etag, lastModified := fetched.lastModified, bodyHash := fetched.bodyHash);
      next := next.(status := Active, consecutiveFailures := 0, lastError := "");
      next := next.(lastSuccessAt := Some(now), lastModifiedAt := Some(now));
      var dates;
      ghost var stored;
      dates, stored := RecentDates(feed.id, parsed.value.episodes, queryFails);
      env := env.(stored := stored);
      next := next.(checkInterval := IntervalAfterChange(cfg.policy, dates));
      next := next.(nextCheckAt := NextCheck(now, next.checkInterval, draw));
      return CrawlResult(next, true, parsed.value.episodes, cfg.grace), env;
    }

    /** apply: the feed's next state, set field by field. */
    method Apply(feed: Feed, fetched: FetchResult, now: int, draw: real, lookupFails: bool, queryFails: bool)
      returns (result: CrawlResult, ghost env: Env)
      requires store.Contents().Consistent() && IsDraw(draw)
      ensures env.now == now && env.draw == draw
      ensures Observes(cfg, store.Contents(), feed, fetched, env)
      ensures Answered(cfg, store.Contents(), feed, fetched, env, lookupFails, queryFails)
      ensures result == NextState(cfg, feed, fetched, env)
    {
      env := Env(now, draw, LookupFailed, []);
      var next := feed.(lastStatusCode := fetched.statusCode);
      if next.status == Dormant {
        next := next.(status := Active);
      }

      match fetched.outcome
      case Changed =>
        result, env := ApplyDocument(next, fetched, now, draw, lookupFails, queryFails);
        assert NextState(cfg, feed, fetched, env) == DocumentState(cfg, next, fetched, env);

      case NotModified =>
        next := next.(etag := fetched.etag, lastModified := fetched.lastModified);
        if |fetched.bodyHash| > 0 {
          next := next.(bodyHash := fetched.bodyHash);
        }
        next := next.(status := Active, consecutiveFailures := 0, lastError := "", lastSuccessAt := Some(now));
        next := next.(checkInterval := IntervalAfterNoChange(cfg.policy, feed.checkInterval));
        next := next.(nextCheckAt := NextCheck(now, next.checkInterval, draw));
        return Unparsed(next), env;

      case Moved =>
        var cell := new FeedCell(next);
        var moved;
        ghost var lookup;
        moved, lookup := ApplyMove(cell, fetched.newUrl, now, lookupFails);
        env := env.(lookup := lookup);
        return Unparsed(cell.feed), env;

      case Gone =>
        next := next.(status := Dead, lastError := if fetched.error.Some? then fetched.error.value else "");
        next := next.(consecutiveFailures := feed.consecutiveFailures + 1);
        next := next.(nextCheckAt := now + cfg.policy.deadRecheck);
        return Unparsed(next), env;

      case RateLimited =>
        var delay := fetched.retryAfter;
        if delay <= 0 {
          delay := IntervalAfterError(cfg.policy, feed.checkInterval);
        }
        next := next.(lastError := if fetched.error.Some? then fetched.error.value else "");
        next := next.(nextCheckAt := now + delay);
        return Unparsed(next), env;

      case Failed =>
        result := ApplyFailure(next, fetched.error, now, draw);
    }

    /**
     Fetches a feed, stores whatever it found, and schedules the next check. The clock is read
     when the response arrives, when it is applied and when the transaction starts.
     */
    method CrawlFeed(
      feed: Feed, response: Response, fetchedAt: int, now: int, recordedAt: int, draw: real,
      lookupFails: bool, queryFails: bool, commits: bool)
      returns (report: Result<Report, DbError>, ghost env: Env)
      requires store.Contents().Consistent() && IsDraw(draw)
      modifies store`feeds, store`episodes
      ensures env.now == now && env.draw == draw
      ensures Observes(cfg, old(store.Contents()), feed, ClassifyFor(cfg, feed, response, fetchedAt), env)
      ensures Answered(cfg, old(store.Contents()), feed, ClassifyFor(cfg, feed, response, fetchedAt), env,
                       lookupFails, queryFails)
      ensures
        var result := CrawlOf(cfg, feed, response, fetchedAt, env);
        var recorded := if commits then Catalogue.ApplyCrawl(old(store.Contents()), result, recordedAt) else Err(Aborted);
        match recorded
        case Ok(after) => store.Contents() == after && report.Ok?
                          && report.value.error == ReportError(cfg, ClassifyFor(cfg, feed, response, fetchedAt))
                          && AreCounts(old(store.Contents()), result, report.value.counts)
        case Err(_) => store.Contents() == old(store.Contents()) && report.Err?
      ensures store.Contents().Consistent()
      ensures IsAsked(cfg, old(store.Contents()), feed, response, env, lookupFails, queryFails)
      ensures report.Ok? ==>
                && feed.id in old(store.feeds) && feed.id in store.feeds
                && IsEffect(cfg, old(store.feeds)[feed.id], feed, response, fetchedAt, env, recordedAt, store.feeds[feed.id])
                && (report.value.error.Some? <==> GoesWrong(cfg, feed, response))
    {
      var fetched :=
        Fetch.Fetch(cfg.codec.sha, cfg.maxBody, feed.etag, feed.lastModified, feed.bodyHash, response, fetchedAt);
      var result;
      result, env := Apply(feed, fetched, now, draw, lookupFails, queryFails);
      QueriesAreAsked(cfg, store.Contents(), feed, response, fetchedAt, env, lookupFails, queryFails);
      ErrorExactlyWhenWrong(cfg, feed, response, fetchedAt);
      ResultKeepsId(cfg, feed, fetched, env);
      if feed.id in store.feeds {
        CrawlIsEffect(cfg, store.feeds[feed.id], feed, response, fetchedAt, env, recordedAt);
      }
      var counts := store.ApplyCrawl(result, recordedAt, commits);
      if counts.Err? {
        return Err(counts.error), env;
      }
      return Ok(Report(ReportError(cfg, fetched), counts.value)), env;
    }
  }
}

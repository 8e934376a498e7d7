/**
 The tables of db/migrations and what each statement of the store package does to them, as
 functions and relations on values. Instants are the transaction's now().
 */
module Catalogue {
  import opened Prelude
  import opened Parse

  datatype Status = Dormant | Active | Dead | Redirected

  /** A row of feeds. An empty bodyHash stands for NULL. */
  datatype Feed = Feed(
    id: nat, url: string,
    etag: string, lastModified: string, bodyHash: string,
    status: Status, redirectedTo: Option<nat>,
    activatedAt: Option<int>, lastRequestedAt: Option<int>,
    checkInterval: int, nextCheckAt: int,
    consecutiveFailures: int,
    lastCheckedAt: Option<int>, lastSuccessAt: Option<int>, lastModifiedAt: Option<int>,
    lastStatusCode: int, lastError: string,
    crawlSeq: nat)
  {
    predicate NeverCrawled() { lastSuccessAt == None }
  }

  /** A row of episodes, keyed by guid within its feed. */
  datatype EpisodeRow = EpisodeRow(episode: EpisodeUpsert, lastCrawlSeq: nat)

  type Rows = map<string, EpisodeRow>

  datatype Details = Details(
    title: string, artistName: string,
    artworkUrl30: string, artworkUrl100: string, artworkUrl600: string,
    genres: seq<string>, explicit: bool)

  /** A row of podcasts, keyed by itunes_id. */
  datatype Podcast = Podcast(feedId: Option<nat>, details: Details)

  datatype Db = Db(feeds: map<nat, Feed>, episodes: map<nat, Rows>, podcasts: map<int, Podcast>, nextFeedId: nat)
  {
    /** The primary, unique and foreign keys of the schema, and its check on redirects. */
    ghost predicate Consistent() {
      && (forall id :: id in feeds ==> feeds[id].id == id < nextFeedId)
      && UniqueUrls(feeds)
      && (forall id :: id in feeds ==> SoundTarget(feeds, feeds[id]))
      && (forall id :: id in episodes ==> id in feeds && KeyedByGuid(episodes[id]))
      && (forall p :: p in podcasts && podcasts[p].feedId.Some? ==> podcasts[p].feedId.value in feeds)
    }

    function RowsOf(id: nat): Rows {
      if id in episodes then episodes[id] else map[]
    }
  }

  ghost predicate UniqueUrls(feeds: map<nat, Feed>) {
    forall a, b :: a in feeds && b in feeds && feeds[a].url == feeds[b].url ==> a == b
  }

  predicate SoundTarget(feeds: map<nat, Feed>, feed: Feed) {
    feed.redirectedTo.Some? ==> feed.redirectedTo.value in feeds && feed.redirectedTo.value != feed.id
  }

  ghost predicate KeyedByGuid(rows: Rows) {
    forall guid :: guid in rows ==> rows[guid].episode.guid == guid
  }

  /** Whether a row other than id holds the URL: what the unique key rejects. */
  predicate TakenByOther(feeds: map<nat, Feed>, id: nat, url: string) {
    exists other :: other in feeds && other != id && feeds[other].url == url
  }

  /** SELECT ... WHERE url = $1, at most one row. */
  ghost predicate IsFeedByUrl(db: Db, url: string, found: Option<nat>) {
    match found
    case Some(id) => id in db.feeds && db.feeds[id].url == url
    case None => forall id :: id in db.feeds ==> db.feeds[id].url != url
  }

  // ---- Seeding ----

  /** The column defaults of a new feed. */
  function NewFeed(id: nat, url: string, now: int): Feed {
    Feed(id, url, "", "", "", Dormant, None, None, None, 6 * HOUR, now, 0, None, None, None, 0, "", 0)
  }

  /** A feed nobody has asked for or crawled yet. */
  predicate IsBlank(feed: Feed, now: int) {
    && feed.status == Dormant && feed.activatedAt == None && feed.lastRequestedAt == None
    && feed.etag == feed.lastModified == feed.bodyHash == "" && feed.redirectedTo == None
    && feed.checkInterval == 6 * HOUR && feed.nextCheckAt == now && feed.consecutiveFailures == 0
    && feed.lastCheckedAt == None && feed.lastSuccessAt == None && feed.lastModifiedAt == None
    && feed.lastStatusCode == 0 && feed.lastError == "" && feed.crawlSeq == 0
  }

  ghost function FeedWithUrl(db: Db, url: string): (found: Option<nat>)
    ensures IsFeedByUrl(db, url, found)
  {
    if exists id :: id in db.feeds && db.feeds[id].url == url then
      var id :| id in db.feeds && db.feeds[id].url == url;
      Some(id)
    else None
  }

  /** INSERT ... ON CONFLICT (url) DO UPDATE: a conflicting insert still draws an id. */
  ghost function UpsertFeed(db: Db, url: string, now: int): (r: (Db, nat)) {
    match FeedWithUrl(db, url)
    case Some(id) => (db.(nextFeedId := db.nextFeedId + 1), id)
    case None =>
      (db.(feeds := db.feeds[db.nextFeedId := NewFeed(db.nextFeedId, url, now)], nextFeedId := db.nextFeedId + 1),
       db.nextFeedId)
  }

  // ---- Requests ----

  /** The WHERE clause of MarkFeedRequested. */
  predicate TakesRequest(feed: Feed, throttle: int, now: int) {
    feed.status == Dormant || feed.lastRequestedAt == None || feed.lastRequestedAt.value < now - throttle
  }

  function Requested(feed: Feed, now: int): Feed {
    feed.(
      lastRequestedAt := Some(now),
      activatedAt := if feed.activatedAt == None then Some(now) else feed.activatedAt,
      status := if feed.status == Dormant then Active else feed.status,
      nextCheckAt := if feed.status == Dormant then now else feed.nextCheckAt)
  }

  function MarkRequested(db: Db, id: nat, throttle: int, now: int): Db {
    if id in db.feeds && TakesRequest(db.feeds[id], throttle, now)
    then db.(feeds := db.feeds[id := Requested(db.feeds[id], now)])
    else db
  }

  /** What a written request makes of a row: it wakes a dormant feed, which is then due at once. */
  predicate IsRequestedRow(before: Feed, now: int, row: Feed) {
    && row == before.(lastRequestedAt := Some(now), activatedAt := row.activatedAt,
                      status := row.status, nextCheckAt := row.nextCheckAt)
    && row.activatedAt == Some(if before.activatedAt.Some? then before.activatedAt.value else now)
    && if before.status == Dormant then row.status == Active && row.nextCheckAt == now
       else row.status == before.status && row.nextCheckAt == before.nextCheckAt
  }

  /** The row after requests at the times. */
  function AfterRequests(feed: Feed, throttle: int, times: seq<int>): Feed {
    if times == [] then feed
    else
      var before, now := AfterRequests(feed, throttle, times[..|times| - 1]), times[|times| - 1];
      if TakesRequest(before, throttle, now) then Requested(before, now) else before
  }

  /** Those of the times at which the row was written. */
  function Writes(feed: Feed, throttle: int, times: seq<int>): seq<int> {
    if times == [] then []
    else
      var front, now := times[..|times| - 1], times[|times| - 1];
      Writes(feed, throttle, front) + if TakesRequest(AfterRequests(feed, throttle, front), throttle, now) then [now] else []
  }

  /** Every time is written or within the throttle of the last write before it. */
  ghost predicate AreThrottled(throttle: int, times: seq<int>, writes: seq<int>) {
    && (forall i :: 0 < i < |writes| ==> writes[i - 1] + throttle < writes[i])
    && (forall t :: t in writes ==> t in times)
    && (forall t :: t in times && t !in writes ==> exists w :: w in writes && t <= w + throttle)
  }

  lemma ThrottledMore(throttle: int, times: seq<int>, writes: seq<int>, now: int, taken: bool)
    requires AreThrottled(throttle, times, writes)
    requires if taken then writes == [] || writes[|writes| - 1] + throttle < now
             else writes != [] && now <= writes[|writes| - 1] + throttle
    ensures AreThrottled(throttle, times + [now], writes + if taken then [now] else [])
  {
    var more := writes + if taken then [now] else [];
    forall t | t in times + [now] && t !in more ensures exists w :: w in more && t <= w + throttle {
      if t == now {
        assert writes[|writes| - 1] in more;
      } else {
        var w :| w in writes && t <= w + throttle;
        assert w in more;
      }
    }
  }

  predicate RemembersLast(writes: seq<int>, last: Option<int>) {
    last == if writes == [] then None else Some(writes[|writes| - 1])
  }

  lemma {:induction false} LastWriteIsRemembered(feed: Feed, throttle: int, times: seq<int>)
    requires feed.lastRequestedAt == None
    ensures RemembersLast(Writes(feed, throttle, times), AfterRequests(feed, throttle, times).lastRequestedAt)
    ensures times != [] ==> AfterRequests(feed, throttle, times).status != Dormant
    ensures times == [] ==> Writes(feed, throttle, times) == []
    ensures times != [] ==> Writes(feed, throttle, times) != []
  {
    if times != [] {
      LastWriteIsRemembered(feed, throttle, times[..|times| - 1]);
    }
  }

  /** A popular feed is written once per throttle, however often it is asked for. */
  lemma {:induction false} RequestsAreThrottled(feed: Feed, throttle: int, times: seq<int>)
    requires feed.lastRequestedAt == None
    ensures AreThrottled(throttle, times, Writes(feed, throttle, times))
  {
    if times != [] {
      var front, now := times[..|times| - 1], times[|times| - 1];
      var writes, taken := Writes(feed, throttle, front), TakesRequest(AfterRequests(feed, throttle, front), throttle, now);
      RequestsAreThrottled(feed, throttle, front);
      LastWriteIsRemembered(feed, throttle, front);
      ThrottledMore(throttle, front, writes, now, taken);
      assert times == front + [now];
    }
  }

  /** A request of the feed wakes it. */
  predicate Activates(db: Db, id: nat, throttle: int, now: int)
    requires id in db.feeds
  {
    db.feeds[id].status == Dormant && MarkRequested(db, id, throttle, now).feeds[id].status == Active
  }

  /** Whether the row is written says whether the feed is activated only in these cases. */
  lemma WrittenMeansActivated(db: Db, id: nat, throttle: int, now: int)
    requires id in db.feeds
    ensures
      (TakesRequest(db.feeds[id], throttle, now) <==> Activates(db, id, throttle, now)) <==>
      (db.feeds[id].status == Dormant || !TakesRequest(db.feeds[id], throttle, now))
  {
  }

  /** An active feed last requested longer ago than the throttle is written, not activated. */
  lemma WrittenNotActivated(db: Db, id: nat, throttle: int, now: int, earlier: int)
    requires id in db.feeds && db.feeds[id].status == Active
    requires db.feeds[id].lastRequestedAt == Some(earlier) && earlier + throttle < now
    ensures TakesRequest(db.feeds[id], throttle, now) && !Activates(db, id, throttle, now)
  {
  }

  // ---- The queue ----

  predicate IsDue(feed: Feed, now: int) {
    (feed.status == Active || feed.status == Dead) && feed.nextCheckAt <= now
  }

  function Due(db: Db, now: int): set<nat> {
    set id | id in db.feeds && IsDue(db.feeds[id], now)
  }

  /** ids are a result of the claim's subquery: limit unlocked due feeds, earliest first. */
  ghost predicate IsClaim(db: Db, now: int, limit: nat, locked: set<nat>, ids: set<nat>) {
    var candidates := Due(db, now) - locked;
    && ids <= candidates
    && |ids| == Min(limit, |candidates|)
    && forall i, j :: i in ids && j in candidates - ids ==> db.feeds[i].nextCheckAt <= db.feeds[j].nextCheckAt
  }

  function Leased(feed: Feed, now: int, lease: int): Feed {
    feed.(nextCheckAt := now + lease, lastCheckedAt := Some(now))
  }

  function LeaseAll(db: Db, ids: set<nat>, now: int, lease: int): Db {
    db.(feeds := map id | id in db.feeds :: if id in ids then Leased(db.feeds[id], now, lease) else db.feeds[id])
  }

  // ---- Recording a crawl ----

  datatype CrawlResult = CrawlResult(feed: Feed, parsed: bool, episodes: seq<EpisodeUpsert>, pruneGrace: int)

  datatype CrawlCounts = CrawlCounts(upserted: nat, pruned: nat)

  /** A process's crawl of a feed: it crawls a feed at most once at a time. */
  datatype Key = Key(process: nat, feed: nat)

  datatype DbError = NoRows | UniqueUrl | BadRedirect | RepeatedRow | Aborted

  /** What the feed update of ApplyCrawl can be refused for. */
  function UpdateError(db: Db, feed: Feed): Option<DbError> {
    if feed.id !in db.feeds then Some(NoRows)
    else if TakenByOther(db.feeds, feed.id, feed.url) then Some(UniqueUrl)
    else if !SoundTarget(db.feeds, feed) then Some(BadRedirect)
    else None
  }

  function RowAfterCrawl(current: Feed, result: CrawlResult, now: int): Feed {
    var f := result.feed;
    current.(
      url := f.url, etag := f.etag, lastModified := f.lastModified, bodyHash := f.bodyHash,
      status := f.status, redirectedTo := f.redirectedTo,
      checkInterval := f.checkInterval, nextCheckAt := f.nextCheckAt,
      consecutiveFailures := f.consecutiveFailures,
      lastCheckedAt := Some(now), lastSuccessAt := f.lastSuccessAt, lastModifiedAt := f.lastModifiedAt,
      lastStatusCode := f.lastStatusCode, lastError := f.lastError,
      crawlSeq := current.crawlSeq + (if result.parsed then 1 else 0))
  }

  /** The result's feed is written down, but for what only the tables know. */
  predicate IsRecordedRow(before: Feed, result: CrawlResult, now: int, row: Feed) {
    row == result.feed.(
      id := before.id, activatedAt := before.activatedAt, lastRequestedAt := before.lastRequestedAt,
      lastCheckedAt := Some(now), crawlSeq := before.crawlSeq + if result.parsed then 1 else 0)
  }

  /** Why a crawl is not recorded. */
  predicate IsRefusal(feeds: map<nat, Feed>, feed: Feed, commits: bool, error: DbError) {
    var taken := exists other :: other in feeds && other != feed.id && feeds[other].url == feed.url;
    var sound := feed.redirectedTo == None || (feed.redirectedTo.value in feeds && feed.redirectedTo.value != feed.id);
    match error
    case NoRows => feed.id !in feeds
    case UniqueUrl => feed.id in feeds && taken
    case BadRedirect => feed.id in feeds && !taken && !sound
    case Aborted => feed.id in feeds && !taken && sound && !commits
    case RepeatedRow => false
  }

  /** The upserts of one crawl, in order: a repeated guid is overwritten. */
  function UpsertEpisodes(rows: Rows, crawlSeq: nat, episodes: seq<EpisodeUpsert>): Rows {
    if episodes == [] then rows
    else
      var e := episodes[|episodes| - 1];
      UpsertEpisodes(rows, crawlSeq, episodes[..|episodes| - 1])[e.guid := EpisodeRow(e, crawlSeq)]
  }

  predicate OutOfGrace(row: EpisodeRow, crawlSeq: nat, grace: int) {
    grace > 0 && crawlSeq - grace > 0 && row.lastCrawlSeq < crawlSeq - grace
  }

  function PruneEpisodes(rows: Rows, crawlSeq: nat, grace: int): Rows {
    map guid | guid in rows && !OutOfGrace(rows[guid], crawlSeq, grace) :: rows[guid]
  }

  predicate TouchesEpisodes(result: CrawlResult) {
    result.parsed && |result.episodes| > 0
  }

  function RowsAfterCrawl(rows: Rows, crawlSeq: nat, result: CrawlResult): Rows {
    if TouchesEpisodes(result)
    then PruneEpisodes(UpsertEpisodes(rows, crawlSeq, result.episodes), crawlSeq, result.pruneGrace)
    else rows
  }

  /** How many episodes the transaction writes, and how many rows it then deletes. */
  ghost predicate AreCounts(db: Db, result: CrawlResult, counts: CrawlCounts)
    requires result.feed.id in db.feeds
  {
    AreCountsAt(db.RowsOf(result.feed.id), db.feeds[result.feed.id].crawlSeq + 1, result, counts)
  }

  ghost predicate AreCountsAt(rows: Rows, crawlSeq: nat, result: CrawlResult, counts: CrawlCounts) {
    if TouchesEpisodes(result) then
      && counts.upserted == |result.episodes|
      && counts.pruned == |UpsertEpisodes(rows, crawlSeq, result.episodes)| - |RowsAfterCrawl(rows, crawlSeq, result)|
    else counts == CrawlCounts(0, 0)
  }

  /** The whole transaction, when it commits. */
  function ApplyCrawl(db: Db, result: CrawlResult, now: int): Result<Db, DbError> {
    match UpdateError(db, result.feed)
    case Some(error) => Err(error)
    case None =>
      var id := result.feed.id;
      var row := RowAfterCrawl(db.feeds[id], result, now);
      Ok(db.(
         feeds := db.feeds[id := row],
         episodes :=
           if TouchesEpisodes(result)
           then db.episodes[id := RowsAfterCrawl(db.RowsOf(id), row.crawlSeq, result)]
           else db.episodes))
  }

  // ---- Reading ----

  /** list is a result of the query of EpisodesByFeed. */
  ghost predicate IsEpisodesByFeed(db: Db, id: nat, list: seq<EpisodeRow>) {
    if id !in db.feeds then list == []
    else IsCurrentList(db.RowsOf(id), db.feeds[id].crawlSeq, list)
  }

  /** Exactly the rows stamped with the sequence number, once each, ordered by position. */
  ghost predicate IsCurrentList(rows: Rows, crawlSeq: nat, list: seq<EpisodeRow>) {
    && (forall i, j :: 0 <= i < j < |list| ==> list[i].episode.position <= list[j].episode.position)
    && (forall i, j :: 0 <= i < j < |list| ==> list[i].episode.guid != list[j].episode.guid)
    && (forall i :: 0 <= i < |list| ==>
          && list[i].episode.guid in rows
          && rows[list[i].episode.guid] == list[i]
          && list[i].lastCrawlSeq == crawlSeq)
    && (forall guid :: guid in rows && rows[guid].lastCrawlSeq == crawlSeq ==> rows[guid] in list)
  }

  predicate IsDated(rows: Rows, guid: string) {
    guid in rows && rows[guid].episode.pubDate.Some?
  }

  /** guids lists the rows the query of RecentEpisodeDates selects, dates their dates. */
  ghost predicate SelectsRecent(rows: Rows, limit: nat, guids: seq<string>, dates: seq<int>) {
    && |guids| == |dates| <= limit
    && (forall i, j :: 0 <= i < j < |guids| ==> guids[i] != guids[j] && dates[i] >= dates[j])
    && (forall i :: 0 <= i < |guids| ==> IsDated(rows, guids[i]) && rows[guids[i]].episode.pubDate.value == dates[i])
    && (forall g, i :: IsDated(rows, g) && g !in guids && 0 <= i < |dates| ==> rows[g].episode.pubDate.value <= dates[i])
    && (|guids| < limit ==> forall g :: IsDated(rows, g) ==> g in guids)
  }

  ghost predicate IsRecentDates(rows: Rows, limit: nat, dates: seq<int>) {
    exists guids :: SelectsRecent(rows, limit, guids, dates)
  }

  /** They are the newest ones: what is missing is no newer, and missing only for the limit. */
  lemma RecentDatesAreNewest(rows: Rows, limit: nat, dates: seq<int>, guid: string)
    requires IsRecentDates(rows, limit, dates) && IsDated(rows, guid)
    ensures
      var date := rows[guid].episode.pubDate.value;
      date in dates || (|dates| == limit && forall i :: 0 <= i < |dates| ==> date <= dates[i])
    ensures forall i, j :: 0 <= i < j < |dates| ==> dates[i] >= dates[j]
  {
    var guids :| SelectsRecent(rows, limit, guids, dates);
    if i :| 0 <= i < |guids| && guids[i] == guid {
      assert dates[i] in dates;
    }
  }

  // ---- The statements keep the schema's keys ----

  lemma {:induction false} UpsertKeepsKeys(rows: Rows, crawlSeq: nat, episodes: seq<EpisodeUpsert>)
    requires KeyedByGuid(rows)
    ensures KeyedByGuid(UpsertEpisodes(rows, crawlSeq, episodes))
  {
    if episodes != [] {
      UpsertKeepsKeys(rows, crawlSeq, episodes[..|episodes| - 1]);
    }
  }

  /** A recorded crawl, however stale its snapshot, leaves the keys intact. */
  lemma ApplyCrawlConsistent(db: Db, result: CrawlResult, now: int)
    requires db.Consistent() && ApplyCrawl(db, result, now).Ok?
    ensures ApplyCrawl(db, result, now).value.Consistent()
  {
    var id := result.feed.id;
    var after := ApplyCrawl(db, result, now).value;
    assert UniqueUrls(after.feeds) by {
      forall a, b | a in after.feeds && b in after.feeds && after.feeds[a].url == after.feeds[b].url ensures a == b {
        assert !TakenByOther(db.feeds, id, result.feed.url);
      }
    }
    UpsertKeepsKeys(db.RowsOf(id), after.feeds[id].crawlSeq, result.episodes);
  }

  lemma LeaseAllConsistent(db: Db, ids: set<nat>, now: int, lease: int)
    requires db.Consistent()
    ensures LeaseAll(db, ids, now, lease).Consistent()
  {
  }

  lemma MarkRequestedConsistent(db: Db, id: nat, throttle: int, now: int)
    requires db.Consistent()
    ensures MarkRequested(db, id, throttle, now).Consistent()
  {
  }

  lemma UpsertFeedConsistent(db: Db, url: string, now: int)
    requires db.Consistent()
    ensures UpsertFeed(db, url, now).0.Consistent()
    ensures var (after, id) := UpsertFeed(db, url, now); id in after.feeds && after.feeds[id].url == url
  {
  }
}

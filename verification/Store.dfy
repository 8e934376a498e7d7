/**
 The store package over in-memory tables: each method is one statement or transaction of
 store/feeds.go, store/episodes.go and store/podcasts.go, proved against the functions and
 relations of Catalogue and Seeding. now is the transaction's now().
 */
module Store {
  import opened Prelude
  import opened Parse
  import opened Catalogue
  import opened Query
  import opened Seeding

  class Store {
    var feeds: map<nat, Feed>
    var episodes: map<nat, Rows>
    var podcasts: map<int, Podcast>
    var nextFeedId: nat

    function Contents(): Db
      reads this
    {
      Db(feeds, episodes, podcasts, nextFeedId)
    }

    constructor ()
      ensures Contents() == Db(map[], map[], map[], 1)
      ensures Contents().Consistent()
    {
      feeds, episodes, podcasts, nextFeedId := map[], map[], map[], 1;
    }

    method FeedByURL(url: string) returns (feed: Option<Feed>)
      requires Contents().Consistent()
      ensures feed.Some? ==> feed.value.id in feeds && feeds[feed.value.id] == feed.value
      ensures IsFeedByUrl(Contents(), url, if feed.Some? then Some(feed.value.id) else None)
    {
      var pending := feeds.Keys;
      while pending != {}
        invariant pending <= feeds.Keys
        invariant forall id :: id in feeds && id !in pending ==> feeds[id].url != url
        decreases pending
      {
        var id :| id in pending;
        if feeds[id].url == url {
          return Some(feeds[id]);
        }
        pending := pending - {id};
      }
      return None;
    }

    method UpsertFeed(url: string, now: int) returns (feed: Feed)
      requires Contents().Consistent()
      modifies this`feeds, this`nextFeedId
      ensures Contents() == Catalogue.UpsertFeed(old(Contents()), url, now).0
      ensures feed.id == Catalogue.UpsertFeed(old(Contents()), url, now).1
      ensures Contents().Consistent()
      ensures feed.id in feeds && feeds[feed.id] == feed && feed.url == url
      ensures if HasUrl(old(feeds), url) then feeds == old(feeds)
              else feed.id == old(nextFeedId) && feeds == old(feeds)[feed.id := feed] && IsBlank(feed, now)
    {
      UpsertFeedConsistent(Contents(), url, now);
      var existing := FeedByURL(url);
      var id := nextFeedId;
      nextFeedId := nextFeedId + 1;
      if existing.Some? {
        return existing.value;
      }
      feed := NewFeed(id, url, now);
      feeds := feeds[id := feed];
    }

    // ---- Podcasts ----

    method UpsertPodcast(p: PodcastUpsert, feedId: Option<nat>)
      modifies this`podcasts
      ensures Contents() == SeedPodcast(old(Contents()), p, feedId)
    {
      var link := feedId;
      if link == None && p.itunesId in podcasts {
        link := podcasts[p.itunesId].feedId;
      }
      podcasts := podcasts[p.itunesId := Podcast(link, p.details)];
    }

    /** Stores a podcast and its feed together. Without a feed URL there is no feed to return. */
    method UpsertPodcastWithFeed(p: PodcastUpsert, now: int, commits: bool) returns (feed: Result<Option<Feed>, DbError>)
      requires Contents().Consistent()
      modifies this
      ensures Contents() == if commits then SeedOne(old(Contents()), p, now) else old(Contents())
      ensures feed.Ok? == commits
      ensures feed.Ok? ==> (feed.value.Some? <==> p.feedUrl != "")
      ensures feed.Ok? && feed.value.Some? ==>
                feed.value.value.id in feeds && feeds[feed.value.value.id] == feed.value.value
                && feed.value.value.url == p.feedUrl
      ensures Contents().Consistent()
    {
      var savedFeeds, savedPodcasts, savedNext := feeds, podcasts, nextFeedId;
      var stored: Option<Feed>, feedId: Option<nat> := None, None;
      if p.feedUrl != "" {
        var f := UpsertFeed(p.feedUrl, now);
        stored, feedId := Some(f), Some(f.id);
      }
      UpsertPodcast(p, feedId);
      if !commits {
        feeds, podcasts, nextFeedId := savedFeeds, savedPodcasts, savedNext;
        return Err(Aborted);
      }
      return Ok(stored);
    }

    /** INSERT of many URLs in one statement, which may not affect the same row twice. */
    method InsertFeeds(urls: seq<string>, now: int) returns (ids: Result<map<string, nat>, DbError>)
      requires Contents().Consistent()
      modifies this`feeds, this`nextFeedId
      ensures ids.Ok? <==> Distinct(urls)
      ensures ids.Ok? ==> ids.value.Keys == SetOf(urls) && AreIdsOf(Contents(), ids.value)
      ensures ids.Ok? ==> FeedsSeeded(old(Contents()), SetOf(urls), Contents())
      ensures ids.Err? ==> ids.error == RepeatedRow && Contents() == old(Contents())
    {
      ghost var start := Contents();
      var savedFeeds, savedNext := feeds, nextFeedId;
      var returned: map<string, nat> := map[];
      for i := 0 to |urls|
        invariant Inserted(start, urls[..i], Contents(), returned)
      {
        OneMore(urls, i);
        if urls[i] in returned {
          feeds, nextFeedId := savedFeeds, savedNext;
          return Err(RepeatedRow);
        }
        InsertedMore(start, urls, i, Contents(), returned, now);
        var feed := UpsertFeed(urls[i], now);
        returned := returned[urls[i] := feed.id];
      }
      assert urls[..|urls|] == urls;
      return Ok(returned);
    }

    /** Writes every distinct feed URL of the list, returning their ids keyed by URL. */
    method UpsertFeedURLs(ps: seq<PodcastUpsert>, now: int) returns (ids: Result<map<string, nat>, DbError>)
      requires Contents().Consistent()
      modifies this`feeds, this`nextFeedId
      ensures ids.Ok? && ids.value.Keys == Urls(ps) && AreIdsOf(Contents(), ids.value)
      ensures FeedsSeeded(old(Contents()), Urls(ps), Contents())
    {
      var urls: seq<string>, seen: set<string> := [], {};
      for i := 0 to |ps|
        invariant Contents() == old(Contents())
        invariant Distinct(urls) && SetOf(urls) == seen == Urls(ps[..i])
      {
        assert ps[..i + 1] == ps[..i] + [ps[i]];
        UrlsOfMore(ps[..i], ps[i]);
        if ps[i].feedUrl == "" || ps[i].feedUrl in seen {
          continue;
        }
        seen := seen + {ps[i].feedUrl};
        OneMore(urls + [ps[i].feedUrl], |urls|);
        assert (urls + [ps[i].feedUrl])[..|urls|] == urls;
        assert (urls + [ps[i].feedUrl])[..|urls| + 1] == urls + [ps[i].feedUrl];
        urls := urls + [ps[i].feedUrl];
      }
      assert ps[..|ps|] == ps;
      if urls == [] {
        assert Urls(ps) == {};
        return Ok(map[]);
      }
      ids := InsertFeeds(urls, now);
    }

    /** The batch of podcast upserts, once their feeds are there. */
    method WritePodcasts(ps: seq<PodcastUpsert>, feedIds: map<string, nat>, ghost start: Db)
      requires FeedsSeeded(start, Urls(ps), Contents()) && PodcastsSeeded(start, [], Contents())
      requires feedIds.Keys == Urls(ps) && AreIdsOf(Contents(), feedIds)
      modifies this`podcasts
      ensures IsSeeded(start, ps, Contents())
    {
      for i := 0 to |ps|
        invariant FeedsSeeded(start, Urls(ps), Contents()) && PodcastsSeeded(start, ps[..i], Contents())
      {
        MoreSeeded(start, ps, i, Contents(), feedIds);
        UpsertPodcast(ps[i], IdFor(feedIds, ps[i].feedUrl));
      }
      assert ps[..|ps|] == ps;
    }

    /** Stores many podcasts and their feeds in one transaction. */
    method UpsertPodcasts(ps: seq<PodcastUpsert>, now: int, commits: bool) returns (error: Option<DbError>)
      requires Contents().Consistent()
      modifies this
      ensures error == None <==> commits || ps == []
      ensures error == None ==> IsSeeded(old(Contents()), ps, Contents())
      ensures error != None ==> Contents() == old(Contents())
    {
      ghost var start := Contents();
      if |ps| == 0 {
        NothingSeeded(start);
        return None;
      }
      var savedFeeds, savedPodcasts, savedNext := feeds, podcasts, nextFeedId;
      var feedIds := UpsertFeedURLs(ps, now);
      PodcastsStay(start, Urls(ps), Contents());
      WritePodcasts(ps, feedIds.value, start);
      if !commits {
        feeds, podcasts, nextFeedId := savedFeeds, savedPodcasts, savedNext;
        return Some(Aborted);
      }
      return None;
    }

    // ---- The queue ----

    /** The claim's subquery. */
    method SelectDue(limit: nat, now: int) returns (picked: seq<nat>)
      requires Contents().Consistent()
      ensures IsClaim(Contents(), now, limit, {}, SetOf(picked))
      ensures EarliestFirst(feeds, picked)
    {
      var due := Due(Contents(), now);
      var table := map id | id in due :: feeds[id].nextCheckAt;
      picked := OrderBy(table, limit);
      DistinctSize(picked);
      assert table.Keys == due && |table| == |table.Keys|;
      assert Due(Contents(), now) - {} == due;
    }

    /** Takes up to limit due feeds, earliest first, and pushes them forward by the lease. */
    method ClaimDueFeeds(limit: nat, lease: int, now: int) returns (claimed: seq<Feed>, ghost picked: seq<nat>)
      requires Contents().Consistent()
      modifies this`feeds
      ensures IsClaim(old(Contents()), now, limit, {}, SetOf(picked))
      ensures EarliestFirst(old(feeds), picked)
      ensures Contents() == LeaseAll(old(Contents()), SetOf(picked), now, lease)
      ensures forall i :: 0 <= i < |picked| ==>
                old(feeds)[picked[i]].status in {Active, Dead} && old(feeds)[picked[i]].nextCheckAt <= now
      ensures |picked| < limit ==>
                (forall id :: id in old(feeds) && old(feeds)[id].status in {Active, Dead} && id !in picked ==>
                  old(feeds)[id].nextCheckAt > now)
      ensures feeds.Keys == old(feeds).Keys
      ensures forall id :: id in feeds ==>
                feeds[id] == if id in picked then old(feeds)[id].(nextCheckAt := now + lease, lastCheckedAt := Some(now))
                             else old(feeds)[id]
      ensures |claimed| == |picked|
      ensures forall i :: 0 <= i < |claimed| ==> picked[i] in feeds && claimed[i] == feeds[picked[i]]
      ensures Contents().Consistent()
    {
      var ids := SelectDue(limit, now);
      ClaimTakesDue(Contents(), now, limit, ids);
      LeaseAllConsistent(Contents(), SetOf(ids), now, lease);
      var chosen := SetOf(ids);
      picked := ids;
      feeds := map id | id in feeds :: if id in chosen then Leased(feeds[id], now, lease) else feeds[id];
      claimed := seq(|ids|, i requires 0 <= i < |ids| && ids[i] in feeds reads this => feeds[ids[i]]);
    }

    /** Reports whether the row was written. */
    method MarkFeedRequested(id: nat, throttle: int, now: int) returns (written: bool)
      requires Contents().Consistent()
      modifies this`feeds
      ensures Contents() == MarkRequested(old(Contents()), id, throttle, now)
      ensures written <==>
                && id in old(feeds)
                && (|| old(feeds)[id].status == Dormant || old(feeds)[id].lastRequestedAt == None
                    || old(feeds)[id].lastRequestedAt.value + throttle < now)
      ensures if written then id in feeds && feeds == old(feeds)[id := feeds[id]] && IsRequestedRow(old(feeds)[id], now, feeds[id])
              else feeds == old(feeds)
      ensures Contents().Consistent()
    {
      if id !in feeds || !TakesRequest(feeds[id], throttle, now) {
        return false;
      }
      var feed := feeds[id];
      feed := feed.(lastRequestedAt := Some(now));
      if feed.activatedAt == None {
        feed := feed.(activatedAt := Some(now));
      }
      if feed.status == Dormant {
        feed := feed.(status := Active, nextCheckAt := now);
      }
      feeds := feeds[id := feed];
      return true;
    }

    // ---- Recording a crawl ----

    /** Writes the episodes of one parse; returns how many. */
    method UpsertEpisodes(id: nat, crawlSeq: nat, upserts: seq<EpisodeUpsert>) returns (upserted: nat)
      modifies this`episodes
      ensures upserted == |upserts|
      ensures episodes == old(episodes)[id := Catalogue.UpsertEpisodes(old(Contents()).RowsOf(id), crawlSeq, upserts)]
    {
      ghost var rows := Contents().RowsOf(id);
      upserted := 0;
      episodes := episodes[id := Contents().RowsOf(id)];
      while upserted < |upserts|
        invariant 0 <= upserted <= |upserts|
        invariant episodes == old(episodes)[id := Catalogue.UpsertEpisodes(rows, crawlSeq, upserts[..upserted])]
      {
        var e := upserts[upserted];
        assert upserts[..upserted + 1][..upserted] == upserts[..upserted];
        episodes := episodes[id := episodes[id][e.guid := EpisodeRow(e, crawlSeq)]];
        upserted := upserted + 1;
      }
      assert upserts[..upserted] == upserts;
    }

    /** Deletes the rows out of the grace window; returns how many. */
    method PruneEpisodes(id: nat, crawlSeq: nat, grace: int) returns (pruned: nat)
      requires id in episodes
      modifies this`episodes
      ensures episodes == old(episodes)[id := Catalogue.PruneEpisodes(old(episodes)[id], crawlSeq, grace)]
      ensures pruned == |old(episodes)[id]| - |episodes[id]|
    {
      var rows := episodes[id];
      if grace <= 0 || crawlSeq - grace <= 0 {
        assert Catalogue.PruneEpisodes(rows, crawlSeq, grace) == rows;
        return 0;
      }
      var cutoff := crawlSeq - grace;
      var kept := map guid | guid in rows && !(rows[guid].lastCrawlSeq < cutoff) :: rows[guid];
      assert kept == Catalogue.PruneEpisodes(rows, crawlSeq, grace);
      assert kept.Keys <= rows.Keys && |rows.Keys - kept.Keys| == |rows.Keys| - |kept.Keys|;
      pruned := |rows| - |kept|;
      episodes := episodes[id := kept];
    }

    /** The statements on episodes, for a new document that lists any. */
    method WriteEpisodes(result: CrawlResult, crawlSeq: nat) returns (counts: CrawlCounts)
      modifies this`episodes
      ensures episodes == if TouchesEpisodes(result)
        then old(episodes)[result.feed.id := RowsAfterCrawl(old(Contents()).RowsOf(result.feed.id), crawlSeq, result)]
        else old(episodes)
      ensures AreCountsAt(old(Contents()).RowsOf(result.feed.id), crawlSeq, result, counts)
    {
      var upserted, pruned := 0, 0;
      if result.parsed && |result.episodes| > 0 {
        upserted := UpsertEpisodes(result.feed.id, crawlSeq, result.episodes);
        pruned := PruneEpisodes(result.feed.id, crawlSeq, result.pruneGrace);
      }
      return CrawlCounts(upserted, pruned);
    }

    /** The statements of the transaction, once the feed update is not refused. */
    method WriteCrawl(result: CrawlResult, now: int) returns (counts: CrawlCounts)
      requires UpdateError(Contents(), result.feed) == None
      modifies this`feeds, this`episodes
      ensures Catalogue.ApplyCrawl(old(Contents()), result, now) == Ok(Contents())
      ensures AreCounts(old(Contents()), result, counts)
    {
      var id := result.feed.id;
      var row := RowAfterCrawl(feeds[id], result, now);
      feeds := feeds[id := row];
      counts := WriteEpisodes(result, row.crawlSeq);
    }

    /**
     Writes a crawl's outcome in one transaction. commits says whether the connection lives
     until the commit; if not, or if the feed update is refused, nothing changes.
     */
    method ApplyCrawl(result: CrawlResult, now: int, commits: bool) returns (counts: Result<CrawlCounts, DbError>)
      requires Contents().Consistent()
      modifies this`feeds, this`episodes
      ensures var recorded := if commits then Catalogue.ApplyCrawl(old(Contents()), result, now) else Err(Aborted);
              match recorded
              case Ok(after) => counts.Ok? && Contents() == after
              case Err(_) => counts.Err? && Contents() == old(Contents())
      ensures Contents().Consistent()
      ensures counts.Ok? ==> AreCounts(old(Contents()), result, counts.value)
      ensures counts.Ok? ==>
                && result.feed.id in old(feeds) && result.feed.id in feeds
                && feeds == old(feeds)[result.feed.id := feeds[result.feed.id]]
                && IsRecordedRow(old(feeds)[result.feed.id], result, now, feeds[result.feed.id])
      ensures counts.Err? ==> IsRefusal(old(feeds), result.feed, commits, counts.error)
      ensures counts.Ok? ==> commits
    {
      var refused := UpdateError(Contents(), result.feed);
      if refused.Some? {
        return Err(refused.value);
      }
      ApplyCrawlConsistent(Contents(), result, now);
      var savedFeeds, savedEpisodes := feeds, episodes;
      var written := WriteCrawl(result, now);
      if !commits {
        feeds, episodes := savedFeeds, savedEpisodes;
        return Err(Aborted);
      }
      return Ok(written);
    }

    // ---- Reading ----

    /** The episodes the most recent parse saw, in document order. */
    method EpisodesByFeed(id: nat) returns (list: seq<EpisodeRow>)
      requires Contents().Consistent()
      ensures IsEpisodesByFeed(Contents(), id, list)
    {
      if id !in feeds {
        return [];
      }
      var rows := Contents().RowsOf(id);
      var crawlSeq := feeds[id].crawlSeq;
      list := CurrentRows(rows, crawlSeq);
    }

    method CurrentRows(rows: Rows, crawlSeq: nat) returns (list: seq<EpisodeRow>)
      requires KeyedByGuid(rows)
      ensures IsCurrentList(rows, crawlSeq, list)
    {
      var table := Positions(rows, crawlSeq);
      var picked := OrderBy(table, |table|);
      list := seq(|picked|, i requires 0 <= i < |picked| && picked[i] in rows => rows[picked[i]]);
      PickedIsCurrent(rows, crawlSeq, picked, list);
    }

    /** The publication dates of the most recent dated episodes, newest first. */
    method RecentEpisodeDates(id: nat, limit: nat) returns (dates: seq<int>)
      ensures IsRecentDates(Contents().RowsOf(id), limit, dates)
    {
      var rows := Contents().RowsOf(id);
      var table := AgeOrder(rows);
      var picked := OrderBy(table, limit);
      dates := seq(|picked|, i requires 0 <= i < |picked| && IsDated(rows, picked[i]) => rows[picked[i]].episode.pubDate.value);
      NewestSelected(rows, limit, picked, dates);
    }
  }

  /** The rows stamped with the sequence number by their position. */
  function Positions(rows: Rows, crawlSeq: nat): map<string, int> {
    map guid | guid in rows && rows[guid].lastCrawlSeq == crawlSeq :: rows[guid].episode.position
  }

  lemma AllAreListed(rows: Rows, crawlSeq: nat, picked: seq<string>, list: seq<EpisodeRow>, guid: string)
    requires IsSmallest(Positions(rows, crawlSeq), |Positions(rows, crawlSeq)|, picked) && |list| == |picked|
    requires forall i :: 0 <= i < |picked| ==> picked[i] in rows && list[i] == rows[picked[i]]
    requires guid in rows && rows[guid].lastCrawlSeq == crawlSeq
    ensures rows[guid] in list
  {
    var table := Positions(rows, crawlSeq);
    AllPicked(table, |table|, picked);
    assert guid in table && guid in picked;
    var i :| 0 <= i < |picked| && picked[i] == guid;
    assert list[i] == rows[guid];
  }

  lemma PickedIsCurrent(rows: Rows, crawlSeq: nat, picked: seq<string>, list: seq<EpisodeRow>)
    requires KeyedByGuid(rows)
    requires IsSmallest(Positions(rows, crawlSeq), |Positions(rows, crawlSeq)|, picked) && |list| == |picked|
    requires forall i :: 0 <= i < |picked| ==> picked[i] in rows && list[i] == rows[picked[i]]
    ensures IsCurrentList(rows, crawlSeq, list)
  {
    forall guid | guid in rows && rows[guid].lastCrawlSeq == crawlSeq ensures rows[guid] in list {
      AllAreListed(rows, crawlSeq, picked, list, guid);
    }
  }

  /** The dated rows by how long ago they were published. */
  function AgeOrder(rows: Rows): map<string, int> {
    map guid | guid in rows && IsDated(rows, guid) :: -rows[guid].episode.pubDate.value
  }

  lemma NewestSelected(rows: Rows, limit: nat, picked: seq<string>, dates: seq<int>)
    requires IsSmallest(AgeOrder(rows), limit, picked) && |dates| == |picked|
    requires forall i :: 0 <= i < |picked| ==>
               IsDated(rows, picked[i]) && dates[i] == rows[picked[i]].episode.pubDate.value
    ensures IsRecentDates(rows, limit, dates)
  {
    var table := AgeOrder(rows);
    if |picked| < limit {
      AllPicked(table, limit, picked);
    }
    assert forall g :: IsDated(rows, g) ==> g in table;
    assert SelectsRecent(rows, limit, picked, dates);
  }

  /** All feeds in the rotation that are due, or as many as the limit allows. */
  lemma ClaimTakesDue(db: Db, now: int, limit: nat, picked: seq<nat>)
    requires IsClaim(db, now, limit, {}, SetOf(picked)) && EarliestFirst(db.feeds, picked)
    ensures forall i :: 0 <= i < |picked| ==>
              db.feeds[picked[i]].status in {Active, Dead} && db.feeds[picked[i]].nextCheckAt <= now
    ensures |picked| < limit ==>
              (forall id :: id in db.feeds && db.feeds[id].status in {Active, Dead} && id !in picked ==>
                db.feeds[id].nextCheckAt > now)
  {
    var due, taken := Due(db, now), SetOf(picked);
    assert due - {} == due;
    DistinctSize(picked);
    forall i | 0 <= i < |picked| ensures IsDue(db.feeds[picked[i]], now) {
      assert picked[i] in taken;
    }
    if |picked| < limit {
      SameSize(taken, due);
      forall id | id in db.feeds && IsDue(db.feeds[id], now) ensures id in picked {
        assert id in due && id in taken;
      }
    }
  }

  lemma SameSize(part: set<nat>, whole: set<nat>)
    requires part <= whole && |part| == |whole|
    ensures part == whole
  {
    assert |whole - part| == |whole| - |part|;
  }

  /** The ids are different ones, in the order they were due. */
  ghost predicate EarliestFirst(feeds: map<nat, Feed>, ids: seq<nat>) {
    && (forall i :: 0 <= i < |ids| ==> ids[i] in feeds)
    && (forall i, j :: 0 <= i < j < |ids| ==>
          ids[i] != ids[j] && feeds[ids[i]].nextCheckAt <= feeds[ids[j]].nextCheckAt)
  }

  /** Each URL maps to the id of its feed. */
  ghost predicate AreIdsOf(db: Db, ids: map<string, nat>) {
    forall url :: url in ids ==> ids[url] in db.feeds && db.feeds[ids[url]].url == url
  }

  function IdFor(ids: map<string, nat>, url: string): Option<nat> {
    if url in ids then Some(ids[url]) else None
  }

  lemma MoreSeeded(start: Db, ps: seq<PodcastUpsert>, i: nat, db: Db, ids: map<string, nat>)
    requires FeedsSeeded(start, Urls(ps), db) && ids.Keys == Urls(ps) && AreIdsOf(db, ids)
    requires i < |ps| && PodcastsSeeded(start, ps[..i], db)
    ensures
      var after := SeedPodcast(db, ps[i], IdFor(ids, ps[i].feedUrl));
      FeedsSeeded(start, Urls(ps), after) && PodcastsSeeded(start, ps[..i + 1], after)
  {
    var link := IdFor(ids, ps[i].feedUrl);
    assert IsLink(db, ps[i], link);
    PodcastSeeded(start, ps[..i], db, ps[i], link);
    SeedPodcastKeepsFeeds(start, Urls(ps), db, ps[i], link);
    assert ps[..i + 1] == ps[..i] + [ps[i]];
  }

  lemma OneMore(urls: seq<string>, i: nat)
    requires i < |urls|
    ensures SetOf(urls[..i + 1]) == SetOf(urls[..i]) + {urls[i]}
    ensures Distinct(urls[..i]) && urls[i] !in SetOf(urls[..i]) ==> Distinct(urls[..i + 1])
    ensures urls[i] in SetOf(urls[..i]) ==> !Distinct(urls)
  {
  }

  /** The URLs written so far, each once, with their ids. */
  ghost predicate Inserted(start: Db, urls: seq<string>, db: Db, ids: map<string, nat>) {
    && Distinct(urls) && ids.Keys == SetOf(urls)
    && FeedsSeeded(start, SetOf(urls), db) && AreIdsOf(db, ids)
  }

  lemma InsertedMore(start: Db, urls: seq<string>, i: nat, db: Db, ids: map<string, nat>, now: int)
    requires i < |urls| && Inserted(start, urls[..i], db, ids) && urls[i] !in ids
    ensures var (after, id) := Catalogue.UpsertFeed(db, urls[i], now); Inserted(start, urls[..i + 1], after, ids[urls[i] := id])
  {
    OneMore(urls, i);
    FeedSeeded(start, SetOf(urls[..i]), db, urls[i], now);
    IdReturned(db, ids, urls[i], now);
  }

  lemma IdReturned(db: Db, ids: map<string, nat>, url: string, now: int)
    requires db.Consistent() && AreIdsOf(db, ids)
    ensures var (after, id) := Catalogue.UpsertFeed(db, url, now); AreIdsOf(after, ids[url := id])
  {
  }
}

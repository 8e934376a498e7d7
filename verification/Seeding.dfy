/**
 The lazy catalogue of store/podcasts.go: what storing iTunes results does to podcasts and their
 feeds, one at a time or many in one transaction. The store's methods are in Store.
 */
module Seeding {
  import opened Prelude
  import opened Catalogue

  /** A podcast as iTunes returned it; feedUrl may be empty. */
  datatype PodcastUpsert = PodcastUpsert(itunesId: int, feedUrl: string, details: Details)

  // ---- One at a time ----

  /** INSERT ... ON CONFLICT: a response without a feed keeps the link already known. */
  function SeedPodcast(db: Db, p: PodcastUpsert, feedId: Option<nat>): Db {
    var known := if p.itunesId in db.podcasts then db.podcasts[p.itunesId].feedId else None;
    db.(podcasts := db.podcasts[p.itunesId := Podcast(if feedId.Some? then feedId else known, p.details)])
  }

  ghost function SeedOne(db: Db, p: PodcastUpsert, now: int): Db {
    if p.feedUrl == "" then SeedPodcast(db, p, None)
    else
      var (stored, id) := UpsertFeed(db, p.feedUrl, now);
      SeedPodcast(stored, p, Some(id))
  }

  /** One transaction after the other, each at its own time. */
  ghost function SeedEach(db: Db, ps: seq<PodcastUpsert>, nows: seq<int>): Db
    requires |nows| == |ps|
  {
    if ps == [] then db
    else
      var n := |ps| - 1;
      SeedOne(SeedEach(db, ps[..n], nows[..n]), ps[n], nows[n])
  }

  /** The feed stored with a podcast is due only if it was there, in the rotation, and due then. */
  lemma StoredFeedIsDue(db: Db, p: PodcastUpsert, now: int, at: int)
    requires db.Consistent() && p.feedUrl != ""
    ensures
      var after, id := SeedOne(db, p, now), UpsertFeed(db, p.feedUrl, now).1;
      && id in after.feeds && after.feeds[id].url == p.feedUrl
      && (IsDue(after.feeds[id], at) <==>
          && id in db.feeds && (db.feeds[id].status == Active || db.feeds[id].status == Dead)
          && db.feeds[id].nextCheckAt <= at)
  {
    UpsertFeedConsistent(db, p.feedUrl, now);
  }

  /** The feed of a new URL does not become due. */
  lemma NewUrlIsNotDue(db: Db, p: PodcastUpsert, now: int, at: int)
    requires db.Consistent() && p.feedUrl != "" && forall id :: id in db.feeds ==> db.feeds[id].url != p.feedUrl
    ensures
      var after, id := SeedOne(db, p, now), UpsertFeed(db, p.feedUrl, now).1;
      id in after.feeds && after.feeds[id].url == p.feedUrl && !IsDue(after.feeds[id], at)
  {
    StoredFeedIsDue(db, p, now, at);
  }

  // ---- What seeding must leave behind ----

  function Urls(ps: seq<PodcastUpsert>): set<string> {
    set i | 0 <= i < |ps| && ps[i].feedUrl != "" :: ps[i].feedUrl
  }

  predicate Lists(ps: seq<PodcastUpsert>, itunesId: int) {
    exists i :: 0 <= i < |ps| && ps[i].itunesId == itunesId
  }

  predicate HasUrl(feeds: map<nat, Feed>, url: string) {
    exists id :: id in feeds && feeds[id].url == url
  }

  predicate IsNew(feed: Feed) {
    feed == NewFeed(feed.id, feed.url, feed.nextCheckAt)
  }

  /** The URL of the feed a podcast is linked to. */
  function LinkedUrl(db: Db, itunesId: int): Option<string>
    requires itunesId in db.podcasts
  {
    match db.podcasts[itunesId].feedId
    case Some(id) => if id in db.feeds then Some(db.feeds[id].url) else None
    case None => None
  }

  /** The details the list gives the podcast last, or those it had. */
  function DetailsAfter(db: Db, ps: seq<PodcastUpsert>, itunesId: int): Details
    requires itunesId in db.podcasts || Lists(ps, itunesId)
  {
    if ps == [] then db.podcasts[itunesId].details
    else
      var n := |ps| - 1;
      if ps[n].itunesId == itunesId then ps[n].details
      else
        assert forall i :: 0 <= i < n ==> ps[..n][i] == ps[i];
        DetailsAfter(db, ps[..n], itunesId)
  }

  /** The feed URL the list gives the podcast last, or the one it was linked to. */
  function LinkAfter(db: Db, ps: seq<PodcastUpsert>, itunesId: int): Option<string> {
    if ps == [] then if itunesId in db.podcasts then LinkedUrl(db, itunesId) else None
    else
      var n := |ps| - 1;
      if ps[n].itunesId == itunesId && ps[n].feedUrl != "" then Some(ps[n].feedUrl)
      else LinkAfter(db, ps[..n], itunesId)
  }

  /** The feeds there were, untouched, and a new dormant one for every other URL. */
  ghost predicate FeedsSeeded(db: Db, urls: set<string>, after: Db) {
    && after.Consistent()
    && after.episodes == db.episodes
    && (forall id :: id in db.feeds ==> id in after.feeds && after.feeds[id] == db.feeds[id])
    && (forall id :: id in after.feeds && id !in db.feeds ==> IsNew(after.feeds[id]) && after.feeds[id].url in urls)
    && (forall url :: url in urls ==> HasUrl(after.feeds, url))
  }

  ghost predicate PodcastsSeeded(db: Db, ps: seq<PodcastUpsert>, after: Db) {
    && (forall k :: k in after.podcasts <==> k in db.podcasts || Lists(ps, k))
    && (forall k :: k in after.podcasts ==>
          after.podcasts[k].details == DetailsAfter(db, ps, k) && LinkedUrl(after, k) == LinkAfter(db, ps, k))
  }

  ghost predicate IsSeeded(db: Db, ps: seq<PodcastUpsert>, after: Db) {
    FeedsSeeded(db, Urls(ps), after) && PodcastsSeeded(db, ps, after)
  }

  // ---- The statements work towards it ----

  lemma UrlsOfMore(ps: seq<PodcastUpsert>, p: PodcastUpsert)
    ensures Urls(ps + [p]) == Urls(ps) + (if p.feedUrl == "" then {} else {p.feedUrl})
  {
    var more := ps + [p];
    assert forall i :: 0 <= i < |ps| ==> more[i] == ps[i];
    assert more[|ps|] == p;
  }

  lemma ListsMore(ps: seq<PodcastUpsert>, p: PodcastUpsert, k: int)
    ensures Lists(ps + [p], k) <==> Lists(ps, k) || p.itunesId == k
  {
    var more := ps + [p];
    assert forall i :: 0 <= i < |ps| ==> more[i] == ps[i];
    assert more[|ps|] == p;
  }

  /** Inserting one URL. */
  lemma FeedSeeded(db: Db, urls: set<string>, d: Db, url: string, now: int)
    requires FeedsSeeded(db, urls, d)
    ensures FeedsSeeded(db, urls + {url}, UpsertFeed(d, url, now).0)
  {
    UpsertFeedConsistent(d, url, now);
    UpsertAddsOne(d, url, now);
    var after := UpsertFeed(d, url, now).0;
    forall u | u in urls + {url} ensures HasUrl(after.feeds, u) {
      if u in urls {
        assert HasUrl(d.feeds, u);
      }
    }
  }

  lemma UpsertAddsOne(d: Db, url: string, now: int)
    requires d.Consistent()
    ensures
      var after := UpsertFeed(d, url, now).0;
      && after.episodes == d.episodes && HasUrl(after.feeds, url)
      && (forall id :: id in d.feeds ==> id in after.feeds && after.feeds[id] == d.feeds[id])
      && (forall id :: id in after.feeds && id !in d.feeds ==> IsNew(after.feeds[id]) && after.feeds[id].url == url)
      && (forall u :: HasUrl(d.feeds, u) ==> HasUrl(after.feeds, u))
  {
    UpsertFeedConsistent(d, url, now);
    var (after, id) := UpsertFeed(d, url, now);
    assert after.feeds[id].url == url;
    forall u | HasUrl(d.feeds, u) ensures HasUrl(after.feeds, u) {
      var other :| other in d.feeds && d.feeds[other].url == u;
      assert after.feeds[other].url == u;
    }
  }

  /** New feeds do not disturb the podcasts. */
  lemma PodcastsUndisturbed(db: Db, ps: seq<PodcastUpsert>, d: Db, url: string, now: int)
    requires d.Consistent() && PodcastsSeeded(db, ps, d)
    ensures PodcastsSeeded(db, ps, UpsertFeed(d, url, now).0)
  {
  }

  /** feedId is the id of the podcast's feed, if the response named one. */
  ghost predicate IsLink(db: Db, p: PodcastUpsert, feedId: Option<nat>) {
    match feedId
    case Some(id) => p.feedUrl != "" && id in db.feeds && db.feeds[id].url == p.feedUrl
    case None => p.feedUrl == ""
  }

  lemma PodcastSeeded(db: Db, ps: seq<PodcastUpsert>, d: Db, p: PodcastUpsert, feedId: Option<nat>)
    requires PodcastsSeeded(db, ps, d) && IsLink(d, p, feedId)
    ensures PodcastsSeeded(db, ps + [p], SeedPodcast(d, p, feedId))
  {
    var after := SeedPodcast(d, p, feedId);
    assert (ps + [p])[..|ps|] == ps;
    forall k
      ensures k in after.podcasts <==> k in db.podcasts || Lists(ps + [p], k)
      ensures k in after.podcasts ==>
        after.podcasts[k].details == DetailsAfter(db, ps + [p], k) && LinkedUrl(after, k) == LinkAfter(db, ps + [p], k)
    {
      ListsMore(ps, p, k);
      if k == p.itunesId && k !in d.podcasts {
        NotLinked(db, ps, k);
      }
    }
  }

  lemma {:induction false} NotLinked(db: Db, ps: seq<PodcastUpsert>, k: int)
    requires k !in db.podcasts && !Lists(ps, k)
    ensures LinkAfter(db, ps, k) == None
  {
    if ps != [] {
      var n := |ps| - 1;
      assert forall i :: 0 <= i < n ==> ps[..n][i] == ps[i];
      NotLinked(db, ps[..n], k);
    }
  }

  lemma SeedPodcastKeepsFeeds(db: Db, urls: set<string>, d: Db, p: PodcastUpsert, feedId: Option<nat>)
    requires FeedsSeeded(db, urls, d) && IsLink(d, p, feedId)
    ensures FeedsSeeded(db, urls, SeedPodcast(d, p, feedId))
  {
  }

  lemma SeedOneSeeds(db: Db, ps: seq<PodcastUpsert>, d: Db, p: PodcastUpsert, now: int)
    requires IsSeeded(db, ps, d)
    ensures IsSeeded(db, ps + [p], SeedOne(d, p, now))
  {
    UrlsOfMore(ps, p);
    if p.feedUrl == "" {
      PodcastSeeded(db, ps, d, p, None);
      SeedPodcastKeepsFeeds(db, Urls(ps), d, p, None);
    } else {
      var (stored, id) := UpsertFeed(d, p.feedUrl, now);
      UpsertFeedConsistent(d, p.feedUrl, now);
      FeedSeeded(db, Urls(ps), d, p.feedUrl, now);
      PodcastsUndisturbed(db, ps, d, p.feedUrl, now);
      PodcastSeeded(db, ps, stored, p, Some(id));
      SeedPodcastKeepsFeeds(db, Urls(ps + [p]), stored, p, Some(id));
    }
  }

  lemma NothingSeeded(db: Db)
    requires db.Consistent()
    ensures IsSeeded(db, [], db)
  {
  }

  /** Before any podcast is written, those there were are linked as they were. */
  lemma PodcastsStay(db: Db, urls: set<string>, after: Db)
    requires db.Consistent() && FeedsSeeded(db, urls, after) && after.podcasts == db.podcasts
    ensures PodcastsSeeded(db, [], after)
  {
  }

  /** Storing the podcasts in separate transactions seeds the list. */
  lemma {:induction false} SeedEachSeeds(db: Db, ps: seq<PodcastUpsert>, nows: seq<int>)
    requires db.Consistent() && |nows| == |ps|
    ensures IsSeeded(db, ps, SeedEach(db, ps, nows))
  {
    if ps == [] {
      NothingSeeded(db);
    } else {
      var n := |ps| - 1;
      SeedEachSeeds(db, ps[..n], nows[..n]);
      SeedOneSeeds(db, ps[..n], SeedEach(db, ps[..n], nows[..n]), ps[n], nows[n]);
      assert ps[..n] + [ps[n]] == ps;
    }
  }

  // ---- Two ways of seeding ----

  /** The same feed, or the same new feed under another id and first due at another time. */
  predicate SameFeed(f: Feed, g: Feed) {
    f.url == g.url && (f == g || (IsNew(f) && IsNew(g)))
  }

  ghost predicate HasTwin(f: Feed, db: Db) {
    exists id :: id in db.feeds && SameFeed(f, db.feeds[id])
  }

  /** The same catalogue up to the ids and the first due times of new feeds. */
  ghost predicate SameCatalogue(a: Db, b: Db) {
    && a.episodes == b.episodes
    && (forall id :: id in a.feeds ==> HasTwin(a.feeds[id], b))
    && (forall id :: id in b.feeds ==> HasTwin(b.feeds[id], a))
    && a.podcasts.Keys == b.podcasts.Keys
    && (forall k :: k in a.podcasts ==>
          a.podcasts[k].details == b.podcasts[k].details && LinkedUrl(a, k) == LinkedUrl(b, k))
  }

  lemma TwinOf(db: Db, urls: set<string>, a: Db, b: Db, id: nat)
    requires FeedsSeeded(db, urls, a) && FeedsSeeded(db, urls, b) && id in a.feeds
    ensures HasTwin(a.feeds[id], b)
  {
  }

  /** Seeding is determined: any two ways of it leave the same catalogue. */
  lemma SeededAlike(db: Db, ps: seq<PodcastUpsert>, a: Db, b: Db)
    requires IsSeeded(db, ps, a) && IsSeeded(db, ps, b)
    ensures SameCatalogue(a, b)
  {
    forall id | id in a.feeds ensures HasTwin(a.feeds[id], b) {
      TwinOf(db, Urls(ps), a, b, id);
    }
    forall id | id in b.feeds ensures HasTwin(b.feeds[id], a) {
      TwinOf(db, Urls(ps), b, a, id);
    }
    assert forall k :: k in a.podcasts <==> k in b.podcasts;
  }

  /** The batched transaction refines one transaction per podcast, whenever those would run. */
  lemma BatchSeedsLikeEach(db: Db, ps: seq<PodcastUpsert>, after: Db, nows: seq<int>)
    requires db.Consistent() && |nows| == |ps| && IsSeeded(db, ps, after)
    ensures SameCatalogue(after, SeedEach(db, ps, nows))
  {
    SeedEachSeeds(db, ps, nows);
    SeededAlike(db, ps, after, SeedEach(db, ps, nows));
  }

  lemma {:induction false} LinkStays(db: Db, ps: seq<PodcastUpsert>, k: int)
    requires k in db.podcasts
    ensures LinkedUrl(db, k).Some? ==> LinkAfter(db, ps, k).Some?
    ensures (forall i :: 0 <= i < |ps| && ps[i].itunesId == k ==> ps[i].feedUrl == "") ==>
              LinkAfter(db, ps, k) == LinkedUrl(db, k)
  {
    if ps != [] {
      var n := |ps| - 1;
      assert forall i :: 0 <= i < n ==> ps[..n][i] == ps[i];
      LinkStays(db, ps[..n], k);
    }
  }

  /** A known feed link is never erased, and stays when no response names another feed. */
  lemma KnownLinkIsKept(db: Db, ps: seq<PodcastUpsert>, after: Db, k: int)
    requires IsSeeded(db, ps, after) && k in db.podcasts && LinkedUrl(db, k).Some?
    ensures k in after.podcasts && LinkedUrl(after, k).Some?
    ensures (forall i :: 0 <= i < |ps| && ps[i].itunesId == k ==> ps[i].feedUrl == "") ==>
              LinkedUrl(after, k) == LinkedUrl(db, k)
  {
    LinkStays(db, ps, k);
  }

  lemma {:induction false} RepeatedEntry(db: Db, a: Db, ps: seq<PodcastUpsert>, k: int)
    requires k in a.podcasts && (k in db.podcasts || Lists(ps, k))
    ensures DetailsAfter(a, ps, k) == a.podcasts[k].details || DetailsAfter(a, ps, k) == DetailsAfter(db, ps, k)
    ensures LinkAfter(a, ps, k) == LinkedUrl(a, k) || LinkAfter(a, ps, k) == LinkAfter(db, ps, k)
  {
    if ps != [] {
      var n := |ps| - 1;
      assert forall i :: 0 <= i < n ==> ps[..n][i] == ps[i];
      if k in db.podcasts || Lists(ps[..n], k) {
        RepeatedEntry(db, a, ps[..n], k);
      } else {
        NotLinked(db, ps[..n], k);
        NotListed(a, ps[..n], k);
      }
    }
  }

  lemma {:induction false} NotListed(db: Db, ps: seq<PodcastUpsert>, k: int)
    requires k in db.podcasts && !Lists(ps, k)
    ensures LinkAfter(db, ps, k) == LinkedUrl(db, k) && DetailsAfter(db, ps, k) == db.podcasts[k].details
  {
    if ps != [] {
      var n := |ps| - 1;
      assert forall i :: 0 <= i < n ==> ps[..n][i] == ps[i];
      NotListed(db, ps[..n], k);
    }
  }

  lemma NoMoreFeeds(db: Db, urls: set<string>, a: Db, b: Db)
    requires FeedsSeeded(db, urls, a) && FeedsSeeded(a, urls, b)
    ensures b.feeds == a.feeds
  {
  }

  lemma SamePodcasts(db: Db, ps: seq<PodcastUpsert>, a: Db, b: Db)
    requires PodcastsSeeded(db, ps, a) && PodcastsSeeded(a, ps, b)
    ensures a.podcasts.Keys == b.podcasts.Keys
    ensures forall k :: k in a.podcasts ==>
              a.podcasts[k].details == b.podcasts[k].details && LinkedUrl(a, k) == LinkedUrl(b, k)
  {
    assert forall k :: k in a.podcasts <==> k in b.podcasts;
    forall k | k in a.podcasts
      ensures a.podcasts[k].details == b.podcasts[k].details && LinkedUrl(a, k) == LinkedUrl(b, k)
    {
      RepeatedEntry(db, a, ps, k);
    }
  }

  /** Seeing the same results again changes no feed and no podcast. */
  lemma SeedingIsIdempotent(db: Db, ps: seq<PodcastUpsert>, a: Db, b: Db)
    requires IsSeeded(db, ps, a) && IsSeeded(a, ps, b)
    ensures b.feeds == a.feeds && SameCatalogue(a, b)
  {
    NoMoreFeeds(db, Urls(ps), a, b);
    SamePodcasts(db, ps, a, b);
    forall id | id in a.feeds ensures HasTwin(a.feeds[id], b) && HasTwin(b.feeds[id], a) {
      assert SameFeed(a.feeds[id], b.feeds[id]);
    }
  }
}

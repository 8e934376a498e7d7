/**
 The catalogue as a cache of remote documents: conditional requests, body hashes, sequence
 stamps and upserts together serve what downloading and parsing the document every time would
 serve, as long as the feed's server is honest about 304s and no harmful crawl is recorded: one
 without a parse that carries validators older than the last recorded parse.
 */
module Freshness {
  import opened Prelude
  import opened Parse
  import opened Fetch
  import opened Catalogue
  import opened Crawler
  import opened Effects
  import opened Engine
  import opened Safety
  import opened Leases
  import History

  // ---- Reads of the engine's catalogue ----

  ghost predicate OrderedAnswers(setup: Setup) {
    forall a :: a in setup.answers && a.result.parsed ==>
      a.result.pruneGrace == setup.crawler.grace && History.InDocumentOrder(a.result.episodes)
  }

  lemma ResultIsOrdered(cfg: Config, snapshot: Feed, fetched: FetchResult, env: Env)
    ensures
      var result := NextState(cfg, snapshot, fetched, env);
      result.parsed ==>
        && fetched.outcome == Changed
        && result.pruneGrace == cfg.grace && History.InDocumentOrder(result.episodes)
        && ParseDocument(cfg.codec, fetched.body).Some?
        && result.episodes == ParseDocument(cfg.codec, fetched.body).value.episodes
  {
  }

  lemma AnswersAreOrdered(setup: Setup)
    requires setup.Valid()
    ensures OrderedAnswers(setup)
  {
    forall a | a in setup.answers && a.result.parsed
      ensures a.result.pruneGrace == setup.crawler.grace && History.InDocumentOrder(a.result.episodes)
    {
      ResultIsOrdered(setup.crawler, a.snapshot, a.fetched, a.env);
    }
  }

  /** The rows are the closed form of the parses, all of them in document order. */
  ghost predicate Reads(t: History.Traced, grace: nat) {
    && History.InClosedForm(t, grace)
    && (forall id :: History.AllOrdered(t.ParsesOf(id)))
  }

  lemma StatementKeepsReads(t: History.Traced, h: History.Event, grace: nat)
    requires Reads(t, grace) && History.UsesGrace(h, grace)
    requires h.Record? && h.result.parsed ==> History.InDocumentOrder(h.result.episodes)
    ensures Reads(History.Step(t, h), grace)
  {
    History.ClosedFormKept(t, h, grace);
    forall id ensures History.AllOrdered(History.Step(t, h).ParsesOf(id)) {
      History.ParsesStep(t, h, id);
      assert History.AllOrdered(t.ParsesOf(id));
    }
  }

  lemma ReadsKept(setup: Setup, s: System, e: Event)
    requires OrderedAnswers(setup) && WellFormed(s) && Enabled(setup, s, e)
    requires AnswersInFlight(setup, s) && Reads(s.Trace(), setup.crawler.grace)
    ensures Reads(Next(setup, s, e).Trace(), setup.crawler.grace)
  {
    var statement := Statement(setup, s, e);
    assert Next(setup, s, e).Trace() == NextTrace(setup, s, e);
    if statement.Some? {
      StatementKeepsReads(s.Trace(), statement.value, setup.crawler.grace);
    }
  }

  lemma {:induction false} EveryRunReads(setup: Setup, events: seq<Event>)
    requires setup.Valid() && Runs(setup, events)
    ensures AnswersInFlight(setup, Final(setup, events))
    ensures Reads(Final(setup, events).Trace(), setup.crawler.grace)
    decreases |events|
  {
    if events == [] {
      History.EpisodesClosedForm([], setup.crawler.grace);
    } else {
      var n := |events| - 1;
      EveryRunReads(setup, events[..n]);
      EveryRunIsSafe(setup, events[..n]);
      AnswersAreOrdered(setup);
      AnswersInFlightKept(setup, Final(setup, events[..n]), events[n]);
      ReadsKept(setup, Final(setup, events[..n]), events[n]);
    }
  }

  /** Every read in every reachable state returns the last committed document of the feed. */
  lemma EveryReadServesLastParse(setup: Setup, events: seq<Event>, f: nat, list: seq<EpisodeRow>)
    requires setup.Valid() && Runs(setup, events)
    requires f in Final(setup, events).db.feeds && IsEpisodesByFeed(Final(setup, events).db, f, list)
    ensures History.Plain(list) == History.Served(Final(setup, events).Trace().ParsesOf(f))
  {
    EveryRunReads(setup, events);
    History.ReadsInClosedForm(Final(setup, events).Trace(), setup.crawler.grace, f, list);
  }

  // ---- Honest servers ----

  /** Every response that carried the entity tag for the URL stood for the document. */
  ghost predicate TagMeans(log: set<Issue>, url: string, etag: string, document: string) {
    forall i :: i in log && i.url == url && i.etag == etag ==> i.document == document
  }

  ghost predicate DateMeans(log: set<Issue>, url: string, lastModified: string, document: string) {
    forall i :: i in log && i.url == url && i.lastModified == lastModified ==> i.document == document
  }

  /**
   A full response carries the current document, and a 304 is sent only to a conditional
   request whose entity tag, or else whose date, was issued with the current document
   (sections 13.1.2, 13.1.3 and 15.4.5 of RFC 9110).
   */
  ghost predicate Honest(cfg: Config, log: set<Issue>, a: Answer) {
    var sent := a.snapshot;
    && (Usable(a.response, cfg.maxBody) ==> a.response.body.content == a.document)
    && (a.response.Response? && a.response.status == 304 ==>
          if sent.etag != "" then TagMeans(log, sent.url, sent.etag, a.document)
          else sent.lastModified != "" && DateMeans(log, sent.url, sent.lastModified, a.document))
  }

  ghost predicate GoodHash(cfg: Config) {
    Injective(cfg.codec.sha) && forall text :: cfg.codec.sha(text) != ""
  }

  // ---- Which document a row's validators stand for ----

  predicate SameValidators(a: Feed, b: Feed) {
    a.url == b.url && a.etag == b.etag && a.lastModified == b.lastModified && a.bodyHash == b.bodyHash
  }

  ghost predicate TagFor(log: set<Issue>, url: string, etag: string, document: string) {
    exists i :: i in log && i.url == url && i.etag == etag && i.document == document
  }

  ghost predicate DateFor(log: set<Issue>, url: string, lastModified: string, document: string) {
    exists i :: i in log && i.url == url && i.lastModified == lastModified && i.document == document
  }

  /** The feed's hash is the document's and its validators were issued with it. */
  ghost predicate Backed(cfg: Config, log: set<Issue>, feed: Feed, document: string) {
    && feed.bodyHash == cfg.codec.sha(document)
    && (feed.etag != "" ==> TagFor(log, feed.url, feed.etag, document))
    && (feed.lastModified != "" ==> DateFor(log, feed.url, feed.lastModified, document))
  }

  lemma BackingGrows(cfg: Config, log: set<Issue>, more: set<Issue>, feed: Feed, document: string)
    requires Backed(cfg, log, feed, document)
    ensures Backed(cfg, log + more, feed, document)
  {
  }

  predicate IsParse(cfg: Config, document: string, eps: seq<EpisodeUpsert>) {
    var parsed := ParseDocument(cfg.codec, document);
    parsed.Some? && parsed.value.episodes == eps
  }

  /** What a result does to the link between validators and document. */
  ghost predicate FreshResult(cfg: Config, log: set<Issue>, a: Answer) {
    var after := a.result.feed;
    if a.result.parsed then
      Backed(cfg, log + a.issues, after, a.document) && IsParse(cfg, a.document, a.result.episodes)
    else if a.fetched.outcome == NotModified then
      && !NoValidators(a.snapshot) && !NoValidators(after)
      && forall d :: Backed(cfg, log, a.snapshot, d) ==> d == a.document && Backed(cfg, log + a.issues, after, d)
    else NoValidators(after) || SameValidators(after, a.snapshot)
  }

  ghost predicate FreshAnswers(setup: Setup) {
    forall a, log :: a in setup.answers && Honest(setup.crawler, log, a) ==> FreshResult(setup.crawler, log, a)
  }

  lemma IssueOfAnswer(cfg: Config, a: Answer, log: set<Issue>)
    requires IsAnswer(cfg, a) && a.issues != {}
    ensures TagFor(log + a.issues, a.snapshot.url, a.response.etag, a.document)
    ensures DateFor(log + a.issues, a.snapshot.url, a.response.lastModified, a.document)
  {
  }

  lemma ChangedIsUsable(cfg: Config, a: Answer)
    requires IsAnswer(cfg, a) && a.fetched.outcome == Changed
    ensures a.issues != {} && Usable(a.response, cfg.maxBody)
    ensures a.fetched.body == a.response.body.content && a.fetched.bodyHash == cfg.codec.sha(a.fetched.body)
    ensures a.fetched.etag == a.response.etag && a.fetched.lastModified == a.response.lastModified
  {
  }

  lemma ParsedValidators(cfg: Config, snapshot: Feed, fetched: FetchResult, env: Env)
    requires NextState(cfg, snapshot, fetched, env).parsed
    ensures
      var f := NextState(cfg, snapshot, fetched, env).feed;
      && f.url == snapshot.url && f.bodyHash == fetched.bodyHash
      && f.etag == fetched.etag && f.lastModified == fetched.lastModified
  {
  }

  /** A stored parse is of the document the server had, under the validators it issued with it. */
  lemma ParsedIsFresh(cfg: Config, a: Answer, log: set<Issue>)
    requires IsAnswer(cfg, a) && Honest(cfg, log, a) && a.result.parsed
    ensures Backed(cfg, log + a.issues, a.result.feed, a.document) && IsParse(cfg, a.document, a.result.episodes)
  {
    ResultIsOrdered(cfg, a.snapshot, a.fetched, a.env);
    ChangedIsUsable(cfg, a);
    ParsedValidators(cfg, a.snapshot, a.fetched, a.env);
    IssueOfAnswer(cfg, a, log);
  }

  lemma NotModifiedValidators(cfg: Config, snapshot: Feed, fetched: FetchResult, env: Env)
    requires fetched.outcome == NotModified
    ensures
      var f := NextState(cfg, snapshot, fetched, env).feed;
      && f.url == snapshot.url && f.etag == fetched.etag && f.lastModified == fetched.lastModified
      && f.bodyHash == if fetched.bodyHash == "" then snapshot.bodyHash else fetched.bodyHash
  {
  }

  /** The two ways to be not modified: a 304, or a body with the known hash. */
  lemma NotModifiedFetch(cfg: Config, a: Answer)
    requires IsAnswer(cfg, a) && a.fetched.outcome == NotModified && GoodHash(cfg)
    ensures a.issues != {} && a.response.Response?
    ensures a.fetched.etag == a.response.etag || (a.response.status == 304 && a.fetched.etag == a.snapshot.etag)
    ensures a.fetched.lastModified == a.response.lastModified
            || (a.response.status == 304 && a.fetched.lastModified == a.snapshot.lastModified)
    ensures if a.response.status == 304 then a.fetched.bodyHash == ""
            else Usable(a.response, cfg.maxBody) && a.snapshot.bodyHash != ""
                 && a.snapshot.bodyHash == a.fetched.bodyHash == cfg.codec.sha(a.response.body.content)
  {
  }

  /** Under an honest server, not modified means the document behind the validators is current. */
  lemma NotModifiedDocument(cfg: Config, a: Answer, log: set<Issue>, d: string)
    requires IsAnswer(cfg, a) && Honest(cfg, log, a) && a.fetched.outcome == NotModified && GoodHash(cfg)
    requires Backed(cfg, log, a.snapshot, d)
    ensures d == a.document
  {
  }

  lemma NotModifiedBacking(cfg: Config, a: Answer, log: set<Issue>)
    requires IsAnswer(cfg, a) && a.fetched.outcome == NotModified && GoodHash(cfg)
    requires Backed(cfg, log, a.snapshot, a.document)
    ensures Backed(cfg, log + a.issues, a.result.feed, a.document)
  {
    NotModifiedFetch(cfg, a);
    NotModifiedValidators(cfg, a.snapshot, a.fetched, a.env);
    IssueOfAnswer(cfg, a, log);
    BackingGrows(cfg, log, a.issues, a.snapshot, a.document);
  }

  /** A request that carried validators and is not modified leaves some. */
  lemma NotModifiedKeepsValidators(cfg: Config, a: Answer)
    requires IsAnswer(cfg, a) && a.fetched.outcome == NotModified
    ensures NoValidators(a.result.feed) ==> NoValidators(a.snapshot)
  {
    NotModifiedValidators(cfg, a.snapshot, a.fetched, a.env);
  }

  lemma NotModifiedIsFresh(cfg: Config, a: Answer, log: set<Issue>)
    requires IsAnswer(cfg, a) && Honest(cfg, log, a) && a.fetched.outcome == NotModified && GoodHash(cfg)
    ensures !NoValidators(a.snapshot) && !NoValidators(a.result.feed)
    ensures forall d :: Backed(cfg, log, a.snapshot, d) ==>
              d == a.document && Backed(cfg, log + a.issues, a.result.feed, d)
  {
    NotModifiedFetch(cfg, a);
    NotModifiedKeepsValidators(cfg, a);
    forall d | Backed(cfg, log, a.snapshot, d)
      ensures d == a.document && Backed(cfg, log + a.issues, a.result.feed, d)
    {
      NotModifiedDocument(cfg, a, log, d);
      NotModifiedBacking(cfg, a, log);
    }
  }

  /** Failures, 429s, 410s and rejected moves keep the validators; accepted moves drop them. */
  lemma OthersKeepOrDrop(cfg: Config, snapshot: Feed, fetched: FetchResult, env: Env)
    ensures
      var result := NextState(cfg, snapshot, fetched, env);
      result.parsed || fetched.outcome == NotModified
      || NoValidators(result.feed) || SameValidators(result.feed, snapshot)
  {
  }

  lemma AnswersAreFresh(setup: Setup)
    requires setup.Valid() && GoodHash(setup.crawler)
    ensures FreshAnswers(setup)
  {
    var cfg := setup.crawler;
    forall a, log | a in setup.answers && Honest(cfg, log, a) ensures FreshResult(cfg, log, a) {
      if a.result.parsed {
        ParsedIsFresh(cfg, a, log);
      } else if a.fetched.outcome == NotModified {
        NotModifiedIsFresh(cfg, a, log);
      } else {
        OthersKeepOrDrop(cfg, a.snapshot, a.fetched, a.env);
      }
    }
  }

  // ---- The invariant of one feed ----

  /** The q-th committed parse of the feed is the document's. */
  predicate ParsedAs(cfg: Config, h: History.Parses, q: nat, document: string) {
    0 < q <= |h| && IsParse(cfg, document, h[q - 1])
  }

  /** The validators, if there are any, stand for the document of the q-th parse. */
  ghost predicate StandsFor(cfg: Config, log: set<Issue>, h: History.Parses, feed: Feed, q: nat) {
    NoValidators(feed) || exists d :: Backed(cfg, log, feed, d) && ParsedAs(cfg, h, q, d)
  }

  /** The last committed parse of the feed is the document's. */
  predicate Stores(cfg: Config, s: System, f: nat, document: string) {
    ParsedAs(cfg, s.Trace().ParsesOf(f), |s.Trace().ParsesOf(f)|, document)
  }

  predicate Confirms(crawl: Crawl) {
    crawl.Ready? && !crawl.answer.result.parsed && crawl.answer.fetched.outcome == NotModified
  }

  /** What honest responses guarantee of a crawl, whatever else happened to the feed. */
  ghost predicate SoundCrawl(cfg: Config, log: set<Issue>, count: nat, crawl: Crawl) {
    && crawl.Snapshot().crawlSeq <= count
    && (crawl.Ready? ==>
          var a := crawl.answer;
          if a.result.parsed then Backed(cfg, log, a.result.feed, a.document) && IsParse(cfg, a.document, a.result.episodes)
          else if Confirms(crawl) then !NoValidators(a.snapshot) && !NoValidators(a.result.feed)
          else NoValidators(a.result.feed) || SameValidators(a.result.feed, a.snapshot))
  }

  /** The crawl's validators, and what they confirmed, are those of the parse its snapshot saw last. */
  ghost predicate TrueToSnapshot(cfg: Config, log: set<Issue>, h: History.Parses, crawl: Crawl) {
    var q := crawl.Snapshot().crawlSeq;
    && StandsFor(cfg, log, h, crawl.Snapshot(), q)
    && (Confirms(crawl) ==>
          Backed(cfg, log, crawl.answer.result.feed, crawl.answer.document) && ParsedAs(cfg, h, q, crawl.answer.document))
  }

  ghost predicate FreshCrawl(cfg: Config, log: set<Issue>, h: History.Parses, since: nat, crawl: Crawl) {
    && SoundCrawl(cfg, log, |h|, crawl)
    && (since <= crawl.Snapshot().crawlSeq ==> TrueToSnapshot(cfg, log, h, crawl))
  }

  ghost predicate SoundFeed(cfg: Config, s: System, f: nat) {
    f in s.db.feeds ==>
      && s.db.feeds[f].crawlSeq == |s.Trace().ParsesOf(f)|
      && forall k :: k in s.crawls && k.feed == f ==>
           SoundCrawl(cfg, s.log, |s.Trace().ParsesOf(f)|, s.crawls[k])
  }

  /**
   The feed's validators stand for the document whose parse is stored, and those of its crawls in
   flight for the document whose parse was, as far as their snapshots are not older than the
   parse with the number since. With since 0 that is all of them.
   */
  ghost predicate FreshFeed(cfg: Config, s: System, f: nat, since: nat) {
    f in s.db.feeds ==>
      && SoundFeed(cfg, s, f)
      && StandsFor(cfg, s.log, s.Trace().ParsesOf(f), s.db.feeds[f], |s.Trace().ParsesOf(f)|)
      && forall k :: k in s.crawls && k.feed == f ==>
           FreshCrawl(cfg, s.log, s.Trace().ParsesOf(f), since, s.crawls[k])
  }

  /** The q-th parse has the same episodes as the last one. */
  predicate SameAsLast(h: History.Parses, q: nat) {
    q == |h| || (0 < q < |h| && h[q - 1] == h[|h| - 1])
  }

  /**
   What can be told from the stored data: recording the crawl is harmless if it parsed, if it sent
   or brings no validators, or if the parse its snapshot saw last has the episodes of the last one.
   */
  predicate Harmless(h: History.Parses, since: nat, crawl: Crawl) {
    crawl.Ready? &&
    (|| crawl.answer.result.parsed || NoValidators(crawl.Snapshot()) || NoValidators(crawl.answer.result.feed)
     || (since <= crawl.Snapshot().crawlSeq && SameAsLast(h, crawl.Snapshot().crawlSeq)))
  }

  ghost predicate RecordsParse(s: System, e: Event, f: nat) {
    Recorded(s, e, f) && s.crawls[e.key].answer.result.parsed
  }

  ghost predicate HarmlessStep(s: System, e: Event, f: nat, since: nat) {
    Recorded(s, e, f) ==> Harmless(s.Trace().ParsesOf(f), since, s.crawls[e.key])
  }

  ghost predicate HonestStep(cfg: Config, s: System, e: Event, f: nat) {
    e.Respond? && e.key.feed == f ==> Honest(cfg, s.log, e.answer)
  }

  // ---- What a step does to the feed ----

  lemma ParsesOfStatement(t: History.Traced, h: History.Event, f: nat)
    ensures
      var before, after := t.ParsesOf(f), History.Step(t, h).ParsesOf(f);
      if h.Record? && h.result.feed.id == f && UpdateError(t.db, h.result.feed) == None && h.result.parsed
      then after == before + [h.result.episodes]
      else after == before
  {
  }

  lemma ParsesFollow(setup: Setup, s: System, e: Event, f: nat)
    requires WellFormed(s) && Enabled(setup, s, e)
    ensures
      var before, after := s.Trace().ParsesOf(f), Next(setup, s, e).Trace().ParsesOf(f);
      if RecordsParse(s, e, f) then after == before + [s.crawls[e.key].answer.result.episodes] else after == before
  {
    assert Next(setup, s, e).Trace() == NextTrace(setup, s, e);
    var statement := Statement(setup, s, e);
    if statement.Some? {
      ParsesOfStatement(s.Trace(), statement.value, f);
    }
  }

  /** The issues a step logs. */
  ghost function Logged(e: Event): set<Issue> {
    if e.Respond? then e.answer.issues else {}
  }

  /** What the step does to the feed's row, and to what is known about it. */
  ghost predicate Around(setup: Setup, s: System, e: Event, f: nat, after: System) {
    && f in after.db.feeds && RowStep(setup, s, e, f, after.db.feeds[f])
    && after.log == s.log + Logged(e)
    && (if RecordsParse(s, e, f)
        then after.Trace().ParsesOf(f) == s.Trace().ParsesOf(f) + [s.crawls[e.key].answer.result.episodes]
        else after.Trace().ParsesOf(f) == s.Trace().ParsesOf(f))
  }

  lemma RowAround(setup: Setup, s: System, e: Event, f: nat)
    requires WellFormed(s) && Enabled(setup, s, e) && f in Next(setup, s, e).db.feeds
    ensures Around(setup, s, e, f, Next(setup, s, e))
  {
    RowsFollow(setup, s, e, f);
    ParsesFollow(setup, s, e, f);
  }

  /** The sequence number keeps counting the parses, from 0 for a new feed. */
  lemma CountAround(setup: Setup, s: System, e: Event, f: nat, after: System)
    requires Around(setup, s, e, f, after)
    requires if f in s.db.feeds then s.db.feeds[f].crawlSeq == |s.Trace().ParsesOf(f)| else f !in s.parses
    ensures after.db.feeds[f].crawlSeq == |after.Trace().ParsesOf(f)|
    ensures f !in s.db.feeds ==> NoValidators(after.db.feeds[f])
  {
  }

  lemma StandsForGrows(cfg: Config, log: set<Issue>, more: set<Issue>, h: History.Parses, longer: History.Parses, feed: Feed, q: nat)
    requires StandsFor(cfg, log, h, feed, q) && h <= longer
    ensures StandsFor(cfg, log + more, longer, feed, q)
  {
    if !NoValidators(feed) {
      var d :| Backed(cfg, log, feed, d) && ParsedAs(cfg, h, q, d);
      BackingGrows(cfg, log, more, feed, d);
      assert ParsedAs(cfg, longer, q, d);
    }
  }

  // ---- Honest responses keep crawls sound ----

  lemma SoundWhileItLasts(cfg: Config, log: set<Issue>, more: set<Issue>, count: nat, later: nat, crawl: Crawl)
    requires SoundCrawl(cfg, log, count, crawl) && count <= later
    ensures SoundCrawl(cfg, log + more, later, crawl)
  {
    if crawl.Ready? && crawl.answer.result.parsed {
      BackingGrows(cfg, log, more, crawl.answer.result.feed, crawl.answer.document);
    }
  }

  lemma SoundOnRespond(setup: Setup, log: set<Issue>, count: nat, a: Answer, origin: Origin)
    requires FreshAnswers(setup) && a in setup.answers && Honest(setup.crawler, log, a)
    requires a.snapshot.crawlSeq <= count
    ensures SoundCrawl(setup.crawler, log + a.issues, count, Ready(a, origin))
  {
    assert FreshResult(setup.crawler, log, a);
  }

  /** A crawl that was under way before the step and still is. */
  lemma SoundCrawlKept(setup: Setup, s: System, e: Event, f: nat, k: Key, after: System)
    requires FreshAnswers(setup) && Around(setup, s, e, f, after) && HonestStep(setup.crawler, s, e, f)
    requires k in s.crawls && k in after.crawls && k.feed == f
    requires SoundCrawl(setup.crawler, s.log, |s.Trace().ParsesOf(f)|, s.crawls[k])
    requires CrawlStep(setup, s, e, k, after.crawls[k], after.db.feeds[f])
    ensures SoundCrawl(setup.crawler, after.log, |after.Trace().ParsesOf(f)|, after.crawls[k])
  {
    if e.Respond? && e.key == k {
      SoundOnRespond(setup, s.log, |s.Trace().ParsesOf(f)|, e.answer, s.crawls[k].origin);
    } else {
      SoundWhileItLasts(
        setup.crawler, s.log, Logged(e), |s.Trace().ParsesOf(f)|, |after.Trace().ParsesOf(f)|, s.crawls[k]);
    }
  }

  lemma SoundKept(setup: Setup, s: System, e: Event, f: nat)
    requires FreshAnswers(setup) && WellFormed(s) && EpisodesOfCrawled(s) && Enabled(setup, s, e)
    requires SoundFeed(setup.crawler, s, f) && HonestStep(setup.crawler, s, e, f)
    ensures SoundFeed(setup.crawler, Next(setup, s, e), f)
  {
    var after := Next(setup, s, e);
    if f in after.db.feeds {
      RowAround(setup, s, e, f);
      assert HasEpisodes(s, f) ==> f in s.db.feeds;
      CountAround(setup, s, e, f, after);
      forall k | k in after.crawls && k.feed == f
        ensures SoundCrawl(setup.crawler, after.log, |after.Trace().ParsesOf(f)|, after.crawls[k])
      {
        CrawlsFollow(setup, s, e, k);
        if k in s.crawls {
          SoundCrawlKept(setup, s, e, f, k, after);
        }
      }
    }
  }

  // ---- Harmless records keep the row fresh ----

  /** A recorded parse stores its document under its validators, however stale its snapshot. */
  lemma FreshAfterParse(cfg: Config, log: set<Issue>, h: History.Parses, count: nat, crawl: Crawl, current: Feed, at: int)
    requires crawl.Ready? && crawl.answer.result.parsed && SoundCrawl(cfg, log, count, crawl)
    ensures
      var longer := h + [crawl.answer.result.episodes];
      && StandsFor(cfg, log, longer, RowAfterCrawl(current, crawl.answer.result, at), |longer|)
      && ParsedAs(cfg, longer, |longer|, crawl.answer.document)
  {
    assert Backed(cfg, log, RowAfterCrawl(current, crawl.answer.result, at), crawl.answer.document);
  }

  /** What parsed nothing writes validators that stand for the parse its snapshot saw last. */
  lemma RestStandsForSnapshot(cfg: Config, log: set<Issue>, h: History.Parses, crawl: Crawl, current: Feed, at: int)
    requires crawl.Ready? && !crawl.answer.result.parsed
    requires SoundCrawl(cfg, log, |h|, crawl) && TrueToSnapshot(cfg, log, h, crawl)
    ensures StandsFor(cfg, log, h, RowAfterCrawl(current, crawl.answer.result, at), crawl.Snapshot().crawlSeq)
  {
    var a := crawl.answer;
    var row := RowAfterCrawl(current, a.result, at);
    if Confirms(crawl) {
      assert Backed(cfg, log, row, a.document);
    } else if !NoValidators(row) {
      var d :| Backed(cfg, log, a.snapshot, d) && ParsedAs(cfg, h, a.snapshot.crawlSeq, d);
      assert Backed(cfg, log, row, d);
    }
  }

  /** Validators stand for one parse only, as far as the episodes go: a hash has one document. */
  lemma StandsForOneParse(cfg: Config, log: set<Issue>, h: History.Parses, feed: Feed, q: nat)
    requires GoodHash(cfg) && StandsFor(cfg, log, h, feed, q) && !NoValidators(feed)
    ensures StandsFor(cfg, log, h, feed, |h|) <==> SameAsLast(h, q)
  {
    var d :| Backed(cfg, log, feed, d) && ParsedAs(cfg, h, q, d);
    if StandsFor(cfg, log, h, feed, |h|) {
      var e :| Backed(cfg, log, feed, e) && ParsedAs(cfg, h, |h|, e);
      assert d == e;
    }
    if SameAsLast(h, q) {
      assert ParsedAs(cfg, h, |h|, d);
    }
  }

  lemma BareRest(cfg: Config, log: set<Issue>, count: nat, crawl: Crawl)
    requires crawl.Ready? && !crawl.answer.result.parsed && SoundCrawl(cfg, log, count, crawl)
    ensures NoValidators(crawl.Snapshot()) ==> NoValidators(crawl.answer.result.feed)
  {
  }

  /** Recording what parsed nothing leaves a fresh row if and only if it is harmless. */
  lemma FreshAfterRest(cfg: Config, log: set<Issue>, h: History.Parses, since: nat, crawl: Crawl, current: Feed, at: int)
    requires GoodHash(cfg) && crawl.Ready? && !crawl.answer.result.parsed && FreshCrawl(cfg, log, h, since, crawl)
    ensures Harmless(h, since, crawl) ==> StandsFor(cfg, log, h, RowAfterCrawl(current, crawl.answer.result, at), |h|)
    ensures since <= crawl.Snapshot().crawlSeq && !Harmless(h, since, crawl) ==>
              !StandsFor(cfg, log, h, RowAfterCrawl(current, crawl.answer.result, at), |h|)
  {
    var row := RowAfterCrawl(current, crawl.answer.result, at);
    BareRest(cfg, log, |h|, crawl);
    if since <= crawl.Snapshot().crawlSeq && !NoValidators(row) {
      RestStandsForSnapshot(cfg, log, h, crawl, current, at);
      StandsForOneParse(cfg, log, h, row, crawl.Snapshot().crawlSeq);
    }
  }

  /** The row after a step that does not record a crawl of the feed. */
  lemma FreshRowBeside(setup: Setup, s: System, e: Event, f: nat, after: System, since: nat)
    requires Around(setup, s, e, f, after) && !Recorded(s, e, f) && FreshFeed(setup.crawler, s, f, since)
    requires f !in s.db.feeds ==> f !in s.parses
    ensures StandsFor(setup.crawler, after.log, after.Trace().ParsesOf(f), after.db.feeds[f], |after.Trace().ParsesOf(f)|)
  {
    if f in s.db.feeds {
      var h := s.Trace().ParsesOf(f);
      assert SameValidators(s.db.feeds[f], after.db.feeds[f]);
      StandsForGrows(setup.crawler, s.log, Logged(e), h, h, s.db.feeds[f], |h|);
      StandsForSame(setup.crawler, after.log, h, s.db.feeds[f], after.db.feeds[f], |h|);
    }
  }

  lemma StandsForSame(cfg: Config, log: set<Issue>, h: History.Parses, feed: Feed, same: Feed, q: nat)
    requires StandsFor(cfg, log, h, feed, q) && SameValidators(feed, same)
    ensures StandsFor(cfg, log, h, same, q)
  {
    if !NoValidators(feed) {
      var d :| Backed(cfg, log, feed, d) && ParsedAs(cfg, h, q, d);
      assert Backed(cfg, log, same, d);
    }
  }

  lemma FreshRowKept(setup: Setup, s: System, e: Event, f: nat, since: nat)
    requires GoodHash(setup.crawler) && WellFormed(s) && EpisodesOfCrawled(s) && Enabled(setup, s, e)
    requires f in Next(setup, s, e).db.feeds && FreshFeed(setup.crawler, s, f, since) && HarmlessStep(s, e, f, since)
    ensures
      var after := Next(setup, s, e);
      StandsFor(setup.crawler, after.log, after.Trace().ParsesOf(f), after.db.feeds[f], |after.Trace().ParsesOf(f)|)
  {
    var after, h := Next(setup, s, e), s.Trace().ParsesOf(f);
    RowAround(setup, s, e, f);
    if !Recorded(s, e, f) {
      assert HasEpisodes(s, f) ==> f in s.db.feeds;
      FreshRowBeside(setup, s, e, f, after, since);
    } else if RecordsParse(s, e, f) {
      FreshAfterParse(setup.crawler, s.log, h, |h|, s.crawls[e.key], s.db.feeds[f], e.at);
    } else {
      FreshAfterRest(setup.crawler, s.log, h, since, s.crawls[e.key], s.db.feeds[f], e.at);
    }
  }

  // ---- Crawls in flight stay fresh ----

  /** The arrival of an honest response. */
  lemma TrueOnRespond(setup: Setup, log: set<Issue>, h: History.Parses, a: Answer, origin: Origin)
    requires FreshAnswers(setup) && a in setup.answers && Honest(setup.crawler, log, a)
    requires StandsFor(setup.crawler, log, h, a.snapshot, a.snapshot.crawlSeq)
    ensures TrueToSnapshot(setup.crawler, log + a.issues, h, Ready(a, origin))
  {
    var cfg, q := setup.crawler, a.snapshot.crawlSeq;
    assert FreshResult(cfg, log, a);
    StandsForGrows(cfg, log, a.issues, h, h, a.snapshot, q);
    if Confirms(Ready(a, origin)) {
      var d :| Backed(cfg, log, a.snapshot, d) && ParsedAs(cfg, h, q, d);
      assert d == a.document;
    }
  }

  lemma TrueWhileItLasts(
    cfg: Config, log: set<Issue>, more: set<Issue>, h: History.Parses, longer: History.Parses, crawl: Crawl)
    requires TrueToSnapshot(cfg, log, h, crawl) && h <= longer
    ensures TrueToSnapshot(cfg, log + more, longer, crawl)
  {
    StandsForGrows(cfg, log, more, h, longer, crawl.Snapshot(), crawl.Snapshot().crawlSeq);
    if Confirms(crawl) {
      BackingGrows(cfg, log, more, crawl.answer.result.feed, crawl.answer.document);
    }
  }

  /** A crawl that was under way before the step and still is. */
  lemma FreshCrawlKept(setup: Setup, s: System, e: Event, f: nat, k: Key, after: System, since: nat)
    requires FreshAnswers(setup) && Around(setup, s, e, f, after) && HonestStep(setup.crawler, s, e, f)
    requires k in s.crawls && k in after.crawls && k.feed == f
    requires FreshCrawl(setup.crawler, s.log, s.Trace().ParsesOf(f), since, s.crawls[k])
    requires CrawlStep(setup, s, e, k, after.crawls[k], after.db.feeds[f])
    ensures FreshCrawl(setup.crawler, after.log, after.Trace().ParsesOf(f), since, after.crawls[k])
  {
    var h := s.Trace().ParsesOf(f);
    SoundCrawlKept(setup, s, e, f, k, after);
    if since <= s.crawls[k].Snapshot().crawlSeq {
      if e.Respond? && e.key == k {
        TrueOnRespond(setup, s.log, h, e.answer, s.crawls[k].origin);
      } else {
        TrueWhileItLasts(setup.crawler, s.log, Logged(e), h, after.Trace().ParsesOf(f), s.crawls[k]);
      }
    }
  }

  /** A crawl that starts in the step holds the row as it is then. */
  lemma NewCrawlIsFresh(setup: Setup, s: System, e: Event, f: nat, k: Key, after: System, since: nat)
    requires k !in s.crawls && k in after.crawls && k.feed == f && f in after.db.feeds
    requires CrawlStep(setup, s, e, k, after.crawls[k], after.db.feeds[f])
    requires after.db.feeds[f].crawlSeq == |after.Trace().ParsesOf(f)|
    requires StandsFor(setup.crawler, after.log, after.Trace().ParsesOf(f), after.db.feeds[f], |after.Trace().ParsesOf(f)|)
    ensures FreshCrawl(setup.crawler, after.log, after.Trace().ParsesOf(f), since, after.crawls[k])
  {
  }

  /** An honest and harmless step of a fresh feed leaves it fresh. */
  lemma FreshKept(setup: Setup, s: System, e: Event, f: nat, since: nat)
    requires FreshAnswers(setup) && GoodHash(setup.crawler)
    requires WellFormed(s) && EpisodesOfCrawled(s) && Enabled(setup, s, e)
    requires FreshFeed(setup.crawler, s, f, since)
    requires HarmlessStep(s, e, f, since) && HonestStep(setup.crawler, s, e, f)
    ensures FreshFeed(setup.crawler, Next(setup, s, e), f, since)
  {
    var after := Next(setup, s, e);
    SoundKept(setup, s, e, f);
    if f in after.db.feeds {
      FreshRowKept(setup, s, e, f, since);
      RowAround(setup, s, e, f);
      forall k | k in after.crawls && k.feed == f
        ensures FreshCrawl(setup.crawler, after.log, after.Trace().ParsesOf(f), since, after.crawls[k])
      {
        CrawlsFollow(setup, s, e, k);
        if k in s.crawls {
          FreshCrawlKept(setup, s, e, f, k, after, since);
        } else {
          NewCrawlIsFresh(setup, s, e, f, k, after, since);
        }
      }
    }
  }

  lemma HarmfulStepSpoils(setup: Setup, s: System, e: Event, f: nat)
    requires GoodHash(setup.crawler) && WellFormed(s) && Enabled(setup, s, e)
    requires FreshFeed(setup.crawler, s, f, 0) && !HarmlessStep(s, e, f, 0)
    ensures !FreshFeed(setup.crawler, Next(setup, s, e), f, 0)
  {
    RowsStay(setup, s, e, f);
    RowAround(setup, s, e, f);
    FreshAfterRest(setup.crawler, s.log, s.Trace().ParsesOf(f), 0, s.crawls[e.key], s.db.feeds[f], e.at);
  }

  /**
   The exact condition: an honest step of a fresh feed leaves it fresh if and only if it does not
   record a crawl that parsed nothing, brings validators, and whose snapshot saw last a parse with
   other episodes than the last one has.
   */
  lemma FreshExactlyWhenHarmless(setup: Setup, s: System, e: Event, f: nat)
    requires setup.Valid() && GoodHash(setup.crawler) && Safe(setup, s) && Enabled(setup, s, e)
    requires FreshFeed(setup.crawler, s, f, 0) && HonestStep(setup.crawler, s, e, f)
    ensures FreshFeed(setup.crawler, Next(setup, s, e), f, 0) <==> HarmlessStep(s, e, f, 0)
  {
    if HarmlessStep(s, e, f, 0) {
      AnswersAreFresh(setup);
      FreshKept(setup, s, e, f, 0);
    } else {
      HarmfulStepSpoils(setup, s, e, f);
    }
  }

  /** A recorded parse makes the feed fresh again, whatever was recorded before or is under way. */
  lemma ParseRefreshes(setup: Setup, s: System, e: Event, f: nat)
    requires FreshAnswers(setup) && WellFormed(s) && EpisodesOfCrawled(s) && Enabled(setup, s, e)
    requires SoundFeed(setup.crawler, s, f) && RecordsParse(s, e, f)
    ensures FreshFeed(setup.crawler, Next(setup, s, e), f, |s.Trace().ParsesOf(f)| + 1)
  {
    var after, h := Next(setup, s, e), s.Trace().ParsesOf(f);
    SoundKept(setup, s, e, f);
    RowAround(setup, s, e, f);
    FreshAfterParse(setup.crawler, s.log, h, |h|, s.crawls[e.key], s.db.feeds[f], e.at);
    forall k | k in after.crawls && k.feed == f
      ensures FreshCrawl(setup.crawler, after.log, after.Trace().ParsesOf(f), |h| + 1, after.crawls[k])
    {
      CrawlsFollow(setup, s, e, k);
      assert SoundCrawl(setup.crawler, s.log, |h|, s.crawls[k]);
    }
  }

  // ---- Runs ----

  ghost predicate HonestFrom(setup: Setup, events: seq<Event>, f: nat, n: nat)
    requires Runs(setup, events)
  {
    |events| <= n ||
    var m := |events| - 1;
    HonestFrom(setup, events[..m], f, n) && HonestStep(setup.crawler, Final(setup, events[..m]), events[m], f)
  }

  /**
   Since step n, or since the parse with the number since was recorded after it, only harmless
   crawls were recorded.
   */
  ghost predicate HarmlessSince(setup: Setup, events: seq<Event>, f: nat, n: nat, since: nat)
    requires Runs(setup, events)
  {
    |events| <= n ||
    var m := |events| - 1;
    var s := Final(setup, events[..m]);
    || (RecordsParse(s, events[m], f) && since == |s.Trace().ParsesOf(f)| + 1)
    || (HarmlessStep(s, events[m], f, since) && HarmlessSince(setup, events[..m], f, n, since))
  }

  lemma {:induction false} SoundInEveryRun(setup: Setup, events: seq<Event>, f: nat, n: nat)
    requires setup.Valid() && GoodHash(setup.crawler) && Runs(setup, events) && n <= |events|
    requires SoundFeed(setup.crawler, StateAt(setup, events, n), f) && HonestFrom(setup, events, f, n)
    ensures SoundFeed(setup.crawler, Final(setup, events), f)
    decreases |events|
  {
    if n < |events| {
      var m := |events| - 1;
      SoundInEveryRun(setup, events[..m], f, n);
      EveryRunIsSafe(setup, events[..m]);
      AnswersAreFresh(setup);
      SoundKept(setup, Final(setup, events[..m]), events[m], f);
    }
  }

  /** Fresh once, honest and harmless since: fresh now. n = 0 is the empty catalogue. */
  lemma {:induction false} FreshInEveryRun(setup: Setup, events: seq<Event>, f: nat, n: nat, since: nat)
    requires setup.Valid() && GoodHash(setup.crawler) && Runs(setup, events) && n <= |events|
    requires FreshFeed(setup.crawler, StateAt(setup, events, n), f, since)
    requires HonestFrom(setup, events, f, n) && HarmlessSince(setup, events, f, n, since)
    ensures FreshFeed(setup.crawler, Final(setup, events), f, since)
    decreases |events|
  {
    if n < |events| {
      var m := |events| - 1;
      var s := Final(setup, events[..m]);
      EveryRunIsSafe(setup, events[..m]);
      AnswersAreFresh(setup);
      if RecordsParse(s, events[m], f) && since == |s.Trace().ParsesOf(f)| + 1 {
        SoundInEveryRun(setup, events[..m], f, n);
        ParseRefreshes(setup, s, events[m], f);
      } else {
        FreshInEveryRun(setup, events[..m], f, n, since);
        FreshKept(setup, s, events[m], f, since);
      }
    }
  }

  // ---- What is served ----

  /** The crawl is recorded, and it ended changed-and-stored or not modified. */
  ghost predicate EndsFresh(s: System, e: Event) {
    && e.Record? && Recorded(s, e, e.key.feed)
    && (s.crawls[e.key].answer.result.parsed || s.crawls[e.key].answer.fetched.outcome == NotModified)
  }

  /** What downloading and parsing the document would serve: the last item per key, in order. */
  ghost predicate ServesDocument(cfg: Config, document: string, list: seq<EpisodeRow>) {
    var parsed := ParseDocument(cfg.codec, document);
    parsed.Some? && History.Plain(list) == History.LastOccurrences(parsed.value.episodes)
  }

  lemma StoredIsServed(setup: Setup, run: seq<Event>, f: nat, document: string, list: seq<EpisodeRow>)
    requires setup.Valid() && Runs(setup, run) && f in Final(setup, run).db.feeds
    requires Stores(setup.crawler, Final(setup, run), f, document)
    requires IsEpisodesByFeed(Final(setup, run).db, f, list)
    ensures ServesDocument(setup.crawler, document, list)
  {
    EveryReadServesLastParse(setup, run, f, list);
  }

  lemma ParseStoresDocument(setup: Setup, s: System, e: Event, f: nat)
    requires WellFormed(s) && Enabled(setup, s, e) && SoundFeed(setup.crawler, s, f) && RecordsParse(s, e, f)
    ensures f in Next(setup, s, e).db.feeds
    ensures Stores(setup.crawler, Next(setup, s, e), f, s.crawls[e.key].answer.document)
  {
    var h := s.Trace().ParsesOf(f);
    RowsStay(setup, s, e, f);
    RowAround(setup, s, e, f);
    FreshAfterParse(setup.crawler, s.log, h, |h|, s.crawls[e.key], s.db.feeds[f], e.at);
  }

  lemma ConfirmationIsOfLast(cfg: Config, log: set<Issue>, h: History.Parses, since: nat, crawl: Crawl)
    requires FreshCrawl(cfg, log, h, since, crawl) && Confirms(crawl) && Harmless(h, since, crawl)
    ensures ParsedAs(cfg, h, |h|, crawl.answer.document)
  {
  }

  lemma ConfirmationStoresDocument(setup: Setup, s: System, e: Event, f: nat, since: nat)
    requires WellFormed(s) && Enabled(setup, s, e) && FreshFeed(setup.crawler, s, f, since)
    requires Recorded(s, e, f) && Confirms(s.crawls[e.key]) && HarmlessStep(s, e, f, since)
    ensures f in Next(setup, s, e).db.feeds
    ensures Stores(setup.crawler, Next(setup, s, e), f, s.crawls[e.key].answer.document)
  {
    RowsStay(setup, s, e, f);
    RowAround(setup, s, e, f);
    ConfirmationIsOfLast(setup.crawler, s.log, s.Trace().ParsesOf(f), since, s.crawls[e.key]);
  }

  /**
   After every recorded crawl that ended changed-and-stored or not modified, a read returns the
   parse of the document the server had, whatever overlapped, as long as the feed was fresh at
   some point and since then, or since a parse recorded after it, only harmless crawls were
   recorded: skipping the parse on a 304 or an equal hash never changes what is served.
   */
  lemma CheapCrawlServesCurrentDocument(setup: Setup, run: seq<Event>, n: nat, since: nat, list: seq<EpisodeRow>)
    requires setup.Valid() && GoodHash(setup.crawler) && Runs(setup, run) && n < |run|
    requires
      var before, e := Final(setup, run[..|run| - 1]), run[|run| - 1];
      && EndsFresh(before, e)
      && FreshFeed(setup.crawler, StateAt(setup, run, n), e.key.feed, since)
      && HonestFrom(setup, run, e.key.feed, n) && HarmlessSince(setup, run, e.key.feed, n, since)
      && IsEpisodesByFeed(Final(setup, run).db, e.key.feed, list)
    ensures
      var before, e := Final(setup, run[..|run| - 1]), run[|run| - 1];
      ServesDocument(setup.crawler, before.crawls[e.key].answer.document, list)
  {
    var m := |run| - 1;
    var s, e := Final(setup, run[..m]), run[m];
    var f := e.key.feed;
    EveryRunIsSafe(setup, run[..m]);
    if RecordsParse(s, e, f) {
      SoundInEveryRun(setup, run[..m], f, n);
      ParseStoresDocument(setup, s, e, f);
    } else {
      FreshInEveryRun(setup, run[..m], f, n, since);
      ConfirmationStoresDocument(setup, s, e, f, since);
    }
    StoredIsServed(setup, run, f, s.crawls[e.key].answer.document, list);
  }

  /** The list a reader would get had the q-th parse been the last. */
  function ServedAfter(h: History.Parses, q: nat): seq<EpisodeUpsert>
    requires 0 < q <= |h|
  {
    History.LastOccurrences(h[q - 1])
  }

  lemma ConfirmationIsOfSnapshot(setup: Setup, s: System, e: Event, f: nat)
    requires FreshFeed(setup.crawler, s, f, 0) && Recorded(s, e, f) && Confirms(s.crawls[e.key])
    ensures ParsedAs(setup.crawler, s.Trace().ParsesOf(f), s.crawls[e.key].Snapshot().crawlSeq, s.crawls[e.key].answer.document)
  {
  }

  lemma ServesExactly(cfg: Config, h: History.Parses, q: nat, document: string, list: seq<EpisodeRow>)
    requires ParsedAs(cfg, h, q, document) && History.Plain(list) == History.Served(h)
    ensures ServesDocument(cfg, document, list) <==> ServedAfter(h, q) == ServedAfter(h, |h|)
  {
  }

  lemma ReadAfterRest(setup: Setup, run: seq<Event>, f: nat, list: seq<EpisodeRow>)
    requires setup.Valid() && run != [] && Runs(setup, run)
    requires
      var before, e := Final(setup, run[..|run| - 1]), run[|run| - 1];
      Recorded(before, e, f) && !before.crawls[e.key].answer.result.parsed
    requires IsEpisodesByFeed(Final(setup, run).db, f, list)
    ensures History.Plain(list) == History.Served(Final(setup, run[..|run| - 1]).Trace().ParsesOf(f))
  {
    var m := |run| - 1;
    EveryRunIsSafe(setup, run[..m]);
    RowsStay(setup, Final(setup, run[..m]), run[m], f);
    RowAround(setup, Final(setup, run[..m]), run[m], f);
    EveryReadServesLastParse(setup, run, f, list);
  }

  /**
   Exactly when it does: a crawl of a fresh feed that is recorded as not modified leaves reads of
   the server's document if and only if the parse its snapshot saw last serves what the last does.
   */
  lemma ConfirmationServesExactly(setup: Setup, run: seq<Event>, list: seq<EpisodeRow>)
    requires setup.Valid() && GoodHash(setup.crawler) && run != [] && Runs(setup, run)
    requires
      var before, e := Final(setup, run[..|run| - 1]), run[|run| - 1];
      && EndsFresh(before, e) && Confirms(before.crawls[e.key])
      && FreshFeed(setup.crawler, before, e.key.feed, 0)
      && IsEpisodesByFeed(Final(setup, run).db, e.key.feed, list)
    ensures
      var before, e := Final(setup, run[..|run| - 1]), run[|run| - 1];
      var h, q := before.Trace().ParsesOf(e.key.feed), before.crawls[e.key].Snapshot().crawlSeq;
      && 0 < q <= |h|
      && (ServesDocument(setup.crawler, before.crawls[e.key].answer.document, list) <==>
          ServedAfter(h, q) == ServedAfter(h, |h|))
  {
    var s, e := Final(setup, run[..|run| - 1]), run[|run| - 1];
    var crawl := s.crawls[e.key];
    ConfirmationIsOfSnapshot(setup, s, e, e.key.feed);
    ReadAfterRest(setup, run, e.key.feed, list);
    ServesExactly(setup.crawler, s.Trace().ParsesOf(e.key.feed), crawl.Snapshot().crawlSeq, crawl.answer.document, list);
  }

  // ---- What makes every record harmless ----

  /** At most one crawl of the feed is in flight. */
  ghost predicate Alone(s: System, f: nat) {
    forall j, k :: j in s.crawls && k in s.crawls && j.feed == k.feed == f ==> j == k
  }

  /** Every step from the n-th on finds at most one crawl of the feed in flight. */
  ghost predicate AloneFrom(setup: Setup, events: seq<Event>, f: nat, n: nat)
    requires Runs(setup, events)
  {
    |events| <= n ||
    var m := |events| - 1;
    AloneFrom(setup, events[..m], f, n) && Alone(Final(setup, events[..m]), f)
  }

  /** No parse of the feed was recorded since the snapshots of its crawls in flight. */
  ghost predicate AllCurrent(s: System, f: nat) {
    f in s.db.feeds ==>
      && s.db.feeds[f].crawlSeq == |s.Trace().ParsesOf(f)|
      && forall k :: k in s.crawls && k.feed == f ==> s.crawls[k].Snapshot().crawlSeq == |s.Trace().ParsesOf(f)|
  }

  lemma AllCurrentKept(setup: Setup, s: System, e: Event, f: nat)
    requires WellFormed(s) && EpisodesOfCrawled(s) && Enabled(setup, s, e) && AllCurrent(s, f) && Alone(s, f)
    ensures AllCurrent(Next(setup, s, e), f)
  {
    var after := Next(setup, s, e);
    if f in after.db.feeds {
      RowAround(setup, s, e, f);
      assert HasEpisodes(s, f) ==> f in s.db.feeds;
      CountAround(setup, s, e, f, after);
      forall k | k in after.crawls && k.feed == f
        ensures after.crawls[k].Snapshot().crawlSeq == |after.Trace().ParsesOf(f)|
      {
        CrawlsFollow(setup, s, e, k);
      }
    }
  }

  lemma FreeIsCurrent(setup: Setup, events: seq<Event>, f: nat)
    requires setup.Valid() && Runs(setup, events) && Free(Final(setup, events), f)
    ensures AllCurrent(Final(setup, events), f)
  {
    EveryRunReads(setup, events);
  }

  /** From any moment the feed has no crawl in flight, one crawl at a time is harmless. */
  lemma {:induction false} AloneIsHarmless(setup: Setup, events: seq<Event>, f: nat, n: nat)
    requires setup.Valid() && Runs(setup, events) && n <= |events|
    requires Free(StateAt(setup, events, n), f) && AloneFrom(setup, events, f, n)
    ensures HarmlessSince(setup, events, f, n, 0) && AllCurrent(Final(setup, events), f)
    decreases |events|
  {
    if n < |events| {
      var m := |events| - 1;
      AloneIsHarmless(setup, events[..m], f, n);
      EveryRunIsSafe(setup, events[..m]);
      AllCurrentKept(setup, Final(setup, events[..m]), events[m], f);
    } else {
      FreeIsCurrent(setup, events, f);
    }
  }

  /** The lease provides it. */
  lemma {:induction false} PoliteIsAlone(setup: Setup, events: seq<Event>, f: nat, n: nat)
    requires setup.Valid() && Runs(setup, events) && n <= |events|
    requires Free(StateAt(setup, events, n), f) && PoliteFrom(setup, events, f, n)
    ensures AloneFrom(setup, events, f, n)
    decreases |events|
  {
    if n < |events| {
      var m := |events| - 1;
      PoliteIsAlone(setup, events[..m], f, n);
      PoliteRunsAreExclusive(setup, events[..m], f, n);
    }
  }

  /**
   From any moment a fresh feed is free, crawls that end inside their leases keep the cheap crawl
   right, as long as no cold crawl of the feed is started.
   */
  lemma LeasedCrawlServesCurrentDocument(setup: Setup, run: seq<Event>, n: nat, list: seq<EpisodeRow>)
    requires setup.Valid() && GoodHash(setup.crawler) && Runs(setup, run) && n < |run|
    requires
      var before, e := Final(setup, run[..|run| - 1]), run[|run| - 1];
      && EndsFresh(before, e)
      && FreshFeed(setup.crawler, StateAt(setup, run, n), e.key.feed, 0) && Free(StateAt(setup, run, n), e.key.feed)
      && HonestFrom(setup, run, e.key.feed, n) && PoliteFrom(setup, run, e.key.feed, n)
      && IsEpisodesByFeed(Final(setup, run).db, e.key.feed, list)
    ensures
      var before, e := Final(setup, run[..|run| - 1]), run[|run| - 1];
      ServesDocument(setup.crawler, before.crawls[e.key].answer.document, list)
  {
    var f := run[|run| - 1].key.feed;
    PoliteIsAlone(setup, run, f, n);
    AloneIsHarmless(setup, run, f, n);
    CheapCrawlServesCurrentDocument(setup, run, n, 0, list);
  }

  /** Once the feed has been crawled with success no cold crawl can start: the leases are enough. */
  lemma CrawledFeedServesCurrentDocument(setup: Setup, run: seq<Event>, n: nat, list: seq<EpisodeRow>)
    requires setup.Valid() && GoodHash(setup.crawler) && Runs(setup, run) && n < |run|
    requires
      var before, e := Final(setup, run[..|run| - 1]), run[|run| - 1];
      var start := StateAt(setup, run, n);
      && EndsFresh(before, e)
      && FreshFeed(setup.crawler, start, e.key.feed, 0) && Free(start, e.key.feed)
      && e.key.feed in start.db.feeds && start.db.feeds[e.key.feed].lastSuccessAt.Some?
      && HonestFrom(setup, run, e.key.feed, n) && TimelyFrom(setup, run, e.key.feed, n)
      && IsEpisodesByFeed(Final(setup, run).db, e.key.feed, list)
    ensures
      var before, e := Final(setup, run[..|run| - 1]), run[|run| - 1];
      ServesDocument(setup.crawler, before.crawls[e.key].answer.document, list)
  {
    TimelyIsPolite(setup, run, run[|run| - 1].key.feed, n);
    LeasedCrawlServesCurrentDocument(setup, run, n, list);
  }

  // ---- First crawls may overlap ----

  /** A feed never crawled with success has no validators, in the table or in flight. */
  predicate Earned(feed: Feed) {
    feed.lastSuccessAt == None ==> NoValidators(feed)
  }

  ghost predicate EarnedEverywhere(s: System) {
    && (forall id :: id in s.db.feeds ==> Earned(s.db.feeds[id]))
    && (forall k :: k in s.crawls ==> EarnedBy(s.crawls[k]))
  }

  predicate EarnedBy(crawl: Crawl) {
    && Earned(crawl.Snapshot())
    && (crawl.Ready? ==> Earned(crawl.answer.result.feed))
    && (crawl.origin.Cold? ==> NoValidators(crawl.Snapshot()))
  }

  ghost predicate KeepEarned(setup: Setup) {
    forall a :: a in setup.answers && Earned(a.snapshot) ==> Earned(a.result.feed)
  }

  lemma ResultIsEarned(cfg: Config, snapshot: Feed, fetched: FetchResult, env: Env)
    ensures Earned(snapshot) ==> Earned(NextState(cfg, snapshot, fetched, env).feed)
  {
  }

  lemma AnswersKeepEarned(setup: Setup)
    requires setup.Valid()
    ensures KeepEarned(setup)
  {
    forall a | a in setup.answers && Earned(a.snapshot) ensures Earned(a.result.feed) {
      ResultIsEarned(setup.crawler, a.snapshot, a.fetched, a.env);
    }
  }

  lemma EarnedRowKept(setup: Setup, s: System, e: Event, id: nat, row: Feed)
    requires EarnedEverywhere(s) && RowStep(setup, s, e, id, row)
    ensures Earned(row)
  {
    assert Recorded(s, e, id) ==> EarnedBy(s.crawls[e.key]);
  }

  lemma EarnedCrawlKept(setup: Setup, s: System, e: Event, k: Key, crawl: Crawl, row: Feed)
    requires KeepEarned(setup) && EarnedEverywhere(s) && Earned(row) && CrawlStep(setup, s, e, k, crawl, row)
    ensures EarnedBy(crawl)
  {
    assert k in s.crawls ==> EarnedBy(s.crawls[k]);
  }

  lemma {:induction false} EarnedInEveryRun(setup: Setup, events: seq<Event>)
    requires setup.Valid() && Runs(setup, events)
    ensures EarnedEverywhere(Final(setup, events))
    decreases |events|
  {
    if events != [] {
      var m := |events| - 1;
      var s, after := Final(setup, events[..m]), Final(setup, events);
      EarnedInEveryRun(setup, events[..m]);
      EveryRunIsSafe(setup, events[..m]);
      AnswersKeepEarned(setup);
      forall id | id in after.db.feeds ensures Earned(after.db.feeds[id]) {
        RowsFollow(setup, s, events[m], id);
        EarnedRowKept(setup, s, events[m], id, after.db.feeds[id]);
      }
      forall k | k in after.crawls ensures EarnedBy(after.crawls[k]) {
        CrawlsFollow(setup, s, events[m], k);
        EarnedCrawlKept(setup, s, events[m], k, after.crawls[k], after.db.feeds[k.feed]);
      }
    }
  }

  /** So the cold crawl that activates a feed may overlap anything: recording it is harmless. */
  lemma ColdCrawlsAreHarmless(setup: Setup, events: seq<Event>, k: Key, h: History.Parses, since: nat)
    requires setup.Valid() && Runs(setup, events) && k in Final(setup, events).crawls
    requires Final(setup, events).crawls[k].Ready? && Final(setup, events).crawls[k].origin.Cold?
    ensures Harmless(h, since, Final(setup, events).crawls[k])
  {
    EarnedInEveryRun(setup, events);
    assert EarnedBy(Final(setup, events).crawls[k]);
  }
}

/**
 The whole engine as a state machine: crawler processes claiming feeds, the API seeding,
 requesting and crawling cold feeds from a stale snapshot, responses arriving, crawls being
 recorded or lost, and the clock, interleaved in any order.
 */
module Engine {
  import opened Prelude
  import opened Parse
  import opened Fetch
  import opened Catalogue
  import opened Crawler
  import opened Effects
  import History

  /** What a 2xx or 304 response to a request for the URL carried, and the document behind it. */
  datatype Issue = Issue(url: string, etag: string, lastModified: string, bodyHash: string, document: string)

  /** One evaluation of a crawl: what it saw and what it computed. document is the server's. */
  datatype Answer = Answer(
    db: Db, snapshot: Feed, response: Response, document: string, fetchedAt: int, env: Env,
    fetched: FetchResult, result: CrawlResult, issues: set<Issue>)

  function Issued(cfg: Config, url: string, response: Response, document: string): set<Issue> {
    if Usable(response, cfg.maxBody) then
      {Issue(url, response.etag, response.lastModified, cfg.codec.sha(response.body.content), document)}
    else if response.Response? && response.status == 304 then
      {Issue(url, response.etag, response.lastModified, "", document)}
    else {}
  }

  /** The answer is what Fetch and apply compute from the snapshot, the response and the tables. */
  ghost predicate IsAnswer(cfg: Config, a: Answer) {
    && a.fetched == ClassifyFor(cfg, a.snapshot, a.response, a.fetchedAt)
    && Observes(cfg, a.db, a.snapshot, a.fetched, a.env)
    && a.result == NextState(cfg, a.snapshot, a.fetched, a.env)
    && a.issues == Issued(cfg, a.snapshot.url, a.response, a.document)
  }

  /** answers are the evaluations the processes may perform. */
  datatype Setup = Setup(crawler: Config, lease: int, answers: iset<Answer>) {
    ghost predicate Valid() {
      && crawler.policy.Valid() && lease > 0
      && answers == iset a | IsAnswer(crawler, a)
    }
  }

  /** Why a crawl is under way: a claim with a lease, or an API request for a cold feed. */
  datatype Origin = Lease(until: int) | Cold

  /** A crawl in flight: waiting for the response, or with its result computed. */
  datatype Crawl =
    | Fetching(waiting: Feed, origin: Origin)
    | Ready(answer: Answer, origin: Origin)
  {
    function Snapshot(): Feed { if Fetching? then waiting else answer.snapshot }
  }

  /** The row locks of a claim between its subquery and its update. */
  datatype Hold = Hold(ids: set<nat>, start: int)

  /** retries holds the longest Retry-After each feed's server has asked for. */
  datatype System = System(
    db: Db, parses: map<nat, History.Parses>, now: int,
    claims: map<nat, Hold>, crawls: map<Key, Crawl>,
    log: set<Issue>, retries: map<nat, int>)
  {
    function LongestRetry(id: nat): int { if id in retries then retries[id] else 0 }

    function Trace(): History.Traced { History.Traced(db, parses) }

    predicate Locked(id: nat) {
      exists p :: p in claims && id in claims[p].ids
    }

    function LockedIds(): set<nat> {
      set p, id | p in claims && id in claims[p].ids :: id
    }
  }

  datatype Event =
    | Seed(url: string)
    | Request(id: nat, throttle: int)
    | LockDue(process: nat, limit: nat, skipped: set<nat>, ids: set<nat>)
    | FinishClaim(process: nat)
    | AbandonClaim(process: nat)
    | StartCold(process: nat, id: nat)
    | Respond(key: Key, answer: Answer)
    | Record(key: Key, at: int)
    | Crash(key: Key)
    | Tick(to: int)

  const START := System(Db(map[], map[], map[], 1), map[], 0, map[], map[], {}, map[])

  /**
   What can happen next. Statements on a row wait while a claim holds its lock; a claim skips
   the rows others have locked. A crawl is recorded as of the time its transaction began.
   */
  ghost predicate Enabled(setup: Setup, s: System, e: Event) {
    match e
    case Seed(url) => true
    case Request(id, throttle) => !s.Locked(id)
    case LockDue(p, limit, skipped, ids) =>
      && p !in s.claims
      && (forall k :: k in s.crawls ==> k.process != p)
      && IsClaim(s.db, s.now, limit, s.LockedIds() + skipped, ids)
    case FinishClaim(p) => p in s.claims
    case AbandonClaim(p) => p in s.claims
    case StartCold(p, id) =>
      id in s.db.feeds && s.db.feeds[id].NeverCrawled() && Key(p, id) !in s.crawls && p !in s.claims
    case Respond(k, a) =>
      && k in s.crawls && s.crawls[k].Fetching?
      && a in setup.answers && a.snapshot == s.crawls[k].waiting && a.db == s.db && a.env.now == s.now
    case Record(k, at) =>
      && k in s.crawls && s.crawls[k].Ready? && !s.Locked(k.feed)
      && s.crawls[k].answer.env.now <= at <= s.now
    case Crash(k) => k in s.crawls
    case Tick(to) => to >= s.now
  }

  /** The crawls a finished claim starts, each from the row as the claim returns it. */
  function Claimed(s: System, p: nat, lease: int): map<Key, Crawl>
    requires p in s.claims
  {
    var hold := s.claims[p];
    map id | id in hold.ids && id in s.db.feeds ::
      Key(p, id) := Fetching(Leased(s.db.feeds[id], hold.start, lease), Lease(hold.start + lease))
  }

  /** The statement a step runs against the tables, if any. */
  ghost function Statement(setup: Setup, s: System, e: Event): Option<History.Event>
    requires Enabled(setup, s, e)
  {
    match e
    case Seed(url) => Some(History.Seed(url, s.now))
    case Request(id, throttle) => Some(History.Request(id, throttle, s.now))
    case FinishClaim(p) => Some(History.Claim(s.claims[p].ids, s.claims[p].start, setup.lease))
    case Record(k, at) => Some(History.Record(s.crawls[k].answer.result, at))
    case _ => None
  }

  ghost function NextTrace(setup: Setup, s: System, e: Event): History.Traced
    requires Enabled(setup, s, e)
  {
    match Statement(setup, s, e)
    case Some(statement) => History.Step(s.Trace(), statement)
    case None => s.Trace()
  }

  ghost function NextClaims(setup: Setup, s: System, e: Event): map<nat, Hold>
    requires Enabled(setup, s, e)
  {
    match e
    case LockDue(p, limit, skipped, ids) => s.claims[p := Hold(ids, s.now)]
    case FinishClaim(p) => s.claims - {p}
    case AbandonClaim(p) => s.claims - {p}
    case _ => s.claims
  }

  ghost function NextCrawls(setup: Setup, s: System, e: Event): map<Key, Crawl>
    requires Enabled(setup, s, e)
  {
    match e
    case FinishClaim(p) => s.crawls + Claimed(s, p, setup.lease)
    case StartCold(p, id) => s.crawls[Key(p, id) := Fetching(s.db.feeds[id], Cold)]
    case Respond(k, a) => s.crawls[k := Ready(a, s.crawls[k].origin)]
    case Record(k, at) => s.crawls - {k}
    case Crash(k) => s.crawls - {k}
    case _ => s.crawls
  }

  function NextRetries(s: System, e: Event): map<nat, int> {
    if e.Respond?
    then s.retries[e.key.feed := Max(s.LongestRetry(e.key.feed), e.answer.fetched.retryAfter)]
    else s.retries
  }

  ghost function Next(setup: Setup, s: System, e: Event): System
    requires Enabled(setup, s, e)
  {
    var trace := NextTrace(setup, s, e);
    System(trace.db, trace.parses, if e.Tick? then e.to else s.now,
           NextClaims(setup, s, e), NextCrawls(setup, s, e),
           if e.Respond? then s.log + e.answer.issues else s.log,
           NextRetries(s, e))
  }

  ghost predicate Runs(setup: Setup, events: seq<Event>)
    decreases |events|, 0
  {
    events == [] ||
    var n := |events| - 1;
    Runs(setup, events[..n]) && Enabled(setup, Final(setup, events[..n]), events[n])
  }

  /** The state an interleaving leads to from the empty catalogue. */
  ghost function Final(setup: Setup, events: seq<Event>): System
    requires Runs(setup, events)
    decreases |events|, 1
  {
    if events == [] then START
    else Next(setup, Final(setup, events[..|events| - 1]), events[|events| - 1])
  }

  /** The state after the first n steps. */
  ghost function StateAt(setup: Setup, events: seq<Event>, n: nat): System
    requires Runs(setup, events) && n <= |events|
    decreases |events|
  {
    if n == |events| then Final(setup, events) else StateAt(setup, events[..|events| - 1], n)
  }

  // ---- What one step can do to each part of the state ----

  /** The references between the parts of the state. */
  ghost predicate WellFormed(s: System) {
    && s.db.Consistent()
    && (forall p :: p in s.claims ==> s.claims[p].ids <= s.db.feeds.Keys)
    && (forall k :: k in s.crawls ==> k.feed in s.db.feeds && s.crawls[k].Snapshot().id == k.feed)
    && (forall k :: k in s.crawls && s.crawls[k].Ready? ==> s.crawls[k].answer.result.feed.id == k.feed)
    && (forall p, k :: p in s.claims && k in s.crawls ==> k.process != p)
  }

  /** A crawl of the feed was recorded: its update was not refused. */
  ghost predicate Recorded(s: System, e: Event, id: nat) {
    && e.Record? && e.key.feed == id && !s.Locked(id)
    && e.key in s.crawls && s.crawls[e.key].Ready?
    && id in s.db.feeds
    && s.crawls[e.key].answer.env.now <= e.at <= s.now
    && UpdateError(s.db, s.crawls[e.key].answer.result.feed) == None
  }

  ghost predicate FinishedClaim(s: System, e: Event, id: nat) {
    e.FinishClaim? && e.process in s.claims && id in s.claims[e.process].ids
  }

  ghost predicate RowStep(setup: Setup, s: System, e: Event, id: nat, row: Feed) {
    if id !in s.db.feeds then e.Seed? && row == NewFeed(id, row.url, s.now)
    else if Recorded(s, e, id) then row == RowAfterCrawl(s.db.feeds[id], s.crawls[e.key].answer.result, e.at)
    else if FinishedClaim(s, e, id) then row == Leased(s.db.feeds[id], s.claims[e.process].start, setup.lease)
    else
      || row == s.db.feeds[id]
      || (e.Request? && e.id == id && !s.Locked(id) && row == Requested(s.db.feeds[id], s.now))
  }

  ghost predicate CrawlStep(setup: Setup, s: System, e: Event, k: Key, crawl: Crawl, row: Feed) {
    if k in s.crawls then
      if e.Respond? && e.key == k then
        && e.answer in setup.answers
        && s.crawls[k].Fetching? && e.answer.snapshot == s.crawls[k].waiting
        && e.answer.db == s.db && e.answer.env.now == s.now
        && crawl == Ready(e.answer, s.crawls[k].origin)
      else crawl == s.crawls[k] && !(e.Record? && e.key == k)
    else
      && crawl.Fetching? && crawl.waiting == row
      && match crawl.origin
         case Lease(until) =>
           && FinishedClaim(s, e, k.feed) && e.process == k.process
           && until == s.claims[e.process].start + setup.lease
         case Cold => e.StartCold? && k == Key(e.process, e.id) && row.NeverCrawled()
  }

  /** The locks of a claim were taken or are still held. */
  ghost predicate ClaimStep(s: System, e: Event, p: nat, hold: Hold) {
    || (p in s.claims && hold == s.claims[p] && !(e.FinishClaim? && e.process == p))
    || (e.LockDue? && e.process == p && hold == Hold(e.ids, s.now)
        && IsClaim(s.db, s.now, e.limit, s.LockedIds() + e.skipped, e.ids))
  }

  /** What the invariants need to know of a step, part by part. */
  ghost predicate Follows(setup: Setup, s: System, e: Event, after: System) {
    && after.db.Consistent()
    && (forall id :: id in s.db.feeds ==> id in after.db.feeds)
    && (forall id :: id in after.db.feeds ==> RowStep(setup, s, e, id, after.db.feeds[id]))
    && (forall k :: k in after.crawls ==> k.feed in after.db.feeds && CrawlStep(setup, s, e, k, after.crawls[k], after.db.feeds[k.feed]))
    && (forall p :: p in after.claims ==> ClaimStep(s, e, p, after.claims[p]))
    && (forall p, k :: p in after.claims && k in after.crawls ==> k.process != p)
    && after.now == (if e.Tick? then e.to else s.now) >= s.now
    && after.log == (if e.Respond? then s.log + e.answer.issues else s.log)
    && after.retries == NextRetries(s, e)
  }

  lemma RecordedRow(setup: Setup, s: System, e: Event, id: nat)
    requires WellFormed(s) && Enabled(setup, s, e) && e.Record? && id in NextTrace(setup, s, e).db.feeds
    ensures RowStep(setup, s, e, id, NextTrace(setup, s, e).db.feeds[id])
  {
  }

  lemma RowsFollow(setup: Setup, s: System, e: Event, id: nat)
    requires WellFormed(s) && Enabled(setup, s, e) && id in NextTrace(setup, s, e).db.feeds
    ensures RowStep(setup, s, e, id, NextTrace(setup, s, e).db.feeds[id])
  {
    if e.Record? {
      RecordedRow(setup, s, e, id);
    }
  }

  lemma RowsStay(setup: Setup, s: System, e: Event, id: nat)
    requires WellFormed(s) && Enabled(setup, s, e) && id in s.db.feeds
    ensures id in NextTrace(setup, s, e).db.feeds
  {
  }

  lemma NewCrawlFollows(setup: Setup, s: System, e: Event, k: Key)
    requires WellFormed(s) && Enabled(setup, s, e) && k in NextCrawls(setup, s, e) && k !in s.crawls
    requires k.feed in s.db.feeds && k.feed in NextTrace(setup, s, e).db.feeds
    ensures CrawlStep(setup, s, e, k, NextCrawls(setup, s, e)[k], NextTrace(setup, s, e).db.feeds[k.feed])
  {
    if e.FinishClaim? {
      RowsFollow(setup, s, e, k.feed);
    }
  }

  lemma CrawlsFollow(setup: Setup, s: System, e: Event, k: Key)
    requires WellFormed(s) && Enabled(setup, s, e) && k in NextCrawls(setup, s, e)
    ensures k.feed in NextTrace(setup, s, e).db.feeds
    ensures CrawlStep(setup, s, e, k, NextCrawls(setup, s, e)[k], NextTrace(setup, s, e).db.feeds[k.feed])
  {
    assert k.feed in s.db.feeds;
    RowsStay(setup, s, e, k.feed);
    if k !in s.crawls {
      NewCrawlFollows(setup, s, e, k);
    }
  }

  lemma ClaimsFollow(setup: Setup, s: System, e: Event, p: nat)
    requires WellFormed(s) && Enabled(setup, s, e) && p in NextClaims(setup, s, e)
    ensures ClaimStep(s, e, p, NextClaims(setup, s, e)[p])
    ensures forall k :: k in NextCrawls(setup, s, e) ==> k.process != p
  {
  }

  lemma RecordConsistent(db: Db, result: CrawlResult, now: int, parses: map<nat, History.Parses>)
    requires db.Consistent()
    ensures History.Step(History.Traced(db, parses), History.Record(result, now)).db.Consistent()
  {
    if ApplyCrawl(db, result, now).Ok? {
      ApplyCrawlConsistent(db, result, now);
    }
  }

  lemma NextConsistent(setup: Setup, s: System, e: Event)
    requires WellFormed(s) && Enabled(setup, s, e)
    ensures NextTrace(setup, s, e).db.Consistent()
  {
    match e
    case Seed(url) => UpsertFeedConsistent(s.db, url, s.now);
    case Request(id, throttle) => MarkRequestedConsistent(s.db, id, throttle, s.now);
    case FinishClaim(p) => LeaseAllConsistent(s.db, s.claims[p].ids, s.claims[p].start, setup.lease);
    case Record(k, at) => RecordConsistent(s.db, s.crawls[k].answer.result, at, s.parses);
    case _ =>
  }

  lemma StepFollows(setup: Setup, s: System, e: Event)
    requires WellFormed(s) && Enabled(setup, s, e)
    ensures Follows(setup, s, e, Next(setup, s, e))
  {
    var after := Next(setup, s, e);
    NextConsistent(setup, s, e);
    forall id | id in s.db.feeds ensures id in after.db.feeds {
      RowsStay(setup, s, e, id);
    }
    forall id | id in after.db.feeds ensures RowStep(setup, s, e, id, after.db.feeds[id]) {
      RowsFollow(setup, s, e, id);
    }
    forall k | k in after.crawls
      ensures k.feed in after.db.feeds && CrawlStep(setup, s, e, k, after.crawls[k], after.db.feeds[k.feed])
    {
      CrawlsFollow(setup, s, e, k);
    }
    forall p | p in after.claims
      ensures ClaimStep(s, e, p, after.claims[p]) && forall k :: k in after.crawls ==> k.process != p
    {
      ClaimsFollow(setup, s, e, p);
    }
  }

  /** Answers concern the feed they were computed for. */
  ghost predicate KeepIds(setup: Setup) {
    forall a :: a in setup.answers ==> a.result.feed.id == a.snapshot.id
  }

  lemma AnswersKeepIds(setup: Setup)
    requires setup.Valid()
    ensures KeepIds(setup)
  {
    forall a | a in setup.answers ensures a.result.feed.id == a.snapshot.id {
      ResultKeepsId(setup.crawler, a.snapshot, a.fetched, a.env);
    }
  }

  lemma WellFormedKept(setup: Setup, s: System, e: Event, after: System)
    requires KeepIds(setup) && WellFormed(s) && Follows(setup, s, e, after)
    ensures WellFormed(after)
  {
    forall k | k in after.crawls
      ensures after.crawls[k].Snapshot().id == k.feed
      ensures after.crawls[k].Ready? ==> after.crawls[k].answer.result.feed.id == k.feed
    {
      assert CrawlStep(setup, s, e, k, after.crawls[k], after.db.feeds[k.feed]);
    }
    forall p | p in after.claims ensures after.claims[p].ids <= after.db.feeds.Keys {
      assert ClaimStep(s, e, p, after.claims[p]);
      assert after.claims[p].ids <= s.db.feeds.Keys;
    }
  }
}

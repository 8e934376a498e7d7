/**
 What the lease buys: mutual exclusion on a feed, from any moment nobody has it, for as long as
 its crawls end before their lease does and no cold crawl is started on it. Both conditions are
 needed, step by step; the second one holds by itself once the feed has been crawled with success.
 */
module Leases {
  import opened Prelude
  import opened Catalogue
  import opened Fetch
  import opened Crawler
  import opened Effects
  import opened Engine
  import opened Safety

  /** The step outlasts no claim or lease on the feed. */
  ghost predicate Timely(setup: Setup, s: System, e: Event, f: nat) {
    e.Tick? ==>
      && (forall k :: k in s.crawls && k.feed == f && s.crawls[k].origin.Lease? ==> e.to < s.crawls[k].origin.until)
      && (forall p :: p in s.claims && f in s.claims[p].ids ==> e.to < s.claims[p].start + setup.lease)
  }

  /** Nor does it start a cold crawl on the feed. */
  ghost predicate Polite(setup: Setup, s: System, e: Event, f: nat) {
    Timely(setup, s, e, f) && !(e.StartCold? && e.id == f)
  }

  /** The steps from the n-th on are polite. */
  ghost predicate PoliteFrom(setup: Setup, events: seq<Event>, f: nat, n: nat)
    requires Runs(setup, events)
  {
    |events| <= n ||
    var m := |events| - 1;
    PoliteFrom(setup, events[..m], f, n) && Polite(setup, Final(setup, events[..m]), events[m], f)
  }

  /** The steps from the n-th on are timely. */
  ghost predicate TimelyFrom(setup: Setup, events: seq<Event>, f: nat, n: nat)
    requires Runs(setup, events)
  {
    |events| <= n ||
    var m := |events| - 1;
    TimelyFrom(setup, events[..m], f, n) && Timely(setup, Final(setup, events[..m]), events[m], f)
  }

  /** No crawl and no pending claim has the feed. */
  ghost predicate Free(s: System, f: nat) {
    && (forall k :: k in s.crawls ==> k.feed != f)
    && (forall p :: p in s.claims ==> f !in s.claims[p].ids)
  }

  /** The crawl holds a running lease that the row still records. */
  predicate Holds(s: System, k: Key)
    requires k in s.crawls && k.feed in s.db.feeds
  {
    var row := s.db.feeds[k.feed];
    && s.crawls[k].origin.Lease?
    && s.now < s.crawls[k].origin.until <= row.nextCheckAt && row.status != Dormant
  }

  /** At most one crawl or pending claim has the feed, and it holds it. */
  ghost predicate Exclusive(setup: Setup, s: System, f: nat) {
    && (forall j, k :: j in s.crawls && k in s.crawls && j.feed == k.feed == f ==> j == k)
    && (forall p, q :: p in s.claims && q in s.claims && f in s.claims[p].ids && f in s.claims[q].ids ==> p == q)
    && (forall k, p :: k in s.crawls && k.feed == f && p in s.claims ==> f !in s.claims[p].ids)
    && (forall k :: k in s.crawls && k.feed == f ==> f in s.db.feeds && Holds(s, k))
    && (forall p :: p in s.claims && f in s.claims[p].ids ==> s.claims[p].start <= s.now < s.claims[p].start + setup.lease)
  }

  /** A crawl on the feed after a step was there before or comes from the claim that held it. */
  lemma CrawlsOnFeed(setup: Setup, s: System, e: Event, after: System, f: nat, k: Key)
    requires Follows(setup, s, e, after) && Polite(setup, s, e, f)
    requires k in after.crawls && k.feed == f
    ensures k in s.crawls || (FinishedClaim(s, e, f) && k == Key(e.process, f))
  {
    assert CrawlStep(setup, s, e, k, after.crawls[k], after.db.feeds[k.feed]);
  }

  /** A claim on the feed after a step was there before or took a due feed nobody had locked. */
  lemma ClaimsOnFeed(setup: Setup, s: System, e: Event, after: System, f: nat, p: nat)
    requires Follows(setup, s, e, after)
    requires p in after.claims && f in after.claims[p].ids
    ensures
      || (p in s.claims && after.claims[p] == s.claims[p] && !(e.FinishClaim? && e.process == p))
      || (e.LockDue? && e.process == p && f in s.db.feeds && IsDue(s.db.feeds[f], s.now) && after.claims[p].start == s.now
          && forall q :: q in s.claims ==> f !in s.claims[q].ids)
  {
  }

  lemma ExclusiveCrawls(setup: Setup, s: System, e: Event, after: System, f: nat, j: Key, k: Key)
    requires Exclusive(setup, s, f) && Follows(setup, s, e, after) && Polite(setup, s, e, f)
    requires j in after.crawls && k in after.crawls && j.feed == k.feed == f
    ensures j == k
  {
    CrawlsOnFeed(setup, s, e, after, f, j);
    CrawlsOnFeed(setup, s, e, after, f, k);
  }

  lemma ExclusiveClaims(setup: Setup, s: System, e: Event, after: System, f: nat, p: nat, q: nat)
    requires Exclusive(setup, s, f) && Follows(setup, s, e, after)
    requires p in after.claims && q in after.claims && f in after.claims[p].ids && f in after.claims[q].ids
    ensures p == q
  {
  }

  lemma ExclusiveKinds(setup: Setup, s: System, e: Event, after: System, f: nat, k: Key, p: nat)
    requires Exclusive(setup, s, f) && Follows(setup, s, e, after) && Polite(setup, s, e, f)
    requires k in after.crawls && k.feed == f && p in after.claims
    ensures f !in after.claims[p].ids
  {
    CrawlsOnFeed(setup, s, e, after, f, k);
    assert k in s.crawls ==> Holds(s, k);
    if f in after.claims[p].ids {
      ClaimsOnFeed(setup, s, e, after, f, p);
    }
  }

  /** A feed in the rotation that the step neither claims nor records keeps its date. */
  lemma DateKept(setup: Setup, s: System, e: Event, after: System, f: nat)
    requires Follows(setup, s, e, after) && f in s.db.feeds && s.db.feeds[f].status != Dormant
    requires !Recorded(s, e, f) && !FinishedClaim(s, e, f)
    ensures after.db.feeds[f].nextCheckAt == s.db.feeds[f].nextCheckAt && after.db.feeds[f].status != Dormant
  {
  }

  /** A lease that was running still is, and nobody else has touched the row's date. */
  lemma OldHoldKept(setup: Setup, s: System, e: Event, after: System, f: nat, k: Key)
    requires Exclusive(setup, s, f) && Follows(setup, s, e, after) && Polite(setup, s, e, f)
    requires k in s.crawls && k in after.crawls && k.feed == f
    ensures Holds(after, k)
  {
    assert Holds(s, k);
    assert CrawlStep(setup, s, e, k, after.crawls[k], after.db.feeds[f]);
    assert !Recorded(s, e, f) && !FinishedClaim(s, e, f);
    DateKept(setup, s, e, after, f);
  }

  lemma NewHold(setup: Setup, s: System, e: Event, after: System, f: nat, k: Key)
    requires Lifecycle(s) && Exclusive(setup, s, f) && Follows(setup, s, e, after) && Polite(setup, s, e, f)
    requires k !in s.crawls && k in after.crawls && k.feed == f
    ensures Holds(after, k)
  {
    CrawlsOnFeed(setup, s, e, after, f, k);
    assert CrawlStep(setup, s, e, k, after.crawls[k], after.db.feeds[f]);
    assert InRotation(s.db.feeds[f]);
    assert RowStep(setup, s, e, f, after.db.feeds[f]);
  }

  lemma ExclusiveKept(setup: Setup, s: System, e: Event, after: System, f: nat)
    requires setup.lease > 0 && WellFormed(s) && Lifecycle(s)
    requires Exclusive(setup, s, f) && Follows(setup, s, e, after) && Polite(setup, s, e, f)
    ensures Exclusive(setup, after, f)
  {
    forall j, k | j in after.crawls && k in after.crawls && j.feed == k.feed == f ensures j == k {
      ExclusiveCrawls(setup, s, e, after, f, j, k);
    }
    forall p, q | p in after.claims && q in after.claims && f in after.claims[p].ids && f in after.claims[q].ids
      ensures p == q
    {
      ExclusiveClaims(setup, s, e, after, f, p, q);
    }
    forall k, p | k in after.crawls && k.feed == f && p in after.claims ensures f !in after.claims[p].ids {
      ExclusiveKinds(setup, s, e, after, f, k, p);
    }
    forall k | k in after.crawls && k.feed == f ensures Holds(after, k) {
      if k in s.crawls {
        OldHoldKept(setup, s, e, after, f, k);
      } else {
        NewHold(setup, s, e, after, f, k);
      }
    }
    forall p | p in after.claims && f in after.claims[p].ids
      ensures after.claims[p].start <= after.now < after.claims[p].start + setup.lease
    {
      ClaimsOnFeed(setup, s, e, after, f, p);
    }
  }

  /** From any moment at which nobody has the feed, polite steps keep it exclusive. */
  lemma {:induction false} PoliteRunsAreExclusive(setup: Setup, events: seq<Event>, f: nat, n: nat)
    requires setup.Valid() && Runs(setup, events) && n <= |events|
    requires Free(StateAt(setup, events, n), f) && PoliteFrom(setup, events, f, n)
    ensures Exclusive(setup, Final(setup, events), f)
    decreases |events|
  {
    if n < |events| {
      var m := |events| - 1;
      PoliteRunsAreExclusive(setup, events[..m], f, n);
      var s := Final(setup, events[..m]);
      EveryRunIsSafe(setup, events[..m]);
      StepFollows(setup, s, events[m]);
      ExclusiveKept(setup, s, events[m], Next(setup, s, events[m]), f);
    }
  }

  lemma HolderIsAlone(setup: Setup, s: System, f: nat, j: Key, k: Key)
    requires Exclusive(setup, s, f) && j in s.crawls && k in s.crawls && j.feed == k.feed == f
    ensures j == k && f in s.db.feeds && !IsDue(s.db.feeds[f], s.now)
  {
    assert Holds(s, k);
  }

  /**
   From any moment at which nobody has the feed, as long as the steps are polite, no two
   processes have it, and the one that has it is inside its lease, which the queue still shows.
   */
  lemma LeaseExcludes(setup: Setup, events: seq<Event>, f: nat, n: nat, j: Key, k: Key)
    requires setup.Valid() && Runs(setup, events) && n <= |events|
    requires Free(StateAt(setup, events, n), f) && PoliteFrom(setup, events, f, n)
    requires j in Final(setup, events).crawls && k in Final(setup, events).crawls && j.feed == k.feed == f
    ensures j == k
    ensures f in Final(setup, events).db.feeds && !IsDue(Final(setup, events).db.feeds[f], Final(setup, events).now)
  {
    PoliteRunsAreExclusive(setup, events, f, n);
    HolderIsAlone(setup, Final(setup, events), f, j, k);
  }

  // ---- Once a feed has been crawled with success ----

  /** The feed was crawled with success, and no crawl in flight would forget it. */
  ghost predicate Succeeded(s: System, f: nat) {
    && f in s.db.feeds && s.db.feeds[f].lastSuccessAt.Some?
    && forall k :: k in s.crawls && k.feed == f ==> Remembers(s.crawls[k])
  }

  predicate Remembers(crawl: Crawl) {
    && crawl.Snapshot().lastSuccessAt.Some?
    && (crawl.Ready? ==> crawl.answer.result.feed.lastSuccessAt.Some?)
  }

  ghost predicate KeepSuccess(setup: Setup) {
    forall a :: a in setup.answers && a.snapshot.lastSuccessAt.Some? ==> a.result.feed.lastSuccessAt.Some?
  }

  lemma SuccessIsKept(cfg: Config, snapshot: Feed, fetched: FetchResult, env: Env)
    ensures snapshot.lastSuccessAt.Some? ==> NextState(cfg, snapshot, fetched, env).feed.lastSuccessAt.Some?
  {
  }

  lemma AnswersKeepSuccess(setup: Setup)
    requires setup.Valid()
    ensures KeepSuccess(setup)
  {
    forall a | a in setup.answers && a.snapshot.lastSuccessAt.Some? ensures a.result.feed.lastSuccessAt.Some? {
      SuccessIsKept(setup.crawler, a.snapshot, a.fetched, a.env);
    }
  }

  lemma SucceededKept(setup: Setup, s: System, e: Event, f: nat)
    requires KeepSuccess(setup) && WellFormed(s) && Enabled(setup, s, e) && Succeeded(s, f)
    ensures Succeeded(Next(setup, s, e), f)
  {
    var after := Next(setup, s, e);
    RowsStay(setup, s, e, f);
    RowsFollow(setup, s, e, f);
    assert Recorded(s, e, f) ==> Remembers(s.crawls[e.key]);
    forall k | k in after.crawls && k.feed == f ensures Remembers(after.crawls[k]) {
      CrawlsFollow(setup, s, e, k);
      assert k in s.crawls ==> Remembers(s.crawls[k]);
    }
  }

  /** Then no cold crawl can start, so crawls that end inside their leases are polite enough. */
  lemma {:induction false} TimelyIsPolite(setup: Setup, events: seq<Event>, f: nat, n: nat)
    requires setup.Valid() && Runs(setup, events) && n <= |events|
    requires Succeeded(StateAt(setup, events, n), f) && TimelyFrom(setup, events, f, n)
    ensures PoliteFrom(setup, events, f, n) && Succeeded(Final(setup, events), f)
    decreases |events|
  {
    if n < |events| {
      var m := |events| - 1;
      TimelyIsPolite(setup, events[..m], f, n);
      EveryRunIsSafe(setup, events[..m]);
      AnswersKeepSuccess(setup);
      SucceededKept(setup, Final(setup, events[..m]), events[m], f);
    }
  }

  /**
   Once a feed has been crawled with success and nobody has it, the lease alone excludes: crawls
   need only end before their leases do.
   */
  lemma LeaseExcludesOnceCrawled(setup: Setup, events: seq<Event>, f: nat, n: nat, j: Key, k: Key)
    requires setup.Valid() && Runs(setup, events) && n <= |events|
    requires
      var s := StateAt(setup, events, n);
      Free(s, f) && f in s.db.feeds && s.db.feeds[f].lastSuccessAt.Some?
    requires TimelyFrom(setup, events, f, n)
    requires j in Final(setup, events).crawls && k in Final(setup, events).crawls && j.feed == k.feed == f
    ensures j == k
    ensures f in Final(setup, events).db.feeds && !IsDue(Final(setup, events).db.feeds[f], Final(setup, events).now)
  {
    TimelyIsPolite(setup, events, f, n);
    LeaseExcludes(setup, events, f, n, j, k);
  }

  // ---- Both conditions are needed ----

  lemma ColdCrawlBreaks(setup: Setup, s: System, p: nat, f: nat)
    requires Enabled(setup, s, StartCold(p, f))
    ensures !Exclusive(setup, Next(setup, s, StartCold(p, f)), f)
  {
    var after := Next(setup, s, StartCold(p, f));
    assert Key(p, f) in after.crawls && !after.crawls[Key(p, f)].origin.Lease?;
  }

  lemma OverrunBreaks(setup: Setup, s: System, to: int, f: nat)
    requires Enabled(setup, s, Tick(to)) && !Timely(setup, s, Tick(to), f)
    ensures !Exclusive(setup, Next(setup, s, Tick(to)), f)
  {
    var after := Next(setup, s, Tick(to));
    assert after.crawls == s.crawls && after.claims == s.claims && after.now == to;
  }

  /** A step of an exclusive feed keeps it exclusive if and only if it is polite. */
  lemma ExclusiveExactlyWhenPolite(setup: Setup, s: System, e: Event, f: nat)
    requires setup.Valid() && Safe(setup, s) && Exclusive(setup, s, f) && Enabled(setup, s, e)
    ensures Exclusive(setup, Next(setup, s, e), f) <==> Polite(setup, s, e, f)
  {
    if Polite(setup, s, e, f) {
      StepFollows(setup, s, e);
      ExclusiveKept(setup, s, e, Next(setup, s, e), f);
    } else {
      match e {
        case StartCold(p, id) => ColdCrawlBreaks(setup, s, p, f);
        case Tick(to) => OverrunBreaks(setup, s, to, f);
      }
    }
  }
}

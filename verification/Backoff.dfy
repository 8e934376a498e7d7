/**
 How the check interval of a feed develops over a run of the engine: backoff accumulates crawl by
 recorded crawl, and no interval leaves the configured range once it was set.
 */
module Backoff {
  import opened Prelude
  import opened Fetch
  import opened Catalogue
  import opened Schedule
  import opened Effects
  import opened Crawler
  import opened Engine
  import opened Safety
  import opened Leases
  import opened Freshness

  /** The answers whose crawls of the feed were recorded since the n-th step, in order. */
  ghost function RecordedSince(setup: Setup, events: seq<Event>, f: nat, n: nat): seq<Answer>
    requires Runs(setup, events)
  {
    if |events| <= n then []
    else
      var front, e := events[..|events| - 1], events[|events| - 1];
      RecordedSince(setup, front, f, n) +
      (if Recorded(Final(setup, front), e, f) then [Final(setup, front).crawls[e.key].answer] else [])
  }

  /** The crawl failed, and that did not use up the budget. */
  predicate FailsInBudget(cfg: Config, a: Answer) {
    && GoesWrong(cfg, a.snapshot, a.response)
    && !(a.response.Response? && a.response.status in {410, 429})
    && !(0 < cfg.policy.maxFailures <= a.snapshot.consecutiveFailures + 1)
  }

  /** The crawl found nothing new. */
  predicate IsQuiet(cfg: Config, a: Answer) {
    IsNothingNew(cfg, a.snapshot, a.response)
  }

  /** The row and the snapshots of its crawls in flight have the interval. */
  ghost predicate HasInterval(s: System, f: nat, interval: int) {
    && f in s.db.feeds && s.db.feeds[f].checkInterval == interval
    && forall k :: k in s.crawls && k.feed == f ==> s.crawls[k].Snapshot().checkInterval == interval
  }

  lemma IntervalFollows(setup: Setup, s: System, e: Event, after: System, f: nat, interval: int, next: int)
    requires Follows(setup, s, e, after) && HasInterval(s, f, interval) && Alone(s, f)
    requires if Recorded(s, e, f) then s.crawls[e.key].answer.result.feed.checkInterval == next else next == interval
    ensures HasInterval(after, f, next)
  {
    var row := after.db.feeds[f];
    assert RowStep(setup, s, e, f, row);
    forall k | k in after.crawls && k.feed == f ensures after.crawls[k].Snapshot().checkInterval == next {
      assert CrawlStep(setup, s, e, k, after.crawls[k], row);
    }
  }

  lemma IntervalOfDecision(cfg: Config, snapshot: Feed, response: Response, fetchedAt: int, env: Env, moves: bool, row: Feed)
    requires cfg.policy.Valid() && IsDraw(env.draw) && IsDecision(cfg, snapshot, response, fetchedAt, env, moves, row)
    requires moves ==> IsMove(cfg, snapshot, response)
    ensures
      var c := CurrentInterval(snapshot);
      && (IsNothingNew(cfg, snapshot, response) ==> row.checkInterval == Max(cfg.policy.min, Min(c + c / 2, cfg.policy.max)))
      && (GoesWrong(cfg, snapshot, response) && !(response.Response? && response.status in {410, 429})
          && !(0 < cfg.policy.maxFailures <= snapshot.consecutiveFailures + 1) ==>
            row.checkInterval == Max(cfg.policy.min, Min(2 * c, cfg.policy.max)))
      && (|| (row.checkInterval == snapshot.checkInterval && row.lastSuccessAt == snapshot.lastSuccessAt)
          || cfg.policy.min <= row.checkInterval <= cfg.policy.max)
  {
  }

  lemma IntervalOfAnswer(setup: Setup, a: Answer)
    requires setup.Valid() && a in setup.answers
    ensures FailsInBudget(setup.crawler, a) ==>
              a.result.feed.checkInterval == IntervalAfterError(setup.crawler.policy, a.snapshot.checkInterval)
    ensures IsQuiet(setup.crawler, a) ==>
              a.result.feed.checkInterval == IntervalAfterNoChange(setup.crawler.policy, a.snapshot.checkInterval)
    ensures IsPaced(setup.crawler.policy, a.snapshot) ==> IsPaced(setup.crawler.policy, a.result.feed)
  {
    var moves := IsMove(setup.crawler, a.snapshot, a.response) && !a.env.lookup.LookupFailed?;
    CrawlIsDecided(setup.crawler, a.snapshot, a.response, a.fetchedAt, a.env);
    IntervalOfDecision(setup.crawler, a.snapshot, a.response, a.fetchedAt, a.env, moves, a.result.feed);
    FactorsAreExact(setup.crawler.policy, a.snapshot.checkInterval);
  }

  /** What k such crawls in a row make of the interval. */
  function IntervalAfter(p: Policy, fails: bool, c: int, k: nat): int {
    if fails then ErrorBackoff(p, c, k) else QuietBackoff(p, c, k)
  }

  predicate IsOfKind(cfg: Config, fails: bool, a: Answer) {
    if fails then FailsInBudget(cfg, a) else IsQuiet(cfg, a)
  }

  function NextInterval(p: Policy, fails: bool, c: int): int {
    if fails then IntervalAfterError(p, c) else IntervalAfterNoChange(p, c)
  }

  lemma OneMoreCrawl(p: Policy, fails: bool, c: int, k: nat)
    ensures IntervalAfter(p, fails, c, k + 1) == NextInterval(p, fails, IntervalAfter(p, fails, c, k))
  {
  }

  lemma IntervalStep(setup: Setup, s: System, e: Event, after: System, f: nat, fails: bool, interval: int)
    requires setup.Valid() && Safe(setup, s) && Follows(setup, s, e, after) && Alone(s, f)
    requires HasInterval(s, f, interval)
    requires Recorded(s, e, f) ==> IsOfKind(setup.crawler, fails, s.crawls[e.key].answer)
    ensures HasInterval(after, f, if Recorded(s, e, f) then NextInterval(setup.crawler.policy, fails, interval) else interval)
  {
    if Recorded(s, e, f) {
      IntervalOfAnswer(setup, s.crawls[e.key].answer);
      IntervalFollows(setup, s, e, after, f, interval, NextInterval(setup.crawler.policy, fails, interval));
    } else {
      IntervalFollows(setup, s, e, after, f, interval, interval);
    }
  }

  lemma {:induction false} IntervalDevelops(setup: Setup, events: seq<Event>, f: nat, n: nat, c: int, fails: bool)
    requires setup.Valid() && Runs(setup, events) && n <= |events| && AloneFrom(setup, events, f, n)
    requires HasInterval(StateAt(setup, events, n), f, c)
    requires forall a :: a in RecordedSince(setup, events, f, n) ==> IsOfKind(setup.crawler, fails, a)
    ensures HasInterval(Final(setup, events), f,
                        IntervalAfter(setup.crawler.policy, fails, c, |RecordedSince(setup, events, f, n)|))
    decreases |events|
  {
    if n < |events| {
      var front, e := events[..|events| - 1], events[|events| - 1];
      var s, since := Final(setup, front), RecordedSince(setup, front, f, n);
      assert since <= RecordedSince(setup, events, f, n);
      IntervalDevelops(setup, front, f, n, c, fails);
      EveryRunIsSafe(setup, front);
      StepFollows(setup, s, e);
      IntervalStep(setup, s, e, Final(setup, events), f, fails, IntervalAfter(setup.crawler.policy, fails, c, |since|));
      OneMoreCrawl(setup.crawler.policy, fails, c, |since|);
    }
  }

  /**
   Backoff accumulates: from any step on, k recorded failures in a row of a feed crawled once at a
   time leave its row with 2^k times the interval it had, up to the maximum.
   */
  lemma FailuresAccumulate(setup: Setup, events: seq<Event>, f: nat, n: nat, c: int)
    requires setup.Valid() && Runs(setup, events) && n <= |events| && AloneFrom(setup, events, f, n)
    requires setup.crawler.policy.min <= c <= setup.crawler.policy.max
    requires HasInterval(StateAt(setup, events, n), f, c)
    requires forall a :: a in RecordedSince(setup, events, f, n) ==> FailsInBudget(setup.crawler, a)
    ensures
      var k, s := |RecordedSince(setup, events, f, n)|, Final(setup, events);
      f in s.db.feeds && s.db.feeds[f].checkInterval == Min(setup.crawler.policy.max, Pow2(k) * c)
  {
    IntervalDevelops(setup, events, f, n, c, true);
    ErrorBackoffClosedForm(setup.crawler.policy, c, |RecordedSince(setup, events, f, n)|);
  }

  /** So do checks that find nothing new, each of which lengthens the interval by half. */
  lemma QuietChecksAccumulate(setup: Setup, events: seq<Event>, f: nat, n: nat, c: int)
    requires setup.Valid() && Runs(setup, events) && n <= |events| && AloneFrom(setup, events, f, n)
    requires HasInterval(StateAt(setup, events, n), f, c)
    requires forall a :: a in RecordedSince(setup, events, f, n) ==> IsQuiet(setup.crawler, a)
    ensures
      var k, s := |RecordedSince(setup, events, f, n)|, Final(setup, events);
      f in s.db.feeds && s.db.feeds[f].checkInterval == QuietBackoff(setup.crawler.policy, c, k)
  {
    IntervalDevelops(setup, events, f, n, c, false);
  }

  // ---- The configured range ----

  /** In range, or still the six hours a feed starts with because no crawl of it succeeded. */
  predicate IsPaced(p: Policy, feed: Feed) {
    p.min <= feed.checkInterval <= p.max || (feed.checkInterval == 6 * HOUR && feed.NeverCrawled())
  }

  predicate CrawlIsPaced(p: Policy, crawl: Crawl) {
    IsPaced(p, crawl.Snapshot()) && (crawl.Ready? ==> IsPaced(p, crawl.answer.result.feed))
  }

  ghost predicate AllPaced(p: Policy, s: System) {
    && (forall id :: id in s.db.feeds ==> IsPaced(p, s.db.feeds[id]))
    && (forall k :: k in s.crawls ==> CrawlIsPaced(p, s.crawls[k]))
  }

  ghost predicate KeepPace(setup: Setup) {
    forall a :: a in setup.answers && IsPaced(setup.crawler.policy, a.snapshot) ==>
      IsPaced(setup.crawler.policy, a.result.feed)
  }

  lemma AnswersKeepPace(setup: Setup)
    requires setup.Valid()
    ensures KeepPace(setup)
  {
    forall a | a in setup.answers && IsPaced(setup.crawler.policy, a.snapshot)
      ensures IsPaced(setup.crawler.policy, a.result.feed)
    {
      IntervalOfAnswer(setup, a);
    }
  }

  lemma PacedRow(setup: Setup, s: System, e: Event, id: nat, row: Feed)
    requires AllPaced(setup.crawler.policy, s) && RowStep(setup, s, e, id, row)
    ensures IsPaced(setup.crawler.policy, row)
  {
    assert Recorded(s, e, id) ==> CrawlIsPaced(setup.crawler.policy, s.crawls[e.key]);
  }

  lemma PacedCrawl(setup: Setup, s: System, e: Event, k: Key, crawl: Crawl, row: Feed)
    requires KeepPace(setup) && AllPaced(setup.crawler.policy, s)
    requires IsPaced(setup.crawler.policy, row) && CrawlStep(setup, s, e, k, crawl, row)
    ensures CrawlIsPaced(setup.crawler.policy, crawl)
  {
    assert k in s.crawls ==> CrawlIsPaced(setup.crawler.policy, s.crawls[k]);
  }

  lemma PaceKept(setup: Setup, s: System, e: Event, after: System)
    requires KeepPace(setup) && AllPaced(setup.crawler.policy, s) && Follows(setup, s, e, after)
    ensures AllPaced(setup.crawler.policy, after)
  {
    forall id | id in after.db.feeds ensures IsPaced(setup.crawler.policy, after.db.feeds[id]) {
      PacedRow(setup, s, e, id, after.db.feeds[id]);
    }
    forall k | k in after.crawls ensures CrawlIsPaced(setup.crawler.policy, after.crawls[k]) {
      PacedCrawl(setup, s, e, k, after.crawls[k], after.db.feeds[k.feed]);
    }
  }

  /**
   In every reachable state, whatever overlapped, the interval of a feed that was ever crawled with
   success lies in the configured range; any other is there or at the six hours it started with.
   */
  lemma {:induction false} IntervalsStayInRange(setup: Setup, events: seq<Event>)
    requires setup.Valid() && Runs(setup, events)
    ensures AllPaced(setup.crawler.policy, Final(setup, events))
    decreases |events|
  {
    if events != [] {
      var front, e := events[..|events| - 1], events[|events| - 1];
      IntervalsStayInRange(setup, front);
      EveryRunIsSafe(setup, front);
      AnswersKeepPace(setup);
      StepFollows(setup, Final(setup, front), e);
      PaceKept(setup, Final(setup, front), e, Final(setup, events));
    }
  }
}

/**
 The failure budget over the life of one feed whose crawls do not overlap: what
 consecutive_failures and the dead status mean in terms of the outcomes so far.
 */
module FailureBudget {
  import opened Prelude
  import opened Fetch
  import opened Catalogue
  import opened Schedule
  import opened Crawler
  import opened Effects

  /** What happens to the row: a crawl from a fresh snapshot, or one of the other writers. */
  datatype Event =
    | Crawled(response: Response, fetchedAt: int, env: Env, recordedAt: int)
    | Claimed(now: int, lease: int)
    | Requested(throttle: int, now: int)

  function Step(cfg: Config, feed: Feed, e: Event): Feed {
    match e
    case Crawled(response, fetchedAt, env, recordedAt) =>
      RowAfterCrawl(feed, CrawlOf(cfg, feed, response, fetchedAt, env), recordedAt)
    case Claimed(now, lease) => Leased(feed, now, lease)
    case Requested(throttle, now) =>
      if TakesRequest(feed, throttle, now) then Catalogue.Requested(feed, now) else feed
  }

  function Replay(cfg: Config, feed: Feed, events: seq<Event>): Feed {
    if events == [] then feed
    else Step(cfg, Replay(cfg, feed, events[..|events| - 1]), events[|events| - 1])
  }

  /** How the documentation counts an outcome. */
  datatype Kind = Recovered | Failing | GoneForGood | Ignored | Stub

  function KindOf(cfg: Config, feed: Feed, e: Event): Kind {
    if !e.Crawled? then Ignored
    else if IsMove(cfg, feed, e.response) && !e.env.lookup.LookupFailed? then
      if e.env.lookup.Found? && e.env.lookup.id != feed.id then Stub else Recovered
    else if Reads(cfg, feed, e.response) || IsNothingNew(cfg, feed, e.response) then Recovered
    else if IsRedirect(e.response) || (e.response.Response? && e.response.status == 429) then Ignored
    else if e.response.Response? && e.response.status == 410 then GoneForGood
    else Failing
  }

  /** The kinds of the events, in order. */
  function Kinds(cfg: Config, feed: Feed, events: seq<Event>): seq<Kind> {
    if events == [] then []
    else
      var front := events[..|events| - 1];
      Kinds(cfg, feed, front) + [KindOf(cfg, Replay(cfg, feed, front), events[|events| - 1])]
  }

  /** The part since the last success or accepted move. */
  function Stretch(kinds: seq<Kind>): seq<Kind> {
    if kinds == [] || kinds[|kinds| - 1] == Recovered then []
    else Stretch(kinds[..|kinds| - 1]) + [kinds[|kinds| - 1]]
  }

  predicate IsFailure(k: Kind) {
    k == Failing || k == GoneForGood
  }

  function Failures(kinds: seq<Kind>): nat {
    if kinds == [] then 0
    else Failures(kinds[..|kinds| - 1]) + (if IsFailure(kinds[|kinds| - 1]) then 1 else 0)
  }

  lemma StepFollowsKind(cfg: Config, feed: Feed, e: Event)
    requires KindOf(cfg, feed, e) != Stub
    ensures
      var after := Step(cfg, feed, e);
      match KindOf(cfg, feed, e)
      case Recovered => after.consecutiveFailures == 0 && after.status == Active
      case Failing =>
        && after.consecutiveFailures == feed.consecutiveFailures + 1
        && (after.status == Dead <==> feed.status == Dead || IsDead(cfg.policy, after.consecutiveFailures))
      case GoneForGood => after.consecutiveFailures == feed.consecutiveFailures + 1 && after.status == Dead
      case _ => after.consecutiveFailures == feed.consecutiveFailures && (after.status == Dead <==> feed.status == Dead)
  {
    if e.Crawled? {
      CrawlIsEffect(cfg, feed, feed, e.response, e.fetchedAt, e.env, e.recordedAt);
    }
  }

  lemma StretchExtends(kinds: seq<Kind>, k: Kind)
    ensures Stretch(kinds + [k]) == if k == Recovered then [] else Stretch(kinds) + [k]
  {
  }

  lemma FailuresExtend(kinds: seq<Kind>, k: Kind)
    ensures Failures(kinds + [k]) == Failures(kinds) + (if IsFailure(k) then 1 else 0)
  {
  }

  /** The failures of the last stretch are counted; a 410 in it, or a used-up budget, is death. */
  predicate IsCounted(cfg: Config, feed: Feed, kinds: seq<Kind>) {
    var stretch := Stretch(kinds);
    && feed.consecutiveFailures == Failures(stretch)
    && (feed.status == Dead <==> GoneForGood in stretch || IsDead(cfg.policy, Failures(stretch)))
  }

  /** Outcomes that leave the count and the status of every such row right. */
  predicate KeepsCount(kinds: seq<Kind>, k: Kind) {
    k == Ignored || (k == Recovered && Failures(Stretch(kinds)) == 0)
  }

  lemma {:induction false} NoneGoneWithoutFailure(kinds: seq<Kind>)
    requires GoneForGood in kinds
    ensures Failures(kinds) > 0
  {
    if kinds[|kinds| - 1] != GoneForGood {
      NoneGoneWithoutFailure(kinds[..|kinds| - 1]);
    }
  }

  /** What a row that misses an outcome still counts. */
  lemma MissedOutcome(cfg: Config, feed: Feed, kinds: seq<Kind>, k: Kind)
    requires IsCounted(cfg, feed, kinds) && k != Stub
    ensures IsCounted(cfg, feed, kinds + [k]) <==> KeepsCount(kinds, k)
  {
    StretchExtends(kinds, k);
    FailuresExtend(Stretch(kinds), k);
    if GoneForGood in Stretch(kinds) {
      NoneGoneWithoutFailure(Stretch(kinds));
    }
  }

  lemma StepIsCounted(cfg: Config, feed: Feed, e: Event, kinds: seq<Kind>)
    requires IsCounted(cfg, feed, kinds) && KindOf(cfg, feed, e) != Stub
    ensures IsCounted(cfg, Step(cfg, feed, e), kinds + [KindOf(cfg, feed, e)])
  {
    StepFollowsKind(cfg, feed, e);
    StretchExtends(kinds, KindOf(cfg, feed, e));
    FailuresExtend(Stretch(kinds), KindOf(cfg, feed, e));
  }

  /**
   Until a feed becomes a redirect stub, consecutive_failures counts the failed, unparsable and
   410 crawls since the last success or accepted move; 429s and rejected moves do not count.
   The feed is dead exactly when that stretch holds a 410 or has used up a positive budget.
   */
  lemma {:induction false} BudgetOverTraces(cfg: Config, id: nat, url: string, born: int, events: seq<Event>)
    requires Stub !in Kinds(cfg, NewFeed(id, url, born), events)
    ensures
      var start := NewFeed(id, url, born);
      IsCounted(cfg, Replay(cfg, start, events), Kinds(cfg, start, events))
  {
    if events != [] {
      var start, front := NewFeed(id, url, born), events[..|events| - 1];
      BudgetOverTraces(cfg, id, url, born, front);
      StepIsCounted(cfg, Replay(cfg, start, front), events[|events| - 1], Kinds(cfg, start, front));
    }
  }

  // ---- How long a dead feed waits ----

  /** Even stretched by the jitter, an ordinary interval is shorter than the dead recheck. */
  predicate RecheckIsLonger(p: Policy) {
    p.Valid() && 10 * p.deadRecheck > 11 * p.max
  }

  lemma OrdinaryWaitIsShorter(p: Policy, interval: int, draw: real, delay: int)
    requires RecheckIsLonger(p) && IsDraw(draw) && 0 < interval <= p.max && IsJittered(interval, draw, delay)
    ensures delay < p.deadRecheck
  {
    JitteredIsShort(interval, draw, delay);
  }

  predicate WaitsInFull(cfg: Config, feed: Feed, e: Event)
    requires e.Crawled?
  {
    Step(cfg, feed, e).nextCheckAt == e.env.now + cfg.policy.deadRecheck
  }

  /** What makes a feed that stays dead wait the whole recheck: a 410, or a used-up budget ... */
  predicate EarnsFullWait(cfg: Config, feed: Feed, e: Event)
    requires e.Crawled?
  {
    match KindOf(cfg, feed, e)
    case GoneForGood => true
    case Failing => 0 < cfg.policy.maxFailures <= feed.consecutiveFailures + 1
    // ... or a 429 that asks for just that delay, or a date that was there before an unheeded move.
    case Ignored =>
      if e.response.Response? && e.response.status == 429 then
        IsRetryDelay(e.response.retryAfter, e.fetchedAt, cfg.policy.deadRecheck)
      else feed.nextCheckAt == e.env.now + cfg.policy.deadRecheck
    case _ => false
  }

  /** The row is what the crawl makes of the feed. */
  ghost predicate IsCrawled(cfg: Config, feed: Feed, e: Event, row: Feed)
    requires e.Crawled?
  {
    var moves := IsMove(cfg, feed, e.response) && !e.env.lookup.LookupFailed?;
    IsDecision(cfg, feed, e.response, e.fetchedAt, e.env, moves, row)
  }

  lemma StepIsCrawled(cfg: Config, feed: Feed, e: Event)
    requires e.Crawled?
    ensures IsCrawled(cfg, feed, e, Step(cfg, feed, e))
  {
    CrawlIsEffect(cfg, feed, feed, e.response, e.fetchedAt, e.env, e.recordedAt);
  }

  lemma ThrottledWait(cfg: Config, feed: Feed, e: Event, row: Feed)
    requires RecheckIsLonger(cfg.policy) && e.Crawled? && e.response.Response?
    requires IsThrottledRow(cfg, feed, e.response.retryAfter, e.fetchedAt, e.env, row)
    ensures row.nextCheckAt == e.env.now + cfg.policy.deadRecheck <==>
            IsRetryDelay(e.response.retryAfter, e.fetchedAt, cfg.policy.deadRecheck)
  {
    var asked :| IsRetryDelay(e.response.retryAfter, e.fetchedAt, asked) &&
      if asked > 0 then row.nextCheckAt == e.env.now + asked
      else cfg.policy.Valid() ==>
             row.nextCheckAt
             == e.env.now + Max(cfg.policy.min, Min(2 * CurrentInterval(feed), cfg.policy.max));
    if IsRetryDelay(e.response.retryAfter, e.fetchedAt, cfg.policy.deadRecheck) {
      RetryDelayIsUnique(e.response.retryAfter, e.fetchedAt, asked, cfg.policy.deadRecheck);
    }
  }

  lemma FailedWait(cfg: Config, feed: Feed, e: Event, row: Feed)
    requires RecheckIsLonger(cfg.policy) && e.Crawled? && IsDraw(e.env.draw)
    requires IsFailedRow(cfg, feed, e.response, e.env, row)
    ensures row.nextCheckAt == e.env.now + cfg.policy.deadRecheck <==>
            0 < cfg.policy.maxFailures <= feed.consecutiveFailures + 1
  {
    if !(0 < cfg.policy.maxFailures <= feed.consecutiveFailures + 1) {
      OrdinaryWaitIsShorter(cfg.policy, row.checkInterval, e.env.draw, row.nextCheckAt - e.env.now);
    }
  }

  lemma DeadRowWaits(cfg: Config, feed: Feed, e: Event, row: Feed)
    requires RecheckIsLonger(cfg.policy) && feed.status == Dead && e.Crawled? && IsDraw(e.env.draw)
    requires IsCrawled(cfg, feed, e, row)
    ensures row.status == Dead <==> KindOf(cfg, feed, e) !in {Recovered, Stub}
    ensures row.status == Dead ==>
              (row.nextCheckAt == e.env.now + cfg.policy.deadRecheck <==> EarnsFullWait(cfg, feed, e))
  {
    if KindOf(cfg, feed, e) == Failing {
      FailedWait(cfg, feed, e, row);
    } else if KindOf(cfg, feed, e) == Ignored && e.response.status == 429 {
      ThrottledWait(cfg, feed, e, row);
    }
  }

  /**
   A dead feed stays dead through everything but a success or a heeded move. A crawl that leaves it
   dead makes it wait the whole recheck if and only if it got a 410, or failed with the budget used
   up, or got a 429 that asks for just that delay, or an announced move was not acted on and the
   date was already that one. Everything else comes back sooner or later.
   */
  lemma DeadWaitsInFull(cfg: Config, feed: Feed, e: Event)
    requires RecheckIsLonger(cfg.policy) && feed.status == Dead && e.Crawled? && IsDraw(e.env.draw)
    ensures Step(cfg, feed, e).status == Dead <==> KindOf(cfg, feed, e) !in {Recovered, Stub}
    ensures Step(cfg, feed, e).status == Dead ==> (WaitsInFull(cfg, feed, e) <==> EarnsFullWait(cfg, feed, e))
  {
    StepIsCrawled(cfg, feed, e);
    DeadRowWaits(cfg, feed, e, Step(cfg, feed, e));
  }

  // ---- Dead feeds that come back early ----

  const POLICY := Policy(HOUR, 24 * HOUR, 720 * HOUR, 10)

  function Status(status: int, retryAfter: RetryHeader): Response {
    Response(status, "", "", None, retryAfter, Stream("", false))
  }

  function Crawl(response: Response, at: int): Event {
    Crawled(response, at, Env(at, 0.5, LookupFailed, []), at)
  }

  lemma EvenDraw(d: int)
    requires d > 0
    ensures Jitter(d, 0.5) == d
  {
    assert Spread(d as real, 0.5) == d as real;
  }

  /** A 410 and then a 500: dead all along, and due again after twelve hours. */
  lemma GoneThenFailing(cfg: Config, at: int)
    requires cfg.policy == POLICY
    ensures
      var events := [Crawl(Status(410, Absent), 0), Crawl(Status(500, Absent), at)];
      var feed := Replay(cfg, NewFeed(1, "", 0), events);
      feed.status == Dead && feed.nextCheckAt == at + 12 * HOUR < at + POLICY.deadRecheck
  {
    var gone, failing := Crawl(Status(410, Absent), 0), Crawl(Status(500, Absent), at);
    assert [gone, failing][..1] == [gone] && [gone][..0] == [];
    assert Replay(cfg, NewFeed(1, "", 0), [gone]) == Step(cfg, NewFeed(1, "", 0), gone);
    EvenDraw(12 * HOUR);
  }

  /** A dead feed that gets a 429 with Retry-After: 60 is due after a minute. */
  lemma DeadThenRateLimited(cfg: Config, feed: Feed, at: int)
    requires feed.status == Dead
    ensures
      var after := Step(cfg, feed, Crawl(Status(429, Seconds(60)), at));
      after.status == Dead && after.nextCheckAt == at + 60 * SECOND
  {
  }

  /** A dead feed that answers 301 while the target cannot be looked up keeps its date. */
  lemma DeadThenUnheeded(cfg: Config, feed: Feed, target: string, at: int)
    requires feed.status == Dead
    ensures
      var after := Step(cfg, feed, Crawl(Response(301, "", "", Some(target), Absent, Stream("", false)), at));
      after.status == Dead && after.nextCheckAt == feed.nextCheckAt
  {
  }
}

/**
 The failure budget in the engine: one crawl of a feed at a time is enough for its row to count
 what its crawls came to, whatever else is interleaved.
 */
module EngineBudget {
  import opened Prelude
  import opened Catalogue
  import opened Crawler
  import opened Effects
  import opened Engine
  import opened Safety
  import opened Leases
  import opened Freshness
  import B = FailureBudget

  /** The crawl that was recorded, seen as one of the snapshot it was computed from. */
  function Replayed(a: Answer, at: int): B.Event {
    B.Crawled(a.response, a.fetchedAt, a.env, at)
  }

  /** What the step records of the feed, if anything. */
  ghost function Outcome(cfg: Config, s: System, e: Event, f: nat): seq<B.Kind> {
    if Recorded(s, e, f) then
      var a := s.crawls[e.key].answer;
      [B.KindOf(cfg, a.snapshot, Replayed(a, e.at))]
    else []
  }

  /** What the recorded crawls of the feed came to, in the order they were recorded. */
  ghost function Outcomes(setup: Setup, events: seq<Event>, f: nat): seq<B.Kind>
    requires Runs(setup, events)
  {
    if events == [] then []
    else
      var front := events[..|events| - 1];
      Outcomes(setup, front, f) + Outcome(setup.crawler, Final(setup, front), events[|events| - 1], f)
  }

  /** The row counts them, and so do the snapshots of its crawls in flight. */
  ghost predicate Counts(cfg: Config, s: System, f: nat, kinds: seq<B.Kind>) {
    if f in s.db.feeds then
      && B.IsCounted(cfg, s.db.feeds[f], kinds)
      && forall k :: k in s.crawls && k.feed == f ==> B.IsCounted(cfg, s.crawls[k].Snapshot(), kinds)
    else kinds == []
  }

  lemma RecordCounts(setup: Setup, s: System, e: Event, f: nat, kinds: seq<B.Kind>)
    requires setup.Valid() && AnswersInFlight(setup, s) && Recorded(s, e, f) && Counts(setup.crawler, s, f, kinds)
    requires B.Stub !in Outcome(setup.crawler, s, e, f)
    ensures
      var row := RowAfterCrawl(s.db.feeds[f], s.crawls[e.key].answer.result, e.at);
      B.IsCounted(setup.crawler, row, kinds + Outcome(setup.crawler, s, e, f))
  {
    var a := s.crawls[e.key].answer;
    assert IsAnswer(setup.crawler, a);
    B.StepIsCounted(setup.crawler, a.snapshot, Replayed(a, e.at), kinds);
  }

  lemma RowCounts(setup: Setup, s: System, e: Event, f: nat, row: Feed, kinds: seq<B.Kind>)
    requires setup.Valid() && AnswersInFlight(setup, s) && Counts(setup.crawler, s, f, kinds)
    requires B.Stub !in Outcome(setup.crawler, s, e, f) && RowStep(setup, s, e, f, row)
    ensures B.IsCounted(setup.crawler, row, kinds + Outcome(setup.crawler, s, e, f))
  {
    if Recorded(s, e, f) {
      RecordCounts(setup, s, e, f, kinds);
    } else {
      assert kinds + [] == kinds;
    }
  }

  /** A recorded outcome that the other crawls of the feed in flight miss does not matter to them. */
  ghost predicate Tallied(cfg: Config, s: System, e: Event, f: nat, kinds: seq<B.Kind>) {
    Recorded(s, e, f) && (exists k :: k in s.crawls && k != e.key && k.feed == f) ==>
      B.KeepsCount(kinds, Outcome(cfg, s, e, f)[0])
  }

  lemma CrawlCounts(setup: Setup, s: System, e: Event, k: Key, crawl: Crawl, row: Feed, kinds: seq<B.Kind>)
    requires Counts(setup.crawler, s, k.feed, kinds) && Tallied(setup.crawler, s, e, k.feed, kinds)
    requires B.Stub !in Outcome(setup.crawler, s, e, k.feed)
    requires k.feed in s.db.feeds && CrawlStep(setup, s, e, k, crawl, row)
    requires B.IsCounted(setup.crawler, row, kinds + Outcome(setup.crawler, s, e, k.feed))
    ensures B.IsCounted(setup.crawler, crawl.Snapshot(), kinds + Outcome(setup.crawler, s, e, k.feed))
  {
    if k in s.crawls {
      if Recorded(s, e, k.feed) {
        B.MissedOutcome(setup.crawler, crawl.Snapshot(), kinds, Outcome(setup.crawler, s, e, k.feed)[0]);
      } else {
        assert kinds + [] == kinds;
      }
    }
  }

  lemma CountsKept(setup: Setup, s: System, e: Event, after: System, f: nat, kinds: seq<B.Kind>)
    requires setup.Valid() && Safe(setup, s) && Follows(setup, s, e, after) && Counts(setup.crawler, s, f, kinds)
    requires Tallied(setup.crawler, s, e, f, kinds) && B.Stub !in Outcome(setup.crawler, s, e, f)
    ensures Counts(setup.crawler, after, f, kinds + Outcome(setup.crawler, s, e, f))
  {
    if f in after.db.feeds {
      RowCounts(setup, s, e, f, after.db.feeds[f], kinds);
      forall k | k in after.crawls && k.feed == f
        ensures B.IsCounted(setup.crawler, after.crawls[k].Snapshot(), kinds + Outcome(setup.crawler, s, e, f))
      {
        CrawlCounts(setup, s, e, k, after.crawls[k], after.db.feeds[f], kinds);
      }
    }
  }

  lemma OthersStay(setup: Setup, s: System, e: Event, k: Key)
    requires WellFormed(s) && Enabled(setup, s, e) && e.Record? && k in s.crawls && k != e.key
    ensures
      var after := Next(setup, s, e);
      k in after.crawls && after.crawls[k] == s.crawls[k] && k.feed in after.db.feeds
  {
    RowsStay(setup, s, e, k.feed);
  }

  lemma UntalliedMiscounts(setup: Setup, s: System, e: Event, f: nat, kinds: seq<B.Kind>)
    requires Safe(setup, s) && Enabled(setup, s, e) && Counts(setup.crawler, s, f, kinds)
    requires !Tallied(setup.crawler, s, e, f, kinds) && B.Stub !in Outcome(setup.crawler, s, e, f)
    ensures !Counts(setup.crawler, Next(setup, s, e), f, kinds + Outcome(setup.crawler, s, e, f))
  {
    var k :| k in s.crawls && k != e.key && k.feed == f;
    OthersStay(setup, s, e, k);
    B.MissedOutcome(setup.crawler, s.crawls[k].Snapshot(), kinds, Outcome(setup.crawler, s, e, f)[0]);
  }

  /**
   Short of a redirect stub, a step keeps the row and the crawls in flight counting if and only if
   no other crawl of the feed misses a failure, or the end of a stretch that had one.
   */
  lemma CountsExactlyWhenTallied(setup: Setup, s: System, e: Event, f: nat, kinds: seq<B.Kind>)
    requires setup.Valid() && Safe(setup, s) && Enabled(setup, s, e) && Counts(setup.crawler, s, f, kinds)
    requires B.Stub !in Outcome(setup.crawler, s, e, f)
    ensures Counts(setup.crawler, Next(setup, s, e), f, kinds + Outcome(setup.crawler, s, e, f)) <==>
            Tallied(setup.crawler, s, e, f, kinds)
  {
    if Tallied(setup.crawler, s, e, f, kinds) {
      StepFollows(setup, s, e);
      CountsKept(setup, s, e, Next(setup, s, e), f, kinds);
    } else {
      UntalliedMiscounts(setup, s, e, f, kinds);
    }
  }

  ghost predicate AllTallied(setup: Setup, events: seq<Event>, f: nat)
    requires Runs(setup, events)
  {
    events == [] ||
    var front := events[..|events| - 1];
    && AllTallied(setup, front, f)
    && Tallied(setup.crawler, Final(setup, front), events[|events| - 1], f, Outcomes(setup, front, f))
  }

  /**
   In any run all of whose records are tallied, and that makes the feed no redirect stub, the row
   counts the failures since its last success or accepted move, and is dead exactly when one of
   them was a 410 or they have used up a positive budget.
   */
  lemma {:induction false} BudgetInEveryRun(setup: Setup, events: seq<Event>, f: nat)
    requires setup.Valid() && Runs(setup, events) && AllTallied(setup, events, f)
    requires B.Stub !in Outcomes(setup, events, f)
    ensures Counts(setup.crawler, Final(setup, events), f, Outcomes(setup, events, f))
    decreases |events|
  {
    if events != [] {
      var front := events[..|events| - 1];
      BudgetInEveryRun(setup, front, f);
      EveryRunIsSafe(setup, front);
      CountsExactlyWhenTallied(setup, Final(setup, front), events[|events| - 1], f, Outcomes(setup, front, f));
    }
  }

  /** One crawl of the feed at a time is tallied. */
  lemma {:induction false} LoneCrawlsAreTallied(setup: Setup, events: seq<Event>, f: nat)
    requires Runs(setup, events) && AloneFrom(setup, events, f, 0)
    ensures AllTallied(setup, events, f)
    decreases |events|
  {
    if events != [] {
      LoneCrawlsAreTallied(setup, events[..|events| - 1], f);
    }
  }

  lemma {:induction false} StartsAtStart(setup: Setup, events: seq<Event>)
    requires Runs(setup, events)
    ensures StateAt(setup, events, 0) == START
    decreases |events|
  {
    if events != [] {
      StartsAtStart(setup, events[..|events| - 1]);
    }
  }

  /** The budget of a feed whose crawls end inside their leases and that is never crawled cold. */
  lemma LeasedBudget(setup: Setup, events: seq<Event>, f: nat)
    requires setup.Valid() && Runs(setup, events) && PoliteFrom(setup, events, f, 0)
    requires B.Stub !in Outcomes(setup, events, f)
    ensures Counts(setup.crawler, Final(setup, events), f, Outcomes(setup, events, f))
  {
    StartsAtStart(setup, events);
    PoliteIsAlone(setup, events, f, 0);
    LoneCrawlsAreTallied(setup, events, f);
    BudgetInEveryRun(setup, events, f);
  }
}

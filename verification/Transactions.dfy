/**
 ApplyCrawl taken apart into its statements. Any number of these transactions are open at once,
 each computed from whatever snapshot its worker held, interleaved with the other statements of
 the store. An open transaction's writes are visible to itself only; what keeps the steps from
 mixing are the row lock of the feed update and the unique key on URLs.
 */
module Transactions {
  import opened Prelude
  import opened Parse
  import opened Catalogue
  import History

  /** The writes of an open transaction to the episodes of its feed. */
  datatype Overlay = Overlay(puts: Rows, deleted: set<string>) {
    /** What the transaction itself sees on top of the committed rows. */
    function Over(rows: Rows): Rows {
      map guid | guid in rows.Keys + puts.Keys && guid !in deleted :: if guid in puts then puts[guid] else rows[guid]
    }

    function Put(row: EpisodeRow): Overlay {
      Overlay(puts[row.episode.guid := row], deleted - {row.episode.guid})
    }

    function Delete(guids: set<string>): Overlay {
      Overlay(puts, deleted + guids)
    }
  }

  const NO_WRITES := Overlay(map[], {})

  datatype Stage =
    | Begun
    | Updated(row: Feed, upserted: nat, pruned: bool, writes: Overlay)

  datatype Transaction = Transaction(result: CrawlResult, now: int, stage: Stage) {
    function Feed(): nat { result.feed.id }
  }

  datatype System = System(db: Db, open: map<Key, Transaction>) {
    /** The transaction has updated its feed and so locked the row. */
    predicate Holds(t: Key) { t in open && open[t].stage.Updated? }

    predicate Locks(t: Key, id: nat) { Holds(t) && open[t].Feed() == id }

    predicate Locked(id: nat) { exists t :: t in open && Locks(t, id) }

    /** The transaction's uncommitted update put the URL into the unique index, or takes it out. */
    predicate Reserves(t: Key, url: string) {
      && Holds(t)
      && (open[t].result.feed.url == url || (open[t].Feed() in db.feeds && db.feeds[open[t].Feed()].url == url))
    }

    predicate Reserved(url: string) { exists t :: t in open && Reserves(t, url) }

    /** The episodes of its feed as an updated transaction sees them. */
    function Visible(t: Key): Rows
      requires Holds(t)
    {
      open[t].stage.writes.Over(db.RowsOf(open[t].Feed()))
    }
  }

  datatype Event =
    | Begin(t: Key, result: CrawlResult, now: int)
    | Update(t: Key)
    | Upsert(t: Key)
    | Prune(t: Key)
    | Commit(t: Key)
    | Abort(t: Key)
    | Statement(statement: History.Event)

  const START := System(Db(map[], map[], map[], 1), map[])

  /** A statement waits for the row locks and the pending index entries in its way. */
  predicate Enabled(s: System, e: Event) {
    match e
    case Begin(t, result, now) => t !in s.open
    case Update(t) =>
      t in s.open && s.open[t].stage.Begun? && !s.Locked(s.open[t].Feed()) && !s.Reserved(s.open[t].result.feed.url)
    case Upsert(t) =>
      && s.Holds(t) && TouchesEpisodes(s.open[t].result)
      && s.open[t].stage.upserted < |s.open[t].result.episodes|
    case Prune(t) =>
      && s.Holds(t) && TouchesEpisodes(s.open[t].result)
      && s.open[t].stage.upserted == |s.open[t].result.episodes| && !s.open[t].stage.pruned
    case Commit(t) => s.Holds(t) && (TouchesEpisodes(s.open[t].result) ==> s.open[t].stage.pruned)
    case Abort(t) => t in s.open
    case Statement(Seed(url, now)) => !s.Reserved(url)
    case Statement(Request(id, throttle, now)) => !s.Locked(id)
    case Statement(Claim(ids, now, lease)) => forall id :: id in ids ==> !s.Locked(id)
    case Statement(Record(result, now)) => false
  }

  /** UPDATE feeds: a refused update rolls the transaction back. */
  function AfterUpdate(s: System, t: Key): System
    requires t in s.open
  {
    var tx := s.open[t];
    if UpdateError(s.db, tx.result.feed) != None then s.(open := s.open - {t})
    else
      var row := RowAfterCrawl(s.db.feeds[tx.Feed()], tx.result, tx.now);
      s.(open := s.open[t := tx.(stage := Updated(row, 0, false, NO_WRITES))])
  }

  /** One INSERT ... ON CONFLICT DO UPDATE into episodes. */
  function AfterUpsert(tx: Transaction): Transaction
    requires tx.stage.Updated? && tx.stage.upserted < |tx.result.episodes|
  {
    var e := tx.result.episodes[tx.stage.upserted];
    tx.(stage := tx.stage.(upserted := tx.stage.upserted + 1,
                           writes := tx.stage.writes.Put(EpisodeRow(e, tx.stage.row.crawlSeq))))
  }

  /** DELETE FROM episodes: the rows it sees that are out of grace. */
  function AfterPrune(tx: Transaction, visible: Rows): Transaction
    requires tx.stage.Updated?
  {
    var stale := set guid | guid in visible && OutOfGrace(visible[guid], tx.stage.row.crawlSeq, tx.result.pruneGrace);
    tx.(stage := tx.stage.(pruned := true, writes := tx.stage.writes.Delete(stale)))
  }

  /** The commit publishes the row and the writes. */
  function AfterCommit(s: System, t: Key): System
    requires s.Holds(t)
  {
    var tx := s.open[t];
    System(s.db.(feeds := s.db.feeds[tx.Feed() := tx.stage.row],
                 episodes := if tx.stage.upserted == 0 then s.db.episodes else s.db.episodes[tx.Feed() := s.Visible(t)]),
           s.open - {t})
  }

  ghost function Next(s: System, e: Event): System
    requires Enabled(s, e)
  {
    match e
    case Begin(t, result, now) => s.(open := s.open[t := Transaction(result, now, Begun)])
    case Update(t) => AfterUpdate(s, t)
    case Upsert(t) => s.(open := s.open[t := AfterUpsert(s.open[t])])
    case Prune(t) => s.(open := s.open[t := AfterPrune(s.open[t], s.Visible(t))])
    case Commit(t) => AfterCommit(s, t)
    case Abort(t) => s.(open := s.open - {t})
    case Statement(statement) => s.(db := History.Step(History.Traced(s.db, map[]), statement).db)
  }

  ghost predicate Runs(events: seq<Event>)
    decreases |events|, 0
  {
    events == [] ||
    var n := |events| - 1;
    Runs(events[..n]) && Enabled(Final(events[..n]), events[n])
  }

  ghost function Final(events: seq<Event>): System
    requires Runs(events)
    decreases |events|, 1
  {
    if events == [] then START
    else Next(Final(events[..|events| - 1]), events[|events| - 1])
  }

  /** What a step publishes: a whole crawl when it commits, nothing before. */
  function Published(s: System, e: Event): seq<History.Event>
    requires Enabled(s, e)
  {
    match e
    case Commit(t) => [History.Record(s.open[t].result, s.open[t].now)]
    case Statement(statement) => [statement]
    case _ => []
  }

  ghost function Log(events: seq<Event>): seq<History.Event>
    requires Runs(events)
  {
    if events == [] then []
    else
      var n := |events| - 1;
      Log(events[..n]) + Published(Final(events[..n]), events[n])
  }

  // ---- What an open transaction has done so far ----

  /** The rows after the statements run so far, had they run alone. */
  function Partial(rows: Rows, tx: Transaction): Rows
    requires tx.stage.Updated? && tx.stage.upserted <= |tx.result.episodes|
  {
    var written := UpsertEpisodes(rows, tx.stage.row.crawlSeq, tx.result.episodes[..tx.stage.upserted]);
    if tx.stage.pruned then PruneEpisodes(written, tx.stage.row.crawlSeq, tx.result.pruneGrace) else written
  }

  /** An updated transaction would still not be refused, and sees its own writes alone. */
  ghost predicate InStep(db: Db, tx: Transaction) {
    tx.stage.Updated? ==>
      && UpdateError(db, tx.result.feed) == None
      && tx.stage.row == RowAfterCrawl(db.feeds[tx.Feed()], tx.result, tx.now)
      && tx.stage.upserted <= |tx.result.episodes|
      && (tx.stage.upserted > 0 || tx.stage.pruned ==> TouchesEpisodes(tx.result))
      && (tx.stage.pruned ==> tx.stage.upserted == |tx.result.episodes|)
      && tx.stage.writes.Over(db.RowsOf(tx.Feed())) == Partial(db.RowsOf(tx.Feed()), tx)
  }

  /** No two updated transactions share a feed, or a URL. */
  ghost predicate Apart(s: System) {
    forall t, u :: s.Holds(t) && s.Holds(u) && t != u ==>
      && s.open[t].Feed() != s.open[u].Feed()
      && !s.Reserves(u, s.open[t].result.feed.url)
  }

  ghost predicate Isolated(s: System) {
    && s.db.Consistent()
    && Apart(s)
    && forall t :: t in s.open ==> InStep(s.db, s.open[t])
  }

  // ---- A step of one transaction ----

  lemma PutIsWrite(writes: Overlay, rows: Rows, row: EpisodeRow)
    ensures writes.Put(row).Over(rows) == writes.Over(rows)[row.episode.guid := row]
  {
  }

  lemma UpsertInStep(db: Db, tx: Transaction)
    requires InStep(db, tx) && tx.stage.Updated? && TouchesEpisodes(tx.result)
    requires tx.stage.upserted < |tx.result.episodes|
    ensures InStep(db, AfterUpsert(tx))
  {
    var n := tx.stage.upserted;
    var eps := tx.result.episodes;
    assert eps[..n + 1][..n] == eps[..n];
    PutIsWrite(tx.stage.writes, db.RowsOf(tx.Feed()), EpisodeRow(eps[n], tx.stage.row.crawlSeq));
  }

  lemma PruneInStep(db: Db, tx: Transaction)
    requires InStep(db, tx) && tx.stage.Updated? && TouchesEpisodes(tx.result)
    requires tx.stage.upserted == |tx.result.episodes| && !tx.stage.pruned
    ensures InStep(db, AfterPrune(tx, tx.stage.writes.Over(db.RowsOf(tx.Feed()))))
  {
  }

  lemma UpdateInStep(s: System, t: Key)
    requires t in s.open && UpdateError(s.db, s.open[t].result.feed) == None
    ensures InStep(s.db, AfterUpdate(s, t).open[t])
  {
  }

  // ---- A step beside it ----

  /** The tables changed in no way that an updated transaction could notice. */
  ghost predicate Unnoticed(db: Db, after: Db, tx: Transaction) {
    tx.stage.Updated? && tx.Feed() in db.feeds ==>
      && tx.Feed() in after.feeds && after.feeds[tx.Feed()] == db.feeds[tx.Feed()]
      && after.RowsOf(tx.Feed()) == db.RowsOf(tx.Feed())
      && db.feeds.Keys <= after.feeds.Keys
      && !TakenByOther(after.feeds, tx.Feed(), tx.result.feed.url)
  }

  lemma StaysInStep(db: Db, after: Db, tx: Transaction)
    requires InStep(db, tx) && Unnoticed(db, after, tx)
    ensures InStep(after, tx)
  {
  }

  lemma SeedUnnoticed(s: System, url: string, now: int, t: Key)
    requires Isolated(s) && t in s.open && !s.Reserved(url)
    ensures Unnoticed(s.db, UpsertFeed(s.db, url, now).0, s.open[t])
  {
  }

  lemma RequestUnnoticed(s: System, id: nat, throttle: int, now: int, t: Key)
    requires Isolated(s) && t in s.open && !s.Locked(id)
    ensures Unnoticed(s.db, MarkRequested(s.db, id, throttle, now), s.open[t])
  {
  }

  lemma ClaimUnnoticed(s: System, ids: set<nat>, now: int, lease: int, t: Key)
    requires Isolated(s) && t in s.open && forall id :: id in ids ==> !s.Locked(id)
    ensures Unnoticed(s.db, LeaseAll(s.db, ids, now, lease), s.open[t])
  {
  }

  lemma CommitUnnoticed(s: System, t: Key, u: Key)
    requires Isolated(s) && Enabled(s, Commit(t)) && u in s.open && u != t
    ensures Unnoticed(s.db, AfterCommit(s, t).db, s.open[u])
  {
    var tx, other := s.open[t], s.open[u];
    if other.stage.Updated? {
      assert s.Holds(t) && s.Holds(u) && other.Feed() != tx.Feed();
      assert !s.Reserves(u, tx.result.feed.url);
      assert InStep(s.db, tx) && InStep(s.db, other);
      assert !TakenByOther(s.db.feeds, other.Feed(), other.result.feed.url);
    }
  }

  // ---- Publishing ----

  /** A commit publishes the whole crawl at once, exactly as the atomic ApplyCrawl would. */
  lemma CommitIsAtomic(s: System, t: Key)
    requires Isolated(s) && Enabled(s, Commit(t))
    ensures ApplyCrawl(s.db, s.open[t].result, s.open[t].now) == Ok(AfterCommit(s, t).db)
  {
    var tx := s.open[t];
    assert InStep(s.db, tx);
    assert tx.result.episodes[..|tx.result.episodes|] == tx.result.episodes;
  }

  /** The steps of a transaction before its commit change nothing that others can see. */
  lemma OnlyCommitsPublish(s: System, e: Event)
    requires Enabled(s, e) && !e.Commit? && !e.Statement?
    ensures Next(s, e).db == s.db && Published(s, e) == []
  {
  }

  lemma {:induction false} ReplayAppends(log: seq<History.Event>, e: History.Event)
    ensures History.Replay(log + [e]) == History.Step(History.Replay(log), e)
  {
  }

  lemma StepIgnoresParses(db: Db, a: map<nat, History.Parses>, b: map<nat, History.Parses>, e: History.Event)
    ensures History.Step(History.Traced(db, a), e).db == History.Step(History.Traced(db, b), e).db
  {
  }

  lemma PublishedStep(s: System, e: Event, log: seq<History.Event>)
    requires Isolated(s) && Enabled(s, e) && History.Replay(log).db == s.db
    ensures History.Replay(log + Published(s, e)).db == Next(s, e).db
  {
    match e
    case Commit(t) =>
      CommitIsAtomic(s, t);
      ReplayAppends(log, History.Record(s.open[t].result, s.open[t].now));
    case Statement(statement) =>
      ReplayAppends(log, statement);
      StepIgnoresParses(s.db, map[], History.Replay(log).parses, statement);
    case _ =>
      OnlyCommitsPublish(s, e);
      assert log + [] == log;
  }

  // ---- Isolation in every run ----

  lemma StatementConsistent(db: Db, statement: History.Event)
    requires db.Consistent() && !statement.Record?
    ensures History.Step(History.Traced(db, map[]), statement).db.Consistent()
  {
    match statement
    case Seed(url, now) => UpsertFeedConsistent(db, url, now);
    case Request(id, throttle, now) => History.RequestLeavesEpisodes(db, id, throttle, now);
    case Claim(ids, now, lease) => History.ClaimLeavesEpisodes(db, ids, now, lease);
  }

  lemma StatementInStep(s: System, statement: History.Event, t: Key)
    requires Isolated(s) && Enabled(s, Statement(statement)) && t in s.open
    ensures InStep(Next(s, Statement(statement)).db, s.open[t])
  {
    var after := Next(s, Statement(statement)).db;
    match statement {
      case Seed(url, now) => SeedUnnoticed(s, url, now, t);
      case Request(id, throttle, now) => RequestUnnoticed(s, id, throttle, now, t);
      case Claim(ids, now, lease) => ClaimUnnoticed(s, ids, now, lease, t);
    }
    StaysInStep(s.db, after, s.open[t]);
  }

  lemma NextInStep(s: System, e: Event, t: Key)
    requires Isolated(s) && Enabled(s, e) && t in Next(s, e).open
    ensures InStep(Next(s, e).db, Next(s, e).open[t])
  {
    match e
    case Update(u) =>
      if u == t {
        UpdateInStep(s, t);
      }
    case Upsert(u) =>
      if u == t {
        UpsertInStep(s.db, s.open[t]);
      }
    case Prune(u) =>
      if u == t {
        PruneInStep(s.db, s.open[t]);
      }
    case Commit(u) =>
      CommitUnnoticed(s, u, t);
      StaysInStep(s.db, Next(s, e).db, s.open[t]);
    case Statement(statement) => StatementInStep(s, statement, t);
    case _ =>
  }

  lemma NextConsistent(s: System, e: Event)
    requires Isolated(s) && Enabled(s, e)
    ensures Next(s, e).db.Consistent()
  {
    match e
    case Commit(t) =>
      CommitIsAtomic(s, t);
      ApplyCrawlConsistent(s.db, s.open[t].result, s.open[t].now);
    case Statement(statement) => StatementConsistent(s.db, statement);
    case _ =>
  }

  /** A transaction that holds a lock after the step held it before, or took it in this step. */
  lemma HoldsFollow(s: System, e: Event, t: Key)
    requires Enabled(s, e) && Next(s, e).Holds(t)
    ensures t in s.open && Next(s, e).open[t].result == s.open[t].result
    ensures s.Holds(t) || e == Update(t)
  {
  }

  lemma NextApart(s: System, e: Event, t: Key, u: Key)
    requires Isolated(s) && Enabled(s, e)
    requires Next(s, e).Holds(t) && Next(s, e).Holds(u) && t != u
    ensures Next(s, e).open[t].Feed() != Next(s, e).open[u].Feed()
    ensures !Next(s, e).Reserves(u, Next(s, e).open[t].result.feed.url)
  {
    HoldsFollow(s, e, t);
    HoldsFollow(s, e, u);
    NextInStep(s, e, t);
    NextInStep(s, e, u);
    var after := Next(s, e);
    assert UpdateError(after.db, after.open[t].result.feed) == None;
    if e == Update(t) {
      assert !s.Locks(u, s.open[t].Feed()) && !s.Reserves(u, s.open[t].result.feed.url);
    } else if e == Update(u) {
      assert !s.Locks(t, s.open[u].Feed()) && !s.Reserves(t, s.open[u].result.feed.url);
    }
  }

  lemma IsolatedKept(s: System, e: Event)
    requires Isolated(s) && Enabled(s, e)
    ensures Isolated(Next(s, e))
  {
    var after := Next(s, e);
    NextConsistent(s, e);
    forall t | t in after.open ensures InStep(after.db, after.open[t]) {
      NextInStep(s, e, t);
    }
    forall t, u | after.Holds(t) && after.Holds(u) && t != u
      ensures after.open[t].Feed() != after.open[u].Feed() && !after.Reserves(u, after.open[t].result.feed.url)
    {
      NextApart(s, e, t, u);
    }
  }

  /**
   However the statements of concurrent transactions interleave, the committed tables are what
   running the committed crawls whole, in commit order, would have left.
   */
  lemma {:induction false} RunsAreSerializable(events: seq<Event>)
    requires Runs(events)
    ensures Isolated(Final(events))
    ensures Final(events).db == History.Replay(Log(events)).db
  {
    if events != [] {
      var n := |events| - 1;
      RunsAreSerializable(events[..n]);
      IsolatedKept(Final(events[..n]), events[n]);
      PublishedStep(Final(events[..n]), events[n], Log(events[..n]));
    }
  }
}

/**
 The engine with its crawl transactions taken apart: every statement of every transaction is a
 step of its own, claims skip the rows the transactions have locked, and requests, seedings and
 updates wait for them. Each such run is a run of Engine, in which a crawl is recorded in one
 step when its transaction commits.
 */
module Concurrent {
  import opened Prelude
  import opened Catalogue
  import opened Engine
  import opened Safety
  import opened Freshness
  import T = Transactions
  import History

  datatype Machine = Machine(engine: System, open: map<Key, T.Transaction>) {
    /** The tables as the database holds them, with the open transactions. */
    function Tables(): T.System { T.System(engine.db, open) }

    function LockedRows(): set<nat> {
      set k | k in open && open[k].stage.Updated? :: open[k].Feed()
    }

    function CrawlEnded(k: Key): System { engine.(crawls := engine.crawls - {k}) }
  }

  /** Whole steps are the engine's; the rest are the statements of a crawl's transaction. */
  datatype Move =
    | Whole(event: Event)
    | Begin(key: Key)
    | Update(key: Key)
    | Upsert(key: Key)
    | Prune(key: Key)
    | Commit(key: Key)
    | Abort(key: Key)

  const READY := Machine(START, map[])

  /** What the engine's own steps wait for, or skip, on account of the open transactions. */
  ghost predicate Unhindered(m: Machine, e: Event) {
    match e
    case Seed(url) => !m.Tables().Reserved(url)
    case Request(id, throttle) => !m.Tables().Locked(id)
    case LockDue(p, limit, skipped, ids) => skipped == m.LockedRows()
    case Record(k, at) => false
    case _ => true
  }

  ghost predicate Can(setup: Setup, m: Machine, move: Move) {
    match move
    case Whole(e) => Enabled(setup, m.engine, e) && Unhindered(m, e)
    case Begin(k) => k in m.engine.crawls && m.engine.crawls[k].Ready? && k !in m.open
    case Update(k) => T.Enabled(m.Tables(), T.Update(k)) && !m.engine.Locked(k.feed)
    case Upsert(k) => T.Enabled(m.Tables(), T.Upsert(k))
    case Prune(k) => T.Enabled(m.Tables(), T.Prune(k))
    case Commit(k) => T.Enabled(m.Tables(), T.Commit(k))
    case Abort(k) => k in m.open
  }

  /** The engine's state once the transaction's tables and parse are published. */
  function Published(m: Machine, k: Key): System
    requires m.Tables().Holds(k)
  {
    var result := m.open[k].result;
    m.CrawlEnded(k).(
      db := T.AfterCommit(m.Tables(), k).db,
      parses := if result.parsed
                then m.engine.parses[result.feed.id := m.engine.Trace().ParsesOf(result.feed.id) + [result.episodes]]
                else m.engine.parses)
  }

  /** A refused update, like an abort, ends the crawl unrecorded; a crash rolls back. */
  ghost function Do(setup: Setup, m: Machine, move: Move): Machine
    requires Can(setup, m, move)
  {
    match move
    case Whole(e) => Machine(Next(setup, m.engine, e), if e.Crash? then m.open - {e.key} else m.open)
    case Begin(k) =>
      m.(open := m.open[k := T.Transaction(m.engine.crawls[k].answer.result, m.engine.now, T.Begun)])
    case Update(k) =>
      var open := T.AfterUpdate(m.Tables(), k).open;
      Machine(if k in open then m.engine else m.CrawlEnded(k), open)
    case Upsert(k) => m.(open := T.Next(m.Tables(), T.Upsert(k)).open)
    case Prune(k) => m.(open := T.Next(m.Tables(), T.Prune(k)).open)
    case Commit(k) => Machine(Published(m, k), m.open - {k})
    case Abort(k) => Machine(m.CrawlEnded(k), m.open - {k})
  }

  ghost predicate Moves(setup: Setup, moves: seq<Move>)
    decreases |moves|, 0
  {
    moves == [] ||
    var n := |moves| - 1;
    Moves(setup, moves[..n]) && Can(setup, Result(setup, moves[..n]), moves[n])
  }

  ghost function Result(setup: Setup, moves: seq<Move>): Machine
    requires Moves(setup, moves)
    decreases |moves|, 1
  {
    if moves == [] then READY else Do(setup, Result(setup, moves[..|moves| - 1]), moves[|moves| - 1])
  }

  /** What the move is to somebody who sees committed tables only. */
  ghost function Seen(setup: Setup, m: Machine, move: Move): seq<Event>
    requires Can(setup, m, move)
  {
    match move
    case Whole(e) => [e]
    case Update(k) =>
      if UpdateError(m.engine.db, m.open[k].result.feed) == None then [] else [Record(k, m.open[k].now)]
    case Commit(k) => [Record(k, m.open[k].now)]
    case Abort(k) => [Crash(k)]
    case _ => []
  }

  ghost function SeenRun(setup: Setup, moves: seq<Move>): seq<Event>
    requires Moves(setup, moves)
  {
    if moves == [] then []
    else
      var n := |moves| - 1;
      SeenRun(setup, moves[..n]) + Seen(setup, Result(setup, moves[..n]), moves[n])
  }

  // ---- The invariant ----

  /** An open transaction writes what its crawl computed, and began after that. */
  ghost predicate Serves(m: Machine, k: Key)
    requires k in m.open
  {
    && k in m.engine.crawls && m.engine.crawls[k].Ready?
    && m.open[k].result == m.engine.crawls[k].answer.result
    && m.open[k].Feed() == k.feed
    && m.engine.crawls[k].answer.env.now <= m.open[k].now <= m.engine.now
  }

  /** A row is locked by a claim or by a transaction, never by both. */
  ghost predicate LocksApart(m: Machine) {
    forall k :: k in m.open && m.open[k].stage.Updated? ==> !m.engine.Locked(m.open[k].Feed())
  }

  ghost predicate Coherent(m: Machine) {
    && T.Isolated(m.Tables())
    && LocksApart(m)
    && forall k :: k in m.open ==> Serves(m, k)
  }

  // ---- The engine's steps ----

  lemma StatementsOfStep(setup: Setup, m: Machine, e: Event)
    requires Coherent(m) && WellFormed(m.engine) && Enabled(setup, m.engine, e) && Unhindered(m, e)
    ensures T.Isolated(T.System(Next(setup, m.engine, e).db, m.open))
  {
    var s := m.Tables();
    var statement := Engine.Statement(setup, m.engine, e);
    if statement.Some? {
      if e.FinishClaim? {
        forall id | id in m.engine.claims[e.process].ids ensures !s.Locked(id) {
          assert m.engine.Locked(id);
        }
      }
      T.IsolatedKept(s, T.Statement(statement.value));
      T.StepIgnoresParses(s.db, map[], m.engine.parses, statement.value);
    }
  }

  lemma ServesStill(setup: Setup, m: Machine, e: Event, k: Key)
    requires Coherent(m) && WellFormed(m.engine) && Enabled(setup, m.engine, e) && !e.Record?
    requires k in m.open && !(e.Crash? && e.key == k)
    ensures Serves(Machine(Next(setup, m.engine, e), m.open), k)
  {
    assert Serves(m, k);
  }

  lemma LocksStayApart(setup: Setup, m: Machine, e: Event, k: Key)
    requires Coherent(m) && WellFormed(m.engine) && Enabled(setup, m.engine, e) && Unhindered(m, e)
    requires k in m.open && m.open[k].stage.Updated?
    ensures !Next(setup, m.engine, e).Locked(m.open[k].Feed())
  {
    var after := Next(setup, m.engine, e);
    var id := m.open[k].Feed();
    assert !m.engine.Locked(id) && id in m.LockedRows();
    forall p | p in after.claims ensures id !in after.claims[p].ids {
      ClaimsFollow(setup, m.engine, e, p);
    }
  }

  lemma CrashIsolated(s: T.System, k: Key)
    requires T.Isolated(s)
    ensures T.Isolated(s.(open := s.open - {k}))
  {
    if k in s.open {
      T.IsolatedKept(s, T.Abort(k));
    } else {
      assert s.open - {k} == s.open;
    }
  }

  lemma WholeStep(setup: Setup, m: Machine, e: Event)
    requires Coherent(m) && WellFormed(m.engine) && Can(setup, m, Whole(e))
    ensures Coherent(Do(setup, m, Whole(e)))
  {
    var after := Do(setup, m, Whole(e));
    StatementsOfStep(setup, m, e);
    if e.Crash? {
      CrashIsolated(T.System(after.engine.db, m.open), e.key);
    }
    forall k | k in after.open ensures Serves(after, k) {
      ServesStill(setup, m, e, k);
    }
    forall k | k in after.open && after.open[k].stage.Updated? ensures !after.engine.Locked(after.open[k].Feed()) {
      LocksStayApart(setup, m, e, k);
    }
  }

  // ---- The statements of a transaction ----

  /** A transaction that serves its crawl still does when another one ends or moves on. */
  lemma ServesBeside(m: Machine, after: Machine, j: Key)
    requires j in m.open && Serves(m, j) && j in after.open
    requires after.open[j].result == m.open[j].result && after.open[j].now == m.open[j].now
    requires j in after.engine.crawls && after.engine.crawls[j] == m.engine.crawls[j]
    requires after.engine.now == m.engine.now
    ensures Serves(after, j)
  {
  }

  lemma BeginServes(setup: Setup, m: Machine, k: Key)
    requires WellFormed(m.engine) && Schedules(setup, m.engine) && Can(setup, m, Begin(k))
    ensures Serves(Do(setup, m, Begin(k)), k)
  {
    assert CrawlOnSchedule(m.engine.crawls[k], m.engine.now, HorizonOf(setup, m.engine, k.feed));
  }

  lemma BeginStep(setup: Setup, m: Machine, k: Key)
    requires Coherent(m) && WellFormed(m.engine) && Schedules(setup, m.engine) && Can(setup, m, Begin(k))
    ensures Coherent(Do(setup, m, Begin(k)))
  {
    var after := Do(setup, m, Begin(k));
    T.IsolatedKept(m.Tables(), T.Begin(k, m.engine.crawls[k].answer.result, m.engine.now));
    BeginServes(setup, m, k);
    forall j | j in after.open && j != k ensures Serves(after, j) {
      ServesBeside(m, after, j);
    }
  }

  /** What an update does to the machine: it opens the transaction for writing, or ends it. */
  lemma UpdateDoes(setup: Setup, m: Machine, k: Key)
    requires Can(setup, m, Update(k))
    ensures
      var after := Do(setup, m, Update(k));
      && after.Tables() == T.AfterUpdate(m.Tables(), k)
      && after.engine.db == m.engine.db && after.engine.claims == m.engine.claims && after.engine.now == m.engine.now
      && (forall j :: j in after.open ==>
            && j in m.open && after.open[j].result == m.open[j].result && after.open[j].now == m.open[j].now
            && (j in m.engine.crawls ==> j in after.engine.crawls && after.engine.crawls[j] == m.engine.crawls[j])
            && (after.open[j].stage.Updated? ==> j == k || m.open[j].stage.Updated?))
  {
  }

  lemma UpdateStep(setup: Setup, m: Machine, k: Key)
    requires Coherent(m) && Can(setup, m, Update(k))
    ensures Coherent(Do(setup, m, Update(k)))
  {
    var after := Do(setup, m, Update(k));
    UpdateDoes(setup, m, k);
    T.IsolatedKept(m.Tables(), T.Update(k));
    assert Serves(m, k);
    forall j | j in after.open ensures Serves(after, j) {
      ServesBeside(m, after, j);
    }
  }

  lemma WriteDoes(setup: Setup, m: Machine, move: Move)
    requires Can(setup, m, move) && (move.Upsert? || move.Prune?)
    ensures
      var after := Do(setup, m, move);
      && after.Tables() == T.Next(m.Tables(), if move.Upsert? then T.Upsert(move.key) else T.Prune(move.key))
      && after.engine == m.engine
      && (forall j :: j in after.open ==>
            && j in m.open && after.open[j].result == m.open[j].result && after.open[j].now == m.open[j].now
            && (after.open[j].stage.Updated? ==> m.open[j].stage.Updated?))
  {
  }

  lemma WriteStep(setup: Setup, m: Machine, move: Move)
    requires Coherent(m) && Can(setup, m, move) && (move.Upsert? || move.Prune?)
    ensures Coherent(Do(setup, m, move))
  {
    var after := Do(setup, m, move);
    WriteDoes(setup, m, move);
    T.IsolatedKept(m.Tables(), if move.Upsert? then T.Upsert(move.key) else T.Prune(move.key));
    forall j | j in after.open ensures Serves(after, j) {
      ServesBeside(m, after, j);
    }
  }

  lemma EndStep(setup: Setup, m: Machine, move: Move)
    requires Coherent(m) && Can(setup, m, move) && (move.Commit? || move.Abort?)
    ensures Coherent(Do(setup, m, move))
  {
    var after := Do(setup, m, move);
    T.IsolatedKept(m.Tables(), if move.Commit? then T.Commit(move.key) else T.Abort(move.key));
    forall j | j in after.open ensures Serves(after, j) {
      ServesBeside(m, after, j);
    }
  }

  lemma CoherentKept(setup: Setup, m: Machine, move: Move)
    requires Coherent(m) && WellFormed(m.engine) && Schedules(setup, m.engine) && Can(setup, m, move)
    ensures Coherent(Do(setup, m, move))
  {
    match move
    case Whole(e) => WholeStep(setup, m, e);
    case Begin(k) => BeginStep(setup, m, k);
    case Update(k) => UpdateStep(setup, m, k);
    case Upsert(k) => WriteStep(setup, m, move);
    case Prune(k) => WriteStep(setup, m, move);
    case Commit(k) => EndStep(setup, m, move);
    case Abort(k) => EndStep(setup, m, move);
  }

  // ---- Refinement ----

  /** A commit is the engine's recording of the crawl, as of the time its transaction began. */
  lemma CommitIsRecord(setup: Setup, m: Machine, k: Key)
    requires Coherent(m) && Can(setup, m, Commit(k))
    ensures Enabled(setup, m.engine, Record(k, m.open[k].now))
    ensures Next(setup, m.engine, Record(k, m.open[k].now)) == Published(m, k)
  {
    assert Serves(m, k);
    T.CommitIsAtomic(m.Tables(), k);
  }

  lemma RefusalIsRecord(setup: Setup, m: Machine, k: Key)
    requires Coherent(m) && Can(setup, m, Update(k)) && UpdateError(m.engine.db, m.open[k].result.feed) != None
    ensures Enabled(setup, m.engine, Record(k, m.open[k].now))
    ensures Next(setup, m.engine, Record(k, m.open[k].now)) == m.CrawlEnded(k)
  {
    assert Serves(m, k);
  }

  lemma AbortIsCrash(setup: Setup, m: Machine, k: Key)
    requires Coherent(m) && Can(setup, m, Abort(k))
    ensures Enabled(setup, m.engine, Crash(k)) && Next(setup, m.engine, Crash(k)) == m.CrawlEnded(k)
  {
    assert Serves(m, k);
  }

  lemma RunExtends(setup: Setup, run: seq<Event>, e: Event)
    requires Runs(setup, run) && Enabled(setup, Final(setup, run), e)
    ensures Runs(setup, run + [e]) && Final(setup, run + [e]) == Next(setup, Final(setup, run), e)
  {
    assert (run + [e])[..|run|] == run;
  }

  lemma SeenStep(setup: Setup, run: seq<Event>, m: Machine, move: Move)
    requires Runs(setup, run) && Final(setup, run) == m.engine && Coherent(m) && Can(setup, m, move)
    ensures Runs(setup, run + Seen(setup, m, move))
    ensures Final(setup, run + Seen(setup, m, move)) == Do(setup, m, move).engine
  {
    assert run + [] == run;
    match move
    case Whole(e) => RunExtends(setup, run, e);
    case Update(k) =>
      if UpdateError(m.engine.db, m.open[k].result.feed) != None {
        RefusalIsRecord(setup, m, k);
        RunExtends(setup, run, Record(k, m.open[k].now));
      }
    case Commit(k) =>
      CommitIsRecord(setup, m, k);
      RunExtends(setup, run, Record(k, m.open[k].now));
    case Abort(k) =>
      AbortIsCrash(setup, m, k);
      RunExtends(setup, run, Crash(k));
    case _ =>
  }

  /**
   However the statements of the crawl transactions interleave with each other and with the rest
   of the engine, what the database holds is what a run of the engine with whole crawls holds.
   */
  lemma {:induction false} StatementsRefineEngine(setup: Setup, moves: seq<Move>)
    requires setup.Valid() && Moves(setup, moves)
    ensures Coherent(Result(setup, moves))
    ensures Runs(setup, SeenRun(setup, moves))
    ensures Final(setup, SeenRun(setup, moves)) == Result(setup, moves).engine
    decreases |moves|
  {
    if moves != [] {
      var n := |moves| - 1;
      var run, m := SeenRun(setup, moves[..n]), Result(setup, moves[..n]);
      StatementsRefineEngine(setup, moves[..n]);
      EveryRunIsSafe(setup, run);
      CoherentKept(setup, m, moves[n]);
      SeenStep(setup, run, m, moves[n]);
    }
  }

  /** So a read between any two statements returns the last committed document of the feed. */
  lemma EveryReadServesLastCommit(setup: Setup, moves: seq<Move>, f: nat, list: seq<EpisodeRow>)
    requires setup.Valid() && Moves(setup, moves)
    requires f in Result(setup, moves).engine.db.feeds
    requires IsEpisodesByFeed(Result(setup, moves).engine.db, f, list)
    ensures History.Plain(list) == History.Served(Result(setup, moves).engine.Trace().ParsesOf(f))
  {
    StatementsRefineEngine(setup, moves);
    EveryReadServesLastParse(setup, SeenRun(setup, moves), f, list);
  }
}

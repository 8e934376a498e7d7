/**
 What the episodes table holds after any history of statements, whatever snapshots the
 recorded crawls were computed from: a closed form over the parses committed so far, and what
 every read of it returns.
 */
module History {
  import opened Prelude
  import opened Parse
  import opened Catalogue

  /** The episode lists a feed's committed parses wrote, oldest first. */
  type Parses = seq<seq<EpisodeUpsert>>

  predicate HasKey(eps: seq<EpisodeUpsert>, guid: string) {
    exists i :: 0 <= i < |eps| && eps[i].guid == guid
  }

  /** No later item shares the key of item i. */
  predicate IsLastAt(eps: seq<EpisodeUpsert>, i: nat)
    requires i < |eps|
  {
    forall j :: i < j < |eps| ==> eps[j].guid != eps[i].guid
  }

  /** The last item with the key. */
  function LastOf(eps: seq<EpisodeUpsert>, guid: string): (e: EpisodeUpsert)
    requires HasKey(eps, guid)
    ensures e in eps && e.guid == guid
  {
    var e := eps[|eps| - 1];
    if e.guid == guid then e else LastOf(eps[..|eps| - 1], guid)
  }

  /** The document as a reader should see it: of items sharing a key the last one, in order. */
  function LastOccurrences(eps: seq<EpisodeUpsert>): seq<EpisodeUpsert> {
    if eps == [] then []
    else (if HasKey(eps[1..], eps[0].guid) then [] else [eps[0]]) + LastOccurrences(eps[1..])
  }

  function Keys(eps: seq<EpisodeUpsert>): set<string> {
    set i | 0 <= i < |eps| :: eps[i].guid
  }

  function AllKeys(h: Parses): set<string> {
    if h == [] then {} else AllKeys(h[..|h| - 1]) + Keys(h[|h| - 1])
  }

  /** The number of the last parse that listed the key; parses count from 1, 0 is never. */
  function LastSighting(h: Parses, guid: string): (n: nat)
    ensures n <= |h|
    ensures n > 0 ==> HasKey(h[n - 1], guid)
    ensures forall m :: n <= m < |h| ==> !HasKey(h[m], guid)
  {
    if h == [] then 0
    else if HasKey(h[|h| - 1], guid) then |h|
    else LastSighting(h[..|h| - 1], guid)
  }

  /** The number of the last parse that listed anything at all. */
  function LastFull(h: Parses): (n: nat)
    ensures n <= |h|
    ensures n > 0 ==> h[n - 1] != []
    ensures forall m :: n <= m < |h| ==> h[m] == []
  {
    if h == [] then 0
    else if h[|h| - 1] != [] then |h|
    else LastFull(h[..|h| - 1])
  }

  /** A key is kept while its last sighting is within the grace window of the last full parse. */
  predicate Kept(h: Parses, grace: nat, guid: string) {
    LastSighting(h, guid) > 0 && (grace == 0 || LastSighting(h, guid) >= LastFull(h) - grace)
  }

  function SightedRow(h: Parses, guid: string): EpisodeRow
    requires LastSighting(h, guid) > 0
  {
    var n := LastSighting(h, guid);
    EpisodeRow(LastOf(h[n - 1], guid), n)
  }

  /** The closed form: every kept key, as its last sighting listed it. */
  function StoredRows(h: Parses, grace: nat): Rows {
    map guid | guid in AllKeys(h) && Kept(h, grace, guid) :: SightedRow(h, guid)
  }

  lemma {:induction false} SightedKeys(h: Parses, guid: string)
    ensures guid in AllKeys(h) <==> LastSighting(h, guid) > 0
  {
    if h != [] {
      SightedKeys(h[..|h| - 1], guid);
      assert guid in Keys(h[|h| - 1]) <==> HasKey(h[|h| - 1], guid);
    }
  }

  // ---- One recorded parse ----

  lemma {:induction false} UpsertedKey(rows: Rows, crawlSeq: nat, eps: seq<EpisodeUpsert>, guid: string)
    ensures
      var after := UpsertEpisodes(rows, crawlSeq, eps);
      && (guid in after <==> guid in rows || HasKey(eps, guid))
      && (HasKey(eps, guid) ==> after[guid] == EpisodeRow(LastOf(eps, guid), crawlSeq))
      && (!HasKey(eps, guid) && guid in rows ==> after[guid] == rows[guid])
  {
    if eps != [] {
      var n := |eps| - 1;
      UpsertedKey(rows, crawlSeq, eps[..n], guid);
      if eps[n].guid != guid {
        if i :| 0 <= i < |eps| && eps[i].guid == guid {
          assert eps[..n][i].guid == guid;
        }
        if i :| 0 <= i < n && eps[..n][i].guid == guid {
          assert eps[i].guid == guid;
        }
      }
    }
  }

  lemma SightingAfter(h: Parses, eps: seq<EpisodeUpsert>, guid: string)
    ensures LastSighting(h + [eps], guid) == if HasKey(eps, guid) then |h| + 1 else LastSighting(h, guid)
    ensures LastFull(h + [eps]) == if eps != [] then |h| + 1 else LastFull(h)
    ensures !HasKey(eps, guid) && LastSighting(h, guid) > 0 ==> SightedRow(h + [eps], guid) == SightedRow(h, guid)
  {
  }

  /** Recording a parse takes the closed form of the history to that of the longer one. */
  lemma StoredRowsStep(h: Parses, grace: nat, result: CrawlResult)
    requires result.parsed && result.pruneGrace == grace
    ensures
      RowsAfterCrawl(StoredRows(h, grace), |h| + 1, result) == StoredRows(h + [result.episodes], grace)
  {
    var eps := result.episodes;
    var rows := StoredRows(h, grace);
    var after := RowsAfterCrawl(rows, |h| + 1, result);
    var goal := StoredRows(h + [eps], grace);
    forall guid
      ensures guid in after <==> guid in goal
      ensures guid in after && guid in goal ==> after[guid] == goal[guid]
    {
      SightedKeys(h, guid);
      SightedKeys(h + [eps], guid);
      SightingAfter(h, eps, guid);
      UpsertedKey(rows, |h| + 1, eps, guid);
    }
  }

  /** A parse that listed nothing deletes nothing. */
  lemma EmptyParseDeletesNothing(h: Parses, grace: nat)
    ensures StoredRows(h + [[]], grace) == StoredRows(h, grace)
  {
    assert !HasKey([], "");
    forall guid
      ensures guid in StoredRows(h + [[]], grace) <==> guid in StoredRows(h, grace)
      ensures guid in StoredRows(h, grace) ==> StoredRows(h + [[]], grace)[guid] == StoredRows(h, grace)[guid]
    {
      SightedKeys(h, guid);
      SightedKeys(h + [[]], guid);
      SightingAfter(h, [], guid);
    }
  }

  /**
   A row goes when a non-empty parse leaves it absent for more than grace parses: absent for just
   grace of them, it is still stored.
   */
  lemma DeletedAfterGrace(h: Parses, grace: nat, eps: seq<EpisodeUpsert>, guid: string)
    requires grace > 0 && guid in StoredRows(h, grace) && eps != [] && !HasKey(eps, guid)
    ensures
      var absent := |h| + 1 - LastSighting(h, guid);
      guid in StoredRows(h + [eps], grace) <==> absent <= grace
  {
    SightedKeys(h, guid);
    SightedKeys(h + [eps], guid);
    SightingAfter(h, eps, guid);
  }

  /** With a grace of one, an episode missing from the next document keeps its row. */
  lemma AbsentForGraceIsStored(a: EpisodeUpsert, b: EpisodeUpsert)
    requires a.guid != b.guid
    ensures a.guid in StoredRows([[a]] + [[b]], 1)
  {
    var h := [[a]];
    assert h[0][0] == a;
    assert HasKey(h[0], a.guid) && !HasKey([b], a.guid);
    assert h[..0] == [];
    SightedKeys(h, a.guid);
    DeletedAfterGrace(h, 1, [b], a.guid);
  }

  // ---- Any history of statements ----

  datatype Event =
    | Seed(url: string, now: int)
    | Request(id: nat, throttle: int, now: int)
    | Claim(ids: set<nat>, now: int, lease: int)
    | Record(result: CrawlResult, now: int)

  /** The database with, for each feed, the parses committed so far. */
  datatype Traced = Traced(db: Db, parses: map<nat, Parses>)
  {
    function ParsesOf(id: nat): Parses {
      if id in parses then parses[id] else []
    }
  }

  const EMPTY := Traced(Db(map[], map[], map[], 1), map[])

  ghost function Step(s: Traced, e: Event): Traced {
    match e
    case Seed(url, now) => s.(db := UpsertFeed(s.db, url, now).0)
    case Request(id, throttle, now) => s.(db := MarkRequested(s.db, id, throttle, now))
    case Claim(ids, now, lease) => s.(db := LeaseAll(s.db, ids, now, lease))
    case Record(result, now) =>
      match ApplyCrawl(s.db, result, now)
      case Err(_) => s
      case Ok(after) =>
        Traced(after,
               if result.parsed
               then s.parses[result.feed.id := s.ParsesOf(result.feed.id) + [result.episodes]]
               else s.parses)
  }

  ghost function Replay(events: seq<Event>): Traced {
    if events == [] then EMPTY else Step(Replay(events[..|events| - 1]), events[|events| - 1])
  }

  predicate UsesGrace(e: Event, grace: nat) {
    e.Record? && e.result.parsed ==> e.result.pruneGrace == grace
  }

  /** Every recorded parse used the configured grace. */
  predicate SameGrace(events: seq<Event>, grace: nat) {
    forall i :: 0 <= i < |events| ==> UsesGrace(events[i], grace)
  }

  ghost predicate InClosedForm(s: Traced, grace: nat) {
    && s.db.Consistent()
    && (forall id :: id in s.parses ==> id in s.db.feeds)
    && (forall id :: id in s.db.feeds ==>
          && s.db.feeds[id].crawlSeq == |s.ParsesOf(id)|
          && s.db.RowsOf(id) == StoredRows(s.ParsesOf(id), grace))
  }

  /** A statement that leaves the episodes and the sequence numbers of the feeds alone. */
  ghost predicate LeavesEpisodes(before: Db, after: Db) {
    && after.Consistent()
    && after.episodes == before.episodes
    && (forall id :: id in before.feeds ==> id in after.feeds && after.feeds[id].crawlSeq == before.feeds[id].crawlSeq)
    && (forall id :: id in after.feeds && id !in before.feeds ==> after.feeds[id].crawlSeq == 0)
  }

  lemma SeedLeavesEpisodes(db: Db, url: string, now: int)
    requires db.Consistent()
    ensures LeavesEpisodes(db, UpsertFeed(db, url, now).0)
  {
    UpsertFeedConsistent(db, url, now);
  }

  lemma RequestLeavesEpisodes(db: Db, id: nat, throttle: int, now: int)
    requires db.Consistent()
    ensures LeavesEpisodes(db, MarkRequested(db, id, throttle, now))
  {
  }

  lemma ClaimLeavesEpisodes(db: Db, ids: set<nat>, now: int, lease: int)
    requires db.Consistent()
    ensures LeavesEpisodes(db, LeaseAll(db, ids, now, lease))
  {
    LeaseAllConsistent(db, ids, now, lease);
  }

  lemma NoParsesNoRows(grace: nat)
    ensures StoredRows([], grace) == map[]
  {
  }

  lemma ClosedFormFramed(s: Traced, after: Db, grace: nat)
    requires InClosedForm(s, grace) && LeavesEpisodes(s.db, after)
    ensures InClosedForm(s.(db := after), grace)
  {
    NoParsesNoRows(grace);
  }

  lemma ClosedFormKept(s: Traced, e: Event, grace: nat)
    requires InClosedForm(s, grace)
    requires UsesGrace(e, grace)
    ensures InClosedForm(Step(s, e), grace)
  {
    match e
    case Seed(url, now) =>
      SeedLeavesEpisodes(s.db, url, now);
      ClosedFormFramed(s, UpsertFeed(s.db, url, now).0, grace);
    case Request(id, throttle, now) =>
      RequestLeavesEpisodes(s.db, id, throttle, now);
      ClosedFormFramed(s, MarkRequested(s.db, id, throttle, now), grace);
    case Claim(ids, now, lease) =>
      ClaimLeavesEpisodes(s.db, ids, now, lease);
      ClosedFormFramed(s, LeaseAll(s.db, ids, now, lease), grace);
    case Record(result, now) =>
      ClosedFormKeptByRecord(s, result, now, grace);
  }

  /** What recording does to the rows of its own feed. */
  lemma RecordedRows(db: Db, result: CrawlResult, now: int)
    requires ApplyCrawl(db, result, now).Ok?
    ensures
      var after, id := ApplyCrawl(db, result, now).value, result.feed.id;
      && id in db.feeds && id in after.feeds
      && after.feeds[id].crawlSeq == db.feeds[id].crawlSeq + (if result.parsed then 1 else 0)
      && after.RowsOf(id) == RowsAfterCrawl(db.RowsOf(id), after.feeds[id].crawlSeq, result)
  {
  }

  lemma RecordedParses(s: Traced, result: CrawlResult, now: int)
    requires ApplyCrawl(s.db, result, now).Ok?
    ensures
      var after, id := Step(s, Record(result, now)), result.feed.id;
      after.ParsesOf(id) == s.ParsesOf(id) + (if result.parsed then [result.episodes] else [])
  {
  }

  /** The recorded feed itself. */
  lemma RecordedInClosedForm(db: Db, h: Parses, result: CrawlResult, now: int, grace: nat)
    requires ApplyCrawl(db, result, now).Ok? && (result.parsed ==> result.pruneGrace == grace)
    requires var id := result.feed.id;
             id in db.feeds && db.feeds[id].crawlSeq == |h| && db.RowsOf(id) == StoredRows(h, grace)
    ensures
      var after, id := ApplyCrawl(db, result, now).value, result.feed.id;
      var longer := h + (if result.parsed then [result.episodes] else []);
      && id in after.feeds && after.feeds[id].crawlSeq == |longer|
      && after.RowsOf(id) == StoredRows(longer, grace)
  {
    RecordedRows(db, result, now);
    assert h + [] == h;
    if result.parsed {
      StoredRowsStep(h, grace, result);
    }
  }

  lemma OthersUntouched(s: Traced, result: CrawlResult, now: int)
    requires ApplyCrawl(s.db, result, now).Ok?
    ensures
      var after := Step(s, Record(result, now));
      && after.db.feeds.Keys == s.db.feeds.Keys
      && (forall id :: id in after.parses ==> id in s.parses || id == result.feed.id)
      && (forall id :: id != result.feed.id ==>
            && after.db.RowsOf(id) == s.db.RowsOf(id) && after.ParsesOf(id) == s.ParsesOf(id)
            && (id in s.db.feeds ==> after.db.feeds[id] == s.db.feeds[id]))
  {
  }

  lemma ClosedFormKeptByRecord(s: Traced, result: CrawlResult, now: int, grace: nat)
    requires InClosedForm(s, grace) && (result.parsed ==> result.pruneGrace == grace)
    ensures InClosedForm(Step(s, Record(result, now)), grace)
  {
    if ApplyCrawl(s.db, result, now).Ok? {
      ApplyCrawlConsistent(s.db, result, now);
      RecordedInClosedForm(s.db, s.ParsesOf(result.feed.id), result, now, grace);
      RecordedParses(s, result, now);
      OthersUntouched(s, result, now);
    }
  }

  /**
   After any statements in any order, each feed's crawl_seq counts its committed parses and
   its rows are the closed form of them.
   */
  lemma {:induction false} EpisodesClosedForm(events: seq<Event>, grace: nat)
    requires SameGrace(events, grace)
    ensures InClosedForm(Replay(events), grace)
  {
    if events != [] {
      var n := |events| - 1;
      EpisodesClosedForm(events[..n], grace);
      ClosedFormKept(Replay(events[..n]), events[n], grace);
    }
  }

  // ---- Reads ----

  predicate InDocumentOrder(eps: seq<EpisodeUpsert>) {
    forall i, j :: 0 <= i < j < |eps| ==> eps[i].position < eps[j].position
  }

  function Plain(list: seq<EpisodeRow>): seq<EpisodeUpsert> {
    seq(|list|, i requires 0 <= i < |list| => list[i].episode)
  }

  ghost predicate IsLastItem(eps: seq<EpisodeUpsert>, e: EpisodeUpsert) {
    exists i :: 0 <= i < |eps| && eps[i] == e && IsLastAt(eps, i)
  }

  /** Items with other keys at the end change neither the last item of a key nor whether it is there. */
  lemma LastItemOfFront(eps: seq<EpisodeUpsert>, last: EpisodeUpsert, e: EpisodeUpsert)
    requires last.guid != e.guid
    ensures IsLastItem(eps + [last], e) <==> IsLastItem(eps, e)
    ensures HasKey(eps + [last], e.guid) <==> HasKey(eps, e.guid)
  {
    var more := eps + [last];
    assert forall j :: 0 <= j < |eps| ==> eps[j] == more[j];
    if i :| 0 <= i < |more| && more[i] == e && IsLastAt(more, i) {
      assert eps[i] == e && IsLastAt(eps, i);
    }
    if i :| 0 <= i < |eps| && eps[i] == e && IsLastAt(eps, i) {
      assert more[i] == e && IsLastAt(more, i);
    }
    if i :| 0 <= i < |eps| && eps[i].guid == e.guid {
      assert more[i].guid == e.guid;
    }
  }

  lemma {:induction false} LastOfIsLastItem(eps: seq<EpisodeUpsert>, e: EpisodeUpsert)
    ensures IsLastItem(eps, e) <==> HasKey(eps, e.guid) && LastOf(eps, e.guid) == e
  {
    if eps != [] {
      var n := |eps| - 1;
      assert IsLastAt(eps, n);
      if eps[n].guid != e.guid {
        LastOfIsLastItem(eps[..n], e);
        LastItemOfFront(eps[..n], eps[n], e);
        assert eps == eps[..n] + [eps[n]];
      }
    }
  }

  lemma {:induction false} LastOccurrencesMembers(eps: seq<EpisodeUpsert>, e: EpisodeUpsert)
    ensures e in LastOccurrences(eps) <==> IsLastItem(eps, e)
  {
    if eps != [] {
      var rest := eps[1..];
      LastOccurrencesMembers(rest, e);
      assert IsLastAt(eps, 0) <==> !HasKey(rest, eps[0].guid) by {
        assert forall i :: 0 <= i < |rest| ==> rest[i] == eps[i + 1];
        assert forall j :: 0 < j < |eps| ==> eps[j] == rest[j - 1];
      }
      if i :| 0 <= i < |eps| && eps[i] == e && IsLastAt(eps, i) {
        assert i > 0 ==> rest[i - 1] == e && IsLastAt(rest, i - 1);
      }
      if i :| 0 <= i < |rest| && rest[i] == e && IsLastAt(rest, i) {
        assert eps[i + 1] == e && IsLastAt(eps, i + 1) by {
          forall j | i + 1 < j < |eps| ensures eps[j].guid != e.guid { assert eps[j] == rest[j - 1]; }
        }
      }
    }
  }

  lemma {:induction false} LastOccurrencesOrdered(eps: seq<EpisodeUpsert>)
    requires InDocumentOrder(eps)
    ensures InDocumentOrder(LastOccurrences(eps))
    ensures forall e :: e in LastOccurrences(eps) ==> e in eps
  {
    if eps != [] {
      LastOccurrencesOrdered(eps[1..]);
      var rest := LastOccurrences(eps[1..]);
      forall k | 0 <= k < |rest| ensures eps[0].position < rest[k].position {
        assert rest[k] in eps[1..];
      }
    }
  }

  /** Lists in document order are equal when they have the same members. */
  lemma {:induction false} OrderedListsEqual(a: seq<EpisodeUpsert>, b: seq<EpisodeUpsert>)
    requires InDocumentOrder(a) && InDocumentOrder(b)
    requires forall e :: e in a <==> e in b
    ensures a == b
  {
    assert a != [] ==> a[0] in a && a[0] in b;
    assert b != [] ==> b[0] in b && b[0] in a;
    if a != [] {
      assert a[0] == b[0];
      forall e ensures e in a[1..] <==> e in b[1..] {
        assert e in a[1..] ==> e in a && e != a[0];
        assert e in b[1..] ==> e in b && e != b[0];
        assert e in a && e != a[0] ==> e in a[1..];
        assert e in b && e != b[0] ==> e in b[1..];
      }
      OrderedListsEqual(a[1..], b[1..]);
    }
  }

  /** The rows a parse stamped are exactly its last occurrences. */
  lemma StampedRows(h: Parses, grace: nat, guid: string)
    requires h != []
    ensures
      var rows := StoredRows(h, grace);
      guid in rows && rows[guid].lastCrawlSeq == |h| <==> HasKey(h[|h| - 1], guid)
    ensures HasKey(h[|h| - 1], guid) ==> StoredRows(h, grace)[guid].episode == LastOf(h[|h| - 1], guid)
  {
  }

  lemma ListMembers(h: Parses, grace: nat, list: seq<EpisodeRow>, e: EpisodeUpsert)
    requires h != []
    requires IsCurrentList(StoredRows(h, grace), |h|, list)
    ensures e in Plain(list) <==> e in LastOccurrences(h[|h| - 1])
  {
    var eps := h[|h| - 1];
    var rows := StoredRows(h, grace);
    StampedRows(h, grace, e.guid);
    LastOccurrencesMembers(eps, e);
    LastOfIsLastItem(eps, e);
    if e in Plain(list) {
      var i :| 0 <= i < |list| && Plain(list)[i] == e;
      assert rows[e.guid] == list[i];
    }
    if e in LastOccurrences(eps) {
      var i :| 0 <= i < |list| && list[i] == rows[e.guid];
      assert Plain(list)[i] == e;
    }
  }

  lemma ListedItem(h: Parses, grace: nat, list: seq<EpisodeRow>, i: nat)
    requires h != [] && IsCurrentList(StoredRows(h, grace), |h|, list) && i < |list|
    ensures list[i].episode in h[|h| - 1]
  {
  }

  lemma ItemsApart(eps: seq<EpisodeUpsert>, a: EpisodeUpsert, b: EpisodeUpsert)
    requires InDocumentOrder(eps) && a in eps && b in eps && a != b
    ensures a.position != b.position
  {
  }

  lemma ListInOrder(h: Parses, grace: nat, list: seq<EpisodeRow>)
    requires h != [] && InDocumentOrder(h[|h| - 1])
    requires IsCurrentList(StoredRows(h, grace), |h|, list)
    ensures InDocumentOrder(Plain(list))
  {
    var eps := h[|h| - 1];
    forall i, j | 0 <= i < j < |list| ensures Plain(list)[i].position < Plain(list)[j].position {
      ListedItem(h, grace, list, i);
      ListedItem(h, grace, list, j);
      ItemsApart(eps, list[i].episode, list[j].episode);
    }
  }

  /** Whatever the query returns is the last committed document, last occurrence per key. */
  lemma CurrentListIsLastParse(h: Parses, grace: nat, list: seq<EpisodeRow>)
    requires h != [] && InDocumentOrder(h[|h| - 1])
    requires IsCurrentList(StoredRows(h, grace), |h|, list)
    ensures Plain(list) == LastOccurrences(h[|h| - 1])
  {
    ListInOrder(h, grace, list);
    LastOccurrencesOrdered(h[|h| - 1]);
    forall e ensures e in Plain(list) <==> e in LastOccurrences(h[|h| - 1]) {
      ListMembers(h, grace, list, e);
    }
    OrderedListsEqual(Plain(list), LastOccurrences(h[|h| - 1]));
  }

  /** What a reader of a feed with these committed parses should get. */
  function Served(h: Parses): seq<EpisodeUpsert> {
    if h == [] then [] else LastOccurrences(h[|h| - 1])
  }

  lemma ListedRowsExist(rows: Rows, crawlSeq: nat, list: seq<EpisodeRow>)
    requires IsCurrentList(rows, crawlSeq, list)
    ensures list != [] ==> rows != map[]
  {
    if list != [] {
      assert list[0].episode.guid in rows;
    }
  }

  lemma ReadsInClosedForm(s: Traced, grace: nat, id: nat, list: seq<EpisodeRow>)
    requires InClosedForm(s, grace) && id in s.db.feeds
    requires s.ParsesOf(id) != [] ==> InDocumentOrder(s.ParsesOf(id)[|s.ParsesOf(id)| - 1])
    requires IsEpisodesByFeed(s.db, id, list)
    ensures Plain(list) == Served(s.ParsesOf(id))
  {
    var h := s.ParsesOf(id);
    if h == [] {
      NoParsesNoRows(grace);
      ListedRowsExist(StoredRows(h, grace), 0, list);
    } else {
      CurrentListIsLastParse(h, grace, list);
    }
  }

  predicate AllOrdered(h: Parses) {
    forall k :: 0 <= k < |h| ==> InDocumentOrder(h[k])
  }

  lemma ParsesStep(s: Traced, e: Event, id: nat)
    ensures
      var before, after := s.ParsesOf(id), Step(s, e).ParsesOf(id);
      after == before || (e.Record? && e.result.parsed && after == before + [e.result.episodes])
  {
  }

  /** A read depends on the feed's rows and its sequence number only. */
  lemma ReadsFollow(before: Db, after: Db, id: nat, list: seq<EpisodeRow>)
    requires id in before.feeds && id in after.feeds
    requires after.feeds[id].crawlSeq == before.feeds[id].crawlSeq && after.RowsOf(id) == before.RowsOf(id)
    ensures IsEpisodesByFeed(before, id, list) <==> IsEpisodesByFeed(after, id, list)
  {
  }

  lemma OthersKeepReads(s: Traced, e: Event, id: nat)
    requires s.db.Consistent() && id in s.db.feeds
    requires !(e.Record? && e.result.parsed && e.result.feed.id == id)
    ensures
      var after := Step(s, e).db;
      && id in after.feeds && after.feeds[id].crawlSeq == s.db.feeds[id].crawlSeq
      && after.RowsOf(id) == s.db.RowsOf(id)
  {
    match e
    case Seed(url, now) => SeedLeavesEpisodes(s.db, url, now);
    case Request(_, throttle, now) => RequestLeavesEpisodes(s.db, e.id, throttle, now);
    case Claim(ids, now, lease) => ClaimLeavesEpisodes(s.db, ids, now, lease);
    case Record(result, now) => RecordKeepsReads(s.db, result, now, id);
  }

  /** Recording leaves every other feed's episodes alone, and its own unless it parsed. */
  lemma RecordKeepsReads(db: Db, result: CrawlResult, now: int, id: nat)
    requires id in db.feeds && !(result.parsed && result.feed.id == id)
    ensures
      ApplyCrawl(db, result, now).Ok? ==>
        var after := ApplyCrawl(db, result, now).value;
        && id in after.feeds && after.feeds[id].crawlSeq == db.feeds[id].crawlSeq
        && after.RowsOf(id) == db.RowsOf(id)
  {
  }

  /** Only recording a parse of this very feed changes what a read of it may return. */
  lemma OnlyParsesChangeReads(s: Traced, e: Event, id: nat, list: seq<EpisodeRow>)
    requires s.db.Consistent() && id in s.db.feeds
    requires !(e.Record? && e.result.parsed && e.result.feed.id == id)
    ensures IsEpisodesByFeed(s.db, id, list) <==> IsEpisodesByFeed(Step(s, e).db, id, list)
  {
    OthersKeepReads(s, e, id);
    ReadsFollow(s.db, Step(s, e).db, id, list);
  }

  // ---- Size of the table ----

  lemma {:induction false} KeysBound(eps: seq<EpisodeUpsert>)
    ensures |Keys(eps)| <= |eps|
  {
    if eps != [] {
      var n := |eps| - 1;
      KeysBound(eps[..n]);
      assert Keys(eps) == Keys(eps[..n]) + {eps[n].guid} by {
        forall k ensures k in Keys(eps) <==> k in Keys(eps[..n]) + {eps[n].guid} {
          if i :| 0 <= i < |eps| && eps[i].guid == k {
            assert i < n ==> eps[..n][i].guid == k;
          }
          if i :| 0 <= i < n && eps[..n][i].guid == k {
            assert eps[i].guid == k;
          }
        }
      }
    }
  }

  /** The keys of the parses h[from], ..., h[from + n - 1]. */
  function WindowKeys(h: Parses, from: nat, n: nat): set<string>
    requires from + n <= |h|
  {
    if n == 0 then {} else WindowKeys(h, from, n - 1) + Keys(h[from + n - 1])
  }

  lemma {:induction false} WindowBound(h: Parses, from: nat, n: nat, largest: nat)
    requires from + n <= |h|
    requires forall k :: 0 <= k < |h| ==> |h[k]| <= largest
    ensures |WindowKeys(h, from, n)| <= n * largest
  {
    if n > 0 {
      WindowBound(h, from, n - 1, largest);
      KeysBound(h[from + n - 1]);
      var init, last := WindowKeys(h, from, n - 1), Keys(h[from + n - 1]);
      assert |init + last| == |init| + |last| - |init * last|;
      assert n * largest == (n - 1) * largest + largest;
    }
  }

  lemma {:induction false} WindowMember(h: Parses, from: nat, n: nat, k: nat, guid: string)
    requires from <= k < from + n <= |h| && HasKey(h[k], guid)
    ensures guid in WindowKeys(h, from, n)
  {
    if k < from + n - 1 {
      WindowMember(h, from, n - 1, k, guid);
    } else {
      assert guid in Keys(h[k]);
    }
  }

  lemma SightedWhenFull(h: Parses, guid: string)
    ensures LastSighting(h, guid) <= LastFull(h)
  {
  }

  /** Where the grace window of the last non-empty parse begins. */
  function WindowStart(h: Parses, grace: nat): (from: nat)
    ensures from <= LastFull(h)
  {
    Max(LastFull(h) - grace - 1, 0)
  }

  function Window(h: Parses, grace: nat): set<string> {
    WindowKeys(h, WindowStart(h, grace), LastFull(h) - WindowStart(h, grace))
  }

  lemma StoredSighting(h: Parses, grace: nat, guid: string)
    requires guid in StoredRows(h, grace) && grace > 0
    ensures exists k :: WindowStart(h, grace) <= k < LastFull(h) && HasKey(h[k], guid)
  {
    SightedWhenFull(h, guid);
    var k := LastSighting(h, guid) - 1;
    assert WindowStart(h, grace) <= k < LastFull(h) && HasKey(h[k], guid);
  }

  /** The kept keys were all sighted within the window of the last full parse. */
  lemma StoredKeyInWindow(h: Parses, grace: nat, guid: string)
    requires guid in StoredRows(h, grace) && grace > 0
    ensures guid in Window(h, grace)
  {
    StoredSighting(h, grace, guid);
    var from := WindowStart(h, grace);
    var k :| from <= k < LastFull(h) && HasKey(h[k], guid);
    WindowMember(h, from, LastFull(h) - from, k, guid);
  }

  lemma WindowSize(h: Parses, grace: nat, largest: nat)
    requires forall k :: 0 <= k < |h| ==> |h[k]| <= largest
    ensures |Window(h, grace)| <= (grace + 1) * largest
  {
    var n := LastFull(h) - WindowStart(h, grace);
    WindowBound(h, WindowStart(h, grace), n, largest);
    MulMonotone(n, grace + 1, largest);
  }

  lemma StoredInWindow(h: Parses, grace: nat)
    requires grace > 0
    ensures |StoredRows(h, grace)| <= |Window(h, grace)|
  {
    forall guid | guid in StoredRows(h, grace).Keys ensures guid in Window(h, grace) {
      StoredKeyInWindow(h, grace, guid);
    }
    SubsetSize(StoredRows(h, grace).Keys, Window(h, grace));
    assert |StoredRows(h, grace)| == |StoredRows(h, grace).Keys|;
  }

  /** With a grace of g crawls the table holds at most g + 1 documents' worth of a feed. */
  lemma StoredRowsBounded(h: Parses, grace: nat, largest: nat)
    requires grace > 0
    requires forall k :: 0 <= k < |h| ==> |h[k]| <= largest
    ensures |StoredRows(h, grace)| <= (grace + 1) * largest
  {
    WindowSize(h, grace, largest);
    StoredInWindow(h, grace);
  }

  lemma MulMonotone(a: nat, b: nat, c: nat)
    requires a <= b
    ensures a * c <= b * c
  {
  }

  lemma {:induction false} SubsetSize<T>(a: set<T>, b: set<T>)
    requires a <= b
    ensures |a| <= |b|
  {
    assert b == a + (b - a);
  }
}

/**
 What a recorded crawl does to the row of its feed, told from the server's response: what
 crawl/crawler.go promises of fetching, applying and recording taken together.
 */
module Effects {
  import opened Prelude
  import opened Parse
  import opened Fetch
  import opened Catalogue
  import opened Schedule
  import Cadence
  import Sorting

  datatype Config = Config(policy: Policy, grace: nat, codec: Codec, maxBody: nat)

  /** The answer to FeedByURL. */
  datatype Lookup = Found(id: nat) | Missing | LookupFailed

  /** stored is the answer to RecentEpisodeDates, empty when the query failed. */
  datatype Env = Env(now: int, draw: real, lookup: Lookup, stored: seq<int>)

  const CADENCE_SAMPLE := 6

  /** The lookup is the table's answer for the announced URL, or it failed. */
  ghost predicate IsLookup(db: Db, target: string, lookup: Lookup) {
    match lookup
    case Found(id) => IsFeedByUrl(db, target, Some(id))
    case Missing => IsFeedByUrl(db, target, None)
    case LookupFailed => true
  }

  // ---- What the response is ----

  /** A whole body other than the one the snapshot's hash is of. */
  predicate IsNewBody(cfg: Config, snapshot: Feed, response: Response) {
    && Usable(response, cfg.maxBody)
    && (snapshot.bodyHash == "" || cfg.codec.sha(response.body.content) != snapshot.bodyHash)
  }

  /** A 304, or the known body again. */
  predicate IsNothingNew(cfg: Config, snapshot: Feed, response: Response) {
    || (response.Response? && response.status == 304)
    || (Usable(response, cfg.maxBody) && !IsNewBody(cfg, snapshot, response))
  }

  /** The response brings a new document that can be read. */
  predicate Reads(cfg: Config, snapshot: Feed, response: Response) {
    IsNewBody(cfg, snapshot, response) && cfg.codec.xml(response.body.content).Some?
  }

  function ChannelOf(cfg: Config, response: Response): Channel
    requires response.Response? && cfg.codec.xml(response.body.content).Some?
  {
    cfg.codec.xml(response.body.content).value
  }

  /** The move the response announces, by a redirect or inside its document. */
  function AnnouncedIn(cfg: Config, snapshot: Feed, response: Response): string {
    if IsRedirect(response) then response.location.value
    else if Reads(cfg, snapshot, response) then ChannelOf(cfg, response).newFeedUrl
    else ""
  }

  /** It is a move, to another URL. */
  predicate IsMove(cfg: Config, snapshot: Feed, response: Response) {
    var target := TrimSpace(AnnouncedIn(cfg, snapshot, response));
    target != "" && target != snapshot.url
  }

  /** The crawl fails: no response, no use for it, or a new document that cannot be read. */
  predicate GoesWrong(cfg: Config, snapshot: Feed, response: Response) {
    match response
    case TransportError(_) => true
    case Response(status, _, _, _, _, _) =>
      if 200 <= status <= 299 then
        !Usable(response, cfg.maxBody) || (IsNewBody(cfg, snapshot, response) && !Reads(cfg, snapshot, response))
      else status != 304 && !IsRedirect(response)
  }

  // ---- What becomes of the row ----

  /** The columns the crawl does not decide. */
  predicate IsWritten(before: Feed, response: Response, at: int, parsed: bool, row: Feed) {
    && row.id == before.id && row.activatedAt == before.activatedAt && row.lastRequestedAt == before.lastRequestedAt
    && row.lastCheckedAt == Some(at) && row.crawlSeq == before.crawlSeq + (if parsed then 1 else 0)
    && row.lastStatusCode == (if response.Response? then response.status else 0)
  }

  predicate KeepsPlace(snapshot: Feed, row: Feed) {
    row.url == snapshot.url && row.redirectedTo == snapshot.redirectedTo
  }

  predicate KeepsValidators(snapshot: Feed, row: Feed) {
    row.etag == snapshot.etag && row.lastModified == snapshot.lastModified && row.bodyHash == snapshot.bodyHash
  }

  predicate KeepsSuccess(snapshot: Feed, row: Feed) {
    row.lastSuccessAt == snapshot.lastSuccessAt && row.lastModifiedAt == snapshot.lastModifiedAt
  }

  predicate Works(row: Feed) {
    row.status == Active && row.consecutiveFailures == 0 && row.lastError == ""
  }

  /** No outcome leaves a feed dormant. */
  predicate StaysAwake(snapshot: Feed, row: Feed) {
    row.status == if snapshot.status == Dormant then Active else snapshot.status
  }

  /** The next check is the jittered interval away, and the interval the given one within the clamps. */
  predicate IsScheduled(cfg: Config, interval: int, env: Env, row: Feed) {
    cfg.policy.Valid() && IsDraw(env.draw) ==>
      && row.checkInterval == Max(cfg.policy.min, Min(interval, cfg.policy.max))
      && IsJittered(row.checkInterval, env.draw, row.nextCheckAt - env.now)
  }

  /** The publication dates of the items that have one, in document order. */
  function DatesOf(items: seq<Item>): seq<int> {
    if items == [] then []
    else (if items[0].published.Some? then [items[0].published.value] else []) + DatesOf(items[1..])
  }

  /** The first six dates, completed from the table when there are fewer than two. */
  function Sample(items: seq<Item>, stored: seq<int>): seq<int> {
    var dates := DatesOf(items);
    if |dates| >= 2 then dates[..Min(6, |dates|)] else dates + stored
  }

  /** The median gap of the sample, or six hours when no two of its dates differ. */
  function CadenceOf(items: seq<Item>, stored: seq<int>): int {
    var sample := Sample(items, stored);
    if Cadence.AllEqual(sample) then 6 * HOUR else Cadence.MedianGap(sample)
  }

  /** A show most of whose gaps are the same one has that cadence. */
  lemma MajorityGapIsCadence(items: seq<Item>, stored: seq<int>, gap: int)
    requires var gaps := Cadence.Gaps(Sorting.Sort(Sample(items, stored)));
             2 * Cadence.Occurrences(gaps, gap) > |gaps|
    ensures CadenceOf(items, stored) == gap
  {
    var sample := Sample(items, stored);
    Cadence.MajorityGapIsMedian(sample, gap);
    Cadence.GapExactlyWhenDifferent(sample);
    Cadence.GapsArePositive(Sorting.Sort(sample));
    Cadence.MajorityIsPresent(Cadence.Gaps(Sorting.Sort(sample)), gap);
  }

  /** The interval in force, six hours if there is none. */
  function CurrentInterval(feed: Feed): int {
    if feed.checkInterval > 0 then feed.checkInterval else 6 * HOUR
  }

  /** A new document was stored. */
  predicate IsStoredRow(cfg: Config, snapshot: Feed, response: Response, env: Env, row: Feed)
    requires Reads(cfg, snapshot, response)
  {
    && KeepsPlace(snapshot, row) && Works(row)
    && row.etag == response.etag && row.lastModified == response.lastModified
    && row.bodyHash == cfg.codec.sha(response.body.content)
    && row.lastSuccessAt == row.lastModifiedAt == Some(env.now)
    && IsScheduled(cfg, CadenceOf(ChannelOf(cfg, response).items, env.stored), env, row)
  }

  /** Nothing was new: validators a 304 does not repeat are kept, and the interval grows by half. */
  predicate IsConfirmedRow(cfg: Config, snapshot: Feed, response: Response, env: Env, row: Feed)
    requires IsNothingNew(cfg, snapshot, response)
  {
    && KeepsPlace(snapshot, row) && Works(row)
    && row.etag == (if response.status == 304 && response.etag == "" then snapshot.etag else response.etag)
    && row.lastModified ==
       (if response.status == 304 && response.lastModified == "" then snapshot.lastModified else response.lastModified)
    && row.bodyHash == snapshot.bodyHash
    && row.lastSuccessAt == Some(env.now) && row.lastModifiedAt == snapshot.lastModifiedAt
    && IsScheduled(cfg, CurrentInterval(snapshot) + CurrentInterval(snapshot) / 2, env, row)
  }

  /** A move was heeded: the feed takes the URL, or becomes a stub of the row that has it. */
  predicate IsMovedRow(cfg: Config, snapshot: Feed, target: string, env: Env, row: Feed) {
    && KeepsSuccess(snapshot, row) && row.checkInterval == snapshot.checkInterval
    && if env.lookup.Found? && env.lookup.id != snapshot.id then
         && row.url == snapshot.url && row.redirectedTo == Some(env.lookup.id) && row.status == Redirected
         && KeepsValidators(snapshot, row)
         && row.consecutiveFailures == snapshot.consecutiveFailures && row.lastError == snapshot.lastError
         && row.nextCheckAt == env.now + cfg.policy.deadRecheck
       else
         && row.url == target && row.redirectedTo == snapshot.redirectedTo && Works(row)
         && row.etag == row.lastModified == row.bodyHash == ""
         && row.nextCheckAt == env.now
  }

  /** Everything the crawl could have decided but where it got to is as it was. */
  predicate IsLeftAlone(snapshot: Feed, row: Feed) {
    && KeepsPlace(snapshot, row) && KeepsValidators(snapshot, row) && KeepsSuccess(snapshot, row)
    && row.checkInterval == snapshot.checkInterval
  }

  /** A redirect that is no move, or could not be looked up, changes nothing. */
  predicate IsUnheededRow(snapshot: Feed, row: Feed) {
    && IsLeftAlone(snapshot, row) && StaysAwake(snapshot, row)
    && row.consecutiveFailures == snapshot.consecutiveFailures && row.lastError == snapshot.lastError
    && row.nextCheckAt == snapshot.nextCheckAt
  }

  predicate IsGoneRow(cfg: Config, snapshot: Feed, env: Env, row: Feed) {
    && IsLeftAlone(snapshot, row) && row.status == Dead
    && row.consecutiveFailures == snapshot.consecutiveFailures + 1 && row.lastError == "feed is gone (410)"
    && row.nextCheckAt == env.now + cfg.policy.deadRecheck
  }

  /** Throttling is no failure: the feed waits as long as it was told, or twice its interval. */
  ghost predicate IsThrottledRow(cfg: Config, snapshot: Feed, header: RetryHeader, fetchedAt: int, env: Env, row: Feed) {
    && IsLeftAlone(snapshot, row) && StaysAwake(snapshot, row)
    && row.consecutiveFailures == snapshot.consecutiveFailures
    && row.lastError == "rate limited (429)"
    && exists asked :: IsRetryDelay(header, fetchedAt, asked) &&
         if asked > 0 then row.nextCheckAt == env.now + asked
         else cfg.policy.Valid() ==>
                row.nextCheckAt == env.now + Max(cfg.policy.min, Min(2 * CurrentInterval(snapshot), cfg.policy.max))
  }

  /** One failure more: dead once the budget is used up, and backed off to twice the interval till then. */
  predicate IsFailedRow(cfg: Config, snapshot: Feed, response: Response, env: Env, row: Feed) {
    && KeepsPlace(snapshot, row) && KeepsValidators(snapshot, row) && KeepsSuccess(snapshot, row)
    && row.consecutiveFailures == snapshot.consecutiveFailures + 1
    && (if response.TransportError? then row.lastError == response.error else row.lastError != "")
    && if 0 < cfg.policy.maxFailures <= row.consecutiveFailures then
         && row.status == Dead && row.checkInterval == snapshot.checkInterval
         && row.nextCheckAt == env.now + cfg.policy.deadRecheck
       else
         StaysAwake(snapshot, row) && IsScheduled(cfg, 2 * CurrentInterval(snapshot), env, row)
  }

  /** What the crawl decides; moves says whether it heeds a move. */
  ghost predicate IsDecision(
    cfg: Config, snapshot: Feed, response: Response, fetchedAt: int, env: Env, moves: bool, row: Feed)
  {
    if moves then IsMovedRow(cfg, snapshot, TrimSpace(AnnouncedIn(cfg, snapshot, response)), env, row)
    else if Reads(cfg, snapshot, response) then IsStoredRow(cfg, snapshot, response, env, row)
    else if IsNothingNew(cfg, snapshot, response) then IsConfirmedRow(cfg, snapshot, response, env, row)
    else if IsRedirect(response) then IsUnheededRow(snapshot, row)
    else if response.Response? && response.status == 410 then IsGoneRow(cfg, snapshot, env, row)
    else if response.Response? && response.status == 429 then
      IsThrottledRow(cfg, snapshot, response.retryAfter, fetchedAt, env, row)
    else IsFailedRow(cfg, snapshot, response, env, row)
  }

  /** What recording a crawl of the snapshot makes of the row that is there by then. */
  ghost predicate IsEffect(
    cfg: Config, before: Feed, snapshot: Feed, response: Response, fetchedAt: int, env: Env, at: int, row: Feed)
  {
    var moves := IsMove(cfg, snapshot, response) && !env.lookup.LookupFailed?;
    && IsWritten(before, response, at, Reads(cfg, snapshot, response) && !moves, row)
    && IsDecision(cfg, snapshot, response, fetchedAt, env, moves, row)
  }

  /** What the crawl asked the tables, and what they answered unless they failed. */
  ghost predicate IsAsked(
    cfg: Config, db: Db, snapshot: Feed, response: Response, env: Env, lookupFails: bool, queryFails: bool)
  {
    var moves := IsMove(cfg, snapshot, response);
    && (moves ==>
          && (env.lookup.LookupFailed? <==> lookupFails)
          && IsLookup(db, TrimSpace(AnnouncedIn(cfg, snapshot, response)), env.lookup))
    && (Reads(cfg, snapshot, response) && (moves ==> lookupFails)
        && |DatesOf(ChannelOf(cfg, response).items)| < 2 ==>
          if queryFails then env.stored == []
          else IsRecentDates(db.RowsOf(snapshot.id), 6, env.stored))
  }
}

# The feed crawl engine, modelled and proved in Dafny

The service keeps a catalogue of podcasts and crawls their RSS feeds. Postgres is both the
catalogue and the queue: a claim leases due feeds, a crawl fetches a feed conditionally, compares
hashes, parses, and one transaction writes the feed's new state and the episodes stamped with
`crawl_seq`. This project models that engine and proves what it is for: that the cheap way of
staying up to date serves what downloading and parsing every time would serve, whatever the
processes interleave, as far as that is true, and exactly how far.

`dafny verify dfyconfig.toml` checks everything.

## How it is laid out

| file | what it models |
|---|---|
| `Prelude`, `Sorting`, `Query` | options and results; sorting, in place and as a function; `ORDER BY ... LIMIT` |
| `Cadence`, `Schedule` | the median gap between publication dates; intervals, clamps, backoff, jitter |
| `Parse`, `Fetch` | the identity of an item and the item loop; what a response means for the feed |
| `Catalogue`, `Seeding` | the tables, and each statement as a function or relation on them |
| `Effects` | what recording a crawl must do to the feed's row, read off the server's response |
| `Store`, `Crawler`, `Worker`, `Handler` | the classes of the program, each method proved against those functions |
| `History` | a closed form of the episodes table over any history of statements, and what reads return |
| `Transactions` | the crawl transaction taken apart into statements, many open at once |
| `Engine`, `Safety`, `Leases`, `Freshness` | all processes interleaved, with stale snapshots, crashes and a clock; what every run keeps, and the exact conditions of what only some do |
| `Concurrent` | the engine with its crawl transactions taken apart, as a refinement of `Engine` |
| `Scenarios` | runs that show where the guarantees end |
| `Backoff` | how the check interval of a feed develops over a run |
| `FailureBudget`, `EngineBudget` | the failure count and the dead status over the life of one feed, and in every run of the engine |

The program's functions compute a crawl in three steps: fetching classifies the response, applying
makes a result of it, recording writes the result down. `Effects.IsEffect` says in one step, case by
case on the raw response, what the recorded row must hold, and `Crawler.CrawlIsEffect` proves that
the three together do just that, so the theorems about runs rest on it and not on the three bodies.

Values that come from outside are arguments: the server's response, the item list the XML
library decodes, clock readings, the jitter's random draw, whether a query or a commit works out.
Instants and durations are whole nanoseconds. SHA-256 is a function argument; where a theorem
needs it to be injective it says so.

`Engine` has steps for seeding, requests, the two halves of a claim (locking the due rows, then
the update), cold crawls, responses, recording, crashes and the clock. A crawl holds the row as it
read it, and recording writes that stale row back. A run is any sequence of enabled steps from the
empty catalogue. Recording a crawl is one step there; `Concurrent.StatementsRefineEngine` proves
that the runs in which every statement of every crawl transaction is a step of its own, with the
row locks that claims skip and other statements wait for, are runs of `Engine`.

What depends on timing is stated from any step of a run on, not from its beginning. A feed is
fresh (`Freshness.FreshFeed`) when the validators of its row, if it has any, stand for the document
of the last recorded parse, and those of every crawl in flight for the document of the parse its
snapshot saw last. It starts so, and with an honest server only a harmful record ends it: one that
parsed nothing, brings validators, and was computed from a row whose last parse has other episodes
than the last recorded one. That is exactly when a step ends it
(`Freshness.FreshExactlyWhenHarmless`), and it can be told from the stored data. Once ended, the
next recorded parse makes the feed fresh again, as far as the crawls that start after it go;
recording an older one is then harmful if it parses nothing and brings validators. Cold crawls are
never harmful, so the overlap of a feed's first crawls is not a problem.

## Where the code and its documentation differ

The model follows the code.

- The repository's `README.md:206-209` says a dead feed is retried when `CRAWLER_DEAD_RECHECK`
  elapses. `FailureBudget.DeadWaitsInFull` says exactly when a crawl that leaves a dead feed dead
  makes it wait that long: after a 410, after a failure with the budget used up, after a 429 that
  asks for just that delay, or when an unheeded move finds that date there. A 410 and then a 500
  (`GoneThenFailing`), a 429 with a short delay (`DeadThenRateLimited`) and a redirect whose target
  cannot be looked up (`DeadThenUnheeded`) bring it back at another time
  (`crawl/crawler.go:164-190,242-257`).
- `crawl/fetch.go:262-281` multiplies the seconds of a Retry-After by a second in 64 bits, so a
  delay is honoured only up to 9223372036 s; beyond that it wraps around.
  `Fetch.SecondsHonouredUpToOverflow` is the exact condition, `Fetch.HugeRetryAfterMeansSoon` an
  example.
- `crawl/parse.go:92-108`: an item without guid and enclosure is keyed by a hash that includes its
  position, so such a key does not survive reordering: swapping two such items changes both keys
  (`Parse.SwapChangesDerivedKeys`). `Parse.KeySurvivesReordering` says exactly which items keep
  theirs.
- The repository's `README.md:214-216` says a row is deleted once its episode has been absent for
  `CRAWLER_EPISODE_GRACE_CRAWLS` crawls. A row absent for exactly that many is still stored
  (`History.AbsentForGraceIsStored`); `History.DeletedAfterGrace` says exactly when it goes
  (`store/episodes.go:152-171`).
- `store/podcasts.go:32-33` says a feed stored with a podcast becomes due.
  `Seeding.StoredFeedIsDue` says exactly when it is: if it was there before, in the rotation, and
  due anyway. The feed of a new URL is born dormant and is not (`Seeding.NewUrlIsNotDue`).
- `store/feeds.go:100` says `MarkFeedRequested` reports whether the feed was activated. It reports
  whether the row was written; the two agree exactly when the feed is dormant or nothing is written
  (`Catalogue.WrittenMeansActivated`), so not for an active feed whose throttle has elapsed
  (`Catalogue.WrittenNotActivated`).

## Model

| member | source | states |
|---|---|---|
| Freshness.CheapCrawlServesCurrentDocument | crawl/crawler.go:103-190 | from any step at which the feed is fresh, with a server that sends a 304 only for a validator issued with its current document, every recorded crawl that ends changed-and-stored or not modified leaves a list equal to the parse of the document the server had, whatever overlapped, as long as no harmful crawl was recorded since then or since the last recorded parse |
| Freshness.LeasedCrawlServesCurrentDocument | store/feeds.go:53-90 | the same from any step at which the fresh feed is free, when from then on its crawls end inside their leases and no cold crawl of it starts |
| Freshness.CrawledFeedServesCurrentDocument | service/podcast/routes.go:201-213 | the same for a feed crawled with success before, where crawls need only end inside their leases: no cold crawl of it can start |
| Freshness.FreshInEveryRun | crawl/crawler.go:118-163 | the invariant behind it: fresh once, honest and harmless since, fresh now |
| Freshness.ParseRefreshes | store/feeds.go:158-203 | a recorded parse makes the feed fresh again from that parse on, whatever was recorded before it and is still under way |
| Freshness.FreshExactlyWhenHarmless | store/feeds.go:158-188 | an honest step of a fresh feed leaves it fresh if and only if it does not record a crawl that parsed nothing, brings validators, and whose snapshot saw last a parse with other episodes than the last one has |
| Freshness.ConfirmationServesExactly | crawl/crawler.go:118-163 | a crawl of a fresh feed recorded as not modified leaves reads of the server's document if and only if the parse its snapshot saw last serves what the last one does |
| Freshness.ColdCrawlsAreHarmless | service/podcast/routes.go:201-213 | recording a cold crawl is harmless in every run, because a feed never crawled with success holds no validators |
| Scenarios.HarmfulRecordServesStale | store/feeds.go:158-188 | for any configuration and any two documents with different lists there is an honest run in which a changed crawl and then an overlapping 304 are recorded, the server goes back to the old document, and a third crawl, alone and not modified, leaves reads that are wrong |
| Freshness.EveryReadServesLastParse | store/episodes.go:106-129 | in every reachable state of every interleaving a read returns the last committed document, last item per key, in document order |
| Concurrent.StatementsRefineEngine | store/feeds.go:143-209 | however the statements of the crawl transactions interleave with each other and with claims that skip their locks, the tables are those of a run of the engine that records each crawl whole when it commits |
| Concurrent.EveryReadServesLastCommit | store/feeds.go:143-148 | a read between any two statements of such an interleaving returns the last committed document |
| Transactions.RunsAreSerializable | store/feeds.go:143-209 | the committed tables are what the committed crawls run whole, in commit order, leave |
| Transactions.CommitIsAtomic | store/feeds.go:149-209 | an isolated transaction's commit publishes exactly the atomic ApplyCrawl on the tables as they are then |
| History.EpisodesClosedForm | store/episodes.go:142-171 | after any statements in any order crawl_seq counts the committed parses and the rows are exactly the keys sighted within the grace window of the last non-empty parse, as last sighted |
| History.OnlyParsesChangeReads | store/feeds.go:158-203 | a read's possible results change only when a parse of that very feed is recorded |
| History.StoredRowsBounded | store/episodes.go:142-171 | with grace g the table holds at most (g + 1) times the largest document of a feed |
| History.DeletedAfterGrace | store/episodes.go:142-171 | a non-empty parse without the episode leaves its row if and only if it has been absent for at most grace parses |
| History.EmptyParseDeletesNothing | store/feeds.go:196-203 | recording a parse without items leaves the stored rows alone |
| Leases.LeaseExcludes | store/feeds.go:53-90 | from any step at which nobody has the feed, while crawls end inside their leases and no cold crawl of it starts, no two processes hold it and it is not due meanwhile |
| Leases.LeaseExcludesOnceCrawled | service/podcast/routes.go:201-213 | for a feed crawled with success before, crawls need only end inside their leases |
| Leases.ExclusiveExactlyWhenPolite | store/feeds.go:57-63 | a step of an exclusively held feed keeps it so if and only if it lets no lease on it run out and starts no cold crawl of it |
| Scenarios.OverrunSharesFeed | store/feeds.go:57-63 | in every configuration some run without cold crawls ends with two processes crawling one feed under leases, one past its own and one within |
| Scenarios.ColdCrawlSharesFeed | service/podcast/routes.go:201-213 | in every configuration some run in which no time passes ends with a crawl within its lease and a cold crawl of one feed |
| Safety.EveryRunIsSafe | crawl/crawler.go:103-257 | lifecycle, validator, redirect and schedule invariants hold in every reachable state |
| Safety.DormantFeedsAreUntouched | store/feeds.go:92-113 | a dormant feed has crawl_seq 0, no rows, no success, no activation, no check |
| Safety.NeverDormantAgain | crawl/crawler.go:109-116 | once awake a feed is never dormant again, whatever stale row is written back |
| Safety.ClaimedFeedsAreInRotation | store/feeds.go:65-79 | dormant feeds and redirect stubs are in no claimed batch, even between its two halves |
| Safety.FetchAfterMoveIsUnconditional | crawl/crawler.go:224-234 | after an accepted move and until another crawl is recorded the row holds no validators, even those its new URL once issued |
| Safety.FirstFetchIsUnconditional | crawl/crawler.go:224-234 | as long as a URL has never answered, its row holds no validators |
| Safety.FeedsTableIsConsistent | crawl/crawler.go:196-239 | no two rows share a URL and every redirect stub points at another existing row |
| Safety.RefusedOnlyForInterveningWriter | crawl/crawler.go:205-237 | a crawl is refused if and only if another row has come to hold its URL since the tables were consulted; with no writer in between an accepted move never is |
| Safety.NoFeedIsStranded | store/feeds.go:57-63 | every feed in the rotation is due, counted from its last claim or record or else its activation, within the largest of the lease, the dead recheck, 1.1 times the longest interval and any Retry-After its own server has sent, whether its worker recorded, failed or died |
| FailureBudget.BudgetOverTraces | crawl/crawler.go:118-190 | consecutive_failures counts the failed, unparsable and 410 crawls since the last success or accepted move; the feed is dead if and only if that stretch has a 410 or a used-up positive budget |
| EngineBudget.BudgetInEveryRun | crawl/crawler.go:118-190 | in every run of the engine that makes the feed no stub and in which no overlapping crawl misses an outcome that matters, the row counts its recorded failures since the last success or accepted move, and is dead if and only if one of them was a 410 or they have used up a positive budget |
| EngineBudget.CountsExactlyWhenTallied | store/feeds.go:158-188 | a step keeps the row and the snapshots in flight counting if and only if it records no failure, and no recovery from one, beside another crawl of the feed |
| EngineBudget.LoneCrawlsAreTallied | store/feeds.go:53-90 | when no step finds two crawls of the feed in flight, none misses an outcome that matters |
| EngineBudget.LeasedBudget | store/feeds.go:53-90 | the budget theorem for a feed whose crawls end inside their leases and that is never crawled cold |
| FailureBudget.DeadWaitsInFull | crawl/crawler.go:164-190 | a dead feed stays dead through everything but a success or a heeded move; then it waits the whole recheck if and only if it got a 410, failed with the budget used up, got a 429 that asks for just that delay, or was an unheeded move and the date was there |
| FailureBudget.GoneThenFailing | crawl/crawler.go:242-257 | a 410 and then a 500 leave a new feed dead and due after twelve hours |
| Worker.Worker.Drain | crawl/worker.go:43-59 | the drain loop empties the backlog in exactly as many non-empty batches as it takes, claims each due feed once, earliest first, leaves every such feed as one crawl of its leased row leaves it, recorded unless the commit failed, and touches no other feed |
| Worker.Worker.RunBatch | crawl/worker.go:67-105 | one batch claims the earliest due feeds and crawls each once, every outcome recorded unless its commit failed; afterwards they are not due and nothing else has changed |
| Worker.BatchesRoundUp | crawl/worker.go:49-53 | a backlog of n feeds takes n / batch size batches, rounded up |
| Worker.CrawlReschedules | crawl/crawler.go:118-190 | a crawl puts a leased feed into the future if and only if it did not move its URL |
| Seeding.BatchSeedsLikeEach | store/podcasts.go:137-206 | the batched transaction leaves the same catalogue as one transaction per podcast, up to ids and first due times, with repeated URLs, repeated itunes ids and empty URLs |
| Seeding.SeedEachSeeds | store/podcasts.go:30-98 | storing podcasts one at a time leaves what seeding must: old feeds untouched, a new dormant feed per new URL, last details, last named link |
| Seeding.KnownLinkIsKept | store/podcasts.go:74-76 | a known feed link is never erased, and stays when no response names another feed |
| Seeding.SeedingIsIdempotent | store/podcasts.go:142-206 | seeding the same list again adds no feed and changes no podcast |
| Seeding.StoredFeedIsDue | store/podcasts.go:30-59 | the feed stored with a podcast is due if and only if it was there before, active or dead, and due |
| Store.Store.UpsertPodcasts | store/podcasts.go:142-206 | seeds the whole list or, if the transaction does not commit, changes nothing |
| Store.Store.UpsertFeedURLs | store/podcasts.go:210-249 | the list built never repeats a URL, so the one statement cannot fail, and every URL of the list gets its feed's id |
| Store.Store.InsertFeeds | store/podcasts.go:223-248 | a multi-row upsert works if and only if no URL repeats; otherwise nothing changes |
| Store.Store.UpsertPodcastWithFeed | store/podcasts.go:36-98 | one podcast and its feed are stored together or not at all; there is a feed if and only if there is a URL |
| Store.Store.ClaimDueFeeds | store/feeds.go:64-90 | claims the earliest due active and dead feeds, all of them or as many as the limit allows; of those rows exactly the next check, a lease away, and the last check, now, change; the leased rows are returned |
| Store.Store.MarkFeedRequested | store/feeds.go:101-125 | the row is written if and only if it is dormant, was never requested, or was requested longer ago than the throttle; a write stamps it, and wakes a dormant feed, due at once; the result says whether it was written |
| Catalogue.RequestsAreThrottled | store/feeds.go:92-117 | over any sequence of requests the writes are more than the throttle apart, and every request is written or within the throttle of a write |
| Store.Store.ApplyCrawl | store/feeds.go:149-209 | either the whole crawl is in the tables, the row being the result's feed but for what only the tables know, or, refused or cut off, nothing of it is and the error says which |
| Store.Store.UpsertFeed | store/podcasts.go:44-58 | a known URL keeps its row as it is; a new one gets a dormant, blank row with a six hour interval |
| Store.Store.UpsertEpisodes | store/episodes.go:51-104 | writes every item under its key with the crawl's stamp, a repeated key being overwritten |
| Store.Store.PruneEpisodes | store/episodes.go:152-171 | deletes exactly the rows older than the grace window and returns how many |
| Store.Store.EpisodesByFeed | store/episodes.go:111-129 | exactly the rows stamped with the feed's crawl_seq, once each, by position |
| Store.Store.RecentEpisodeDates | store/feeds.go:220-237 | the newest dates of the dated rows, at most the limit, newest first |
| Catalogue.RecentDatesAreNewest | store/feeds.go:220-237 | a dated row whose date is missing is no newer than any that is there, and missing only for the limit |
| Catalogue.ApplyCrawlConsistent | db/migrations/000001_init.up.sql:15-37 | a recorded crawl, however stale its snapshot, keeps the primary, unique and foreign keys and the check on redirects |
| Crawler.Crawler.CrawlFeed | crawl/crawler.go:72-100 | the tables end up as the atomic write of the outcome, whose row is the effect the response calls for, or unchanged with an error; the queries asked are those the response calls for; the report names an error if and only if the crawl went wrong |
| Crawler.CrawlIsEffect | crawl/crawler.go:103-257 | fetching, applying and recording together leave every column of the row as the raw response calls for: stored document, nothing new, move, stub, unheeded move, 410, 429, failure |
| Crawler.RegularShowIsPolledAtItsGap | crawl/crawler.go:131-141 | when a new document is stored and most of the gaps between the first six dates of its items, completed from the table when there are fewer than two, are the same, the recorded interval is that gap within the clamps |
| Crawler.StoredDocumentSetsInterval | crawl/crawler.go:131-141 | the recorded interval of a stored document is the clamped median gap of those dates, or six hours when no two of them differ |
| Crawler.ErrorExactlyWhenWrong | crawl/crawler.go:118-190 | a crawl reports an error if and only if there was no response, a status outside 2xx that is neither 304 nor a usable permanent redirect, an unusable body, or a new document that does not parse |
| Backoff.FailuresAccumulate | crawl/crawler.go:242-257 | from any step of a run on, k recorded failures within the budget of a feed crawled once at a time leave its row with min(Max, 2^k c) |
| Backoff.QuietChecksAccumulate | crawl/crawler.go:149-161 | k recorded checks that find nothing new leave it with the quiet backoff of k checks |
| Backoff.IntervalsStayInRange | crawl/schedule.go:33-60 | in every reachable state the interval of a feed ever crawled with success lies between Min and Max, and any other there or at the six hours it started with |
| Crawler.Crawler.Apply | crawl/crawler.go:103-190 | the field by field next state is the one computed from the snapshot, the response and what the two queries answer, which are missing only where they failed |
| Crawler.Crawler.ApplyMove | crawl/crawler.go:196-239 | the feed takes the URL, becomes a stub of its owner, or is left alone, by what the lookup answers |
| Crawler.Crawler.RecentDates | crawl/crawler.go:261-280 | the first six dated items, completed from the table only when there are fewer than two |
| Crawler.RepeatedDatesAreHarmless | crawl/crawler.go:258-280 | stored dates that the document repeats do not disturb the cadence |
| Handler.Handler.GetEpisodes | service/podcast/routes.go:164-247 | there is a feed to serve if and only if the catalogue links one or iTunes names one that can be stored; the request wakes it; it then fails if and only if the feed was never crawled and its crawl goes wrong or is not committed; a crawled feed costs no fetch, a crawl's document is the answer |
| Handler.Handler.ResolveFeed | service/podcast/routes.go:274-311 | the catalogue answers if and only if it can be read and links the podcast to a feed; otherwise what iTunes says is stored under the podcast's own id, with its feed; it succeeds if and only if there is a feed; every failure has its error |
| Handler.FailsExactlyWhenWrong | service/podcast/routes.go:204-212 | a cold crawl of a row read before it was woken is never refused, so it fails if and only if the crawl goes wrong or its commit does |
| Fetch.Fetch | crawl/fetch.go:124-222 | what each of the six outcomes means for the response, and what comes with it: status code, body and hash, validators kept over a 304, redirect target, Retry-After delay in all its forms, and whether there is an error |
| Fetch.OutcomesExclude | crawl/fetch.go:156-222 | no response means two outcomes, so each is reached if and only if the response means it |
| Fetch.SecondsHonouredUpToOverflow | crawl/fetch.go:267-272 | a delay in seconds is honoured if and only if it is at most 9223372036 |
| Parse.ParseFeed | crawl/parse.go:26-68 | the document parses if and only if its XML does; then there is one episode per item, in document order, holding the fields of the item, trimmed where the source trims, under the key the identity rule gives it |
| Parse.TrimSpaceTrims | crawl/parse.go:35-58 | trimming drops the white space at both ends and nothing else |
| Parse.DuplicatedGuids | crawl/parse.go:75-90 | exactly the usable guids that occur more than once |
| Parse.KeysCollideOnlyOnEnclosure | crawl/parse.go:92-108 | two items share a key if and only if both fell back to the same trimmed enclosure URL |
| Parse.KeySurvivesReordering | crawl/parse.go:75-108 | an item keeps its key under a permutation of the document if and only if its guid is there and no other item's, or it has an enclosure, or it keeps its place |
| Cadence.ComputeMedianGap | crawl/schedule.go:89-114 | copy, two in-place sorts and the gap loop compute the median of the positive gaps |
| Cadence.MedianGapIsMiddle | crawl/schedule.go:89-114 | with the different dates in order and their differences in order, the cadence is the middle difference, or the mean of the two middle ones rounded down, and 0 for fewer than two different dates |
| Cadence.MedianGapDependsOnSet | crawl/schedule.go:85-114 | the median gap is a function of the set of dates: order and repetition do not matter |
| Cadence.OutlierMovesOneRank | crawl/schedule.go:85-88 | one date before or after all others, however far, leaves the median between the old gaps next to the middle |
| Cadence.MedianWithinSpan | crawl/schedule.go:98-113 | the gaps add up to the span of the dates, so the median times half the gaps, and the sum of the two middle gaps, stay within it |
| Schedule.PolledAtItsCadence | crawl/schedule.go:33-44 | a show most of whose gaps are equal is polled at that gap, within the clamps |
| Schedule.ErrorBackoffClosedForm | crawl/schedule.go:54-60 | k failures from interval c lead to min(Max, 2^k c) |
| Schedule.QuietBackoffGrows | crawl/schedule.go:46-52 | quiet backoff strictly grows until it reaches Max and then stays |
| Schedule.QuietReachesMax | crawl/schedule.go:46-52 | it gets there in at most twice as many checks as doubling needs |
| Schedule.ErrorOutpacesQuiet | crawl/schedule.go:54-60 | a broken feed is backed off at least as fast as a quiet one |
| Schedule.JitterWithinTenPercent | crawl/schedule.go:116-128 | a jittered delay is within a tenth of the interval, and positive from 2 ns on |
| Schedule.JitterFollowsDraw | crawl/schedule.go:116-128 | it is the interval times 0.9 plus 0.2 times the draw, rounded down |
| Schedule.FactorsAreExact | crawl/schedule.go:22-60 | a quiet check makes the interval half as long again, an error twice as long, within the clamps; without an interval they start from six hours |
| Schedule.ChangeIsExact | crawl/schedule.go:33-44 | after a change the interval is the cadence of the dates, six hours when they are all the same one, within the clamps |
| Schedule.ClampIsExact | crawl/schedule.go:74-83 | the clamp with both bounds, one, or none set |

## Left out

- Worker.Worker.Drain: the clock stands still during the drain, the feeds of a batch are crawled one after the other, no crawl ends in an accepted move (which makes the feed due again at once, see Worker.CrawlReschedules), and Min is at least 2 ns; the concurrency of the batch is in Engine, the ticker and the context are not modelled.
- Worker.Worker.RunBatch: an error of the claim itself, which ends the drain until the next tick, is not modelled.
- Store.Store.ClaimDueFeeds: no other transaction holds a lock while the class runs; claims that skip locked rows are Engine's LockDue. The order RETURNING lists the rows in is taken to be the order of selection.
- FailureBudget.DeadWaitsInFull: assumes a dead recheck longer than 1.1 times Max; otherwise an ordinary wait could by chance be as long.
- Cadence.ComputeMedianGap: dates are unbounded integers; saturation in time.Sub is not modelled.
- Schedule.JitterWithinTenPercent: the draw and the product are real numbers; float rounding is not modelled, nor in the factors 1.5 and 2.0, which are exact or floored below about 2^52 ns.
- Fetch.Fetch: the exchange is an argument. HTTP transport, following temporary redirects, gzip, resolving Location against the URL, the shape of error messages and strconv or date parsing of headers are left out.
- Parse.ParseFeed: the decoded channel is an argument. XML, date layouts, and parsing of lengths and numbers are left out.
- Seeding.BatchSeedsLikeEach: created and updated timestamps are not modelled.
- Concurrent.StatementsRefineEngine: locks other than those of claims, the row lock of the feed update and the pending entries of the unique URL index are left out; a deadlock or a lost connection is an abort, and the other writers' transactions are single steps.
- Engine's crawl reads the tables for the move target and the stored dates at the moment the response arrives, in one step.
- Timestamps are not rounded to microseconds, positions and sequence numbers are unbounded, first_seen_at, last_seen_at, created_at and updated_at are not kept.
- The shared in-flight cold crawl of one process (singleflight) is not modelled; a process crawls a feed at most once at a time. The budget that cuts a cold crawl off is a crash.
- Search, JSON mapping, routing, logging, configuration, migrations, connection pools, signal handling and the per-host rate limiter are left out: they would add only easy members.

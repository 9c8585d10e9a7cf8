# Verified model of the dashboard backend

This project models the hard parts of the backend of a multi-tenant shop dashboard in Dafny and proves what they
promise: the three-tier dashboard cache and its background refresh, the precompute and warm-up schedulers, rate
limiting and request sharing, durable JSON files and their lock, two database migrations, the classification of
orders and the SQL generated for it, calendar windows, and the choice of one row per shop.

`dafny verify dfyconfig.toml` checks the whole project.

## How it is modelled

* What several callers do at once (worker pools, lock files, in-flight sharing, the cache) is a state machine. The code
  between two awaits, or one file or database operation, is one step; loaders, timers, crashes, lost writes and
  the passing of time are steps of the environment. A theorem about runs holds for every interleaving.
* Code that updates its own Maps, counters or files is also a class, whose methods are proved to take exactly the step
  the state machine takes (`JobQueue.Queue`, `RateLimit.RateLimiter`, `RequestDedupe.InFlightTable`,
  `StorageFile.JsonFile`, `PrecomputeHints.HintTable`, `PrecomputeScheduler.Scheduler`, `DashboardMemory.Process`,
  `DashboardServer.Server`, `SyncVerify.Connection`, `OrdersBackfill.OrdersTable`).
* Pure code is functions; what it means is in lemmas.
* The Maps, the table and the snapshots of the cache are keyed by the text of a request's key, as in the code. A payload
  carries the key its loader was called for, and an entry when it was loaded and the time its source gave it, so that "this
  tier holds the right value" and "this answer is not too old" can be said.

| files | models |
|---|---|
| `CacheKey`, `DashboardMemory`, `DashboardCache`, `DashboardRequests`, `DashboardTiers`, `DashboardProgress`, `DashboardProvenance`, `DashboardFreshness`, `DashboardRefresh`, `DashboardHints`, `DashboardRuns`, `DashboardAge`, `DashboardAgeRuns`, `DashboardServer` | the dashboard cache, read-only mode, background refresh, precompute jobs |
| `JobQueue`, `RollingBatch`, `PrecomputeScheduler` | worker pool, rolling batches, hints and their reordering |
| `RateLimit`, `RateLimitClock`, `RequestDedupe` | sliding-window limiters, cooldown, sharing of requests in flight |
| `StorageFile`, `StorageLock` | JSON files with backups and recovery, lock files |
| `Ddl`, `SyncPlans`, `SyncMigration`, `SyncVerify` | the sync-stability migration, from any schema |
| `OrderStatus`, `OrderStatusFront`, `OrderFilter`, `OrderFilterSql`, `OrderFilterRows`, `OrderMatching`, `OrdersBackfill` | order statuses on both sides, filters, their SQL, the backfill |
| `Calendar`, `TimeRange` | calendar days, time ranges |
| `ShopDedupe`, `ShopStanding` | one row per platform shop |
| `Text`, `Options`, `Sets`, `MinMax` | trimming, ASCII case mapping, patterns and numbers as text, optional values, sets |

## Where the code does not keep what its names or comments suggest

Each of these is a theorem here. Where it says exactly when, both directions are proved, for all inputs or runs; the rest are
inputs or runs that show the failure.

* Two keys with one text share everything: a request is answered with what was loaded for the other, in every configuration
  (`CollidingKeysShareAValue`); keys with a colon in the shop or the market can be such (`UncleanKeysShareAValue`), keys whose
  fields are free of the separator behind them never are (`KeysDiffer`). A trend can also be answered with what was loaded
  for another of the same dimensions (`TrendKeysCanShareAValue`). Every answer of every run is its own key's exactly when no
  two keys asked for have one text and, where the table is on and rows may be stale, no two trends have the same dimensions
  (`AlwaysItsOwnIff`).
* A value that has expired in its tier is served once as stale and then, from memory, as fresh, with no refresh ordered, for
  a whole new time to live. Answers without a pending refresh are past their time only in this way
  (`UnrefreshedAnswersAreInTime`); it happens exactly under the settings of `StaleComesBackIff`.
* Every hit in memory writes the snapshot anew with a whole new life, so a value can be kept by requests alone and served as
  fresh at any age (`RequestsKeepAnOldValueAlive`). The age of the answers without a refresh is bounded exactly when snapshots
  do not take the key, or else outside read-only mode both the time memory gives an expired snapshot and the life of a
  snapshot are short enough to count as near their end from the start (`AgeIsBoundedIff`).
* A memory hit is refreshed when the entry's whole time to live is short, not when its end is near: an entry with a long one
  is served without a refresh in its last millisecond, one with a short one orders a refresh in its first
  (`RefreshIgnoresTheClock`).
* In read-only mode, off trends, a stale table row is served before the snapshot is asked for a fresh one (`FreshFirstIff`).
* The lock admits two holders when two waiters have both seen one abandoned stale file, even if every holder releases in
  time (`PromptReleaseAloneAdmitsTwoHolders`); it excludes exactly as long as no waiter unlinks a live file.
* When the clock goes back to where a time that had left the window is inside it again, both limiters can decide otherwise
  than by the whole history, and the middleware lets one key's requests change another's decisions; on the readings of the
  clock alone, exactly then (`EagerLikeHistoryIff`, `LazyLikeHistoryIff`, `EagerKeysIndependentIff`). More than the limit within
  one window is admitted exactly when it comes within a window of such a time, or for the operation-log check of two such
  times (`EagerBoundedIff`, `LazyBoundedIff`).
* `toCanonicalOrderStatus` returns a non-string for a text such as `constructor`, and is idempotent exactly when the lower-case
  text is not a member of Object.prototype (`ConstructorIsNotIdempotent`).
* The frontend's copy of the status tables knows sample orders, the backend's does not: the labels differ exactly for the texts
  of a sample order, the keys exactly for its label and for `is_sample_order` (`LabelsAgreeIff`, `KeysAgreeIff`).
* `orderMatchesOrderFilter` never reads `order_status`, which the classification does read: an order with only that field is
  matched by no filter of its class except sample (`OnlyOrderStatusIsNotMatched`), and one with two different statuses by
  what the status beside it says (`DerivedIsMatchedIff`). Rows of the orders table are always matched.
* On rows without an analytics_status the valid and the unpaid filter overlap exactly on the orders awaiting payment.
* The migration fails on a kept `sync_jobs` or `sync_logs` that has neither `tenant_id` nor a column `id` in any case; its check
  stays unsatisfied when a required column exists in another spelling only; and the indexes of a newly created
  `shop_sync_status` arrive only with the second run.
* Two backups with one time stamp are one backup; a write over an unreadable main file spends a backup slot on it, and cut
  off before its rename it can lose the value that was recoverable (`UnfinishedWriteOverCorruptMain`).
* When midnight falls between the two readings of the clock a window of today is reversed, and yesterday's can end in the
  future (`WindowsAreOrderedIff`); a reversed custom range keeps one second of each of its outer days.
* With changing hints consecutive precompute rounds can run one job twice and another one never (`ChangingHintsCanSkipAJob`);
  they cover the matrix exactly when every job's rank is, in some round, less than a batch ahead of that round's cursor
  (`ChangingHintsCoverIff`).

## Model

| member | source | states |
|---|---|---|
| CacheKey.KeysDiffer | backend/lib/dashboardCache.js:286-300 | the key text determines every field of the request, for fields free of the separator behind them |
| CacheKey.ColonMovesTheBoundary | backend/lib/dashboardCache.js:287-299 | without that condition two requests for different shops and markets have one key |
| CacheKey.KeySpelledOut | backend/lib/dashboardCache.js:286-300 | the text names the endpoint, tenant, shop, market, filter, range, dates and extra entries, in this order and with these separators |
| DashboardProvenance.TiersHoldLoaderValues | backend/lib/dashboardCache.js:410-1077 | in every reachable state of every run over keys that the text tells apart, every value under a key's text in memory, table, snapshots or on its way there came from a loader: of exactly that key in the table and off trends, on trends of it or, with the table on and stale rows allowed, of another key asked for with the same dimensions; no placeholder, no miss shape, no null snapshot |
| DashboardProvenance.AnswersAreLoaderValues | backend/lib/dashboardReadonlyCache.js:33-353 | every answer of such a run is such a value, or outside read-only mode the trend placeholder, or in it the miss shape |
| DashboardRuns.AlwaysItsOwnIff | backend/lib/dashboardCache.js:286-300 | for whatever set of keys is asked for, in every configuration: every answer of every run is its own key's exactly when no two of the keys have one text and, with the table on, no two trends that allow stale rows have the same dimensions |
| DashboardRuns.CleanKeysServeTheirOwn | backend/lib/dashboardCache.js:286-300 | for all keys whose fields are free of the separators: every answer is its own key's exactly when the table is off or no trend allows stale rows; off trends always |
| DashboardRuns.CollidingKeysShareAValue | backend/lib/dashboardCache.js:332-344 | two keys of one text: a run from the empty cache, in every configuration, that answers the second with the first one's value |
| DashboardRuns.UncleanKeysShareAValue | backend/lib/dashboardCache.js:287-299 | such keys are any two that cut shop and market differently at a colon |
| DashboardProvenance.OnlySomeRequestsLoad | backend/lib/dashboardCache.js:817-967 | in every run only a bypassing request, or outside read-only mode one for no trend, waits for a loader; a trend is answered without |
| DashboardRequests.GoingPastCallsTheLoader | backend/lib/dashboardCache.js:305-317 | a pipeline request, or outside read-only mode one that asks for a fresh value, calls the loader at once whatever memory and the tiers hold: exactly its call is added, it waits, and memory, hints, refreshes and tiers stay as they were |
| DashboardRequests.MemoryAnswersAtOnce | backend/lib/dashboardCache.js:969-996 | any other request with a counting live entry in memory is answered with it at once, and no loader is called |
| DashboardRequests.OthersReadTheTiers | backend/lib/dashboardCache.js:582-614 | any other request comes to the first tier, no loader called; with table and snapshots off it ends as if it had read them in vain |
| DashboardTiers.TheWalkGivesTheVerdict | backend/lib/dashboardCache.js:582-967 | a request that reads the tiers undisturbed, in either mode and whatever they hold: the row or snapshot that answers it, whether a refresh is ordered or hinted, how long memory keeps it and what is sent to the snapshot are one decision on the fields; when nothing is there, it is the loader, the trend placeholder or the miss shape |
| DashboardTiers.WalkRules | backend/lib/dashboardReadonlyCache.js:137-352 | of every tier: which hit is final and which orders a refresh, where a trend must have points, which rows go to the snapshot |
| DashboardRequests.LoaderAnswersTheRequest | backend/lib/dashboardCache.js:456-475 | what its loader gives a waiting request is its answer, without a refresh, and goes to memory, table and snapshots where these take it; an error is its answer and nothing else changes |
| DashboardRequests.JobsAndRefreshesWriteThrough | backend/lib/dashboardPrecomputeCore.js:167-227 | so does what a job or a background refresh loads, kept for the life of read-only mode or of serving |
| DashboardRequests.JobsLoadWhatIsNotFresh | backend/lib/dashboardPrecomputeCore.js:167-227 | a job starts unless its key has one under way, and calls the loader exactly when what is there is not fresh |
| DashboardRequests.RowsAreWritten | backend/lib/dashboardTableCache.js:206-262 | a row that is written lasts its time from now on and keeps the columns it was first inserted with |
| DashboardRequests.SnapshotsAreWritten | backend/lib/dashboardSnapshotCache.js:277-322 | a snapshot that is written lasts until the end it was sent with |
| DashboardRequests.CleanUpsTakeOne | backend/lib/dashboardTableCache.js:263-275 | a clean-up takes away one row, one snapshot or one entry of memory, and changes nothing else |
| DashboardProgress.EverythingEnds | backend/lib/dashboardCache.js:410-1077 | in every run a request takes at most two steps a tier and one for its loader, a refresh or a job at most three, and until it has ended it has a step left that it can make whatever the others do |
| DashboardProgress.EndedStaysEnded | backend/lib/dashboardCache.js:241-248 | what has ended is never touched again: no answer is given twice, no refresh and no job settled twice |
| DashboardProgress.LoadersAreCalledOnce | backend/lib/dashboardCache.js:456-475 | in every run no request, refresh or job calls its loader twice, and each that waits for one has called it |
| DashboardFreshness.UnrefreshedAnswersAreInTime | backend/lib/dashboardCache.js:582-708 | in every run over such keys, for every answer without a pending refresh, from memory, a tier or a loader: it is past the end its tier gave it exactly when it had expired there before it was read, and was then read where a refresh is always ordered |
| DashboardAgeRuns.StaleSnapshotComesBack | backend/lib/dashboardReadonlyCache.js:338-348 | with or without the table, a snapshot expired for however long is served as stale and then, from memory, as fresh; in read-only mode for all times to live |
| DashboardAgeRuns.StaleRowComesBack | backend/lib/dashboardReadonlyCache.js:247-285 | so is an expired row, of the key or on trends of another with its dimensions |
| DashboardAgeRuns.StaleComesBackIff | backend/lib/dashboardCache.js:646-708 | for every key of any set the text tells apart: some run serves an expired value without a refresh exactly when snapshots take the key and memory keeps it long enough, or a stale row may be read for it, one can be had, and memory keeps that long enough |
| DashboardAgeRuns.RequestsKeepAnOldValueAlive | backend/lib/dashboardCache.js:185-198 | for every age a run, with or without the table, in which the one value ever loaded is answered at that age as fresh, with no refresh and no hint |
| DashboardAgeRuns.AgeIsBoundedIff | backend/lib/dashboardCache.js:969-996 | over all runs the answers without a refresh are no older than some bound exactly when snapshots do not take the key, or outside read-only mode both what memory gives an expired snapshot and a snapshot's life are near their end from the start; then the bound is the longest life of a row, or the staleness allowed and one life in memory |
| DashboardAgeRuns.QuietAgeIsBoundedIff | backend/lib/dashboardCache.js:185-198 | over the runs that order no refresh, exactly when snapshots do not take the key or outside read-only mode a snapshot's life is near its end from the start |
| DashboardAge.ReachedAged | backend/lib/dashboardCache.js:582-708 | in every run, every answer without a refresh is within that bound, or comes from a snapshot under settings that allow it; one read as expired comes from a stale row that is allowed, or from a snapshot |
| DashboardRuns.RefreshIgnoresTheClock | backend/lib/dashboardCache.js:969-996 | an answer from memory orders a refresh exactly when the entry's whole time to live is short, at whatever moment of it |
| DashboardFreshness.FreshFirstIff | backend/lib/dashboardReadonlyCache.js:298-350 | fresh tiers are asked before stale ones, except exactly on plain endpoints in read-only mode with table and snapshots on |
| DashboardRuns.TrendKeysCanShareAValue | backend/lib/dashboardTableCache.js:152-192 | with the table on, read-only or not, with or without snapshots, the dimension read lets any two trend keys of the same dimensions share a value: a run from the empty cache |
| DashboardRefresh.RefreshesAreSingleFlight | backend/lib/dashboardCache.js:205-248 | in every reachable state at most one refresh of a text is unsettled, the Map holds a text exactly then, and pending markers are among them |
| DashboardRefresh.OrderingTwiceIsOrderingOnce | backend/lib/dashboardCache.js:205-214 | ordering a refresh adds one for exactly this request when its text has none under way, else nothing; afterwards it has one, no other text is touched, and ordering again changes nothing |
| DashboardRefresh.SettlingFreesTheKey | backend/lib/dashboardCache.js:241-248 | the end of a refresh, good or bad, frees its text and no other, with its pending marker, so that it can be refreshed again |
| DashboardRefresh.LoadedValueIsServed | backend/lib/dashboardCache.js:162-244 | what a refresh loads stands in memory for its time to live, is sent to table and snapshots exactly where these take it, and touches no other text |
| DashboardRefresh.LoadedValueStays | backend/lib/dashboardCache.js:332-344 | in every run from there, until that time is over or the text is set or forgotten, a page that asks for it is answered from memory with that value |
| DashboardRefresh.PendingAnswersAreRefreshed | backend/lib/dashboardCache.js:952-966 | an answer on arrival that promises a refresh has one under way, in read-only mode a hint of that moment |
| DashboardRefresh.LateAnswersAreRefreshed | backend/lib/dashboardCache.js:646-708 | the same for an answer after some tiers were read |
| DashboardRefresh.JobsAreSingleFlight | backend/lib/dashboardPrecomputeCore.js:167-227 | at most one precompute job of a key is unfinished, and the Map holds its key exactly so long |
| DashboardRefresh.ReadonlyNeverLoads | backend/lib/dashboardCache.js:205-209 | in read-only mode, in every run, a loader is called only for a pipeline request or a precompute job, and no background refresh exists |
| DashboardHints.ArrivalHints | backend/lib/dashboardReadonlyCache.js:292-352 | in read-only mode an answer from memory leaves the hints alone, a miss on arrival hints its key |
| DashboardHints.TierAnswerHints | backend/lib/dashboardReadonlyCache.js:199-352 | fresh hits leave no hint, stale hits and misses leave one for their key; the answer is pending exactly on stale tiers |
| DashboardHints.PendingKeysStayHinted | backend/lib/dashboardReadonly.js:62-79 | over whole runs, a key answered as pending stays hinted until that answer is older than a hint's life |
| DashboardRequests.ReadingDropsOldHints | backend/lib/dashboardReadonly.js:67-79 | a round that reads the hints drops exactly those older than 15 minutes |
| DashboardServer.RunServer | backend/lib/dashboardCache.js:410-1077 | one process with its Maps, driven under any order of requests, reads, loaders, jobs, writes and time, takes a run of the state machine; no key is refreshed twice at once and every answer is its own key's and in time, as stated above |
| JobQueue.CalledOnceInOrderWithinWidth | backend/lib/dashboardSnapshotWarmScheduler.js:334-366 | in every interleaving the handler is called for 0, 1, 2, ... never twice, and never more than min(max(1, concurrency), total) at a time |
| JobQueue.EveryRunStops | backend/lib/dashboardSnapshotWarmScheduler.js:341-372 | every run ends after exactly two steps per job and one per worker, whatever the handlers do |
| JobQueue.ResolvedIffAllReturned | backend/lib/dashboardSnapshotWarmScheduler.js:367-372 | the pool resolves exactly when every worker has returned |
| JobQueue.ResolvedRunHandledEveryJobOnce | backend/lib/dashboardSnapshotWarmScheduler.js:334-377 | each index is handled exactly once, the count returned is total, the counter ends at total plus the number of workers |
| JobQueue.TalliesPartition | backend/lib/dashboardSnapshotWarmScheduler.js:396-412 | the four outcome counters add up to the number of completions |
| JobQueue.TallyIsCount | backend/lib/dashboardSnapshotWarmScheduler.js:396-412 | each counter is the number of completions that ended in its way |
| JobQueue.Queue.constructor | backend/lib/dashboardSnapshotWarmScheduler.js:334-340 | a queue starts with its counters at zero and the bounded number of workers |
| JobQueue.Queue.ClaimNext | backend/lib/dashboardSnapshotWarmScheduler.js:341-350 | claiming advances the shared counter and starts that index, or lets the worker return |
| JobQueue.Queue.HandlerSettled | backend/lib/dashboardSnapshotWarmScheduler.js:350-364 | a handler that ends in any way counts as handled and frees its worker |
| JobQueue.RunJobQueue | backend/lib/dashboardSnapshotWarmScheduler.js:334-377 | under an arbitrary scheduler the queue resolves and returns total; each counter is the number of completions with its outcome, and together they cover every job |
| RollingBatch.SliceBatch | backend/lib/dashboardSnapshotWarmScheduler.js:175-186 | for any list, cursor and size: the circular window at the cursor, its ends, the next cursor; of an empty list nothing, with every position NaN |
| RollingBatch.CursorClosedForm | backend/lib/dashboardSnapshotWarmScheduler.js:383-393 | after r rounds of n the cursor is (c + r * n) mod total |
| RollingBatch.BatchPositionsAreDistinct | backend/lib/dashboardPrecomputeScheduler.js:93-104 | no batch names a position twice |
| RollingBatch.FullTurn | backend/lib/dashboardPrecomputeScheduler.js:93-104 | total consecutive slots take every position exactly once |
| RollingBatch.VisitsAreOneWalk | backend/lib/dashboardSnapshotWarmScheduler.js:383-393 | rounds that start at the stored cursor are one uninterrupted walk |
| RollingBatch.VisitCountsDifferByAtMostOne | backend/lib/dashboardSnapshotWarmScheduler.js:383-393 | over any run of rounds the visit counts of two jobs differ by at most one |
| RollingBatch.ConsecutiveRoundsCoverEveryJob | backend/lib/dashboardSnapshotWarmScheduler.js:383-393 | rounds whose slots add up to total run every job |
| PrecomputeHints.HintTable.HintDashboardPrecompute | backend/lib/dashboardReadonly.js:62-65 | a hint is set or renewed in place; an empty key is ignored |
| PrecomputeHints.HintTable.ConsumePrecomputeHints | backend/lib/dashboardReadonly.js:67-79 | expired hints are dropped, the newest live keys returned, the live hints kept |
| PrecomputeHints.PutInPlace | backend/lib/dashboardReadonly.js:62-65 | a key that is hinted again gets the new time in its place, a new one goes last; no key stands twice |
| PrecomputeHints.ConsumedAreTheNewest | backend/lib/dashboardReadonly.js:67-79 | at most max keys come, newest first, each hinted within the last 15 minutes; a live hint is left out only when max others at least as new were returned |
| PrecomputeHints.EqualsKeepTheirOrder | backend/lib/dashboardReadonly.js:67-79 | hints of one moment come out in the order they went in |
| PrecomputeHints.ConsumingAgainGivesTheSameHints | backend/lib/dashboardReadonly.js:67-79 | reading hints does not use them up |
| PrecomputeScheduler.PrioritizeJobs | backend/lib/dashboardPrecomputeScheduler.js:67-86 | the loop gives the hinted jobs, then the others |
| PrecomputeScheduler.PrioritizedIsStablePermutation | backend/lib/dashboardPrecomputeScheduler.js:67-86 | for any hints the result has the same jobs, hinted first, in the original order within both parts |
| PrecomputeScheduler.FullBatchFromZero | backend/lib/dashboardPrecomputeScheduler.js:111-126 | a batch as long as the list, taken from 0, is the list, and the cursor is 0 again |
| PrecomputeScheduler.UnchangedHintsCoverTheMatrix | backend/lib/dashboardPrecomputeScheduler.js:93-126 | while the hints stay the same, consecutive rounds run every job |
| PrecomputeScheduler.ChangingHintsCanSkipAJob | backend/lib/dashboardPrecomputeScheduler.js:67-126 | while they change, two rounds can run one job twice and another never |
| PrecomputeScheduler.RankIsThePlace | backend/lib/dashboardPrecomputeScheduler.js:67-86 | a job stands behind the hinted ones before it, or behind all hinted ones and the others before it, and nowhere else |
| PrecomputeScheduler.ChangingHintsCoverIff | backend/lib/dashboardPrecomputeScheduler.js:93-126 | with any hints round by round, the rounds run every job exactly when every job's rank is in some round less than a batch ahead of the cursor, going round |
| PrecomputeScheduler.Scheduler.RunPrecomputeRoundForTenant | backend/lib/dashboardPrecomputeScheduler.js:111-202 | the round takes the window at the stored cursor and runs each of its jobs once; written, skipped and failed are each the number of completions with that outcome and add up to the batch; a full round runs every job and resets the cursor to 0 |
| RateLimit.RateLimiter.constructor | backend/middlewares/rateLimit.js:6-15 | options that are missing or 0 are a minute and 10; the window is at least one second and the limit at least 1 |
| RateLimit.RateLimiter.PruneBuckets | backend/middlewares/rateLimit.js:17-23 | expired timestamps go, and buckets that become empty with them |
| RateLimit.RateLimiter.RateLimitMiddleware | backend/middlewares/rateLimit.js:25-41 | the request is admitted exactly when its pruned bucket has room, and recorded exactly then |
| RateLimit.OperationLogLimiter.CheckOperationLogWrite | backend/middlewares/rateLimit.js:121-129 | the same with only the bucket asked for pruned, stored back only on admission |
| RateLimit.ForgettingNeverChangesADecision | backend/middlewares/rateLimit.js:6-42 | on a steady clock, in particular one that does not go back, both limiters decide every request of every trace as one that keeps the whole history |
| RateLimitClock.EagerLikeHistoryIff | backend/middlewares/rateLimit.js:6-42 | the middleware decides all requests at these times as the whole history would, whatever their keys and the limit, exactly when no reading brings back into the window a time that an earlier one had left behind |
| RateLimitClock.LazyLikeHistoryIff | backend/middlewares/rateLimit.js:121-129 | the same of the operation-log check |
| RateLimitClock.EagerKeysIndependentIff | backend/middlewares/rateLimit.js:25-41 | on the same condition, exactly, other keys never matter to the middleware |
| RateLimitClock.EagerBoundedIff | backend/middlewares/rateLimit.js:25-41 | no window of windowMs, wherever it starts, holds more than max admitted requests of a key, whatever the keys and the limit, exactly when no reading comes within windowMs of a time that an earlier one had left behind |
| RateLimitClock.LazyBoundedIff | backend/middlewares/rateLimit.js:121-129 | for the operation-log check, exactly when none shares a window with two times that one earlier reading had left behind |
| RateLimitClock.AtMostMaxPerWindow | backend/middlewares/rateLimit.js:25-41 | so on a clock that does not go back no window holds more than max requests of a key that the middleware admitted, nor that the operation-log check admitted |
| RateLimit.OtherKeysNeverMatter | backend/middlewares/rateLimit.js:28-39 | the decisions on a key's requests are those on its requests alone: for the middleware on a steady clock, for the operation-log check on any |
| RateLimit.AllowedTimesAreSpaced | backend/middlewares/rateLimit.js:97-119 | allowed platform operations are at least the window apart |
| RateLimit.AllowedIff | backend/middlewares/rateLimit.js:101-109 | after any calls, the next is allowed exactly when it comes at least the window after the last one allowed |
| RateLimit.PlatformCooldown.AssertPlatformOpAllowed | backend/middlewares/rateLimit.js:101-109 | one call is allowed exactly when the window is over since the time stored, and then stores its own; over all calls those of AllowedIff |
| RequestDedupe.LoadsAreSpaced | backend/lib/dashboardRequestDedupe.js:16-37 | in every run two loads of a key start at least ttlMs apart |
| RequestDedupe.CallersGetAFreshLoad | backend/lib/dashboardRequestDedupe.js:16-37 | every caller gets a load of its key started less than ttlMs before the call |
| RequestDedupe.EveryCallIsServed | backend/lib/dashboardRequestDedupe.js:16-37 | in every run exactly the calls with a key are given a promise, at once and in their order |
| RequestDedupe.CallsInsideTheWindowShare | backend/lib/dashboardRequestDedupe.js:16-37 | calls within ttlMs of a load's start share it |
| RequestDedupe.NewestLoadStaysUntilItsOwnTimer | backend/lib/dashboardRequestDedupe.js:28-35 | a late timer never removes a newer load's entry; the newest load is in the table until its own timer fires |
| RequestDedupe.NothingLeftBehind | backend/lib/dashboardRequestDedupe.js:28-35 | the table is empty once all loads have settled and all timers have fired |
| RequestDedupe.TableCanEmpty | backend/lib/dashboardRequestDedupe.js:28-35 | from every reachable state, when the running loads settle at once and no call comes, the table can be empty ttlMs later |
| RequestDedupe.InFlightTable.WithInFlightDedupe | backend/lib/dashboardRequestDedupe.js:16-27 | one call: whether it shares, which promise it gets, what is stored; an empty key goes around the table |
| RequestDedupe.InFlightTable.OnTimer | backend/lib/dashboardRequestDedupe.js:28-35 | a timer removes the entry only if it is still its own |
| StorageFile.RecoveryAfterCrash | backend/lib/storageFile.js:106-178 | from any disk, after a crash between any two file operations of any sequence of writes, recovery gives the value of the last write whose rename happened; before the first rename, unless main was unreadable, what it gave before |
| StorageFile.BackupsAreTheLastReplaced | backend/lib/storageFile.js:53-80 | from any disk, after writes with increasing stamps newer than its backups, the backups are exactly the newest max of those there were and of what the writes replaced, readable or not; nothing goes before the first is made |
| StorageFile.SameStampLosesABackup | backend/lib/storageFile.js:71-80 | a second backup of one stamp replaces the first |
| StorageFile.CorruptMainRecoversNewestReadable | backend/lib/storageFile.js:106-135 | a lost or unreadable main file gives the newest readable backup, and nothing only if none is readable |
| StorageFile.RestoreMakesRecoveryPermanent | backend/lib/storageFile.js:116-131 | a recovered value is put back: the next read finds it in the main file, and all backups are kept |
| StorageFile.LosingMainCostsOneWrite | backend/lib/storageFile.js:106-178 | losing the main file after writes to any such disk gives the value before the last one |
| StorageFile.UnfinishedWriteOverCorruptMain | backend/lib/storageFile.js:145-178 | a write over an unreadable main file, cut off at any operation before its rename, keeps recovery exactly when fewer than max - 1 unreadable backups are newer than the readable one, or its deletions have not come to it yet |
| StorageFile.JsonFile.PruneBackups | backend/lib/storageFile.js:53-69 | the oldest backups beyond max are deleted |
| StorageFile.JsonFile.BackupFileSync | backend/lib/storageFile.js:71-80 | an existing main file is copied to its stamp, then the backups are pruned |
| StorageFile.JsonFile.AtomicWriteJsonSync | backend/lib/storageFile.js:145-178 | backup, temporary file, rename |
| StorageFile.JsonFile.ReadJsonWithRecovery | backend/lib/storageFile.js:106-135 | the value of main, else of the newest readable backup, put back when asked for |
| StorageLock.NoLiveBreakMeansMutualExclusion | backend/lib/storageFile.js:193-264 | in every run that breaks no live lock at most one call holds it, and a call that timed out, failed or released owns no file |
| StorageLock.LiveBreakAdmitsASecondHolder | backend/lib/storageFile.js:180-191 | conversely, a live lock about to be broken leads to two holders |
| StorageLock.PromptReleaseMeansMutualExclusion | backend/lib/storageFile.js:180-229 | without crashes, release before the stale limit is enough, and no file is ever broken |
| StorageLock.GuardedBreaksMeanMutualExclusion | backend/lib/storageFile.js:180-229 | with crashes it is enough together with no create between a waiter's look and its unlink |
| StorageLock.TwoWaitersOnAnAbandonedFile | backend/lib/storageFile.js:180-191 | two waiters that saw one abandoned file both get in, though no live file was ever stale |
| StorageLock.PromptReleaseAloneAdmitsTwoHolders | backend/lib/storageFile.js:180-229 | such a run exists from the start, with three calls and one crash |
| StorageLock.EveryCallEnds | backend/lib/storageFile.js:193-264 | in every run a call makes at most waitMs / pauseMs + 1 attempts and a bounded number of steps, times out only after the whole wait, and while it has not ended has steps left and can make one |
| StorageLock.AloneItEnds | backend/lib/storageFile.js:193-264 | from every reachable state a call ends by its own steps and the passing of time alone |
| Ddl.InsertAfterPlaces | backend/db/migrateSyncStability41.js:98-112 | AFTER puts the new column directly behind the named one and moves no other |
| Ddl.TakenAreFew | backend/db/migrateSyncStability41.js:63-68 | a finite set of tables holds no more candidate names than it has members, so the search for a free name ends |
| SyncMigration.AddColumnsAddsOnlyListed | backend/db/migrateSyncStability41.js:35-45 | columns that were not there before are listed ones, and hold their default in every row |
| SyncMigration.MigrationSucceedsIff | backend/db/migrateSyncStability41.js:82-142 | from any schema the migration gets through exactly when each kept sync_jobs and sync_logs has tenant_id, or an id to place it behind |
| SyncMigration.NothingIsLost | backend/db/migrateSyncStability41.js:59-73 | whether or not it gets through, every table keeps its columns, rows, values and indexes, or is renamed unchanged to a name not in use; no two end up in one, and no table appears but the four |
| SyncMigration.ColumnsAfterMigration | backend/db/migrateSyncStability41.js:82-263 | the columns afterwards are exactly the old ones and the listed ones no spelling of which existed |
| SyncMigration.SecondRunAddsNoColumns | backend/db/migrateSyncStability41.js:262-268 | a second run changes no column and no row, a third nothing at all |
| SyncMigration.OneRunIsFinal | backend/db/migrateSyncStability41.js:262-268 | one run is final when shop_sync_status existed |
| SyncMigration.IndexesNeedASecondRun | backend/db/migrateSyncStability41.js:217-262 | otherwise that table has no index after the first run and its indexes after the second |
| SyncVerify.VerifyOkIff | backend/db/migrateSyncStability41.js:271-336 | after a migration the check finds nothing missing exactly when kept sync_jobs and sync_logs had id and no kept table has a required column in another spelling only |
| SyncVerify.NothingMissing | backend/db/migrateSyncStability41.js:320-336 | the list of missing items is empty exactly when every required table and column is there |
| SyncVerify.MissingAre | backend/db/migrateSyncStability41.js:320-336 | it holds exactly the required tables that are not there, and of the others the required columns that are not |
| SyncVerify.Connection.AddColumn | backend/db/migrateSyncStability41.js:35-45 | one column, with the caller's set and the swallowed duplicate error |
| SyncVerify.Connection.CreateIndex | backend/db/migrateSyncStability41.js:47-57 | one index, skipped when it exists |
| SyncVerify.Connection.FindLegacyName | backend/db/migrateSyncStability41.js:63-68 | the loop ends, with the first candidate name no table has |
| SyncVerify.Connection.ArchiveLegacyTable | backend/db/migrateSyncStability41.js:129-142 | a table without shop_id is renamed to that name, any other left alone |
| SyncVerify.Connection.EnsureTable | backend/db/migrateSyncStability41.js:75-142 | archive, create, columns, indexes for one table, keeping what was done when a statement fails |
| SyncVerify.Connection.MigrateSyncStability41 | backend/db/migrateSyncStability41.js:262-268 | the four tables in order, up to the first failure |
| SyncVerify.Connection.VerifySyncStabilitySchema | backend/db/migrateSyncStability41.js:271-336 | ok is the emptiness of the collected list |
| OrderStatus.CanonIsIdempotentIff | backend/lib/orderStatusZh.js:109-125 | for every text, canonicalising twice is canonicalising once exactly when the lower-case text is no member of Object.prototype |
| OrderStatus.ConstructorIsNotIdempotent | backend/lib/orderStatusZh.js:109-125 | such a text: Constructor has the key constructor, which has none |
| OrderStatus.CanonIsAStringIff | backend/lib/orderStatusZh.js:109-125 | the result is a string exactly when the trimmed text is no such member |
| OrderStatus.LabelHasTheSameKeyIff | backend/lib/orderStatusZh.js:92-125 | canonicalising the display label gives the status's own key exactly for recognised statuses and unknown-status labels |
| OrderStatus.UpperLookupIsIdle | backend/lib/orderStatusZh.js:114-124 | the upper-case lookup never decides |
| OrderStatus.CanonOfRecognised | backend/lib/orderStatusZh.js:113-123 | a recognised status, in any case or as a label, has the key of its label |
| OrderStatusFront.LabelsAgreeIff | frontend/src/i18n/orderStatus.ts:73-84 | for every text, the frontend shows the label the backend shows exactly when the text is none of a sample order |
| OrderStatusFront.KeysAgreeIff | frontend/src/i18n/orderStatus.ts:86-102 | and gives the same canonical key exactly when it is not the sample label, nor is_sample_order in any case |
| OrderFilter.CollectRawOrderStatusesForCanonPredicate | backend/lib/orderFilter.js:285-306 | the loops collect the wanted keys, labels and canonical names |
| OrderFilter.InListIffCanon | backend/lib/orderFilter.js:285-329 | for every text, the case-insensitive test on the collected list holds exactly when the canonical key is in the set and both trims agree |
| OrderFilter.ListedValidWords | backend/lib/orderFilter.js:14-50 | the listed names are exactly those of the valid and unpaid sets |
| OrderFilter.NothingValidIsExcluded | backend/lib/orderFilter.js:20-50 | the set of what is not to count as valid takes nothing away from the valid set |
| OrderFilter.ListedUpperWords | backend/lib/orderStatusZh.js:7-63 | and the listed capital keys exactly those of the status table |
| OrderFilter.WantsCanonIff | backend/lib/orderFilter.js:14-50 | a canonical key is in the unpaid or valid set exactly when the text is a recognised status of it |
| OrderFilter.DerivedIsMatched | backend/lib/orderFilter.js:202-234 | an order classified valid, unpaid, sample or cancelled is matched by that filter when matching sees its status; what else passes is OrderMatchesIff |
| OrderMatching.DerivedIsMatchedIff | backend/lib/orderFilter.js:202-234 | for every order: it is matched by its own class's filter exactly when that class is sample or other, or matching sees its status, or what matching sees has the same class or is in one of the two overlaps of the filters |
| OrderMatching.OnlyOrderStatusIsNotMatched | backend/lib/orderFilter.js:202-234 | an order with only an order_status completed is classified valid and not matched by that filter |
| OrderMatching.OrderMatchesIff | backend/lib/orderFilter.js:202-234 | every filter on every order: sample admits exactly the orders classified sample; the others go by the class of the status that matching sees, with the two overlaps stated; paid is valid without samples |
| OrderMatching.ClassDecides | backend/lib/orderFilter.js:202-234 | for orders whose status matching sees and that are no sample: each filter admits exactly its class, but valid and paid also the unpaid ones that await payment |
| OrderMatching.NoOrderMatches | backend/lib/orderFilter.js:202-206 | what is no order passes no filter but all |
| OrderMatching.ClassByFields | backend/lib/orderFilter.js:240-261 | the class of every order by its signals, then by its first status: sample, cancelled, unpaid, valid, other |
| OrderFilter.PaidIsValidOrAwaitingPayment | backend/lib/orderFilter.js:207-212 | the paid view is the valid orders and the unpaid ones awaiting payment |
| OrderFilter.RowsAreMatched | backend/lib/orderFilter.js:240-261 | a row of the orders table is always matched by the filter of its class |
| OrderFilterSql.PlaceholdersMatchParams | backend/lib/orderFilter.js:337-413 | for every filter the placeholders are as many as the parameters and in their order |
| OrderFilterRows.AdmittedRows | backend/lib/orderFilter.js:337-413 | under three-valued logic, for every combination of NULLs: a row with a class is judged by it alone, one without passes exactly when the fallback is on and the test on its order_status holds |
| OrderFilterRows.EvalCancelled | backend/lib/orderFilter.js:308-311 | the cancelled predicate in SQL is the one in code on the trimmed status, and undefined on NULL |
| OrderFilterRows.EvalSample | backend/lib/orderFilter.js:314-317 | the sample predicate in SQL is the one in code, never undefined |
| OrderFilterRows.EvalIn | backend/lib/orderFilter.js:520-525 | the generated IN test is the test on the canonical key |
| OrderFilterRows.ClassViewsAreDisjoint | backend/lib/orderFilter.js:361-410 | on rows with a class valid, unpaid, sample and cancelled are disjoint, valid is part of paid, paid is apart from sample and unpaid |
| OrderFilterRows.ClassifiedRowIsInItsView | backend/lib/orderFilter.js:361-380 | a row with a class is in the view of that class and in no other of the four |
| OrderFilterRows.FallbackOverlapsIff | backend/lib/orderFilter.js:369-380 | a row without a class passes both valid and unpaid exactly when it awaits payment |
| OrderFilterRows.FallbackMatchesClassification | backend/lib/orderFilter.js:346-380 | for every row without a class: where both trims agree, the fallback shows it in the view of its status's class and apart from the two stated overlaps nowhere else; where they differ, only sample and cancelled show it, by what SQL leaves; its future class is that one, or sample on a signal in the JSON |
| OrdersBackfill.FirstIdsAre | backend/db/migrateOrders25AnalyticsStatus.js:55-61 | a batch is the smallest ids without a class, ascending, as many as the limit allows |
| OrdersBackfill.OrdersTable.ClassifyBatch | backend/db/migrateOrders25AnalyticsStatus.js:65-68 | the rows of the batch get their class, no other row changes |
| OrdersBackfill.OrdersTable.Backfill | backend/db/migrateOrders25AnalyticsStatus.js:52-71 | for every table and batch size the loop ends, equals classifying exactly the rows without a class, and counts them |
| OrdersBackfill.BackfillLeavesNoNull | backend/db/migrateOrders25AnalyticsStatus.js:52-77 | no row is left without a class, others are untouched, and a second backfill changes nothing |
| OrdersBackfill.BackfilledRowsAreMatched | backend/db/migrateOrders25AnalyticsStatus.js:65-68 | a backfilled row is matched by the filter of the class it got |
| Calendar.YearsByFormula | backend/lib/dashboardTimeRange.js:23-24 | counting the days year by year agrees with the closed formula of ECMA-262 |
| Calendar.DayNumberByFormula | backend/lib/dashboardTimeRange.js:23-24 | the number of a date agrees with the closed form of ECMA-262, by year formula and month table; the real dates are those whose day lies before the table's next month |
| Calendar.CivilOfDay | backend/lib/dashboardTimeRange.js:53-56 | every day number is that of a real date |
| Calendar.CivilOfReal | backend/lib/dashboardTimeRange.js:23-24 | and a real date is found from its day number |
| TimeRange.ParseYmdIff | backend/lib/dashboardTimeRange.js:15-26 | exactly the well-formed dates that exist, from the year 100 on, are accepted |
| TimeRange.ParseOfFormatIff | backend/lib/dashboardTimeRange.js:15-42 | parsing a formatted date gives it back exactly when its year has four digits |
| TimeRange.FormatOfParseIff | backend/lib/dashboardTimeRange.js:15-42 | formatting a parsed date gives back the trimmed text exactly when its year has four significant digits |
| TimeRange.FixedWindows | backend/lib/dashboardTimeRange.js:58-106 | of a range: today, yesterday, last7 and last30 start exactly 0, 1, 6 and 29 days back; yesterday ends one second before today |
| TimeRange.WindowOfItsWord | backend/lib/dashboardTimeRange.js:7-106 | of a text: trimmed and in lower case yesterday, last7 or last30, the window has that range and starts 1, 6 or 29 days before the day of the clock; every other text but custom, or none, starts on that day and ends now |
| TimeRange.CustomByDates | backend/lib/dashboardTimeRange.js:107-143 | the text custom gives the window of its dates when both are real and it starts by now, else today marked as invalid |
| TimeRange.CustomWindow | backend/lib/dashboardTimeRange.js:107-143 | the custom window in order, reversed, cut at the present, or refused |
| TimeRange.ReversedCustomDropsBothDays | backend/lib/dashboardTimeRange.js:119-125 | a reversed range keeps one second of each outer day |
| TimeRange.WindowsAreOrderedIff | backend/lib/dashboardTimeRange.js:50-144 | for every range text, input and pair of clock readings, exactly when start <= end <= now |
| TimeRange.WindowsAreOrdered | backend/lib/dashboardTimeRange.js:50-144 | so for every range text and input, when both readings fall on one day |
| TimeRange.IntradayWindowsCorrespond | backend/lib/dashboardTimeRange.js:161-186 | yesterday's part is one day before today's, of the same length and over before today starts; the hour index is the hour of the day |
| ShopDedupe.PickIsTheLarger | backend/lib/resolveTenantShop.js:47-64 | with readable times the choice is the larger in an order by rank, state, time and id; what that order is on the fields is KeptIffUnbeaten |
| ShopDedupe.UnreadableTimeKeepsTheFirst | backend/lib/resolveTenantShop.js:59-61 | with an unreadable time between equals the first argument wins either way |
| ShopDedupe.DedupeShopsByPlatformShopId | backend/lib/resolveTenantShop.js:71-96 | the loop and the sort give the kept rows |
| ShopDedupe.KeptIff | backend/lib/resolveTenantShop.js:71-88 | with distinct shop ids and readable times exactly the rows without a platform id and those no other of their id exceeds in it are kept |
| ShopStanding.StatusByFields | backend/lib/shopTokenStatus.js:38-54 | a row is active exactly when it has a token, whose expiry is not past, and is not called expired or missing; expired when it has one whose expiry is past or that is called expired; else missing |
| ShopStanding.PickByFields | backend/lib/resolveTenantShop.js:47-64 | of two rows with readable times the first is chosen exactly when it beats the second on these fields; of equals the later one |
| ShopStanding.KeptIffUnbeaten | backend/lib/resolveTenantShop.js:47-88 | the same on the fields alone: a live token beats a spent one and that none, then not deleted, then renewed later, then the larger id |
| ShopStanding.TheLastBestStays | backend/lib/resolveTenantShop.js:71-88 | and whatever the shop ids: a row with a platform id stays exactly when it is unbeaten and the last of those that are |
| ShopStanding.TheBetterTokenStays | backend/lib/resolveTenantShop.js:47-88 | for any rows, readable times or not: a row does not stay when another of its tenant and platform id has the better token |
| ShopStanding.DedupedIsInOrder | backend/lib/resolveTenantShop.js:89-96 | the result is in order of platform id and shop id, rows equal in both as they came, where localeCompare orders texts and tells different ones apart |
| ShopDedupe.OrderDoesNotMatter | backend/lib/resolveTenantShop.js:71-88 | so every rearrangement of the input keeps the same rows |
| ShopDedupe.OneRowPerPlatformId | backend/lib/resolveTenantShop.js:76-88 | for any input no two kept rows share a platform id |
| ShopDedupe.NoPlatformIdIsLost | backend/lib/resolveTenantShop.js:76-88 | every platform id of the tenant keeps a row, rows without one stay as often as they occur |
| ShopDedupe.DedupeTwiceIsOnce | backend/lib/resolveTenantShop.js:71-96 | deduplicating the result again keeps every row of it |

## Left out

- PrecomputeScheduler.Scheduler.RunPrecomputeRoundForTenant: needs a non-empty list and a batch size of at least 1; the source would store NaN as its cursor otherwise, but its lists and sizes are never empty.
- OrderStatusFront.LabelsAgreeIff: the translation of labels and their colours in the frontend are not modelled.
- OrderStatus.CanonIsIdempotentIff: case mapping is that of ASCII letters; the source maps all of Unicode.
- OrderFilter.InListIffCanon: the column's collation ignores case only; accents, widths and trailing blanks it may also ignore are not modelled.
- TimeRange.WindowsAreOrderedIff: the zone is one fixed distance from UTC, without daylight saving, and the clock reads a year after 100.
- StorageLock.EveryCallEnds: timers are never early; the source sleeps at least 40 or 50 ms between two attempts, the model at least pauseMs.
- StorageLock.NoLiveBreakMeansMutualExclusion: a lock file is its owner and its time; its text and the directory are not modelled.
- CacheKey.KeysDiffer: the extra entries come sorted, with missing values already empty; the sort itself is not modelled.
- DashboardAgeRuns.AgeIsBoundedIff: the age of a row counts from when it was written, as the table dates it, and a write may be carried out late; the time between reading a tier and using it comes on top.
- RateLimit.RateLimiter.constructor: options are whole numbers.
- ShopStanding.DedupedIsInOrder: localeCompare is a given function; for one that calls different texts equal the order of the result is only that of a stable sort with it.
- DashboardProvenance.TiersHoldLoaderValues: hash prefixes are taken as injective, so table rows and snapshot files are found by the text of the key, and two keys of one text share one snapshot file, whose name also holds their dimensions; whether a payload is empty is a property of the payload.
- OrderFilterRows.AdmittedRows: a query's other conditions, and the clauses for lists outside the dashboard, are not part of this model.
- Building the job matrices of both schedulers, and the once-a-day trigger of the full round.
- The single warm-up job: it waits between its look at the Map and its entry into it, and so is not single flight.
- The sample heuristics inside raw_json: whether they find a signal is a property of the order.
- Times to live as numbers, environment variables, switching read-only mode or times to live during a run.
- Column types and lengths, primary keys, locks and time-outs of the database.
- Loaders, filter contracts, currency conversion, logging, metrics, HTTP handling and authentication.
- Names of files and directories of snapshots, and their clean-up by age: a clean-up may remove any file at any time.

# Verification of the range cache for media playback

The repository is a range cache in front of a media origin: a Go runtime and a Python twin that share one
cache directory and one state database. This project models its core and proves what the core promises:

- the prefetch task protocol (queued, running, done, failed, skipped) over every interleaving of planner,
  workers, evictions and restarts;
- publication of middle blocks, stitched reads, expiry and LRU eviction;
- head and tail blocks, whose file and sidecar are replaced and removed one at a time;
- the planner: aligned tiling of a window, exact interval subtraction, and the recorded frontier;
- serving: the resumable build, the build locks, and the decision tree whose every route gives the plain origin's answer.

`dafny verify dfyconfig.toml` verifies everything.

## How the model is laid out

| file | module | what it holds |
|---|---|---|
| Intervals, Ordering | same | byte ranges, slices, canonical sets of bytes; ORDER BY and uniqueness of listings |
| Subtraction, Planner, Enqueue | Subtraction, Planner, SessionPlanner | what a session's window lacks, and queueing it |
| PlanWindows, Frontier | PlanWindows, Frontiers | which bytes a plan has, in numbers; what a call leaves in rows and frontier |
| Tables, Store | Tables, StateStore | the rows, one function for each statement, and the `Store` class whose methods run them |
| Protocol, Fencing, Progress, Retries, Accounting | same | the protocol as a transition system, its invariant, and properties of whole runs |
| Effects, Probes | StatementEffects, Probes | what statements, files and headers mean for what happens later, apart from how they are written |
| Disk | DiskFiles | the cache directory as a map from path to contents, with the steps other actors may take |
| Stitching, Lru, MiddleCache | Stitching, Lru, MiddleBlocks | the middle cache: choosing spans, streaming, publishing, evicting |
| PyMiddleCache | PyMiddleBlocks | the Python publication with backups and roll-back |
| HeadTail, Build, Resumes | EdgeBlocks, BlockBuild, BuildResumes | head and tail entries, building one while answering from it, and how often a build tries again |
| BuildLock | GoBuildLock, PyBuildLock | the two build locks as transition systems |
| RangeText, Playback, OriginBody | same | header and sidecar texts, which bytes a request gets, cutting an origin body |
| Worker, Refinement | PrefetchWorker, Refinement | `runTask`; undisturbed claim, planner, worker and reader calls as runs of the protocol |
| Interleaving | Interleaving | claim, planner and worker calls with other actors' statements before each of their own |
| Serve, PlainAnswers | RangeServer, PlainAnswers | `serveAuthorizedRange`, and the answer each form of header gets |

Assumptions, all visible in contracts: the bytes behind a cache key are fixed (`Disk.origins`) and the key determines its
source (`Surroundings.keyMatches`); what the origin sends inside a range it claims is true (`Honest`), but it may be short, long or
broken off, and a build's network (`HonestNetwork`) sends such responses, whose opened bodies are read in any pieces, as `ReadToEnd` reads them; sizes are below 2^63, so offsets are unbounded integers; configuration values satisfy what
`go/internal/config/config.go:343-379` enforces. Time is an argument, a real number of seconds. The constants `Disk.reliable`,
`Disk.calm` and `Client.steady` are unconstrained: safety holds for every value, and only the clauses that promise a complete
answer or a successful store ask for them to be true. Cache keys are the numbers their 64 hex digits spell.

Four facts about the code that the model keeps and the proofs work around: a stored frontier does not mean that the bytes below
it are still covered, so `CoveredWindowIsFixedPoint` holds for every stored frontier; and a done or permanently failed row
makes `EnqueueForSession` stop at its gap, so full coverage is claimed only for calls that are not stopped;
with a budget between one and two segments a resumed byte-mode plan can end before the byte the player stands at (`AnchorIsPlanned` says
exactly when, `AnchorMissed` gives an input); and `os.replace` does nothing between two hard links of one file, so when `store_prefetch_block` rolls back, the backup name of every
linked file that was not yet replaced stays in the directory (`RollbackIsComplete` says exactly when, `LockedDatabaseLeavesBackups` gives an input).

## Model

| member | source | states |
|---|---|---|
| Subtraction.MissingIsDifference | go/internal/prefetch/prefetch.go:310-338 | for any start-sorted, possibly overlapping list the gaps are exactly the set difference, as non-empty ordered ranges that never touch; an inverted range has none |
| Subtraction.DifferenceUnique | src/emby_range_cache_proxy/prefetch.py:427-444 | only one list of maximal ranges has that byte set, so any two correct subtractions, and any two listings of the same bytes, give the same gaps |
| Subtraction.SubtractRanges | go/internal/prefetch/prefetch.go:310-338 | the loop over `current` and `missing` computes that list |
| Intervals.CanonicalUnique | go/internal/prefetch/prefetch.go:310-338 | two canonical lists naming the same bytes are equal |
| Planner.PlanMiddleRanges | go/internal/prefetch/prefetch.go:141-196 | the Go planner computes `Plan`, on every input; `PlanWindows` says byte by byte what that is |
| Planner.PlanMiddleWindow | go/internal/prefetch/prefetch.go:198-246 | block mode, frontier mode and resume mode give the start and end of `RawWindow`; `PlanWindows` says byte by byte what that is |
| Planner.CutIntoCells | go/internal/prefetch/prefetch.go:172-195 | the loop cuts the window at segment borders |
| Planner.MinPositive | go/internal/prefetch/prefetch.go:351-362 | the least value, or zero as soon as one is not positive |
| Planner.PyPlanMiddleRanges | src/emby_range_cache_proxy/prefetch.py:278-320 | the Python planner computes its own window and tiling |
| Planner.PyCutIntoCells | src/emby_range_cache_proxy/prefetch.py:310-320 | the Python loop, with floored remainders, cuts at the same borders |
| Planner.TileTiles | go/internal/prefetch/prefetch.go:172-195 | pieces are consecutive, non-empty, each inside one segment cell, broken only at cell borders, and add up to the window |
| Planner.WindowBound | go/internal/prefetch/prefetch.go:198-246 | the window lies inside the middle and within the byte budget, or within (back + forward + 1) segments in block mode without a frontier |
| Planner.PlanTiles | go/internal/prefetch/prefetch.go:141-196 | planned ranges exactly tile the window, strictly between head and tail, and total within the budget |
| Planner.PlannersAgree | src/emby_range_cache_proxy/prefetch.py:264-320 | with both block counts zero the Go and the Python planner return the same ranges |
| Planner.PlannersShareWindow | go/internal/prefetch/prefetch.go:212-245 | and they do so because they clamp to the same window |
| PlanWindows.BlockModePlan | go/internal/prefetch/prefetch.go:199-210 | with block counts a byte is planned exactly when it lies between head and tail, the player is behind the head, and its segment is at most `forward` after the player's and at most `back` before it, or, with a frontier, the byte is behind the frontier |
| PlanWindows.ByteModePlanFromFrontier | go/internal/prefetch/prefetch.go:234-245 | without block counts and with a frontier the plan is the next budget of bytes behind it, as far as they lie between head and tail |
| PlanWindows.ByteModePlanFromAnchor | go/internal/prefetch/prefetch.go:212-245 | without either it is one budget of bytes from the overlap before the player, or from the segment border at or before that |
| PlanWindows.AnchorIsPlanned | go/internal/prefetch/prefetch.go:217-245 | the byte the player stands at is in such a plan exactly when alignment has not pushed the plan's end below it, and always when the budget is at most one segment or at least two |
| PlanWindows.AnchorMissed | go/internal/prefetch/prefetch.go:227-232 | a concrete input between the two where it is not planned |
| StatementEffects.PlanAvoidsEdges | go/internal/ranges/ranges.go:25-33 | no plan has a byte of the first head bytes or the last tail bytes, 8 MiB each unless configured otherwise |
| SessionPlanner.EnqueueForSession | go/internal/prefetch/prefetch.go:248-308 | the call leaves the rows and frontier of `Outcome`, and returns the number of rows inserted; the `Frontiers` lemmas say what that is |
| SessionPlanner.QueuePlanned | go/internal/prefetch/prefetch.go:261-307 | the loop over planned ranges, whatever listing the database returns |
| SessionPlanner.InsertGaps | go/internal/prefetch/prefetch.go:277-300 | the loop over gaps: insert, skip a live row, or stop |
| SessionPlanner.GapsAreUncovered | go/internal/prefetch/prefetch.go:267-276 | the gaps are exactly the bytes in no block and no live task, and there are none just when the range is covered |
| SessionPlanner.SameGaps | go/internal/state/state.go:546-572 | every listing the statement may return leads to the same gaps |
| SessionPlanner.FrontierSound | go/internal/prefetch/prefetch.go:248-308 | every byte from the first planned start to the recorded frontier is in a block or a live task; a call that is not stopped covers its plan |
| SessionPlanner.FreshPlanCoversWindow | go/internal/prefetch/prefetch.go:250-257 | a call planned from the window's start and not stopped leaves the whole window covered |
| SessionPlanner.CoveredWindowIsFixedPoint | go/internal/prefetch/prefetch.go:248-308 | once the window is covered every later call inserts nothing, whatever frontier is stored |
| Frontiers.StoredFrontier | go/internal/state/state.go:405-414 | after a call the stored frontier of a live session is the larger of the old one and the one reached; an expired session, every other session and every other field are as before |
| Frontiers.StoredFrontierIsCovered | go/internal/prefetch/prefetch.go:261-307 | the stored frontier is the old one, or every byte from the first planned one up to it is in a block or a live task |
| Frontiers.FrontierReachesNewRows | go/internal/prefetch/prefetch.go:277-300 | no row the call inserts lies beyond the frontier it reaches |
| Frontiers.UnstoppedCallCovers | go/internal/prefetch/prefetch.go:254-307 | a call that no gap stops leaves every byte of its window in a block or a live task, but for those behind a stored frontier inside the window |
| Frontiers.InsertsOnlyPlanned | go/internal/prefetch/prefetch.go:254-300 | a call changes no row, and every row it inserts is a fresh queued one of the session for bytes of the window that are not behind such a frontier |
| Frontiers.StopsOnlyBlocked | go/internal/prefetch/prefetch.go:281-295 | a call stops only when the queue is full or a row that is not live has a range of its key |
| Frontiers.InsertedIsCount | go/internal/prefetch/prefetch.go:296-307 | the count returned is the number of rows inserted |
| StateStore.Store.InitSchema | go/internal/state/state.go:206-216 | opening the store runs exactly the backfill |
| StateStore.Store.EnqueuePrefetchTask | go/internal/state/state.go:487-528 | inserts a queued row just when the queue has room and the range has no row of any status |
| StateStore.Store.PrefetchTaskExists | go/internal/state/state.go:530-544 | true just when the exact range has a live row |
| StateStore.Store.ReusablePrefetchRanges | go/internal/state/state.go:546-572 | lists, sorted by start, exactly the overlapping blocks and live tasks of the key |
| StateStore.Store.ClaimPrefetchTasks | go/internal/state/state.go:574-620 | hands out the first `limit` claimable rows by priority, age and id, each with its next attempt number, and changes no other row; a positive limit gets nothing exactly when nothing is claimable |
| StateStore.Store.UpdateClaimed | go/internal/state/state.go:593-618 | the guarded update loop claims every candidate once |
| StateStore.Store.ClaimablePrefetchTaskCount | go/internal/state/state.go:622-631 | the number of rows a claim would select without its limit |
| StateStore.Store.CountThenClaim | go/internal/state/state.go:574-631 | the count is zero exactly when a claim with a positive limit returns nothing, and otherwise the claim returns the lesser of limit and count |
| StatementEffects.ClaimTakesMostUrgent | go/internal/state/state.go:579-592 | every claimable row a claim leaves is outranked, by priority, then age, then id, by every row it takes, and the rows come in that order |
| StatementEffects.ClaimedRowIsNextAttempt | go/internal/state/state.go:593-618 | a claimed row runs its next attempt from now on, and is due again exactly from the stale time on, never without one |
| StatementEffects.EnqueueExactly | go/internal/state/state.go:487-528 | an insert goes through exactly below the queue depth and when no row of any status has the range, and then adds this row and nothing else |
| StatementEffects.QueueDepthHolds | go/internal/state/state.go:487-528 | over every run the queue is no deeper than its inserts allow, but for tasks that were cancelled back into it |
| StateStore.Store.CompletePrefetchTask | go/internal/state/state.go:639-645 | done for the current token, nothing otherwise |
| StateStore.Store.FailPrefetchTask | go/internal/state/state.go:647-657 | failed with the retry time of `Abandon` for the current token, nothing otherwise; `Retries` says what that time means |
| StateStore.Store.SkipPrefetchTask | go/internal/state/state.go:659-669 | skipped with the retry time of `Abandon` for the current token, nothing otherwise; `Retries` says what that time means |
| Retries.FinishGivesBack | go/internal/state/state.go:647-677 | a finaliser with the current token changes its own row only: after a transient failure it is claimable exactly from now plus the back-off on, after a permanent one never, after a cancellation at once |
| Retries.BackoffIsKept | go/internal/prefetch/prefetch.go:90-139 | on every run, no attempt of a task that failed transiently is handed out by a claim before its back-off is over, and its row stays as it was |
| StateStore.Store.RequeuePrefetchTask | go/internal/state/state.go:671-677 | queued again for the current token, nothing otherwise |
| StateStore.Store.CommitPublish | go/internal/state/state.go:776-804 | block row and task row change together; a refused update or a failing statement takes back what was written |
| StatementEffects.PublishEffect | go/internal/state/state.go:776-804 | a publication completes its task for good, and its block has the size of the range and expires exactly at the end of the ttl |
| StatementEffects.TouchEffect | go/internal/state/state.go:717-723 | a read gives the block a new life of the ttl and changes nothing else |
| StatementEffects.TouchedExactly | go/internal/middle/middle.go:161-163 | a stitched read gives every block it takes bytes from a new life of the ttl and touches no other |
| StatementEffects.JustReadSurvives | go/internal/middle/middle.go:264-286 | a block that was read strictly last is not evicted while it fits by itself |
| StateStore.Store.UpdateSessionQueuedUntil | go/internal/state/state.go:405-414 | one session's frontier becomes that of `AdvanceFrontier`, which `Frontiers.AdvanceGrows` says outright |
| Frontiers.AdvanceGrows | go/internal/state/state.go:405-414 | the frontier becomes the larger of the stored and the given one, only on a session that exists and is not expired, and nothing else changes |
| Ordering.ListingUnique | go/internal/state/state.go:737-746 | a total order without ties has one listing, so reading the table again cannot reorder it |
| Protocol.RunKeepsInv | go/internal/state/state.go:574-677 | on every run: no byte of a key has two owners among blocks, live tasks and gaps being queued; rows keep their status rules; the logs agree with the rows |
| Protocol.StepKeepsInv | go/internal/state/state.go:759-805 | each single statement or transaction keeps that invariant |
| Protocol.ReadGapsKeepsInv | go/internal/prefetch/prefetch.go:267-276 | gaps just read own bytes nobody else owns |
| Protocol.PublishNeverConflicts | go/internal/state/state.go:776-789 | the upsert of a publish always inserts and never updates |
| Protocol.BackfillChangesNothing | go/internal/state/state.go:206-215 | on every database reached by a run the backfill has nothing to revive |
| StatementEffects.BackfillRevives | go/internal/state/state.go:206-215 | on any database the backfill makes claimable, from their last update on, exactly the abandoned rows without a retry time whose error is none of the three permanent ones |
| Fencing.TokensAndPublishesUnique | go/internal/state/state.go:594-618 | on every run each (task, attempt) token is issued once, and each task publishes at most once and is done |
| Fencing.OnlyHolderChangesRow | go/internal/state/state.go:639-677 | a running row changes only by its token's holder or by a reclaim after the stale time |
| Fencing.OnlyHolderPublishes | go/internal/state/state.go:759-805 | a block row appears only through the current token of the running task that owns exactly its range |
| Fencing.StepKeepsRow | go/internal/state/state.go:574-677 | rows stay, keep key and range, never lose attempts, and only a claim makes a row running |
| Fencing.EndStatesAbsorb | src/emby_range_cache_proxy/state.py:459-521 | done and permanently failed rows never change again |
| Fencing.StaleForever | src/emby_range_cache_proxy/state.py:663-702 | a token that has lost its fence never gets it back, across reclaims and restarts |
| Fencing.LateFinaliserPowerless | go/internal/state/state.go:639-677 | a finaliser or publish with an old token changes nothing, however late |
| Fencing.ReclaimEndsOldToken | go/internal/state/state.go:594-618 | the claim that takes a task over ends every older token of it |
| Progress.NoTaskLost | go/internal/state/state.go:574-631 | every reachable row is done, permanently failed with RangeTooLarge or PrefetchSourceMismatch, or claimable exactly from a computable time on |
| Progress.OnlyTwoOutcomesArePermanent | go/internal/prefetch/prefetch.go:90-139 | only RangeTooLarge and PrefetchSourceMismatch are permanent; every other way of giving up leaves the task live |
| Progress.BackfillNeverRevivesPermanent | src/emby_range_cache_proxy/state.py:924-939 | on any database at all the backfill leaves done and permanent rows alone |
| Accounting.CacheSizeIsExact | go/internal/state/state.go:753-757 | on every run the blocks of a key are disjoint and SUM(size) is the number of distinct cached bytes |
| Accounting.SizesCountBytes | go/internal/state/state.go:753-757 | disjoint blocks of the right sizes sum to the size of the set of their bytes |
| Accounting.SumRemove | go/internal/state/state.go:748-757 | removing a row takes exactly its size off the sum, whatever the order of summing |
| PrefetchWorker.RunTask | go/internal/prefetch/prefetch.go:90-139 | which way out is taken is decided exactly by the block size, the source, HEAD, the key and the response; each is one finaliser with the worker's token, one publish of the task's range followed by evictions, or nothing after losing the token; a task given back waits exactly for its back-off; with a disk that works and a full answer it is completed exactly when the token is current |
| PrefetchWorker.FetchAndStore | go/internal/prefetch/prefetch.go:118-138 | with a disk that works and a full answer the block is stored exactly when the token is current |
| PrefetchWorker.StoreAndEvict | go/internal/prefetch/prefetch.go:128-138 | the rows after a publish, an expiry pass and an LRU pass |
| PrefetchWorker.JustPublishedSurvives | go/internal/prefetch/prefetch.go:92-95 | a block that passed the size check and was used strictly last survives both evictions behind its publication |
| Refinement.WorkerIsRun | go/internal/prefetch/prefetch.go:90-139 | what an undisturbed runTask call does to the database is a run of protocol events |
| Refinement.ClaimIsRun | go/internal/state/state.go:593-618 | the update loop over its candidates is one claim event for each, and hands out their tokens |
| Refinement.ClaimCallIsRun | go/internal/state/state.go:574-620 | every outcome an undisturbed claim call may have is a run that hands out the token of each returned row |
| Refinement.ReaderIsRun | go/internal/app/server.go:1036-1057 | what serving a request does to the rows is a run of touches and removals only |
| Refinement.PlannerIsRun | go/internal/prefetch/prefetch.go:248-308 | what an undisturbed EnqueueForSession call does to tasks and blocks is a run of planner events |
| Refinement.RunsArePlannerOk | go/internal/prefetch/prefetch.go:248-308 | every reachable database meets what the planner's lemmas ask of it |
| Interleaving.RunTask | go/internal/prefetch/prefetch.go:90-139 | with any statements of others in between: its own statements are one finaliser, or one publish and then removals, or none; all together is a run; its token is spent on return, a task still held when given back waits exactly for its back-off, and a completed one is published, done, and leaves a cache that fits |
| Interleaving.PublishTask | go/internal/prefetch/prefetch.go:128-138 | the publish step among others: the task is published and done, or the token was lost, or no row changed |
| Interleaving.GiveUp | go/internal/prefetch/prefetch.go:92-131 | a finaliser among others leaves its token spent, whether or not it still had a row to change; when it did, the row waits exactly for its back-off |
| Interleaving.EvictLruIfNeeded | go/internal/middle/middle.go:264-286 | while others publish and remove a finite number of times the loop ends, and the cache fits when it does |
| Interleaving.EvictExpired | go/internal/middle/middle.go:247-262 | among others, its own statements are removals only, and the files stay slices of the origin |
| Interleaving.ClaimPrefetchTasks | go/internal/state/state.go:574-620 | among others: at most `limit` different rows, each by one statement of its own and with a token nobody had before; rows taken meanwhile are passed over |
| Interleaving.ClaimCandidate | go/internal/state/state.go:595-617 | the guarded update of one candidate that others may have taken |
| Interleaving.EnqueueForSession | go/internal/prefetch/prefetch.go:248-308 | among others: its own statements are planner events, every row inserted meanwhile is one it counted, no byte gets a second owner, and of the sessions only the frontier of its own moves, and never back |
| Interleaving.System.OthersAct | go/internal/state/state.go:574-805 | others take any finite number of protocol events; while one planner works nobody else plans |
| Interleaving.LaterKeeps | go/internal/state/state.go:574-677 | whatever others do, the invariant, issued tokens and the identity of rows stay, and a lost fence stays lost |
| DiskFiles.StepsKeepFilesOk | go/internal/headtail/cache.go:223-255 | every interleaving of single renames and removals keeps every file a slice of its origin and every head or tail sidecar at its end |
| DiskFiles.Disk.OthersAct | go/internal/middle/middle.go:288-295 | other actors take any number of such steps |
| Stitching.StitchingExact | go/internal/middle/middle.go:177-214 | on sorted, possibly overlapping records stitching succeeds exactly when they cover the request, and the spans partition it, each inside its record |
| Stitching.CoverSound | go/internal/middle/middle.go:177-214 | spans are consecutive, non-empty, start and end with the request |
| Stitching.CoverComplete | go/internal/middle/middle.go:177-214 | a gap anywhere in the request, and nothing else, makes stitching fail |
| MiddleBlocks.MiddleCache.CoveringSpans | go/internal/middle/middle.go:177-214 | success exactly when the records cover the request and those whose spans are taken are valid, unexpired and backed by their files, whatever the others are; a failure changes nothing, or drops one unusable record's row and at most its two files |
| MiddleBlocks.MiddleCache.FindSpans | go/internal/middle/middle.go:146-163 | a hit exactly when the request is valid and the spans chosen from the overlapping rows exist and are usable; a hit marks their blocks as just used and changes nothing else; a miss changes nothing, or drops one unusable row and at most its two files |
| MiddleBlocks.ChosenExact | go/internal/middle/middle.go:177-214 | spans exist exactly when every requested byte is in a block, so with usable rows a read hits exactly then |
| MiddleBlocks.ListingHolds | go/internal/state/state.go:705-715 | the listing sees every cached byte of the request |
| MiddleBlocks.MiddleCache.StreamSpans | go/internal/middle/middle.go:165-173 | while others expire, evict, remove and republish, what the client has is always a prefix of the requested slice, and all of it when every span succeeds; of the rows only block rows may go |
| MiddleBlocks.MiddleCache.StreamSpan | go/internal/middle/middle.go:216-245 | the same for one span, opened lazily |
| MiddleBlocks.MiddleCache.SendFromHandle | go/internal/middle/middle.go:228-244 | the same for the read loop on an open handle |
| MiddleBlocks.MiddleCache.StorePrefetchBlockFromReader | go/internal/middle/middle.go:87-144 | exactly the block's bytes, its sidecar, its row and the finished task are published by the current token's holder, or no row changes; short and overlong data are refused |
| MiddleBlocks.MiddleCache.PublishedIsUsable | go/internal/middle/middle.go:359-386 | a published block passes the reader's checks exactly until it expires |
| Probes.MiddleUsable | go/internal/middle/middle.go:359-386 | with both files there a block is usable exactly when it has not expired, its file has its size and the sidecar names its range |
| Probes.MiddleUnusable | go/internal/middle/middle.go:342-366 | without either file, or with a row that contradicts its own range or points elsewhere, it never is |
| MiddleBlocks.MiddleCache.EvictExpired | go/internal/middle/middle.go:247-262 | removes exactly the rows whose time has come |
| MiddleBlocks.MiddleCache.EvictLruIfNeeded | go/internal/middle/middle.go:264-286 | the loop that reads total and order again in every round ends, on the specified rows |
| MiddleBlocks.MiddleCache.PyEvictLruIfNeeded | src/emby_range_cache_proxy/middle_cache.py:262-269 | the loop over one snapshot removes the same rows |
| MiddleBlocks.MiddleCache.RemoveBlock | go/internal/middle/middle.go:288-295 | row, file and sidecar go, and no other file is touched |
| Lru.EvictionExact | go/internal/middle/middle.go:264-286 | the removed rows are the shortest sufficient prefix of the LRU order, the rest fits, and bytes before are bytes after plus bytes removed |
| Lru.CountIsShortest | go/internal/middle/middle.go:264-286 | one row fewer would not have been enough |
| Lru.EvictRound | go/internal/middle/middle.go:266-285 | one round takes the first row and does not change where the loop ends |
| Lru.NewestSurvives | go/internal/middle/middle.go:264-286 | a block that fits by itself and was used strictly last is never evicted |
| StatementEffects.EvictsLeastRecent | go/internal/state/state.go:737-746 | nothing that eviction takes was used later than anything it leaves |
| PyMiddleBlocks.PyMiddleCache.StoreStaged | src/emby_range_cache_proxy/middle_cache.py:67-130 | whatever step fails, file, sidecar, block row and task row are what they were; on success all four are new and nothing else is left; a failure in the transaction leaves exactly the backup names RolledBack lists; storing a slice of the origin keeps every file one |
| PyMiddleBlocks.PyMiddleCache.PublishPrepared | src/emby_range_cache_proxy/middle_cache.py:93-130 | the three exits of the transaction, each with its exact directory; "published but not committed" is never reached |
| PyMiddleBlocks.PyMiddleCache.PublishTransaction | src/emby_range_cache_proxy/state.py:663-702 | a refused transaction has replaced no file, a failed one has changed no row and replaced the files its fault allows |
| PyMiddleBlocks.PyMiddleCache.MakeBackups | src/emby_range_cache_proxy/middle_cache.py:86-91 | both names are backed up, or the public directory is unchanged |
| PyMiddleBlocks.RollbackRestores | src/emby_range_cache_proxy/middle_cache.py:121-130 | undoing none, one or both replaces gives RolledBack: the old directory and the backup names of linked files not yet replaced |
| PyMiddleBlocks.RollbackIsComplete | src/emby_range_cache_proxy/middle_cache.py:291-305 | all other names are as before, and the whole directory is exactly when no file backed up by a link was still unreplaced |
| PyMiddleBlocks.LockedDatabaseLeavesBackups | src/emby_range_cache_proxy/middle_cache.py:291-305 | a concrete input: both files present, both linked, BEGIN IMMEDIATE fails, and two backup names stay |
| PyMiddleBlocks.PyMiddleCache.ReplaceFile | src/emby_range_cache_proxy/middle_cache.py:93-97 | os.replace moves the file, except between two links of one file, where nothing happens |
| PyMiddleBlocks.CommitInstalls | src/emby_range_cache_proxy/middle_cache.py:106-111 | after the clean-up only the two new files differ |
| PyMiddleBlocks.RefusalCleansUp | src/emby_range_cache_proxy/middle_cache.py:113-120 | a refusal leaves no temporary and no backup |
| EdgeBlocks.ProbeServesOrigin | go/internal/headtail/cache.go:72-131 | at any point of any interleaving of renames and removals a probe misses or serves the right bytes |
| EdgeBlocks.StoredFileIsItsRange | go/internal/headtail/cache.go:84-96 | a file and a sidecar of different commits still belong together when their lengths do |
| Probes.InstalledIsFound | go/internal/headtail/cache.go:84-106 | a head or tail block just installed answers exactly the requests inside it, with the origin's bytes |
| Probes.WrongLengthIsMissed | go/internal/headtail/cache.go:84-96 | whatever its sidecar says, a file of another length is not served |
| Probes.BrokenEntryIsRemoved | go/internal/headtail/cache.go:84-106 | a probe that finds an entry that does not add up takes both its files away, and no other |
| EdgeBlocks.EdgeCache.Open | go/internal/headtail/cache.go:84-106 | a hit is the requested origin slice; a broken entry loses its two files and no other file changes |
| EdgeBlocks.EdgeCache.HasBlockRange | go/internal/headtail/cache.go:133-153 | true exactly when a probe would hit |
| EdgeBlocks.EdgeCache.Stream | go/internal/headtail/cache.go:109-130 | the client gets a prefix of the opened bytes, and all of them when every read and write works |
| EdgeBlocks.BlockWriter.Write | go/internal/headtail/cache.go:214-221 | appends until closed |
| EdgeBlocks.BlockWriter.Commit | go/internal/headtail/cache.go:223-255 | installs file and sidecar only for data of exactly the block's length; any other length changes no file |
| Probes.OwnChangesAreSteps | go/internal/headtail/cache.go:240-255 | a commit, a publication and a removal are the steps that interleavings are made of |
| EdgeBlocks.EdgeCache.EvictIfNeeded | go/internal/headtail/cache.go:155-188 | with a limit, the first entries of the listing go, no more than needed; without one, nothing; other files stay |
| EdgeBlocks.EdgeEvictionExact | go/internal/headtail/cache.go:179-186 | what is left fits the limit and is exactly the later entries, and one entry fewer would not have been enough |
| Probes.NoLimitNoEviction | go/internal/headtail/cache.go:155-158 | without a limit nothing is evicted |
| BlockBuild.BuildMatchesOrigin | go/internal/app/server.go:1331-1392 | over any failures, partial or full answers and short bodies of a truthful origin the staged bytes are the origin's, and the loop ends |
| BlockBuild.OpenedBodiesAreHonest | go/internal/origin/origin.go:104-139 | every body a build opens begins at the asked offset and holds the origin's bytes, a resume answered with a full 200 included |
| BlockBuild.ReadingIsHonest | go/internal/app/server.go:1343-1375 | a body that agrees with the origin does so chunk by chunk, however it is cut |
| BlockBuild.ReadToEnd | go/internal/origin/origin.go:211-224 | reading an opened body with any buffer gives all it holds, in pieces, with the end or an error at the last only |
| BlockBuild.WorkingNetworkBuilds | go/internal/app/server.go:1331-1392 | when the origin answers in full and staging works the build reaches the block's end with exactly its length |
| BuildResumes.PersistentNetworkBuilds | go/internal/app/server.go:1331-1392 | a network that fails, breaks off or answers short, but never four times in a row without a byte, gets every block built with exactly its length |
| BuildResumes.FailsOnlyAfterFour | go/internal/app/server.go:1334-1391 | when staging works a build fails only after four requests in a row, for the bytes it still lacked, brought nothing |
| BuildResumes.FourInVainFail | go/internal/app/server.go:1334-1391 | and when the first four bring nothing, nothing is built |
| BuildResumes.FourFruitlessEnd | go/internal/app/server.go:1334-1391 | four such attempts in a row end a build wherever it stands, with nothing more staged |
| BuildResumes.FruitfulRound | go/internal/app/server.go:1376-1391 | any byte starts the count again |
| BlockBuild.WholeBlockOnly | go/internal/app/server.go:1393-1395 | data of the block's length is the block, so a commit means the whole block |
| BlockBuild.BuildHeadTailBlock | go/internal/app/server.go:1311-1403 | the client has a prefix of its range, and all of it without a write error; the block is committed just when `Build` gives exactly it and the disk works, whatever becomes of the client, and `BuildResumes` says when that is; a commit leaves the old directory with the block installed, less what the eviction behind it took |
| BlockBuild.StageBlock | go/internal/app/server.go:1331-1392 | the resume loop stages what the client-free loop stages; bytes left and resumes left decrease |
| BlockBuild.StageRound | go/internal/app/server.go:1332-1391 | one round: a refused or failed opening uses up a resume, an opened body is copied |
| BlockBuild.StageBody | go/internal/app/server.go:1341-1391 | one body, and whether the loop is over or how many resumes are used up |
| BlockBuild.CopyBody | go/internal/app/server.go:1343-1375 | the read loop of one body |
| BlockBuild.CopyChunk | go/internal/app/server.go:1345-1370 | one read is staged first and then forwarded |
| BlockBuild.Responder.Forward | go/internal/app/server.go:1353-1368 | a chunk extends the answer by exactly its overlap with the requested range; a failed write ends forwarding only |
| BlockBuild.OverlapIsSlice | src/emby_range_cache_proxy/app.py:531-546 | the overlap of a chunk with the range is the next part of the answer |
| GoBuildLock.CacheBuildLock.TryAcquire | go/internal/app/server.go:1464-1471 | takes the token when there is one |
| GoBuildLock.CacheBuildLock.Release | go/internal/app/server.go:1486-1491 | a release into a full channel is dropped |
| GoBuildLock.Try | go/internal/app/server.go:1100-1119 | tryAcquire is the Try event of the request, which then holds the token exactly when it was got |
| GoBuildLock.Wait | go/internal/app/server.go:1473-1484 | wait takes the token and puts it back, or times out, as it must without time to wait; either way the second probe follows |
| GoBuildLock.GiveBack | go/internal/app/server.go:1134-1152 | release after a late hit or a finished build is that event, and the request no longer holds the token |
| GoBuildLock.TokensConserved | go/internal/app/server.go:1454-1503 | tokens and holders of every lock add up to one in every reachable state |
| GoBuildLock.OneHolder | go/internal/app/server.go:1099-1152 | two requests never hold the same lock, and a holder's release finds room |
| GoBuildLock.FirstTryDecides | go/internal/app/server.go:1099-1101 | a request that finds the lock free builds at once, and otherwise waits |
| GoBuildLock.SecondTryDecides | go/internal/app/server.go:1116-1128 | after a second miss a request takes the lock when it is free by then, and otherwise goes to the origin |
| PyBuildLock.SingleFlight | src/emby_range_cache_proxy/app.py:454-516 | at most one coroutine stages a block, and two handler commits have a removal between them |
| PyBuildLock.StagingNeedsMissUnderLock | src/emby_range_cache_proxy/app.py:495-512 | staging begins only with a miss seen by the lock's holder |
| PyBuildLock.FreeLockStages | src/emby_range_cache_proxy/app.py:495-512 | with the lock free a request stages the block, unless the probe under the lock finds it, and then it holds nothing |
| PyBuildLock.StagingEnds | src/emby_range_cache_proxy/app.py:512-598 | a staging that works leaves the block for the next probe and the lock free; one that fails leaves neither block nor lock |
| PyBuildLock.RunKeepsInv | src/emby_range_cache_proxy/app.py:596-598 | the recorded holder is the one coroutine at a holding place, on every run |
| OriginBody.OpenRange | go/internal/origin/origin.go:104-139 | opens exactly the responses it should, and the reader holds the 206 body or the cut of the 200 body; a full and truthful answer is always opened |
| OriginBody.OpenedAgrees | go/internal/origin/origin.go:114-139 | what OpenRange makes available of a truthful response is the origin's bytes from the asked start on |
| Probes.PartialOpens | go/internal/origin/origin.go:114-126 | a 206 is opened exactly when its Content-Range names the range and size asked for and its length, if given, is the range's |
| Probes.WholeOpens | go/internal/origin/origin.go:127-134 | a 200 is opened exactly when the range is inside the file, the body reaches it, and its length, if given, is the file's; it is cut to the range |
| Probes.OtherStatusRefused | go/internal/origin/origin.go:135-138 | any other status is refused |
| OriginBody.SliceStatusOkBody | go/internal/origin/origin.go:188-204 | refuses exactly invalid ranges, wrong lengths and bodies that end before the range |
| OriginBody.Reader.Read | go/internal/origin/origin.go:211-224 | never reads past the range, and reports EOF only when the whole promise was kept |
| OriginBody.SlicedBodyIsRange | go/internal/origin/origin.go:188-224 | for any buffer size and short reads a 200 body yields exactly the range's bytes or an error |
| OriginBody.CopyAtMost | go/internal/middle/middle.go:103-115 | the limited copy stops at the limit, at EOF or with an error |
| OriginBody.Drain | go/internal/origin/origin.go:206-224 | reading to the end gives all upcoming bytes, or an error when the body is short or breaks |
| RangeText.SidecarRoundTrip | go/internal/middle/middle.go:117-117 | a sidecar reads back as the range it was written for, in both caches |
| Probes.SidecarExact | go/internal/middle/middle.go:368-386 | a sidecar is accepted exactly when it is, but for spaces around it, two int64 numbers with one dash between them |
| RangeText.MatchRangeExact | go/internal/ranges/ranges.go:19-19 | the pattern matches exactly `bytes=`, digits, dash, digits, with those two groups |
| RangeText.ParsedIsInside | go/internal/ranges/ranges.go:35-86 | an accepted header names a non-empty range inside the file |
| RangeText.BoundedRoundTrip | go/internal/origin/origin.go:109-109 | printing and parsing a bounded range is the identity |
| RangeText.OpenRoundTrip | go/internal/ranges/ranges.go:64-85 | an open range is satisfiable exactly below the size, and then reaches to the end |
| RangeText.SuffixRoundTrip | go/internal/ranges/ranges.go:53-63 | a suffix range names the last bytes, or the whole file when it is longer |
| RangeText.ContentRangeRoundTrip | go/internal/ranges/ranges.go:134-136 | a printed Content-Range parses back as itself |
| RangeText.ContentRangeIsInside | go/internal/origin/origin.go:167-181 | an accepted Content-Range names a non-empty range inside its total |
| Probes.ContentRangeAccepted | go/internal/origin/origin.go:169-181 | a text `bytes a-b/n` is accepted exactly when its numbers are int64 and name a non-empty range inside the total |
| Probes.ContentRangeShape | go/internal/origin/origin.go:167-173 | and no other text is |
| Probes.PrintIsDecimal | go/internal/middle/middle.go:117-117 | numbers are written in decimal notation, digit by digit |
| Probes.ParsesInt64 | go/internal/ranges/ranges.go:54-75 | of the written numbers exactly those of an int64 parse |
| Probes.ParsesNegative | go/internal/origin/origin.go:192-195 | a leading minus is read as one |
| Probes.ParsesPositive | go/internal/origin/origin.go:192-195 | a leading plus is read as one |
| Probes.TrimExact | go/internal/ranges/ranges.go:45-45 | trimming takes off the spaces at both ends and nothing else |
| Playback.PlannedIsInside | go/internal/ranges/ranges.go:88-132 | every planned range is non-empty, below the size and inside the parsed one |
| Playback.OpenRequestLandsWhole | go/internal/headtail/cache.go:265-283 | an absent header, or any header the parser takes as open-ended, lands wholly in the head, wholly in the tail, or in neither, as its start decides |
| Playback.ChosenBlockHolds | go/internal/app/server.go:1247-1271 | the chosen block holds the request; heads start at 0, tails, fixed or adaptive, end at the last byte |
| Probes.ChosenBlock | go/internal/app/server.go:1247-1271 | which block a request goes to, in numbers: the head, the tail, a tail widened to its start, or none |
| PlainAnswers.BoundedAnswer | go/internal/ranges/ranges.go:105-107 | `bytes=a-b` gets a 206 with the bytes from a to b, or to the last byte when b is beyond it, and the Content-Range that says so |
| PlainAnswers.SuffixAnswer | go/internal/ranges/ranges.go:105-107 | `bytes=-n` gets a 206 with the last n bytes, or with all of them when there are fewer |
| PlainAnswers.OpenAnswer | go/internal/ranges/ranges.go:109-131 | `bytes=a-` gets a 206 to the end of the file, or inside the head to the head's end, as far as the cap on such answers allows |
| PlainAnswers.AbsentAnswer | go/internal/ranges/ranges.go:93-99 | no header gets the head, as a 200 when that is the whole file and as a 206 otherwise |
| PlainAnswers.UnsatisfiableAnswer | go/internal/app/server.go:1012-1019 | a start at or beyond the size gets a 416 that names the size, and no other header does |
| PlainAnswers.UnsatisfiableStart | go/internal/ranges/ranges.go:64-70 | in particular every header `bytes=a-...` with a at or beyond the size, whatever follows the dash |
| PlainAnswers.RefusedExactly | go/internal/ranges/ranges.go:35-86 | the fallback takes over exactly for several ranges, another shape, no bound, a zero suffix, an inverted range or a number above int64, unless it is a 416 |
| PlainAnswers.SpacesDoNotMatter | go/internal/ranges/ranges.go:45-49 | two headers with the same digit groups get the same answer |
| RangeServer.Server.ServeAuthorizedRange | go/internal/app/server.go:1000-1186 | for every state that meets the invariant, every access mode, lock outcome and interleaving: the status, headers and body of the plain origin, or after a failure a prefix of that body; complete when nothing fails, and also without any answer of the origin when a cache that the request may use has the range; of the rows only blocks are touched or dropped |
| RangeServer.Server.ServeWithMetadata | go/internal/app/server.go:1006-1035 | the same behind the stored metadata: the fresh metadata row is recorded exactly for a writing request with a plan |
| RangeServer.Server.ServeCachedHeadTailIfAvailable | go/internal/app/server.go:1188-1245 | answering from stored metadata gives the plain origin's answer, or leaves the response untouched; when nobody else acts a block that has the range is always used |
| RangeServer.Server.ServePlanned | go/internal/app/server.go:1031-1185 | the same for each route behind the plan: HEAD, middle blocks, head or tail block, origin |
| RangeServer.Server.ServeBehindMiddle | go/internal/app/server.go:1058-1185 | the same for the routes behind the middle cache |
| RangeServer.Server.ServeBlock | go/internal/app/server.go:1081-1174 | the same around the build lock, whatever its two tries give; a miss that gets the lock and a network that works or persists leave the block installed |
| RangeServer.Server.ServeFromBuild | go/internal/app/server.go:1152-1173 | the same for the build route; a network that works or persists gets the block installed |
| RangeServer.Server.ServeFromMiddle | go/internal/app/server.go:1036-1057 | the same for the middle route, with its effect on the rows |
| RangeServer.Server.ProbeMiddle | go/internal/app/server.go:1036-1038 | undisturbed, the probe hits exactly when the chosen spans are usable, and a miss leaves every head and tail block |
| RangeServer.Server.ServeFromEdge | go/internal/app/server.go:1081-1098 | the same for the head and tail route |
| RangeServer.Server.StreamOriginRange | go/internal/app/server.go:1427-1435 | straight from the origin the client gets a prefix of the slice, and all of it when the origin answers in full |

## Left out

- HTTP handlers, fallback streaming, Emby and OpenList clients, path mapping, configuration parsing, authentication, metrics and logs.
- SQL text and SQLite: tables are maps, each statement or transaction is one step; WAL and busy time-outs are not modelled.
- SHA-256, real clocks, sleeping between resumes and bandwidth limiting; a disk that is too full is a step that fails.
- EdgeBlocks.EdgeCache.EvictIfNeeded: the order of the files' times is left open, so any order of the entries may be the one; touching a file's time and recording sessions are left out with it, and files are not changed by others during the call.
- Session bookkeeping (idle, stopped, expired) and prewarm scheduling; the planner's session is a value.
- Python's single-block middle reader and its default open range: the stitched Go reader and the Go playback planning are modelled.
- Python finalisers called without an expected attempt, and Python's `None` for no stale reclaim: the worker's fenced calls are modelled.
- Exceptions of the Python handler raised between taking the lock and the block that releases it.
- StateStore.Store.ReusablePrefetchRanges: rows that the UNION would list twice are listed once; subtraction gives the same gaps, because only their bytes matter.
- StateStore.Store.ClaimPrefetchTasks: the guarded update and the re-read of its row are one step, as for the single worker loop and the Python transaction.
- Protocol.RunKeepsInv: one planner at a time reads gaps and queues them, as the single planner loop does.
- Refinement.WorkerIsRun: an undisturbed call; `Interleaving.RunTask` has the call among others.
- Refinement.ClaimCallIsRun: an undisturbed call; `Interleaving.ClaimPrefetchTasks` has the call among others.
- Refinement.PlannerIsRun: an undisturbed call; `Interleaving.EnqueueForSession` has the call among others.
- Interleaving.EnqueueForSession: the recorded frontier is not related to coverage here, since others may evict below it before the call returns.
- EdgeBlocks.ProbeServesOrigin: reading the sidecar, the file size and opening the file are one step; the code takes no lock around them.
- MiddleBlocks.MiddleCache.CoveringSpans: rows and files are consulted at one moment; interference begins with the first lazy open.
- MiddleBlocks.MiddleCache.StorePrefetchBlockFromReader: when a rename fails after the first one, the files may differ although no row does, and each still holds its own slice; temporary names are not modelled.
- PyMiddleBlocks.PyMiddleCache.StoreStaged: the restoring and clean-up steps are taken not to fail, and the argument checks and the expiry pass before it are not part of it.
- RangeServer.Server.ServeAuthorizedRange: the build lock's outcome is arbitrary here, and its protocol is proved apart; the item's latest metadata row describes the same bytes and headers as the fresh metadata, under whatever key and URL, since the source is taken not to change.
- Planner.PlannersAgree: media and tail sizes below zero, which the callers never pass, are excluded.
- RangeText.SidecarRoundTrip: white space is trimmed as ASCII only.

# Chart Locker, modelled and verified in Dafny

Chart Locker keeps a disk cache of chart tiles for a boat's chart plotter (a Rust container) and a Signal K
plugin that manages it (TypeScript). This project models the parts whose correctness is hardest to see from
one function at a time, and proves what they promise over all inputs and all runs.

| file | what it models |
|---|---|
| `Tables.dfy` | the two relations of the cache, sums of bytes over them, region categories |
| `Eviction.dfy` | the least-recently-used window delete and its hysteresis target |
| `Sweeping.dfy`, `SweepRuns.dfy` | the age sweep and the clear, in chunks of 4096 rows, alone and among other callers |
| `WarmBatch.dfy` | the batched pinned store: growth estimate, two gates, make-room pass |
| `Regions.dfy` | pinning a cached row, deleting a region, staged promotion, staging cleanup |
| `Operations.dfy` | every operation as a step on the tables, and what holds over every run |
| `CapPromise.dfy`, `CapRuns.dfy` | when stores, renewals and cap changes keep the total within the cap |
| `TileCache.dfy` | the cache class: the tables beside three running values kept by increments |
| `Sorting.dfy`, `TileRanges.dfy`, `TileCounts.dfy`, `Mercator.dfy` | the tile enumerator |
| `SingleFlight.dfy`, `Fills.dfy` | the per-key flight map with weak entries, and the fill that uses it |
| `HostHealth.dfy` | the host health monitor |
| `Exclusion.dfy` | the watcher of the third-party chart provider |
| `Rescan.dfy` | the coalescing rescan queue |
| `EntityTags.dfy` | the If-None-Match parser and weak comparison |
| `Sets.dfy`, `Wrappers.dfy` | a lemma on cardinality; option and result types |

How the model is laid out. A SQL statement is a function from tables to tables; the Rust control flow around
it is a method of the class `TileCache`, whose fields are the connection's tables and the running values.
Each method is tied to a step function, and the theorems are about the steps and about runs of them. The event
loops and the flight map are step machines in the same way: one atomic handler is one step, any interleaving of
steps is a run, and a class with the code's own fields is proved to take exactly those steps.

What stands outside. Free disk space, the way the engine ends a write (committed, disk full, any other
failure), clock readings and the replies of awaited calls are inputs of a step. A write that does not commit
changes nothing. Byte sizes are non-negative, and sums of them are taken to stay within 64 bits, so the
saturating addition of the growth estimate is plain addition. Regular SQLite rowids are modelled by a counter
above every rowid in use.

## Findings

Places where the code and what is said about it differ; the model follows the code.

- `promote_staged_regions` ends each replacement with a statement that pins the promoted rows again, because a
  shared row "may have been demoted by the first UPDATE". It never is: the staging join itself keeps the row out
  of that demotion (`Regions.RepinChangesNothing`).
- The configuration route says the physical total stays at or below the cap throughout. No gate but the limit on one
  body weighs a live write, so this is what holds. After a store and its eviction the total is within the cap for
  every store exactly when the pinned bytes fit the cap even after the pinned row that can grow most has grown to
  that limit (`CapPromise.StoresKeepCapIff`); one body of room above the pins is enough for stores
  (`CapPromise.OneBodyOfRoomIsEnough`), and under any cap a run can use that room up and then exceed the cap
  (`CapPromise.RefreshCanOutgrowTheCap`). A fill's 304 puts the copy it read back and evicts nothing, so it keeps the
  cap exactly when the row's growth fits the room (`CapRuns.RenewalKeepsCapIff`). Over runs, a total that has gone
  past the cap did so at a store's put, which its eviction follows, or at a renewal whose row was deleted or shrunk
  since its re-check (`CapRuns.CrossingIsAPut`), and each eviction since found pins that did not fit
  (`CapRuns.EvictionsSinceFoundPins`). Such a renewal exceeds the cap with nothing pinned in
  `CapRuns.RenewalCanExceedTheCap`.
- The route compares the pinned bytes with a new cap under one hold of the lock, evicts under another, and publishes
  the cap some awaits later. At the eviction the cap bounds the total exactly when the pins still fit
  (`CapPromise.EnforcementHoldsIff`); one refresh in between can be too much (`CapPromise.EnforcementCanMiss`). By
  the publication, stores that still evict to the old cap may have exceeded a lowered one that is then reported as
  applied (`CapRuns.PublishedCapHoldsIff`, `CapRuns.StoreUnderOldCapIff`, `CapRuns.LoweredCapCanBeExceeded`).
- A pin keeps a saved row stored but not its body: a style asset's 404 is written over it as a negative row, and a
  fill's answer can undo what a warm stored while it was awaited. The body stays exactly when no negative row is
  written (`Operations.BodySurvivesIff`, `Operations.SavedBodyCanBeLost`), and a fill's answer neither loses nor ages
  one unless its read failed or another writer touched the key since (`Fills.AnswersAreSafeAlone`,
  `Fills.FlushDuringFetchIsUndone`).
- The memo of the real regions' sum does not record which region it leaves out: a clean memo answers any argument
  with the sum for the region named when it was filled. The two can differ
  (`Tables.StatisticDependsOnTheRegion`). All readers name the same region, and then the memo is right
  (`TileCache.TileCache.RealRegionPinnedBytes`).
- Over a whole run the health monitor reports something after its `stop` exactly when the stop lands on the probe
  that follows a restart and that probe still answers healthy (`HostHealth.StoppedRunsSpeakIffReprobed`); such a
  run exists (`HostHealth.StoppedRunCanSpeak`).
- A second `stop` of the exclusion watcher resolves at once, while the first may still be waiting for
  `onChange` (`Exclusion.SecondStopResolvesEarly`).
- Requests made during a rescan get their follow-up exactly when that rescan succeeds; when it fails they are
  rejected with it (`Rescan.FailureDropsTheFollowUp`, `Rescan.FollowUpCanBeDropped`).
- Section 5.6.1 of RFC 9110 asks recipients to ignore empty list elements. The entity-tag parser reads such a list
  correctly exactly when it has none, and rejects the whole field otherwise
  (`EntityTags.EmptyElementsAreRejected`, `EntityTags.EmptyElementHidesTheTags`).

## Model

| member | source | states |
|---|---|---|
| Tables.StatisticMatchesGate | container/tilecache/src/cache.rs:1049-1087 | In sound tables the statistic's query (pinned and joined) and the gate's query (joined only) sum the same rows for every real region |
| Tables.StatisticDependsOnTheRegion | container/tilecache/src/cache.rs:1396-1408 | Leaving out one region or another gives different sums as soon as one tile is saved, so the memo of one is wrong for the other |
| Tables.CategoryWithinPinned | container/tilecache/src/cache.rs:1049-1087 | Either category, and the no-region category, is a subset of the pinned rows and never outweighs them |
| Tables.RegionKindsAre | container/tilecache/src/cache.rs:1093-1118 | Position-warm and its staging copies are in the position category, every other id, other staging copies included, in the real one |
| Tables.SumUpdate | container/tilecache/src/cache.rs:705-711 | Rewriting one row moves a byte sum by that row's delta if and only if its key takes part, which is what makes the incremental totals exact |
| Tables.SumBytes | container/tilecache/src/cache.rs:231-239 | The SUM aggregate computed row by row is the byte sum of the specification |
| Tables.PinnedWithinTotal | container/tilecache/src/cache.rs:176-185 | The total is the pinned bytes plus the unpinned bytes |
| Tables.DeleteUnpinned | container/tilecache/src/cache.rs:818-826 | Deleting any set of unpinned rows takes exactly their bytes off the total and none off the pinned sum |
| Tables.DeleteUnpinnedSparesRegions | container/tilecache/src/cache.rs:853-857 | It orphans no join row and moves no category's sum |
| Tables.DeleteUnpinnedSparesStatistic | container/tilecache/src/cache.rs:181-184 | Nor the memoized statistic, so eviction and sweeps may leave the memo clean |
| Eviction.VictimsAreShortestPrefix | container/tilecache/src/cache.rs:740-767 | The deleted rows go oldest first, free the deficit or are all the unpinned rows, and are contained in every oldest-first set that frees the deficit |
| Eviction.VictimsGoOldestFirst | container/tilecache/src/cache.rs:753-760 | Every unpinned row older than a deleted one is deleted too |
| Eviction.VictimsSuffice | container/tilecache/src/cache.rs:734-739 | The deleted rows free the deficit, or no unpinned row is left |
| Eviction.VictimsAreNecessary | container/tilecache/src/cache.rs:749-760 | No oldest-first set that frees the deficit leaves a deleted row out |
| Eviction.EvictionReachesTarget | container/tilecache/src/cache.rs:769-793 | After an eviction the total is at the target or equals the pinned bytes, and the pinned bytes are as before |
| Eviction.CapHoldsIffPinsFit | container/tilecache/src/cache.rs:772-793 | Enforcing a cap leaves the total within it if and only if the pinned bytes fit |
| Eviction.NextEvictionNeedsTheGap | container/tilecache/src/cache.rs:36-45 | Once an eviction stopped at its target, one percent or 64 MiB below a cap of 128 MiB or more and the cap itself below that, another one deletes something only after more than the gap in net bytes was added |
| Eviction.EvictToStopsInTime | container/tilecache/src/cache.rs:36-45 | The same numbers bound what goes: the total ends at or below the target or at the pins, no row goes once it is there, and rows go in order of last access and then of rowid |
| Eviction.EvictToDeletesUnpinned | container/tilecache/src/cache.rs:736-737 | Eviction is the deletion of a set of unpinned rows and nothing else |
| Eviction.EvictionSparesRegions | container/tilecache/src/cache.rs:736-739 | Eviction keeps every join, every pin, the pinned sum and each category's sum |
| Eviction.EvictionSparesStatistic | container/tilecache/src/cache.rs:181-184 | Eviction moves neither the pinned sum nor the statistic |
| Sweeping.FirstRowsCount | container/tilecache/src/cache.rs:818-823 | Under the total order, LIMIT selects exactly the limit or every row when fewer remain |
| Sweeping.ShortChunkIsLast | container/tilecache/src/cache.rs:837-848 | A chunk shorter than the limit deletes everything that was left to delete, and only then is a chunk short |
| Sweeping.ChunkThenRest | container/tilecache/src/cache.rs:837-850 | Sweeping what a chunk left is sweeping the whole selection |
| Sweeping.ChunkSums | container/tilecache/src/cache.rs:839-844 | The bytes and rows of a chunk and of the rest add up to the whole selection's |
| Sweeping.SweepChunkSums | container/tilecache/src/cache.rs:839-841 | One chunk takes its own bytes off the total and moves neither the pinned sum nor the statistic |
| Sweeping.ChunkProgress | container/tilecache/src/cache.rs:837-848 | A full chunk strictly shrinks the selection, so the loop ends |
| Sweeping.ChunkTakesTheFirst | container/tilecache/src/cache.rs:863-877 | A chunk takes the least recently accessed of the aged rows, oldest write first among equals, and the oldest written of a clear's |
| Sweeping.ClearLeavesThePins | container/tilecache/src/cache.rs:871-882 | An uninterrupted clear leaves exactly the pinned rows, with total equal to pinned |
| SweepRuns.CompletedMeansNoneLeft | container/tilecache/src/cache.rs:837-850 | Whatever runs in the gaps, a sweep that comes to its end leaves nothing it selects |
| SweepRuns.CompletedClear | container/tilecache/src/cache.rs:871-882 | So a clear that ends leaves the total equal to the pinned bytes at that moment |
| SweepRuns.FreedBytesAreExact | container/tilecache/src/cache.rs:835-849 | Bytes before plus what other callers added are bytes after plus bytes reported freed, for ended and failed sweeps |
| SweepRuns.FailedSweepIsResumed | container/tilecache/src/cache.rs:838-841 | With nothing in the gaps, a sweep the engine stops is finished by the next, and one it does not stop is one delete of everything selected |
| SweepRuns.SweptIsARun | container/tilecache/src/cache.rs:837-848 | A sweep among others is a run whose chunks lie between their steps |
| SweepRuns.SweepKeepsRegions | container/tilecache/src/cache.rs:852-857 | No sweep, whatever else runs, takes a joined tile away short of what releases its region |
| WarmBatch.StoreRowSums | container/tilecache/src/cache.rs:930-981 | The three deltas of a stored row are exactly the changes of the total, the pinned sum and the written category |
| WarmBatch.StoreRowWrites | container/tilecache/src/cache.rs:961-975 | A stored row has the batch's tile, is pinned, newest and joined to its region, and nothing else changes |
| WarmBatch.RefusedIff | container/tilecache/src/cache.rs:937-960 | A row is refused if and only if storing it would raise the pinned bytes past the larger of the cap and where they are, or the category past the larger of the budget and where it is |
| WarmBatch.BatchStopsAtTheFirst | container/tilecache/src/cache.rs:930-960 | The batch stores every row before the first that would, and stops there |
| WarmBatch.GrowthIsOfTheTotal | container/tilecache/src/cache.rs:286-309 | A row's growth is what it adds to the total when it adds anything |
| WarmBatch.SharedRowMovesTheOtherCategory | container/tilecache/src/cache.rs:954-960 | The other category moves by the row's delta exactly when it shares the row, and no gate weighs it |
| WarmBatch.InsertOneMore | container/tilecache/src/cache.rs:961-980 | One more accepted row moves every running value of the batch as a rescan would |
| WarmBatch.RefusalStops | container/tilecache/src/cache.rs:950-960 | The first refused row fixes what is stored |
| WarmBatch.AcceptedBounds | container/tilecache/src/cache.rs:945-960 | Gating only positive deltas keeps each sum within its limit or where it started |
| WarmBatch.LastRowWins | container/tilecache/src/cache.rs:961-975 | A stored key ends pinned, joined and with the tile of its last stored row |
| WarmBatch.UnnamedRowsKept | container/tilecache/src/cache.rs:961-975 | A key the batch does not name keeps its row |
| WarmBatch.BatchStaysInBounds | container/tilecache/src/cache.rs:884-903 | After a batch not declined: pinned at most max(cap, before), category at most max(budget, before), total at most max(cap, pinned) |
| WarmBatch.BatchRowsAreKept | container/tilecache/src/cache.rs:898-903 | Every accepted row is stored, pinned and joined after the make-room pass, the former oldest candidate included |
| WarmBatch.EstimateBoundsGrowth | container/tilecache/src/cache.rs:286-309 | The pre-write estimate bounds the growth of every stored prefix, and is the reported growth when the whole batch is stored |
| WarmBatch.GrowthCoversTheTotal | container/tilecache/src/cache.rs:286-309 | The estimate is never under what the total gains, and is over it exactly when some row shrinks |
| WarmBatch.FittingBatchIsAccepted | container/tilecache/src/cache.rs:950-960 | A batch whose bytes fit what is left of the category and of the cap is never capped, duplicate keys included |
| WarmBatch.ReportedFreeBytesAreSpendable | container/tilecache/src/routes.rs:311 | Under budgets the configuration test accepts, a real region's batch within the reported free bytes and the cap is stored whole |
| WarmBatch.FreeBytesAreTheRoom | container/tilecache/src/routes.rs:309-311 | And no more is: one tile new to the real regions that fits the cap is stored if and only if it fits the reported free bytes |
| WarmBatch.BudgetsAcceptedMeans | container/tilecache/src/routes.rs:454 | A configuration push accepts budgets exactly when 0 <= position <= regions <= cap and the cap is positive |
| Regions.PinRowSums | container/tilecache/src/cache.rs:1019-1047 | A pin keeps the total and adds the row to the pinned sum only when it was unpinned |
| Regions.PinRowWrites | container/tilecache/src/cache.rs:1019-1047 | A pin sets the row's pin bit, records exactly the region's join, and touches nothing else |
| Regions.PinMovesCategory | container/tilecache/src/cache.rs:1214-1217 | It moves the category by the row when the row was outside |
| Regions.PinRefusedIff | container/tilecache/src/cache.rs:1214-1222 | A pin is refused if and only if it would raise the category past its budget or where it is, or the pinned bytes past theirs when they have one |
| Regions.FreshUntil | container/tilecache/src/cache.rs:1209-1213 | A tile is served until its window has passed, a 200 the freshness one and anything else the negative one |
| Regions.PinRowCategory | container/tilecache/src/cache.rs:1214-1224 | A pin that is not refused keeps the category and the pinned sum within their limits or where they were |
| Regions.DeleteRegionReleases | container/tilecache/src/cache.rs:1257-1292 | Deleting a region drops its joins alone, deletes no row, and leaves pinned exactly the rows another region holds |
| Regions.CleanupReleasesStaging | container/tilecache/src/cache.rs:513-527 | Cleanup drops exactly the staging joins and leaves pinned exactly the rows another join holds |
| Regions.ReplaceJoins | container/tilecache/src/cache.rs:1320-1327 | The joins after one replacement: the target owns what the staging id owned, everyone else is untouched |
| Regions.RepinChangesNothing | container/tilecache/src/cache.rs:1328-1335 | In sound tables the final re-pin statement is the identity |
| Regions.Promote1Pins | container/tilecache/src/cache.rs:1307-1336 | One replacement unpins a row exactly when the row lost its last join |
| Regions.PromoteAllPins | container/tilecache/src/cache.rs:1307-1336 | So does any list of replacements, distinct ids or not, and the tables stay sound |
| Regions.PromotionSparesOthers | container/tilecache/src/cache.rs:1307-1336 | A region no replacement names keeps exactly its joins |
| Regions.PromotionMovesStaging | container/tilecache/src/cache.rs:1307-1336 | With distinct ids each target ends with its staging set and each staging id empty |
| Regions.DistinctIdsMeans | container/tilecache/src/cache.rs:1294-1299 | The ids of the replacements are distinct when no two of all they name are equal |
| Regions.PromotionIsAllOrNothing | container/tilecache/src/cache.rs:1294-1358 | Promotion commits every replacement with the pinned bytes within the cap and every real and position region's category within its own budget, or changes nothing |
| Regions.WithinLimitsMeans | container/tilecache/src/cache.rs:1337-1348 | The three comparisons are the cap for the pinned bytes, the real budget for every real id and the position budget for every position id |
| Regions.PromotionRaisesNothing | container/tilecache/src/cache.rs:1306-1336 | Replacements that stay within their category raise neither the pinned bytes nor any category |
| Regions.FittingPromotionCommits | container/tilecache/src/cache.rs:1337-1349 | So from tables within the bounds they commit |
| Operations.PutRowSums | container/tilecache/src/cache.rs:694-711 | A live write moves the total by its delta and the pinned sum by delta, full bytes or nothing as the pin demands |
| Operations.PutRowWrites | container/tilecache/src/cache.rs:689-703 | A live write stores the tile with its access time as the newest row, keeps a pin, and touches no other row and no join |
| Operations.HeadroomMeans | container/tilecache/src/cache.rs:89-95 | A write has headroom when it adds nothing, when free space is unknown, or when free and reusable space hold it with 256 MiB to spare |
| Operations.UnpinnedPutSparesStatistic | container/tilecache/src/cache.rs:705-711 | A write that leaves its row unpinned cannot move the statistic, so the memo may stay clean |
| Operations.TouchRowSums | container/tilecache/src/cache.rs:724-732 | A touch changes no sum |
| Operations.TouchRowWrites | container/tilecache/src/cache.rs:724-732 | A touch moves one row's last access forward, never back, and touches nothing else |
| Operations.LiveSteps | container/tilecache/src/cache.rs:664-732 | A committed write stores its tile and keeps a pin, and a committed touch moves one access time forward |
| Operations.NextKeepsSound | container/tilecache/src/cache.rs:664-1358 | Every operation keeps every join on a stored, pinned row |
| Operations.RunKeepsSound | container/tilecache/src/cache.rs:664-1358 | So does every run, with failed, degraded, capped and refused operations and restarts in it |
| Operations.JoinSurvives | container/tilecache/src/cache.rs:664-1358 | No operation but one that releases the region removes a join |
| Operations.OfflineGuarantee | container/tilecache/src/cache.rs:690-694 | Over every run a tile joined to a region stays stored and pinned until an operation releases that region |
| Operations.PinSteps | container/tilecache/src/cache.rs:1187-1255 | A pin goes through exactly when the row is there, is served if that is asked, and raises neither sum past its limit; then the pin bit and the join are all that changes, and otherwise nothing does |
| Operations.PinnedStaysOffline | container/tilecache/src/cache.rs:1187-1255 | The guarantee starts with an accepted pin: the tile is joined to the region, stored and pinned through every run that does not release it |
| Operations.WarmedStaysOffline | container/tilecache/src/cache.rs:904-1013 | It starts with every row a warm stored for the region |
| Operations.ReleaseCanTakeATile | container/tilecache/src/cache.rs:1256-1358 | Every operation excepted from the guarantee does take a tile away in some tables |
| Operations.BodySurvivesIff | container/tilecache/src/cache.rs:664-1358 | A saved tile keeps a body through an operation that does not release its region if and only if no negative row is written over it, by a live write or as its last row in a batch |
| Operations.OfflineBody | container/tilecache/src/cache.rs:664-1358 | So over every run, until such a write or a release |
| Operations.SavedBodyCanBeLost | container/tilecache/src/style.rs:973-978 | Any saved body is lost to one committed negative row, and the row stays pinned |
| Operations.FreeBytesSpendableAfterAnyRun | container/tilecache/src/routes.rs:309-311 | In every reachable state the reported free bytes can be spent by a real region's batch |
| CapPromise.PutMeetsCapIff | container/tilecache/src/fetcher.rs:131-148 | A live write and its eviction leave the total within the cap if and only if the pinned bytes plus what the write adds to them fit |
| CapPromise.RefreshCanOutgrowTheCap | container/tilecache/src/routes.rs:402-405 | Under any cap and any body limit of two bytes or more, with room on the disk, a run whose warm passes both gates and whose one refresh is within the body limit ends above the cap after its eviction |
| CapPromise.StoreKeepsCapIff | container/tilecache/src/fetcher.rs:131-148 | Every store of one key, put and eviction, leaves the total within the cap if and only if the pinned bytes plus the most that key can add fit, bodies being bounded and negative rows charged a fixed cost |
| CapPromise.StoresKeepCapIff | container/tilecache/src/fetcher.rs:131-148 | Every store of every key does so if and only if the pinned bytes fit the cap even after any one pinned row has grown to the largest a fetch may be |
| CapPromise.OneBodyOfRoomIsEnough | container/tilecache/src/state.rs:395-427 | With room for one largest body above the pinned bytes no store and its eviction leave the total past the cap |
| CapPromise.WarmFillsTheCap | container/tilecache/src/cache.rs:904-1013 | A warm within its budget can fill the cap with pins to the last byte |
| CapPromise.EnforcementHoldsIff | container/tilecache/src/routes.rs:473-482 | A cap that passed the comparison bounds the total when the eviction has run if and only if the pins still fit by then, whatever ran in between |
| CapPromise.EnforcementCanMiss | container/tilecache/src/routes.rs:473-482 | A reachable state and one refresh in between after which the eviction leaves the total above the cap |
| CapRuns.RenewalKeepsCapIff | container/tilecache/src/fetcher.rs:598-622 | A put with no eviction, a fill's renewal, keeps the cap if and only if the growth of its row fits the room |
| CapRuns.OnlyPutsCross | container/tilecache/src/cache.rs:664-1358 | No operation but a put takes a total within the cap past it |
| CapRuns.StepCrossesIff | container/tilecache/src/fetcher.rs:131-148 | A step takes the total past the cap if and only if it is a committed put of a store or a renewal that outgrows the room |
| CapRuns.OverrunIff | container/tilecache/src/fetcher.rs:131-148 | A run from within the cap ends above it if and only if one of its steps crossed it and nothing brought it back |
| CapRuns.CrossingIsAPut | container/tilecache/src/fetcher.rs:598-622 | That step is a put that outgrew the room, and when it is a renewal its row was deleted or shrunk after the re-check that read the copy |
| CapRuns.EvictionsSinceFoundPins | container/tilecache/src/cache.rs:772-793 | Every committed eviction to the cap or below since then found pins that did not fit, so the next one to find pins that fit ends it |
| CapRuns.CopyWasRead | container/tilecache/src/fetcher.rs:581-594 | The copy a renewal writes is the row at its fill's latest re-check |
| CapRuns.RenewalCanExceedTheCap | container/tilecache/src/fetcher.rs:598-622 | A run that meets the stores' condition at its last step, nothing pinned, and ends at twice the cap by a renewal |
| CapRuns.PublishedCapHoldsIff | container/tilecache/src/routes.rs:473-533 | A pushed cap bounds the total at its publication if and only if no step since the eviction crossed it for good; with no put and no warm under a larger cap in between it does |
| CapRuns.StoreUnderOldCapIff | container/tilecache/src/routes.rs:480-533 | A store that need not evict under the old cap keeps the new one if and only if its growth fits what the new one leaves |
| CapRuns.LoweredCapCanBeExceeded | container/tilecache/src/routes.rs:480-533 | A lowered cap exceeded at its publication with nothing pinned |
| TileCache.SelectVictims | container/tilecache/src/cache.rs:754-759 | The window scan finds exactly the rows whose running prior is under the deficit |
| TileCache.EvictUnpinnedWithin | container/tilecache/src/cache.rs:740-767 | The returned bytes are exactly what the total lost |
| TileCache.BatchPhysicalGrowth | container/tilecache/src/cache.rs:289-309 | The overlay estimate equals the growth measured along the transaction, for any duplicate keys |
| TileCache.ApplyReplacements | container/tilecache/src/cache.rs:1306-1336 | The statements of a promotion, run in order, are the specified promotion |
| TileCache.TryPromote | container/tilecache/src/cache.rs:1304-1350 | The transaction keeps the tables sound and the total, and accepts exactly when all three limits hold |
| TileCache.InsertGated | container/tilecache/src/cache.rs:921-981 | The loop with running deltas stores exactly the rows a gate that rescans would accept |
| TileCache.ApplyBatch | container/tilecache/src/cache.rs:918-1013 | Inserts, then the make-room pass: new tables, totals and outcome are the specified ones |
| TileCache.TileCache.Open | container/tilecache/src/cache.rs:207-252 | Opening recounts, so a restart over the tables any run left is exact |
| TileCache.TileCache.Restart | container/tilecache/src/cache.rs:207-252 | The same for a restart in the middle of a run |
| TileCache.TileCache.Put | container/tilecache/src/cache.rs:664-720 | Counters stay exact; stored, degraded or failed exactly as headroom and the engine decide; only a stored write changes the tables |
| TileCache.TileCache.Touch | container/tilecache/src/cache.rs:724-732 | Last access never goes back and the counters stay exact |
| TileCache.TileCache.EvictToCap | container/tilecache/src/cache.rs:772-793 | Counters stay exact, and the total then fits the cap if and only if the pins do |
| TileCache.TileCache.EnforceCap | container/tilecache/src/routes.rs:473-482 | Refused exactly when the pins exceed the cap at the first hold of the lock; otherwise what others did in between and then the eviction, which bounds the total exactly when the pins fit by then, and always when nothing ran in between |
| TileCache.TileCache.DeleteUnpinnedChunk | container/tilecache/src/cache.rs:838-842 | One chunk reports exactly the bytes and rows it freed |
| TileCache.TileCache.DeleteUnpinnedChunks | container/tilecache/src/cache.rs:827-850 | The loop takes the specified chunks, with other callers in the gaps and deletes that fail, and its bytes and rows are the specified ones |
| TileCache.TileCache.SweepAgedUnpinned | container/tilecache/src/cache.rs:858-869 | A sweep that ends leaves only pinned rows and rows accessed since the cutoff, whatever ran in the gaps; alone it leaves exactly those of before and reports the difference; nothing when the time to live is not positive |
| TileCache.TileCache.ClearUnpinned | container/tilecache/src/cache.rs:875-882 | A clear that ends leaves total equal to pinned and only pinned rows, whatever ran in the gaps; alone it leaves exactly those of before and reports the difference |
| TileCache.TileCache.PutManyPinned | container/tilecache/src/cache.rs:904-1013 | Counters stay exact; declined, failed or stored exactly as headroom and the engine decide, with stored rows, growth and the capped flag as specified |
| TileCache.TileCache.PinLocked | container/tilecache/src/cache.rs:1019-1047 | The pin transaction sets the pin bit and records the join, and its increment keeps the counters exact |
| TileCache.TileCache.PinIfFreshCapped | container/tilecache/src/cache.rs:1187-1225 | Pinned, missing or stale, or capped exactly by the age of the row and the two gates; when pinned, the pin bit and the region's join are what changed |
| TileCache.TileCache.PinForRegion | container/tilecache/src/cache.rs:1232-1255 | Pinned exactly when the row exists and its category has room; then the pin bit and the region's join are what changed |
| TileCache.TileCache.DeleteRegion | container/tilecache/src/cache.rs:1267-1292 | The recount after a delete keeps the counters exact, region-less pins included |
| TileCache.TileCache.PromoteStagedRegions | container/tilecache/src/cache.rs:1297-1358 | True exactly when the engine commits and all limits hold, and then every region's category is within its own budget and the pins within the cap; otherwise nothing changes |
| TileCache.TileCache.CleanupAbandonedStaging | container/tilecache/src/cache.rs:530-540 | The recount after a cleanup keeps the counters exact |
| TileCache.TileCache.RealRegionPinnedBytes | container/tilecache/src/cache.rs:1389-1409 | The answer is the sum a scan would return for the region named when the memo was last filled, so for the one asked about whenever every reader names the same; reading leaves the memo clean |
| TileCache.TileCache.ReportedFreeBytes | container/tilecache/src/routes.rs:309-311 | The figure is the real slice minus the memo's exact sum, floored at zero, and the budget gate's own figure when every reader leaves position-warm out |
| TileCache.TileCache.Perform | container/tilecache/src/cache.rs:176-185 | Each operation takes the specified step and keeps the running values exact |
| TileCache.TileCache.PerformAll | container/tilecache/src/cache.rs:176-185 | After any run, sweep chunks interleaved with anything included, total, pinned sum and clean memo equal a rescan of the tables, and the memo is for the one region every read names |
| TileRanges.ApartShareNoTile | container/tilecache/src/geom.rs:99-101 | Two ranges of a disjoint list share no tile |
| TileRanges.MergeSlab | container/tilecache/src/geom.rs:129-157 | Merging intervals sorted by their low end gives gapped rectangles with the same coverage, whatever order ties come in |
| TileRanges.SlabAllOrNothing | container/tilecache/src/geom.rs:112-128 | A rectangle covers a whole slab or misses it |
| TileRanges.SpanningIsCoverage | container/tilecache/src/geom.rs:124-128 | In a slab the spanning ranges' intervals are the whole coverage |
| TileRanges.SweepZoom | container/tilecache/src/geom.rs:107-158 | The slabs of one zoom are disjoint and cover exactly that zoom's tiles |
| TileRanges.DisjointRanges | container/tilecache/src/geom.rs:101-162 | For any list the result is pairwise disjoint, ordered, and covers exactly the union of the inputs |
| TileCounts.TilesAreTheCoverage | container/tilecache/src/geom.rs:192-206 | The enumeration lists exactly the covered tiles, each once, and its length is the count |
| TileCounts.CountTiles | container/tilecache/src/geom.rs:181-188 | The loop sums the areas of the ranges |
| TileCounts.CountWithinWorld | container/tilecache/src/geom.rs:71-80 | The count is the cardinality of the tile set and at most the sum of the powers of four up to the zoom ceiling |
| TileCounts.CountFits | container/tilecache/src/geom.rs:71-73 | With the ceiling at 24 the count stays under 2^50 |
| Mercator.IndexHoldsFraction | container/tilecache/src/geom.rs:14-24 | Inside the world the tile index is the one whose span holds the point |
| Mercator.IndexHalves | container/tilecache/src/geom.rs:14-24 | One zoom up every index halves, clamped ones included |
| Mercator.ColumnHoldsLongitude | container/tilecache/src/geom.rs:14-24 | A longitude's column is the one whose 360 degrees over 2^z, counted from -180, hold it |
| Mercator.RowHoldsLatitude | container/tilecache/src/geom.rs:14-24 | A latitude's row is the one whose 2 over 2^z of Mercator ordinate, counted from 1 at the north edge, hold it |
| Mercator.PolarRows | container/tilecache/src/geom.rs:16 | Latitudes beyond the Mercator limits have the row of the limit |
| Mercator.IndexClamps | container/tilecache/src/geom.rs:20-23 | Points outside the grid have its nearest column or row |
| Mercator.ClipsStayInTheOverlap | container/tilecache/src/geom.rs:44-69 | Every point of a clip is in the request, in the source's coverage and within the Mercator limits, across the antimeridian and on it too |
| Mercator.OverlapIsClipped | container/tilecache/src/geom.rs:44-69 | Every point strictly inside request, coverage and limits is in a clip, one on the antimeridian included |
| Mercator.DegenerateRequestsAreEmpty | container/tilecache/src/geom.rs:46-52 | An empty request, or a whole turn written backwards, has no clip |
| Mercator.RectHoldsItsPoints | container/tilecache/src/geom.rs:82-88 | A clip's rectangle holds the tile of each of its points |
| Mercator.RectsAt | container/tilecache/src/geom.rs:170-175 | The rectangles pushed at one zoom cover exactly the clips' tiles |
| Mercator.CoveredRanges | container/tilecache/src/geom.rs:164-178 | The ranges are disjoint and cover exactly the tiles some clip wants at an effective zoom |
| Mercator.TilesInBbox | container/tilecache/src/geom.rs:181-206 | The tiles are the wanted ones without repeats, and the count is their number and fits 64 bits |
| Mercator.PointsAreWanted | container/tilecache/src/geom.rs:82-88 | Every point of a clip has its tile enumerated at every effective zoom |
| Mercator.PointsHaveATile | container/tilecache/src/geom.rs:73-88 | Every point of a clip lies in the span of an enumerated tile at each zoom the request, the source and the ceiling of 24 allow |
| Mercator.WantedMeetsAClip | container/tilecache/src/geom.rs:73-88 | No tile is enumerated for nothing: its zoom is allowed and its span meets a clip on both axes |
| Mercator.ParentsAreWanted | container/tilecache/src/geom.rs:164-178 | The tiles at a zoom are exactly the parents of the tiles at the next when both are in range |
| SingleFlight.LockKeepsInv | container/tilecache/src/state.rs:431-446 | Taking a lock keeps the map bounded, entries of unfinished flights in place and guards exclusive |
| SingleFlight.FinishKeepsInv | container/tilecache/src/state.rs:450-459 | An entry is dropped only when the finisher holds the only lease |
| SingleFlight.ContainsKeepsInv | container/tilecache/src/state.rs:463-471 | Forgetting a dead entry strands no unfinished flight |
| SingleFlight.StepKeepsInv | container/tilecache/src/state.rs:431-471 | So does every step |
| SingleFlight.RunKeepsInv | container/tilecache/src/state.rs:431-471 | All of it in every interleaving, cancellations included |
| SingleFlight.FlightsAreExclusive | container/tilecache/src/fetcher.rs:570-593 | At most one flight per key is between acquiring its lock and its finish |
| SingleFlight.NewcomersShareTheLock | container/tilecache/src/state.rs:431-435 | A newcomer for a key with an unfinished flight waits on that flight's lock |
| SingleFlight.RefusalMeansFull | container/tilecache/src/state.rs:436-442 | The map holds at most 256 entries, and a key is refused exactly when it is not live and 256 others are |
| SingleFlight.AbsentMeansNoFlight | container/tilecache/src/state.rs:461-471 | A key reported absent has no unfinished flight |
| SingleFlight.GuardOutlivesTheSection | container/tilecache/src/fetcher.rs:690 | After a lone flight's finish the next may hold a new lock while the first guard is still out |
| SingleFlight.ReleaseGrants | container/tilecache/src/fetcher.rs:574 | A dropped guard frees its lock for whoever waits on it |
| SingleFlight.LastLeaseEndsTheKey | container/tilecache/src/state.rs:436-439 | With its last lease a key dies, and the next look or prune forgets it |
| SingleFlight.OtherLeasesKeepTheKey | container/tilecache/src/state.rs:464-467 | Any other lease keeps it live |
| SingleFlight.FlightMap.RetainLive | container/tilecache/src/state.rs:436-439 | Removing the key and retaining live entries is the prune of the step |
| SingleFlight.FlightMap.InflightLock | container/tilecache/src/state.rs:431-446 | The method takes the step and returns a lease unless the key is refused |
| SingleFlight.FlightMap.InflightFinish | container/tilecache/src/state.rs:450-459 | The method takes the finish step |
| SingleFlight.FlightMap.InflightContains | container/tilecache/src/state.rs:463-471 | True exactly when the entry is live; a dead one is forgotten |
| SingleFlight.FlightMap.TryAcquire | container/tilecache/src/fetcher.rs:574 | The guard is granted exactly when no other lease on the lock has it |
| SingleFlight.FlightMap.DropGuard | container/tilecache/src/fetcher.rs:574 | A dropped guard takes its step |
| SingleFlight.FlightMap.DropLease | container/tilecache/src/fetcher.rs:571-573 | A dropped lease takes its step |
| Fills.NoFetchWhileFresh | container/tilecache/src/fetcher.rs:570-593 | In every interleaving, once a fetch for a key is answered no flight of that key fetches for as long as each re-check can read a fresh row, on the same lock or a new one |
| Fills.OneFetchServesTheWindow | container/tilecache/src/fetcher.rs:576-690 | After an answer that commits, no flight of the key fetches and the row stays the stored one until its window is over, in every interleaving in which no other writer touches the key |
| Fills.OneFetchPerKey | container/tilecache/src/fetcher.rs:570-690 | At most one flight of a key is fetching |
| Fills.RecheckFetchesIff | container/tilecache/src/fetcher.rs:576-593 | A re-check goes upstream exactly when the read failed or found no row inside its window: the freshness window of a tile it may serve, the negative one of a negative row |
| Fills.AnswerLeaves | container/tilecache/src/fetcher.rs:594-662 | What each answer leaves under the key, dated by the clock, and that no other row moves |
| Fills.AnswerEndsTheFetch | container/tilecache/src/fetcher.rs:594-690 | The flight that stores is alone with its key, and then nobody fetches |
| Fills.NextLockCoalesces | container/tilecache/src/fetcher.rs:690 | After a lone flight stores and finishes, the next one coalesces on a new lock with the first guard still out |
| Fills.AnswersAreSafeAlone | container/tilecache/src/fetcher.rs:576-690 | From a re-check that could read the row, a 304 leaves the body it finds and no answer takes a body away, in every interleaving in which no other writer touches the key |
| Fills.RenewalKeepsBodyIff | container/tilecache/src/fetcher.rs:598-622 | A 304 leaves the body it finds if and only if the row still has the body it revalidated |
| Fills.AnswerLosesBodyIff | container/tilecache/src/fetcher.rs:636-662 | An answer takes a servable body away if and only if it commits a 404 or 204 and the re-check had seen no servable row |
| Fills.FlushDuringFetchIsUndone | container/tilecache/src/fetcher.rs:598-662 | A body another writer stores while an answer is awaited is undone by a 304 or by a negative row |
| Fills.DeletedRowIsFetchedAgain | container/tilecache/src/fetcher.rs:576-596 | A row another writer deleted is fetched again at the next re-check |
| Fills.RunKeepsInv | container/tilecache/src/fetcher.rs:570-690 | A flight is queued until it holds its lock, and its clock reading is in the past |
| Fills.Filler.RecheckCache | container/tilecache/src/fetcher.rs:576-593 | The code's two tests settle the fill exactly when the row is fresh |
| Fills.Filler.StoreAnswer | container/tilecache/src/fetcher.rs:594-660 | What is stored is what the answer gives, a 404 or 204 only for a miss |
| Fills.Filler.FinishFill | container/tilecache/src/fetcher.rs:690 | The finish takes its step |
| HostHealth.CheckKeepsInv | src/runtime/host-health-monitor.ts:74-180 | One check, with any replies and a stop at any await, keeps every promise below |
| HostHealth.EveryRunKeepsItsPromises | src/runtime/host-health-monitor.ts:74-180 | Over every run: attempts spaced by the cooldown unless cleared, restarts only after the threshold and a healthy container probe, neither `healthy` nor `recovered` after a restart before a restore succeeded |
| HostHealth.AttemptsAreSpaced | src/runtime/host-health-monitor.ts:95-96 | Two attempts with no `healthy` or `recovered` between them are at least a cooldown apart |
| HostHealth.HealthyCheckReports | src/runtime/host-health-monitor.ts:91-122 | A healthy probe leads to a restore when the host is unconfigured, a recovery is under way or an address is owed, once the cooldown is over, and is reported when nothing is owed; what is owed is cleared exactly by a restore that succeeds |
| HostHealth.UnhealthyCheckReports | src/runtime/host-health-monitor.ts:124-180 | A failed probe is reported with its count below the threshold; at it, once the cooldown is over, the container is probed unless a recovery is under way and restarted if healthy, with every outcome's reports |
| HostHealth.UnhealthyCheckLeaves | src/runtime/host-health-monitor.ts:124-180 | It leaves the failure counted, the cooldown running from an attempt that began and a recovery under way to the address the restart gave, or everything cleared by a restore that succeeded |
| HostHealth.OnRestartKeepsInv | src/runtime/host-health-monitor.ts:124-148 | A restart is reported only at the threshold and with a healthy container probe on record |
| HostHealth.RestoreKeepsInv | src/runtime/host-health-monitor.ts:97-115 | A restore that succeeded closes the restart before `recovered` is reported |
| HostHealth.ReprobeSpeaks | src/runtime/host-health-monitor.ts:155-166 | The probe after a restart is the one place that reports without looking whether the monitor was stopped |
| HostHealth.StopSilencesUnlessReprobed | src/runtime/host-health-monitor.ts:155-166 | Of one check of a live monitor: it reports something after its stop if and only if the stop lands on a reprobe that still answers healthy, and otherwise stays silent |
| HostHealth.StoppedRunsSpeakIffReprobed | src/runtime/host-health-monitor.ts:74-180 | Over every run from the start: something is reported after the stop if and only if it landed on the reprobe of some check of the live monitor and that reprobe answered healthy |
| HostHealth.StoppedRunCanSpeak | src/runtime/host-health-monitor.ts:155-166 | A run from the start that reports after its stop |
| HostHealth.RunSettles | src/runtime/host-health-monitor.ts:74-180 | In every reachable state a live monitor's log holds no stop; only a stopped one can have spoken after it |
| HostHealth.HealthMonitor.RunCheck | src/runtime/host-health-monitor.ts:74-180 | The check is the specified one |
| HostHealth.HealthMonitor.RunHealthy | src/runtime/host-health-monitor.ts:91-122 | The healthy branch: owed restore, cooldown, restore, or `healthy` |
| HostHealth.HealthMonitor.RunUnhealthy | src/runtime/host-health-monitor.ts:124-146 | The unhealthy branch: counting, cooldown and container probe |
| HostHealth.HealthMonitor.RunRestart | src/runtime/host-health-monitor.ts:148-154 | The restart and the address it resolves |
| HostHealth.HealthMonitor.RunReprobe | src/runtime/host-health-monitor.ts:155-179 | The probe and restore after a restart |
| Exclusion.NextKeepsInv | src/charts/mutual-exclusion.ts:84-125 | Each handler keeps the timer and the transition exclusive and a differing live watcher busy |
| Exclusion.EveryRunKeepsInv | src/charts/mutual-exclusion.ts:84-125 | In every interleaving quiescence means applied equals observed, and retry delays stay bounded |
| Exclusion.StopIsFinal | src/charts/mutual-exclusion.ts:155-164 | Once the first `stop` has resolved no `onChange` runs or ever starts |
| Exclusion.StoppedOnlyWindsDown | src/charts/mutual-exclusion.ts:85-109 | A stopped watcher starts nothing and applies nothing, and its transition can always move on to its end |
| Exclusion.SecondStopResolvesEarly | src/charts/mutual-exclusion.ts:156-163 | A later `stop` changes nothing and waits for nothing; a change is still committed exactly while the first one waits on it |
| Exclusion.SecondStopCanSeeAChangeRunning | src/charts/mutual-exclusion.ts:156-163 | A run in which a second `stop` returns while `onChange` is running |
| Exclusion.AppliedIsConfirmed | src/charts/mutual-exclusion.ts:88-97 | `applied` is the target of the last change that succeeded before a stop, and a change is only called with a state that differs from it |
| Exclusion.StartIs | src/charts/mutual-exclusion.ts:75-82 | A new watcher takes the caller's applied state or what it saw, applies at once when they differ, and has the caller's base delay, at least a millisecond and a tenth of a second by default |
| Exclusion.ObservedIsTheLastRead | src/charts/mutual-exclusion.ts:114-125 | What is observed is the latest successful read before a stop |
| Exclusion.LiveWatcherCatchesUp | src/charts/mutual-exclusion.ts:84-112 | From every live state the timer and changes that succeed lead in at most seven steps to rest with what was observed applied |
| Exclusion.RetriesBackOff | src/charts/mutual-exclusion.ts:101-110 | A failed change is tried again after the base delay, doubled for each failure in a row up to five seconds; anything else is applied at once |
| Exclusion.FailedChangesAreRetried | src/charts/mutual-exclusion.ts:103-107 | A live watcher whose change failed and still differs arms its timer |
| Exclusion.ExclusionWatcher.ScheduleApply | src/charts/mutual-exclusion.ts:84-86 | Arms the timer exactly when live, idle, unarmed and differing |
| Exclusion.ExclusionWatcher.OnTimer | src/charts/mutual-exclusion.ts:86-92 | The timer handler takes its step |
| Exclusion.ExclusionWatcher.OnChangeStarts | src/charts/mutual-exclusion.ts:91-92 | The call of `onChange` takes its step |
| Exclusion.ExclusionWatcher.OnChangeEnds | src/charts/mutual-exclusion.ts:92-100 | The outcome of `onChange` takes its step |
| Exclusion.ExclusionWatcher.OnSettled | src/charts/mutual-exclusion.ts:101-109 | The settling handler takes its step, with the doubled retry delay |
| Exclusion.ExclusionWatcher.OnFileRead | src/charts/mutual-exclusion.ts:114-125 | A read of the provider's file takes its step |
| Exclusion.ExclusionWatcher.StopWatching | src/charts/mutual-exclusion.ts:156-164 | The stop takes its step and waits only when first and only for a transition it finds |
| Rescan.EveryRunKeepsItsPromises | src/charts/discovery.ts:290-322 | For any storm: one scan at a time, a scan only when asked for since the last began and with the latest settings, answers only after a scan that began at or after the call |
| Rescan.FollowUpsNeedRequests | src/charts/discovery.ts:286-310 | Between two scans that begin there is a request, so requests during one scan buy one follow-up |
| Rescan.ResolvedMeansScanned | src/charts/discovery.ts:307-311 | Before a caller is resolved a scan began after its latest call |
| Rescan.StormsCollapse | src/charts/discovery.ts:302-311 | Any number of requests during a scan lead to one follow-up with the last settings, which answers everybody |
| Rescan.FailureDropsTheFollowUp | src/charts/discovery.ts:302-318 | In every reachable state with a scan running, requests made during it get a follow-up if and only if it succeeds; otherwise each of them, and each who waited before, is rejected once for each call |
| Rescan.FollowUpIff | src/charts/discovery.ts:306-311 | In every reachable state the end of a scan begins a follow-up if and only if it succeeded and somebody asked since it began |
| Rescan.FollowUpCanBeDropped | src/charts/discovery.ts:312-318 | A run in which a caller asks during a scan and is rejected without one of its own |
| Rescan.EveryRequestIsAnsweredOnce | src/charts/discovery.ts:290-322 | In every state each caller is owed exactly as many answers as it has places in the queue, and none with no scan running |
| Rescan.ScanQueue.RescanCharts | src/charts/discovery.ts:290-322 | A request takes its step |
| Rescan.ScanQueue.ScanFinished | src/charts/discovery.ts:306-318 | The runner's next turn takes its step |
| EntityTags.PrintedListParses | src/http/pmtiles-routes.ts:52-75 | Any non-empty list of valid tags, printed with commas and optional spaces and tabs, parses back to its texts |
| EntityTags.ParsedListIsPrinted | src/http/pmtiles-routes.ts:52-75 | Any accepted text is such a print |
| EntityTags.ParserInvertsPrinting | src/http/pmtiles-routes.ts:52-75 | Both at once: a text parses to given texts if and only if it prints a list with those texts |
| EntityTags.ElementsParse | src/http/pmtiles-routes.ts:52-75 | A list of tags and empty elements parses to the texts of its tags when it has no empty element, and is rejected otherwise |
| EntityTags.EmptyElementsAreRejected | src/http/pmtiles-routes.ts:58-59 | The requirement to ignore empty elements (section 5.6.1 of RFC 9110) is met if and only if there is none |
| EntityTags.EmptyElementHidesTheTags | src/http/pmtiles-routes.ts:52-84 | One field with an empty element that matches neither of the tags it lists |
| EntityTags.TextHasWeakTag | src/http/pmtiles-routes.ts:47-50 | The comparison key of a tag is its quoted part, weak or not, when its characters are those of section 8.8.3 of RFC 9110 |
| EntityTags.TagCharactersAre | src/http/pmtiles-routes.ts:47-65 | The characters between the quotes are those of section 8.8.3 of RFC 9110: visible ASCII but the quote, and everything from 0x80 on |
| EntityTags.WeakTagIsTheTag | src/http/pmtiles-routes.ts:47-50 | Any text at all has a comparison key exactly when it is one well-formed tag with white space around it, and then the key is its opaque part |
| EntityTags.MatchesIsWeakComparison | src/http/pmtiles-routes.ts:77-84 | For any field, absent or not, and any current tag, well formed or not: the condition holds if and only if the field is `*` or lists a tag with the current opaque tag (sections 8.8.3.2 and 13.1.2) |
| EntityTags.SkipFrom | src/http/pmtiles-routes.ts:56 | The white-space loop skips exactly the spaces and tabs |
| EntityTags.ScanTag | src/http/pmtiles-routes.ts:61-65 | The inner loop stops where the run of tag characters stops, and rejects unless that is a quote or the end |
| EntityTags.ReadQuoted | src/http/pmtiles-routes.ts:59-67 | The loop between the quotes ends at the closing quote or rejects |
| EntityTags.ReadList | src/http/pmtiles-routes.ts:52-75 | The loop over the elements returns the texts of the parsed list |
| EntityTags.EntityTagList | src/http/pmtiles-routes.ts:52-75 | The parser terminates and accepts exactly the printed lists, with their texts |

## Left out

- SQLite itself, its pragmas, write-ahead log, vacuum, page reclaim and schema migration: an engine the model
  stands on. A read that fails after a committed write, which would leave a running value behind the tables, is
  engine failure too.
- Point reads, learned style records, per-source statistics and the removal of the legacy directory: no state of
  theirs takes part in the accounting.
- TileCache.TileCache.PromoteStagedRegions: a write failure counts as happening before the limits are checked.
- Growth and byte totals near the ends of the 64-bit range, where the code would saturate or overflow.
- TileRanges.DisjointRanges: needs each range's low `y` at most its high `y`, which `tile_rect` guarantees; the branch that
  skips an empty slab is dead after the boundaries are deduplicated.
- Floating point: longitudes and latitudes are reals, the Mercator function is any monotone function, and the
  test for non-finite edges has nothing to reject.
- SingleFlight.RunKeepsInv: treats each map operation as atomic; a lease dropped while another operation prunes is
  the same drop just before or just after. The order in which waiters get the guard is not modelled.
- Fills.NoFetchWhileFresh: takes the clock not to run backwards while a fill holds its lock, and a retried fetch as
  one. A write that outlives its cancelled flight is one of the other writers' steps. What a fill answers its caller
  with, stale rows included, is not modelled.
- HTTP plumbing, proxying, address checks, tokens, the panel, region reconciliation and plugin lifecycle.
- Discovery's scans, file watching and polling around the rescan queue: the scan is an opaque awaited call.
- Stops of the health monitor between checks: they act like a stop during the first probe of the next.

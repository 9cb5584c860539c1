# Maglev verification model

Maglev is a transit API server. It imports a static GTFS feed into SQLite, polls GTFS-Realtime
feeds, and answers queries from both. This project models the parts of it that carry state,
concurrency or delicate case analysis, and proves what those parts are for. `dafny verify
dfyconfig.toml` checks all of it.

One module a file:

- `Collections`: sequences, grouping, sorting, string order.
- `WorkerPipeline`: the feeder, worker pool, bounded channels and collector shared by the bulk inserts
  and the direction precomputation, as a transition system over all interleavings and cancellations.
  `BulkInsert` and `DirectionPrecompute` put their batches, sorts and transactions on top of it.
- `DirectionCache`: direction lookups through singleflight against a generation-tagged cache, racing
  with static reloads, as a transition system.
- `RealtimeTypes`, `RealtimeFeeds`, `FeedManager`, `FeedRuns`, `MergedSnapshot`, `FeedPoller`: the
  realtime feed state machine. `RealtimeFeeds` defines each step on values, `FeedManager` carries it
  out on the fields of a class whose invariant is that the published snapshot is the merge of the
  maps, `FeedRuns` proves what every run keeps, and `FeedPoller` adds the polling loop and its circuit
  breaker.
- `GtfsFeed`, `StaticImport`, `BlockIndex`, `BlockTables`, `ImportedRows`: the import transaction, its
  constraints, the tables it derives, runs of imports that may fail anywhere, when the block tables
  agree with the base tables beside them, and what is stored told in the feed's own records.
- `ServiceCalendar`: which services run on a date, in Go and in SQL.
- `ArrivalWindow`: the stop times in a request's window, for one stop and for many.
- `PredictedTimes`, `VisitMatching`: predictions and visits of one trip.
- `ParentStations`: the closure of parent stations over possibly cyclic data.
- `RealtimeMetrics`, `BlockEntry`: aggregation per agency, and regrouping of a block.

Conventions. Times, offsets and dates are integers; a date is a day number. Distances are reals.
Tables are maps by primary key and a transaction is a copy that replaces the committed tables or is
dropped. Go's map iteration is an arbitrary choice (`:|`), so results are shown not to depend on it.
Whatever the environment decides (fetched data, clock readings, failing queries, cancellation) is a
parameter. A library sort is modelled by its contract: an ordered permutation, which keeps ties in
their order only where the source asks for a stable sort. What an operation leaves is a function of its
input, and lemmas beside it say what that means in the fields of the input.

Some properties hold only under a condition; each has its exact condition and a concrete run or input
that shows the failure. The direction cache is coherent in all runs exactly when no table count after a
commit fails and no answer is stored that a failed shape read made partial, in both cases since the last
clear. The import fails when a separator in a service ID makes two block-trip groups collide, and when a
stored stop's parent station has no coordinates. The layovers and block entries follow the stored trips
for all feeds exactly when repeated trip IDs and stop times out of sequence are ruled out. A trip never
makes layover windows overlap, whatever well-timed trips share its block, exactly when it does not leave
its first stop after its last. The single-stop and batched arrival passes agree on a stop exactly when
its due rows have an agency in the stop's zone. A yes of the future-service query means service for all
tables exactly when, among the calendar rows that count, overlaps shorter than a week and removed dates
are ruled out.

## Model

| member | source | states |
|---|---|---|
| WorkerPipeline.ConservedKept | gtfsdb/helpers.go:804-892 | every step of any schedule keeps each handed-out item in exactly one place: a channel, a worker, the collection or the discards |
| WorkerPipeline.NeverStuck | gtfsdb/helpers.go:804-892 | in every reachable state some goroutine can move until collector and feeder have stopped, cancelled or not |
| WorkerPipeline.ProgressCondition | internal/gtfs/direction_precomputer.go:96-145 | the arrangement is deadlock free under cancellation if and only if the feeder watches the context or cancelled workers drain the channel |
| WorkerPipeline.StuckWithoutEither | internal/gtfs/direction_precomputer.go:105-124 | a concrete schedule that deadlocks when neither holds |
| WorkerPipeline.EveryRunFinishes | gtfsdb/helpers.go:804-892 | no run is longer than a bound in the items and workers, and one that cannot be extended has finished |
| WorkerPipeline.CollectedExactlyOnce | gtfsdb/helpers.go:804-897 | a finished run whose context is still live has collected every index exactly once, all really computed |
| WorkerPipeline.NeverCollectedTwice | gtfsdb/helpers.go:804-892 | even a cancelled run never delivers an index twice, nor one outside the input |
| BulkInsert.SafeBatchSize | gtfsdb/config.go:37-48 | the largest batch whose bound parameters stay within 32766 |
| BulkInsert.BatchesFitOneStatement | gtfsdb/helpers.go:793-864 | every statement binds at least one row and at most 32766 parameters |
| BulkInsert.AllBatchesCoverRows | gtfsdb/helpers.go:802-829 | the batches, in index order, concatenate to exactly the input rows |
| BulkInsert.PreparedIsAllBatches | gtfsdb/helpers.go:823-892 | whatever order the batches arrive in, they are the batches of the input, each once |
| BulkInsert.SortedBatchesAreTheRows | gtfsdb/helpers.go:787-941 | end to end, for every schedule with a live context after collection: any sort by index yields exactly the input rows in order |
| BulkInsert.SortBatches | gtfsdb/helpers.go:899-902 | in-place sort: ordered by index and a permutation of what was there |
| BulkInsert.TransactionTable.Execute | gtfsdb/helpers.go:911-933 | runs the batches in order; on failure exactly the batches before it have been written |
| BulkInsert.TransactionTable.InsertPrepared | gtfsdb/helpers.go:899-933 | from batches in any arrival order the table gains exactly the input rows; on failure a prefix, for the caller to roll back |
| DirectionPrecompute.OneResultPerStop | internal/gtfs/direction_precomputer.go:86-166 | no run deadlocks, and an uncancelled finished run has exactly one result per stop with its computed direction |
| DirectionPrecompute.StopsTable.WriteBatches | internal/gtfs/direction_precomputer.go:168-236 | 500-row transactions: every result is written once and counted once, as skipped without a direction, as an error when its update fails and as successful otherwise; a failing batch leaves no trace and earlier batches stay |
| DirectionPrecompute.WrittenAt | internal/gtfs/direction_precomputer.go:190-207 | which value the column holds for a stop after writing distinct results, with rejected and empty ones |
| DirectionPrecompute.ColumnHoldsComputedDirections | internal/gtfs/direction_precomputer.go:162-236 | after a completed precomputation each stop has its computed direction, or keeps its old value when none can be computed |
| DirectionCache.StopDistancesCanLocateStops | internal/gtfs/advanced_direction_calculator.go:102-124 | the scan answers yes exactly when at least two distances are supplied, none is negative and they strictly increase |
| DirectionCache.DirectionOfStop | internal/gtfs/advanced_direction_calculator.go:244-316 | a stop's direction combines its trips' bearings in order: each trip with a shape of two points or more contributes the bearing at its own distance exactly when that is not negative and the trip's distances can locate stops, and by geography otherwise |
| DirectionCache.StoredAtMostOnce | internal/gtfs/advanced_direction_calculator.go:162-186 | for every interleaving, failures included, no stop is stored twice in one generation, and the cached stops are those stored |
| DirectionCache.NoWaiterIsLost | internal/gtfs/advanced_direction_calculator.go:166-189 | over all runs, reloads and failures included, a lookup that joined a flight still has its leader, of the same generation and stop, and the leader can take a step that is no failure |
| DirectionCache.FlightEnds | internal/gtfs/advanced_direction_calculator.go:244-300 | each own step leaves a flight less to do, until it settles and answers everybody who waits for it |
| DirectionCache.CurrentCacheIsCoherent | internal/gtfs/advanced_direction_calculator.go:149-189 | for every interleaving of lookups, failing reads and reloads, as long as since the last clear no table count has failed and no partial answer has been stored: outside the gap between commit and clear, each entry of the current generation, and each answer from it, is the value computed wholly from the committed database |
| DirectionCache.CoherenceCondition | internal/gtfs/advanced_direction_calculator.go:149-300 | all runs are coherent if and only if both failures, the failing table count and the stored partial answer, are ruled out |
| DirectionCache.StaleAfterFailedCount | gtfsdb/helpers.go:550-561 | a run in which a failing table count after the commit skips the clear and leaves a stale direction in the current generation |
| DirectionCache.PartialAnswerIsCached | internal/gtfs/advanced_direction_calculator.go:244-300 | a run in which a failing read of one of two shapes of a stop stores the direction of the other shape alone, while the database defines another |
| RealtimeFeeds.KeyRecordsItsSource | internal/gtfs/realtime.go:191-202 | two vehicles share a key exactly when they agree on the first identity field either of them has; an ID never equals a label or plate |
| RealtimeFeeds.FailedUpdateChangesNothing | internal/gtfs/realtime.go:419-435 | an update fails exactly when its context expired, the agency lookup failed or nothing was fetched, and then leaves every map unchanged; one that succeeds notes the time |
| RealtimeFeeds.AppliedKeys | internal/gtfs/realtime.go:492-561 | the keys after an applied update: those reported, in order, then those stored, unreported and unexpired |
| RealtimeFeeds.UpdateRetention | internal/gtfs/realtime.go:520-561 | an applied update keeps exactly the reported keys and those unseen for at most 15 minutes, with their last-seen times |
| RealtimeFeeds.CleanupRetention | internal/gtfs/realtime.go:207-236 | a skipped update keeps exactly the keys unseen for at most 15 minutes |
| RealtimeFeeds.DuplicatesComeFromTheFeed | internal/gtfs/realtime.go:492-561 | with no key stored twice, an update stores one twice if and only if the feed reported one twice |
| RealtimeFeeds.LiveVehicleWinsItsTrip | internal/gtfs/realtime.go:544-561 | the stored list is the live vehicles then the retained ones, and no retained vehicle serves a trip that a live one serves |
| RealtimeFeeds.TimestampsNeverGoBack | internal/gtfs/realtime.go:148-156 | a vehicle timestamp never decreases across an update when both are set |
| RealtimeFeeds.FreshReportIsStored | internal/gtfs/realtime.go:499-519 | a report is stored when no stored vehicle of its key has a newer timestamp |
| RealtimeFeeds.NewerVehicleStays | internal/gtfs/realtime.go:499-519 | a strictly newer stored vehicle stays, and nothing else of its key is stored when every report of it is older |
| RealtimeFeeds.ReportDecidesItsPlace | internal/gtfs/realtime.go:499-519 | each report decides the vehicle at its own place: the stored vehicle that keeps it out, or itself |
| RealtimeFeeds.RetainedVehicles | internal/gtfs/realtime.go:539-561 | behind the reported vehicles stand exactly the unreported ones seen within 15 minutes, unchanged but for a trip that a reported vehicle is on |
| RealtimeFeeds.CleanupKeepsVehicles | internal/gtfs/realtime.go:207-236 | the cleanup keeps, unchanged and in order, the vehicles seen within 15 minutes |
| RealtimeFeeds.FilterKeeps | internal/gtfs/realtime.go:426-463 | which trips, vehicles and alerts an agency filter lets through, by the agency of the trip, of the route, or of an informed entity; trips of no known agency are set aside |
| RealtimeFeeds.NoFilterKeepsAll | internal/gtfs/realtime.go:426-463 | without an agency filter everything fetched is kept, in order, and nothing is set aside |
| FeedRuns.ClearForgetsFeed | internal/gtfs/gtfs_manager.go:87-103 | a clear forgets everything of its feed, so that its next update applies, and leaves every other feed as it was |
| FeedRuns.VehiclesAfterStep | internal/gtfs/realtime.go:464-567 | what any event does to any feed: only an update or clear of that feed touches its vehicles |
| FeedRuns.FeedTimestampsNeverGoBack | internal/gtfs/realtime.go:470-488 | over any run without a clear of the feed its applied timestamp never decreases |
| FeedRuns.OldHeaderStoresNothing | internal/gtfs/realtime.go:470-488 | a header time not after the stored one brings no report in and leaves the stored time |
| FeedRuns.NewHeaderStoresReports | internal/gtfs/realtime.go:470-519 | a missing or later header time lets every report in that has nothing newer stored, and the stored time moves to it |
| FeedRuns.LastSeenMatchesStored | internal/gtfs/realtime.go:520-561 | in every reachable state the last-seen keys of a feed are exactly the keys of its stored vehicles |
| FeedRuns.NoKeyStoredTwice | internal/gtfs/realtime.go:492-561 | over any run in which the feed reports distinct keys no key is stored twice |
| FeedRuns.RetentionWindow | internal/gtfs/realtime.go:464-567 | after any successful vehicle fetch nothing stored has been unseen for more than 15 minutes and nothing seen within 15 minutes was dropped |
| FeedRuns.OnlyExpiryDropsVehicles | internal/gtfs/realtime.go:531-537 | over any run without a clear a vehicle leaves only by expiry |
| FeedRuns.ReachableTimestampsNeverGoBack | internal/gtfs/realtime.go:148-156 | in every reachable step with distinct reports a vehicle timestamp never goes back |
| FeedRuns.TripLookupFindsLiveVehicle | internal/gtfs/realtime.go:901-904 | after an applied update, looking up the trip of a report that has nothing newer stored finds a vehicle on that trip whose key the update reported, unless a later feed has a vehicle on it |
| FeedManager.ApplyVehicleUpdate | internal/gtfs/realtime.go:490-561 | the loops of an applied update, in any map order, compute the specified vehicle state: every report with nothing newer stored is stored, and a stored vehicle newer than a report of its key stays |
| FeedManager.CleanupExpiredVehicles | internal/gtfs/realtime.go:207-236 | the cleanup loops compute the specified vehicle state |
| FeedManager.Manager.constructor | internal/gtfs/gtfs_manager.go:117-200 | a new manager publishes the merge of empty maps |
| FeedManager.Manager.StoreVehicles | internal/gtfs/realtime.go:464-567 | the freshness guard, then the update or the cleanup, on the manager fields |
| FeedManager.Manager.UpdateFeedRealtime | internal/gtfs/realtime.go:369-657 | the whole new state as a function of the old one, the published snapshot again the merge of the maps, and the result says whether a sub-feed delivered |
| FeedManager.Manager.ClearFeedData | internal/gtfs/gtfs_manager.go:87-103 | drops everything of the feed and nothing else, and republishes |
| FeedPoller.Poller.PollOnce | internal/gtfs/realtime.go:1034-1098 | one poll on the manager: memory and maps move by exactly the specified events |
| FeedPoller.ClearedOncePerOutage | internal/gtfs/realtime.go:1062-1074 | over any run, an outage is cleared once if some poll in it failed more than 5 minutes after the last success, and never otherwise |
| FeedPoller.ClearedFeedStaysEmpty | internal/gtfs/realtime.go:1034-1098 | while the breaker is open the feed has no trips, vehicles or alerts, whatever other feeds do |
| FeedPoller.StaleFeedIsGone | internal/gtfs/realtime.go:1034-1098 | after each late failed poll the published snapshot equals the one without the feed, and the outage cleared it exactly once |
| FeedPoller.ShortOutageKeepsData | internal/gtfs/realtime.go:1034-1098 | until then, failed polls keep the last delivered data |
| MergedSnapshot.MergeFeeds | internal/gtfs/realtime.go:857-887 | the merge in sorted feed order, whatever order the map is visited in |
| Collections.StrLessAtFirstDifference | internal/gtfs/realtime.go:857-887 | that order of IDs is the one of the first differing character, a proper prefix first |
| MergedSnapshot.RebuildMerged | internal/gtfs/realtime.go:857-981 | the published snapshot is a function of the per-feed maps alone |
| MergedSnapshot.SnapshotLookups | internal/gtfs/realtime.go:889-910 | each lookup gives the position of the last trip update with that trip ID, vehicle on that trip or vehicle of that ID, and knows an ID exactly when there is one; empty IDs are not looked up |
| MergedSnapshot.SnapshotRouteGroups | internal/gtfs/realtime.go:901-927 | a route's vehicles are, in order, those on a trip of it; its duplicated ones those on a DUPLICATED trip of it, by their own route or else that of the last update of their trip |
| MergedSnapshot.GetAlertsByIDs | internal/gtfs/realtime.go:251-277 | the query concatenates three buckets and drops repeated IDs |
| MergedSnapshot.AlertQueryIsScan | internal/gtfs/realtime.go:251-277 | the indexed query returns each alert ID once, and exactly those of the alerts with an entity for the trip, for the route without stop and trip, or for the agency without route and trip |
| MergedSnapshot.AlertQueryReturnsAlerts | internal/gtfs/realtime.go:251-277 | what the query returns are alerts that apply, as they were stored |
| MergedSnapshot.GetAlertsForStop | internal/gtfs/realtime.go:313-327 | the stop query reads one bucket and drops repeated IDs |
| MergedSnapshot.DedupeGrowsAtEnd | internal/gtfs/realtime.go:251-277 | of the alerts with one ID the first is kept, in order |
| MergedSnapshot.StopQueryIsScan | internal/gtfs/realtime.go:313-327 | the stop query: each ID once, exactly those of the alerts with an entity at the stop |
| MergedSnapshot.EmptyFeedContributesNothing | internal/gtfs/realtime.go:857-981 | a feed without trips, vehicles and alerts leaves no trace in the snapshot |
| MergedSnapshot.MergedAround | internal/gtfs/realtime.go:857-887 | a feed sits between the earlier and the later feeds, in ID order |
| StaticImport.Client.InsertBaseTables | gtfsdb/helpers.go:266-432 | fills the base tables, and succeeds if and only if every row meets the constraints and no stop time repeats its key |
| StaticImport.Client.InsertDerivedTables | gtfsdb/helpers.go:475-548 | exceptions from the date lists of the services, type 2 for a removed date and type 1 for one only added; bounds, stop agencies and expiry from the base tables; block indexes and layovers from the trip list of the feed; and exactly when it fails |
| StaticImport.Client.StoreGtfsData | gtfsdb/helpers.go:205-564 | the exact outcome of one import under any set of faults: unchanged, wholly the new feed, or an error |
| StaticImport.CommittedIsWhole | gtfsdb/helpers.go:205-564 | over any run of imports failing anywhere the committed database is empty or entirely derived from one feed, its hash and source included |
| StaticImport.ResultMeansWhatItSays | gtfsdb/helpers.go:205-564 | in any run "unchanged" leaves the tables, already derived from a feed of that hash and source; "imported" means derived from this feed; an error leaves them wholly old or wholly new |
| StaticImport.ReimportIsNoOp | gtfsdb/helpers.go:219-233 | importing the stored feed again changes nothing |
| StaticImport.ReachableReferencesResolve | gtfsdb/schema.sql:21-430 | in every reachable database routes, trips, stop times, exceptions, parents, block entries and layovers name rows that exist |
| StaticImport.TripBoundsMatch | gtfsdb/query.sql.go:54-65 | trip bounds are the earliest arrival and latest departure of the stored stop times, NULL exactly when there are none, and in order |
| StaticImport.StopAgenciesMatch | gtfsdb/query.sql.go:37-52 | a stop has an agency exactly when a stored trip of one of its routes calls there |
| StaticImport.EveryServiceHasCalendarRow | gtfsdb/helpers.go:362-380 | also a service defined by exceptions alone has a calendar row |
| StaticImport.ExpiryMatches | gtfsdb/helpers.go:583-616 | the expiry is the last second of the last end date or added date, absent exactly when there is none |
| StaticImport.ImportNeedsStoredParents | gtfsdb/helpers.go:311-354 | an undisturbed import of a feed whose rows pass every check succeeds if and only if each stored stop with a parent names a stop with coordinates; otherwise it changes nothing |
| StaticImport.ParentWithoutCoordinatesFailsImport | gtfsdb/helpers.go:311-354 | a valid small feed that passes every row check and whose import fails, because a parent station without coordinates was skipped |
| ImportedRows.AgencyStored | gtfsdb/helpers.go:266-282 | an agency is stored as the feed last gives it |
| ImportedRows.StopStored | gtfsdb/helpers.go:311-354 | a stop is stored as the feed last gives it with coordinates |
| ImportedRows.RouteStored | gtfsdb/helpers.go:284-309 | a route is stored with its own agency, or the only one of the feed when it names none |
| ImportedRows.ServiceStored | gtfsdb/helpers.go:362-380 | the calendar row of a service has its weekdays and range |
| ImportedRows.TripStored | gtfsdb/helpers.go:385-409 | the row of a trip has its route, service and block |
| ImportedRows.StopTimeStored | gtfsdb/helpers.go:411-432 | the stored stop times are exactly those of the feed, each under its trip and sequence with its stop and times |
| ImportedRows.ExceptionStored | gtfsdb/helpers.go:489-519 | a removed date is stored with type 2, a date only added with type 1, and no other date of the service |
| ImportedRows.ServiceRunsAsTheFeedSays | gtfsdb/helpers.go:489-519 | after an import the reference and both queries run a service exactly on the dates the feed adds, and within its range on its weekdays, except the dates it removes |
| ImportedRows.ExpiryAsTheFeedSays | gtfsdb/helpers.go:583-616 | the expiry is 23:59:59 of the last end date, or date added and not removed, in the feed |
| ImportedRows.ImportSucceedsWhenFeedPasses | gtfsdb/helpers.go:205-564 | an undisturbed import of a new feed succeeds if and only if the references, ranges and times of its records are good, no call repeats its sequence number, no two block groups join to one key and every stored parent is stored; else nothing changes |
| BlockIndex.BuildBlockTripIndex | gtfsdb/helpers.go:1242-1346 | the build succeeds if and only if no two groups have the same joined key, and the tables do not depend on map order |
| BlockIndex.OneEntryPerTrip | gtfsdb/helpers.go:1256-1333 | each trip with stop times has exactly one entry, and no other trip has one |
| BlockIndex.SequencesAreContiguous | gtfsdb/helpers.go:1308-1330 | the sequence numbers of a group of n trips are exactly 0 to n-1, each once |
| BlockIndex.EarlierHasLowerRank | gtfsdb/helpers.go:1308-1315 | the numbers follow block ID and then trip ID |
| BlockIndex.EntriesAreTheTrips | gtfsdb/helpers.go:1317-1330 | each entry carries the block and service of its trip, under the joined key of the service and first stop, and each indexed trip has one |
| BlockIndex.EntryOrder | gtfsdb/helpers.go:1308-1330 | within a group a number is lower exactly when the block ID is less, or the trip ID in the same block |
| BlockIndex.EntryNumbersFill | gtfsdb/helpers.go:1308-1330 | below each number of a group stands every smaller one |
| BlockIndex.CollisionInTrips | gtfsdb/helpers.go:1286-1297 | keys collide exactly when two indexed trips of different service or first stop join to one key |
| BlockIndex.IndexRowsAreTheGroups | gtfsdb/helpers.go:1286-1306 | the index rows are the services and first stops of the indexed trips, each under its joined key |
| BlockIndex.PlainServiceIDsNeverCollide | gtfsdb/helpers.go:1295-1297 | without the separator in service IDs no two groups collide |
| BlockIndex.SeparatorInServiceIDCollides | gtfsdb/helpers.go:1295-1297 | two trips whose groups collide because an ID contains the separator |
| BlockIndex.BuildBlockLayoverIndex | gtfsdb/helpers.go:1352-1436 | whatever the map order and however ties are sorted, the rows of each block and service are the layovers of one of its schedules |
| BlockIndex.LayoverForEachMeeting | gtfsdb/helpers.go:1386-1428 | a layover is recorded exactly for a trip that starts at the stop where the one before it ends, not before that trip leaves, from the last departure of the one to the first arrival of the other |
| BlockIndex.ScheduleMeans | gtfsdb/helpers.go:1352-1384 | a schedule holds exactly the trips of its block and service that have stop times, in order of first departure |
| BlockIndex.LayoversAreDisjoint | gtfsdb/helpers.go:1378-1428 | along a schedule of well-timed trips the windows are well formed and disjoint in order, across skipped pairs too |
| BlockIndex.TableWindowsAreDisjoint | gtfsdb/helpers.go:1352-1436 | so in the finished table no two windows of a block of well-timed trips overlap |
| BlockIndex.WellTimedIsExact | gtfsdb/helpers.go:1352-1436 | a trip that arrives at its first stop before leaving it is harmless in every table of otherwise well-timed trips if and only if it does not leave its first stop after its last |
| BlockIndex.BackwardTripOverlaps | gtfsdb/helpers.go:1352-1436 | a feed with a backward trip for which every table that can be built has two overlapping windows |
| BlockTables.BlockTablesFollowBaseTables | gtfsdb/helpers.go:1242-1436 | in a database derived from a feed with distinct trip IDs and stop times in sequence, the block index, its entries and the layovers are those that the stored trips and stop times define |
| BlockTables.LayoversAreStoredMeetings | gtfsdb/helpers.go:1386-1428 | the layover rows of a block are then exactly the windows between consecutive stored trips, with the last departure and first arrival read from the stored stop times |
| BlockTables.BlockTablesCondition | gtfsdb/helpers.go:1242-1436 | the block tables follow the base tables for all feeds if and only if repeated trip IDs and stop times out of sequence are both ruled out |
| BlockTables.RepeatedIDMisleads | gtfsdb/helpers.go:1242-1436 | a feed that uses a trip ID in two blocks: the layover of the first names a trip that is stored in the second |
| BlockTables.WrongSequenceMisleads | gtfsdb/helpers.go:1378-1428 | a feed with stop times out of sequence: the layover ends at a stop where the stored trip does not start |
| BlockTables.CommittedWindowsAreDisjoint | gtfsdb/helpers.go:1352-1436 | in a committed database the windows of a block are disjoint as soon as no trip of it leaves its first stop after its last |
| ParentStations.FormUndoesExtract | internal/utils/api.go:92-115 | forming undoes extracting on every combined ID that parses |
| ParentStations.ExtractUndoesForm | internal/utils/api.go:92-115 | extracting undoes forming if and only if both parts are non-empty and the agency ID holds no underscore |
| ParentStations.DedupeStrings | internal/restapi/reference_utils.go:648-658 | keeps the first occurrence of each value, in order |
| ParentStations.UniqueKeepsValues | internal/restapi/reference_utils.go:648-658 | the result has no repetition and the same values |
| ParentStations.UniqueGrowsAtEnd | internal/restapi/reference_utils.go:648-658 | more values only add at the end, so values stand in the order of their first occurrence |
| ParentStations.StopModelsByIDs | internal/restapi/reference_utils.go:540-573 | the records of the requested stops that exist, once each, in request order, each with its combined ID and the combined ID of the parent the table gives it, empty when it gives none |
| ParentStations.ParentIDsByAgency | internal/restapi/reference_utils.go:610-629 | marks every parent seen and groups exactly the new parseable ones |
| ParentStations.FetchParentStops | internal/restapi/reference_utils.go:631-645 | returns a record for exactly the new parents that resolve |
| ParentStations.MissingParentStops | internal/restapi/reference_utils.go:579-598 | terminates on any parent graph; the records added are new, distinct, stored, named by an earlier record and carry the parent the table gives them; afterwards every parent, those in the table of the added stops included, is listed, unparseable or not stored |
| ParentStations.ClosureIsUnique | internal/restapi/reference_utils.go:579-598 | any two justified and closed results hold the same stops |
| ArrivalWindow.DiscoverStopAgencies | internal/restapi/arrivals_core.go:229-283 | the zone of every serving agency, the primary one always included, agencies without a row dropped, and exactly when it fails |
| ArrivalWindow.DiscoveryFailsWhen | internal/restapi/arrivals_core.go:229-283 | discovery fails exactly when the route query does, or a stop time at the stop is on a route of another agency that cannot be read or whose timezone cannot be loaded |
| ArrivalWindow.GroupAgenciesByTimezone | internal/restapi/arrivals_core.go:287-299 | the groups partition the agencies by zone, and the keys are in order |
| ArrivalWindow.StopTimesForGroupServiceDay | internal/restapi/arrivals_core.go:334-398 | one service day of a group: fails, is empty, or is the ordered filter of the window rows |
| ArrivalWindow.CollectGroupWindow | internal/restapi/arrivals_core.go:306-327 | today is required and the days around it are best effort; a context cancelled before any of the days fails the group |
| ArrivalWindow.ActiveStopTimesForWindow | internal/restapi/arrivals_core.go:178-214 | the whole request: fails exactly when specified, and returns the collected rows in arrival order, ties as collected |
| ArrivalWindow.ArrivalOrderMeans | internal/restapi/arrivals_core.go:198-214 | the rows come by the instant they are scheduled to arrive, then by trip ID, then by stop sequence |
| Collections.StableSortIsUnique | internal/restapi/arrivals_core.go:198-214 | so the returned list is determined: a stable sort has one possible result |
| ArrivalWindow.CollectedExactlyOnce | internal/restapi/arrivals_core.go:178-398 | whatever fails, exactly when the request does; otherwise each stop time is collected once for every service day on which its service is active, its scheduled arrival or departure lies between the two instants of the window in the zone of its own agency, and the queries of the day succeed, and never otherwise |
| ArrivalWindow.GroupStopsByAgency | internal/restapi/arrivals_core.go:500-519 | each stop is in the one group of its agency |
| ArrivalWindow.ActiveServicesForDate | internal/restapi/arrivals_core.go:599-621 | the memo never disagrees with the database, and only a current-day failure is fatal |
| ArrivalWindow.BatchedStopTimesForDay | internal/restapi/arrivals_core.go:538-592 | one day of one group, with its failure cases and cancellation |
| ArrivalWindow.LoadBatchedStopTimes | internal/restapi/arrivals_core.go:524-534 | without errors the rows of all groups; with errors a part of them, or a failure for some current day or a cancelled context; a result only if no group was cancelled |
| ArrivalWindow.BatchedExactlyOnce | internal/restapi/arrivals_core.go:500-592 | the batched pass collects each stop time once for every day on which its service is active and its scheduled arrival or departure lies between the two instants of the window in the zone of the agency of its stop |
| ArrivalWindow.BatchedEqualsSingle | internal/restapi/arrivals_core.go:439-592 | when all serving agencies exist and share a zone both passes select the same rows for a stop |
| ArrivalWindow.PassesAgreeExactly | internal/restapi/arrivals_core.go:439-592 | in general they agree on all stop times and days of a stop if and only if every row of it that is due, in the zone of its own agency or of the stop, has an agency in the zone of the stop |
| ArrivalWindow.PassesCanDiffer | internal/restapi/arrivals_core.go:439-592 | a stop and a route of agencies in different zones: the single-stop pass collects a row in one zone that the batched pass does not |
| PredictedTimes.ScanUpdates | internal/restapi/arrival_and_departure_for_stop_handler.go:639-682 | one pass finds the first update naming the visit, the first naming only its stop, and the one with the greatest earlier sequence |
| PredictedTimes.StopOnlyMeans | internal/restapi/arrival_and_departure_for_stop_handler.go:639-682 | an update names only the stop exactly when its sequence is not that of the visit and is missing or contradicted by the schedule |
| PredictedTimes.GetPredictedTimes | internal/restapi/arrival_and_departure_for_stop_handler.go:619-764 | refines the declarative choice: matching update, else the delay of the greatest earlier sequence, else the delay of the trip |
| PredictedTimes.DecisionIsUnique | internal/restapi/arrival_and_departure_for_stop_handler.go:619-764 | the declarative choice leaves no freedom |
| PredictedTimes.NoPredictionIff | internal/restapi/arrival_and_departure_for_stop_handler.go:634-727 | there is no prediction if and only if the trip has no delay and no update names the visit, names its stop without a sequence the schedule confirms elsewhere, or has an earlier sequence |
| PredictedTimes.ExplicitTimeIsExact | internal/restapi/arrival_and_departure_for_stop_handler.go:684-706 | an absolute time in the matching update is returned exactly |
| PredictedTimes.TargetMovesVisit | internal/restapi/arrival_and_departure_for_stop_handler.go:684-764 | a side the matching update speaks of moves to its time or by its delay, a silent side moves with the other, and with both silent the visit moves by what the closest earlier update passes on |
| PredictedTimes.VisitMovesWithTrip | internal/restapi/arrival_and_departure_for_stop_handler.go:708-764 | without a matching update both times move by what the closest earlier update passes on, else by the delay of the trip |
| PredictedTimes.DwellIsKept | internal/restapi/arrival_and_departure_for_stop_handler.go:729-764 | unless the matching update gives both sides, the predicted dwell is the scheduled one |
| VisitMatching.FindClosestStopTime | internal/restapi/arrival_and_departure_for_stop_handler.go:790-811 | the first visit nearest in arrival or departure time |
| VisitMatching.NearestInTime | internal/restapi/arrival_and_departure_for_stop_handler.go:790-811 | however close some visit of the stop comes to the query time the chosen one comes as close, and closer than every visit before it |
| VisitMatching.FindStopTimeByPosition | internal/restapi/arrival_and_departure_for_stop_handler.go:813-854 | the lowest visit nearest to the requested position before clamping |
| VisitMatching.NearestInPosition | internal/restapi/arrival_and_departure_for_stop_handler.go:813-854 | no visit of the stop lies strictly closer to the position on either side, and none before the chosen one as close |
| VisitMatching.FindStopTimeForTripStop | internal/restapi/arrival_and_departure_for_stop_handler.go:766-788 | either way none is found only when the stop never occurs |
| VisitMatching.ClampKeepsNearest | internal/restapi/arrival_and_departure_for_stop_handler.go:823-826 | clamping to the trip does not change which visit is nearest |
| VisitMatching.NearestIsUnique | internal/restapi/arrival_and_departure_for_stop_handler.go:790-854 | the specification determines the visit |
| ServiceCalendar.IsServiceActiveOnDate | internal/gtfs/gtfs_manager.go:770-815 | answers as the GTFS reference does, says yes exactly when the active-services query lists the service, and fails exactly on a service with neither an exception that day nor a calendar row |
| ServiceCalendar.QueriesAgree | gtfsdb/query.sql.go:1082-1118 | the active-services query, the schedule join and the GTFS reference agree on every service and date |
| ServiceCalendar.ImportMakesCheckTotal | gtfsdb/helpers.go:362-380 | after an import the check never fails for a service of the feed |
| ServiceCalendar.NoServiceAfterFeedEnd | gtfsdb/query.sql.go:2143-2150 | no service runs after the feed end date |
| ServiceCalendar.ExpiryCoversService | gtfsdb/helpers.go:583-616 | a stored expiry is never before the end of a day with service |
| ServiceCalendar.FutureServiceIsNeverMissed | gtfsdb/query.sql.go:5494-5541 | a trip running after the reference date and within the horizon makes the query answer yes |
| ServiceCalendar.FutureServiceCondition | gtfsdb/query.sql.go:5494-5541 | a yes means service, for all tables, if and only if, among the calendar rows that count, overlaps shorter than a week and removed dates are both ruled out |
| ServiceCalendar.WrongWeekdaysCount | gtfsdb/query.sql.go:5525-5540 | tables with a short overlap on the wrong weekdays: a yes without a running day |
| ServiceCalendar.RemovedDatesCount | gtfsdb/query.sql.go:5525-5540 | tables with a full week whose only running day is removed: a yes without a running day |
| RealtimeMetrics.RecordsAreBlocks | internal/gtfs/metrics.go:537-558 | two trips share a record exactly when they share a block, or have none and the same ID |
| RealtimeMetrics.MatchedTripIDsByAgency | internal/gtfs/metrics.go:514-535 | each agency lists the first known trip of every active record, once, whatever the map order |
| RealtimeMetrics.MatchedTripMeans | internal/gtfs/metrics.go:514-625 | a trip is matched for an agency exactly when its route is of that agency, it is the first known trip of its record, and some trip of the record is predicted to start within the hour and not to have ended |
| RealtimeMetrics.RecordsCounted | internal/gtfs/metrics.go:537-558 | the records are the distinct blocks of the trips, and the distinct trips without one |
| RealtimeMetrics.MatchedTripsAreDistinct | internal/gtfs/metrics.go:514-535 | over all agencies the matched trips are distinct, known and no more than the records |
| RealtimeMetrics.ClassifyTrips | internal/gtfs/metrics.go:485-512 | unmatched trips and matched and unmatched stops, as sets |
| RealtimeMetrics.ComputeFeedMetrics | internal/gtfs/metrics.go:394-440 | the metrics of one poll, with canonical sorted lists |
| RealtimeMetrics.SortedKeys | internal/gtfs/metrics.go:627-636 | one list per set, whatever the iteration order |
| RealtimeMetrics.MatchedAndUnmatchedAreDisjoint | internal/gtfs/metrics.go:394-440 | matched and unmatched never overlap, and no trip is matched for two agencies |
| RealtimeMetrics.StalerIsTotalOrder | internal/gtfs/metrics.go:673-684 | staleness is totally ordered, longer above shorter, with "never updated" on top |
| RealtimeMetrics.AttributionMeans | internal/gtfs/metrics.go:315-344 | a feed covers the known agencies of its filter, or all; its staleness is the time since its last update, or -1 |
| RealtimeMetrics.Accumulator.AttributeFeedMetrics | internal/gtfs/metrics.go:346-356 | each covered agency gains the feed exactly once, in any order, and no other agency changes |
| RealtimeMetrics.PopulateRealtimeMetrics | internal/gtfs/metrics.go:269-296 | the rows after all feeds, each measured and attributed, or nothing exactly when a lookup fails for a feed with trips |
| RealtimeMetrics.RowsAreUnions | internal/gtfs/metrics.go:298-383 | records are sums, IDs unions and staleness the worst over the covering feeds; an agency has a row exactly when covered |
| RealtimeMetrics.MetricsIgnoreOrder | internal/gtfs/metrics.go:269-535 | two visits of the same feeds, in any order of the feeds and of the records within each, end with the same row for every agency |
| RealtimeMetrics.FinalizeRealtimeMetrics | internal/gtfs/metrics.go:358-368 | sizes and canonical lists for every agency, zeros for an uncovered one |
| BlockEntry.CalculateBlockSlackTimes | internal/restapi/block_handler.go:277-287 | overwrites the stops in place with the running sum of the earlier dwells and changes nothing else |
| BlockEntry.WalkStops | internal/restapi/block_handler.go:120-150 | each stop with the distance along the rows so far |
| BlockEntry.TransformBlockToEntry | internal/restapi/block_handler.go:79-178 | one configuration per service and one trip block per trip, in order, each holding exactly its own rows in sequence order |
| BlockEntry.EveryRowOnce | internal/restapi/block_handler.go:79-178 | every input row appears exactly once |
| BlockEntry.RowSitsWithItsTrip | internal/restapi/block_handler.go:79-178 | and sits under its own service and trip, in sequence order |
| BlockEntry.TripDistancesSum | internal/restapi/block_handler.go:111-166 | the trip distances add up to the cumulative distance of the last stop |
| BlockEntry.DistanceIsTheWay | internal/restapi/block_handler.go:118-166 | each stop lies the way from the stop before it further on; a trip starts where the one before ended and reports its own way |
| BlockEntry.DistanceNeverDecreases | internal/restapi/block_handler.go:118-131 | with non-negative distances the cumulative distance never decreases along a configuration |
| BlockEntry.SlackIsEarlierDwell | internal/restapi/block_handler.go:277-287 | the slack at a stop is the slack and dwell of the stop before it, from zero; the trip reports its last stop |

## Left out

- HTTP handlers, middleware, JSON, logging, configuration and Prometheus: plumbing without an invariant of their own.
- Fetching and parsing of feeds (network, protobuf, zip): a fetch is an arbitrary value or a failure.
- SQLite itself, full-text search and the R-tree: tables are maps and sets. Copied columns with their own CHECKs (colours, coordinates, pickup types) are not modelled; their failure is one of the import's faults.
- Shapes and frequencies in the import: two more base tables filled by the same loops.
- The `direction` column, which the precomputation writes after the import: it is in `DirectionPrecompute`, not among the tables of `StaticImport`.
- `import_time` and the autoincrement IDs: clock and counters; a block-trip entry names its index by its unique key.
- Dates as text: formatted dates of years 1 to 9999 order as day numbers do, and day numbers are used throughout.
- Floating-point geometry (bearings, haversine, NaN and infinities): abstract functions over reals.
- The singleflight per trip inside a direction lookup: two lookups may both read a trip's distances, which allows more interleavings than the program has.
- The shape cache of the precomputation and a stop's supplied GTFS direction: both short-circuit the lookup.
- RealtimeFeeds.TimestampsNeverGoBack: assumes distinct stored keys, which FeedRuns.NoKeyStoredTwice gives for feeds that report distinct keys.
- ImportedRows.ExceptionStored: assumes distinct service IDs, the primary key of the GTFS services file; so do the statements about service days and expiry in the feed's own dates.
- FeedRuns.NewHeaderStoresReports: speaks of header times from 1970 on; an earlier one wraps round when converted to an unsigned number, as RealtimeFeeds models, and so does FeedRuns.OldHeaderStoresNothing.
- Backoff, jitter and consecutive-error counts of the poller: they only choose when the next poll happens.
- Query order among rows with equal arrival times: the rows of the table are taken in the order the query returns them.
- Negative stop times: GTFS times count from the start of the service day, and the rows of `ArrivalWindow` hold naturals.
- What the external feed parser can deliver: whether two trips with one ID both keep their stop times, or stop times arrive out of sequence, is decided outside the repository; the feeds of BlockTables.RepeatedIDMisleads and BlockTables.WrongSequenceMisleads are inputs of the import as values.
- Validation before an import (empty files, trips without stop times): the import is modelled for every feed, so also for those that pass it.
- Building arrivals from the collected stop times (routes, trips, situations, vehicle status): lookups and copies.
- Block-level schedule deviation and stop delays (`internal/restapi/trip_updates_helper.go`), apart from the test that a sequence names a visit.
- RealtimeMetrics.Accumulator.AttributeFeedMetrics: the snapshot's parallel maps per agency are one map of rows; they are always written together.
- Scheduled-trip counts of the metrics and per-agency active blocks: direct queries.

# SwiftChain verification

A Dafny model of the SwiftChain delivery backend: its optimistic protocols over stored
documents, and its calculating cores. `dafny verify dfyconfig.toml` checks the whole project.

Each protocol is a state machine. A collection is a map, every `findOneAndUpdate`, insert or
read is one atomic step, a service call is a thread with a place in its code, and a schedule
is any sequence of steps. The theorems quantify over all schedules. Fields that only record
history (`commits`, `began`, `collided`, `attaches`, `stranded`) change no step's course. Beside each machine
stands a class whose methods have the loops and branches of the source; what other callers
do between two operations is a parameter of the method.

- `DeliveryStatuses`, `EventLog`, `DeliveryLifecycle`, `DeliveryStore`, `DeliveryServices`: the delivery
  state machine, the milestone log with its unique sequence numbers, the two together, and many
  deliveries that share one event collection. Main
  results: `NoMilestoneIsLost`, `QuiescentLogIsPermutation`, `CompareAndSetIsVersioned`,
  `GivingUpNeedsFiveRivals`, and `FiveRivalsSuffice`, which shows that the bound is exact.
- `Assignment`, `AssignmentProtocol`: the expanding search for the nearest driver, run alone
  and run by many callers at once. Main results: `SearchAndClaim`, `DriversAreConserved`,
  `DriverIsNeverReplaced`, `FailedCallsReturnTheirDriver`.
- `DeviceTokens`, `TokenEntries`: who owns a push token, and how often it is listed. Main results:
  `NoTokenHasTwoOwners`, `ContentionNeedsFiveRivals` with `FiveRivalsSuffice`, `EndDoubledExactly`.
- `BulkImport`, `StableSort`: the accounting of the bulk import.
- `Reputation`: points as a walk reflected at zero.
- `DriverRating`, `RatingSweep`, `Rounding`: the rating, who is suspended, and the sweeps.
- `Earnings`: grouping, rounding and summing up.
- `Filters`, `QueryFilter`, `SortOrder`, `Pagination`: the query string and the pages of a list.
- `RequestTracker`, `FeatureFlags`, `PlanTree`, `Text`: request draining, flag lists, the search
  of an explain plan, and the string operations they use.

## Where the code differs from its documentation

The model follows the code.

- `src/services/driverRatingService.ts:97` says that deliveries missing a duration are never
  late; one without an estimate is late as soon as it took any time (`MissingDurations`).
- `src/services/assignmentService.ts:152-165` reports a radius one doubling past the last one
  searched unless the cap was reached (`ReportedRadiusOvershoots`).
- `src/repositories/NotificationPreferenceRepository.ts:87-92` relies on the unique index, which
  does not compare entries of one document: overlapping registrations of one user can list a
  token twice (`OverlapDuplicates`). It happens exactly when a call attaches a token its own user lists
  already (`RunDoublesExactly`, `EndDoubledExactly`), so never without such overlap
  (`OneEntryWithoutOverlap`).
- `src/services/assignmentService.ts:145-146` says that the driver is released so as not to be
  stranded; a failing release is only logged and does strand the driver (`UnheldExactly`,
  `RefusedAssignmentCanStrand`).
- `src/services/delivery.service.ts:99-100` says that nothing follows a completed or cancelled delivery;
  the plain save of an assignment can overwrite such a status (`SaveOverwritesExactly`,
  `CancelledCanBeOverwritten`), while `updateStatus` never does (`TerminalIsAbsorbing`).
- `src/middlewares/queryMiddleware.ts:271-278` promises a merge; conditions under the same key
  can be lost. `FlatteningExactlyFor` says when, given what the conditions mean: a condition lost must be
  weaker than the one that replaced it, unless what is left cannot be met at all. `FlatteningExactly` and
  `FlatFlatteningExactly` say it for every reading of the conditions at once. No filter of the middleware
  suffers (`OptionsFilterFlattens`).
- An empty list has no pages, yet a client that follows nextPage looks at page 1
  (`WalkYieldsList`).
- The plan search stops at an empty index name of the root but passes over one further down
  (`EmptyNameIsSkipped`); `FindReturnsFirst` says exactly when it returns the first name.

## Model

| member | source | states |
|---|---|---|
| DeliveryLifecycle.NoMilestoneIsLost | src/services/delivery.service.ts:126-169 | In every interleaving of `create` and any number of `updateStatus` calls, the event of each committed status change is in the log, or its `append` is still running, or the database failed that very `append` with something else than a duplicate key; because the state machine allows too few commits, no `append` ever runs out of attempts |
| DeliveryLifecycle.QuiescentLogIsPermutation | src/services/delivery.service.ts:443-456 | Once every `append` has returned, the log has no gaps and is, as a multiset, exactly the created event and the transitions taken but for those whose `append` the database failed; if it never failed, all of them |
| DeliveryLifecycle.NobodyGivesUp | src/repositories/DeliveryEventRepository.ts:63-89 | In no reachable state has an `append` of a committed change given up on duplicate keys: at most five appends exist and giving up would need six |
| DeliveryLifecycle.HistoryIsLegalPath | src/services/delivery.service.ts:101-112 | The statuses a delivery has been in form a path of `ALLOWED_TRANSITIONS` from pending, with at most four transitions, and the stored status is the last of them |
| DeliveryLifecycle.CompletedHasProof | src/services/delivery.service.ts:426-430 | A completed delivery always has its proof on record |
| DeliveryLifecycle.CompareAndSetIsVersioned | src/repositories/DeliveryRepository.ts:127-151 | In every reachable state the compare-and-set on the status succeeds exactly if nothing was committed since the call read the status; otherwise only that call changes, to a conflict |
| DeliveryLifecycle.ConflictMeansOvertaken | src/services/delivery.service.ts:434-441 | A call that reports a concurrent change was overtaken by a commit made after its read |
| DeliveryLifecycle.TerminalIsAbsorbing | src/services/delivery.service.ts:110-111 | From completed or cancelled no schedule changes the status or adds a commit, even with calls already past their check |
| DeliveryLifecycle.SameStatusSameVersion | src/services/delivery.service.ts:101-112 | The graph is acyclic: the status equals the one read at a version iff that version is still the newest |
| DeliveryLifecycle.StepKeepsInv | src/services/delivery.service.ts:397-457 | Every step keeps the joint invariant: the history is a legal path, each call is right about what it read, and each commit has exactly one append |
| DeliveryStore.DeliveriesRunAlone | src/repositories/DeliveryEventRepository.ts:49-56 | With the events of all deliveries in one collection, read through the filter on the delivery and inserted under the compound key, each delivery runs as under its own steps alone |
| DeliveryStore.SharedLogsAreGapless | src/models/DeliveryEvent.ts:79-80 | In every run of the shared collection the sequence numbers of each delivery are exactly 1 to n |
| DeliveryStatuses.PathClimbs | src/services/delivery.service.ts:101-112 | Along a legal path of k edges the rank of the status climbs by at least k |
| DeliveryServices.DeliveryDocument.TransitionStatus | src/repositories/DeliveryRepository.ts:137-151 | The conditional update writes the new status iff the id is valid and the stored status is among the expected ones, and otherwise changes nothing |
| DeliveryServices.DeliveryService.EmitMilestone | src/services/delivery.service.ts:126-169 | Appends the milestone amid other inserts; whatever `append` throws is swallowed and the status is not touched |
| DeliveryServices.DeliveryService.Create | src/services/delivery.service.ts:230-266 | A taken tracking number changes nothing; otherwise the delivery is pending and the created event follows in the log |
| DeliveryServices.DeliveryService.UpdateStatus | src/services/delivery.service.ts:397-457 | Succeeds iff the id is valid, the status read has a legal edge to the next one, completion has its proof, and nobody committed in between; states status and log in every outcome, and for each refusal exactly when it is given |
| EventLog.EveryLogIsGapless | src/repositories/DeliveryEventRepository.ts:36-41 | For any number of concurrent appenders the sequence numbers in every reachable log are exactly 1 to n |
| EventLog.OneEventPerReturningCall | src/repositories/DeliveryEventRepository.ts:58-89 | A call has an event in the log iff it returned, then exactly one, its own, at the number it returned |
| EventLog.GivingUpNeedsFiveRivals | src/repositories/DeliveryEventRepository.ts:82-88 | A call that gives up lost to five different inserts, all made after it started, by five different other calls |
| EventLog.FewCallsNeverGiveUp | src/repositories/DeliveryEventRepository.ts:22-23 | If some call gave up there are more than five calls in the system |
| EventLog.FiveRivalsSuffice | src/models/DeliveryEvent.ts:79-80 | The bound is exact: a schedule with five rivals makes a call give up |
| EventLog.StepKeepsInv | src/repositories/DeliveryEventRepository.ts:63-89 | Every step keeps the log gapless, each collision charged to a distinct foreign insert, and each entry owned by one finished call |
| EventLog.WritersAreDistinct | src/repositories/DeliveryEventRepository.ts:69-81 | No two events of a log come from the same call |
| EventLog.LastSeq | src/repositories/DeliveryEventRepository.ts:47-56 | The highest sequence number in use, or 0 in an empty log |
| EventLog.DeliveryEventRepository.GetLastSeq | src/repositories/DeliveryEventRepository.ts:48-56 | Returns the number of events in a gapless log |
| EventLog.DeliveryEventRepository.Append | src/repositories/DeliveryEventRepository.ts:63-89 | Amid arbitrary foreign inserts it stores the event on the first undisturbed attempt, right after everything inserted until then; it throws, adding nothing, exactly when another error comes first or every attempt meets a duplicate key |
| AssignmentProtocol.DriversAreConserved | src/services/assignmentService.ts:71-202 | In every interleaving a driver is unavailable iff exactly one holder has it: a call in flight, a delivery, or a rollback that failed |
| AssignmentProtocol.NoDriverServesTwice | src/services/assignmentService.ts:173-187 | No driver is on two deliveries |
| AssignmentProtocol.DriverIsNeverReplaced | src/services/assignmentService.ts:76-88 | Once a delivery has a driver no schedule gives it another one |
| AssignmentProtocol.LockIsExclusive | src/config/redis.ts:163-181 | At most one call on a delivery is inside its lock |
| AssignmentProtocol.SuccessIsOnRecord | src/services/assignmentService.ts:126-143 | In every reachable state a call that reported success has its driver on the delivery |
| AssignmentProtocol.FailedCallsReturnTheirDriver | src/services/assignmentService.ts:144-149 | With no call holding a driver and no failed rollback write, the unavailable drivers are exactly those on deliveries |
| AssignmentProtocol.FailedRollbackStrands | src/services/assignmentService.ts:190-202 | In every run a driver whose rollback write failed ends unavailable with no call and no delivery holding it |
| AssignmentProtocol.StrandedExactly | src/services/assignmentService.ts:190-202 | In every run the drivers recorded as stranded are exactly those whose rollback write failed |
| AssignmentProtocol.UnheldExactly | src/services/assignmentService.ts:173-202 | In every run a driver is unavailable with no call and no delivery having it iff the rollback write of a call that held it failed |
| AssignmentProtocol.RefusedAssignmentCanStrand | src/services/assignmentService.ts:144-149 | Such runs exist: from every initial state, a search for a delivery the guards refuse strands the driver it finds first, a free driver nobody free is nearer than, if the rollback write fails |
| AssignmentProtocol.SaveOverwritesExactly | src/services/delivery.service.ts:496-562 | The plain save of an assignment overwrites a completed or cancelled status iff the last status others wrote since its check of the delivery was one of these; the status is assigned afterwards in any case |
| AssignmentProtocol.CancelledCanBeOverwritten | src/services/delivery.service.ts:496-562 | Such runs exist: from every initial state, for any delivery that can be assigned now, a cancellation between the guards and the save ends up as assigned |
| AssignmentProtocol.StepKeepsInv | src/services/assignmentService.ts:71-202 | Every step keeps the conservation of drivers and what each call knows under its lock |
| Assignment.RadiusFormula | src/services/assignmentService.ts:111-153 | The i-th radius searched is min(default * 2^i, maximum) |
| Assignment.RadiiGrow | src/services/driverLocationService.ts:362-376 | Every radius searched lies between 1 and the maximum, so it is never rejected, and the radii grow until the cap |
| Assignment.ReportedRadiusOvershoots | src/services/assignmentService.ts:152-165 | The radius reported for a search without a driver, one doubling past the radius of the last step, equals it iff the cap was reached |
| Assignment.NearbyIsNearestFree | src/services/driverLocationService.ts:125-186 | A list as the proximity search returns it is empty iff no free driver is within the radius, and its first entry is a nearest free driver |
| Assignment.DriverLocationService.FindNearbyDrivers | src/services/driverLocationService.ts:125-186 | Rejects bad coordinates, radii and limits in this order, and otherwise returns the nearest drivers that pass the filter, in order of distance, up to the limit |
| Assignment.AssignmentService.ClaimFirstAvailable | src/services/assignmentService.ts:173-187 | Claims the first candidate still available and no other driver, or none if all are taken |
| Assignment.AssignmentService.ReleaseClaim | src/services/assignmentService.ts:190-202 | Makes exactly this driver available again |
| Assignment.AssignmentService.AssignDriver | src/services/delivery.service.ts:483-580 | Refuses for the first guard that fails, changing nothing; otherwise writes driver and status of this delivery only |
| Assignment.AssignmentService.SearchAndClaim | src/services/assignmentService.ts:107-166 | Without interference the doubling search finds nobody iff no free driver is within min(default * 2^steps, maximum), having searched up to that radius; otherwise it assigns a free driver nobody free is nearer than, at the first radius that reaches anybody, in at most steps + 1 searches; a refused assignment changes nothing |
| Assignment.AssignmentService.ExpandAndClaim | src/services/assignmentService.ts:115-154 | The loop searches the radii in turn; without a driver the last one searched is that of the last step, and the variable ends one doubling past it |
| Assignment.AssignmentService.AssignNearestDriver | src/services/assignmentService.ts:71-100 | The first check that fails decides the answer, and it succeeds iff none does: id, delivery, driver, coordinates, somebody within reach, guards; failure changes nothing; success gives the nearest free driver to this delivery and changes nothing else |
| Assignment.AssignmentService.AutoAssignPendingDeliveries | src/services/assignmentService.ts:209-234 | Failures do not stop the sweep: no candidate left without a driver could be given one at the end; the number of successes is the number of drivers that became busy and of candidates that got a driver |
| DeviceTokens.NoTokenHasTwoOwners | src/repositories/NotificationPreferenceRepository.ts:87-92 | In every interleaving of registrations, removals and prunings a token is listed under at most one user |
| DeviceTokens.SuccessMakesOwner | src/repositories/NotificationPreferenceRepository.ts:104-143 | At the step by which a registration succeeds its user lists the token and nobody else does |
| DeviceTokens.ContentionNeedsFiveRivals | src/repositories/NotificationPreferenceRepository.ts:144-157 | A call fails for contention only if five different calls of other users attached the token after it began |
| DeviceTokens.FewRivalsNeverContend | src/repositories/NotificationPreferenceRepository.ts:98-100 | With fewer than five calls of other users for its token a call never fails for contention |
| DeviceTokens.FiveRivalsSuffice | src/repositories/NotificationPreferenceRepository.ts:144-157 | The bound is exact: for any two users and any device there is a run with five calls of the one that makes a call of the other fail for contention |
| TokenEntries.OneEntryWithoutOverlap | src/repositories/NotificationPreferenceRepository.ts:101-117 | If registrations of one user for one token do not overlap, no document lists a token twice, whatever else runs concurrently |
| TokenEntries.StepCounts | src/repositories/NotificationPreferenceRepository.ts:94-188 | What each step does to the number of entries of a token in a document: a detach, removal or pruning clears them, an attach adds one, a refresh keeps them |
| TokenEntries.StepDoublesExactly | src/repositories/NotificationPreferenceRepository.ts:127-137 | One step leaves some document with a doubled token iff it is such an attach |
| TokenEntries.RunDoublesExactly | src/repositories/NotificationPreferenceRepository.ts:101-143 | A run keeps every document free of doubled tokens iff no step of it attaches a token its own user lists already and nobody else does |
| TokenEntries.EndDoubledExactly | src/repositories/NotificationPreferenceRepository.ts:127-137 | For every start and run: a user lists a token twice at the end iff it was so at the start, or some step attached the token its user listed already, and nothing took it away since |
| TokenEntries.OverlapDuplicates | src/models/NotificationPreference.ts:82-89 | From every state, for every user who does not list the token of the device, two overlapping registrations of that user leave exactly two entries of it |
| DeviceTokens.StepKeepsInv | src/repositories/NotificationPreferenceRepository.ts:94-162 | Every step keeps single ownership and the charging of each failed attempt to a foreign attach |
| DeviceTokens.OnlyRivalsTakeOver | src/repositories/NotificationPreferenceRepository.ts:119-157 | A token nobody else lists can be listed elsewhere after a run of foreign writes only if one of them pushed it for another user |
| DeviceTokens.NotificationPreferenceRepository.RegisterDevice | src/repositories/NotificationPreferenceRepository.ts:94-162 | Success leaves the user the only owner; contention means that a rival took the token in every attempt; undisturbed, it refreshes the entry or moves the token over |
| DeviceTokens.NotificationPreferenceRepository.RemoveDevice | src/repositories/NotificationPreferenceRepository.ts:164-172 | Exactly the entries of this token disappear from exactly this user, the others stay as they are |
| DeviceTokens.NotificationPreferenceRepository.PruneTokens | src/repositories/NotificationPreferenceRepository.ts:174-188 | Exactly the entries of these tokens disappear, everywhere, and the result counts the documents that changed |
| BulkImport.BulkDeliveryService.ImportFromCsv | src/services/bulkDeliveryService.ts:110-161 | Refuses exactly a header with missing columns, naming them, and exactly a bulk error without write errors on a non-empty insert; otherwise the report is sorted by line and counts distinct failed lines, and with distinct line numbers and an exact store report every row is counted once, as created or failed |
| BulkImport.ImportSplits | src/services/bulkDeliveryService.ts:110-161 | Every line of the file is created, once, or has an error, and never both |
| BulkImport.Accounting | src/services/bulkDeliveryService.ts:142-160 | Created and failed lines add up to the rows; created tracking numbers are distinct and new; no created row is reported |
| BulkImport.CreatedAreNewAndFirst | src/services/bulkDeliveryService.ts:119-140 | Whatever is created carries a new number, different from all others created, and comes from the first valid row with that number |
| BulkImport.ValidationSplits | src/services/bulkDeliveryService.ts:188-216 | Validation splits the lines into valid rows and rows with at least one error |
| BulkImport.RepeatsSplit | src/services/bulkDeliveryService.ts:219-245 | Duplicate detection splits the valid lines into first occurrences and reported repeats |
| BulkImport.InsertableSplits | src/services/bulkDeliveryService.ts:127-138 | After the check against the store the lines are still split into insertable and reported ones |
| BulkImport.BulkDeliveryService.ValidateRows | src/services/bulkDeliveryService.ts:188-216 | The loop yields exactly the valid rows and one error for each issue of the others, in order |
| BulkImport.BulkDeliveryService.RejectDuplicateTrackingNumbers | src/services/bulkDeliveryService.ts:219-245 | The loop with its `seen` map keeps the first row of each number and reports each repeat with the line of the first |
| BulkImport.BulkDeliveryService.RejectExisting | src/services/bulkDeliveryService.ts:127-138 | Rows whose number the store has are reported, the others kept in order |
| BulkImport.BulkDeliveryService.Insert | src/services/bulkDeliveryService.ts:255-289 | A bulk error without write errors is passed on; otherwise every write error becomes one row error |
| StableSort.SortIsStable | src/services/bulkDeliveryService.ts:158-159 | Errors of the same line keep their order in the sorted report |
| Reputation.PointsAreReflectedWalk | src/indexer/reputationHandlers.ts:29-137 | After any events the points are the largest of p0 + S(n) and all S(n) - S(k), the walk reflected at zero, and never negative |
| Reputation.TierFollowsPoints | src/interfaces/IDriverProfile.ts:157-169 | After any events the tier is `computeTier` of the points; a missing profile counts as 0 points and bronze |
| Reputation.NoSlashMeansSum | src/indexer/reputationHandlers.ts:37-48 | Without a slash the points are the plain sum |
| Reputation.DriversAreIndependent | src/indexer/reputationHandlers.ts:143-157 | The profile of a driver depends on the events of that driver only |
| Reputation.EveryDriverWalks | src/indexer/reputationHandlers.ts:143-162 | Whatever events arrive for whomever, each driver ends at the reflected walk of its own changes with the matching tier |
| Reputation.ReputationIndexer.HandleReputationIncreased | src/indexer/reputationHandlers.ts:29-79 | Incrementing and then correcting the tier leaves the profile the event asks for and all others alone |
| Reputation.ReputationIndexer.HandleReputationSlashed | src/indexer/reputationHandlers.ts:88-137 | The slash, floored at zero, leaves the profile the event asks for; a missing profile stays missing |
| Reputation.ReputationIndexer.DispatchReputationEvent | src/indexer/reputationHandlers.ts:143-162 | Known events reach the profile and raise the checkpoint to their ledger if it is higher, unknown ones change neither |
| Reputation.ReputationIndexer.RecordProcessedLedger | src/services/monitorService.ts:49-70 | The checkpoint becomes the maximum of what it was and the new ledger |
| DriverRating.CollectedMetricsAreSane | src/services/driverRatingService.ts:102-171 | Of any history the late deliveries are among the completed ones and the total is completed plus cancelled |
| DriverRating.MissingDurations | src/services/driverRatingService.ts:123-133 | A completed delivery without an estimate is late iff it has a positive actual duration, contrary to the comment at line 97; one without an actual duration is late iff its estimate times the multiplier is below -1, so never for an estimate that is not negative |
| DriverRating.ClampNeverActs | src/interfaces/IDriverProfile.ts:97-125 | On counters of a history the formula lies within 0 and 5 before the clamp |
| DriverRating.RatingIsInRange | src/interfaces/IDriverProfile.ts:111-125 | The rounded rating of any history lies within 0 and 5 |
| DriverRating.OnTimeNeverLowers | src/interfaces/IDriverProfile.ts:103-110 | One more on-time completion never lowers the rating |
| DriverRating.CancellationNeverRaises | src/interfaces/IDriverProfile.ts:103-110 | One more cancellation never raises the rating |
| DriverRating.SuspensionExactly | src/interfaces/IDriverProfile.ts:134-155 | With c completed, d of them late, x cancelled and t = c + x: a driver is suspended iff c >= 5 and 3005ct < 2000dt + 3000xc, severely iff 3995ct is below it too, and for 7 or 30 days accordingly |
| DriverRating.SuspensionNeedsCancellations | src/interfaces/IDriverProfile.ts:134-155 | Suspension implies five completions and 133 cancelled > 67 completed, a severe one 67 cancelled > 133 completed |
| DriverRating.AllLateIsTight | src/interfaces/IDriverProfile.ts:134-155 | If every completion was late these bounds decide the suspension, in both directions |
| DriverRating.LatenessAloneNeverSuspends | src/interfaces/IDriverProfile.ts:134-155 | A history without cancellations never leads to a suspension |
| Rounding.RoundingThreshold | src/interfaces/IDriverProfile.ts:124-124 | A rounded value is below a number of hundredths iff the exact one is below that number less half a hundredth |
| Rounding.CentsAreFixed | src/services/driverEarningsService.ts:132-132 | Rounding a sum of two values that have two decimals changes nothing |
| RatingSweep.RunsStayConsistent | src/services/driverRatingService.ts:182-269 | In every run of sweeps and evaluations a driver is suspended iff the end of a suspension is set |
| RatingSweep.SweepDecidesSuspension | src/services/driverRatingService.ts:279-304 | After a sweep started at t a driver is suspended iff the rule fires for that driver now or an earlier suspension ends after t, and every suspension left ends after t |
| RatingSweep.DriverRatingService.LiftExpiredSuspensions | src/services/driverRatingService.ts:257-269 | Lifts exactly the suspensions that have ended and counts them |
| RatingSweep.DriverRatingService.EvaluateDriverRating | src/services/driverRatingService.ts:182-232 | Writes the profile the history gives; without a penalty an existing suspension stays; a failure changes nothing |
| RatingSweep.DriverRatingService.RecalculateAllDriverRatings | src/services/driverRatingService.ts:279-313 | The loop is the sweep; processed = updated + failed, with updated, suspended and lifted the exact counts and suspended at most updated |
| Earnings.GroupingConserves | src/services/driverEarningsService.ts:107-118 | For any partition into periods the group sums add up to the exact total and the counts to the number of escrows |
| Earnings.RowsHoldTheirEscrows | src/services/driverEarningsService.ts:107-118 | The row of each period has the sum and the count of exactly the escrows dated in it |
| Earnings.GroupIsOrdered | src/services/driverEarningsService.ts:119-119 | Periods come out strictly ordered, each once |
| Earnings.FoldIsPlainSum | src/services/driverEarningsService.ts:130-136 | The re-rounding in the fold is a no-op: the summary is the plain sum of the rounded periods |
| Earnings.SummaryIsClose | src/services/driverEarningsService.ts:124-138 | The summary counts every matching escrow and is within 0.005 for each period of the exact sum |
| Earnings.GroupingsAgree | src/services/driverEarningsService.ts:124-138 | Two groupings of one request have the same count and differ by at most 0.005 for each of their periods |
| QueryFilter.EscapedIsLiteral | src/middlewares/queryMiddleware.ts:83-83 | The escaped pattern is all literals and stands for exactly the term |
| QueryFilter.EscapingIsNeeded | src/middlewares/queryMiddleware.ts:79-83 | Unescaped, a term stands for itself iff it has no metacharacter |
| QueryFilter.SearchIsLiteral | src/middlewares/queryMiddleware.ts:144-144 | The escaped pattern is found in exactly the texts that contain the term literally, case folded |
| QueryFilter.SearchSelects | src/middlewares/queryMiddleware.ts:127-148 | The search clause selects exactly the documents with a searchable field containing the term |
| Filters.CollisionLosesCondition | src/middlewares/queryMiddleware.ts:279-291 | For objects with conditions on fields only and any meaning of the conditions: if a value meets the condition that is left under a key but not one that was lost, and every condition left can be met, flattening selects a document with that value that the filter does not |
| Filters.FlatteningExactlyFor | src/middlewares/queryMiddleware.ts:279-291 | For any number of objects with conditions on fields only, and any given meaning of the conditions: flattening keeps the selected documents iff some condition left can be met by no value, or every value that meets the condition left under a key meets those lost there |
| Filters.StrongerLaterIsHarmless | src/middlewares/queryMiddleware.ts:279-291 | Two conditions under one key of which the later is the stronger, such as two lower bounds in rising order, are flattened without loss |
| Filters.FlatteningSplits | src/middlewares/queryMiddleware.ts:279-291 | Every filter says exactly what its flattened form says and what flattening loses |
| Filters.FlatteningExactly | src/middlewares/queryMiddleware.ts:279-291 | For every filter, flattening keeps the selected documents under every reading of the conditions iff each condition it loses is still insisted on when all others hold, and each replaced `$and` or `$or` entry follows from what is left; the second half restates the meaning for such entries |
| Filters.FlatFlatteningExactly | src/middlewares/queryMiddleware.ts:279-291 | For any number of objects with conditions on fields only, flattening keeps the selected documents under every reading of the conditions iff no key has two different ones |
| QueryFilter.OptionsFilterFlattens | src/middlewares/queryMiddleware.ts:236-248 | On every filter the middleware builds, flattening selects the same documents |
| QueryFilter.BuildConditions | src/middlewares/queryMiddleware.ts:174-198 | An operator object becomes one test for each operator it names, that of the last entry naming it; it fails iff some entry has no reading, with the error of the first |
| QueryFilter.BuildFilter | src/middlewares/queryMiddleware.ts:156-210 | The filter has conditions for exactly the declared fields supplied, each saying what its parameter says; it fails iff one of them has no reading, with the error of the first declared one |
| QueryFilter.ParseSort | src/middlewares/queryMiddleware.ts:92-124 | Fails iff the sort is no string or names an unsortable field, and says which; otherwise the keys named or the fallback |
| QueryFilter.BuildQueryOptions | src/middlewares/queryMiddleware.ts:220-256 | Succeeds iff page, limit, fields, search and sort are all fine, and otherwise reports the error of the first that is not; page, bounded page size, skip, sort and filter are each as their parameters say, and the filter is one that flattening preserves |
| SortOrder.LastDirectionWins | src/middlewares/queryMiddleware.ts:105-121 | Each field of the sort has the direction of its last mention |
| SortOrder.FirstMentionOrders | src/middlewares/queryMiddleware.ts:105-121 | The fields of the sort take precedence in the order of their first mention |
| SortOrder.ParseUndoesPrint | src/middlewares/queryMiddleware.ts:85-124 | Parsing a printed sort order gives back its fields, directions and precedence |
| SortOrder.ParseSort | src/middlewares/queryMiddleware.ts:103-123 | Refuses at the first unsortable field; otherwise the sort its tokens build, or the fallback if they name nothing |
| Pagination.WalkYieldsList | src/middlewares/queryMiddleware.ts:294-313 | Following nextPage from page 1 visits the pages 1 to max(1, totalPages), and their slices concatenated are the whole list |
| Pagination.FollowCoversRest | src/middlewares/queryMiddleware.ts:294-313 | The slices visited from any page on are the rest of the list |
| Pagination.PreviousUndoesNext | src/middlewares/queryMiddleware.ts:300-311 | previousPage undoes nextPage |
| Pagination.NextUndoesPrevious | src/middlewares/queryMiddleware.ts:300-311 | nextPage undoes previousPage from any page that exists |
| Pagination.Paginate | src/repositories/BaseRepository.ts:109-131 | Never a negative skip nor more than a hundred items; page and page size for every argument: the whole part, within bounds, with NaN and zero falling back |
| RequestTracker.CounterIsPending | src/middleware/requestTracker.ts:37-62 | In every run the counter is the number of requests that arrived before draining and for which neither callback has fired since |
| RequestTracker.CounterIsExact | src/middleware/requestTracker.ts:49-59 | The counter always equals the number of unsettled requests, so the clamp at zero never acts |
| RequestTracker.DrainOnlyFalls | src/middleware/requestTracker.ts:37-45 | After draining begins the counter never rises and nobody new is accepted |
| RequestTracker.DrainReachesZero | src/middleware/requestTracker.ts:16-22 | Once a callback of every open request has fired the counter is zero |
| RequestTracker.Tracker.OnSettled | src/middleware/requestTracker.ts:49-59 | Finish and close do the same, and only the first of them lowers the counter, by one |
| RequestTracker.Tracker.Track | src/middleware/requestTracker.ts:37-62 | Accepts iff draining has not begun, and then counts the request |
| RequestTracker.Tracker.BeginRequestDrain | src/middleware/requestTracker.ts:16-22 | Draining begins, whether or not it had begun, and nothing else changes |
| FeatureFlags.ParseFeatureFlags | src/config/flags.ts:19-60 | Each flag gets its override, else its last mention, else its default; the parse fails iff an entry is bad, with the error of the first bad one |
| FeatureFlags.ParseUndoesPrint | src/config/flags.ts:26-50 | An entry, however padded and in whatever case, parses to what it says |
| FeatureFlags.ParseRecoversPrinted | src/config/flags.ts:19-60 | A printed list with blanks, spaces and overruled mentions parses to the last said value of every flag |
| Text.SplitUndoesJoin | src/config/flags.ts:26-26 | Splitting undoes joining for pieces without the separator |
| PlanTree.FindReturnsFirst | src/services/driverLocationService.ts:434-451 | The search finds something iff some path leads to a name, and then the name at the first such path in depth-first preorder, exactly if the tree has no name, or its first name is not empty, or is that of the root |
| PlanTree.FindSeesFirst | src/services/driverLocationService.ts:434-451 | For every tree the search, tested for truth, sees the first non-empty name of the depth-first listing |
| PlanTree.NamesStartAtFirstPath | src/services/driverLocationService.ts:433-451 | The listing starts with the name at the least path in preorder |
| PlanTree.EmptyNameIsSkipped | src/services/driverLocationService.ts:441-447 | An empty name is passed over for a later one |

## Left out

- The database: per-document atomicity, the unique indexes, `updateMany` as one step, and a
  nearest-first `$geoNear` are taken as contracts; `GeoNear` is a selection that meets the last one.
- `assignDriver` called on its own, `update` (`src/services/delivery.service.ts:309-313`) and the
  chain indexer (`src/indexer/deliveryHandlers.ts:43-47`) bypass the guarded transitions; lifecycle
  runs consist of `create`, `updateStatus` and proof uploads, and in the assignment protocol other
  writers may change statuses and escrows but neither drivers nor availability.
- Create: takes as given whether the tracking number is taken, and the race of two calls between that
  check and the insert is not modelled.
- AssignDriver: leaves out the check of the id, which `AssignNearestDriver` has made already, and the
  milestone raised after the save, which is `EmitMilestone`.
- ReleaseClaim: does not model the failure of its write; the protocol does (`RollBackFails`).
- FindNearbyDrivers: does not model numbers that are not finite, nor a failing database, which the
  protocol has (`SearchFails`).
- DriversAreConserved: does not cover a claim, save or release that takes effect and yet reports an error;
  a failing write is taken to have changed nothing. In the code such a save would be rolled back and free
  a driver who is on a delivery.
- LockIsExclusive: does not model the expiry of a lock; `withLock` is mutual exclusion that outlives
  its section.
- Other writers of availability, such as position reports (`upsertDriverLocation`), and the deletion or
  expiry of driver locations.
- AutoAssignPendingDeliveries: takes the candidates as given; the query that selects and orders funded
  deliveries without a driver is the database's.
- Deletion of deliveries and of preference documents.
- Notifications, webhooks and sockets: they never fail a committed transition, so they have no step.
- Floating point: ratings, rates and amounts are exact rationals, with `Math.round` as the floor of
  x + 1/2 and the grace multiplier as 1.1; reputation points are integers.
- The text of a suspension reason, and profile fields no rule reads.
- CSV text and the row schema: the rows arrive parsed, and a failing schema names at least one problem.
- Conversion of query strings to numbers, dates and ids is a parameter; case folding maps single
  characters; regular expressions go no further than literals and escaped metacharacters.
- FlatteningExactlyFor: takes the fields of a document as independent; dotted names that reach into the
  value of another field are not related to it.
- FirstMentionOrders: does not cover field names that look like integers, which JavaScript orders first.
- Calendar formats of period labels, which are a parameter; labels are compared as numbers that
  stand for strings in the same order.
- Paginate: does not cover infinite arguments.
- `resetRequestTracker`, which exists for tests.
- Circular plan objects; plan trees are finite.
- The HTTP layer, authentication, chain calls, pooling, idempotency and escrow services: their code has
  no part in these properties.

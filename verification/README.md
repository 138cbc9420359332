# TrackFlow: a verified model of the reporting pipeline and its services

This project models, in Dafny 4.11, the parts of TrackFlow whose correctness spans
several functions or several processes, and proves what they promise. Check it with
`dafny verify dfyconfig.toml`.

| part | modules |
|---|---|
| shared helpers (options, sequences, sums, sorting) | Common, Sequences |
| run log, transactional load, and what readers see over whole runs | Weeks, RunLog, WeeklyLoad, WeeklyPublish, RunLogLaws, Publication, PublicationReports, PublicationExact, PublicationOnTime, PublicationRuns, WeeklyFlow, WeeklyRun |
| the weekly rollup | RollupEvents, RollupReading, RollupPrepare, RollupFacts, RollupFigures, RollupRows, RollupValidation, RollupTheorems |
| collection health | CollectionHealth |
| incident reads and their cache | ReadCache, CacheRecency, CachedReads, Incidents |
| scheduled jobs | JobRuns, JobLaws, JobExecutions, JobRefinement, JobCompletions |
| frontend telemetry and its ingest | TelemetryQueue, TelemetryIngest, TelemetryDelivery, TelemetryLosses |
| inventory movements | Inventory, InventoryTransactions, InventorySerial |
| technical report | Percentile, DayGrid |
| password reset links | ResetTokens, ResetLaws, ResetHistory |

## How the model is built

Code that changes state in place is a class (`RunLogTable`, `ReportStore`,
`IncidentReadCache`, `IncidentApi`, `JobRunner`, `TelemetryService`, `IngestService`,
`InventorySession`, `AuthService`) whose methods follow the source's steps and loops
and are proved equal to functions on values. Everything else is proved about those
functions, and for each operation there is a lemma that says what it does in the
fields of the rows, events or requests themselves (`RunLogLaws`, `RollupReading`,
`CacheRecency`, `JobLaws`, `ResetLaws`). Where several processes act at once, the same functions become the steps
of a state machine: each database transaction, each call that holds a lock, and each
stretch of JavaScript between two awaits is one step, and a behaviour is a sequence
of states with the steps between them. A process that crashes takes no further step.

Dates are day numbers with a Monday at 0; moments are whole microseconds. Rates are
in ten-thousandths. Random ids are arguments, counters or positions, which keeps
them different. A column that can be null is an option.

Assumptions about the world outside the code:

- Publication: each committed load is of the weeks its run's row records
  (`EveryLoadMatches`), which a load could check by comparing the row's `weeks_from` and
  `weeks_to` with its own weeks. `PublicationExact` shows that it is also necessary.
  `PublicationOnTime` gives conditions on clocks and retries that bring it about,
  asked of look-back runs only: when a run's row is inserted the database clock is not
  in a later UTC week than the worker clock was when the attempt computed its weeks
  (`RowsAreInsertedOnTime`), and an attempt does not resume a row whose weeks were
  computed in a later UTC week than its own (`RowsAreResumedOnTime`). A worker clock
  that does not go back and attempts that open their row before a later attempt of the
  same run starts give the second. `EveryStateIsConsistent`, `BehaviourOnlyAdds`,
  `StoppedRunPublishesNothing` and `AttemptRecomputesItsRowIff` need none of this. The
  rows a load receives have distinct keys in the run's weeks, which is what
  `RollupIsNeverRefused` shows of the transform's rows and `WeeklyRun.Attempt` carries
  out.
- JobExecutions: `staleAfter` is a lower bound of the ages the executions sweep at.
- TelemetryDelivery: other clients do not use this client's event ids, and ids do not
  repeat.
- ResetHistory: requests are served one at a time, clocks do not go back (for
  `LinkWorksIff` and `PurgingIsInvisible`), ids are not empty and not repeated, and a
  correctly signed token is one this service issued.

## Where the code does less than one might read into it

Each of these is stated as a lemma, with the exact condition where there is one.

- A window of several weeks drops duplicates across the whole window, so rebuilding
  the weeks one by one gives the same rows exactly when no valid business key is
  reported in two of them (`WeeksRebuildAloneIff`).
- The load does not compare its weeks with those of its run's row. An attempt that may
  load can leave readers wrong exactly when they differ (`CanMisleadIff`), and over
  whole runs in which a load that strays outside its row has a record there, readers
  are always right exactly when every committed load is of its row's weeks
  (`ReadersAreAlwaysRightIff`). `PublicationRuns` has two runs in which they are
  not, and one in which they are although the row was inserted after the week turned.
- An attempt recomputes its row's weeks exactly when the run names its week or both
  computed their weeks in one UTC week (`AttemptRecomputesItsRowIff`). Every later
  attempt does exactly when the run names its week or the cutoff was not in a later
  week than the opening worker clock (`ResumeRecomputesSameWeeksIff`).
- The comments of `run_job` read as if a date could complete only once. The completed
  check comes before the claim, so after a completion an execution can still complete
  the date exactly when it was already past its check and has no row yet, still holds an
  active one, or has finished (`CompletesAgainIff`, `ADateCanCompleteTwice`).
- A drop report that fills the queue half way announces some drops twice
  (`DropsAreAccountedForIff`, `AReportCanBeCutShort`).
- The discrepancy key joins two free texts with a colon. Another acceptable report can
  take an event's key for another fact exactly when the event is a count whose joined
  ids split at another colon into two ids normalization accepts
  (`AnotherFactTakesTheKeyIff`). One event of each fact survives exactly when no two
  counts in the frame collide (`OneSurvivorPerFactIff`); of two that do, one is
  excluded as a duplicate (`CollisionExcludesACount`).
- Hiding the page during a flush can lose events. A resuming flush takes events off the
  queue that nobody sent or counted exactly when its batch was accepted, a beacon was
  taken since that batch was, and the queue is not empty (`FlushLosesIff`); if the
  batch was given up instead, the events are counted as dropped
  (`DisplacedBatchTakesOthers`). A run that does so is `AHideCanLoseAnEvent`.
- The one-running index can refuse an opening when one flow run opens two pipelines
  (`OneRunningIndexFiresIff`); the repository has one pipeline.

## Model

| member | source | states |
|---|---|---|
| Publication.ReadersSeeTheNewestSnapshot | data/pipelines/weekly_warehouse_client_performance/load.py:161-242 | in every state of every interleaving whose committed loads are of the weeks their rows record, the rows of a computed week are exactly those loaded by the completed run with the greatest cutoff covering it, the last to commit on ties; a week no completed run covers has no rows |
| PublicationExact.ReadersAreAlwaysRightIff | data/pipelines/weekly_warehouse_client_performance/load.py:161-242 | readers are right about every week in every state of a run if and only if each committed load is of the weeks its row records, for runs in which a load that strays outside its row has a record there |
| PublicationExact.CanMisleadIff | data/pipelines/weekly_warehouse_client_performance/load.py:161-242 | an attempt past its guard, with its run running and nothing newer published, can commit a load that leaves readers wrong if and only if its weeks are not those its row records: its run does not name its week and the row's weeks were computed in another UTC week |
| PublicationExact.StrayLoadMisleads | data/pipelines/weekly_warehouse_client_performance/load.py:124-140 | from any consistent state, a committed load with a record of a week its row does not record leaves the readers of that week wrong |
| Publication.SnapshotNeverGoesBack | data/pipelines/weekly_warehouse_client_performance/load.py:90-106 | while committed loads are of their rows' weeks, a computed week stays computed and the snapshot behind it never moves to an earlier cutoff |
| PublicationOnTime.EveryAttemptRecomputesItsRow | data/pipelines/pipeline.py:310-320 | in every state of every run that is on time, an attempt past the cutoff guard works on exactly the weeks its row records, every Monday from `weeks_from` to `weeks_to`, however late it comes |
| PublicationOnTime.OnTimeLoadsMatch | data/pipelines/pipeline.py:310-320 | on time, every committed load is of the weeks its row records |
| PublicationOnTime.OnTimeReadersAreRight | data/pipelines/weekly_warehouse_client_performance/load.py:161-242 | so readers are right in every state of every run that is on time |
| Publication.AttemptRecomputesItsRowIff | data/pipelines/pipeline.py:310-320 | in every state of every run an attempt works on exactly the weeks its row records if and only if the run names its week or the row's weeks were computed in the same UTC week, which comparing the first and last week of both tells |
| Publication.BehaviourOnlyAdds | data/pipelines/run_log.py:148-307 | over any stretch of a run rows keep identity and cutoff, `completed` and `skipped` rows never change, and neither committed loads nor the history lose an entry |
| Publication.StoppedRunPublishesNothing | data/pipelines/weekly_warehouse_client_performance/load.py:219-230 | from the moment a run's row is swept, failed, skipped or completed until its own flow run reopens it, no load of it changes the database, whatever the others do |
| Publication.EveryStateIsConsistent | data/pipelines/weekly_warehouse_client_performance/schema.py:219-291 | in every reachable state, with no condition, the unique indexes and checks of the run log hold, each row records the weeks its first attempt computed, and replaying the history from nothing gives the published figures |
| Publication.PublishedRowsAreCovered | data/pipelines/run_log.py:350-369 | while committed loads are of their rows' weeks, every published row is of a Monday that a completed run covers |
| Publication.BehaviourKeepsInvariant | data/pipelines/pipeline.py:297-360 | the invariant behind these results holds in every state of every behaviour whose committed loads are of their rows' weeks |
| Publication.StepKeepsInvariant | data/pipelines/pipeline.py:297-360 | each single transaction of the protocol (open, load, skip, fail) keeps it; only a committed load is asked anything, that it be of its row's weeks |
| Publication.CoveredMeansCommitted | data/pipelines/run_log.py:350-369 | a week reads as computed exactly when a committed load covers it, and then the last such load has the greatest cutoff of all completed runs covering it |
| PublicationRuns.AWeekIsPublished | data/pipelines/weekly_warehouse_client_performance/load.py:161-242 | a run that is on time and publishes a week, shown by the report and computed by the run log |
| PublicationRuns.AMidnightOpeningIsRight | data/pipelines/run_log.py:207-232 | being on time is not needed: weeks computed in the last second of Sunday, the row inserted in the first of Monday, the right rows shown and readers right in every state |
| PublicationRuns.AnEarlyCutoffShowsAnUncoveredWeek | data/pipelines/pipeline.py:310-320 | without `RowsAreInsertedOnTime`: a run in which an attempt loads weeks its row does not record and readers are wrong about a week no completed run covers |
| PublicationRuns.ALateAttemptShowsAnUncoveredWeek | data/pipelines/run_log.py:184-205 | without `RowsAreResumedOnTime`: such a run by a delayed attempt that resumes a later one's row |
| Publication.CommitsGrow | data/pipelines/weekly_warehouse_client_performance/load.py:90-106 | a load that found no newer completed run read a snapshot no earlier than any earlier commit it shares a week with |
| PublicationReports.RevisedMeansPublishedAndChanged | data/pipelines/weekly_warehouse_client_performance/load.py:109-121 | over any run whose committed loads are of their rows' weeks, a committed load reports a week as revised exactly when an earlier committed load covers it and its rows differ after the load from those before; a week published for the first time never is |
| PublicationReports.RowsCarryTheirMoment | data/pipelines/weekly_warehouse_client_performance/load.py:124-140 | after a committed load each row whose figures it changed carries the load's moment, and every other row is as it was, its moment included |
| PublicationReports.RevisionsTellTheChange | data/pipelines/weekly_warehouse_client_performance/schema.py:219-265 | a committed load adds to the history exactly one entry for each row it changes, naming its run, the operation and the row's figures before and after |
| PublicationReports.OnlyCommittedLoadsPublish | data/pipelines/weekly_warehouse_client_performance/load.py:161-242 | no other step changes the report or its history |
| PublicationReports.LoadCountsWhatItDid | data/pipelines/weekly_warehouse_client_performance/load.py:191-219 | in every run the four counts of a committed load are the numbers of rows of the report that are new, changed, kept in its weeks and gone |
| RunLog.OpenRunKeepsInvariant | data/pipelines/run_log.py:148-232 | `open_run` keeps at most one running row per pipeline, one row per flow run and the row checks, and only moves rows the way they may move |
| RunLog.OpenRunHasShape | data/pipelines/run_log.py:148-232 | a flow run has one row, inserted once with the cutoff of that moment; every later answer names that row, its cutoff and the status the table then holds, except that a failed row whose slot is held is answered skipped with its holder; opening completes nothing |
| RunLog.FailedReopensOnlyIntoAFreeSlot | data/pipelines/run_log.py:184-205 | a failed row returns to running only for its own flow run, with the answer saying so and no other row in the slot |
| RunLog.SkippedOnlyForALiveHolder | data/pipelines/run_log.py:110-144 | a run is skipped only in favour of a holder younger than the limit and not reported finished, or because its own row was already skipped |
| RunLog.DeadHoldersAreDisplaced | data/pipelines/run_log.py:110-144 | when every holder is terminal or old enough, the caller gets the slot |
| RunLog.OneRunningIndexFiresIff | data/pipelines/run_log.py:184-198 | the unique index refuses an opening exactly when the flow run's failed row belongs to another pipeline whose slot is taken |
| RunLog.ReopeningResumesTheSameSnapshot | data/pipelines/run_log.py:184-205 | opening again after a lost answer finds the same row and cutoff and inserts nothing |
| RunLog.SkipRunIsQuiet | data/pipelines/run_log.py:246-268 | giving way completes no run, inserts nothing and keeps the table's promises |
| RunLog.FailRunIsQuiet | data/pipelines/run_log.py:271-307 | recording a failure completes no run, inserts nothing and keeps the table's promises |
| RunLog.CompleteRunKeepsInvariant | data/pipelines/run_log.py:235-243 | completing a running row keeps the table's promises |
| RunLogLaws.OpeningFailsTheDead | data/pipelines/run_log.py:110-144 | an answered opening fails exactly the running rows of other flow runs that are reported finished or have outlived the limit, and leaves every other such row alone |
| RunLogLaws.OpeningReportsThePreviousCutoff | data/pipelines/run_log.py:101-107 | the previous cutoff is the greatest of the completed runs of the pipeline, none without any |
| RunLogLaws.OpeningInserts | data/pipelines/run_log.py:207-232 | a flow run without a row gets one with the cutoff of this moment: running in a free slot, otherwise skipped, ended and naming the live holder |
| RunLogLaws.OpeningResumes | data/pipelines/run_log.py:184-205 | a flow run with a row is answered that row, its own cutoff and its own status (a completed row `completed`, a skipped one `skipped`); only a failed row reopens, in a free slot, and in a taken one the answer is skipped in favour of the holder |
| RunLogLaws.OpeningIsRefusedIff | data/pipelines/run_log.py:184-198 | the opening is refused exactly when the flow run has a failed row of another pipeline whose slot is taken, and this pipeline's slot has no live holder |
| RunLogLaws.CompletingCompletes | data/pipelines/run_log.py:235-243 | a running row becomes completed now, with its counts; no other row or field changes |
| RunLogLaws.SkippingSkips | data/pipelines/run_log.py:246-268 | a running row becomes skipped now, naming the run it gave way to; a row that is not running, and every other row, stays |
| RunLogLaws.FailingFails | data/pipelines/run_log.py:271-307 | the flow run's running row becomes failed now, with the stage and the error; the answer says whether a row was failed or left as it was |
| RunLogLaws.FailingMissesIff | data/pipelines/run_log.py:271-307 | the answer is `missing` exactly when the flow run has no row |
| RunLog.RunLogTable.SweepAbandonedRows | data/pipelines/run_log.py:110-144 | the loop of updates leaves exactly the abandoned rows of other flow runs failed, and nothing else changed |
| RunLog.RunLogTable.OpenRunRow | data/pipelines/run_log.py:148-232 | the transaction, step by step, leaves the table and the answer that the specification of `open_run` gives, rolled back when the index refuses |
| RunLog.RunLogTable.CompleteRunRow | data/pipelines/run_log.py:235-243 | marks the row completed only if it is running, and otherwise writes nothing |
| RunLog.RunLogTable.SkipRunRow | data/pipelines/run_log.py:246-268 | records the skip on a running row, and otherwise writes nothing |
| RunLog.RunLogTable.FailRunRow | data/pipelines/run_log.py:271-307 | marks a running row failed and tells failed, unchanged and missing apart |
| RunLog.RunLogTable.LatestCompletedCutoff | data/pipelines/run_log.py:101-107 | the greatest cutoff of the pipeline's completed runs, if any |
| RunLog.RunLogTable.LatestCompletedWeek | data/pipelines/run_log.py:333-347 | the greatest `weeks_to` of a completed run; no later week is computed |
| RunLog.RunLogTable.IsComputed | data/pipelines/run_log.py:350-369 | true exactly when some completed run covers the week |
| WeeklyLoad.LoadReplacesExactlyItsWeeks | data/pipelines/weekly_warehouse_client_performance/load.py:124-158 | after the load the recomputed weeks hold exactly the given records and every other week its rows untouched, timestamps included |
| WeeklyLoad.TallyAddsUp | data/pipelines/weekly_warehouse_client_performance/load.py:191-219 | inserted + updated + unchanged is the number of records, unchanged counts the rows already equal, and inserted - deleted is the growth of the table |
| WeeklyLoad.RevisedWeeksAreTheChangedOnes | data/pipelines/weekly_warehouse_client_performance/load.py:109-121 | of the weeks taken as published, `weeks_revised` holds exactly those whose rows changed; `PublicationReports.RevisedMeansPublishedAndChanged` says which weeks are taken |
| WeeklyLoad.ReloadWritesNothing | data/pipelines/weekly_warehouse_client_performance/load.py:124-140 | loading the same records again changes nothing, not even `computed_at` |
| WeeklyLoad.HistoryStaysFaithful | data/pipelines/weekly_warehouse_client_performance/schema.py:219-265 | if replaying the history gives the table, it still does after any committed change, and each new entry's old values are the figures it replaced |
| WeeklyPublish.ReportStore.WriteRow | data/pipelines/weekly_warehouse_client_performance/schema.py:246-258 | a written row and its revision are recorded together, with the old and new figures |
| WeeklyPublish.ReportStore.DeleteRow | data/pipelines/weekly_warehouse_client_performance/schema.py:246-258 | a deleted row leaves its revision |
| WeeklyPublish.ReportStore.Upsert | data/pipelines/weekly_warehouse_client_performance/load.py:124-140 | inserts new keys, updates changed ones, leaves equal rows alone, returns exactly the keys written, and logs each difference once |
| WeeklyPublish.ReportStore.DeleteStaleKeys | data/pipelines/weekly_warehouse_client_performance/load.py:143-158 | removes exactly the keys of these weeks that the batch lacks, logging each |
| WeeklyPublish.NewerCompletedRun | data/pipelines/weekly_warehouse_client_performance/load.py:90-106 | finds a completed run of overlapping weeks with a later cutoff, the latest such cutoff, or none when there is none |
| WeeklyPublish.ReplaceWeeks | data/pipelines/weekly_warehouse_client_performance/load.py:191-193 | upsert then delete together publish the batch and extend the history by exactly the change |
| WeeklyPublish.PublishAndComplete | data/pipelines/weekly_warehouse_client_performance/load.py:190-230 | publishes and completes the run together, or leaves everything as it was when the run is not running |
| WeeklyPublish.LoadOnce | data/pipelines/weekly_warehouse_client_performance/load.py:180-231 | one transaction: stale snapshot, run not running, or published with its counts |
| WeeklyPublish.LoadWeeklyRows | data/pipelines/weekly_warehouse_client_performance/load.py:161-242 | the whole call: a stale snapshot is recorded on the run's own row and nothing is published |
| Weeks.WeekContainsMoment | data/process/weekly_rollup.py:146-153 | `week_start_of` is the one Monday whose seven UTC days contain the moment |
| Weeks.WeeksBetweenListsEveryMonday | data/process/weekly_rollup.py:182-189 | `weeks_between` lists every Monday of the range, once |
| Weeks.ClosedWeeksAreEveryMonday | data/process/weekly_rollup.py:161-196 | the weeks of a run are closed and are every Monday between the two dates its row records |
| Weeks.ResumeRecomputesSameWeeksIff | data/pipelines/pipeline.py:310-320 | every later attempt that passes the guard recomputes the opening attempt's weeks if and only if the run names its week or the cutoff is not in a later UTC week than the opening worker clock |
| Weeks.ALateCutoffMovesTheWeeks | data/pipelines/pipeline.py:310-320 | the failing case: opened late on Sunday with the database already in Monday, a retry passes the guard and computes the next week |
| WeeklyFlow.RunStages | data/pipelines/pipeline.py:309-360 | stages run in order and stop at the first failure, which is recorded under its own stage (`validate` for a refused rollup) with the events read once known |
| WeeklyRun.Attempt | data/pipelines/pipeline.py:297-360 | from the tables before the call and what reading the source answers: refused, given way (naming the live holder), already published, week still open, failed reading, superseded by the completed run of other flow with the latest cutoff, each under exactly the condition that brings it about; in every other case it publishes, the report then showing the rollup of the events read in its weeks and every other week as it was, its own row completed with their number; the transform and the gate never fail, and beside opening it writes its own row alone |
| WeeklyRun.BuildValidRows | data/process/weekly_rollup.py:521-594 | preparing, counting, assembling and validating closed weeks always yields the specified rows, as a batch the load takes |
| WeeklyRun.RunOpened | data/pipelines/pipeline.py:310-350 | from the answer of opening on: how the guard and the stages end, from the run log and the source, with nothing written unless the load is reached |
| WeeklyRun.OpeningKeepsLaterRuns | data/pipelines/run_log.py:148-232 | opening a run changes nothing about which completed runs of other flow runs have a later cutoff |
| WeeklyFlow.Backfill | data/pipelines/pipeline.py:394-413 | rebuilds every Monday of the range oldest first, and stops at the first week whose run does not complete, with all earlier ones done |
| WeeklyFlow.ResumingCoversTheRange | data/pipelines/pipeline.py:394-413 | resuming from the week that failed covers, with the weeks done, exactly the original range |
| RollupEvents.ExclusionReasons | data/process/weekly_rollup.py:267-290 | the pass of checks over the frame gives each event the first check it fails |
| RollupEvents.ResolvedClientsAreValid | data/process/weekly_rollup.py:248-264 | a resolved client id is always a valid slug |
| RollupEvents.KeyGroupsHaveOneType | data/process/weekly_rollup.py:293-327 | events that share a business key are of one type, although keep-first or keep-last is chosen event by event |
| RollupReading.QuantityIsTheNumberWritten | data/process/weekly_rollup.py:241-245 | a quantity reads as the number n exactly when its text is n in one to nine decimal digits, leading zeros allowed, after an optional minus sign; any other text reads as none |
| RollupReading.CleaningTrims | data/process/weekly_rollup.py:228-230 | a text field loses exactly the blanks around it, and one of blanks alone is missing |
| RollupReading.LowerReplacesCapitals | data/process/weekly_rollup.py:231 | lower-casing replaces each capital by its letter and keeps the rest |
| RollupReading.ClientIdIff | data/process/weekly_rollup.py:214-217 | a client id is at most 64 characters that are words of lowercase letters and digits joined by single hyphens |
| RollupReading.OwnerIsTheFirstValid | data/process/weekly_rollup.py:255-262 | a product's owner is the client of the first product of that id with a valid client, none when there is none |
| RollupReading.EventReadsItsFields | data/process/weekly_rollup.py:220-264 | an event belongs to the Monday whose seven days hold the earlier of its own time and its arrival, and to the client it names if that is valid, else to its product's owner |
| RollupReading.FirstReasonIs | data/process/weekly_rollup.py:267-290 | the reason before duplicates is the first that applies of unknown warehouse, bad inbound quantity, no client, unknown band, week not computed |
| RollupFacts.KeysIdentifyFacts | data/process/weekly_rollup.py:293-313 | two valid events share a key exactly when they report one business fact, or are two counts of different products whose joined ids read the same |
| RollupFacts.AnotherFactTakesTheKeyIff | data/process/weekly_rollup.py:293-313 | some other report the transform accepts takes a valid event's key for another fact if and only if the event is a count whose joined ids split at another colon into two trimmed ids, the second in lower case |
| RollupFacts.OneSurvivorPerFactIff | data/process/weekly_rollup.py:316-327 | at most one event of each fact survives the duplicates, and one of every fact does if and only if no two counts of the frame collide |
| RollupFacts.CollisionExcludesACount | data/process/weekly_rollup.py:339-343 | of two valid counts that collide, every valid report of one ends as `duplicate_business_key` |
| RollupFacts.CountsCanCollide | data/process/weekly_rollup.py:304 | two counts normalization yields, of products `y` and `x:y`, share a key |
| RollupEvents.SupersededIff | data/process/weekly_rollup.py:316-327 | an event is marked as a duplicate exactly when another report of its key has an earlier timestamp, or the same and an earlier arrival, or both the same and an id earlier in text order; for a discrepancy, later |
| RollupEvents.OneSurvivorPerKey | data/process/weekly_rollup.py:316-327 | exactly one event per key survives: every other report of an order or crossing has a later timestamp, or the same and a later arrival, or both the same and a later id; every other report of a discrepancy has earlier ones |
| RollupPrepare.Prepare | data/process/weekly_rollup.py:330-368 | the step-by-step frame operations give the specified countable events and exclusions |
| RollupPrepare.FinalReasons | data/process/weekly_rollup.py:339-343 | the column of reasons after the duplicates are added |
| RollupPrepare.EveryEventIsAccountedFor | data/process/weekly_rollup.py:330-368 | each event is counted or listed as excluded under its id, never both |
| RollupPrepare.ExclusionsCarryTheFirstReason | data/process/weekly_rollup.py:267-290 | each listed exclusion is of an event that was read, with the first check it fails, or `duplicate_business_key` when it fails none and a better report exists |
| RollupPrepare.EventsReadAddUp | data/process/weekly_rollup.py:355-368 | events read = countable + the sum of the counts per reason |
| RollupPrepare.ExtractedEventsAreInTheWindow | data/pipelines/weekly_warehouse_client_performance/extract.py:44-48 | no event meeting the extraction bounds of consecutive weeks is ever `outside_window` |
| RollupPrepare.PreparedPermutes | data/process/weekly_rollup.py:330-368 | any permutation of the events gives the same countable events and exclusions |
| RollupFigures.Assemble | data/process/weekly_rollup.py:480-518 | joining the frames one by one onto the keys gives the specified rows |
| RollupRows.KpisRefuseIff | data/process/weekly_rollup.py:393-477 | the KPIs refuse exactly when some event has no key or an inbound event no unit count |
| RollupRows.RowsAreTheAggregates | data/process/weekly_rollup.py:393-518 | the rows are exactly the grid and the keys with events, each once, sorted, each with the totals summed straight from its events |
| RollupRows.JoinedRowIsTheAggregate | data/process/weekly_rollup.py:511-515 | joining the four frames under a key equals aggregating that key's events directly |
| RollupRows.GroupKeysHold | data/process/weekly_rollup.py:405-408 | grouping lists each key that has an event, once |
| RollupReading.ColumnsAreUnitsAndCounts | data/process/weekly_rollup.py:419-477 | the inbound column of a key is the sum of its events' own quantities and each other column the number of its events |
| RollupReading.RowsAreInOrder | data/process/weekly_rollup.py:516 | the rows are in order of week, then of warehouse, then of client, by the first character where two texts differ |
| RollupValidation.Validate | data/process/weekly_rollup.py:550-594 | collects the broken rules in order with the number of rows breaking each, and accepts exactly publishable rows |
| RollupValidation.AcceptedIff | data/process/weekly_rollup.py:550-594 | the gate accepts exactly the rows that satisfy every table constraint |
| RollupValidation.RollupIsNeverRefused | data/process/weekly_rollup.py:521-594 | for any events, products and closed Monday weeks no KPI refuses, the gate accepts, and the rows are a batch the load takes |
| RollupValidation.CountableAreScreened | data/process/weekly_rollup.py:330-353 | every event handed to the KPIs has a known warehouse, a valid client, a computed week and, if inbound, a unit count |
| RollupValidation.ZeroRowIff | data/process/weekly_rollup.py:488-494 | a row is all zero exactly when no countable event has its key |
| RollupValidation.RateIsNearest | data/process/weekly_rollup.py:458-477 | the rate is the nearest ten-thousandth of discrepancies per order, ties to the even one |
| RollupTheorems.RowsCoverExactly | data/process/weekly_rollup.py:480-544 | the keys of `build_rollup` are exactly owning pairs x weeks together with the keys of countable events, each once, zero exactly without events |
| RollupTheorems.RollupIgnoresOrder | data/process/weekly_rollup.py:316-368 | permuting the events changes neither the rows nor the exclusions nor the count of events read |
| RollupTheorems.ColumnsAddUp | data/process/weekly_rollup.py:419-477 | over any choice of keys each KPI column adds up to the units or number of the countable events there |
| RollupTheorems.WeeksRebuildAloneIff | data/process/weekly_rollup.py:521-544 | rebuilding several weeks in one run gives each week's rows as if rebuilt alone, if and only if no valid business key is reported in two of the weeks |
| RollupTheorems.AnOrderReportedInTwoWeeks | data/process/weekly_rollup.py:316-327 | the failing case: one order reported in two weeks, whose rows change when a week is rebuilt alone |
| RollupTheorems.EachWeekAlone | data/pipelines/pipeline.py:406-412 | the same rows week by week, when no valid business key is reported in two weeks |
| RollupTheorems.CountedOnlyAlone | data/process/weekly_rollup.py:316-327 | a fact reported in two weeks has a report counted when its week is rebuilt alone and dropped otherwise |
| CollectionHealth.HealthCountsWhatTheKpisCount | data/process/collection_health.py:104-138 | summing counted events over days for any warehouses, weeks and types gives the number of events the KPIs counted there |
| CollectionHealth.CountedOutboundIsReportedOutbound | data/process/collection_health.py:110-117 | per warehouse and week, counted outbound events over the days equal the report's outbound orders over the clients |
| CollectionHealth.OrdersOverDays | data/process/collection_health.py:119-128 | the outer join keeps every inventory order of the weeks |
| CollectionHealth.QualityIsOkIff | data/process/collection_health.py:156-182 | the verdict is ok exactly when, for every warehouse, computed Monday and order type, 95 orders <= 100 counted <= 105 orders with some order, or there are neither, where counted are the events the KPIs counted and orders those of the week's seven days |
| CollectionHealth.SameEventCounts | data/process/collection_health.py:104-111 | an event passes the health check's filters exactly when the transform counted it |
| CollectionHealth.TelemetryCountsWhatHappened | data/process/collection_health.py:90-117 | the telemetry column of a warehouse, day and type counts every event that happened then, counted by the KPIs or not |
| ReadCache.IncidentReadCache.Get | services/incidents/read_cache.py:36-47 | returns and refreshes a live entry, drops an expired one |
| ReadCache.IncidentReadCache.Set | services/incidents/read_cache.py:49-71 | an accepted entry goes last and the cache becomes the longest most recent suffix within both limits, never empty; a refused one changes nothing |
| ReadCache.IncidentReadCache.Clear | services/incidents/read_cache.py:73-76 | empties the cache and advances the generation |
| ReadCache.IncidentReadCache.Stats | services/incidents/read_cache.py:78-91 | removes exactly the expired entries and reports the rest |
| ReadCache.EvictedIsASuffix | services/incidents/read_cache.py:66-71 | dropping the oldest until the rest fits leaves the longest fitting suffix |
| ReadCache.AcceptedEntrySurvives | services/incidents/read_cache.py:56-71 | the entry just set always survives, as the most recent |
| ReadCache.CacheIsASubmap | services/incidents/read_cache.py:36-91 | over any sequence of calls the cache stays within its limits with one entry per key, each the last accepted value of an unbounded map |
| ReadCache.GetReturnsTheLiveValue | services/incidents/read_cache.py:36-47 | a returned payload is the last accepted one of its key since the last clear, and has not expired |
| CacheRecency.EntriesAreInOrderOfLastUse | services/incidents/read_cache.py:36-71 | over any sequence of calls the entries are in order of their keys' last use: the last accepted `set`, or the last `get` that found the entry live |
| CacheRecency.EvictionDropsTheLeastRecent | services/incidents/read_cache.py:64-71 | an entry a `set` makes room with was last used before every entry it keeps |
| CacheRecency.SetDropsOnlyWhatItMust | services/incidents/read_cache.py:49-71 | an accepted `set` puts its entry last and drops the oldest only while there are too many entries or too many bytes |
| CacheRecency.RunStaysWithinLimits | services/incidents/read_cache.py:66-71 | over any sequence of calls the entries and their bytes stay within the limits |
| CacheRecency.GetHitsIff | services/incidents/read_cache.py:36-47 | `get` answers exactly when an entry of the key that has not expired is held, and with its payload |
| CacheRecency.GetKeepsTheRest | services/incidents/read_cache.py:36-47 | `get` drops an expired entry of its key and nothing else, and puts a live one last |
| CacheRecency.StatsDropsExpired | services/incidents/read_cache.py:78-91 | `stats` drops exactly the expired entries |
| CachedReads.AnswersAreFresh | services/incidents/router.py:75-101 | a reader that starts after a write has returned is answered from a table version that includes it, for any number of interleaved readers and writers |
| CachedReads.QuietCacheIsExact | services/incidents/service.py:82-84 | whenever no writer is between its write and its clear, every cached payload equals a fresh computation |
| CachedReads.CachedPayloadMissesOnlyPendingWrites | services/incidents/service.py:147-151 | at any time a cached payload misses at most writes that have not returned |
| CachedReads.AReaderIsServedFromTheCache | services/incidents/router.py:75-101 | a run, for any table contents and any response that fits, in which a reader that starts after a write has returned is answered from the cache with the response of that write |
| CachedReads.BehaviourKeepsInvariant | services/incidents/router.py:75-101 | the freshness invariant holds in every state of every interleaving |
| CachedReads.CacheIsOfItsCalls | services/incidents/read_cache.py:36-91 | in every interleaving the cache is what the calls made so far leave one after another, so the laws of such runs hold of it, and the history is every content written |
| CachedReads.UndisturbedRequestAnswers | services/incidents/router.py:75-101 | a request nothing comes between is answered with a live entry's payload when one is held, and otherwise with the response of the present table, which it offers to the cache under the present generation |
| CachedReads.LookUpAnswersIff | services/incidents/router.py:75-87 | a lookup is answered at once exactly when a live entry of its key is held, with its payload |
| Incidents.ListIsNewestFirst | services/incidents/service.py:87-110 | the list holds each matching incident as often as the table, newest first, table order among equals |
| Incidents.FiltersCombine | services/incidents/service.py:101-108 | the optional filters combine with AND |
| Incidents.Summarize | services/incidents/service.py:155-180 | one pass of counters gives the tally of every allowed value |
| Incidents.SummaryAgreesWithTheList | services/incidents/service.py:155-180 | the total is the number of incidents, and each bucket by status, category, origin and branch is the length of the list filtered by that value |
| Incidents.StatusBucketsAddUp | services/incidents/service.py:168-175 | the status buckets add up to the total |
| Incidents.CacheKeysIdentifyQueries | services/incidents/router.py:68-93 | two requests share a cache key only when they ask the same |
| Incidents.IncidentApi.CreateIncident | services/incidents/service.py:59-84 | adds the row, then clears the cache |
| Incidents.IncidentApi.UpdateStatus | services/incidents/service.py:129-152 | open moves to in progress or discarded and in progress to resolved or discarded; only the status and the time of that incident change and the cache is cleared; an unknown id or any other move changes neither |
| Incidents.IncidentApi.Read | services/incidents/router.py:60-101 | a cached read answers exactly what an uncached one would |
| JobRuns.JobRunner.SweepAbandoned | services/job_runner/service.py:181-197 | fails exactly the job's stale active rows and returns how many |
| JobRuns.JobRunner.CreateJobRun | services/job_runner/service.py:122-141 | claims a pending row exactly when the job has no active one |
| JobRuns.JobRunner.MarkProcessing | services/job_runner/service.py:159-161 | pending to processing, and nothing else |
| JobRuns.JobRunner.MarkCompleted | services/job_runner/service.py:164-166 | processing to completed, and nothing else |
| JobRuns.JobRunner.MarkFailed | services/job_runner/service.py:169-178 | an active row to failed with its error, and nothing else |
| JobRuns.JobRunner.PerformClaimed | services/job_runner/service.py:292-314 | a claimed row ends completed when the work returns and failed with its error when it raises |
| JobRuns.JobRunner.RunJob | services/job_runner/service.py:254-314 | one execution with the table to itself: swept, then aborted, skipped, completed or failed |
| JobLaws.RunFollowsTheRows | services/job_runner/service.py:254-314 | rows of the job older than the limit and active are failed as abandoned; then a younger active row aborts, a completed row of the date skips, and otherwise exactly one row is added, completed or failed with its error (cut at 2000 characters, never empty) |
| JobLaws.TransitionsMoveOneRow | services/job_runner/service.py:144-178 | pending goes to processing, processing to completed, either to failed; each stamps its time on that row alone, and nothing else moves |
| JobExecutions.OneActiveRowPerJob | services/job_runner/models.py:63-86 | in every state of every interleaving a job has at most one active row and every row meets the table's checks |
| JobExecutions.FinalRowsNeverChange | services/job_runner/service.py:144-178 | completed and failed rows never change again |
| JobExecutions.OverlapMeansSwept | services/job_runner/service.py:254-314 | two calls of `work` for a job overlap only if the earlier execution's row was swept for its age, whatever age each execution sweeps at |
| JobExecutions.SweptNeverCompletes | services/job_runner/service.py:181-197 | a swept row stays failed and its execution never finishes |
| JobExecutions.FinishedMeansCompleted | services/job_runner/service.py:292-314 | an execution reports completion only with its own row completed |
| JobExecutions.LateCheckNeverWorks | services/job_runner/service.py:217-230 | once a date has completed, an execution that has not yet made its completed-check never claims a row and never works |
| JobRefinement.UndisturbedRunsAlone | services/job_runner/service.py:254-314 | the interleaved steps refine `run_job`: an execution none of whose steps is disturbed ends with exactly the rows and the answer of `run_job` with the table to itself, and touches nothing else |
| JobRefinement.BeatenGivesUpIff | services/job_runner/service.py:136-141 | an execution whose insert was refused is cancelled when a row still holds the job, and raises otherwise |
| JobCompletions.CompletesAgainIff | services/job_runner/service.py:277-314 | after a completion for its date an execution can still complete it, in some continuation, if and only if it was past its completed-check and has no row yet, still holds an active one, or has finished |
| JobExecutions.ADateCanCompleteTwice | services/job_runner/service.py:277-283 | two executions past their checks can both complete one date, one after the other |
| JobExecutions.BehaviourKeepsInvariant | services/job_runner/service.py:254-314 | the ownership invariant holds in every state of every interleaving, lost answers and killed processes included |
| TelemetryQueue.TelemetryService.Track | uis/backoffice/services/telemetry-service.ts:123-154 | rejects, drops or queues the event, starting a flush at the threshold |
| TelemetryQueue.TelemetryService.StartFlush | uis/backoffice/services/telemetry-service.ts:157-166 | takes the front of the queue as the batch, or only reports drops when there is nothing to send |
| TelemetryQueue.TelemetryService.ResumeFlush | uis/backoffice/services/telemetry-service.ts:166-179 | removes the batch sent or given up, records a failed batch, goes on or ends with a drop report |
| TelemetryQueue.TelemetryService.FlushOnHide | uis/backoffice/services/telemetry-service.ts:182-200 | sends batches until the browser takes no more |
| TelemetryQueue.TelemetryService.SendWithRetry | uis/backoffice/services/telemetry-service.ts:226-257 | at most four attempts, each but the last answered with a retry or nothing; it stops early only at an acceptance or a refusal, and delivers exactly when the last answer is an acceptance |
| TelemetryQueue.TelemetryService.ReportDrops | uis/backoffice/services/telemetry-service.ts:264-291 | one report per reason while there is room; cut short, it keeps every count |
| TelemetryQueue.TrackQueuesOrDrops | uis/backoffice/services/telemetry-service.ts:123-154 | a valid call joins the end of a queue under 500 and, once twenty wait, starts a flush of the first hundred; an invalid one or one into a full queue is counted once under its own reason and changes nothing else |
| TelemetryQueue.WithoutFetchEventsWait | uis/backoffice/services/telemetry-service.ts:157-161 | without fetch a call is queued or counted the same way and no flush starts |
| TelemetryDelivery.EveryCallIsAccountedFor | uis/backoffice/services/telemetry-service.ts:123-200 | in every run, hides during a flush included, the queue never exceeds 500, the batch in flight is its prefix unless a beacon took it, and every `track` call is in exactly one place |
| TelemetryDelivery.DropsAreAccountedForIff | uis/backoffice/services/telemetry-service.ts:259-291 | drops announced or pending are never fewer than the drops, and equal them if and only if no report was cut short by a full queue and no batch was given up with fewer events left to remove than it held |
| TelemetryDelivery.AReportCanBeCutShort | uis/backoffice/services/telemetry-service.ts:273-288 | a run in which a drop report is cut short |
| TelemetryDelivery.BatchesAreSentAtMostFourTimes | uis/backoffice/services/telemetry-service.ts:226-257 | in every run a batch is sent at most four times, every time but the last answered with a retry or nothing, and its flush resumes as accepted exactly when the last attempt was, or as given up at a refusal or after the fourth |
| TelemetryDelivery.DeliveredIsStoredOnce | services/telemetry/service.py:125-153 | with any lost responses and retries a delivered event the server can store is in its table exactly once, and nothing else of this client is |
| TelemetryLosses.DisplacedIff | uis/backoffice/services/telemetry-service.ts:166-200 | the batch in flight is no longer the front of the queue if and only if a beacon was taken since the flush took it |
| TelemetryLosses.FlushLosesIff | uis/backoffice/services/telemetry-service.ts:166-200 | a resuming flush takes events off the queue that nobody sent or counted if and only if its batch was accepted, a beacon was taken since that batch was, and the queue is not empty |
| TelemetryLosses.RunLosesIff | uis/backoffice/services/telemetry-service.ts:123-200 | some queued event is gone although no attempt or beacon ever sent it and it is not counted as dropped, if and only if in the run some accepted batch was displaced with events left to remove |
| TelemetryLosses.DisplacedBatchTakesOthers | uis/backoffice/services/telemetry-service.ts:166-179 | the events removed in place of a displaced batch are others: counted as `transport_failed` when it is given up, lost when it is accepted, none when serialising threw |
| TelemetryLosses.LostWasNeverSent | uis/backoffice/services/telemetry-service.ts:166-200 | a lost event was in no batch that was sent, was taken by no beacon, and is not queued |
| TelemetryLosses.AHideCanLoseAnEvent | uis/backoffice/services/telemetry-service.ts:182-200 | a run in which the second call's event is lost and no drop is recorded |
| TelemetryDelivery.BehaviourKeepsInvariant | uis/backoffice/services/telemetry-service.ts:123-291 | the invariant behind these results holds in every state |
| TelemetryDelivery.IngestStoresTheBatch | services/telemetry/service.py:156-176 | a batch that reaches the server leaves exactly one row for each of its storable items |
| TelemetryIngest.FitsIffEveryAtomDoes | services/telemetry/service.py:67-81 | a value is storable exactly when no number inside is infinite or NaN and no text inside, keys included, holds NUL |
| TelemetryIngest.ValidateEvents | services/telemetry/service.py:101-122 | splits the batch into accepted events and counted reasons, every element in one of them |
| TelemetryIngest.AcceptedIff | services/telemetry/service.py:101-122 | an event is accepted exactly when it is the first storable one of its id |
| TelemetryIngest.AcceptedIdsDiffer | services/telemetry/service.py:105-120 | no id is accepted twice |
| TelemetryIngest.RejectionsCountRefusals | services/telemetry/service.py:101-122 | each reason is counted once for every element refused for it: what its model found, else a bad value, else an earlier storable event of its id |
| TelemetryIngest.NewRowsCarryTheirEvents | services/telemetry/service.py:35-64 | a row is new exactly when it carries the id, the type and the payload of the first storable event of an id the table does not hold |
| TelemetryIngest.StoredHolds | services/telemetry/service.py:125-153 | storing only adds rows, keeps ids unique and leaves a row for every event of the batch |
| TelemetryIngest.RetryStoresNothing | services/telemetry/service.py:125-153 | sending a stored batch again, after anything else, adds nothing |
| TelemetryIngest.IngestService.StoreEvents | services/telemetry/service.py:125-153 | all new rows are stored or none, and the number of new ones is returned |
| TelemetryIngest.IngestService.Ingest | services/telemetry/service.py:156-176 | received = stored + rejected, and the table holds the accepted events |
| Inventory.GroupedStockAgrees | services/inventory/service.py:22-48 | the grouped outer-join stock is inbound minus outbound for every product, with or without orders |
| Inventory.RecordKeepsStock | services/inventory/service.py:121-153 | an accepted movement keeps every product's stock non-negative |
| Inventory.MovementMoves | services/inventory/service.py:121-153 | a movement is refused exactly for an unknown product or when it would ship more than is there; otherwise its product's stock changes by its quantity and no other does |
| Inventory.InventorySession.RecordOrder | services/inventory/service.py:121-153 | records a movement inside a transaction, or answers no transaction, unknown product or insufficient stock |
| Inventory.InventorySession.CreateOrder | services/inventory/service.py:111-118 | one movement in its own transaction, nothing kept when refused |
| InventoryTransactions.StockIsNeverNegative | services/inventory/service.py:121-153 | in every interleaving of locked transactions no stock is negative, committed or as any open transaction sees it, and the grouped query shows it |
| InventoryTransactions.StepKeepsInvariant | services/inventory/service.py:131-148 | every step keeps the invariant: what a transaction read under its lock stays true until it ends |
| InventoryTransactions.CommitIsInvisibleUnderLock | services/inventory/service.py:131-137 | another transaction's commit does not change the sums of a locked product |
| InventorySerial.InterleavingIsSerial | services/inventory/service.py:111-153 | serializability: in every interleaving the committed tables are those of running each transaction alone when it commits, every movement checked against the stock at that moment and none refused |
| InventorySerial.LocksAreHeldByOpenTransactions | services/inventory/service.py:111-134 | in every interleaving a product lock is held only by a transaction that is still open |
| InventorySerial.InsertAddsOneOrder | services/inventory/service.py:144-148 | an insert adds its one order to its transaction and changes nothing else |
| InventorySerial.GoodsArriveAndShip | services/inventory/service.py:121-153 | a run, for any product and quantities, in which goods arrive and part of them ships in one committed transaction |
| InventorySerial.CheckRefusesIff | services/inventory/service.py:137-144 | a check refuses exactly an order for more than the committed and the transaction's own orders leave, although it reads them at different moments |
| Percentile.WeightedPercentileHolds | services/telemetry/analysis.py:141-146 | the weighted percentile is the least measured duration that, with all faster calls, reaches the share |
| Percentile.WeightedIsNearestRank | services/telemetry/analysis.py:141-146 | with whole weights it is the nearest-rank percentile of the list with each call repeated `weight` times |
| Percentile.PercentileIgnoresOrder | services/telemetry/analysis.py:141-146 | it does not depend on the order of the calls |
| Percentile.PercentileGrows | services/telemetry/analysis.py:282-284 | it grows with q and is a measured duration, so p50 <= p95 <= max |
| DayGrid.DaysCoverTheWindow | services/telemetry/analysis.py:129-132 | the days are exactly those on which some moment of the window falls, each once |
| DayGrid.RowsCountEveryEvent | services/telemetry/analysis.py:156-179 | the rows of `events_per_day` count every event of the window once |
| DayGrid.OnlyTheEndsArePartial | services/telemetry/analysis.py:178 | only the first and last day can be partial |
| DayGrid.ErrorRowsCountEveryError | services/telemetry/analysis.py:201-242 | every error of the window is counted in exactly one day and class, catalogued or not |
| DayGrid.RowCountsItsDay | services/telemetry/analysis.py:156-179 | each row counts the window's events of its day, and is partial exactly when some moment of the day is outside the window |
| DayGrid.ErrorRowsAreTheCells | services/telemetry/analysis.py:201-242 | each day of the window has one row for each of the six catalogued classes and each class an error carries (`unclassified` for none), with that day's errors of the class |
| DayGrid.GridFollowsTheCalendar | services/telemetry/analysis.py:96-132 | an empty window is refused, and the days follow each other |
| ResetHistory.LinkWorksIff | services/auth/service.py:105-166 | a reset link works exactly until it expires and while, since its issue, no route set the account's password, changed its address, deactivated or deleted it |
| ResetHistory.LinkWorksOnce | services/auth/service.py:105-146 | a link succeeds at most once |
| ResetHistory.DisturbanceKills | services/users/router.py:66-80 | any such change ends every link of the account for good |
| ResetHistory.UndisturbedStaysAlive | services/users/router.py:66-80 | nothing else ends a link before it expires |
| ResetHistory.PurgingIsInvisible | services/auth/service.py:49-57 | taking every purge out of a sequence of requests leaves every answer as it was |
| ResetTokens.AuthService.PurgeExpired | services/auth/service.py:49-57 | removes exactly the entries whose second has passed |
| ResetTokens.AuthService.InvalidateOutstanding | services/auth/service.py:60-72 | spends every unused token of the user and touches no other entry |
| ResetTokens.AuthService.RequestPasswordReset | services/auth/service.py:75-102 | issues a registered token for an active account, nothing otherwise |
| ResetTokens.AuthService.ResetPassword | services/auth/service.py:105-146 | refuses for the first reason that applies, or sets the password and spends the account's tokens |
| ResetTokens.AuthService.ChangePassword | services/auth/service.py:149-166 | with the current password proven, sets the new one and spends the account's tokens |
| ResetTokens.AuthService.UpdateUser | services/users/router.py:117-155 | applies an allowed edit and spends the account's tokens when it must |
| ResetTokens.AuthService.DeleteUser | services/users/router.py:158-166 | removes the account, for itself or an admin |
| ResetLaws.LinkIsRefusedForTheFirstReason | services/auth/service.py:105-146 | a link is refused for the first reason that applies, and redeems its own account when none does |
| ResetLaws.RedeemingSetsThePassword | services/auth/service.py:132-146 | a redeemed link sets the password asked for on its account alone, and spends every link of that account |
| ResetLaws.ChangingSetsThePassword | services/auth/service.py:149-166 | a signed-in caller who proves the current password sets the new one on that account alone and spends its links |
| ResetLaws.ForgetfulRequests | services/auth/service.py:75-102 | a link is issued exactly for the active account of the address, unspent, for its lifetime |
| ResetLaws.EditsAreRefusedInOrder | services/users/router.py:117-149 | only the account itself or an admin edits it, only an admin sets a role or an activation, changing one's own address or password takes the current one, and the address must be free; an accepted edit changes its account alone |
| ResetLaws.EditingSpendsWhenItMust | services/users/router.py:66-80 | an accepted edit spends the account's links exactly when it sets a password, changes the address or deactivates it |
| ResetLaws.DeletingRemovesOne | services/users/router.py:160-166 | deleting takes the account itself or an admin and removes that account alone |
| ResetLaws.RegisteringAddsAMember | services/users/router.py:84-97 | registering takes a free address and adds an active member |

## Left out

- RollupValidation.Validate: does not model a wrong column set, a missing date, a missing count or a fractional count, because the model's types rule them out.
- RollupValidation.RateIsNearest: rounds the exact quotient half to even; the source rounds a floating quotient, which can differ where a quotient falls on a tie that a float cannot hold.
- RollupEvents.ExclusionReasons: reads a quantity's digits as ASCII and strips ASCII blanks; the source's regular expression and strip also accept other Unicode digits and blanks.
- RollupTheorems.RollupIgnoresOrder: compares exclusions as multisets, because their order follows the events.
- CollectionHealth.QualityIsOkIff: compares counts and orders as whole numbers instead of floating ratios; the reported minimum coverage, the lag, gap, burst and skew statistics and the sorting of the stats rows are not modelled.
- Percentile.WeightedPercentileHolds: as `WeightedIsNearestRank`, for whole weights of a common unit.
- Percentile.WeightedIsNearestRank: weights are whole numbers of a common unit and q a fraction, so floating sums are not modelled; grouping by route is taken one group at a time.
- Publication.ReadersSeeTheNewestSnapshot: reads of the report's API, the advisory locks (each transaction is one step) and the run's quality columns are not modelled.
- WeeklyFlow.RunStages: the health check and the eval snapshot, which cannot fail a run, are not among the stages.
- WeeklyRun.Attempt: what the source answers for given weeks and cutoff is a function the caller passes; no other transaction comes between the attempt's own, which `Publication` covers; exceptions from outside the code are those of reading and of a run that is no longer running.
- PublicationExact.ReadersAreAlwaysRightIff: says nothing of runs in which a load strays into a week it has no record of, which may show readers nothing wrong; from right to left `ReadersSeeTheNewestSnapshot` covers every run.
- WeeklyLoad.RevisedWeeksAreTheChangedOnes: the revised weeks are a set; the source stores them as a sorted list.
- WeeklyPublish.LoadWeeklyRows: the collection stats and exclusions written beside the rows, and the columns the run row copies from the flow (trigger, code version, watermark), are not modelled.
- ReadCache.IncidentReadCache.Get: takes the moment as an argument; the source reads the clock just before it takes the lock.
- Incidents.IncidentApi.UpdateStatus: one request at a time; between its check and its write another request can change the row. Rows that no longer fit the model are not part of the table.
- TelemetryQueue.TelemetryService.ReportDrops: the reported window in seconds, the envelope fields and the interval timer's start are not modelled.
- TelemetryIngest.IngestService.StoreEvents: the tags column is not modelled, and a count the storage service omits is taken as known.
- DayGrid.RowsCountEveryEvent: the columns of distinct sessions and event types are not modelled.
- DayGrid.ErrorRowsCountEveryError: the request counts and error rates beside the error counts are not modelled.
- ResetHistory.LinkWorksIff: two resets of one account at the same time are not modelled, because the check and the write are separate steps.
- ResetTokens.AuthService.UpdateUser: an edit that names a restricted field with no value counts as not naming it; addresses are already normalised.
- The stages of the flow as Prefect tasks, their caching, the eval snapshot and the fallback log file.
- Extraction queries other than the bounds of the event read.
- HTTP routing, request models, React components, email, signatures, password hashing and the schema's data definition.
- Latency means, shares of event types and the estimated request counts of the technical report: single chains of floating arithmetic.
- Product creation and listing, order listing, incident lookup by id, and user listing: each is one query or one insert.

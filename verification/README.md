# Verification of the stateful core

This Dafny project models the protocols and algorithms of the backend that hold state over many
steps, and proves what each of them promises over whole runs. `dafny verify dfyconfig.toml`
checks everything.

| file | what it models |
|---|---|
| `MigrationEngine.dfy`, `MigrationBaseline.dfy`, `CatalogDrift.dfy`, `Sorting.dfy`, `MigrationOutcome.dfy`, `DriftCounts.dfy` | the migration ledger, the two searches for a legacy baseline, and the catalog comparison they rest on |
| `MarketHistory.dfy`, `IndexMembership.dfy`, `IndexLevel.dfy`, `IndexEngine.dfy`, `IndexOutcome.dfy` | point-in-time market reads, effective-dated index membership, weights and levels |
| `IngestPipeline.dfy`, `IngestStatus.dfy`, `OutboxPublishing.dfy`, `IngestOutcome.dfy` | outbox, at-least-once queue, transactional normalize worker and status table, statement by statement; what statuses, observations and published rows mean over any run |
| `KernelRegistry.dfy`, `Normalizer.dfy`, `Text.dfy`, `IdentifierWords.dfy` | identifier normalization, canonical keys, entity resolution; which texts normalize alike |
| `SlidingWindow.dfy`, `VerificationResend.dfy`, `LimiterOutcome.dfy`, `ResendOutcome.dfy` | the pruned-bucket limiters and the resend flow that consumes two keys |
| `WorkerSchedule.dfy`, `ScheduledWorker.dfy`, `CycleOutcome.dfy` | slot arithmetic, the batch executor, its timer loop |
| `StripeBilling.dfy`, `StripeOverlap.dfy`, `StripeOutcome.dfy` | claim, stale check and patch of Stripe events; deliveries whose transactions overlap |
| `QueueFailure.dfy`, `FailureOutcome.dfy` | grouping of retained failures and the snapshot validator |
| `Money.dfy` | the money canonicalizer on strings |

Code that changes state step by step is a class or a method with loops, proved equal to a
specification function of its inputs and its old state; the properties are lemmas about that
function and about runs of it. Pure code is functions and lemmas. The files named `…Outcome.dfy`, with
`IdentifierWords.dfy` and `DriftCounts.dfy`, say when each operation gives which answer and what it
leaves behind, on the fields of its inputs alone and without the specification functions. Where the
database, the queue, the clock or a handler can answer in several ways, the answer is a parameter, and
the lemmas hold for all answers.

Several promises turned out to hold only under a condition. Each has a lemma giving the condition in
both directions or a lemma with an input that breaks it:

- A rebalance fails exactly when a current open member that joined at its very date no longer
  qualifies, since the table admits no end at or before a start; with dates that do not decrease it
  makes the members the qualified printings exactly when it succeeds (`RebalanceReachesQualified`,
  `ForwardRebalanceReaches`). For rules on ungraded prices this cannot happen, and every rebalance
  succeeds (`UngradedRebalancesSucceed`); for psa10 it can (`SameDateLeaveIsRefused`).
- Over rebalances in any order of dates the intervals of a printing stay disjoint exactly when every
  rebalance that is not refused meets no newcomer with a row starting after its date
  (`RebalanceStaysDisjoint`, `DisjointRuns`); a later date rebalanced first breaks it
  (`EarlierRebalanceOverlaps`).
- A level lies between the extreme price relatives exactly when some priced weight is positive or the
  range contains 100 (`LevelBetweenExtremes`); a store in which it does not is reached when the only
  priced member had no sale in the window (`WeightlessLevelIgnoresPrices`). Stored weights need not sum
  to 1 (`StoredWeightsDrift`).
- A status update reads the status, lets the table judge it, and writes without looking again. Statuses
  only move forward exactly when no write meets a final status other than the one it writes
  (`StatusOnlyMovesForward`, `OnlyFinalStatusesAreLost`). An event is processed exactly when it is
  observed and its status has not been lost since (`ProcessedIffObservedOnce`). The ordinary publish can
  lose it (`LateQueuedLosesProcessed`), and so can a failure mark (`LateFailedLosesProcessed`); a worker
  can make a failed event processed (`LateCommitRevivesFailed`). What holds in every run is that no event
  is observed twice or left in `processing` (`ObservedAtMostOnce`).
- A published outbox row was never queued exactly when the scheduled worker's close of that row took
  effect and no publisher that had read it reached the queue (`PublishedMeansQueued`,
  `ClosedWithoutQueue`). The twentieth failing publish turns a published row to failed
  (`TwentiethFailureUnpublishes`).
- The partition of events into entities does not depend on their order, but the id and type of an
  entity do (`FirstItemNamesTheEntity`).
- A limiter whose clock steps back can overfill a window (`SteppingBackOverfills`).
- The batch loop claims the next job beside a timed-out one exactly when closing that one throws, the
  second close returns, and the next turn offers a job in time (`ClaimedBesideTimeout`,
  `TimeoutCanResume`).
- When the transactions of Stripe events overlap, the applied events of a tenant stay in order of
  creation exactly when every write still fits what is stored by then, and then the newest patch is
  stored (`OverlapsInOrder`, `FittingOverlapsStoreNewest`); two overlapping deliveries can store the older
  one (`OverlapStoresOlder`).
- A Stripe event whose transaction fails after its claim, or whose customer has no tenant yet, is never
  applied (`UnappliedEventIsSpent`).
- A failure snapshot passes its validator exactly when no sampled time is past year 9999
  (`InspectionsPass`).
- Two money texts of equal value give one output, except for the sign of a zero (`OutputsAreCanonical`).

## Model

| member | source | states |
|---|---|---|
| `CatalogDrift.GroupRows` | packages/db/src/migration-drift.ts:61-68 | the insertion-ordered groups hold, under each key that occurs and no other, that key's rows in order, each key once |
| `CatalogDrift.SerializationsDecide` | packages/db/src/migration-drift.ts:83 | comparing sorted serialized rows decides equality as multisets, for an injective serialization |
| `CatalogDrift.PassOverExpected` | packages/db/src/migration-drift.ts:77-92 | the counters and the notes are those of the keys visited: one note per key with missing or changed rows, in order of the keys |
| `CatalogDrift.PassOverActual` | packages/db/src/migration-drift.ts:93-103 | the same for rows whose key was not expected: one note per such key, in order |
| `CatalogDrift.NoteDifferences` | packages/db/src/migration-drift.ts:73-103 | through grouped keys it computes the row-level counts; it makes one note, true of the rows, for each key that differs, so none exactly when both sides are the same multiset |
| `CatalogDrift.CompareGroup` | packages/db/src/migration-drift.ts:72-104 | per catalog group: exact counts of missing and unexpected rows and changed keys; one true example per differing key, distinct, up to five, and truncated exactly beyond |
| `CatalogDrift.CompareGroups` | packages/db/src/migration-drift.ts:70-105 | exactly the groups that differ are listed, in order, each with its exact counts, and their sum is the count |
| `CatalogDrift.CompareCatalogs` | packages/db/src/migration-drift.ts:69-107 | the difference count is the row-level reference count and the sum of the listed groups, whose counts are exact; it is 0 exactly when the catalogs are equal |
| `CatalogDrift.GroupDifferenceZero` | packages/db/src/migration-drift.ts:76-104 | one group differs by nothing exactly when its rows are equal as multisets |
| `CatalogDrift.ZeroDifferenceIsSameCatalog` | packages/db/src/migration-drift.ts:69-107 | count 0 if and only if every catalog group is equal as a multiset of rows |
| `CatalogDrift.DifferenceIsSymmetric` | packages/db/src/migration-drift.ts:69-107 | swapping the snapshots keeps the count |
| `CatalogDrift.DiagnosisIsNearest` | packages/db/src/migration-drift.ts:108-116 | candidates are listed by their difference counts, nearest first, at most three; the comparison is against the first, which none has a smaller count than, later names first among equals; it fails only without candidates |
| `DriftCounts.SameThing` | packages/db/src/migration-drift.ts:4-12 | two rows of a catalog group share a key exactly when they agree in schema, name and the group's own field |
| `DriftCounts.GroupCounts` | packages/db/src/migration-drift.ts:73-104 | a group counts the rows on either side whose key the other side lacks, and the keys of both sides whose rows occur unevenly |
| `DriftCounts.CountAddsUp` | packages/db/src/migration-drift.ts:69-107 | the reported count adds up these three numbers over the seven groups |
| `MigrationEngine.Target.CheckHistory` | packages/db/src/migration-engine.ts:54-58 | accepts exactly a ledger that agrees, name and checksum, with a leading part of the checkout |
| `MigrationEngine.Target.SearchNewest` | packages/db/src/migration-engine.ts:72-85 | the descending loop returns the specified newest accepted prefix or the first verification failure above it |
| `MigrationEngine.Target.ChooseLegacyPrefix` | packages/db/src/migration-engine.ts:65-94 | which prefix of an unledgered database is adopted, and every refusal |
| `MigrationEngine.Target.Prepare` | packages/db/src/migration-engine.ts:32-104 | everything decided before the first write, with its error in the order of the checks; `MigrationOutcome` says when each occurs |
| `MigrationEngine.Target.RecordBaseline` | packages/db/src/migration-engine.ts:129-131 | the ledger gains exactly the adopted files, marked as baseline |
| `MigrationEngine.Target.ApplyPending` | packages/db/src/migration-engine.ts:132-136 | executes and records the pending files in order, succeeding exactly when every one of them executes |
| `MigrationEngine.Target.MigrateOnConnection` | packages/db/src/migration-engine.ts:31-138 | a run's report, schema, ledger and execution log, or its error, as the specification; `FreshRun`, `LedgeredRun`, `AdoptingRun` and `DetectingRun` say when it succeeds and what it leaves |
| `MigrationEngine.Target.RunInTransaction` | packages/db/src/migration-engine.ts:31-138 | a failing run leaves schema, ledger and log as they were |
| `MigrationEngine.NewestIsLongest` | packages/db/src/migration-engine.ts:75-84 | the search returns the longest accepted prefix: all longer ones were rejected; an error means one failed |
| `MigrationEngine.AdoptionNeedsAcceptance` | packages/db/src/migration-engine.ts:86-94 | a run that writes adopts only a confirmed prefix that the verifier accepted, on an unledgered database with tables |
| `MigrationEngine.ExistingSchemaIsNotReplayed` | packages/db/src/migration-engine.ts:60-104 | a database with tables and no ledger never has SQL of an adopted prefix executed, and is never treated as empty |
| `MigrationEngine.PlanPartitionsFiles` | packages/db/src/migration-engine.ts:104 | recorded, baseline and pending always make up the ordered list |
| `MigrationEngine.SuccessRecordsEverything` | packages/db/src/migration-engine.ts:125-137 | a successful run leaves the ledger equal to all files, grown at its end, with the executed rows matching the log |
| `MigrationEngine.LedgerOnlyGrows` | packages/db/src/migration-engine.ts:54-137 | over any sequence of runs, plans and failures included, nothing recorded or executed is taken back |
| `MigrationEngine.NothingRunsTwice` | packages/db/src/migration-engine.ts:54-137 | over any sequence of runs no migration is executed twice or out of order |
| `MigrationEngine.AdoptedFilesStayUnexecuted` | packages/db/src/migration-engine.ts:129-134 | a file recorded as baseline is executed by no later run |
| `MigrationEngine.GrowingCheckoutsNeverDrift` | packages/db/src/migration-engine.ts:54-58 | with file lists that only grow at the end the ledger is always a matching prefix and no run fails over history |
| `MigrationEngine.RunsRefineOneReplay` | packages/db/src/migration-engine.ts:132-136 | many incremental runs leave the schema that executing the log from scratch builds |
| `MigrationOutcome.NamesFollowPattern` | packages/db/src/migration-engine.ts:39-42 | accepted names are exactly four digits, an underscore, a title of letters, digits, underscores and hyphens, and the ending |
| `MigrationOutcome.GoodNamesOfFiles` | packages/db/src/migration-engine.ts:38-42 | the check passes exactly when every name follows the pattern and there are as many versions as files, in whatever order they are listed |
| `MigrationOutcome.OrderedByVersion` | packages/db/src/migration-engine.ts:38 | the ordered list holds the files of the checkout, each once, by increasing version number |
| `MigrationOutcome.AppliedOneByOne` | packages/db/src/migration-engine.ts:132-136 | files apply exactly when each executes on what the one before left |
| `MigrationOutcome.FreshRun` | packages/db/src/migration-engine.ts:31-138 | without ledger and tables a run succeeds exactly when the names are good, no baseline is asked for and every file executes; then all are executed and recorded; a plan reports the same and writes nothing; a failing run changes nothing |
| `MigrationOutcome.LedgeredRun` | packages/db/src/migration-engine.ts:31-138 | with a ledger it succeeds exactly when name and checksum of its rows agree with the files, no baseline is asked for and the files after them execute; then exactly those are executed and recorded |
| `MigrationOutcome.AdoptingRun` | packages/db/src/migration-engine.ts:86-138 | with tables and no ledger it succeeds exactly when the caller confirms a named file up to which the verifier accepts the schema and the files after it execute; then the ones up to it are recorded and the others executed |
| `MigrationOutcome.DetectingRun` | packages/db/src/migration-engine.ts:32-85 | a detection on tables without a ledger succeeds exactly as a plan without adoption arguments that finds a length, given by the inspection or the longest accepted prefix |
| `MigrationOutcome.CheckErrors` | packages/db/src/migration-engine.ts:32-58 | the errors of arguments, names and history, each exactly when it is reported |
| `MigrationOutcome.LedgerErrors` | packages/db/src/migration-engine.ts:95-136 | past those, on a ledger or without tables: each error exactly when it is reported |
| `MigrationOutcome.DetectionErrors` | packages/db/src/migration-engine.ts:65-85 | each error of a detection on tables without a ledger, exactly when it is reported |
| `MigrationOutcome.AdoptionErrors` | packages/db/src/migration-engine.ts:86-94 | each error of an adoption, exactly when it is reported |
| `MigrationOutcome.RunsCatchUp` | packages/db/src/migration-engine.ts:31-138 | from a fresh database through any runs: a writing run that succeeds leaves a ledger of exactly its files |
| `MigrationBaseline.VerifyLegacyBaseline` | packages/db/src/migration-baseline.ts:48-68 | accepts exactly when the files execute in isolation and build the same catalog |
| `MigrationBaseline.ScanPrefixes` | packages/db/src/migration-baseline.ts:79-88 | one pass finds the last exact match and measures every prefix |
| `MigrationBaseline.DetectLegacyBaseline` | packages/db/src/migration-baseline.ts:71-94 | returns the longest exactly matching prefix; without one the diagnosis names a nearest prefix |
| `MigrationBaseline.LastMatchIsLongest` | packages/db/src/migration-baseline.ts:86 | the last match is the longest matching prefix |
| `MigrationBaseline.SearchesAgree` | packages/db/src/migration-baseline.ts:79-89 | the forward scan and the engine's descending search find the same prefix, or fail on the same failing file |
| `MigrationBaseline.DetectionRoutesAgree` | packages/db/src/migration-engine.ts:66-85 | plan-mode detection reports the same through either search |
| `MigrationBaseline.AdoptedSchemaIsReproduced` | packages/db/src/migration-baseline.ts:53-64 | adopting a prefix means the schema is, group by group, what executing that prefix from nothing builds |
| `MarketHistory.LatestIsNewest` | packages/db/src/analytics/index-engine.ts:111-129 | the price row read for a time is eligible and no eligible row is newer |
| `MarketHistory.WindowIsHistoryGained` | packages/db/src/analytics/index-engine.ts:133-165 | the windowed sales count is the history gained over the window, its start excluded, its end included |
| `MarketHistory.ThresholdsDecide` | packages/db/src/analytics/index-engine.ts:223-231 | a printing in scope qualifies exactly when enough history was gained in thirty days and held in all |
| `MarketHistory.PriceIgnoresLater` | packages/db/src/analytics/index-engine.ts:107-131 | a price read for a time does not change with later observations |
| `MarketHistory.QualificationIgnoresLater` | packages/db/src/analytics/index-engine.ts:167-234 | qualification never looks past its own date |
| `MarketHistory.QualifiedOnce` | packages/db/src/analytics/index-engine.ts:189-233 | each printing qualifies at most once, with a non-negative count |
| `IndexOutcome.PriceIsNewest` | packages/db/src/analytics/index-engine.ts:107-131 | a price is read exactly when the newest sale of printing, condition and grade up to the time has one, and it is that one |
| `IndexOutcome.CountsArePositions` | packages/db/src/analytics/index-engine.ts:133-165 | the two counts are the numbers of ungraded sales up to a time and of those in the last thirty days |
| `IndexOutcome.QualifiedExactly` | packages/db/src/analytics/index-engine.ts:167-234 | who qualifies: when a language is named or mixing allowed, exactly the listed printings of the rule's game, language, concept, set, variant and era that have a psa10 price or enough sales; else nobody |
| `IndexOutcome.QualifiedSales` | packages/db/src/analytics/index-engine.ts:210-233 | with the sales of the last thirty days, or 1 under a psa10 rule |
| `IndexMembership.RebalanceKeepsEarlier` | packages/db/src/analytics/index-engine.ts:277-297 | a rebalance, even one cut short, leaves the membership seen at every earlier time as it was |
| `IndexMembership.RebalanceKeepsSound` | packages/db/src/analytics/index-engine.ts:265-299 | a rebalance no earlier than the last keeps every printing's intervals pairwise disjoint |
| `IndexMembership.CloseSucceeds` | packages/db/drizzle/0013_phase13_analytics.sql:98 | the close loop completes exactly when no leaver joined at the rebalance date: an end must lie after its start |
| `IndexMembership.InsertSucceeds` | packages/db/src/schema/analytics.ts:76 | the insert loop completes exactly when no newcomer finds its start taken in the unique index |
| `IndexMembership.InsertsNeverRefused` | packages/db/drizzle/0013_phase13_analytics.sql:98-102 | on rows the table admits, the unique index never refuses an insert of a rebalance, for any date |
| `IndexMembership.RebalanceKeepsRange` | packages/db/drizzle/0013_phase13_analytics.sql:172-205 | a rebalance, complete or cut short, leaves rows whose ends lie after their starts |
| `IndexMembership.MembersAreQualified` | packages/db/src/analytics/index-engine.ts:265-299 | for any rows the table admits and any date: a rebalance succeeds exactly when no leaver joined at that date, and the members are then the qualified printings exactly when no row that already ends later keeps another one in |
| `IndexMembership.RebalanceStaysDisjoint` | packages/db/src/analytics/index-engine.ts:265-299 | from disjoint rows and for any date: the intervals stay disjoint exactly when the rebalance is refused or no newcomer has a row starting after its date |
| `IndexLevel.WeightsSumToOne` | packages/db/src/analytics/index-engine.ts:236-250 | weights sum to 1 exactly when no negative sales enter the proportional method |
| `IndexOutcome.WeightsGoBySales` | packages/db/src/analytics/index-engine.ts:236-250 | any two weights are in proportion to the sales in the proportional method with any sales, and equal otherwise |
| `IndexLevel.WeightsNonNegative` | packages/db/src/analytics/index-engine.ts:236-250 | no weight of a qualified index is negative |
| `IndexLevel.NewcomersStoreShares` | packages/db/src/analytics/index-engine.ts:285-296 | each newcomer is stored from the date on with its share of the new index; those who stay keep their rows |
| `IndexLevel.StoredWeightsDrift` | packages/db/src/analytics/index-engine.ts:293 | two equal members joined by a third store weights adding up to 4/3 |
| `IndexLevel.PricedAreFactors` | packages/db/src/analytics/index-engine.ts:325-346 | priced are exactly the members with both prices in one currency over a positive base, each with its weight and the factor between its prices |
| `IndexLevel.ClampNeverBinds` | packages/db/src/analytics/index-engine.ts:321-329 | clamping to the inception never changes a base date |
| `IndexLevel.QualityByCounts` | packages/db/src/analytics/index-engine.ts:352-361 | complete from four fifths of the members on, insufficient exactly without a priced one |
| `IndexLevel.LevelBetweenExtremes` | packages/db/src/analytics/index-engine.ts:347-353 | the level lies between 100 times the extreme relatives exactly when some weight is positive or 100 is in range |
| `IndexOutcome.ValueBalances` | packages/db/src/analytics/index-engine.ts:347-353 | the value is where the weighted relatives balance, their weighted mean; 100 without weight |
| `IndexOutcome.LevelBalances` | packages/db/src/analytics/index-engine.ts:301-373 | the level of stored rows: members and priced members are the current rows and those with both prices, and at its value the pulls of these rows, weight times distance, cancel |
| `IndexOutcome.ReachableLevelsBalance` | packages/db/src/analytics/index-engine.ts:301-373 | the same in every store a run reaches from an empty index |
| `IndexLevel.LevelIgnoresLater` | packages/db/src/analytics/index-engine.ts:325-346 | later observations change neither base nor current prices of a level |
| `IndexEngine.Engine.SoldPriceAsOf` | packages/db/src/analytics/index-engine.ts:107-131 | returns the specified price |
| `IndexEngine.Engine.QualifyIndexMembers` | packages/db/src/analytics/index-engine.ts:167-234 | the loop returns the specified candidates, or the missing-index error; `QualifiedExactly` and `QualifiedSales` say who they are and with how many sales |
| `IndexEngine.Engine.ListMembershipAsOf` | packages/db/src/analytics/index-engine.ts:252-263 | lists exactly the rows active at a time |
| `IndexEngine.Engine.CloseLeavers` | packages/db/src/analytics/index-engine.ts:277-284 | in the order of starts, closes the current open rows whose printing no longer qualifies, until the table refuses one |
| `IndexEngine.Engine.OpenNewcomers` | packages/db/src/analytics/index-engine.ts:285-297 | opens rows for newcomers until a unique violation |
| `IndexEngine.Engine.RebalanceIndex` | packages/db/src/analytics/index-engine.ts:265-299 | membership and outcome of a rebalance as specified; which error is returned when |
| `IndexEngine.Engine.ComputeIndexLevel` | packages/db/src/analytics/index-engine.ts:301-373 | the level of the stored membership and prices as specified; `LevelBalances` says where it lies |
| `IndexEngine.LevelIsImmutable` | packages/db/src/analytics/index-engine.ts:301-373 | no run of later observations and rebalances changes the level or membership of a time |
| `IndexEngine.RunsKeepSound` | packages/db/src/analytics/index-engine.ts:265-299 | over any run with non-decreasing rebalance dates the intervals stay disjoint |
| `IndexEngine.NeverTwiceAMember` | packages/db/src/analytics/index-engine.ts:265-299 | from an empty index: never two open intervals, never a member twice |
| `IndexEngine.NextRebalanceStaysDisjoint` | packages/db/src/analytics/index-engine.ts:265-299 | the same condition decides the next rebalance after any run that left the intervals disjoint |
| `IndexEngine.DisjointRuns` | packages/db/src/analytics/index-engine.ts:265-299 | over any run, dates in any order: disjoint after every step exactly when every step meets the condition |
| `IndexEngine.EarlierRebalanceOverlaps` | packages/db/src/analytics/index-engine.ts:273-297 | a run from an empty index whose printing qualifies at both dates and ends with two open intervals |
| `MarketHistory.QualificationGrows` | packages/db/drizzle/0008_phase08_tcg_market.sql:182 | snapshots are immutable: what qualifies at a date under a rule on ungraded prices keeps qualifying there, whatever is observed afterwards |
| `IndexEngine.RebalanceReachesQualified` | packages/db/src/analytics/index-engine.ts:265-299 | after any run, dates in any order: a rebalance fails exactly over a leaver that joined at its date, never over the unique index, and when exactly it reaches the qualified set |
| `IndexEngine.ForwardRebalanceReaches` | packages/db/src/analytics/index-engine.ts:265-299 | with dates that do not decrease a rebalance reaches the qualified set exactly when it succeeds |
| `IndexEngine.UngradedRebalancesSucceed` | packages/db/src/analytics/index-engine.ts:223-299 | from an empty index, under any rule but psa10 and with such dates, every rebalance succeeds and makes the members exactly the qualified printings |
| `IndexOutcome.UngradedMembers` | packages/db/src/analytics/index-engine.ts:265-299 | in such runs exactly the printings are members after a rebalance that the rule asks for and that were traded enough |
| `IndexOutcome.NewcomersWeighed` | packages/db/src/analytics/index-engine.ts:285-296 | after a rebalance that completes every newcomer is stored from its date on with its share by the index's own weighting |
| `IndexEngine.SameDateLeaveIsRefused` | packages/db/drizzle/0013_phase13_analytics.sql:172-205 | a run from an empty psa10 index whose next rebalance fails, the unqualified member staying |
| `IndexEngine.WeightlessLevelIgnoresPrices` | packages/db/src/analytics/index-engine.ts:347-353 | a run that reaches a level of 100 outside of the range of the price relatives |
| `IndexEngine.RunsKeepWeights` | packages/db/src/analytics/index-engine.ts:285-296 | stored weights stay non-negative over any run |
| `IndexEngine.ReachableLevelIsBounded` | packages/db/src/analytics/index-engine.ts:347-353 | the bounds of the level hold in every reachable store |
| `IngestPipeline.Pipeline.UpdateSourceEventStatus` | packages/db/src/repos/source-event.ts:100-136 | the status read decides: a missing event counts 0, an illegal move changes nothing, a legal one overwrites whatever others have committed by then |
| `IngestPipeline.Pipeline.ProcessNormalizeJob` | packages/queue/src/process.ts:217-269 | outcome and effect of the worker's transaction, others committing before its first update: processed means the event is stored as processed and observed, a failed normalization leaves what the others stored; every error rolls it back |
| `IngestPipeline.JobIsSteps` | packages/queue/src/process.ts:217-269 | that effect is the run of its steps open, check and commit |
| `IngestPipeline.Pipeline.MarkJobPermanentlyFailed` | packages/queue/src/process.ts:334-362 | a read and a write with others in between: a move admitted on the status read ends in failed, the illegal move is swallowed |
| `IngestPipeline.Pipeline.MarkOutboxPublished` | packages/db/src/repos/outbox.ts:57-72 | the row is marked and the late status update tried on the status read |
| `IngestPipeline.Pipeline.MarkOutboxPublishFailed` | packages/db/src/repos/outbox.ts:74-88 | attempts count up, the twentieth fails the row |
| `IngestPipeline.Pipeline.PublishOutboxJob` | packages/queue/src/publisher.ts:60-140 | a publish without interference is a run of read, add, and the two steps of the mark, or failure |
| `IngestStatus.ObservedAtMostOnce` | packages/db/drizzle/0006_phase06_kernel.sql:101-102 | in every reachable committed state, stale writes included: never `processing`, no event observed or normalized twice, a processed one observed |
| `IngestStatus.ProcessedIffObservedOnce` | packages/queue/src/process.ts:217-269 | over any run: processed exactly when observed once and not lost to a stale write since a worker last processed it |
| `IngestStatus.OverwritesMoveBack` | packages/db/src/repos/source-event.ts:117-134 | a write moves an event back exactly when the stored status neither admits the move nor is the one written |
| `IngestStatus.OnlyFinalStatusesAreLost` | packages/db/src/ingest-status.ts:5-11 | in a reachable state that is: exactly when the stored status is final and not the one written |
| `IngestStatus.StatusOnlyMovesForward` | packages/db/src/ingest-status.ts:5-25 | over any run statuses only move forward, the final ones absorbing, exactly when nothing is overwritten |
| `IngestStatus.FreshRunsKeepThePromises` | packages/db/src/ingest-status.ts:5-25 | when every write finds the status it read: forward only, and processed exactly when observed once |
| `IngestStatus.LateQueuedLosesProcessed` | packages/queue/src/publisher.ts:90-112 | the run of an ordinary publish that leaves an observed event queued |
| `IngestStatus.LateFailedLosesProcessed` | packages/queue/src/process.ts:334-349 | a run in which a failure mark takes `processed` away |
| `IngestStatus.LateCommitRevivesFailed` | packages/queue/src/process.ts:243-260 | a run in which a worker makes a failed event processed |
| `OutboxPublishing.PublishedIsJustified` | packages/queue/src/publisher.ts:75-126 | for every interleaving: published only if its own entry was queued or its event has been normalized |
| `OutboxPublishing.PublishedIsQueuedOrDone` | packages/queue/src/publisher.ts:75-126 | where no status is overwritten: published only if queued or its event is processed |
| `OutboxPublishing.QueuedIffAdded` | packages/queue/src/publisher.ts:75-126 | over any run an event was queued under a row's key exactly when a publisher that had read the row reached the queue |
| `OutboxPublishing.PublishedMeansQueued` | packages/queue/src/publisher.ts:75-126 | over any run a published row was never queued exactly when a scheduled close of this row took effect and no publisher that had read it reached the queue |
| `OutboxPublishing.ClosedWithoutQueue` | packages/db/drizzle/0036_worker_resource_schedule.sql:245-248 | a run that publishes a row with nothing ever queued |
| `OutboxPublishing.TwentiethFailureUnpublishes` | packages/db/src/repos/outbox.ts:74-88 | a run of nineteen failed publishes and two publishers racing, in which the last failure turns the published row to failed |
| `IngestPipeline.PublishUnfolds` | packages/queue/src/publisher.ts:75-126 | what an uninterrupted publish leaves behind, in each of its outcomes |
| `IngestOutcome.TableExactly` | packages/db/src/ingest-status.ts:5-25 | the table admits moves ahead, to processed only from processing, and writing again what is neither received nor queued |
| `IngestOutcome.JobAnswers` | packages/queue/src/process.ts:217-269 | the answer of a job by tenant, stored status and payload |
| `IngestOutcome.JobWrites` | packages/queue/src/process.ts:217-269 | a job answering processed leaves its event processed and observed; a failed normalization leaves what others committed; any other answer leaves nothing new |
| `IngestOutcome.CommitWrites` | packages/queue/src/process.ts:243-268 | a worker that read received, queued or processing makes its event processed and observed, or nothing when normalizing fails |
| `IngestOutcome.MarkWrites` | packages/db/src/repos/outbox.ts:57-72 | a mark publishes its row and makes the event queued exactly when it read received |
| `IngestOutcome.FailWrites` | packages/queue/src/process.ts:334-362 | a failure mark makes the event failed exactly when it read anything but processed |
| `IngestOutcome.PublishLeaves` | packages/queue/src/publisher.ts:60-140 | the state an uninterrupted publish leaves: entry, row, attempts and event in each of its outcomes |
| `IngestOutcome.PublishedThenProcessed` | packages/queue/src/process.ts:217-269 | an event received, published and taken up by a worker ends processed and observed exactly once, its row published and its entry queued |
| `IngestOutcome.CloseWrites` | packages/db/drizzle/0036_worker_resource_schedule.sql:245-248 | a scheduled close changes a pending row only, each verdict in its way |
| `IngestOutcome.OtherSteps` | packages/queue/src/publisher.ts:60-140 | ingestion, crashes and removed queue entries touch nothing else |
| `KernelRegistry.NormalizedIsCanonical` | packages/db/src/kernel-registry.ts:50-52 | normalized values are exactly the canonical strings |
| `KernelRegistry.NormalizeIsIdempotent` | packages/db/src/kernel-registry.ts:50-52 | normalizing twice is normalizing once |
| `KernelRegistry.KeyInjective` | packages/db/src/kernel-registry.ts:72-79 | canonical keys are injective for types without a colon, whatever the value holds |
| `KernelRegistry.ParsedTypesArePlain` | packages/db/src/kernel-registry.ts:54-70 | no parsed type holds a separator |
| `IdentifierWords.WhiteSpaceIsListed` | packages/db/src/kernel-registry.ts:50-52 | white space is exactly the characters of the JavaScript class |
| `IdentifierWords.NormalizeAlike` | packages/db/src/kernel-registry.ts:50-52 | two texts normalize alike exactly when they hold the same words between runs of white space, letter by letter up to case |
| `IdentifierWords.EntityTypeByWord` | packages/db/src/kernel-registry.ts:54-63 | a raw type names a known entity type by its one word up to case; any other is generic |
| `IdentifierWords.IdentifierTypeByWord` | packages/db/src/normalize.ts:142-144 | its identifier type is `sku` for that word, the raw text itself for three other known types, else the generic one |
| `Normalizer.Kernel.SaveEntity` | packages/db/src/repos/entity.ts:38-65 | inserts unless key or id is there, and returns the row under the key |
| `Normalizer.Kernel.ResolveEntity` | packages/db/src/normalize.ts:159-188 | finds the entity by identifier or creates both; a failure changes nothing |
| `Normalizer.Kernel.NormalizeSourceEvent` | packages/db/src/normalize.ts:116-204 | duplicate, error or new observation as specified; an error changes nothing; `ItemByWords` says what an event names |
| `Normalizer.ItemByWords` | packages/db/src/normalize.ts:142-150 | what an event names: types by the word of its raw type, and a value with the words of its external id |
| `Normalizer.IdText` | packages/db/src/normalize.ts:66-68 | an entity id is the hash of organization and key, joined by a bar |
| `Normalizer.InsertKeepsIds` | packages/db/src/repos/entity.ts:38-65 | from any store an insert neither stores an id twice nor replaces a row, and happens unless key or id is taken |
| `Normalizer.IdTellsApart` | packages/db/src/normalize.ts:66-68 | entity ids tell items apart for organizations without a bar |
| `Normalizer.BarsConfuseIds` | packages/db/src/rls.ts:22-33 | what the tenant context keeps out: an organization, which it does not admit, whose items could have the entity id of another tenant |
| `Normalizer.Kernel.NormalizeForTenant` | packages/queue/src/process.ts:217-255 | an event of an organization the tenant context refuses changes nothing; any other is normalized |
| `Normalizer.ValidEventsNormalize` | packages/db/src/normalize.ts:116-177 | in a sound store an event succeeds exactly when its organization is admitted and it was observed before or has a known type, an external id and valid metrics and confidence |
| `Normalizer.RefusalsExactly` | packages/db/src/normalize.ts:116-140 | each error of a new event exactly when it is the first that applies |
| `Normalizer.ObservedAreValid` | packages/db/src/normalize.ts:190-204 | exactly the valid events of admitted organizations are observed, each with what it names |
| `Normalizer.EventsPartitionByIdentifier` | packages/db/src/normalize.ts:142-188 | any sequence of events of admitted organizations is partitioned exactly by organization, identifier type and the words of the external id, compared letter by letter up to case |
| `Normalizer.RenormalizingChangesNothing` | packages/db/src/normalize.ts:120-130 | normalizing an event again, after anything else, changes nothing and names the same entity |
| `Normalizer.FirstItemNamesTheEntity` | packages/db/src/normalize.ts:142-177 | id and type of an entity come from the first item with its identifier |
| `SlidingWindow.MemoryWindowLimiter.PruneBuckets` | packages/shared/src/rate-limit.ts:21-28 | keeps exactly the stamps past the cutoff and no empty bucket |
| `SlidingWindow.MemoryWindowLimiter.Consume` | packages/shared/src/rate-limit.ts:15-41 | the verdict and the buckets of one call; the buckets keep refining the history |
| `SlidingWindow.VerdictIsFull` | packages/shared/src/rate-limit.ts:30-37 | at a cutoff not below earlier ones the verdict is that of counting the whole history |
| `SlidingWindow.RunsStayValid` | packages/shared/src/rate-limit.ts:15-41 | over any run, any clock: no empty bucket, never more than the maximum, past the highest cutoff exactly the history |
| `SlidingWindow.RunsRefineFullHistory` | packages/shared/src/rate-limit.ts:15-41 | with a clock that never steps back every call is decided as by the whole history |
| `SlidingWindow.NoWindowOverflows` | packages/shared/src/rate-limit.ts:15-41 | with such a clock no window holds more grants of a key than its limit |
| `LimiterOutcome.HistoryIsGrants` | packages/shared/src/rate-limit.ts:30-40 | the limiter remembers exactly the calls that were answered as granted |
| `LimiterOutcome.AnswersByGrants` | packages/shared/src/rate-limit.ts:15-41 | with such a clock every call is answered by the granted calls of its last window: exhausted, limited or granted |
| `SlidingWindow.SteppingBackOverfills` | packages/shared/src/rate-limit.ts:21-28 | a clock that steps back can overfill a window |
| `VerificationResend.TryConsume` | packages/auth/src/verification-resend.ts:125-135 | both keys consumed in turn; a full limiter throws between them and the first stays consumed |
| `VerificationResend.ResendVerificationEmail` | packages/auth/src/verification-resend.ts:112-149 | reply, limiter calls and mail of a request as specified |
| `VerificationResend.MailsAreGranted` | packages/auth/src/verification-resend.ts:125-144 | every mail stands for a grant of its address and one of its origin |
| `VerificationResend.MailsAreLimited` | packages/auth/src/verification-resend.ts:112-149 | over any run no window holds more than five mails per normalized address or per origin |
| `VerificationResend.FiveMailsAnHour` | packages/auth/src/verification-resend.ts:4-8 | with the configured limiter: five mails in any hour |
| `VerificationResend.NormalizedEmailIsFixed` | packages/auth/src/verification-resend.ts:82-91 | a normalized address normalizes to itself |
| `ResendOutcome.TrimExactly` | packages/auth/src/verification-resend.ts:86 | trimming takes the white space off both ends and nothing else |
| `ResendOutcome.EmailExactly` | packages/auth/src/verification-resend.ts:82-91 | a text has a normalized address exactly when, trimmed and in lower case, it is of 3 to 254 characters and a name, an at sign, a host, a dot and a domain |
| `ResendOutcome.IpExactly` | packages/auth/src/verification-resend.ts:124 | the origin is trimmed, or unknown when nothing is left |
| `ResendOutcome.RepliesExactly` | packages/auth/src/verification-resend.ts:112-149 | calls, mail and outcome of a request by its address and the two verdicts |
| `WorkerSchedule.AdmittedInFirstMinutes` | packages/shared/src/worker-schedule.ts:22-34 | an instant is admitted exactly in the first five minutes of a slot hour, under that hour's key |
| `WorkerSchedule.SlotByTheClock` | packages/shared/src/worker-schedule.ts:22-34 | the slot of any instant read off the clock, and the error exactly for unsupported intervals |
| `WorkerSchedule.NextScheduledAt` | packages/shared/src/worker-schedule.ts:35-42 | the search never runs out of steps for a supported interval and fails for every other |
| `WorkerSchedule.NextIsLeastSlotAfter` | packages/shared/src/worker-schedule.ts:35-42 | its result is a slot strictly after the instant, outside the quiet hours, at most 5, 6 or 8 hours later |
| `WorkerSchedule.NoEarlierSlot` | packages/shared/src/worker-schedule.ts:35-42 | no whole hour before its result is a slot |
| `WorkerSchedule.SlotsNeverRepeat` | packages/shared/src/worker-schedule.ts:27-42 | successive scheduled times have pairwise distinct slot keys |
| `ScheduledWorker.HandleJob` | apps/worker/src/scheduled-worker.ts:44-73 | the closes of one job and where the loop goes, throws included |
| `ScheduledWorker.RunJobs` | apps/worker/src/scheduled-worker.ts:40-75 | the loop handles the specified jobs |
| `ScheduledWorker.ExecuteScheduledCycle` | apps/worker/src/scheduled-worker.ts:29-81 | result and effects of a cycle as specified |
| `ScheduledWorker.CyclesAreLawful` | apps/worker/src/scheduled-worker.ts:31-80 | every cycle closes its run exactly once with the reported status; at most min(max_jobs, 60) claims, none late or while stopping; no retry from the third attempt on; a job is closed twice exactly when the close of a processed or timed-out job throws |
| `ScheduledWorker.ClaimedBesideTimeout` | apps/worker/src/scheduled-worker.ts:40-73 | over any run of the loop: the next job is claimed beside a timed-out one exactly when its first close threw, its second returned, and the next turn offers a job in time |
| `ScheduledWorker.NothingAfterTimeout` | apps/worker/src/scheduled-worker.ts:64-68 | when closing does not throw nothing is claimed after a timeout |
| `ScheduledWorker.TimeoutCanResume` | apps/worker/src/scheduled-worker.ts:66-73 | an environment in which the next job is claimed beside a timed-out one |
| `ScheduledWorker.CompletedIsCertain` | apps/worker/src/scheduled-worker.ts:65-80 | a run closed as completed had no timeout and every job's last close returned |
| `CycleOutcome.ClosesOneByOne` | apps/worker/src/scheduled-worker.ts:44-73 | the closes of a job, their states by what its handler did and its attempt, and when there is a second one |
| `CycleOutcome.CycleExactly` | apps/worker/src/scheduled-worker.ts:29-81 | each result of a cycle exactly when it occurs, and the status its run is closed with: completed exactly when no turn escaped and no job timed out |
| `CycleOutcome.CycleHandles` | apps/worker/src/scheduled-worker.ts:40-75 | the jobs handled are those of the turns the loop comes to and that offer one in time, each with its closes |
| `ScheduledWorker.Worker.Handle` | apps/worker/src/scheduled-worker.ts:144-168 | each event moves the timer loop as specified |
| `ScheduledWorker.WorkersStaySane` | apps/worker/src/scheduled-worker.ts:144-168 | a running worker is always in a cycle or armed, never both; a stopped one is idle |
| `ScheduledWorker.StopIsFinal` | apps/worker/src/scheduled-worker.ts:161-167 | once stopping, no cycle starts any more |
| `CycleOutcome.TimerAndStop` | apps/worker/src/scheduled-worker.ts:144-168 | a sane worker starts a cycle when its timer fires, waits again when the cycle ends, and after a stop ends stopped |
| `StripeBilling.Webhooks.ClaimStripeEvent` | packages/db/drizzle/0004_phase04_billing.sql:252-275 | claims exactly a new id of 5 to 255 characters |
| `StripeBilling.Webhooks.ProcessStripeWebhook` | packages/billing/src/webhooks.ts:80-186 | outcome and state of a delivery as specified |
| `StripeBilling.AppliedOnceInOrder` | packages/billing/src/webhooks.ts:99-184 | for any order of deliveries that do not overlap each event is applied at most once and creation times never decrease per tenant |
| `StripeOverlap.FreshDeliveryIsPlain` | packages/billing/src/webhooks.ts:128-184 | a delivery whose reading still holds at its write is one that does not overlap |
| `StripeOverlap.OverlapsApplyOnce` | packages/billing/src/webhooks.ts:99-110 | however transactions overlap, no event is applied twice |
| `StripeOverlap.OverlapsInOrder` | packages/billing/src/webhooks.ts:128-184 | however they overlap, creation times never decrease per tenant exactly when no write meets a newer applied event than it read |
| `StripeOverlap.FittingOverlapsStoreNewest` | packages/billing/src/webhooks.ts:128-184 | and then plan and status are those of a newest completed event |
| `StripeOverlap.OverlapStoresOlder` | packages/billing/src/webhooks.ts:128-184 | two overlapping deliveries after which the older event is stored |
| `StripeBilling.RowIsNewestPatch` | packages/billing/src/stripe-order.ts:4-12 | without overlaps plan and status are the patch of an event with the greatest creation time among the completed ones |
| `StripeBilling.OrderDoesNotMatter` | packages/billing/src/webhooks.ts:128-184 | two orders of the same events, created at different times, end with the same plan and status |
| `StripeBilling.SpellsStayOk` | packages/billing/src/stripe-order.ts:52-97 | in every reachable row both past-due dates are set exactly while past due, a grace period apart |
| `StripeBilling.DatesFixedThroughSpell` | packages/billing/src/stripe-order.ts:52-63 | through one past-due spell both dates stay fixed |
| `StripeBilling.TrialStartsOnce` | packages/billing/src/stripe-order.ts:77-97 | no delivery restarts a trial |
| `StripeBilling.UnappliedEventIsSpent` | packages/billing/src/webhooks.ts:99-110 | an event claimed but not applied is a duplicate for ever |
| `StripeOutcome.AnswersExactly` | packages/billing/src/webhooks.ts:80-186 | mismatch, duplicate, ignored, failed, stale and applied, each exactly when it is answered |
| `StripeOutcome.AnswersWrite` | packages/billing/src/webhooks.ts:99-184 | what each answer leaves claimed, audited and stored |
| `StripeOutcome.RowByColumns` | packages/billing/src/stripe-order.ts:15-98 | the patched row column by column |
| `StripeOutcome.NextDelivery` | packages/billing/src/webhooks.ts:80-186 | after any deliveries that do not overlap the next one is applied exactly when it is new, relevant, committed and not overtaken, and then the row is patched |
| `QueueFailure.GroupJobs` | apps/worker/src/failure-observation.ts:21-34 | the loop over a map returns one group per key in order of first occurrence |
| `QueueFailure.InspectRetainedFailures` | apps/worker/src/failure-observation.ts:14-41 | the inspected or unavailable snapshot as specified |
| `QueueFailure.GroupingConservesJobs` | apps/worker/src/failure-observation.ts:23-35 | groups have distinct keys, count the jobs with their key, and add up to the sample |
| `QueueFailure.ExtremesByText` | apps/worker/src/failure-observation.ts:30-31 | earliest and latest are finish times of the group, extreme in text order |
| `QueueFailure.ExtremesAreTrue` | apps/worker/src/failure-observation.ts:30-31 | before year 10000 they are the true extremes |
| `QueueFailure.AttemptsAreMaximal` | apps/worker/src/failure-observation.ts:32 | the attempts of a group are the largest of its jobs |
| `FailureOutcome.SampleByRank` | apps/worker/src/failure-observation.ts:14-22 | the sample are the first hundred jobs, gaps skipped, in order |
| `FailureOutcome.GroupsByKey` | apps/worker/src/failure-observation.ts:23-35 | there is a group for exactly the known job types and failure classes that occur, counting their jobs |
| `FailureOutcome.GroupsByFirst` | apps/worker/src/failure-observation.ts:21-36 | groups are listed in the order in which their first jobs were sampled |
| `FailureOutcome.InspectionByFields` | apps/worker/src/failure-observation.ts:14-41 | every field of a snapshot, inspected or unavailable |
| `QueueFailure.ReadQueueFailureSnapshot` | packages/shared/src/queue-failure.ts:81-104 | the validator's loop computes the specified reading |
| `QueueFailure.EncodedSnapshotReads` | packages/shared/src/queue-failure.ts:81-104 | it accepts exactly the sound snapshots, unchanged |
| `FailureOutcome.ReaderIsInverse` | packages/shared/src/queue-failure.ts:81-104 | the reader accepts exactly the encodings of sound snapshots and gives these back |
| `QueueFailure.ReadingIsSettled` | packages/shared/src/queue-failure.ts:81-104 | whatever it accepts, reading its output again gives the same |
| `QueueFailure.InspectionsPass` | packages/shared/src/queue-failure.ts:81-104 | a built snapshot is accepted unchanged exactly when its times lie before year 10000 |
| `Money.AcceptsPlainDecimals` | packages/shared/src/money.ts:33-62 | accepted are exactly the texts that trim to a plain decimal within the limits of places and digits; each error exactly when it is reported |
| `Money.ParsePreservesAndSettles` | packages/shared/src/money.ts:63-69 | the output has the same exact value and sign and parses to itself |
| `Money.OutputsAreCanonical` | packages/shared/src/money.ts:63-69 | equal outputs exactly for equal values, and equal signs for zero |
| `Money.ZeroKeepsItsSign` | packages/shared/src/money.ts:66-68 | a zero keeps its sign however many places it is written with |

## Left out

- MigrateOnConnection: role and ownership prechecks, the advisory lock and the Neon sample profile; file names are ordered by code unit, which agrees with the locale order on distinct four-digit versions; a migration cannot rewrite the ledger table itself.
- CompareCatalogs: the labels of examples and the changed fields they list; an example carries the key instead.
- RebalanceIndex: weights are exact rationals instead of texts of eight decimals; one index; listed rows keep insertion order, which only orders a sum, while the order of the closes is a parameter that follows the starts; a caller that opened a transaction takes back the rows of a failed rebalance; rebalances of one index do not overlap.
- SearchesAgree: every file ends its last statement with a semicolon; the verifier executes a prefix joined by newlines in one call (packages/db/src/migration-baseline.ts:53), the scan file by file (packages/db/src/migration-baseline.ts:80), and a file without one could differ.
- ComputeIndexLevel: exact rationals; equal observation times are broken by storage order; storing and listing levels are not part of this model.
- QualifyIndexMembers: the rule has its defaults filled in, so the definition's own minimums are never read, as in the backend; sets and concepts are joined in beforehand.
- ProcessNormalizeJob: the tenant job type only; the projection of market snapshots, which moves events of its own; a tenant mismatch is a missing event, since events are read per tenant.
- PublishOutboxJob: the tenant outbox only; the lock an open mark holds on its outbox row delays no other step, which only adds interleavings; a database error inside the mark transaction is a failed mark; entry payloads are the event they name.
- NormalizeSourceEvent: normalizations in one tenant do not overlap; metrics, evidence, features and signals; metric and confidence validation are parameters; a collision of identifier ids, impossible for admitted organizations; an organization id with blanks around it, which the context trims and then finds no tenant for, counts as refused; letter case is folded for ASCII only.
- Consume: the default limits and windows; stamps are whole milliseconds.
- ResendVerificationEmail: the digest is a parameter; the mail template and the callback address; letter case is folded for ASCII only.
- NextScheduledAt: invalid dates; the text of a slot key is a pair of day and hour; the clock is seven hours behind, as Phoenix is all year.
- ExecuteScheduledCycle: the metered path is one outcome; a handler that ends after its timeout is not followed further.
- ProcessStripeWebhook: signature checking, subscription ids, periods and customer ids; the tenant of a customer is an input of the delivery; audit rows are ordered by insertion; rows written by the local billing simulation.
- RowIsNewestPatch: deliveries do not overlap; OverlapsInOrder and FittingOverlapsStoreNewest say when it holds if they do.
- DatesFixedThroughSpell: deliveries do not overlap; a patch made on an older reading of the row can set the dates anew.
- TrialStartsOnce: deliveries do not overlap, for the same reason.
- InspectRetainedFailures: the deadline is one outcome of the queue; error classification is a parameter with its range; the observer that caches the latest snapshot.
- ParseMoneyDecimal: number input, and currency handling and formatting beside it.
- Hashes and serializations are parameters of which injectivity is used where a lemma says so.
- Route handlers, the web application, mail templates, content generation, role tables and environment validation would only add members with one branch.

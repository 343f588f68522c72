# CoW indexer: a verified model of its core

The indexer reads settlement logs from chain nodes, enriches them through a public order API, and
keeps everything in ClickHouse. It has no transactions: its tables are append-only, every writer
inserts a row with a version, and readers keep one row of maximal version per key. Scanners and
workers crash, overlap and retry. This project models the parts whose correctness rests on that
alone, and proves what they keep over all runs.

| file | models |
|---|---|
| `VersionedTable.dfy` | a ReplacingMergeTree: FINAL, background merges, deletes, insertion order |
| `Sequences.dfy` | chunks, flattening, distinctness |
| `WorkLedger.dfy` | `work_items` as a protocol of many workers, stale holders, merges and deletes |
| `WorkStore.dfy` | the store's queue methods, retention, the purge loop, rediscovery |
| `Leasing.dfy` | when the lease query hands an item out, and whom a lease keeps out |
| `RecentEnqueues.dfy` | the bounded, expiring dictionary that suppresses re-enqueues |
| `Enrichment.dfy` | one leased batch with its deadline, while everyone else acts |
| `Windows.dfy` | the halving and doubling block ranges of a scan, and their cost |
| `ChainStore.dfy` | what a scan reads from a node and writes to the store |
| `Following.dfy` | scanning forward again and again, with a finality rescan after each scan |
| `CanonicalViews.dfy` | the reorg-aware views against the chain |
| `ScanProtocol.dfy` | many scanners and tasks of many processes over one store, one step at a time, with errors and crashes; crash-safe coverage |
| `CheckpointOverTime.dfy` | when the checkpoint moves backward |
| `ScanRefinement.dfy` | the protocol's scan, undisturbed, is the sequential scan |
| `ScanStarts.dfy` | where a scan may start, and how two scans reach a race |
| `WorkCoverage.dfy` | when the work of committed blocks is written, and how it is lost |
| `RepairProtocol.dfy` | repairs and finality rescans while other scanners act |
| `MergedViews.dfy` | background merges under the scans and the views |
| `RateLimiter.dfy` | the shared slot reservation with its throttle epoch |
| `SplitSql.dfy` | the statement splitter against a recursive lexer |
| `SeedOrders.dfy` | batch keys and the two-level buffering of the backfill |
| `ExportImport.dfy` | resumable import of order exports |

`dafny verify dfyconfig.toml` checks everything.

## Assumptions

- An acknowledged insert is applied and visible to the next read, also for tables written through
  the server's buffer (`src/cow_indexer/storage/clickhouse.py:317-366`). An insert that raises is
  not applied.
- Timestamps used as versions (`observed_at`, `updated_at`, `imported_at`) strictly increase from
  insert to insert: the model numbers the inserts.
- A block hash determines its block: height and logs. Within a block, a transaction hash and a log
  index name one log. Decoding is some partial function of a log, and so is the work that an event
  asks for.
- A node answers from one fork for the whole of a scan; different scans may meet different forks.
  The two reads of the safe head in a finality rescan agree.
- The three range limits of a scan are at least 1. The constructor does not check this
  (`src/cow_indexer/services/historical.py:20-39`).
- Every process has one dictionary of recent enqueues, all with the same configuration. It is
  empty when the process starts, and a call of it is atomic.
- A sleeping coroutine never wakes before its slot.

## Findings

Places where the code does not do what its documentation says or a reader would expect. The model
follows the code; each has a lemma with the exact condition, and a run or an input that shows it.

- `release_work` writes attempts `a - 1` at revision `10a + 2`. The next lease of the item has
  revision `10a + 1` and loses to the released row, so FINAL never shows it and any worker may lease
  the same item again (`src/cow_indexer/storage/clickhouse.py:1079-1084`;
  `WorkLedger.LeaseTakesEffectUnlessReleased`, `WorkLedger.ReleasedItemIsHandedOutTwice`). The
  docstring speaks only of the release superseding the lease before it.
- A retry and a release by the same holder tie on the revision, so the attempt count FINAL reads
  depends on which came last (`src/cow_indexer/storage/clickhouse.py:1079-1113`). It does so exactly
  if two rows of the largest revision disagree on it (`WorkLedger.AttemptsDependOnInsertionOrderIff`),
  which one holder brings about (`WorkLedger.AttemptsDependOnInsertionOrder`). The status never does.
- After a purge, a holder from before may re-create the item with its old attempt count
  (`src/cow_indexer/storage/clickhouse.py:1108-1110`; `WorkLedger.LateRetryRevivesAttempts`). From a
  table without the id, attempts count leases on every run exactly if nobody is left with a claim on
  the id (`WorkLedger.AttemptsNeedLeasesIff`).
- Enqueued ids are remembered before their insert, and an insert that raises leaves them remembered
  (`src/cow_indexer/storage/clickhouse.py:580-589`). The loop around a scan catches the error and
  scans again in the same process (`src/cow_indexer/services/continuous.py:23-47`), well within the
  ttl of 900 s (`src/cow_indexer/config.py:133`); the scan then moves the checkpoint over blocks
  whose work nobody has written (`WorkCoverage.FailedInsertLosesWork`). The same happens, without any
  error, when another task has taken the id and its process stops before the insert
  (`WorkCoverage.InFlightInsertLosesWork`). A window is committed with its work written exactly if
  each id was written before or was not remembered (`WorkCoverage.CommittedWorkIff`); over runs, if
  each id was inserted before by someone who had taken it (`WorkCoverage.CommittedWorkOverRunsIff`).
  The comments say that suppression costs writes, never work
  (`src/cow_indexer/storage/clickhouse.py:168-170`).
- A scan with an explicit `from_block` that moves the checkpoint keeps coverage exactly if all
  blocks before `from_block` are already done; the code does not check it
  (`src/cow_indexer/services/historical.py:52-54`; `ScanStarts.CoverageSurvivesIff`,
  `ScanStarts.StartingPastTheCheckpointLeavesAHole`).
- `checkpoint` reads and then inserts (`src/cow_indexer/storage/clickhouse.py:591-607`). A run moves
  the checkpoint backward exactly if some scanner inserts it for a window that ends behind what FINAL
  reads at that moment (`CheckpointOverTime.NeverRetreatsIff`), which is to say if another scanner
  inserts a higher one between its read and its insert (`CheckpointOverTime.RetreatsIffOvertaken`).
  Two scans that both move it get there (`CheckpointOverTime.RaceMovesCheckpointBack`,
  `ScanStarts.RaceArises`); one at a time cannot.
- A forward scan does not store the headers of blocks without logs inside a window
  (`src/cow_indexer/services/historical.py:83-84`). If such a block replaced one with logs, the views
  keep showing the abandoned logs until a repair or a finality rescan
  (`CanonicalViews.StaleLogSurvivesForwardScan`); `CanonicalViews.ForwardScanIsExactIff` says exactly
  which heights are shown as the fork has them.
- Inside one import batch, rows of the same new uid are all compared with the table as it was before
  the batch, and the last one wins (`src/cow_indexer/sources/exports/adapters.py:117-143`); and a row
  that ends the import takes the rows before it in its batch with it. What a run leaves of a file is
  the same for every batch size exactly if either no row is of that kind and no uid new to the table
  occurs with two hashes, or every order before the first such row has a uid already known
  (`ExportImport.BatchSizeMattersIff`).
- The purge loop reports how many ids it selected (`src/cow_indexer/cli.py:143-152`). A background
  merge may drop an aged terminal row that a newer row of the id outranks; then the id is no longer
  selected. The total is the number of ids aged at the start, whatever the engine merges, exactly if
  the FINAL row of each of them is itself aged (`WorkStore.DrainTotalIff`).
- A row without an owner raises an `AttributeError` (`src/cow_indexer/utils.py:17-18`), which the
  loop over the rows does not catch (`src/cow_indexer/sources/exports/adapters.py:272-273`). It ends
  the batch and the run, and every rerun stops at the same batch. A bundle can ever be finished
  exactly if each of its files is complete already, or valid and without such a row
  (`ExportImport.CanFinishIff`).
- When `seed_orders` meets an invalid uid, up to 999 valid batches already cut but not yet enqueued
  are lost (`src/cow_indexer/services/backfill_orderbook.py:148-176`; `SeedOrders.SeedOrders`).

## Model

| member | source | states |
|---|---|---|
| VersionedTable.FinalIsTheWinner | migrations/001_indexing_state.sql:58-60 | the recursive reading of FINAL is exactly the engine's rule: of a key's rows of maximal version, the one inserted last |
| VersionedTable.MergesPreserveFinal | migrations/001_indexing_state.sql:58-60 | any sequence of merges of contiguous parts, in any order of keys inside a merged part, leaves what FINAL reads unchanged for every key and invents no row |
| VersionedTable.CollapseCollapses | migrations/001_indexing_state.sql:58-60 | every part has a legal merge result, so the merge steps quantified over elsewhere exist |
| VersionedTable.FinalOfWithout | src/cow_indexer/storage/clickhouse.py:1324-1332 | deleting all versions of some keys removes exactly those keys from what FINAL reads |
| VersionedTable.MergesThenDelete | src/cow_indexer/storage/clickhouse.py:1324-1332 | merging and then deleting keys gives a table that deleting first and merging afterwards also gives |
| VersionedTable.FinalIgnoresInsertionOrder | migrations/001_indexing_state.sql:58-60 | if a key's rows of maximal version agree on a field, FINAL's value of that field does not depend on insertion order |
| VersionedTable.OrderMattersIff | migrations/001_indexing_state.sql:58-60 | FINAL's value of a field depends on the insertion order if and only if two rows of the key's largest version disagree on it |
| WorkLedger.RunKeepsInv | src/cow_indexer/storage/clickhouse.py:966-1147 | over every interleaving of enqueues, non-atomic leases, releases, finishes, crashes, merges and deletes, each row has one of the shapes the writers produce; a running row's lease ends five minutes after it was written |
| WorkLedger.RevisionDeterminesStatus | src/cow_indexer/storage/clickhouse.py:41-50 | in every such row the revision alone determines the status: open revisions are at most 655352, and the three terminal ones are the last three of an unsigned 64-bit column |
| WorkLedger.RevisionNeverFalls | src/cow_indexer/storage/clickhouse.py:41-50 | over every run, whoever acts, the revision FINAL reads for an id never falls until a delete names it |
| WorkLedger.TerminalIsAbsorbing | src/cow_indexer/storage/clickhouse.py:46-50 | once a terminal row of an id exists, FINAL reads a terminal status for it, never a lower one in the order unavailable, dead, done, through every run until a delete names the id |
| WorkLedger.EndedLeaseNeverRunsAgain | src/cow_indexer/storage/clickhouse.py:1052-1147 | over every run, once its holder has released or finished an item, FINAL reads running only for a later lease with more attempts, until a delete names the id |
| WorkLedger.StatusIgnoresInsertionOrder | src/cow_indexer/storage/clickhouse.py:46-50 | over reachable tables FINAL's status is a function of the largest revision, whatever the insertion order |
| WorkLedger.AttemptsDependOnInsertionOrderIff | src/cow_indexer/storage/clickhouse.py:1079-1113 | the attempt count depends on the insertion order if and only if two rows of the id's largest revision carry different counts |
| WorkLedger.AttemptsDependOnInsertionOrder | src/cow_indexer/storage/clickhouse.py:1079-1113 | two runs from a new queue that differ only in the order in which one holder retries and releases end with different counts |
| WorkLedger.WrittenByReleaseIsAShape | src/cow_indexer/storage/clickhouse.py:1079-1085 | a row could have been written by a release exactly if its revision is ten times one more than its attempts, plus two, and it is pending from now on |
| WorkLedger.OnlyReleaseWritesReleaseRows | src/cow_indexer/storage/clickhouse.py:1019-1113 | no enqueue, lease or finish writes a row of that shape |
| WorkLedger.LeaseTakesEffectIff | src/cow_indexer/storage/clickhouse.py:1019-1049 | whatever was written since the lease query read, the lease is what FINAL reads if and only if FINAL's revision at the insertion is at most ten times the attempts plus one; otherwise FINAL is unchanged |
| WorkLedger.LeaseTakesEffectUnlessReleased | src/cow_indexer/storage/clickhouse.py:1019-1049 | with nothing written in between, a lease makes FINAL read running with one more attempt if and only if the row read was not written by a release |
| WorkLedger.ReleasedItemIsHandedOutTwice | src/cow_indexer/storage/clickhouse.py:1052-1089 | after a release the next lease leaves the row leaseable for everyone else |
| WorkLedger.StaleHolderCannotDisplaceLease | src/cow_indexer/storage/clickhouse.py:1052-1113 | a retry or release by the holder of an older attempt never displaces a lease of a higher one |
| WorkLedger.FinishSettles | src/cow_indexer/storage/clickhouse.py:1091-1147 | after a terminal outcome FINAL reads a terminal status of at least its rank, whatever was in the table |
| WorkLedger.ReleaseEndsOnlyItsLease | src/cow_indexer/storage/clickhouse.py:1052-1089 | a release makes FINAL read pending with the attempt given back if nothing beats it; what beats it is terminal or a lease of at least that attempt, and stays |
| WorkLedger.ReleaseChargesNothing | src/cow_indexer/storage/clickhouse.py:1053-1065 | over every run in which any number of workers lease and release an item, none of its leases running out, with any writes, merges and deletes of others at any moment, it reads open with the attempt count it started with whenever nobody holds it, and every lease hands out that count plus one |
| WorkLedger.AttemptsNeedLeases | src/cow_indexer/storage/clickhouse.py:1019-1049 | an attempt count of k needs at least k leases of that id since its rows, holders and readers had none |
| WorkLedger.AttemptsNeedLeasesIff | src/cow_indexer/storage/clickhouse.py:1019-1049 | from a state without a row of the id, that bound holds on every run if and only if nobody holds the id and whoever has read it read it before any lease |
| WorkLedger.LateRetryRevivesAttempts | src/cow_indexer/storage/clickhouse.py:1108-1110 | a run from a new queue in which a delete is followed by the retry of a holder from before: the id is back with its old count and no lease since |
| WorkStore.Store.EnqueueWorkMany | src/cow_indexer/storage/clickhouse.py:548-589 | the ids let through are those the recent dictionary lets through after all its calls so far; their revision-0 rows are appended if the insert lands, nothing if it raises, and the dictionary remembers them either way |
| WorkStore.FirstOccurrencesAreInOrder | src/cow_indexer/storage/clickhouse.py:554-582 | the dictionary is asked for the ids of an enqueue in the order in which they first occur |
| WorkStore.Store.LeaseWork | src/cow_indexer/storage/clickhouse.py:1018-1050 | hands out exactly what the query found, no id twice and no more than the limit, each one attempt higher, with one running row each, or refuses the whole insert when a count exceeds 65535 |
| Leasing.HandedOutExactlyWhenDue | src/cow_indexer/storage/clickhouse.py:1001-1008 | some answer of the lease query holds an id if and only if FINAL reads a row for it that is due: enqueued or released at or before the query, a retry whose time has come, or a lease that was written more than 300 seconds before; after a terminal outcome, and without a row, none does |
| Leasing.LeaseKeepsOthersOut | src/cow_indexer/storage/clickhouse.py:1001-1049 | over every run, once FINAL reads a lease, no query of anyone finds the id in the 300 seconds from it, unless a holder of as many attempts releases or retries, a delete names the id, or a clock runs backward |
| Leasing.LeasedBatchIsNotHandedOut | src/cow_indexer/storage/clickhouse.py:1018-1050 | after a batch is leased, no query in the next 300 seconds finds an item of it whose row was not written by a release |
| WorkStore.Store.PurgeFinishedWork | src/cow_indexer/storage/clickhouse.py:1283-1333 | with the engine merging before the query and around every statement: what the query read is a merge of the table, and what is left is a merge of that without every version of the selected ids, whose number is returned; the statements are the ids in chunks |
| WorkStore.PurgeSelectsTerminalIds | src/cow_indexer/storage/clickhouse.py:1303-1315 | the FINAL-free selection picks only ids whose FINAL is terminal, and can pick every id holding an aged terminal row |
| WorkStore.PurgeWork | src/cow_indexer/cli.py:143-152 | the drain loop ends for every batch size of at least 1, whatever the engine merges meanwhile, and leaves no aged terminal id; it deletes only ids aged at the start, among them all whose FINAL row was aged, and changes what FINAL reads of no other; the total counts each deleted id once |
| WorkStore.DrainTotalIff | src/cow_indexer/cli.py:143-152 | the total is the number of ids aged at the start for every schedule of merges if and only if the FINAL row of each of them is itself aged |
| WorkStore.DrainKeeps | src/cow_indexer/cli.py:143-152 | after any number of rounds FINAL reads nothing for the ids picked so far and the same as at the start for all others; the picked ids were aged at the start and are as many as were counted |
| WorkStore.UnmergedDrainIsExact | src/cow_indexer/cli.py:143-152 | without merges the drain deletes exactly the versions of the ids aged at the start and counts exactly those ids |
| WorkStore.UnmergedDrainDeletesOldWork | src/cow_indexer/storage/clickhouse.py:1303-1332 | row by row: an id with a done, dead or unavailable row from before the cutoff loses every row, any other id keeps every row |
| WorkStore.FinishedWorkAges | src/cow_indexer/storage/clickhouse.py:1091-1147 | of an id without such rows, a terminal outcome is deleted by a drain if and only if it was recorded before the cutoff |
| WorkStore.PurgeKeepsOpenIds | src/cow_indexer/storage/clickhouse.py:1293-1299 | an id that FINAL reads as open keeps every one of its rows |
| WorkStore.DeleteStatementsAreBounded | src/cow_indexer/storage/clickhouse.py:85-95 | the statements of a purge name each selected id exactly once, and every id list has at most 67 * 3000 - 3 characters |
| WorkStore.SelectedIdsAreSettledWhenDeleted | src/cow_indexer/storage/clickhouse.py:1283-1333 | an id selected as aged is still terminal whenever the delete runs, whatever others did in between |
| WorkStore.EnqueueRestoresIff | src/cow_indexer/storage/clickhouse.py:548-589 | an enqueue of an id without a row leaves a pending row if and only if the dictionary does not remember it from less than a ttl ago and the insert lands |
| WorkStore.DeletedStaysAbsent | src/cow_indexer/storage/clickhouse.py:1324-1332 | over every run, once a delete names an id FINAL reads nothing for it until some writer writes it |
| WorkStore.RediscoveryRestoresPurgedWork | src/cow_indexer/storage/clickhouse.py:1293-1299 | over every run in which a delete named an id and nobody wrote it since, the first enqueue at or after a ttl past its last return whose insert lands restores a pending row |
| RecentEnqueues.RecentEnqueues.TakeNewIds | src/cow_indexer/storage/clickhouse.py:186-204 | the in-place loop and eviction compute the specification of one call, and the dictionary stays the one that the sequence of all calls so far leaves |
| RecentEnqueues.KeepsTheMostRecent | src/cow_indexer/storage/clickhouse.py:169-174 | after any calls the dictionary holds exactly the `max_entries` most recently mentioned ids, in order |
| RecentEnqueues.ExpiryDatesFromLastReturn | src/cow_indexer/storage/clickhouse.py:191-200 | a remembered expiry is one ttl after the id was last returned; recurrence never extends it |
| RecentEnqueues.LeftOutExactlyWhenRecentlyReturned | src/cow_indexer/storage/clickhouse.py:158-204 | an id of a call is left out if and only if it is among the `max_entries` most recently mentioned and was last returned less than a ttl ago |
| RecentEnqueues.SuppressionIsBounded | src/cow_indexer/storage/clickhouse.py:172-175 | with non-decreasing times, an id left out at t was returned by an earlier call at some s with s <= t < s + ttl |
| RecentEnqueues.WithoutEvictionOnlyTheTtlCounts | src/cow_indexer/storage/clickhouse.py:169-174 | while no more ids were mentioned than fit, the result is the plain rule "returned less than ttl ago" |
| RecentEnqueues.DisabledReturnsAll | src/cow_indexer/storage/clickhouse.py:182-189 | with a ttl of zero or no room every call returns all it was given |
| RecentEnqueues.FreshKeepsTheOrder | src/cow_indexer/storage/clickhouse.py:190-204 | a call returns ids in the order in which it was given them |
| WorkStore.FreshIff | src/cow_indexer/storage/clickhouse.py:580-587 | of an enqueue, exactly the ids that are not remembered are let through, whatever the configuration |
| Enrichment.EnrichmentService.RunTasks | src/cow_indexer/services/enrichment.py:77-97 | for every sequence of task writes and cancellations, with everyone else acting before each write: FINAL reads at least the best outcome written so far unless others delete the id, exactly that outcome if others spare the id, and the pending set is the items not completed |
| Enrichment.EnrichmentService.RunOnce | src/cow_indexer/services/enrichment.py:40-126 | the same for a whole batch, with others acting between query and lease, before every write and before the release. For an item that others spare, FINAL reads done if and only if some task write of it was a success; otherwise dead if and only if one was a failure in the last allowed attempt; otherwise unavailable if and only if one found the competition not served; otherwise it is open: pending with the attempt given back if the deadline released it, pending with the attempt charged if it failed. One that they only do not delete reads at least that; the result counts the completed items |
| Enrichment.FateOfVerdicts | src/cow_indexer/services/enrichment.py:159-185 | which of the outcomes written for an item stands, in any order of any number of writes, by their verdicts alone |
| Enrichment.RetriesBackOff | src/cow_indexer/services/enrichment.py:182-185 | a failed first attempt waits two seconds, and each further one twice as long as the one before, up to an hour |
| Enrichment.NoneLeftRunning | src/cow_indexer/services/enrichment.py:93-126 | after a deadline no lease of the batch is left running: unless the id was deleted, FINAL reads running only for a later lease with more attempts, and never a status below the best terminal outcome written; if others spared the id, it is terminal exactly if a terminal outcome was written, and otherwise the attempt is charged exactly if its retry completed |
| Enrichment.BatchStaysEnded | src/cow_indexer/services/enrichment.py:93-126 | that stays so over every run that follows the batch, until a delete names the id |
| Enrichment.ReleasedItemsAreNeverDead | src/cow_indexer/services/enrichment.py:177-185 | over every run in which an item is only leased and released, no lease of it running out, each holder gives up at a failure if and only if the first lease already was the last allowed |
| Windows.ScanTiles | src/cow_indexer/services/historical.py:64-104 | for every pattern of rejections the committed windows tile a prefix of the range, and all of it unless the scan gives up |
| Windows.TilesAreDisjoint | src/cow_indexer/services/historical.py:64-104 | tiling windows are disjoint, ascending and inside the range |
| Windows.AcceptedWindowsDouble | src/cow_indexer/services/historical.py:66-104 | while every call is accepted the i-th window has the initial size times 2^i, or the maximum if that is smaller, and only the last may be cut short |
| Windows.RejectionsHalve | src/cow_indexer/services/historical.py:71-81 | after k rejections in a row the scan asks from the same block for the range halved k times, but no less than the minimum, and it gives up if it is rejected once more there |
| Windows.RejectionsAreAmortised | src/cow_indexer/services/historical.py:71-81 | rejected calls are at most accepted calls plus the halvings from the initial range to the minimum, plus the call that makes a scan give up |
| Windows.CapableProviderCost | src/cow_indexer/services/historical.py:64-104 | with a provider that accepts every window of at most L blocks, L at least the minimum, no scan gives up, and its calls are at most twice the blocks over min(initial, maximum, (L+1)/2), rounded up, plus those halvings |
| ChainStore.Store.Checkpoint | src/cow_indexer/storage/clickhouse.py:591-607 | the checkpoint FINAL reads afterwards is the larger of what it was and the block; a row is written exactly unless the block is behind |
| ChainStore.HistoricalIndexer.Scan | src/cow_indexer/services/historical.py:41-116 | the loop terminates; its windows follow each other from the given block, or from the block after the checkpoint, or without a checkpoint from the start block, up to the safe head and the given end, and reach it unless the scan gives up. It commits exactly the windows of the pure scan, in order, with the work that the dictionary lets through call by call, gives up exactly when the pure scan does, and returns the number of the fork's logs between start and end |
| Following.Follow | src/cow_indexer/services/continuous.py:118-120 | over any number of rounds of a forward scan and, if it succeeds, a finality rescan, on any forks and whether or not a scan gives up, the windows of the forward scans tile the blocks from behind the first checkpoint, or from the start block, up to the last checkpoint, which a successful last round leaves at its safe head or above |
| Following.FollowedBlocksAreScanned | src/cow_indexer/services/historical.py:50-104 | so every block there lies in exactly one of those windows |
| ChainStore.LogsAre | src/cow_indexer/services/historical.py:70 | the logs of a range are exactly those of the fork's blocks in it |
| ChainStore.LogsAreDistinct | src/cow_indexer/services/historical.py:102 | each of them once, so the count a scan returns is theirs |
| ChainStore.HistoricalIndexer.CommitWindow | src/cow_indexer/services/historical.py:83-101 | headers, raw logs, events, the work not remembered, checkpoint and range record are written with these contents and versions in this order, after at most one call of the dictionary, for each id of the window's work once |
| ChainStore.WorkIsAsked | src/cow_indexer/loaders/events.py:55-65 | an id belongs to the work of a window if and only if some block of the fork in it has a log that decodes to an event which asks for the id |
| ChainStore.JobIsTheUnrememberedWork | src/cow_indexer/loaders/events.py:55-65 | so a window's commit writes an id if and only if some such log asks for it and the process did not remember it |
| ChainStore.HistoricalIndexer.RescanFinalityWindow | src/cow_indexer/services/historical.py:118-126 | its windows cover exactly the last finality-many blocks up to the safe head, every header is stored and the checkpoint is left alone; gives up exactly when the pure scan does and otherwise returns the number of the fork's logs in the window |
| ChainStore.HistoricalIndexer.RepairRange | src/cow_indexer/services/repair.py:4-10 | its windows cover exactly the given blocks up to the safe head, every header is stored and the checkpoint is left alone |
| CanonicalViews.ReplayKeepsDbFits | src/cow_indexer/services/historical.py:86-101 | after any sequence of scan inserts on any forks, stopping anywhere, every stored row tells the truth about the block its hash names |
| CanonicalViews.RawEntryIsTheLog | migrations/008_committed_views.sql:16-54 | what the raw-log view can show of a fork is a log of its block at that height, not marked removed, with that log's own data |
| CanonicalViews.RangesAreTheWindows | src/cow_indexer/services/historical.py:98-101 | a scan records each of its windows, in order, with the number of the fork's logs in it |
| CanonicalViews.CommitIsItsWrites | src/cow_indexer/services/historical.py:86-101 | committing a window is the sequence of its single inserts, with a checkpoint row exactly if the window is not behind |
| CanonicalViews.ScanMakesCurrent | src/cow_indexer/services/historical.py:64-104 | a scan makes FINAL show the node's version of every log of its fork in the scanned blocks, and leaves every other log as it was |
| CanonicalViews.ScanIsExactIff | migrations/008_committed_views.sql:16-54 | after a scan a scanned height joins to exactly the node's non-removed logs if and only if the scan stored its header or nothing joined there before |
| CanonicalViews.RescanIsExact | migrations/008_committed_views.sql:16-54 | reorg exactness: over any history of inserts on any forks, a completed scan that stores every header leaves both views, on its heights and up to the checkpoint, showing exactly the fork's non-removed logs, and events |
| CanonicalViews.ForwardScanIsExactIff | src/cow_indexer/services/historical.py:83-95 | after a completed forward scan a height is shown exactly if and only if it has logs, ends a window, or nothing was shown there before |
| CanonicalViews.StaleLogSurvivesForwardScan | src/cow_indexer/services/historical.py:83-84 | where a block with a shown log was replaced by one without, a forward scan whose windows do not end there keeps the stale log in the view, and one that stores every header removes it |
| CanonicalViews.StaleLogArises | src/cow_indexer/services/historical.py:83-84 | such a store is reached by one scan of an abandoned fork |
| CanonicalViews.ScanCheckpoint | src/cow_indexer/services/historical.py:96-97 | a scan that moves the checkpoint moves it to the end of its last window unless it already was further; any other scan leaves it alone |
| ScanProtocol.NextKeepsInv | src/cow_indexer/services/historical.py:50-103 | every insert, read, begin, dictionary call, error and crash of any scanner or task keeps: each checkpoint row was inserted after everything below it, and each scanner's place is backed by finished inserts |
| ScanProtocol.CommittedBlocksAreDone | src/cow_indexer/services/historical.py:50-103 | crash-safe coverage: after any run of scanners that start at most one past the checkpoint, whatever raises or crashes, every block from the deployment to the checkpoint lies in a window whose headers, raw logs and events are all written; so is all the work that its logs ask for, if no step held back an id nobody had written |
| WorkCoverage.TakenIff | src/cow_indexer/storage/clickhouse.py:580-587 | the dictionary of a process lets exactly those ids of an enqueue through that it does not remember |
| WorkCoverage.WorkIsWrittenIff | src/cow_indexer/storage/clickhouse.py:580-589 | after a scanner's enqueue an id of its window is written if and only if it was before or its process did not remember it |
| WorkCoverage.CommittedWorkIff | src/cow_indexer/services/historical.py:95-97 | a scanner that goes on from its enqueue moves the checkpoint over its window with all its work written if and only if each id was written before or not remembered |
| WorkCoverage.CommittedWorkOverRunsIff | src/cow_indexer/services/historical.py:95-97 | a run, whatever raises and crashes, never moves the checkpoint over unwritten work if and only if each id that a log of a window so passed asks for was inserted before by some holder of it |
| WorkCoverage.WrittenIffInserted | src/cow_indexer/storage/clickhouse.py:580-589 | over every run a row of an id is written if and only if some holder of it got to its insert without having raised or stopped |
| WorkCoverage.HeldWasTaken | src/cow_indexer/storage/clickhouse.py:580-589 | over every run whoever holds an id was let through for it by a dictionary in that run |
| WorkCoverage.FailedInsertLosesWork | src/cow_indexer/services/continuous.py:23-47 | a run in which the insert of the work raises and the same process scans again within the ttl: the checkpoint covers the block and its work is not written |
| WorkCoverage.InFlightInsertLosesWork | src/cow_indexer/storage/clickhouse.py:580-589 | a run without any error in which a task holds the id, the scan commits, and the process stops: the same, with nobody left who could write it |
| WorkCoverage.RestartWritesAllWork | src/cow_indexer/storage/clickhouse.py:172-180 | when a process has stopped in any state, the first window that it enqueues thereafter has all its work written once the insert lands, whatever others did in between |
| CheckpointOverTime.RetreatsIff | src/cow_indexer/storage/clickhouse.py:591-607 | one step of anyone moves the checkpoint backward if and only if it inserts it for a window that ends behind what FINAL reads then |
| CheckpointOverTime.NeverRetreatsIff | src/cow_indexer/storage/clickhouse.py:591-607 | a run, whatever raises and crashes, never moves the checkpoint backward if and only if it has no such step |
| CheckpointOverTime.RetreatsIffOvertaken | src/cow_indexer/storage/clickhouse.py:591-607 | a run moves the checkpoint backward if and only if, between some scanner's read of it and its insert, another scanner inserts a block above the end of its window |
| CheckpointOverTime.CheckpointNeverRetreats | src/cow_indexer/storage/clickhouse.py:591-607 | a run in which at most one scanner at a time moves the checkpoint is one |
| CheckpointOverTime.RaceMovesCheckpointBack | src/cow_indexer/storage/clickhouse.py:592-607 | two scanners that both read the checkpoint before either inserts can move it backward |
| ScanStarts.RaceArises | src/cow_indexer/storage/clickhouse.py:592-607 | two ordinary forward scans reach that state |
| ScanRefinement.ScanIsItsTurns | src/cow_indexer/services/historical.py:41-116 | a scan begun and left alone ends after finitely many turns; the store is then what the sequential scan leaves, for the windows of the pure scan and the ids the dictionary let through, and no other scanner or task has changed |
| ScanRefinement.ScanAfterAnyRunIsItsTurns | src/cow_indexer/services/historical.py:41-116 | so it is of a scan begun in any state that a run reaches |
| ScanRefinement.EveryRunAsks | src/cow_indexer/storage/clickhouse.py:186-204 | in every state that a run reaches, whatever crashed, each process's dictionary is what some sequence of calls leaves of an empty one |
| ScanStarts.CoverageSurvivesIff | src/cow_indexer/services/historical.py:52-54 | if a scan begun after any run from an explicit block commits anything, every block up to the checkpoint is done afterwards if and only if every block before its start was |
| ScanStarts.StartingPastTheCheckpointLeavesAHole | src/cow_indexer/services/historical.py:96-97 | started beyond the deployment on an empty store, a scan commits a checkpoint above a block nobody scanned |
| RepairProtocol.RescanAmongOthersIsExact | src/cow_indexer/services/historical.py:64-104 | whatever any run on any forks has left behind, a scan that stores every header, begun once all scanners are on its fork, makes both views show each height it has passed exactly as the fork has it, up to the checkpoint, with other scanners acting between its steps and afterwards, also if it raises or crashes later |
| RepairProtocol.RepairAfterAnyRunIsExact | src/cow_indexer/services/repair.py:4-10 | in particular a repair, on its heights up to the safe head |
| RepairProtocol.FinalityRescanAfterAnyRunIsExact | src/cow_indexer/services/historical.py:118-126 | and a finality rescan, on exactly the last finality-many blocks up to the safe head |
| MergedViews.MergesAreInvisible | migrations/008_committed_views.sql:16-54 | at every moment of every history of inserts, with merges of any tables anywhere in it, the checkpoint and both views are those of the inserts alone |
| MergedViews.RescanAmongMergesIsExact | migrations/008_committed_views.sql:16-54 | so a rescan among other scanners is exact with the engine merging before, during and after it |
| RateLimiter.ReservationsAreSpaced | src/cow_indexer/sources/cow_api.py:60-63 | a reserved slot lies neither in the past nor before the earliest free one, and the next slot, whenever reserved, lies at least the interval then in force behind it; none is later than that |
| RateLimiter.SlowDownHoldsBack | src/cow_indexer/sources/cow_api.py:82-93 | the interval stays between base and maximum, and a factor of at least 1 never shortens one within the maximum; older slots are void, and every later slot lies at least one new interval after the throttle, if a loop runs; otherwise the next slot is left where it was |
| RateLimiter.NewStartsAtBase | src/cow_indexer/sources/cow_api.py:52-58 | a new limiter is at its base interval, its maximum is no smaller, and it lets its first caller through at once |
| RateLimiter.ThrottlesCompound | src/cow_indexer/sources/cow_api.py:82-85 | over every run from a new limiter without a speed_up, the interval after k throttles by a factor is the base interval times that factor k times, or the maximum if that is smaller |
| RateLimiter.RelaxingCompounds | src/cow_indexer/sources/cow_api.py:95-96 | over every stretch of a run without a throttle, the interval after k speed-ups by a factor of at most 1 is the interval before times that factor k times, or the base interval if that is larger |
| RateLimiter.ThrottleSlowsByItsFactor | src/cow_indexer/sources/cow_api.py:82-93 | after a throttle at c by a factor of at least 1, with I the interval before it and no speed-up since, the k-th later admission is at c + (k + 1) * min(maximum, factor * I) or later |
| RateLimiter.AsyncRateLimiter.Wait | src/cow_indexer/sources/cow_api.py:65-80 | a caller is admitted in the first round without a throttle, after at most one reservation per throttle that went by, plus one |
| RateLimiter.RunKeepsInv | src/cow_indexer/sources/cow_api.py:65-80 | over every interleaving each sleeper holds its own newest reservation and no admission precedes its slot or repeats another's |
| RateLimiter.SlotsAreSpaced | src/cow_indexer/sources/cow_api.py:60-63 | any two reserved slots are at least the base interval apart per reservation between them |
| RateLimiter.AdmissionsAreBounded | src/cow_indexer/sources/cow_api.py:52-96 | rate bound: by time t at most 1 + (t - t0) / base callers are admitted |
| RateLimiter.ThrottleBites | src/cow_indexer/sources/cow_api.py:82-93 | after a slow_down at c leaving interval I, no older reservation is admitted, and the k-th later admission is at c + I + k * base or later, whatever follows |
| RateLimiter.ThrottleKeepsBiting | src/cow_indexer/sources/cow_api.py:48-50 | while nothing speeds it up, the k-th later admission is at c + (k + 1) * I or later |
| RateLimiter.ReReservesOncePerEpoch | src/cow_indexer/sources/cow_api.py:73-80 | the reservations of one caller have strictly increasing epochs |
| SplitSql.SplitText | src/cow_indexer/storage/migrations.py:15-56 | the character machine returns what the recursive lexer specification gives |
| SplitSql.CodeIsClean | src/cow_indexer/storage/migrations.py:34-39 | no piece holds a comment or a semicolon outside quotes, and all but the last end outside quotes |
| SplitSql.SemicolonsSplit | src/cow_indexer/storage/migrations.py:45-49 | a semicolon after text without quotes and double dashes ends a statement, which is dropped if blank |
| SplitSql.QuotesHideEverything | src/cow_indexer/storage/migrations.py:24-44 | between single quotes, double quotes or backquotes any text without that quote or a backslash is kept as it is, semicolons and dashes included, and a backslash before the quote keeps it open |
| SplitSql.DashesHideTheLine | src/cow_indexer/storage/migrations.py:34-39 | two dashes hide everything up to the end of the line, which stays |
| SplitSql.StripDropsBlanks | src/cow_indexer/storage/migrations.py:46 | a statement loses blanks at both ends and no printable character |
| SplitSql.SplitIsAProjection | src/cow_indexer/storage/migrations.py:15-56 | no statement is blank, and splitting the semicolon-join of a result gives it back |
| SeedOrders.DecodeInvertsEncode | src/cow_indexer/services/backfill_orderbook.py:58-70 | decoding a batch key gives the batch's uids, normalised and sorted |
| SeedOrders.UidsAreFiftySixBytes | src/cow_indexer/utils.py:17-38 | a uid is valid if and only if it is 112 hexadecimal digits in either case, with or without the prefix; the normal form has the prefix and the digits in lower case |
| SeedOrders.EmptyPartsAreIgnored | src/cow_indexer/services/backfill_orderbook.py:69-70 | decoding passes over empty parts of a key, and the empty key decodes to no uid |
| SeedOrders.KeysAreAscending | src/cow_indexer/services/backfill_orderbook.py:61 | a key lists its uids in ascending order of their characters |
| SeedOrders.KeysAreCommaSeparated | src/cow_indexer/services/backfill_orderbook.py:66 | a key is 115 characters per uid less one, with a comma after each uid but the last and nowhere else |
| SeedOrders.KeyIsTheMultiset | src/cow_indexer/services/backfill_orderbook.py:58-66 | two batches have the same key if and only if they are the same multiset of normalised uids |
| SeedOrders.EncodesExactlyValidBatches | src/cow_indexer/services/backfill_orderbook.py:58-66 | a batch is encoded if and only if it has 1 to 128 uids, all valid |
| SeedOrders.SeedOrders | src/cow_indexer/services/backfill_orderbook.py:132-176 | for every division of the stream into blocks, the enqueue calls are the flat stream's batches, encoded and chunked by 1000, and the counters are right; on an invalid uid exactly the batches waiting for a full chunk are missing |
| SeedOrders.SeedsExactlyValidStreams | src/cow_indexer/services/backfill_orderbook.py:159-162 | seeding succeeds if and only if every uid of the stream is valid |
| SeedOrders.EveryUidIsSeededOnce | src/cow_indexer/services/backfill_orderbook.py:132-176 | decoding all keys gives back the stream's normalised uids with their multiplicities |
| SeedOrders.EntriesCountTheirUids | src/cow_indexer/services/backfill_orderbook.py:153-157 | each work item says how many uids its key decodes to |
| ExportImport.NormalizeOrders | src/cow_indexer/sources/exports/adapters.py:103-143 | a batch is judged to its end if and only if no row of it raises an error the loop does not catch; then every row is judged against the table before the batch, and accepted, duplicate, rejected and conflicting rows add up to the batch |
| ExportImport.StatsCountRows | src/cow_indexer/sources/exports/adapters.py:117-143 | the counts are those of the rows with a uid new to the table, with the hash it holds, with another hash, and of the malformed rows |
| ExportImport.BatchLearns | src/cow_indexer/storage/clickhouse.py:1335-1362 | inserting a batch's accepted rows changes no hash known before it, and each new uid takes its last row of the batch |
| ExportImport.ReimportAcceptsNothing | src/cow_indexer/sources/exports/adapters.py:117-142 | judged again after its batch, a row is a duplicate exactly if the table holds its hash, a conflict exactly if it holds another, and is never accepted twice |
| ExportImport.Importer.RunImport | src/cow_indexer/services/export_import.py:47-101 | a run that dies after any number of writes does what the pure run does, and its statistics add up to the rows it processed |
| ExportImport.FileByWrites | src/cow_indexer/services/export_import.py:63-83 | a file takes one write for each batch and one more that records it complete; a run that dies after fewer has inserted exactly that many batches and records nothing |
| ExportImport.FinishedRunRecordsItsFiles | src/cow_indexer/services/export_import.py:50-95 | a run that finishes has recorded every file of the bundle complete, and no run records another |
| ExportImport.CompleteFilesAreImported | src/cow_indexer/services/export_import.py:76-83 | for every schedule of crashes, finished or not, every order of a file recorded complete is known |
| ExportImport.FinishedBundleStaysFinished | src/cow_indexer/services/export_import.py:51-54 | once a run has finished, a further one skips every file: it reads no row, writes nothing and finishes |
| ExportImport.ResumedImportIsUninterrupted | src/cow_indexer/services/export_import.py:50-84 | for every schedule of crashes, once a rerun finishes, the uid-to-hash map is that of one uninterrupted run |
| ExportImport.ImportsNeverOverwrite | src/cow_indexer/sources/exports/adapters.py:117-142 | no run, finished or not, changes a hash known before it |
| ExportImport.CanFinishIff | src/cow_indexer/services/export_import.py:50-101 | some schedule of runs finishes a bundle if and only if each of its files is complete already, or valid and without a fatal row |
| ExportImport.BadBundleNeverFinishes | src/cow_indexer/services/export_import.py:50-101 | every run over a bundle with an incomplete file that is not so dies, and the file is never recorded complete |
| ExportImport.BatchSizeMattersIff | src/cow_indexer/sources/exports/adapters.py:103-275 | what a run that lives long enough leaves known of a file's rows is the same for every two batch sizes if and only if either no row is fatal and no new uid occurs with two hashes, or some row is and every order before the first such row has a known uid |

## Left out

- WorkStore.LeaseQuery: the lease query's ordering, its filter on kinds and its filling up to the limit; any set of leaseable FINAL rows may be returned, which the proofs allow.
- WorkStore.PurgeWork: other writers are paused, as the command's help asks; with writers active only WorkStore.SelectedIdsAreSettledWhenDeleted and the run theorems of WorkLedger are claimed.
- WorkLedger.ReleaseChargesNothing: a lease that runs out unreleased is charged, as the next lease counts it; for runs with such leases AttemptsNeedLeases is claimed.
- Enrichment.EnrichmentService.RunOnce: concurrent tasks are the sequence of writes that reached the store; the semaphore, the prefetch and the handlers' own API writes are not modelled. For an item that others write to, only a lower bound on what FINAL reads is claimed.
- ChainStore.HistoricalIndexer.Scan: the sequential method has no reorganisation during a scan, and its inserts land; ScanProtocol lets other scanners, on other forks, write in between and lets every step raise, but a single scan still reads one fork. An error of the node other than a rejected range is a raise in ScanProtocol.
- ChainStore.HistoricalIndexer.CommitWindow: an empty list of events is an insert of nothing, where the processor skips the call; the work of an event is any list of ids; block timestamps and parent hashes are not stored.
- RepairProtocol.RescanAmongOthersIsExact: scanners that act during or after the rescan are on its fork; nothing is claimed once one on another fork writes over its heights.
- ScanRefinement.ScanIsItsTurns: the run record of a scan (its id and start time) is not part of the store.
- CanonicalViews.RescanIsExact: the trades, settlements and interactions views are not modelled; API rows in the trades view share keys with chain rows and are shown unconditionally.
- RateLimiter.ThrottleBites: a `slow_down` outside a running loop does not move the next slot, so the claim is for calls inside one. Its property holds for real-valued time, not for rounded floats.
- SeedOrders.SeedOrders: the stream of missing uids and the count of covered ones come from queries that are not modelled; the drain of the seeded batches is left out. Lower-casing is that of ASCII.
- ExportImport.NormalizeOrders: only the orders dataset is modelled; other datasets are appended without comparison. Parsing a row to a uid and a hash, or to an error, is given. Raw rows, conflicts and the enrichment fan-out of an import are not stored.
- ExportImport.ResumedImportIsUninterrupted: reruns with another batch size are not covered; BatchSizeMattersIff says when that makes a difference within a file.
- Durability of buffered inserts, insert retries, HTTP, RPC and database drivers, metrics and logging: outside what the model claims.
- Hashing and ABI decoding: any functions that fit the assumptions above.
- Price and metadata sweeps, preflight, validation, configuration, row shaping of orders and competitions: field mapping without a property that spans operations.

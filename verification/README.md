# php-tree-viz: verified model

php-tree-viz collects per-call traces of PHP requests. Extensions post batches of calls; a collector
(Rust) stores them as files, decodes them, and folds the calls into one calling-context tree per
trace, kept in SQLite; a small PHP API serves the trees. Batches arrive at least once, in any order,
and the two databases involved are committed one after the other. This project models that pipeline
in Dafny and proves what its design promises. The main results:

- **The tree does not depend on delivery.** The stateful, incremental aggregator (reverse loop over a
  batch, parking table, seed-then-cascade drain, gate that skips the drain) always ends in the tree of
  the delivered calls, which `CallTree` defines without node ids, parking, batches or order
  (`AggregateCalls`, `SettledIsTree`, `OrderIndependence`, `QueuesAgree`). The one column that may
  depend on it, `depth`, does so exactly when the wire depths do not fit together (`HistoriesAgree`,
  `OrdersDisagree`).
- **The index row is accounted for over every run** of recordings, ticks and prunes. What it says plus the
  sum of what lost index commits kept from it is what the trace file holds (`RunConservation`); without
  a lost commit it is exact (`RunIsExact`) and two histories of the same calls get the same row counts
  (`QueuesAgreeOnIndex`). What a loss, a retry or a prune does to it is stated as an if-and-only-if on
  the state before (`RetryRepairsIff`, `OrphanedRowIsAhead`, `LostCommitLosesRawIff`). Every other column
  of the row and of the file's meta row is read off the run too (`RunColumns`).
- **Ingest is safe under every interleaving** of handlers, decoder and directory removal
  (`RenameNeverReplaces`, `NumbersIncrease`, `AnswersAreTrue`, `FileThereIff`), every status has its own
  cause (`AnswersHaveCauses`), and no request gets stuck (`SomeoneMoves`, `StepsAreFew`).
- **The query and text pieces of the API** (tree window, LIKE filter, paging, config reader against the
  config writer) do what they are for, on all inputs or exactly on those the theorem names
  (`WindowIsExact`, `SortedAsAsked`, `PatternFindsText`, `PagesListTheMatchesIff`, `RoundTripIff`,
  `ReadsWhatItSays`).
- **From batches to the screen.** After any run that loses no calls of a trace, each item of its tree shows
  the name its batches gave the function first and figures summed, field by field, over exactly the
  delivered calls with that context (`ItemsTell`).

## How the model is laid out

| files | part of the system |
|---|---|
| `Wire`, `CallTree` | decoded batches; the specification: contexts, grounded calls, the tree |
| `TraceTables`, `Drain`, `Aggregate` | the per-trace tables, their invariant, the aggregator as a class (`TraceDb`) |
| `Refinement`, `SelfTime`, `Figures`, `Deliveries` | tables against specification; counters; what they are in terms of the calls' fields; order independence |
| `Names` | which dictionary entry a function id gets |
| `Depths`, `DepthOrders` | the depth column: when all orders agree on it, and two orders that do not otherwise |
| `Ledger`, `TraceStorage`, `Lifecycle` | record, finalize and delete over two databases (class `Storage`), and what the index row owes to the file |
| `Finalize`, `Decoder`, `RunLedger`, `RowColumns` | the idle tick; the decoder loop with ticks and prunes in between; the index row over such runs, as an account and column by column |
| `Scenarios` | what a lost index commit can cost, and one input each for claims that fail |
| `Digits`, `BatchFiles`, `Ingest`, `Answers`, `Progress` | batch file names and numbers; the commit protocol as a step model; which answer a request gets; why it gets one |
| `TreeWindow`, `Response`, `Like`, `Paging` | the tree query; what its items say of the recorded batches; the trace list's filter and pages |
| `ConfigScalar`, `ConfigText`, `Config`, `ConfigRoundTrip`, `ConfigLines` | writer and reader of `collector.toml`; the round trip; what the reader makes of any text |

Code that updates tables, rows or queues in place is modelled by methods over class fields, each with a
contract that gives its whole new state as a function of the old one; the theorems are lemmas about
those functions. A transaction works on its own `TraceDb` and a commit writes it back. SQL statements
return rows in any order their ORDER BY leaves open, a new one each time. Whether a commit fails, what
the clock shows and in which order a directory lists its entries are inputs. `delivered`, `ledger` and
`orphaned` are ghost bookkeeping: what the tables still account for, what the index row lacks, and which
rows outlived their files. The theorems over runs do not rest on it: `RunLedger` reads what was lost and
dropped off the rows and files along the run. Before the cap a tick leaves a trace with pending rows alone
even when commits fail (`Finalize.TickDefersPending`); over series of ticks see `FinalizedIffDue`.

Assumptions carried by the theorems, as the wire format states them: call ids start at 1
(`wire.rs:120`), and, where a theorem says `OnePayload`, one call id stands for one call. Call and
function ids are naturals; a call's wall is the saturating 64-bit difference clamped at zero, sums of
walls are unbounded. Raw directories found at start hold numbers up to 9999, as no other name parses
(`BatchFiles.ParsesIff`).

## What the model found

- `storage/mod.rs:235-244` says a retry of the batch repairs the index row after a lost index commit.
  The retry counts no call: the call count is repaired if and only if the batch had no new call, the
  wall if and only if no new call took any time (`Lifecycle.RetryRepairsIff`). A new trace whose first
  batch loses its commit, the case the comment is about, stays at zero calls
  (`Scenarios.RetryDoesNotRepair`). What does heal by the next commit that succeeds is the pending count,
  on a recording, and the anomaly count, on a finalize (`Lifecycle.PendingCountHeals`,
  `AnomalyCountHeals`).
- A lost index commit also leaves `pending_count` stale; the next tick can then take the clean path,
  drop parked calls and delete the raw batches they came from. It does so if and only if some call has
  no calling context once the batch is recorded (`Scenarios.LostCommitLosesRawIff`; one run is in
  `LostCommitLosesRaw`). The next index commit that succeeds ends the danger, whatever was lost before
  (`Finalize.RawRemovedOnlyWhenDrained`).
- The index can be ahead of the trace file, against `storage/mod.rs:409-411`: a prune that loses its index
  commit leaves a row without a file, ahead unless it had counted nothing; the next prune removes it
  (`Lifecycle.OrphanedRowIsAhead`, `RetriedPruneCatchesUp`; one run is `Scenarios.PruneLeavesRowAhead`).
  Without such a prune it never is, whatever else is lost (`RunLedger.RunNeverAhead`).
- A batch for a finalized trace sets the CPU flag of the file's meta row and leaves the one of the index
  row: without lost commits the two agree if and only if the trace was finalized after its last batch, or
  its last finalize found CPU time or there was none (`RowColumns.FlagsAgreeIff`). The comment at
  `storage/mod.rs:970-976` claims agreement for that path.
- The `depth` column is independent of arrival order if and only if the wire depths fit together: calls
  below the root at 1, others one deeper than their parent, and the top-level calls of the root's own
  function, which are never parked, all alike. The tests' convention fits
  (`storage/mod.rs:2733-2737`); the documented one (`wire.rs:130-131`, script body at 0) does not for
  any script body with a function of its own (`DepthOrders.DocumentedFitsIff`).
- `storage/aggregate.rs:521-524` says a drained child's depth is the parent's depth plus one. The cascade
  carries the depth the parent was folded at, so the comment is right if and only if the parent's row has
  that depth (`Drain.DrainedChildDepthIff`). In `DepthOrders.CascadePassesTheRow` a child is folded at 3
  below a row at 7.
- Following `has_more` lists every matching trace exactly once, for every choice the database makes, if
  and only if no page boundary falls inside a group of matches with equal start time: the ORDER BY has
  no tie-break (`Paging.PagesListTheMatchesIff`).
- An answer of 200 does not promise that the batch is recorded: its file is there for the decoder
  exactly until the raw directory is removed, and that removal does not look at the queue
  (`Ingest.FileThereIff`; one run is `Ingest.AcceptedFileGone`).
- "The reverse loop parks nothing when parents are later in the array" needs one thing more: the
  parent must not be sitting parked from an earlier batch (third clause of `Aggregate.Arrives`; one run
  is `Scenarios.WaitingParentParks`).
- The seed query's join is right exactly as long as no call with id 0 is folded elsewhere
  (`Drain.JoinAgreesIff`).
- A DQ-2 verdict does not mean that the parent never arrived, as the comment at
  `storage/mod.rs:444-457` has it: the parent may have arrived and be parked itself
  (`Lifecycle.FinalizeVerdictsAreTrue`; one run is `Scenarios.MissingParentArrived`).
- `parse_batch_number` accepts a leading plus sign, as Rust's `u32` parser does
  (`BatchFiles.PlusSignParses`; `ParsesIff` has all names that parse); batch names are still never reused,
  because the scan takes the maximum.
- The config reader splits lines on a bare carriage return and the writer does not escape it: the
  round trip holds exactly when no string value contains one (`ConfigRoundTrip.RoundTripIff`).
- The root's own total stays zero, so its raw self time is negative unless all top-level walls are
  zero (`SelfTime.RootSelfTime`); every other node's is non-negative when calls nest.

## Model

| member | source | states |
|---|---|---|
| Refinement.SettledIsTree | crates/php-tree-viz-collector/src/storage/aggregate.rs:361-453 | The node table, with ids replaced by the contexts they stand for, is the calling-context tree: one row per distinct context, every counter the sum over the calls with that context. |
| Refinement.SettledIsLeastFixpoint | crates/php-tree-viz-collector/src/storage/aggregate.rs:175-263 | In a settled file the folded calls are exactly the least fixpoint, the parked ones exactly the rest, with their payloads intact. |
| CallTree.GroundedIsLeastFixpoint | crates/php-tree-viz-collector/src/storage/aggregate.rs:175-263 | The calls that have a calling context are the least set closed under "known function, and no parent or a parent in the set": the set the aggregator is to fold, defined without it. |
| Aggregate.TraceDb.AggregateCalls | crates/php-tree-viz-collector/src/storage/aggregate.rs:175-263 | After every batch the tables are settled: invariant plus no parked call that could be folded, also when the gate skips the drain. Deliveries are first-wins by call id; the counters equal what the tables did; the loop folded and parked exactly the calls `FoldedOnArrival` and `ParkedOnArrival` read off the batch, and parked nothing if and only if every call arrived in order. A new row takes its depth from the call that made it: the wire depth on arrival, one more than the parent's if drained. |
| Aggregate.TraceDb.DrainPending | crates/php-tree-viz-collector/src/storage/aggregate.rs:490-605 | One seed pass and the child cascade reach quiescence and only move parked calls to folded ones; the child queries return no more rows in total than were parked; on quiescent tables nothing changes. Each call is folded one deeper than its parent: the row's depth for a parent folded before, the depth it was folded at for one the drain folded. |
| Refinement.AnyFoldOrderAgrees | crates/php-tree-viz-collector/src/storage/aggregate.rs:490-605 | Rescanning the parked rows in any order until nothing resolves takes at most one fold per row and ends in the same tree, parked set and inversions as the worklist. |
| Deliveries.OrderIndependence | crates/php-tree-viz-collector/src/storage/mod.rs:2854-2909 | Histories that reorder, re-split or repeat batches but deliver the same calls and functions leave the same tree, folded and parked calls and inversions. |
| Deliveries.DeliveryIsASet | crates/php-tree-viz-collector/src/storage/aggregate.rs:185-206 | With one payload per call id, what a history of batches delivers depends only on its set of calls. |
| Deliveries.RedeliveryAddsNothing | crates/php-tree-viz-collector/src/storage/mod.rs:151-165 | A batch delivered again, at once or later, adds zero to both index counters and reports all its calls as skipped. |
| Decoder.Run | crates/php-tree-viz-collector/src/http/server.rs:68-149 | A series of queue items, idle ticks and prunes does to every trace exactly its own share: a parsed batch is recorded in its file and, unless that commit is lost, in its row; unreadable files and failed commits change nothing; nothing stops the loop. |
| Decoder.RunFollows | crates/php-tree-viz-collector/src/http/server.rs:68-149 | After such a run every trace no turn took calls from is where its own batches, in their own order, put it. |
| Decoder.QueuesAgree | crates/php-tree-viz-collector/src/storage/mod.rs:2854-2909 | Two whole runs that carry the same calls and functions for a trace leave its file the same up to row ids, however they interleave other traces, reorder, split or repeat its batches, and wherever they finalize it with nothing parked. |
| RunLedger.QueuesAgreeOnIndex | crates/php-tree-viz-collector/src/storage/mod.rs:2854-2909 | If no index commit of the trace is lost in either run, both have its index row, with the same call count, wall and pending count. |
| Refinement.SettledInversions | crates/php-tree-viz-collector/src/storage/aggregate.rs:443-450 | Inverted-time rows are exactly the folded calls whose clocks ran backwards, once each, at the right node. |
| DepthOrders.HistoriesAgree | crates/php-tree-viz-collector/src/storage/mod.rs:2854-2909 | If the wire depths of the calls that have a context fit together, two whole delivery histories that reorder, re-split or repeat the same calls and functions end with the same depth column. |
| DepthOrders.OrdersDisagree | crates/php-tree-viz-collector/src/storage/aggregate.rs:361-453 | The converse: for every set of calls and every offending pair of it, two recorded histories of exactly these calls and functions whose depth columns differ. |
| DepthOrders.FitsIffNoOffenders | crates/php-tree-viz-collector/src/storage/aggregate.rs:516-605 | Wire depths fit together if and only if there is no offending pair: a drainable call not one deeper than its parent, or two never-drained calls that differ. |
| DepthOrders.DocumentedFitsIff | crates/php-tree-viz-collector/src/wire.rs:130-131 | Under the documented convention (top-level calls at 0) the depths fit if and only if every grounded top-level call is of the root's own function. |
| DepthOrders.ScriptBodyBothWays | crates/php-tree-viz-collector/src/wire.rs:130-131 | One script body at depth 0, recorded with its dictionary entry and before it: different depth columns. |
| Depths.FittingOrdersAgree | crates/php-tree-viz-collector/src/storage/mod.rs:2733-2737 | If the wire depths of the grounded calls fit together, two settled traces of them have the same depth column. |
| Depths.DepthIsWireDepth | crates/php-tree-viz-collector/src/storage/aggregate.rs:361-453 | In every state, if the folded calls' wire depths fit together, a row's depth is the wire depth of every call in it. |
| Depths.ArrivalMattersIff | crates/php-tree-viz-collector/src/storage/aggregate.rs:361-453 | Folding a call on arrival and folding it out of the parked rows leave the same tables if and only if its row existed or its wire depth is the parent row's plus one. |
| SelfTime.SelfTimeNonNegative | api/internal/tree.php:342-348 | If every call lasts at least as long as its direct children together, every non-root row has total at least its children's total, in every state on the way. |
| SelfTime.RootSelfTime | api/internal/tree.php:342-348 | The root takes no calls; its raw self time is non-negative if and only if all top-level rows have zero wall. |
| SelfTime.ChildrenColumn | crates/php-tree-viz-collector/src/storage/aggregate.rs:405-424 | In every state each row's running children column equals the sum of its child rows' totals, the root's included. |
| SelfTime.TreeConserves | crates/php-tree-viz-collector/src/storage/aggregate.rs:361-453 | The non-root rows account for every folded call exactly once, in every column. |
| Figures.RowFigures | crates/php-tree-viz-collector/src/storage/aggregate.rs:361-453 | In every state every row's counters are sums over the fields of the calls folded into it: user and system CPU, calls, abnormal exits counted, exit minus entry time (none for an inverted call, at most the largest 64-bit value), memory growth within 64 bits; its children column is the time of the calls folded one row below. |
| Figures.TreeFigures | crates/php-tree-viz-collector/src/storage/aggregate.rs:361-453 | The same of every row of the specified tree, over the calls with that context. |
| TraceTables.FoldNewKeepsInv | crates/php-tree-viz-collector/src/storage/aggregate.rs:361-453 | Folding a new call keeps the whole table invariant: one tree rooted at id 1 with parents before children and unique (parent, function), calls partitioned into folded and parked, every folded call in the row of its own function below its parent's row, every counter and children column equal to the sums over the calls it stands for, one inverted-time row per inverted folded call, depth right if the wire's depths are. |
| TraceTables.ParkKeepsInv | crates/php-tree-viz-collector/src/storage/aggregate.rs:459-488 | Parking a new call keeps that invariant. |
| TraceTables.ResolveKeepsInv | crates/php-tree-viz-collector/src/storage/aggregate.rs:613-644 | Folding a parked call at the recomputed depth and deleting its row keeps that invariant. |
| TraceTables.DropKeepsInv | crates/php-tree-viz-collector/src/storage/mod.rs:444-483 | Deleting every parked row and adding verdict rows, as finalize does, keeps it for the folded calls. |
| Aggregate.SeedEstablishesInv | crates/php-tree-viz-collector/src/storage/aggregate.rs:145-169 | Dictionary entries followed by the synthetic root turn a new or settled file into one that satisfies the invariant, whatever the entries; without entries nothing becomes resolvable. |
| Aggregate.TraceDb.InsertDict | crates/php-tree-viz-collector/src/storage/mod.rs:987-989 | The loop computes `AddEntries`, INSERT OR IGNORE under the kind check entry by entry; what that leaves is `Names.AddEntriesAt`. |
| Names.AddEntriesAt | crates/php-tree-viz-collector/src/storage/mod.rs:987-989 | For every function id: the entry it had, or else the first offered entry for it whose kind is at most 3, unchanged, or else none. |
| Names.SeedNames | crates/php-tree-viz-collector/src/storage/aggregate.rs:145-169 | Seeding leaves every known id alone and adds only id 0, with the root's entry, when it is new. |
| Aggregate.TraceDb.UpsertNode | crates/php-tree-viz-collector/src/storage/aggregate.rs:821-839 | The upsert lands on the one row with this parent and function, or on a fresh id, and adds the call's deltas; what the columns then are in terms of the calls' fields is `Figures.RowFigures`. |
| Aggregate.TraceDb.FoldCallIntoNodes | crates/php-tree-viz-collector/src/storage/aggregate.rs:361-453 | The new state is the fold of the call into its bucket: row, parent's children sum, id mapping, inverted-time row; the outcome counts the inversion. The resulting columns are spelled out in `Figures.RowFigures`. |
| Aggregate.TraceDb.QuerySeed | crates/php-tree-viz-collector/src/storage/aggregate.rs:657-664 | Exactly the parked calls that are top-level or have a folded parent, once each, with the row the join computes. |
| Aggregate.TraceDb.QueryChildren | crates/php-tree-viz-collector/src/storage/aggregate.rs:671-677 | Exactly the parked calls of one parent, once each. |
| Aggregate.TraceDb.ResolvePendingRow | crates/php-tree-viz-collector/src/storage/aggregate.rs:613-644 | Folds the row at the given depth, deletes it, counts it. |
| Drain.JoinAgreesIff | crates/php-tree-viz-collector/src/storage/aggregate.rs:657-664 | The seed query's join finds the row `resolve_parent` would for every selected call if and only if call id 0 is not folded outside the root. |
| Drain.DrainedChildDepthIff | crates/php-tree-viz-collector/src/storage/aggregate.rs:516-605 | A call drained below a call of the same drain is one deeper than its parent's row if and only if that row has the depth the parent was folded at. |
| DepthOrders.CascadePassesTheRow | crates/php-tree-viz-collector/src/storage/aggregate.rs:516-605 | Three batches after which a row at depth 3 hangs from a row at depth 7. |
| RunLedger.RunConservation | crates/php-tree-viz-collector/src/storage/mod.rs:948-978 | Over every run, whatever fails, for a trace not seen before: index call count plus the sum of what lost index commits kept from it is folded plus parked calls plus verdicts ever written; wall likewise is the non-root wall plus that of parked calls and of the calls finalizes dropped; anomaly count likewise. All of it is read off rows and files. |
| RunLedger.RunIsExact | crates/php-tree-viz-collector/src/storage/mod.rs:142-281 | In every run without a lost index commit of the trace, call count, wall, anomaly count, pending count and state of its row are what the file says, and a file with content has a row. |
| RunLedger.RunNeverAhead | crates/php-tree-viz-collector/src/storage/mod.rs:235-244 | Over every run without a lost prune commit, whatever other index commits are lost, the three counters never exceed what the file holds and finalizes dropped. |
| RunLedger.RunRemovesRawWhenDrained | crates/php-tree-viz-collector/src/storage/mod.rs:569-588 | After a run without a lost index commit a tick removes raw batches only of a trace with nothing parked, and writes no verdict. |
| RowColumns.RunColumns | crates/php-tree-viz-collector/src/storage/mod.rs:948-986 | In every run without a lost index commit of the trace: there is a row if and only if a batch was recorded since the last prune; it counts those batches, carries the clocks of the first and the last, the dropped records of the last, and state and CPU flag of the last finalize; the meta row agrees, its CPU flag being set anew by every batch. |
| RowColumns.ItemsAreHistory | crates/php-tree-viz-collector/src/storage/mod.rs:948-986 | Without a prune the batches the row speaks of are those of the trace's recorded history, in order. |
| RowColumns.RecordSets | crates/php-tree-viz-collector/src/storage/mod.rs:948-986 | What one recorded batch makes of each of the row's ten columns and of the meta row, against the file before and after, with and without the index commit. |
| RowColumns.FinalizeSets | crates/php-tree-viz-collector/src/storage/mod.rs:509-556 | What a finalize makes of each column: four are set, six stay; the CPU flag, in row and meta row, holds if and only if the folded calls' CPU fields sum to more than zero; a lost index commit leaves the row and still sets the meta row. |
| RowColumns.RunFinalizeSets | crates/php-tree-viz-collector/src/storage/mod.rs:509-556 | The same for any finalize on the way of any run, whatever was lost before. |
| RowColumns.FlagsAgreeIff | crates/php-tree-viz-collector/src/storage/mod.rs:970-986 | The CPU flags of index row and meta row agree if and only if the trace was finalized after its last batch, or its last finalize found CPU time or there was none. |
| RowColumns.RowFiguresOverRuns | crates/php-tree-viz-collector/src/storage/aggregate.rs:185-206 | In a run that loses neither calls nor index commits the row counts the calls its batches deliver and the time they took. |
| Lifecycle.IndexNeverAhead | crates/php-tree-viz-collector/src/storage/mod.rs:235-244 | The same as an invariant of the store: every row whose files were not removed from under it is within its file. |
| Lifecycle.OrphanedRowIsAhead | crates/php-tree-viz-collector/src/storage/mod.rs:617-664 | After a prune that loses its index commit the row is within what is left if and only if it had counted no call, no wall and no anomaly. |
| Lifecycle.RetriedPruneCatchesUp | crates/php-tree-viz-collector/src/storage/mod.rs:617-664 | Pruning again with both commits leaves what one faultless prune would have left. |
| Lifecycle.RetryRepairsIff | crates/php-tree-viz-collector/src/storage/mod.rs:235-244 | After a lost index commit and a retry the call count is exact if and only if it lacked nothing before and every call of the batch was already known; the wall if and only if it lacked none and every new call took no time. |
| Scenarios.LostCommitLosesRawIff | crates/php-tree-viz-collector/src/storage/mod.rs:235-281 | For every state: a lost index commit on an active row with nothing pending, then a faultless tick past idle, removes the raw batches and drops exactly the calls without a context; damage if and only if there is one, read off the state before the batch. |
| Scenarios.LostCommitLosesRaw | crates/php-tree-viz-collector/src/storage/mod.rs:235-281 | A concrete run in which a lost index commit ends with a parked call dropped and its raw batches removed. |
| Scenarios.RetryDoesNotRepair | crates/php-tree-viz-collector/src/storage/mod.rs:235-244 | One call into an empty store, its index commit lost, then the retry: the row counts zero calls, the file holds one. |
| Scenarios.PruneLeavesRowAhead | crates/php-tree-viz-collector/src/storage/mod.rs:617-664 | One call recorded, then a prune whose index commit is lost: the row counts one call and there is no file. |
| Scenarios.MissingParentArrived | crates/php-tree-viz-collector/src/storage/mod.rs:444-483 | A DQ-2 row names as missing a parent that arrived in the same batch. |
| Scenarios.WaitingParentParks | crates/php-tree-viz-collector/src/storage/aggregate.rs:185-237 | A batch with the parent later in the array and all functions known parks a call, because the parent already waits. |
| Lifecycle.FinalizeVerdictsAreTrue | crates/php-tree-viz-collector/src/storage/mod.rs:444-483 | On every reachable disk, with or without lost commits, each anomaly row a finalize adds is a true verdict on a call that was parked; a DQ-2 row's parent had arrived if and only if it was parked itself. |
| Lifecycle.RetriedFinalizeAddsNothing | crates/php-tree-viz-collector/src/storage/mod.rs:409-414 | A retried finalize writes no verdict again. |
| Lifecycle.CleanFinalizeWritesNothing | crates/php-tree-viz-collector/src/storage/mod.rs:569-588 | Finalizing a trace whose row is in step and counts nothing pending writes no verdict. |
| TraceStorage.Storage.RecordBatch | crates/php-tree-viz-collector/src/storage/mod.rs:142-281 | Per-trace commit first, index upsert second; for each fault the resulting disk is given in full and stays consistent; a lost index commit leaves the row behind by exactly the batch's deltas. The row's columns are spelled out in `RowColumns.RecordSets`. |
| TraceStorage.Storage.FinalizeTrace | crates/php-tree-viz-collector/src/storage/mod.rs:432-596 | For each fault the resulting disk in full; raw batches go only after a clean, faultless finalize; the connection is evicted once both commits are through; the disk stays consistent. The row's columns are spelled out in `RowColumns.FinalizeSets`. |
| TraceStorage.Storage.DeleteTrace | crates/php-tree-viz-collector/src/storage/mod.rs:617-664 | Files first, index row last: nothing is left, or only the row when its commit fails, and no other trace is touched. |
| TraceStorage.DropResiduals | crates/php-tree-viz-collector/src/storage/mod.rs:444-483 | Every parked call gets exactly one verdict of the right kind, the two counts say how many of each, the parked rows are gone, nothing else changes. |
| TraceStorage.CpuSnapshotAvailable | crates/php-tree-viz-collector/src/storage/mod.rs:831-847 | True exactly when the non-root rows' CPU columns sum to more than zero. |
| TraceStorage.CpuOfFolded | crates/php-tree-viz-collector/src/storage/mod.rs:831-847 | That sum is the CPU of the folded calls. |
| Finalize.FinalizedIffDue | crates/php-tree-viz-collector/src/finalize.rs:56-88 | Over any series of faultless ticks without a batch in between, an active trace is finalized if and only if some tick came after it was due (idle time with nothing pending, the cap otherwise); until then nothing of it is touched. |
| Finalize.CapNeedsIdle | crates/php-tree-viz-collector/src/config/mod.rs:335-343 | Past the cap every active trace is finalized, pending or not, if and only if the cap is at least the idle time, the relation the configuration enforces. |
| Finalize.TickRemovesRawIff | crates/php-tree-viz-collector/src/storage/mod.rs:569-588 | A tick removes raw batches if and only if the row says active, idle, nothing pending, and nothing fails. |
| Finalize.RawRemovedOnlyWhenDrained | crates/php-tree-viz-collector/src/storage/mod.rs:569-588 | Unless the last commit to the file was followed by a lost one to the index, raw batches go only when the file has nothing parked, and its tables stay as they were; commits lost earlier do not matter. |
| Finalize.RunOneTick | crates/php-tree-viz-collector/src/finalize.rs:56-113 | One tick does to each trace what its own row and its own fault decide, and nothing to any other; one trace's failure does not stop the rest. |
| Finalize.ListIdleActiveTraces | crates/php-tree-viz-collector/src/storage/mod.rs:332-371 | Exactly the active traces whose last batch is older than the cutoff, once each, with their columns. |
| Ingest.QueueAndMutexSafety | crates/php-tree-viz-collector/src/http/ingest.rs:129-176 | In every reachable state queued plus reserved slots stay within capacity, handlers of a key share one mutex, and one at a time is inside it. |
| Ingest.RenameNeverReplaces | crates/php-tree-viz-collector/src/http/storage.rs:58-85 | No rename replaces an existing batch file; numbers are 1 to 9999 and their names read back. |
| Ingest.NumbersIncrease | crates/php-tree-viz-collector/src/http/storage.rs:122-152 | Numbers in one lifetime of a raw directory strictly increase; a path is reused only after a removal. |
| Ingest.AnswersAreTrue | crates/php-tree-viz-collector/src/http/ingest.rs:129-176 | 200 if and only if the submission was sent, for a file the handler itself renamed into place; 4xx, 503 and trace-full answers renamed nothing. Which status it is: `Answers.AnswersHaveCauses`. |
| Answers.AnswersHaveCauses | crates/php-tree-viz-collector/src/http/ingest.rs:129-176 | Over every run, for an answered request: 503 if and only if every slot was taken when it asked, 4xx if and only if it was rejected, trace-full if and only if 9999 was in its directory when it picked, 500 if and only if an I/O step failed, 200 if and only if its file was synced. |
| Progress.SomeoneMoves | crates/php-tree-viz-collector/src/http/ingest.rs:129-176 | In every reachable state a request without an answer can take a step, or waits for the mutex of its trace while another request of that trace is inside and can take one. |
| Progress.StepsAreFew | crates/php-tree-viz-collector/src/http/ingest.rs:129-176 | Over every run each request takes at most nine steps. |
| Ingest.FileThereIff | crates/php-tree-viz-collector/src/storage/mod.rs:569-588 | A committed file is in place if and only if its directory was not removed since its rename. |
| Ingest.AcceptedFileGone | crates/php-tree-viz-collector/src/http/ingest.rs:129-176 | A reachable state in which a request was answered 200 and the decoder took its submission after the raw directory was gone. |
| Ingest.FailedSyncLeavesFile | crates/php-tree-viz-collector/src/http/storage.rs:58-85 | A reachable state in which a request was answered with an internal error after its rename: the file stays and nothing was sent. |
| Ingest.StepPickedFree | crates/php-tree-viz-collector/src/http/storage.rs:58-85 | Between picking a number and renaming, nobody else adds a file to that directory. |
| BatchFiles.NextBatchNumber | crates/php-tree-viz-collector/src/http/storage.rs:122-152 | One past the largest number in the directory, or 1, whatever else is there; no entry has the name that number gets. |
| BatchFiles.NameRoundTrip | crates/php-tree-viz-collector/src/http/storage.rs:155-162 | The name of every number from 0 to 9999 parses back to it. |
| BatchFiles.PlusSignParses | crates/php-tree-viz-collector/src/http/storage.rs:155-162 | A name with a plus sign among its four characters parses too. |
| BatchFiles.ParsesIff | crates/php-tree-viz-collector/src/http/storage.rs:155-162 | The only names that stand for a number are the one the collector writes for it and, up to 999, the one with a plus sign for the leading zero. |
| TreeWindow.WindowIsExact | api/internal/tree.php:51-74 | The tree query returns exactly the nodes within the depth limit, once each, with their distance from the root. |
| TreeWindow.ParentsFirst | api/internal/tree.php:51-74 | Every returned node but the root comes after its parent, under each whitelisted sort. |
| TreeWindow.ChildrenLoadedIff | api/internal/tree.php:204-214 | children_loaded is true if and only if all children of the node are in the response. |
| TreeWindow.HiddenIsBehindUnloaded | api/internal/tree.php:204-214 | A node the response leaves out is below a returned node marked as not loaded. |
| TreeWindow.PlanDoesNotMatter | api/internal/tree.php:29-38 | The tie-break makes the order total: the response does not depend on scan order or sorting algorithm. What it sorts by: `TreeWindow.SortedAsAsked`. |
| TreeWindow.SortedAsAsked | api/internal/tree.php:29-38 | Levels never decrease along the response; within a level total wall, self wall before the clamp, calls or memory never increase, or the function name never decreases, as asked, and rows alike in it stand by node id. |
| TreeWindow.AnswerExists | api/internal/tree.php:51-74 | Every table, depth and sort key has an answer; with the previous row, exactly one. |
| TreeWindow.BuildItems | api/internal/tree.php:204-214 | The handler's loop makes one item per row, in order, with the loaded flag from the row's own level. |
| TreeWindow.ItemPlace | api/internal/tree.php:340-371 | An item names its place: its parent is the row of the context one function up, its function the last of its own context, its depth the distance from the root if the wire's depths are right, and has_children is true if and only if calls were folded below it. |
| TreeWindow.ItemFigures | api/internal/tree.php:340-371 | An item's counters are those of exactly the calls at that node, its anomaly count the number of them with inverted clocks; its self time is their wall less that of the calls below, or zero where that is negative, which below the root of a nested trace it never is. |
| Response.ItemsTell | api/internal/tree.php:340-371 | After any run that loses no calls of a trace each item carries the first acceptable entry its batches offered for the function of its context, sums over the fields of exactly the delivered calls with that context, the self time they leave, the number of inverted ones, and has children if and only if calls were delivered below. |
| Like.PatternFindsQuery | api/traces.php:157-173 | Under LIKE with the backslash escape the built pattern matches a URI if and only if the URI contains the query, up to ASCII case, for every query. |
| Like.PatternFindsText | api/traces.php:157-173 | The same letter by letter: matched if and only if the query stands somewhere in the URI, the 26 letters counting alike in upper and lower case and every other character as itself. |
| Like.EscapingNeededIff | api/traces.php:157-173 | The unescaped pattern would mean the same if and only if the query has no percent sign, underscore or backslash. |
| Paging.PagesListTheMatchesIff | api/traces.php:118-151 | For every choice of row order in every request, following has_more lists the rows whose URI contains the query, each exactly once, if and only if no page boundary splits a group of such rows with equal start time. |
| Paging.SplitsIff | api/traces.php:35-38 | A boundary splits a group if and only if the rows on its two sides, in any order by start time, started together. |
| Paging.TwinsMayRepeat | api/traces.php:35-38 | Two traces with one start time, one per page: the second page may show the first again and the other never. |
| ConfigRoundTrip.RoundTripIff | api/internal/config.php:193-337 | For all well-formed names and all values, reading what was written returns the same sections, keys and values if and only if no string has a carriage return; with one, the file is rejected. |
| ConfigScalar.ScalarReadsBack | tests/api/fixtures/make_config.php:69-86 | Every boolean, 64-bit integer and string reads back from its printed form. |
| ConfigRoundTrip.EscapedCharacters | tests/api/fixtures/make_config.php:69-86 | A printed string escapes backslash, quote and line feed and prints every other character as itself. |
| ConfigScalar.StringsRead | api/internal/config.php:280-337 | Quoted text is read as a string if and only if it spells one, with the five escapes and no bare quote. |
| ConfigScalar.QuotedErrors | api/internal/config.php:280-337 | Other quoted text fails: as malformed if it is not closed or not in units, else for the first unknown escape in it. |
| ConfigScalar.IntegersRead | api/internal/config.php:305-312 | Underscores may stand anywhere after the sign; the value is that of the digits, brought into the 64-bit range; underscores alone are malformed. |
| ConfigScalar.BareValues | api/internal/config.php:280-317 | Unquoted text is a boolean, an integer, or an error of its own kind, and never a string. |
| ConfigRoundTrip.CommentIgnored | api/internal/config.php:248-278 | A printed value, with a hash in it or not, reads back whatever comment follows it. |
| ConfigRoundTrip.UnclosedFails | api/internal/config.php:280-317 | A quote opened and not closed on its line is always rejected as a malformed string. |
| ConfigRoundTrip.AsMapLookup | tests/api/fixtures/make_config.php:47-55 | The map that comes back has exactly the written sections, each with its own entries. |
| ConfigLines.ReadsWhatItSays | api/internal/config.php:193-242 | For every text: it is read if and only if no line is faulty; the result then has a section for every header and in it, for every key, the value of the last line that assigns it under that name, and nothing else; otherwise the fault of the first faulty line is reported. |
| ConfigLines.RejectedIff | api/internal/config.php:193-242 | A line is rejected if and only if it has one of the faults, and for that one: a bad header, no section yet, no assignment, a bad value. |
| ConfigLines.LinesIff | api/internal/config.php:193-201 | The reader's lines are what stands between line breaks of the three kinds, a carriage return taking a line feed after it along. |
| ConfigLines.AssignmentIff | api/internal/config.php:229-236 | A line is taken for an assignment if and only if it is a name, an equals sign and a text with space around the sign. |
| ConfigLines.CommentIff | api/internal/config.php:248-278 | A comment is cut off if and only if a hash follows a part in which every quote is closed and no hash stands outside quotes, and it is cut there. |
| ConfigLines.TrimIff | api/internal/config.php:205-205 | `trim` takes off the blanks at both ends, all of them and nothing else. |
| ConfigLines.CharacterClasses | api/internal/config.php:205-236 | Which characters are blanks of `trim`, space of the patterns, and part of a name, by code point. |
| Config.MakeConfig | tests/api/fixtures/make_config.php:47-61 | The nested loops print the header, then per section a blank line, its name and its entries. |
| Config.Parse | api/internal/config.php:193-242 | The loop computes the fold of the line parser, with the first error and its line number. |
| ConfigText.StripTrailingComment | api/internal/config.php:248-278 | The two-flag scanner computes its recursive definition. |

## Left out

- SQLite and PDO themselves: tables are maps and sequences with the schema's keys and checks, a transaction is atomic with a fault as input, integer overflow of summed columns is not modelled.
- MessagePack decoding: batches are given decoded; a file that does not parse is one input value of the decoder.
- TraceStorage.Storage.FinalizeTrace: a removal of the raw directory either succeeds or leaves it whole; `remove_dir_all` stopping halfway, with some batch files gone, is not an outcome.
- TraceStorage.Storage.DeleteTrace: file deletions do not fail; an error with some of the files left is not an outcome, only the lost index commit is.
- Ingest.NumbersIncrease: removing a raw directory is one step, so numbers after a removal that stopped halfway are not covered.
- Ingest.FileThereIff: a file lost to a removal that stopped halfway, or put in place by a rename that outlived its handler, is not covered.
- TraceStorage.Storage.RecordBatch: a trace file that cannot be opened, or has an unknown schema version, is not an outcome; it would fail like a per-trace commit, before anything is written.
- Ingest.RenameNeverReplaces: a handler dropped at an await, as when its client disconnects, is not a step; its rename can still land after the mutex was released, outside the protocol.
- Ingest.StepPickedFree: the same, a late rename of a dropped handler is not among the steps that keep the picked number free.
- Ingest.QueueAndMutexSafety: the same, the permit and the mutex of a dropped handler are not given back in the middle of a request.
- Aggregate.TraceDb.DrainPending: depths are naturals; the overflow of `parent_depth + 1` on a 32-bit depth is not modelled.
- Traces recorded, finalized or pruned between two requests of the list: the rows are those of one moment.
- HTTP framing, body streaming and size checks before the permit: one reject step of the ingest model stands for all early 4xx answers.
- fsync, permissions and crashes in the middle of an I/O call: an I/O failure inside the mutex is one step (`Ingest.FailsInside`), and after a rename it leaves the file in place.
- Trace keys (SHA-256), sessions, bearer tokens, redaction, logging, metrics and health endpoints.
- The retention sweeper's timing; its directory removal appears as a step of the ingest model and `DeleteTrace` as a method.
- Sizes of SQLite files in the outcome of a delete, and schema migrations on open.
- Trace metadata other than state, dropped records and the CPU flag.
- The merge of defaults with overrides in `make_config`, file I/O, PHP's conversion of numeric array keys, and PCRE's backtracking limits: sections are given merged, keys are strings.
- Typed getters and the static cache around the config reader.
- LIKE on text with NUL characters or invalid UTF-8, and SQLite's limit on pattern length.
- Parsing of query parameters (depth, limit, offset, sort) and the children endpoint: single-branch checks and one join already covered by the tree query.
- `viz/js`: rendering and formatting; only how the list view moves on to the next page (`viz/js/list.js:83-84`) is modelled.
- Ingest.AnswersAreTrue: an internal error (500) promises nothing about the file, as in the code: a failed sync leaves it renamed and unsent (`Ingest.FailedSyncLeavesFile`).

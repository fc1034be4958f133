# MonoTS verification

A Dafny model of the parts of MonoTS, a log-structured time-series store, that have to make many layers of
data look like one table keyed by time in which the newest write wins. To verify:
`dafny verify dfyconfig.toml`.

A row is a time and one value standing for all other columns. A layer means a map from time to value, and
"newest wins" is the right-biased sum of those maps (`Rows.dfy`). The specification of a table is the log of
its writes in LSN order (`WriteLog.dfy`); a set of layers *stands for* the log when their LSN spans are
disjoint, every write lies in one of them, and each layer means exactly its stretch of the log. Every
operation of the table is proved to be a run of steps of one state machine (`TableRuns.dfy`), and every run
without one of two unsafe steps is proved to keep the layers standing for the log.

| files | part |
|---|---|
| `WriteLog`, `Table`, `TableRuns`, `LsmTable`, `Reads`, `StaleReads`, `WrongAnswer` | the table: puts, freezes, flushes, bulk loads, compaction, scans and queries |
| `LsmStream`, `MergeCore`, `MergeChunks`, `MergeFiles` | the two heap merges, suspendable for queries and streaming for compaction |
| `Dedup`, `LayerMerge`, `Agreement` | flush planning and the other newest-wins implementations, and their agreement |
| `Sst`, `SstName`, `SstWriter`, `Picks` | file metadata, index, LSN coverage, names, bounds, and the choice of what to compact |
| `Filter`, `Pruning`, `MemScan`, `Buffers` | time pruning, memtable scans and rechunking |
| `MetaStore`, `MetaWal`, `MetaRecovery`, `Crc32` | the metadata store, its log and its checksum |
| `Text`, `TypeScan`, `ColumnTypes`, `TypeNames`, `TypeRoundTrip` | column type names |
| `Backlog`, `BulkPins`, `Memory`, `Calendar` | backlog permits, file pins, memory accounting, day numbers |

Steps are atomic: each section the source runs under one lock is one step. File contents, paths, clocks,
write failures and the meaning of query operands are parameters. Reading a file or a stream does not fail.

## Where the code does not do what it is meant to do

Each of these is kept as the code has it, with a concrete input and the exact condition under which the
intended property does hold.

- Compaction merges in index order, which is by start time, while queries rank by LSN. A table keeps standing for its
  log if and only if, at every time, the last file of the window in index order shows what its newest file shows
  (`Table.CompactOk`, `LsmTable.LsmTable.RunCompactionPass`). The next reads are unchanged if and only if that is
  so at every time whose newest holder in the whole table is in the window (`TableRuns.CompactionReadsExactly`). Only
  windows whose two orders agree are safe for all values (`WriteLog.AgreeExactly`). A run that goes wrong:
  `StaleReads.CompactionCanBeStale`.
- A put of no rows stamps an LSN on an empty memtable, which a bulk load then fails to drain. The load keeps the
  table standing for its log if and only if the memtable was not so marked (`Table.BulkLoadExactly`), and over
  every marked memtable a later put of any time it loaded comes to read as the loaded value
  (`StaleReads.MarkedBulkLoadReadsStale`, `StaleReads.EmptyPutThenBulkLoadIsStale`).
- A memtable scan trusts chunks whose first and last rows are in order. It lists the newest rows if and only if
  such chunks do not reach into each other (`Dedup.PrepareScanBatches`, `MemScan.ScanMemtable`); over a table with one
  memtable that decides an unfiltered query (`LsmTable.LsmTable.Query`, `WrongAnswer.UnscannableAnswer`).
- A stream is not polled again after a zero-row batch; all of its rows are seen if and only if none follow one
  (`LsmStream.DeliveredExactly`).
- NOT BETWEEN on the time column is extracted as BETWEEN. A row the filters keep survives pruning if and only if
  its time is inside the literal bounds of every NOT BETWEEN that no later equality overrides
  (`Filter.ExtractionExact`, `Filter.NotBetweenLosesRows`); with constant bounds one of them costs the whole
  answer (`Pruning.PruningPreservesAnswer`).
- A struct field that is a decimal or a zoned timestamp makes the canonical type name unreadable
  (`TypeRoundTrip.RoundTrip`).
- Files without LSN bounds pass the contiguity test and stretch the merged span. Merging a run that passes it changes
  no coverage answer if and only if all its files have bounds, or none has, or every LSN up to the merged end was
  covered anyway (`Sst.MergeKeepsCoverage`, `Sst.UnboundedFileFakesCoverage`).
- Recovering from memory-only mode drops the records from the first that fails to be written on. A restart still
  finds the live state if and only if a snapshot was taken after all of them and they change no table on top of
  it and the records kept (`MetaStore.RecoverThenRestart`, `MetaStore.LossExactly`, `MetaStore.LostCreate`); a later
  compaction that completes repairs it (`MetaStore.HealedByCompaction`).
- A file name with a negative creation time cannot be read back (`SstName.NameRoundTrip`).
- Date literals accept day 31 in every month. An accepted literal gets the number of another date if and only if
  it names no real one (`Calendar.ImpossibleDatesCollide`, `Calendar.FebruaryThirtyFirst`).

## Model

| member | source | states |
|---|---|---|
| `TableRuns.RunReads` | src/query/src/provider.rs:98-141 | at the end of every run from the empty table of puts, freezes, flushes of the oldest memtable, bulk loads, compactions of hole-free windows, scans and LSNs taken elsewhere, in which no bulk load met a marked memtable and no merge was unfaithful to its window, a scan ranked by LSN shows exactly the last write of each time, in LSN order |
| `TableRuns.RunStands` | src/storage/src/table.rs:566-1316 | every run keeps files and memtables well formed and logs exactly what its steps wrote; without an unsafe step it also keeps the table standing for its log |
| `TableRuns.StepKeeps` | src/storage/src/table.rs:566-1316 | a table standing for its log still does after a step if and only if the step is neither a bulk load over a marked memtable nor an unfaithful compaction |
| `TableRuns.StepShaped` | src/storage/src/table.rs:566-1316 | each step, unsafe ones included, keeps files sorted, readable and tightly bounded and every span below the next LSN |
| `TableRuns.StepLogs` | src/storage/src/table.rs:566-1316 | each step adds its rows, and no others, to the log |
| `TableRuns.CompactionReadsExactly` | src/storage/src/compaction/job.rs:389-424 | a compaction changes no read if and only if, at every time whose newest holder among all layers is in the window, merging the window in index order shows that holder's value |
| `TableRuns.SameWritesSameReads` | src/query/src/provider.rs:98-141 | two clean runs that wrote the same rows in the same order read the same, whatever either froze, flushed or compacted |
| `TableRuns.CompactionInvisible` | src/storage/src/compaction/job.rs:389-424 | replacing a hole-free window by a faithful merge leaves every read of the table unchanged |
| `LsmTable.RunThenQuery` | src/storage/src/table.rs:566-1316 | after any run of puts, empty ones included, freezes, flushes, bulk loads, compactions and LSNs taken elsewhere in which no bulk load met a marked memtable and no merge was unfaithful to its window, a query over scannable memtables returns exactly what its filters select from the last acknowledged write of each time, but for the rows a standing NOT BETWEEN refuses; a run without empty puts and compactions always qualifies; a run of no more steps than the drain limit writes all the rows asked for |
| `LsmTable.RunSteps` | src/storage/src/table.rs:566-1316 | any run of puts, freezes, flushes, bulk loads, compactions and LSNs taken elsewhere is a run of the state machine; the log holds exactly the acknowledged writes, every put is acknowledged, within the drain limit of 1000 memtables every bulk load of some rows is too, and without an unsafe step the table stands for the log |
| `LsmTable.DoStep` | src/storage/src/table.rs:825-877 | a write is acknowledged if and only if its rows enter the log; puts always are, bulk loads exactly when they have rows and the drain limit allows; each operation takes its own steps of the state machine, and only a compaction or a bulk load over a marked memtable can be unsafe |
| `LsmTable.LsmTable.constructor` | src/storage/src/table.rs:247-300 | an empty table stands for the empty log |
| `LsmTable.LsmTable.AllocateElsewhere` | src/common/src/cdc/lsn.rs:50-52 | an LSN handed to another table moves the next LSN on by one and is a clean step |
| `LsmTable.LsmTable.PutBatch` | src/storage/src/table.rs:825-877 | a put is one LSN and one log entry, empty batches included; when the memtable is full and holds rows it is also frozen, leaving a fresh one; a put of some rows leaves an unmarked memtable unmarked |
| `LsmTable.LsmTable.FreezeActiveMemtable` | src/storage/src/table.rs:586-631 | freezing moves the active memtable to the end of the queue exactly when it holds rows |
| `LsmTable.LsmTable.FlushOneImmutable` | src/storage/src/table.rs:1047-1115 | the oldest queued memtable becomes an SST of generation 0 with its LSN span and its meaning; an empty queue changes nothing |
| `LsmTable.LsmTable.FlushAll` | src/storage/src/table.rs:1131-1166 | drains every row to SSTs by clean steps without changing the log; fails exactly when more than 1000 memtables are to be drained |
| `LsmTable.LsmTable.BulkLoadParquet` | src/storage/src/table.rs:1263-1316 | a bulk load succeeds exactly when it has rows and no more than 1000 memtables are to be drained first; it adds one log entry at the next LSN and keeps the table standing for its log if and only if no empty put had marked the active memtable |
| `LsmTable.LsmTable.AllocateBulkLsn` | src/storage/src/table.rs:1483-1498 | the bulk LSN is above every LSN already on disk, so the frontier check never fires |
| `LsmTable.LsmTable.RunCompactionPass` | src/storage/src/compaction/job.rs:360-442 | the pass merges the first hole-free window, in the order tried, of the best window its strategy, threshold and file limit allow, and nothing only if there is none; the inputs nobody pins are unlinked; a table that stood for its log still does if and only if, at every time, the last file of the window in index order shows what the one with the highest LSNs shows |
| `LsmTable.LsmTable.CompactWindow` | src/storage/src/compaction/job.rs:397-440 | merging a window is one compaction step: the merge one generation up in place of the window, exactly the unpinned inputs unlinked |
| `LsmTable.LsmTable.Query` | src/query/src/provider.rs:88-164 | for a table that stands for its log and has scannable memtables, the answer is what the filters select from the last write per time of the whole log, whatever was pruned, but for the rows a standing NOT BETWEEN refuses; with one memtable and no files, an unfiltered answer lists the last writes if and only if the memtable is scannable; every state and every filter list is accepted |
| `WrongAnswer.UnscannableAnswer` | src/storage/src/compaction/dedup.rs:228-279 | two puts into a new table and an unfiltered query whose answer is not the last write of each time |
| `LsmTable.WriteMemtable` | src/storage/src/table.rs:492-555 | the SST of a memtable has the span and the last write per time of the memtable, with exact time bounds |
| `LsmTable.MergeRun` | src/storage/src/compaction/job.rs:399-410 | the merge of an index window is well formed, starts where its first file starts and carries the merged generation counts |
| `Table.PutOk` | src/storage/src/table.rs:853-860 | a put extends the newest layer or opens one above all others; all older layers keep their meaning |
| `Table.FreezeOk` | src/storage/src/table.rs:586-611 | freezing leaves the sequence of layers unchanged |
| `Table.SealAllOk` | src/storage/src/memtable/table.rs:219-241 | sealing the memtables a scan reads leaves nothing active and changes no row and no layer |
| `Table.FlushOk` | src/storage/src/table.rs:566-580 | moving the oldest queued layer among the files keeps the layers standing for the log and memtables newer than files |
| `Table.BulkLoadOk` | src/storage/src/table.rs:1280-1292 | with nothing buffered, a bulk load at the next LSN ranks above everything |
| `Table.BulkLoadExactly` | src/storage/src/table.rs:1403-1418 | the invariant survives a bulk load if and only if the drained active memtable carries no LSN |
| `Table.CompactOk` | src/storage/src/compaction/job.rs:389-424 | replacing a hole-free window by its merge under the hull identity, unlinking included, keeps the table standing for the same log if and only if the merge is faithful |
| `Table.CompactShaped` | src/storage/src/compaction/job.rs:389-424 | merging any window leaves every file readable, sorted by start and tightly bounded, agreeing or not |
| `Table.InsertAppends` | src/storage/src/memtable/table.rs:180-216 | an insert appends its rows after the rows already there, however they are rechunked |
| `Table.SealKeeps` | src/storage/src/memtable/table.rs:219-241 | sealing keeps the rows and leaves nothing active |
| `Table.MergedStart` | src/storage/src/compaction/sst.rs:245-256 | the merged file starts exactly where the first file of its run starts, which is what keeps the index sorted |
| `Table.StackIsLaterWins` | src/storage/src/compaction/job.rs:488-533 | merging files in index order means stacking their layers in that order |
| `WriteLog.ReadIsLastWrite` | src/query/src/provider.rs:98-141 | layers with disjoint LSN spans, stacked by span, show at every time exactly the last write in LSN order |
| `WriteLog.AgreeingStack` | src/storage/src/compaction/job.rs:464-533 | any stacking order that agrees with the spans about each time's winner gives that stretch of the log |
| `WriteLog.TopDecides` | src/query/src/provider.rs:128-141 | the value of a time in a stretch of the log is that of the holder with the highest span |
| `WriteLog.NewLayerSound` | src/storage/src/table.rs:1483-1498 | a write in a layer of its own above all others keeps the layers standing for the log |
| `WriteLog.GrowLayerSound` | src/storage/src/memtable/table.rs:109-123 | a write into the newest layer widens its span and nothing else |
| `WriteLog.RearrangedSound` | src/query/src/provider.rs:128-129 | whether layers stand for the log does not depend on their order |
| `WriteLog.CompactSound` | src/storage/src/compaction/job.rs:112-158 | replacing a hole-free run by its stack under the hull keeps the layers standing for the log if and only if the stack shows what ranking the run by span shows |
| `WriteLog.FaithfulStack` | src/storage/src/compaction/job.rs:488-533 | stacking the layers of a stretch in any order gives that stretch of the log if and only if it shows what ranking by span shows |
| `WriteLog.MergedReadsExactly` | src/query/src/provider.rs:128-129 | reads in span order before and after a run becomes its stack are equal if and only if the stack is right wherever the run holds the newest value |
| `WriteLog.OutsideHull` | src/storage/src/compaction/sst_id.rs:100-125 | no other layer can rank inside the span of a hole-free merge |
| `WriteLog.AgreeExactly` | src/storage/src/compaction/job.rs:464-533 | stacking a run shows what ranking it by span shows, for all values its rows could have, if and only if its order agrees with its spans wherever two layers hold a time |
| `StaleReads.EmptyPutThenBulkLoadIsStale` | src/storage/src/table.rs:858-860 | a run the table can take (empty put, bulk load, put, freeze, flush) after which a read shows the overwritten value |
| `StaleReads.MarkedBulkLoadReadsStale` | src/storage/src/table.rs:1403-1418 | in every state with a drained but marked memtable, a bulk load of a time followed by a put of that time with another value, a freeze and a flush makes the ranked read show the loaded value while the log says the put one |
| `StaleReads.CompactionCanBeStale` | src/storage/src/compaction/sst.rs:223-231 | a run the table can take (two puts, each frozen and flushed, and a compaction of the two hole-free files) after which a read shows the overwritten value |
| `Reads.RankedRead` | src/query/src/provider.rs:128-129 | in every reachable state, ranking files by LSN under the memtables reads the last write per time of the log |
| `Reads.SortByLsn` | src/query/src/provider.rs:129-129 | the files sorted by (base, max) LSN, each exactly once |
| `Reads.PlanMemtable` | src/query/src/provider.rs:101-126 | a scannable memtable's plan lists its newest rows in the range; an empty one is left out without loss |
| `Reads.PlanMemtables` | src/query/src/provider.rs:101-126 | active memtable first, queued ones newest first: scannable, the plans mean those layers inside the range |
| `Reads.PlanSst` | src/query/src/provider.rs:130-141 | a file is planned with its rows in the range, or skipped exactly when its bounds miss the range, without changing the meaning |
| `Reads.PlanSsts` | src/query/src/provider.rs:128-141 | files by descending LSN extend the plans to the meaning of all layers inside the range |
| `Reads.Scan` | src/query/src/provider.rs:88-141 | for every well-formed table with scannable memtables the plans, newest first, mean what the ranked layers show inside the range, each ascending and without empty batches; where the table stands for its log that is the last write per time |
| `Reads.Merge` | src/query/src/lsm_merge.rs:49-69 | one plan is read as it is, several are merged: if the plans are ascending and without empty batches the rows list their meaning |
| `LsmStream.MergeLayers` | src/query/src/lsm_stream.rs:278-334 | for any streams, any batching and any pattern of pending polls the output comes in full batches of 8192 but the last, and for ascending streams it is the ascending newest-layer-wins merge |
| `LsmStream.Collect` | src/query/src/lsm_stream.rs:278-334 | polling to the end loses and repeats nothing across suspensions |
| `LsmStream.LsmPriorityMergeStream.constructor` | src/query/src/lsm_stream.rs:161-178 | a new merge owes everything its streams will deliver |
| `LsmStream.LsmPriorityMergeStream.PollNext` | src/query/src/lsm_stream.rs:281-333 | each poll emits a full or final batch, waits, or ends, and output plus rest always mean the input |
| `LsmStream.LsmPriorityMergeStream.ContinuePendingFetch` | src/query/src/lsm_stream.rs:180-202 | a fetch interrupted by a pending poll is resumed for the stream that was interrupted |
| `LsmStream.LsmPriorityMergeStream.InitializeNext` | src/query/src/lsm_stream.rs:204-232 | the next stream joins the heap with its first batch, or not at all when it is exhausted |
| `LsmStream.LsmPriorityMergeStream.EnsureInitialized` | src/query/src/lsm_stream.rs:204-232 | no row is compared before every stream has been asked once |
| `LsmStream.LsmPriorityMergeStream.AdvanceCursor` | src/query/src/lsm_stream.rs:242-275 | the cursor moves to its next row or batch, remembering the stream when it has to wait |
| `LsmStream.LsmPriorityMergeStream.TakeChunk` | src/query/src/lsm_stream.rs:234-240 | the collected rows leave as one batch and collecting starts afresh |
| `LsmStream.LsmPriorityMergeStream.Pop` | src/query/src/lsm_stream.rs:83-92 | the popped cursor has the least time, and the highest priority layer among equals |
| `LsmStream.LsmPriorityMergeStream.KeepRow` | src/query/src/lsm_stream.rs:301-315 | the row joins the output exactly when its time is not the one just emitted, and that time is now the last emitted |
| `LsmStream.DeliveredExactly` | src/query/src/lsm_stream.rs:180-275 | the merge sees all rows of a stream if and only if no rows follow a zero-row batch |
| `LsmStream.EmptyBatchLosesRows` | src/query/src/lsm_stream.rs:185-185 | a stream whose rows behind a zero-row batch are never read |
| `LsmStream.HeadsAreLeast` | src/query/src/lsm_stream.rs:83-92 | the heap order picks the least head of the newest layer |
| `MergeCore.EmitLeast` | src/query/src/lsm_stream.rs:297-323 | emitting the least head keeps output over rest equal to the input's meaning |
| `MergeCore.SkipDuplicate` | src/query/src/lsm_stream.rs:301-302 | a row at the time just emitted is shadowed; skipping it loses nothing |
| `MergeCore.EndProgress` | src/query/src/lsm_stream.rs:325-331 | once nothing is left the output lists the meaning of the layers |
| `MergeChunks.MergeChunk.Push` | src/query/src/lsm_stream.rs:95-147 | collecting appends exactly the row meant, as long as no batch key is reused |
| `MergeFiles.Merge` | src/storage/src/compaction/job.rs:464-561 | a compaction fails exactly for fewer than two files or no rows; otherwise it lists the run's later-file-wins meaning in full batches but the last, under exact time bounds, the hull span and the next generation |
| `MergeFiles.MergeBatches` | src/storage/src/compaction/job.rs:488-536 | the heap merge of any files lists what they mean, the later file winning, with exact row count and bounds |
| `MergeFiles.MergeStep` | src/storage/src/compaction/job.rs:505-531 | one turn of the loop keeps output over rest equal to the run's meaning, takes exactly one row off the inputs and adds at most one to the output |
| `MergeFiles.KeepTop` | src/storage/src/compaction/job.rs:508-521 | the top row is added to the output exactly when its time differs from the last; a full chunk is closed |
| `MergeFiles.PopTop` | src/storage/src/compaction/job.rs:566-580 | least time first, the later file among equals |
| `MergeFiles.LoadNextBatch` | src/storage/src/compaction/job.rs:589-664 | the cursor moves past empty row groups and loses no row |
| `MergeFiles.Open` | src/storage/src/compaction/job.rs:589-664 | a fresh cursor has the whole file before it |
| `MergeFiles.Advance` | src/storage/src/compaction/job.rs:589-664 | advancing takes exactly one row off the front |
| `MergeFiles.BatchKeyInjective` | src/storage/src/compaction/job.rs:673-731 | (source, load count) keys never collide below 2^40 loads |
| `MergeFiles.AdvanceKeys` | src/storage/src/compaction/job.rs:673-731 | loading a batch never reuses a key of a batch still referred to |
| `Agreement.AllAgree` | src/storage/src/compaction/dedup.rs:67-348 | on ascending unique layers the compactor's merge, the reverse scan, sort-and-keep-last, windowed flushes of any size and the query merge all give the same rows |
| `Agreement.RunMeaning` | src/storage/src/compaction/job.rs:488-533 | later file wins over the run is last write wins over its rows end to end |
| `Agreement.FlushWindows` | src/storage/src/compaction/dedup.rs:94-198 | flush windows of any size list the last write of each time |
| `Dedup.PlanFlush` | src/storage/src/compaction/dedup.rs:67-80 | a plan exists exactly when there are rows, lists the last write per time, and streams exactly when the chunks end to end are already strictly ascending |
| `Dedup.ChunksStrictlyOrdered` | src/storage/src/compaction/dedup.rs:204-224 | true if and only if the chunks end to end are strictly ascending |
| `Dedup.BuildSorted` | src/storage/src/compaction/dedup.rs:94-128 | the kept coordinates list the last write of each time of any chunks |
| `Dedup.KeepLastLists` | src/storage/src/compaction/dedup.rs:94-128 | keeping the last of each run of a sorted list of coordinates lists the last write per time |
| `Dedup.SortedMeansSame` | src/storage/src/compaction/dedup.rs:94-128 | sorting coordinates by (time, chunk, row) keeps the last write of each time |
| `Dedup.NewestCoordinate` | src/storage/src/compaction/dedup.rs:94-128 | the last write of a time is the row at its greatest coordinate |
| `Dedup.SortedFlushBatches.Next` | src/storage/src/compaction/dedup.rs:170-198 | each window is the next stretch of rows, full but for the last |
| `Dedup.WindowBatches` | src/storage/src/compaction/dedup.rs:170-198 | windows cut the rows without changing them |
| `Dedup.BatchHasDuplicateTimestamps` | src/storage/src/compaction/dedup.rs:396-414 | true if and only if a time repeats |
| `Dedup.SortBatchByTimestamp` | src/storage/src/compaction/dedup.rs:502-504 | a batch without repeats is put in order and means the same |
| `Dedup.DedupeSortedBatch` | src/storage/src/compaction/dedup.rs:416-447 | at most one batch, listing the last write of each time |
| `Dedup.KeepNewestRows` | src/storage/src/compaction/dedup.rs:416-447 | the last row of each run, in order |
| `Dedup.DedupeBatchesNewestWins` | src/storage/src/compaction/dedup.rs:325-348 | any batches, oldest first, become at most one batch listing the last write per time |
| `Dedup.BatchesAreTimeOrdered` | src/storage/src/compaction/dedup.rs:255-279 | tests exactly: no repeats inside a chunk, ends in order, next start after last end |
| `Dedup.PrepareScanBatches` | src/storage/src/compaction/dedup.rs:228-252 | the output always means the input, and lists it if and only if the chunks are not several with ends in order that reach into each other |
| `Dedup.SortedChunksList` | src/storage/src/compaction/dedup.rs:228-252 | sorting each chunk by itself lists the whole if and only if no chunk reaches into a later one |
| `Dedup.OverlappingEndsInOrder` | src/storage/src/compaction/dedup.rs:255-279 | two chunks the test accepts although they overlap and repeat a time |
| `Dedup.OverlappingScan` | src/storage/src/compaction/dedup.rs:228-279 | the scan of two such chunks comes out unsorted and shows a time twice |
| `LayerMerge.MergeSstLayers` | src/storage/src/compaction/dedup.rs:282-322 | the reverse scan with a seen-set lists the last write per time of all layers |
| `LayerMerge.ScanLayers` | src/storage/src/compaction/dedup.rs:282-322 | exactly the newest row of each time is kept |
| `LayerMerge.GroupKept` | src/storage/src/compaction/dedup.rs:459-500 | grouping by source batch keeps each kept row once |
| `LayerMerge.Gather` | src/storage/src/compaction/dedup.rs:459-500 | the gathered rows are the kept rows in some order |
| `LayerMerge.GatheredMeansSame` | src/storage/src/compaction/dedup.rs:459-500 | the order in which source batches are visited does not matter |
| `Sst.CoversLsnRange` | src/storage/src/compaction/sst.rs:196-221 | terminates, and is true if and only if every LSN of the range lies in some indexed span |
| `Sst.LsnSpansContiguous` | src/storage/src/compaction/job.rs:112-130 | true if and only if the bounded spans leave no hole |
| `Sst.MergedSpanIsHull` | src/storage/src/compaction/sst_id.rs:100-125 | the merged span reaches from the least base to the greatest end of its inputs |
| `Sst.MaxInner` | src/storage/src/compaction/sst_id.rs:106-111 | the highest generation of the run |
| `Sst.MergedInner` | src/storage/src/compaction/sst_id.rs:106-111 | the merged generation is above that of every input, by one above the highest, unless that is the maximum |
| `Sst.MergedCross` | src/storage/src/compaction/sst_id.rs:112-116 | the highest cross-compaction count of the run |
| `Sst.SearchMinTs` | src/storage/src/compaction/sst.rs:223-231 | a position with no later start before it and no earlier start after it |
| `Sst.FileIndex.Insert` | src/storage/src/compaction/sst.rs:223-231 | the index gains the file and stays sorted by start time |
| `Sst.FileIndex.ReplaceRange` | src/storage/src/compaction/sst.rs:245-256 | exactly the named stretch is replaced; the index stays sorted when the starts agree |
| `Sst.MergeKeepsCoverage` | src/storage/src/compaction/job.rs:112-130 | replacing a run by its merge changes no answer about an LSN from 1 on if and only if all the merged file claims was covered; for a contiguous run that is if and only if all its files have bounds, or none has, or every LSN up to the merged end was covered |
| `Sst.UnboundedFileFakesCoverage` | src/storage/src/compaction/job.rs:115-115 | a two-file run that passes the contiguity test and whose merge makes LSN 3 covered, though it was not before |
| `Sst.UnboundedFileHarmless` | src/storage/src/compaction/job.rs:115-115 | a run of both kinds of files that changes no answer |
| `SstName.NameRoundTrip` | src/storage/src/compaction/sst_id.rs:127-139 | a file name gives its identity back if and only if the creation time is not negative |
| `SstName.NameVector` | src/storage/src/compaction/sst_id.rs:127-140 | a name, character for character |
| `SstName.ReadExactly` | src/storage/src/compaction/sst_id.rs:210-240 | exactly five numbers, each written in the range of its field, are read |
| `SstName.StagingRefused` | src/storage/src/compaction/sst_id.rs:185-210 | a staging name is never read as an identity |
| `SstWriter.WriteSst` | src/storage/src/compaction/sst.rs:578-625 | nothing is written without rows; otherwise the rows are kept and the bounds read off batch ends are exact |
| `SstWriter.FlushChunks` | src/storage/src/bulk_load/mod.rs:146-208 | a flushed or bulk-loaded file lists the last write per time of its chunks, with exact bounds |
| `Picks.PickSizeTiered` | src/storage/src/compaction/job.rs:162-192 | the longest, then cheapest, then leftmost window under the threshold, saturating sums included |
| `Picks.PickFileCount` | src/storage/src/compaction/job.rs:195-220 | the longest window of small files, the leftmost of those; a file is small when the allowed number of files one byte larger would still not pass the threshold |
| `Picks.SmallFits` | src/storage/src/compaction/job.rs:195-220 | a window of small files is under the size threshold altogether |
| `Picks.PickOverlap` | src/storage/src/compaction/job.rs:223-252 | the fitting window with the most overlapping neighbours, the leftmost and then longest of those, or else the size-tiered choice |
| `Picks.ShrinkToLsnContiguous` | src/storage/src/compaction/job.rs:133-158 | the result is hole-free with at least two files inside the pick, and of all such windows the first in the order tried: earliest start, then longest; none is returned only if none exists |
| `Picks.PickCompaction` | src/storage/src/compaction/job.rs:93-109 | the first hole-free window, in the order tried, of the strategy's best window; none only if no best window or no hole-free part of it exists |
| `Picks.OnePick` | src/storage/src/compaction/job.rs:93-109 | files and settings determine the window: every tie is broken |
| `Buffers.BuffersAgree` | src/storage/src/memtable/builders.rs:90-160 | both buffers emit the same chunks for the same arrivals: all rows in order, in full chunks but the last |
| `Buffers.BatchBuffer.AppendBatch` | src/storage/src/memtable/builders.rs:90-111 | the full chunks of buffered plus arriving rows leave, the rest stays |
| `Buffers.BatchBuffer.ExtractCapacityBatch` | src/storage/src/memtable/builders.rs:129-160 | exactly the capacity is taken from the front, splitting the last batch |
| `Buffers.BatchBuffer.Finish` | src/storage/src/memtable/builders.rs:114-126 | the tail leaves, if any |
| `Buffers.ChunkBuffer.Append` | src/storage/src/memtable/chunk_buffer.rs:66-96 | the full chunks of active plus arriving rows leave, the rest stays |
| `Buffers.ChunkBuffer.Finish` | src/storage/src/memtable/chunk_buffer.rs:99-104 | the tail leaves, if any |
| `Buffers.ChunkBuffer.MaterializeActiveBlock` | src/storage/src/memtable/chunk_buffer.rs:106-119 | the active slices leave as one block |
| `Buffers.CutKeepsRows` | src/storage/src/memtable/builders.rs:90-126 | the cut keeps every row in order, in chunks of exactly the capacity but perhaps the last |
| `Buffers.PiecesAppend` | src/storage/src/memtable/builders.rs:90-111 | rows cut one arrival at a time are cut as if they arrived at once |
| `Filter.ExtractTimeRange` | src/query/src/filter.rs:45-75 | every row all filters keep lies in the extracted range, unless a NOT BETWEEN stands after the last equality |
| `Filter.ExtractionExact` | src/query/src/filter.rs:45-128 | a row the filters keep is in the extracted range if and only if its time is inside the literal bounds of every NOT BETWEEN standing after the last equality |
| `Filter.AllOrNothing` | src/query/src/filter.rs:62-71 | when NOT BETWEEN bounds are constants, a row the filters keep is in the range if and only if no NOT BETWEEN stands |
| `Filter.ExtractionSound` | src/query/src/filter.rs:45-128 | no row the filters keep is outside the range |
| `Filter.NotBetweenLosesRows` | src/query/src/filter.rs:62-71 | NOT BETWEEN 5 AND 9 keeps time 3 but extracts 5 to 9 |
| `Filter.OverlapsExactly` | src/query/src/filter.rs:30-42 | a file is kept exactly when its span meets the range, unless the range is empty |
| `Pruning.PruningPreservesAnswer` | src/query/src/provider.rs:128-141 | filtering what lists the pruned meaning gives the rows of the right answer no standing NOT BETWEEN refuses: all of them when none stands, none when one stands with constant bounds |
| `Pruning.SelectPruned` | src/query/src/mem_exec.rs:222-250 | filtering the rows inside the extracted range gives what filtering all rows gives, but for those refused |
| `Pruning.TimeFilters` | src/query/src/filter.rs:78-128 | a comparison of the time with a literal, written either way round, selects exactly the rows on its side of the literal |
| `Pruning.BetweenFilters` | src/query/src/filter.rs:62-71 | BETWEEN selects the closed range, NOT BETWEEN the rest, a comparison with NULL nothing |
| `MemScan.ScanMemtable` | src/query/src/mem_exec.rs:200-257 | a memtable scan lists its newest rows in the range if and only if the memtable is scannable, in batches that are never empty |
| `MemScan.Execute` | src/query/src/mem_exec.rs:200-257 | streaming or buffered, the stream lists the newest rows in the range exactly when the memtable is scannable |
| `MemScan.MemTableScanStream.PollNext` | src/query/src/mem_exec.rs:116-144 | hands out the next non-empty batch; ends only when nothing is left |
| `MemScan.Drain` | src/query/src/mem_exec.rs:116-144 | the batches handed out are the rows owed, in order |
| `MemScan.UnscannableMemtable` | src/storage/src/compaction/dedup.rs:255-279 | a memtable with a time in two overlapping chunks takes the wrong path |
| `MetaStore.ReplayTwice` | src/catalog/src/store/mod.rs:504-537 | replaying any record sequence twice equals replaying it once |
| `MetaStore.ReplayEffect` | src/catalog/src/store/mod.rs:504-537 | a log acts on each table by one combined effect on its schema and one on its manifest |
| `MetaStore.LossExactly` | src/catalog/src/store/mod.rs:504-537 | the end of an ordered log can be lost if and only if the base image reaches its last sequence number and its effects change no table the kept part leaves |
| `MetaStore.LossWithoutSnapshot` | src/catalog/src/store/mod.rs:504-537 | with a base image short of the last record, losing the end of a log always changes the replayed state |
| `MetaStore.MetaStore.PutSchema` | src/catalog/src/store/mod.rs:215-251 | in any store, the table gets the schema and at least an empty manifest and nothing else changes; the record is in the log, compacted away, or pending, exactly as mode and write outcome say, and a store that was accounted for still is |
| `MetaStore.MetaStore.CreateSchema` | src/catalog/src/store/mod.rs:257-288 | succeeds exactly for an admitted schema under a free name, recorded as a put is; refused, it changes nothing |
| `MetaStore.MetaStore.SetManifest` | src/catalog/src/store/mod.rs:290-324 | succeeds exactly for an admitted change to a known table, changes only its manifest, and is recorded as a put is |
| `MetaStore.MetaStore.DropTable` | src/catalog/src/store/mod.rs:326-357 | succeeds exactly for a known table, removes it entirely, and is recorded as a put is |
| `MetaStore.MetaStore.AppendRecord` | src/catalog/src/store/mod.rs:441-470 | the record ends in the log, or pending in memory-only mode or on a failed write; the log is compacted exactly when it reaches 64 records or 512 KiB, so that with compactions that complete it stays below both; sequence numbers stay in order, and an accounted store stays so |
| `MetaStore.MetaStore.Compact` | src/catalog/src/store/mod.rs:418-425 | wherever a compaction stops, snapshot plus log of an accounted store still give the live state; once it completes they do in any store |
| `MetaStore.MetaStore.TryRecoverDurable` | src/catalog/src/store/mod.rs:403-416 | if every pending record is written the store is durable and, if it was accounted for, still is; if one fails, it is accounted for if and only if the records from there on reach no further than the snapshot and change no table on top of snapshot and kept log |
| `MetaStore.MetaStore.Open` | src/catalog/src/store/mod.rs:98-125 | opening gives the snapshot with the log replayed over it and the byte count of the log, and an accounted store exactly for a log in sequence order |
| `MetaStore.MetaStore.constructor` | src/catalog/src/store/mod.rs:98-125 | a blank store |
| `MetaStore.CrashRecovers` | src/catalog/src/store/mod.rs:418-425 | a restart during durable operation, even between snapshot and log removal, finds the live state; in memory-only mode it does if and only if the pending records could be lost |
| `MetaStore.RecoverThenRestart` | src/catalog/src/store/mod.rs:403-416 | a recovery and then a restart: all written, the live state comes back; with a failed write it does if and only if the dropped records are harmless, and never without a snapshot that reaches the last pending sequence number |
| `MetaStore.LostCreate` | src/catalog/src/store/mod.rs:403-470 | any table created while the log cannot be written, after a recovery that fails too, shows in the live store and is gone after a restart |
| `MetaStore.HealedByCompaction` | src/catalog/src/store/mod.rs:403-425 | after a recovery, whatever it lost, a compaction that completes makes a restart find the live state |
| `MetaRecovery.OpenLog` | src/catalog/src/store/mod.rs:121-125 | for any encoding that decodes the records of the log, a log cut at any byte opens to the replay of exactly the records that fit whole |
| `MetaRecovery.ReplayFrames` | src/catalog/src/store/mod.rs:121-125 | decoded frames are applied in order |
| `MetaWal.TruncatedReplay` | src/catalog/src/store/wal.rs:124-159 | a log cut at any byte replays to exactly the records that fit whole |
| `MetaWal.CleanReplay` | src/catalog/src/store/wal.rs:124-159 | an untouched log replays to exactly what was appended |
| `MetaWal.DamagedReplay` | src/catalog/src/store/wal.rs:124-159 | damage inside four consecutive bytes of one payload replays to exactly the records before it |
| `MetaWal.FittingExact` | src/catalog/src/store/wal.rs:124-159 | the number of records replayed is the largest whose frames fit |
| `MetaWal.DecodeAllFrames` | src/catalog/src/store/wal.rs:124-159 | the loop reads frame after frame as the recursive definition does |
| `MetaWal.FramesBefore` | src/catalog/src/store/wal.rs:124-159 | whole frames are read first, whatever stands behind them |
| `MetaWal.WrongMagic` | src/catalog/src/store/wal.rs:133-139 | whole frames followed by a header's worth of bytes under another magic number are an error, not the records before it |
| `MetaWal.ReadWhole` | src/catalog/src/store/wal.rs:130-156 | a whole frame is read back if and only if its checksum fits |
| `MetaWal.ReadTorn` | src/catalog/src/store/wal.rs:126-146 | a torn frame stops the reader |
| `MetaWal.LenRoundTrip` | src/catalog/src/store/wal.rs:77-80 | the length field reads back for payloads below 4 GiB |
| `MetaWal.CrcRoundTrip` | src/catalog/src/store/wal.rs:82-82 | the checksum field reads back |
| `MetaWal.FrameVector` | src/catalog/src/store/wal.rs:75-83 | a frame, byte for byte |
| `MetaWal.MetaWal.Append` | src/catalog/src/store/wal.rs:75-93 | the log grows by one frame, with record and byte counters exact |
| `MetaWal.MetaWal.Replay` | src/catalog/src/store/wal.rs:105-111 | what was appended comes back |
| `MetaWal.MetaWal.Truncate` | src/catalog/src/store/wal.rs:113-121 | an empty log |
| `Crc32.Crc32` | src/catalog/src/store/crc32.rs:17-27 | the nested loops compute the bitwise register definition |
| `Crc32.WindowDetected` | src/catalog/src/store/crc32.rs:17-27 | equal-length inputs that differ only inside four consecutive bytes have different checksums |
| `Crc32.WindowInjective` | src/catalog/src/store/crc32.rs:17-27 | up to four bytes are determined by the register they leave |
| `Crc32.RegisterDifference` | src/catalog/src/store/crc32.rs:17-27 | the registers of two inputs differ by the register of their difference |
| `Crc32.RegisterInjective` | src/catalog/src/store/crc32.rs:17-27 | the register before common bytes is determined by the one after them |
| `Crc32.KnownVector` | src/catalog/src/store/crc32.rs:33-36 | the check value of "123456789" is 0xCBF43926 |
| `TypeRoundTrip.RoundTrip` | src/catalog/src/column_type.rs:160-189 | the canonical name of a well-formed type parses to the type if and only if no struct has a decimal or a zoned timestamp as a direct field; otherwise it does not parse |
| `TypeRoundTrip.PaddedRoundTrip` | src/catalog/src/column_type.rs:160-168 | spaces around a name make no difference |
| `TypeRoundTrip.ParseSane` | src/catalog/src/column_type.rs:365-421 | whatever the text, a type that is read has decimals of precision 1 to 38, no empty struct and no enum without variants, at any depth |
| `TypeRoundTrip.ParseCanonical` | src/catalog/src/column_type.rs:365-421 | the same for the recursive parser at any nesting depth |
| `TypeRoundTrip.FieldsBack` | src/catalog/src/column_type.rs:423-447 | a struct body is read back field by field, up to the first field that shows a comma |
| `TypeRoundTrip.FieldPadded` | src/catalog/src/column_type.rs:423-441 | spaces around the name and the type of a struct field make no difference |
| `TypeRoundTrip.CanonicalShaped` | src/catalog/src/column_type.rs:170-189 | canonical names are balanced and trimmed, and only decimals and zoned timestamps show a comma outside brackets |
| `TypeRoundTrip.StructOfDecimal` | src/catalog/src/column_type.rs:550-570 | a struct with a decimal field whose canonical name is refused |
| `TypeNames.ScalarNames` | src/catalog/src/column_type.rs:274-297 | a name is read as a scalar type if and only if, in upper case, it is one of that type's spellings |
| `TypeNames.ScalarRefused` | src/catalog/src/column_type.rs:274-297 | a name is refused if and only if it is nobody's spelling |
| `TypeNames.UnitNames` | src/catalog/src/column_type.rs:459-469 | a name is read as a time unit if and only if, in lower case, it is one of that unit's spellings |
| `TypeRoundTrip.SuffixRefused` | src/catalog/src/column_type.rs:160-168 | the name of a well-formed type with anything behind it is refused |
| `TypeRoundTrip.ScalarBack` | src/catalog/src/column_type.rs:274-297 | every scalar name reads back |
| `TypeRoundTrip.DecimalBack` | src/catalog/src/column_type.rs:390-403 | every decimal in range reads back |
| `TypeRoundTrip.DecimalExactly` | src/catalog/src/column_type.rs:390-403 | a decimal body is read exactly when it is two numbers in range, spaces around them allowed |
| `TypeRoundTrip.TimestampBack` | src/catalog/src/column_type.rs:404-413 | every timestamp reads back, with and without zone |
| `TypeRoundTrip.TimestampExactly` | src/catalog/src/column_type.rs:404-413 | a timestamp body is read exactly when it is a unit in one of its spellings, with a zone unless that is blank |
| `TypeRoundTrip.EnumBack` | src/catalog/src/column_type.rs:382-389 | every enum with plain variants reads back |
| `TypeRoundTrip.EmptyEnumRefused` | src/catalog/src/column_type.rs:382-386 | an enum without variants is refused |
| `Text.TrimExactly` | src/catalog/src/column_type.rs:365-366 | trimming takes off all spaces around a text and nothing else |
| `Text.ParseIntExactly` | src/catalog/src/column_type.rs:390-403 | a text is read as a number exactly when it is that number written with an optional sign, minus only for signed types, and in range |
| `Text.JoinSplit` | src/catalog/src/column_type.rs:382-388 | splitting at a character loses nothing |
| `TypeScan.ExtractGenericBody` | src/catalog/src/column_type.rs:523-548 | the depth loop finds the closing bracket the recursive scan finds |
| `TypeScan.GenericBodyBalanced` | src/catalog/src/column_type.rs:523-548 | a body is found if and only if there is a balanced one, and it is balanced |
| `TypeScan.GenericBodyFound` | src/catalog/src/column_type.rs:523-548 | a balanced body is found whole, whatever stands around it |
| `TypeScan.ExtractParenBody` | src/catalog/src/column_type.rs:509-521 | the body up to the first closing parenthesis |
| `TypeScan.SplitTopLevelCommas` | src/catalog/src/column_type.rs:550-570 | the depth loop splits where the recursive scan splits |
| `TypeScan.TopPartsHead` | src/catalog/src/column_type.rs:550-570 | a balanced part without commas outside brackets is split off whole |
| `TypeScan.JoinTopParts` | src/catalog/src/column_type.rs:550-570 | splitting at commas outside brackets loses nothing |
| `TypeScan.StrayClosing` | src/catalog/src/column_type.rs:550-570 | closing brackets without opening ones hide no comma |
| `Backlog.WalBacklogBudget.constructor` | src/storage/src/wal/backlog.rs:62-69 | nothing is taken at the start; limits in range are taken as they are |
| `Backlog.WalBacklogBudget.NewTableBacklog` | src/storage/src/wal/backlog.rs:84-87 | a table starts with all its permits and no waiters |
| `Backlog.WalBacklogBudget.Reserve` | src/storage/src/wal/backlog.rs:90-99 | the table semaphore gives its permits at once or sets aside what it has and queues the rest; none is asked for no bytes, and all permits stay accounted for |
| `Backlog.WalBacklogBudget.AskGlobal` | src/storage/src/wal/backlog.rs:100-103 | with its table permits held, a reservation is made or queues at the global semaphore; nobody is lost and all permits stay accounted for |
| `Backlog.WalBacklogBudget.TryReserve` | src/storage/src/wal/backlog.rs:106-124 | takes both or neither; granted exactly when both semaphores have the permits at hand, and then nobody was waiting at either; refused, it changes nothing |
| `Backlog.WalBacklogBudget.ReleaseGlobal` | src/storage/src/wal/backlog.rs:127-132 | the global permits go to the waiters in order, whose reservations are then made, and only the rest becomes available |
| `Backlog.WalBacklogBudget.ReleaseTable` | src/storage/src/wal/backlog.rs:133-135 | the table permits go to the waiters in order, who go on to the global semaphore, and only the rest becomes available |
| `Backlog.WalBacklogBudget.NoDeadlock` | src/storage/src/wal/backlog.rs:90-103 | with no reservation made, halfway through or halfway back, nobody waits at any semaphore |
| `Backlog.WalBacklogBudget.BytesWithin` | src/storage/src/wal/backlog.rs:46-136 | reservations that each fit never exceed the global limit in bytes, and those of one table never exceed the table's |
| `Backlog.WalBacklogBudget.OversizedAlone` | src/storage/src/wal/backlog.rs:19-21 | a batch of at least the limit is let in, and is then the only one |
| `Backlog.ServeAll` | src/storage/src/wal/backlog.rs:90-136 | from any state, releasing what is made and letting the rest go on serves every waiter exactly once |
| `Backlog.AcquireKeeps` | src/storage/src/wal/backlog.rs:97-102 | asking a semaphore makes and loses no permit and is granted only when nobody waits |
| `Backlog.AddKeeps` | src/storage/src/wal/backlog.rs:130-135 | returning permits makes and loses none and wakes the waiters from the front |
| `Backlog.Permits` | src/storage/src/wal/backlog.rs:19-21 | the least of the bytes, the limit and the largest single request |
| `BulkPins.TableFiles.constructor` | src/storage/src/wal/bulk_load.rs:163-168 | no files |
| `BulkPins.TableFiles.AddFlushed` | src/storage/src/table.rs:566-580 | a flushed file is indexed and exists |
| `BulkPins.TableFiles.CommitBulkLoad` | src/storage/src/wal/bulk_load.rs:175-195 | a bulk-loaded file is indexed, linked and logged; older entries stay |
| `BulkPins.TableFiles.Since` | src/storage/src/wal/bulk_load.rs:98-105 | the entries after an LSN, oldest first |
| `BulkPins.TableFiles.Compact` | src/storage/src/compaction/job.rs:424-440 | inputs leave the index, and the disk exactly when no entry pins them; indexed files exist, entries keep links, and nothing unindexed and unpinned remains |
| `BulkPins.TableFiles.CollectUpto` | src/storage/src/wal/bulk_load.rs:215-233 | entries up to the LSN go with their links, and exactly the files still indexed or pinned remain |
| `BulkPins.AppendSorted` | src/storage/src/wal/bulk_load.rs:82-96 | the log stays sorted and gains the entry |
| `BulkPins.CollectedDisk` | src/storage/src/wal/bulk_load.rs:215-233 | after a collection exactly the files indexed or pinned are left |
| `Memory.MemoryController.constructor` | src/storage/src/memory.rs:43-56 | nothing is used |
| `Memory.MemoryController.ReserveUnchecked` | src/storage/src/memory.rs:69-74 | the counter stays the total of what is owed |
| `Memory.MemoryController.TryReserve` | src/storage/src/memory.rs:76-89 | granted exactly when it fits, never past the limit; refused, it changes nothing |
| `Memory.MemoryController.Release` | src/storage/src/memory.rs:155-173 | the saturating subtraction never clamps |
| `Memory.MemTable.constructor` | src/storage/src/memtable/table.rs:84-106 | a new memtable owes nothing |
| `Memory.MemTable.SyncChargedToRam` | src/storage/src/memtable/table.rs:345-370 | charge and footprint are brought in line; it fails exactly for checked growth that does not fit, and then nothing changes |
| `Memory.MemTable.Insert` | src/storage/src/memtable/table.rs:180-216 | what an insert froze stays in the footprint; a charged insert never takes usage past the limit; it is refused exactly when the growth does not fit, which leaves the charge and the counter alone |
| `Memory.InsertAll` | src/storage/src/memtable/table.rs:180-216 | after any inserts the footprint is all they froze and the active buffer, refused inserts included, and the charge equals it whenever the last insert of some rows was accepted |
| `Memory.MemTable.Seal` | src/storage/src/memtable/table.rs:219-241 | sealing always settles the account |
| `Memory.MemTable.ReleaseMemory` | src/storage/src/memtable/table.rs:334-343 | exactly the charge is returned |
| `Memory.MemTable.Drop` | src/storage/src/memtable/table.rs:373-380 | exactly what is still charged is returned |
| `Memory.MergeMemGuard.constructor` | src/storage/src/compaction/job.rs:473-478 | opening a merge charges its footprint to its own account |
| `Memory.MergeMemGuard.Drop` | src/storage/src/compaction/job.rs:260-264 | closing it returns exactly that, whatever others charged meanwhile |
| `Memory.MergeBesideInsert` | src/storage/src/compaction/job.rs:473-478 | a merge and a memtable insert that overlap each leave the accounts as if alone |
| `Calendar.NextIsOneMore` | src/core/src/sql/insert.rs:536-543 | the next calendar day is exactly one more, for every valid date of any year |
| `Calendar.Epoch` | src/core/src/sql/insert.rs:536-543 | 1970-01-01 is day 0 |
| `Calendar.ClosedFormCounts` | src/core/src/sql/insert.rs:536-543 | n days on from any date is n more |
| `Calendar.Injective` | src/core/src/sql/insert.rs:536-543 | no two valid dates share a number |
| `Calendar.OrderPreserved` | src/core/src/sql/insert.rs:536-543 | later dates have greater numbers |
| `Calendar.CountedExactly` | src/core/src/sql/insert.rs:536-543 | every later date is reached by counting, in the number of steps the closed form says |
| `Calendar.RealDatesStored` | src/core/src/sql/insert.rs:513-533 | every real date is accepted, and one is before another if and only if its number is smaller |
| `Calendar.AcceptedExactly` | src/core/src/sql/insert.rs:529-531 | accepted are the real dates and days 29 to 31 of any month |
| `Calendar.ImpossibleDatesCollide` | src/core/src/sql/insert.rs:529-543 | an accepted literal takes the number of another real date if and only if it names no real date |
| `Calendar.RollsOver` | src/core/src/sql/insert.rs:529-543 | an accepted date that does not exist has the number of one in the first three days of the next month |
| `Calendar.FebruaryThirtyFirst` | src/core/src/sql/insert.rs:529-543 | 31 February 2021 is accepted and takes the number of 3 March |

## Left out

- Table write-ahead log: its format, writer, cache and recovery; an append is a step that succeeds.
- Arrow, Parquet and DataFusion internals: a batch is a sequence of rows, a file a sequence of batches.
- Read errors, including the one ignored while advancing a compaction cursor.
- Races outside one lock: a flush during a put, an index change during a merge, a scan of a memtable being released.
- Schema validation when the metadata store opens; of the header that remembers its mode, only whether writing it succeeds.
- Aliasing of memtables: in the table they are values that the steps replace; a snapshot is the value at that moment.
- Rejected inserts as invisible: a memory-limit error comes after the rows are buffered; here inserts succeed.
- The metadata byte budget: whether a change is admitted is a parameter.
- Appending after a torn metadata log tail, and failed appends that leave partial bytes.
- Restoring bulk-loaded files from their links after a crash, and re-reading the bulk-load log.
- Capture hub, lifecycle gate, disk watermark, SQL routing, SHOW, configuration, logging, gRPC, command line, SDK and benchmarks.
- Reclaim under memory pressure: only the counter and the charges are modelled.
- LsmTable.LsmTable.Query: over several layers of which one is a memtable that is not scannable, no answer is stated.
- LsmTable.RunSteps: a compaction that meets a file with 2^40 or more row groups is skipped.
- LsmTable.LsmTable.RunCompactionPass: requires fewer than 2^40 row groups per file, which the packed batch key needs.
- MergeFiles.MergeBatches: requires ascending files, as the writer produces them, and fewer than 2^40 row groups per file.
- Filter.ExtractTimeRange: literals are taken to be in the unit of the time column; the source does not convert them.
- Calendar.NextIsOneMore: integers are unbounded; years whose day number overflows 64 bits are not modelled.
- Memory.MemoryController.ReserveUnchecked: the counter is unbounded; wrap-around past 2^64 bytes is not modelled.
- MetaWal.LenRoundTrip: requires payloads below 2^32 bytes, the range of the length field.
- Crc32.WindowDetected: damage to the length or checksum field itself is not covered.
- TypeRoundTrip.RoundTrip: upper and lower case and spaces are those of ASCII.
- Backlog.WalBacklogBudget.TryReserve: is one step; a reservation arriving between its two attempts is not modelled.
- Backlog.WalBacklogBudget.Reserve: a reservation dropped while it waits is not modelled.

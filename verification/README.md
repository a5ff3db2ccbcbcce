# Midgard, modelled in Dafny

Midgard turns a chain of blocks into an append-only event database and answers queries from
aggregates that must agree with the raw rows. This project models its cores and proves what they
promise:

- **Ingestion** (`EventId`, `RunningTotals`, `Inserters`, `Recorder`, `Deltas`, `Mux`, `TraceContents`,
  `RowIds`, `DepthLog`, `Ingestion`, `DepthFold`, `DatedDepths`, `Timeseries`): event ids, the dispatch
  of a block's events, the handlers and their depth totals, the two inserters, the sparse log of depth
  changes, and the protocol of fetching, processing, committing, crashing and restarting. `Ingestion` is
  the step relation; the class `Timeseries.Process` does what the program does and is proved to follow it.
- **Fetching** (`ChunkNames`, `Blockstore`, `StoredBlock`, `StoredTrace`, `Sync`): the chunked block
  store as a refinement of a sequence of blocks, the older block format and what it loses, and the
  retry loop that delivers heights without a gap.
- **Answers** (`Aggregates`, `Watermarks`, `Gapfill`, `Swaps`, `Earnings`, `Paging`): unions of raw
  and daily aggregates, materialized views with a watermark, gap filling, swap buckets, the node
  count as an integral, and pages with tokens.
- **Two small algorithms** (`Members`, `Forks`): clustering of member addresses and the ancestry of
  forked chains.

Objects that the program changes in place are classes; what their methods do is stated through
functions on values, and the theorems are about these functions.

Findings, where the code and its description differ, or where it is right only under a condition:

- The fuzz test of event ids claims that encoding undoes parsing for every int64; it does so exactly
  when the remainder below the height is above −10^9 (`EventIds.EncodeAfterParse`).
- An iterator over an empty block store reports a failure instead of the end
  (`BlockStores.Iterator.Next`). A chunk name from height 10^12 on is listed before those of lower
  heights that exceed its first twelve digits (`ChunkNames.LongerNamesDoNot`).
- The block format loses the index flag, attributes with an empty key, second modes, and finalize
  events without a mode, although the latter are processed as begin-block events
  (`StoredBlocks.RoundTrip`, `StoredTraces.ProcessingSurvives`, `StoredTraces.ModelessEventsAreLost`).
- A union of raw rows and whole days counts too much for a window that has no day boundary inside
  and is not made of whole days (`Aggregates.UnionInsideOneDay`).
- Gap filling applies a row that was never read to a bucket that starts at the epoch, and reads
  nothing for buckets that start before it. As no block is older than the epoch, the depth history is
  right exactly when the window starts after the epoch or ends by it
  (`DepthHistory.ExactUnlessTheEpochIsInside`), and the units exactly when the epoch is not strictly
  inside a bucket (`UnitHistory.ExactUnlessStraddling`).
- The node count of the last interval lacks its last second exactly when that second is the last
  point looked at (`Earnings.NodeCountWeightedSums`).
- Swaps from the first one on whose time is not the start of a bucket are left out
  (`Swaps.MergeSwapsGapfill`).
- A chain with an empty name makes every walk to the root endless, and one listed again below itself
  those from it and below it; otherwise walks end (`Forks.EmptyIdLoops`, `Forks.AddedChainEnds`).
- Boundaries for a window are described as leaving one that is bigger than its end; the code keeps
  one that is not smaller. For a window that starts at the last candidate or later, or that ends two
  boundaries before its start, an index or a slice is out of range where an error is meant
  (`Bucketing.TrimTimestamps`).

## Model

| member | source | states |
|---|---|---|
| `EventIds.EncodingEmbedsOrder` | internal/db/eventid.go:34-53 | on well-formed ids the int64 encoding is strictly monotone for height, location, transaction and event, and equal only for the same id |
| `EventIds.EncodingFits` | internal/db/eventid.go:34-53 | well-formed ids stay inside int64 |
| `EventIds.ParseAfterEncode` | internal/db/eventid.go:41-78 | parsing undoes encoding, but for the transaction index that the encoding of block-level events drops |
| `EventIds.EncodeAfterParse` | internal/db/eventid.go:56-74 | encoding undoes parsing exactly for ids whose remainder below the height is above −10^9, so for all non-negative ones |
| `EventIds.EncodeAfterParseFails` | internal/db/eventid.go:56-74 | a negative int64 for which it does not |
| `EventIds.HeightFilters` | internal/db/eventid.go:76-82 | comparing ids with the id of a height is comparing heights |
| `PoolDepths.DepthIsSumSinceSuspension` | internal/fetch/record/aggregate.go:34-73 | for every sequence of changes a depth is the sum of its pool's signed deltas since the last suspension, whatever other pools do |
| `PoolDepths.SinceSuspensionSplits` | internal/fetch/record/record.go:235-249 | the changes since the last suspension are what follows that suspension of the pool, or all when there is none |
| `RunningTotals.RunningTotals.CurrentDepths` | internal/fetch/record/aggregate.go:20-31 | reads the three depths of a pool, zero for an unknown one |
| `RunningTotals.RunningTotals.AddPoolAssetE8Depth` | internal/fetch/record/aggregate.go:34-40 | through the pointer or a new cell, changes one pool's asset depth and no other; cells stay unshared |
| `RunningTotals.RunningTotals.AddPoolRuneE8Depth` | internal/fetch/record/aggregate.go:43-49 | the same for RUNE |
| `RunningTotals.RunningTotals.AddPoolSynthE8Depth` | internal/fetch/record/aggregate.go:52-58 | the same for synths |
| `RunningTotals.RunningTotals.SetAssetDepth` | internal/fetch/record/aggregate.go:60-63 | installs a fresh cell, so that no other depth and no earlier pointer is affected |
| `RunningTotals.RunningTotals.AssetE8DepthPerPool` | internal/fetch/record/aggregate.go:76-82 | a snapshot by value, which later changes cannot reach |
| `Tables.OneFlushEqualsManyCommits` | internal/db/inserter.go:39-179 | committing block by block leaves the same tables as one flush of all blocks |
| `BatchKeys.BatchKeyInjective` | internal/db/inserter.go:129-138 | rows of different tables or columns never share a batch |
| `Inserters.BatchInserter.StartBlock` | internal/db/inserter.go:118-123 | keeps the pending rows of earlier blocks |
| `Inserters.BatchInserter.Insert` | internal/db/inserter.go:129-138 | appends to what is pending, under the key of its table and columns |
| `Inserters.BatchInserter.Flush` | internal/db/inserter.go:140-179 | writes all pending rows, in order per table, exactly when no copy fails nor the commit, and otherwise nothing |
| `Inserters.MergedIsPutAll` | internal/db/inserter.go:140-171 | copying batch by batch, in any order, gives the tables that row-by-row inserting gives |
| `Inserters.ImmediateInserter.Insert` | internal/db/inserter.go:75-103 | an insert succeeds exactly when its statement does; a failed one is rolled back to its savepoint and leaves the transaction usable |
| `Inserters.ImmediateInserter.EndBlock` | internal/db/inserter.go:56-66 | commits exactly the rows whose insert succeeded, or nothing when the commit fails |
| `Inserters.BothInserters` | internal/db/inserter.go:39-179 | from equal databases in which nothing fails, for every sequence of blocks, both inserters succeed and end with the same rows in every table |
| `Recorders.Recorder.OnAdd` | internal/fetch/record/record.go:48-86 | a donation adds to the asset and RUNE depths of its pool, or as savers' yield to the synth depth as well, and writes the row that belongs to which of the two it is; no other pool changes |
| `Recorders.Recorder.OnErrata` | internal/fetch/record/record.go:118-129 | a correction changes exactly the asset and RUNE depths of its pool and writes one row |
| `Recorders.Recorder.OnFee` | internal/fetch/record/record.go:131-155 | a fee changes by kind of asset exactly the depths of the native pool, nothing for RUNE, and writes one row |
| `Recorders.Recorder.OnGas` | internal/fetch/record/record.go:157-168 | gas takes the asset from its pool and adds the RUNE, and writes one row |
| `Recorders.Recorder.OnPool` | internal/fetch/record/record.go:235-249 | a suspension takes exactly what was there from all three depths of the pool, any other status nothing; one row |
| `Recorders.Recorder.OnRewards` | internal/fetch/record/record.go:285-311 | each pool's RUNE depth grows by the sum of its entries; one row, and one more for each entry in order |
| `Recorders.Recorder.OnSlash` | internal/fetch/record/record.go:362-382 | asset and RUNE depth of the pool change by the sums of the amounts of their kind; one row for each amount in order |
| `Recorders.Recorder.OnStake` | internal/fetch/record/record.go:402-427 | both depths grow by the amounts, and the row shows the depths as they are afterwards |
| `Recorders.Recorder.OnSwap` | internal/fetch/record/record.go:429-527 | each depth of the swap's pool changes by what comes in less what goes out and the fee due at that height, synths as supply; unknown directions change and write nothing |
| `Recorders.Recorder.OnWithdraw` | internal/fetch/record/record.go:546-617 | what is paid out leaves, protection and by height the request's own coin stay, decided by the depths after the payment; the row shows those before it |
| `Recorders.Recorder.OnPoolBalanceChange` | internal/fetch/record/record.go:646-672 | each depth of the pool changes by its signed amount; one row |
| `Recorders.Recorder.OnMintBurn` | internal/fetch/record/record.go:728-744 | only the burn of a failed synth refund changes a depth, the synth depth of its pool; one row |
| `Recorders.Recorder.OnAccountMove` | internal/fetch/record/record.go:817-847 | trade and secured account moves change the asset depth only at the end of a block; one row |
| `Recorders.Recorder.OnAffiliateFee` | internal/fetch/record/record.go:938-978 | no depth changes; two rows for a fee in RUNE and one otherwise, the last with the depths of the fee's pool |
| `Recorders.Recorder.Handle` | internal/fetch/record/record.go:40-1058 | every event means, for the totals and for the rows, what `Delta` and `RowsOf` say of it |
| `Deltas.RecordIsDelta` | internal/fetch/record/record.go:48-882 | each event changes each quantity of each pool by one signed amount given per pool and quantity, and nothing else |
| `Deltas.RecordMeans` | internal/fetch/record/record.go:48-978 | and writes exactly the rows given for the event and the depths it meets |
| `Deltas.SwapsInvolveRune` | internal/fetch/record/record.go:429-477 | a swap is recorded exactly when one side is RUNE and the other is another known asset; otherwise nothing changes |
| `Deltas.SwapBack` | internal/fetch/record/record.go:429-527 | swapping the same amounts back restores every depth of every pool, but for the fees |
| `Deltas.WithdrawWhatWasStaked` | internal/fetch/record/record.go:402-617 | withdrawing what was staked restores every depth |
| `Mux.ScanModes` | internal/fetch/record/mux.go:76-87 | which finalize events count as begin-block events: those marked so, and those without any mode |
| `Mux.FilterAttrs` | internal/fetch/record/mux.go:161-177 | what the parsers see of an event: no mode, no message index, nothing empty |
| `Mux.ProcessBegin` | internal/fetch/record/mux.go:67-97 | events are stamped with their place among all finalize events, processed or not |
| `Mux.ProcessTxs` | internal/fetch/record/mux.go:99-123 | each transaction's message and events, with indexes from one; what that comes to is `TraceContents.BlockByIndex` |
| `Mux.ProcessEnd` | internal/fetch/record/mux.go:125-146 | end events are counted only when processed, once per mode attribute |
| `Mux.ProcessBlock` | internal/fetch/record/mux.go:53-149 | the recorder ends up with exactly the rows and depths of the block's trace |
| `Mux.IdsNeverDecrease` | internal/fetch/record/mux.go:60-148 | ids along the processing order of a block never decrease, repeat only for a message and its first event, and carry the block's height |
| `Mux.IdsGrowAcrossBlocks` | internal/fetch/record/mux.go:60-148 | every id of a block is below every id of a later one |
| `TraceContents.BlockByIndex` | internal/fetch/record/mux.go:53-149 | a block is processed position by position: each event that counts as a begin-block event once, in order; each transaction's message and right after it its events; each finalize event once for each end mark; last, once, the missing events |
| `TraceContents.FilteredByIndex` | internal/fetch/record/mux.go:161-177 | the fields that the parsers see come in order from exactly the attributes that have a value and carry no mode and no message index |
| `TraceContents.EventsOfTheTrace` | internal/fetch/record/mux.go:151-555 | the events recorded for a block are, item by item, what the parser makes of each event, and all that the decoder makes of each message, with the item's id and the block's height and time |
| `RowIds.EventRowsCarry` | internal/fetch/record/record.go:34-38 | every row of an event has its id, encoded, and the time of its block |
| `RowIds.BlockRowsCarryIds` | internal/fetch/record/mux.go:53-149 | every row that a block adds has the id of something processed for the block, and the block's time |
| `RowIds.BlockRowsInOrder` | internal/fetch/record/mux.go:60-148 | along the rows of a block ids never decrease, and they carry its height |
| `RowIds.TablesInOrder` | internal/fetch/record/mux.go:60-148 | in every state of every run each event table is in the order of event ids, and each row's id has the height of a durable block and its time is that block's |
| `DepthFold.EventsAreSummed` | internal/fetch/record/record.go:48-978 | after any list of events each depth is the sum of the events' signed amounts since the pool's last suspension, on top of the initial depth if there was none |
| `DepthFold.HistoryIs` | internal/fetch/record/mux.go:53-149 | a history has the events in order, each with the depths that all earlier ones leave |
| `DepthFold.DepthsAreAFold` | internal/fetch/record/mux.go:53-149 | after any number of blocks each depth is the sum of the amounts of all events of the chain since the pool's last suspension |
| `DepthFold.HistoryMeetsSums` | internal/fetch/record/mux.go:53-149 | and so are the depths that each event of the chain meets |
| `DepthFold.TotalsAreSums` | internal/fetch/record/aggregate.go:34-73 | the same for the changes that the totals have seen over the whole chain |
| `DepthLog.DepthManager.Update` | internal/timeseries/depthrecorder.go:103-173 | exactly one row for each pool that changed since the snapshot, in whatever order pools are visited |
| `DepthLog.RowsAreSparse` | internal/timeseries/depthrecorder.go:22-146 | a pool has a row exactly when one of its entries came, went or changed its value |
| `DepthLog.UpdateKeepsReplay` | internal/timeseries/depthrecorder.go:22-146 | the log still replays to the current depths after each block, also after a restart has emptied the snapshot |
| `DepthLog.LatestIsNewest` | internal/timeseries/depthrecorder.go:103-146 | in a log with growing times the row that replay uses is the one with the greatest timestamp |
| `DatedDepths.RunKeepsDates` | internal/timeseries/depthrecorder.go:103-146 | when block times grow, the depth log of every state of every run has growing times with at most one row per pool and time |
| `DatedDepths.NewestRowIsCurrent` | internal/timeseries/depthrecorder.go:103-146 | so the newest row of a pool by timestamp holds exactly the depths after the last durable block |
| `DatedDepths.DepthsBeforeAreOfTheChain` | internal/timeseries/stat/depth.go:229-278 | reading the log just before any time gives the depths after the durable blocks before that time |
| `DatedDepths.UnionReadsTheLatest` | internal/timeseries/stat/depth.go:229-278 | the union query without a lower bound gives for each pool its latest depths before the time, from the epoch on |
| `DatedDepths.UnionAnswersForTheChain` | internal/timeseries/stat/depth.go:229-278 | so when block times grow, in every state of every run that query answers with the depths after the durable blocks before the time, and what it does not list has none |
| `Ingestion.NextKeepsInv` | internal/timeseries/timeseries.go:45-196 | fetching, refusing, processing, committing, failing, crashing and restarting keep the invariant of durable and volatile state |
| `Ingestion.RunKeepsInv` | internal/timeseries/timeseries.go:45-196 | so does every run |
| `Ingestion.DurableStateIsACommittedPrefix` | cmd/midgard/blockwriter.go:54-91 | on every run the durable log is gapless from height one, ends with a commit block whose snapshot is exactly its depths, never passes the hard fork, and events and depth log are those of an uninterrupted run |
| `Ingestion.BatchesAreCommitted` | cmd/midgard/blockwriter.go:54-91 | in every state of every run, what a ready process has in memory only contains no multiple of the batch size and not the hard fork, is less than a batch, and is nothing for an immediate writer or before the first flush; a writer stopped at the fork has flushed everything |
| `Ingestion.FlushedExactlyWhen` | cmd/midgard/blockwriter.go:70-76 | a block is flushed exactly when the process is immediate or in sync, at batch boundaries, at the fork, or as a first block; exactly then its row in the block log has the depths |
| `Ingestion.OnlyDueBlocksAreFlushed` | internal/timeseries/timeseries.go:118-196 | a process that began without a first block flushes, after its first flush, only due blocks and those recorded in sync |
| `Ingestion.StopsAtTheFork` | cmd/midgard/blockwriter.go:85-91 | the writer stops right after flushing the last block before the hard fork, and after no other block |
| `Ingestion.RestartRestoresTheDepths` | internal/timeseries/timeseries.go:45-101 | a restart gets exactly the depths after the last durable block and resumes at the next height |
| `Ingestion.RestartIsPossible` | internal/timeseries/timeseries.go:45-101 | on no run does setup meet a snapshot it must refuse |
| `Ingestion.MemoryIsThatOfAnUninterruptedRun` | internal/timeseries/timeseries.go:118-196 | a running process always has the depths of an uninterrupted run up to its last block, and the height and time of that block and of the last committed one |
| `Timeseries.RestoreDepths` | internal/timeseries/timeseries.go:79-95 | the totals hold exactly the snapshot, in fresh cells |
| `Timeseries.Setup` | internal/timeseries/timeseries.go:45-101 | is a restart step, and refuses exactly a last row without a decodable snapshot |
| `Timeseries.Process.constructor` | cmd/midgard/blockwriter.go:29-52 | a process begins in the state that setup has built |
| `Timeseries.Process.RecordEvents` | internal/timeseries/timeseries.go:118-140 | the inserter gets the block's event rows, and the totals its depths |
| `Timeseries.Process.RecordDepths` | internal/timeseries/timeseries.go:142-176 | the log row carries the snapshot exactly on commit, and the depth log the changes |
| `Timeseries.Process.ProcessBlock` | internal/timeseries/timeseries.go:118-196 | one block: depths, snapshot, pending rows, and exactly on commit the flush with what is announced; it fails only when the database does |
| `Timeseries.Process.Write` | cmd/midgard/blockwriter.go:54-91 | one round of the writer, with the commit rule and the stop at the hard fork: the whole state afterwards, which is dead only when the database fails |
| `Timeseries.Process.Deliver` | internal/fetch/sync/sync.go:226-246 | the fetcher puts the next block on the channel when there is room |
| `Timeseries.ReachesKeepsInv` | internal/timeseries/timeseries.go:45-196 | whatever a process reaches satisfies the invariant |
| `Timeseries.Process.Receive` | cmd/midgard/blockwriter.go:29-94 | what the writer does with the next block on its channel: it fails at height zero, stops beyond the fork, and otherwise does a round, in sync when the node is at most one block ahead |
| `Timeseries.Process.Loop` | cmd/midgard/blockwriter.go:29-94 | in whatever order blocks arrive, rounds take place and the process is stopped, each has exactly its effect, and every execution of the writer is a run of the protocol |
| `ChunkNames.ChunkNameParses` | internal/fetch/sync/blockstore/chunk.go:22-48 | a chunk name parses back to its height and is not temporary |
| `ChunkNames.NamesSortAsHeights` | internal/fetch/sync/blockstore/chunk.go:46-48 | below 10^12 twelve-digit names are ordered as the heights |
| `ChunkNames.LongerNamesDoNot` | internal/fetch/sync/blockstore/chunk.go:46-48 | a longer name is listed before that of a lower height exactly when its first twelve digits are less than that height |
| `ChunkNames.UnfinishedIsTemporary` | internal/fetch/sync/blockstore/chunk.go:41-48 | files still being written are never taken for chunks |
| `BlockStores.BlockStore.constructor` | internal/fetch/sync/blockstore/blockstore.go:39-52 | opening cleans up after a crash and finds where to go on |
| `BlockStores.Reopen` | internal/fetch/sync/blockstore/blockstore.go:39-52 | whenever the process dies, at any point of any call, opening what is left gives a store with the same blocks up to some height, at least those of the opening before, and goes on from there |
| `BlockStores.BlockStore.CleanUp` | internal/fetch/sync/blockstore/blockstore.go:245-262 | removes temporary files and nothing else, keeping the chunks tiled at every point |
| `BlockStores.BlockStore.GetLocalChunks` | internal/fetch/sync/blockstore/blockstore.go:157-171 | the files with numeric names, in the order of the listing |
| `BlockStores.BlockStore.FindLastFetchedHeight` | internal/fetch/sync/blockstore/blockstore.go:134-146 | the last height of the range that the chunks tile |
| `BlockStores.BlockStore.FinalizeChunk` | internal/fetch/sync/blockstore/blockstore.go:198-223 | closing, removing and renaming, with every intermediate state of the folder |
| `BlockStores.BlockStore.DumpBlock` | internal/fetch/sync/blockstore/blockstore.go:92-121 | consecutive blocks extend one contiguous sequence; a boundary or force makes everything written a chunk; at whatever point of the call the process dies, all blocks finalised before are safe |
| `BlockStores.BlockStore.Close` | internal/fetch/sync/blockstore/blockstore.go:123-128 | leaves the finished chunks, at every point of the call, and what was written since under an unfinished name, which the next start removes |
| `BlockStores.BlockStore.FindChunkForHeight` | internal/fetch/sync/blockstore/blockstore.go:225-243 | the binary search finds the one chunk that has a height, the end beyond the last, and nothing in an empty store |
| `BlockStores.SearchChunks` | internal/fetch/sync/blockstore/blockstore.go:232-241 | the first chunk that ends at or after a height |
| `BlockStores.ListingFollowsHeights` | internal/fetch/sync/blockstore/blockstore.go:157-171 | listed by name, the chunks come in the order of their heights |
| `BlockStores.Iterator.Next` | internal/fetch/sync/blockstore/iterator.go:24-86 | the next block of the stored sequence, across chunks; the end beyond it; a failure below it or on an empty store |
| `BlockStores.Iterator.UnmarshalNextBlock` | internal/fetch/sync/blockstore/iterator.go:90-115 | skips lines of other heights only |
| `BlockStores.Iterator.Rest` | internal/fetch/sync/blockstore/iterator.go:24-115 | from any stored height, repeated calls give exactly the remaining blocks in order, and then the end |
| `StoredBlocks.GetEventMode` | internal/fetch/sync/blockstore/storedblock.go:313-320 | the value of the first mode attribute, or nothing without one |
| `StoredBlocks.CometToTendermintEvent` | internal/fetch/sync/blockstore/storedblock.go:294-311 | mode attributes leave empty slots |
| `StoredBlocks.CometToTendermintBlockResults` | internal/fetch/sync/blockstore/storedblock.go:251-292 | begin and end events are separated; others are dropped |
| `StoredBlocks.TendermintToCometEvent` | internal/fetch/sync/blockstore/storedblock.go:227-249 | empty slots vanish and the mode is put last |
| `StoredBlocks.TendermintToCometBlockResults` | internal/fetch/sync/blockstore/storedblock.go:192-225 | begin events, then end events |
| `StoredBlocks.ReloadIs` | internal/fetch/sync/blockstore/storedblock.go:192-320 | what storing and loading makes of any results: begin events, then end events, each with its attributes but those with an empty key or a mode, and its mode last |
| `StoredBlocks.RoundTrip` | internal/fetch/sync/blockstore/storedblock.go:192-320 | loading gives back what was stored exactly for results in canonical form: one mode, placed last, begin events first, plain attributes |
| `StoredBlocks.ReloadIsIdempotent` | internal/fetch/sync/blockstore/storedblock.go:192-320 | a second store and load of any results changes nothing |
| `StoredTraces.ProcessingSurvives` | internal/fetch/sync/blockstore/storedblock.go:192-320 | processing sees the same sequence of ids and events after a round trip exactly when a checkable condition on modes, order and names holds |
| `StoredTraces.StoredBlocksRecordTheSame` | internal/fetch/sync/blockstore/storedblock.go:33-52 | such a block gives the same rows and depths from the store as from the chain |
| `StoredTraces.CanonicalIsFaithful` | internal/fetch/sync/blockstore/storedblock.go:192-320 | results in canonical form satisfy that condition |
| `StoredTraces.ModelessEventsAreLost` | internal/fetch/sync/blockstore/storedblock.go:279-286 | a finalize event without a mode is processed but not stored |
| `Syncing.Iterator.Next` | internal/fetch/sync/iterator.go:44-89 | a block of the next height is handed on, from the store or, when the store has none, from the chain opened at that height; anything else is a failure; beyond the final height it ends |
| `Syncing.Sync.CatchUp` | internal/fetch/sync/sync.go:171-249 | sends consecutive heights up to its target, each block as its source yields it; the target is the height that failed last time if there is one; in sync exactly when it is reached and was near |
| `Syncing.ServedBlocks` | internal/fetch/sync/iterator.go:44-89 | sources that serve up to a target yield the block of every height up to it, wherever the store ends or fails |
| `Syncing.ServedRoundsReach` | internal/fetch/sync/sync.go:171-249 | a catch-up that is not stopped and is served up to its target reaches it, with every block up to it sent |
| `Syncing.Sync.KeepInSync` | internal/fetch/sync/sync.go:251-309 | over any number of rounds the heights sent are start, start+1, … without gap or repeat, and each round answers to what the sources and the node say; it gives up only after more than twenty failures at one height, and is caught up exactly when some round was in sync |
| `Syncing.ServedRunsGoOn` | internal/fetch/sync/sync.go:251-309 | a run in which every round is served reaches every target and is never given up |
| `Syncing.StuckSince` | internal/fetch/sync/sync.go:259-308 | the error count is the number of failed rounds since the last round that sent something, not counting the first at its height |
| `Syncing.RatchetHolds` | internal/fetch/sync/sync.go:171-229 | after a failed fetch, anywhere in a run, the next round has the same target and asks for no status |
| `Syncing.TargetStays` | internal/fetch/sync/sync.go:171-229 | the target stays for as long as fetches fail |
| `Aggregates.UnionQuery` | internal/db/aggregates.go:272-339 | the parts are disjoint and make up the window exactly when it has a day boundary inside or is made of whole days |
| `Aggregates.DaysAreDirect` | internal/db/aggregates.go:182-232 | any set of days taken from the daily view answers as the raw rows of these days |
| `Aggregates.HigherViewIsDirect` | internal/db/aggregates.go:234-241 | a view of a longer period answers as the raw rows of the period |
| `Aggregates.UnionIsDirect` | internal/db/aggregates.go:272-374 | for every table and every such window, head, tail and whole days together give each group the same sum and last value as the raw rows |
| `Aggregates.UnionInsideOneDay` | internal/db/aggregates.go:272-339 | every other window counts some row that is outside |
| `Aggregates.DirectExists` | internal/db/aggregates.go:151-180 | a direct aggregation, with legal last values, exists for every table |
| `Aggregates.UnionExists` | internal/db/aggregates.go:272-374 | a daily view, answers of the parts and a combined answer exist for every table and window |
| `Watermarks.StepKeepsInv` | internal/db/aggregates.go:442-604 | commits, announcements, refresh steps, failures and restarts keep the invariant |
| `Watermarks.CombinedIsAlwaysLive` | internal/db/aggregates.go:442-464 | on every run, from an empty or a full database, no watermark passes the last committed block by more than one, and each combined view has exactly the rows of the live one |
| `Watermarks.LateRowsAreLost` | internal/db/aggregates.go:487-502 | new rows keep a view right exactly when none is below its watermark: why block times must grow |
| `Watermarks.Aggregator.RefreshAggregates` | internal/db/aggregates.go:503-604 | the refresh, as a function of the state and as a run of the steps |
| `Watermarks.CatchesUp` | internal/db/aggregates.go:511-530 | in every state, a fresh database included, refreshing without new commits once for each twenty days of backlog completes every view, the actions, and the aggregated block |
| `Bucketing.TrimTimestamps` | internal/db/buckets.go:188-202 | for every window, keeps the boundaries needed for it and no others, a boundary at its end being the last one; refuses it exactly when no bucket overlaps it; an index or slice is out of range exactly under a condition on window and candidates |
| `Bucketing.RestrictBuckets` | internal/db/buckets.go:244-254 | drops only buckets outside the life of the chain, and leaves at least one |
| `Bucketing.QueryBucketedGeneral` | internal/timeseries/stat/depth.go:31-71 | at each bucket, the state is the one of the bucket before with exactly the rows of the bucket's start applied |
| `Bucketing.SavedIsFold` | internal/timeseries/stat/depth.go:31-71 | for rows at bucket starts, bucket i holds the fold of all rows up to it, each applied once |
| `UnitHistory.PoolsLiquidityUnitsBefore` | internal/timeseries/stat/poolunits.go:101-115 | each pool's units added less its units withdrawn before a time |
| `UnitHistory.UnitsBefore` | internal/timeseries/stat/poolunits.go:101-115 | units before a time are those of all changes before it, not including the time itself; without a time, those of all changes |
| `UnitHistory.BucketedUnitChanges` | internal/timeseries/stat/poolunits.go:55-98 | what each bucket gets for every window, which is the units up to its end unless the epoch is inside a bucket |
| `UnitHistory.PoolLiquidityUnitsHistory` | internal/timeseries/stat/poolunits.go:123-140 | each bucket agrees with the direct answer for its end, unless the epoch is inside a bucket |
| `UnitHistory.ExactUnlessStraddling` | internal/timeseries/stat/depth.go:31-71 | without changes before the epoch, the buckets are right for every history exactly when the epoch is not strictly inside one of them |
| `UnitHistory.StraddlingBucketMisses` | internal/timeseries/stat/depth.go:42-58 | a bucket with the epoch inside misses any change at the epoch |
| `DepthHistory.GetDepthsHistory` | internal/timeseries/stat/depth.go:88-153 | each bucket holds exactly the depths before its end, with an interval and without, unless the epoch is inside the window |
| `DepthHistory.SavedDepths` | internal/timeseries/stat/depth.go:88-278 | bucket by bucket, merged rows give what the direct query gives |
| `DepthHistory.ExactUnlessTheEpochIsInside` | internal/timeseries/stat/depth.go:31-153 | without rows before the epoch, the history is right for every log exactly when the window starts after the epoch or ends by it |
| `DepthHistory.ZeroStartAddsAPool` | internal/timeseries/stat/depth.go:42-47 | any bucket that starts at the epoch brings in a pool without a name |
| `DepthHistory.StraddlingBucketMisses` | internal/timeseries/stat/depth.go:42-58 | any bucket with the epoch inside misses a row at the epoch |
| `Swaps.SwapBucket.WriteOneDirection` | internal/timeseries/stat/swap.go:67-118 | all five measures go to the swap's own direction and to no other; derived swaps to none |
| `Swaps.SwapBucket.CalculateTotals` | internal/timeseries/stat/swap.go:120-136 | a bucket that holds any list of swaps by direction gets the sum over the list, derived swaps left out, as its total |
| `Swaps.SwapBucket.AddBucket` | internal/timeseries/stat/swap.go:139-185 | adds each direction and the total |
| `Swaps.MergeSwapsGapfill` | internal/timeseries/stat/swap.go:306-329 | the swaps before the first one whose time is not a bucket start are used, each in exactly its bucket; totals conserve the sum over all non-derived ones of them |
| `Swaps.FilledSums` | internal/timeseries/stat/swap.go:67-136 | in plain sums: each field of a bucket has the count, volumes, fees and slip of the swaps of its direction at its start, and the totals of all buckets those of all but the derived ones |
| `Swaps.CreateVolumeIntervals` | internal/api/json.go:486-500 | the meta is the sum over the buckets, by direction and in total |
| `Earnings.NodeCountWeightedSums` | internal/timeseries/stat/earnings.go:225-286 | each interval has the exact sum over its seconds of the node count, the last one short of its last second exactly when that is the last point |
| `Earnings.IntervalsAddUp` | internal/timeseries/stat/earnings.go:225-286 | the intervals add up to the meta |
| `Members.MemberMap.AddMemberSimple` | cmd/membercheck/membercheck.go:190-200 | the maps group the changes by rune address, else by asset address |
| `Members.MemberMap.AddMemberClustered` | cmd/membercheck/membercheck.go:204-237 | the maps group the changes by the pairs of addresses, and the program stops exactly at an inconsistent list |
| `Members.MemberMap.RemoveZero` | cmd/membercheck/membercheck.go:239-250 | exactly the entries of zero go; the total stays |
| `Members.MemberMap.TotalUnits` | cmd/membercheck/membercheck.go:252-262 | the sum over both maps |
| `Members.AddAllClustered` | cmd/membercheck/membercheck.go:204-262 | for every consistent list the maps are the declarative grouping, their total is the sum of the units, and no address is both kept alone and paired |
| `Members.OrderDoesNotMatter` | cmd/membercheck/membercheck.go:204-237 | any permutation of a consistent list gives the same three maps |
| `Forks.CombinedForkInfoMap` | internal/db/chainancestry.go:50-95 | the map of all chains, or a stop at the first wrong one |
| `Forks.AcceptedExactly` | internal/db/chainancestry.go:50-95 | a list is accepted exactly when each entry's parent is listed before it, has a last block, and is continued by it, and no entry ends before it begins; the map has the last entry of each name with its start filled in |
| `Forks.CombinedIsLinked` | internal/db/chainancestry.go:62-90 | with proper names, each chain begins right after its parent ends |
| `Forks.WalksEndSoonOrNever` | internal/db/chainancestry.go:109-119 | the walk from a chain ends exactly when it leaves the map within as many steps as there are chains, which a caller can test |
| `Forks.RecursiveFindRoot` | internal/db/chainancestry.go:109-119 | for every walk that ends, the loop ends, at the first chain of the ancestry |
| `Forks.LinkedWalkEnds` | internal/db/chainancestry.go:109-119 | with proper names every walk ends, because each parent begins strictly earlier |
| `Forks.AddedChainEnds` | internal/db/chainancestry.go:61-91 | entry by entry, all walks keep ending exactly when the new name is neither empty nor that of the parent or of one of the parent's ancestors |
| `Forks.AncestryIsContiguous` | internal/db/chainancestry.go:109-119 | the ancestry begins at a chain without parent, and each chain continues the one before |
| `Forks.RangesTile` | internal/db/chainancestry.go:50-119 | every height below a chain and not below its root belongs to exactly one ancestor |
| `Forks.SameRoot` | internal/db/chainancestry.go:109-165 | every chain of an ancestry has the same root, and the ancestry up to itself |
| `Forks.FullyQualifiedChainId.EnrichAndGetRoot` | internal/db/chainancestry.go:97-152 | the enriched chain, its root, and the cases in which the program stops, wherever the walk ends |
| `Forks.FullyQualifiedChainId.MergeAdditionalInfo` | internal/db/chainancestry.go:97-107 | each of the three facts that is known wins over what the node reports, field by field |
| `Forks.KnownWins` | internal/db/chainancestry.go:97-107 | enriching twice is enriching once; when all is known nothing but the name is the node's, and when nothing is known all of it is |
| `Forks.RepeatedIdLoops` | internal/db/chainancestry.go:62-119 | a chain listed again as its own child passes the checks, and the walk from it makes any number of steps |
| `Forks.EmptyIdLoops` | internal/db/chainancestry.go:62-119 | for every accepted list with an empty name, every walk from every chain makes any number of steps |
| `Paging.GetActions` | internal/timeseries/actions.go:848-862 | the page is newest first in both directions, with the ids of its ends as tokens |
| `Paging.PageHasWhatWasAsked` | internal/timeseries/actions.go:968-1072 | for all parameters: the actions below and from the heights, between the times and beyond the tokens that are given, of them the oldest for a reverse lookup and otherwise the newest, as many as offset and limit leave, newest first |
| `Paging.PagesDescend` | internal/timeseries/actions.go:968-1072 | every page is strictly descending and has only matching actions that meet the bounds on heights, times and tokens |
| `Paging.NextPage` | internal/timeseries/actions.go:968-1072 | the next token leads to exactly the actions that follow, whatever has been added meanwhile |
| `Paging.PrevPage` | internal/timeseries/actions.go:968-1072 | the previous token leads back to the preceding full page, in the same order |
| `Paging.ListAll` | internal/timeseries/actions.go:848-1072 | following next tokens lists every matching action exactly once, newest first, and ends |

## Left out

- Genesis files, schema migration and the first height of a chain: the model begins at height one with an empty database.
- Parsing of event attributes, the correction tables and the messages of transactions: a function from id, kind and attributes to parsed events stands for them; it may depend on the id and so on the transaction.
- Columns of event tables other than the id, the timestamp and one value: they do not influence the properties.
- `TxState`, pool status and mimir values: they do not feed the depths.
- The `rune_price` rows that each block adds, and prices, yields and anchors in floating point: no exact property.
- Wrap-around of int64 depths, units and timestamps: amounts are unbounded integers.
- Recorders.Recorder.Handle: inserts inside handlers do not fail, because a failing insert only concerns the immediate inserter, which is modelled on its own; rows reach the inserter at the end of a block instead of one by one.
- Mux.ProcessTxs: fields that the parent transaction adds to an event are part of what the parser makes of the event under its id.
- Mux.ProcessBlock: corrections of single blocks, applied before dispatch, are taken to be applied to the block already.
- Timeseries.Setup: pool statuses and mimir values are not read, and so cannot fail to be read.
- Timeseries.Process.constructor: the wait at the fork before the first round is not there; it changes nothing, and later blocks are refused.
- Timeseries.Process.ProcessBlock: there is no genesis block, and so no flush of its own for it.
- Inserters.ImmediateInserter.Insert: the savepoint statements themselves do not fail.
- The wording of SQL and the behaviour of PostgreSQL and TimescaleDB: queries are functions or relations on tables; the daily view and the rows of bucketed queries are given by what they must contain.
- Aggregates.UnionIsDirect: conditions on group columns are taken to be applied to the table beforehand, and joined tables to be part of it.
- Watermarks.CombinedIsAlwaysLive: a new block is taken to add rows of its own time to a view and to change no others.
- The remaining update procedures of the aggregates (balances, members, actions and others): only the watermark of the actions, from which a restart resumes, is kept.
- Downloading chunks, hashes of chunks, compression and encoding of files: a written line is read back as it was, but for empty byte strings.
- BlockStores.BlockStore.DumpBlock: errors of the file system end the program in the source, and are not separate outcomes here.
- The debug mode that compares block store and chain block by block, and the batching of the chain client: each source may yield, fail or end at any time.
- Syncing.Sync.KeepInSync: the loop runs for a given number of rounds, for all such numbers.
- Earnings of pools, fees and bonding rewards: sums of single columns.
- Headers and signatures of stored blocks: conversions field by field.
- Web handlers, metrics, logs, timers and signals.

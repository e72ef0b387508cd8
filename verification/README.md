# levisdb in Dafny

A model of levisdb, an embedded key-value store built as a log-structured merge tree, and proofs about it.
Writes get a sequence number, go to a write-ahead log, and are buffered in a skiplist memtable; memtables are
flushed to immutable sorted tables; compaction merges tables tier by tier; reads at a sequence and an instant see
the newest version at or below that sequence that no range tombstone covers and no deadline has passed.

The main results:

- **Compaction preserves reads.** Whatever branch a compaction takes (growth hop, in-place collapse, overlap scoping,
  byte cap, full rewrite), every read at or above the retained sequence and at or after the expiry cutoff is the same
  before and after (`EngineT.Compact`, `EngineT.CompactAll`, `CompactionTheorem.CompactionPreservesReads`).
- **The store refines its log.** Over every run of writes, range deletes, seals, flushes, ingestions, compactions, pins
  and releases, every reader whose instant no compaction's cutoff lies after sees exactly what the newest logged change
  at or below its sequence says (`Store.ReadsRefineLog`), its reads never change, and it meets no conflicting versions.
- **Scans and the clock.** A scan reads the clock before it pins the instant it read. The iterators' promise that TTL
  values they can see are not rewritten holds if and only if no compaction was given a later cutoff in between
  (`ScanRace.PinIsSafeIff`); `ScanRace.LateScanMisreads` gives a failing run for every such pair of instants.
- **One committer.** However many callers contend for the log, at most one is inside the commit loop, and every run of
  them is a run of the commit protocol (`Committers.AtMostOneCommitter`, `Committers.TeamRefines`).
- **Crash safety.** Over every run of the group-commit protocol, flushes, log rotation, checkpoints, compactions, crashes
  and recoveries, acknowledged changes are in live tables or in a segment that replay reads, and recovery shows exactly
  the durable changes (`CrashSafety`, on the invariant `Recovery.RunInv`). `RecoverLog` ties the log files' bytes, torn
  anywhere, to what recovery applies in that machine.
- **Damage is found.** Whatever the bytes, a record read is made of chunks that carry their own checksum
  (`JournalDamage.RecordIsSummed`). A log damaged in one record reads as the records before it and then as corruption
  (`JournalDamage.DamagedLogReads`); strict recovery then fails, and lenient recovery keeps exactly what comes before
  (`RecoverLog.RecoverWal`). A manifest replays if and only if its edits may follow one another
  (`ManifestReplay.ReplayManifest`).
- **A false property, with its exact condition.** A compaction filter can leave the store with two conflicting versions of
  one key at one sequence: recovery may write a change to a second table that an earlier flush already holds, and a
  filter that then rejects one copy leaves the other. `FilterConflict.FilterCanConflict` is such a run, each merge in it
  the one the compaction loop chooses; `FilterConflict.FilterRunAgreesIff` says exactly when it happens in a reachable
  state; `CrashSafety.ReplayedCopiesAgree`, `CrashSafety.RejectedStaysGone` and `CrashSafety.FiltersAreSafeUntilReplay`
  say what holds otherwise.
- **Automatic compaction terminates** (`EngineT.DrainTiers`), **a scan equals point reads** (`Scan.ScanAll`), **catch-up is
  exact** (`CatchUp.GetUpdatesSince`), **a table lookup is a linear scan** (`TableReader.LookupAtTime`), **the journal reads
  back any prefix** (`Journal.PrefixReads`), and round trips of every on-disk encoding.

How the model is laid out:

- Reads: `Bytes`, `Versions`, `Log`, `Extension`, `Replay` say what a collection of versions and a log of changes show.
- Engine: `Tables`, `Memtables`, `Collapse`, `OverlapGroups`, `Merge`, `Sink`, `MergeWriter`, `Compaction`,
  `CompactionTheorem`, `LevelIndexes`, `Scan`, `Engine`, `Tiers`.
- Runs: `Store`, `ScanRace` (live store with ingestion and pins), `WriteAhead`, `GroupCommit`, `Committers`, `Recovery`,
  `CrashSafety`, `FilterConflict` (durable protocol with crashes), `Plans`, `ReplayRuns` (runs the compaction loop can
  take), `Sequences` (allocation with ingestion and rotation), `Snapshots`.
- Log and manifest bytes: `Varint`, `Journal`, `JournalFile`, `JournalDamage`, `WalRecord`, `WalSegment`, `RecoverLog`,
  `CatchUp`, `Manifest`, `ManifestReplay`.
- Memory structures: `Ikey`, `StoredValues`, `SkipOrder`, `Arena`, `Skiplist`, `MemtableList`, `Cache`.
- Table bytes: `DataBlock`, `BlockIter`, `Bloom`, `RangeDelBlock`, `TableFormat`, `TableWriter`, `TableIndex`,
  `TableLookup`, `TableReader`, `TableScan`.

Where the code and its comments disagree, the model follows the code:

- The comment on `capCompactionInputs` promises the longest prefix within the byte cap; the code keeps the table that
  crosses the cap too. `Compaction.CapHonouredIff` gives the exact condition.
- The comment on `recoverWALMode` says re-applying an entry a table already holds duplicates no version. It changes no
  read (`Replay.ReplayIsHarmless`), but the second copy is a second version as far as filters go
  (`FilterConflict.FilterCanConflict`).
- A rotated manifest can carry a lower sequence watermark than the one it replaces, by one, after an ingestion gave its
  number back (`Sequences.RotationCanLower`); nothing carries that number (`Sequences.RotationLowersIff`).
- The comment on `oldestIteratorTime` counts iterators being constructed among those it protects; one that has read the
  clock and not yet pinned is not (`ScanRace.LateScanMisreads`).

Outside calls are parameters: clock readings, file sizes, the checksum, the compression codec and the Bloom hash, the
coin flips of a skiplist insert, whether a write succeeded. Concurrent protocols are state machines whose steps are the
source's critical sections.

## Model

| member | source | states |
|---|---|---|
| Collapse.CollapsePreservesReads | engine_compaction.go:791-939 | replacing a set of versions by what an unfiltered merge leaves of it changes no read at or above the retained sequence and at or after the cutoff, beside any other versions the reclaimed tombstones did not shadow |
| Collapse.FilterRevealsNothing | engine_compaction.go:990-1043 | with a filter a merge may hide values but never brings back one that was not visible |
| Collapse.FilterHidesExactly | engine_compaction.go:990-1043 | after a filtered merge a read at or above the retained sequence and cutoff finds what it found before, except exactly where the version that decided it was turned down and no copy of it is outside the merge |
| Collapse.MergeWrites | engine_compaction.go:801-1043 | what becomes of each version: one above the retained sequence or the newest at or below it is written, as it is or as a tombstone when its deadline has passed or the filter, shown its key, value and deadline if its sequence is within the bound, says no; a dead or deleted one is dropped where reclaiming is safe; nothing else is written for it |
| OverlapGroups.SortByMin | engine_compaction.go:527-590 | the result is the same tables, ascending by recorded low bound, unknown bounds first |
| OverlapGroups.OverlapSets | engine_compaction.go:527-563 | the groups partition the tables, no table of one group touches a table of another, and every group is linked by overlaps, unknown bounds included |
| OverlapGroups.TouchIff | engine_compaction.go:537-556 | two recorded ranges touch exactly when some key may lie in both |
| Merge.LeastHead | engine_merge.go:86-96 | the source picked is one whose current entry no other precedes |
| Merge.MergeIter.Next | engine_merge.go:50-77 | each step takes one least remaining entry and loses none of the others |
| Merge.MergeAll | engine_merge.go:33-77 | the merge yields all entries of all sources, no more and no fewer, in internal-key order |
| Sink.MakeTable | engine_compaction.go:1131-1174 | the table holds the output's entries, its bounds take in every key and every range tombstone, each bound is one of them, and there is none only if the output is empty |
| Sink.CompactionSink.Add | engine_compaction.go:1097-1107 | an entry is appended to the output in order, or numbers have run out and nothing changed |
| Sink.CompactionSink.Finish | engine_compaction.go:1131-1174 | closing an output keeps every entry written, and the first output closed takes all carried range tombstones |
| Sink.CompactionSink.RollIfNeeded | engine_compaction.go:1124-1129 | an output is closed exactly when its projected size reaches the target, and no entry is lost either way |
| MergeWriter.MaxCovering | rangetomb.go:54-62 | the result exceeds a version's sequence exactly when some range tombstone at or below the limit deletes that version |
| MergeWriter.RangeDelsToPersist | engine_compaction.go:485-496 | exactly the tombstones still needed are kept: all of them, or at the bottom those above the retained sequence |
| MergeWriter.Decide | engine_compaction.go:828-914 | one turn of the loop: an entry is dropped, written or refused, and what has been written stays exactly the survivors of the entries seen |
| MergeWriter.Turn | engine_compaction.go:828-919 | with rolling outputs, the same holds and no user key is split between two output tables |
| MergeWriter.OutputIsCollapsed | engine_compaction.go:791-939 | the survivors and kept tombstones are a collapse of the input in the sense the read theorem needs |
| MergeWriter.CloseMerge | engine_compaction.go:920-938 | range tombstones survive even when no entry does: an output is forced to carry them |
| MergeWriter.WriteMerged | engine_compaction.go:791-939 | the outputs are a collapse of the stream, in order, with sound bounds and fresh numbers, never more records than the input; it fails only when numbers run out or two versions of a key at one sequence conflict |
| Compaction.SplitTier | engine_compaction.go:297-308 | the tables of the tier in order and exactly the others, each table once |
| Compaction.LargestGroup | engine_compaction.go:567-575 | one of the groups, and none is larger |
| Compaction.CapInputs | engine_compaction.go:632-641 | the shortest run of at least two tables whose size exceeds the cap, or every table |
| Compaction.CapHonouredIff | engine_compaction.go:628-641 | the run kept is within the byte cap if and only if all the tables together are |
| Compaction.OutDepthIs | engine_compaction.go:218-234 | the output goes one tier down, or stays when collapsing in place or already in the last tier of the configured or default eight |
| Compaction.NarrowToGroup | engine_compaction.go:603-617 | either the whole tier or a proper linked group of two or more is taken, and the bounds of every table passed over are listed |
| Compaction.ScopeInputs | engine_compaction.go:603-626 | scoping keeps at least two tables of the tier and lists the bounds of every one it leaves behind |
| Compaction.TouchingGroups | engine_compaction.go:330-344 | the inputs are closed under overlap with the whole table set, so unconditional reclaiming is guarded |
| Compaction.SelectInputs | engine_compaction.go:276-375 | whichever branch selects, inputs, output tier and reclaim rule are ones the selection rules allow; the inputs are tables of the store, what may be reclaimed is guarded against every table left behind, a hop never moves a single table, a tier of two or more tables is always merged, and a lone one exactly when single-table rewriting is on, it is in the deepest populated tier and stays there, and a filter is set or it holds a tombstone |
| Compaction.PairIsMerged | engine_compaction.go:243-375 | for a tier of two tables above the bottom the selection rules allow exactly one plan under every configuration: both tables, and reclaim guarded by every other table's range |
| Plans.PairIsPlanned | engine_compaction.go:97-142 | two tables in the freshest tier make it due under the default layout, and merging both with that reclaim rule is the only merge the loop may run |
| CompactionTheorem.SharedKeyNotReclaimed | engine_compaction.go:501-513 | a key that a table left behind also holds is never reclaimed |
| CompactionTheorem.GuardedUncoversNothing | engine_compaction.go:330-344 | nothing a guarded merge reclaims shadowed a version left outside the merge |
| CompactionTheorem.CompactionPreservesReads | engine_compaction.go:276-411 | a guarded, unfiltered compaction of any subset of the tables leaves every read at or above the retained sequence and cutoff unchanged |
| CompactionTheorem.MergeTables | engine_compaction.go:354-396 | merging the inputs gives fresh tables that are their collapse and hold no more records; it fails only when numbers run out or two input versions clash |
| LevelIndexes.LevelIsDisjoint | engine_levelindex.go:64-76 | true exactly when every bound is known and each range ends before the next begins |
| LevelIndexes.GroupByDepth | engine_levelindex.go:33-58 | every level holds exactly the tables of its depth |
| LevelIndexes.BuildLevelIndex | engine_levelindex.go:33-58 | the index is for exactly the given tables, levels sorted by low bound, marked disjoint exactly when they are |
| LevelIndexes.SearchLevel | engine_levelindex.go:83-110 | binary search of a disjoint level visits exactly the tables whose bounds may contain the key |
| LevelIndexes.Candidates | engine_levelindex.go:83-124 | every table whose bounds may contain the key is visited exactly once, and no other |
| Tables.BoundsExclude | engine.go:46-54 | a table whose bounds exclude a key holds no version of it and no range tombstone over it |
| Tables.WidenBounds | engine.go:1050-1068 | the bounds take in the point range and every range tombstone, each end is one of the given keys, and there is none only if none was given |
| Memtables.LookupFindsNewest | memtable.go:131-164 | the first match in an ascending run is the newest version at or below the sequence, and no match means there is none |
| Engine.FoldSource | engine.go:449-531 | folding one more source into the pick gives the newest visible version over all sources seen, or finds versions that disagree |
| Engine.PickIsRead | engine.go:625-663 | a pick checked against the newest covering range tombstone is exactly the read |
| Engine.PickedAgree | engine.go:449-457 | a pick that succeeded has met no two newest versions that show different things |
| Engine.WriteTable | engine.go:971-1044 | the table holds the memtable's entries and range tombstones, in order, with sound bounds |
| Engine.EngineT.PickVersion | engine.go:471-531 | the newest visible version over both memtables and the candidate tables; an error only if two versions at one sequence show different things |
| Engine.EngineT.MaxCoveringRangeDel | engine.go:669-696 | exceeds a version's sequence exactly when some visible range tombstone anywhere in the store deletes it |
| Engine.EngineT.GetWithExpiry | engine.go:537-663 | a read returns the live value or its absence over everything the store holds, and an error whenever the newest visible versions of the key disagree, and only if two held versions at one sequence do |
| Engine.EngineT.Add | engine.go:250-268 | one version joins what the store holds, and nothing else changes; if it is the newest, every later read of its key finds its value until the deadline, or nothing for a delete, and every other read is as before |
| Engine.EngineT.AddRangeDel | engine.go:271-275 | one range tombstone joins what the store holds, and nothing else changes; if it is the newest, later reads find nothing from its start up to, not including, its end, and every other read is as before |
| Engine.EngineT.Rotate | engine.go:814-823 | the active memtable is sealed exactly when none is sealed and it holds something; nothing held changes |
| Engine.EngineT.FlushSealed | engine.go:841-917 | the sealed memtable becomes one tier-0 table and the store holds the same versions, or nothing changed |
| Engine.EngineT.Flush | engine.go:841-917 | a flush moves buffered writes to a table and changes no version held |
| Engine.EngineT.MergeAndCommit | engine_compaction.go:656-690 | the inputs are replaced by their collapse, the table set stays valid, and unfiltered reads are unchanged |
| Engine.EngineT.Compact | engine_compaction.go:276-411 | one compaction of any tier under any configuration does what the selection rules allow and nothing else: the chosen inputs give way to their collapse in the chosen tier; it fails only when file numbers run out or two held versions clash, failure or idleness changes nothing, and success without a filter changes no read the retained sequence and cutoff promise |
| Engine.EngineT.CompactAll | engine_compaction.go:696-748 | every table gives way to the collapse of them all with everything reclaimable dropped, in the deepest populated tier; no such read changes, and it fails only for the same reasons |
| Engine.EngineT.DrainTiers | db.go:1747-1807 | the pick and compact loop ends: either no tier is due any more or a merge could not be done |
| Engine.EngineT.NewRangeIterator | engine_iterator.go:45-95 | the captured sources answer every read in the range as the whole store does |
| Scan.AnyCovers | rangetomb.go:41-48 | true exactly when some range tombstone deletes the version for this reader |
| Scan.FirstVisibleIsNewest | engine_iterator.go:98-191 | the first visible entry of a key in merge order is its newest visible version |
| Scan.EngineIterator.Next | engine_iterator.go:98-191 | each step lands on the next live key of the range with its value, skipping none, or reports that none is left |
| Scan.ScanAll | engine_iterator.go:98-191 | a scan yields exactly the keys from the start up to, not including, the end that a point read finds live, with their values, once each, strictly ascending |
| Tiers.HasOverlap | engine_compaction.go:156-169 | true exactly when two ranges of the tier intersect |
| Tiers.Totals | engine_compaction.go:101-124 | the loop's totals are the tier's bytes, entries and tombstones |
| Tiers.PairIsDue | engine_compaction.go:117-137 | two tables in the freshest tier, fewer than the count trigger, are due exactly when their sizes add up to the byte trigger or their tombstones to the tombstone ratio of their entries |
| Tiers.IsReady | engine_compaction.go:97-142 | true exactly when the tier is due under the triggers |
| Tiers.PickCompaction | engine_compaction.go:97-142 | the shallowest tier that is due, or none is |
| Tiers.HopShrinks | engine_compaction.go:225-234 | moving tables one tier down lowers the sum of records times remaining depth |
| Tiers.SettleShrinks | engine_compaction.go:330-411 | rewriting the deepest tier leaves no tombstone there and raises no measure |
| Tiers.DrainTurn | db.go:1649-1683 | every turn of the loop lowers the lexicographic measure and keeps its preconditions |
| Log.ViewReadsAsLog | engine.go:537-568 | the versions of a log read exactly as the newest change at or below the sequence |
| Log.PutReads | db.go:1046-1051 | after a put at or below the reader, its key reads back the value until the deadline, and every other key reads as before |
| Log.DeleteReads | db.go:1054-1058 | after a delete its key reads as absent and every other key as before |
| Log.RangeDeleteReads | db.go:1060-1071 | after a range delete exactly the keys from its start up to, not including, its end read as absent |
| Log.IngestReads | sst.go:183-272 | after an ingestion each of its keys reads as the file says and every other key as before |
| Extension.ExtendSame | engine.go:250-275 | adding one newer change to two collections that read alike keeps them alike |
| Extension.NewPointReads | engine.go:250-268 | a version above all others is read by its own key, until its deadline, and by no other |
| Extension.NewDelReads | rangetomb.go:30-37 | a range tombstone above all versions hides exactly the keys from its start up to, not including, its end |
| Store.FlushKeeps | engine.go:841-917 | installing a flushed table keeps the store's invariant |
| Store.IngestKeeps | sst.go:183-272 | installing an ingested table at a fresh sequence, its range clear of the memtables, keeps the invariant |
| Store.CommitKeeps | engine_compaction.go:656-690 | committing a compaction that ran concurrently with writes, flushes and ingestions keeps the invariant |
| Store.StepKeeps | engine.go:250-275 | every step of the live store keeps its invariant |
| Store.RunKeeps | db.go:716-735 | so every state of every run satisfies it |
| Store.ReadsRefineLog | engine.go:471-696 | in every state of every run, a reader at a pinned or the published sequence and at any instant not before the latest cutoff given to a compaction sees exactly what the log says |
| Store.ReadsNeverConflict | engine.go:449-457 | for every such reader no two versions of a key at one sequence disagree, so folding them never fails |
| Store.MergesNeverClash | engine_compaction.go:957-976 | in every state a compaction whose cutoff is not before an earlier one's meets no two versions it would refuse to merge |
| Store.PinnedReadsAreStable | snapshot.go:41-154 | such a reader sees the same value at any two points of a run, whatever happens between |
| Store.TimelyScanStays | snapshot.go:92-136 | while a scan holds the instant it pinned, no compaction is given a cutoff after it, if none was when it pinned |
| ScanRace.TimelyScanReadsLog | iterator.go:23-28 | a scan that reads the clock and pins that instant in a later step sees exactly the log at that instant for as long as it holds its pins, if no compaction was given a later cutoff in between |
| ScanRace.LateScanReadsLog | iterator.go:23-28 | a scan that pins too late still reads the log when no logged deadline lies after its instant and up to that cutoff |
| ScanRace.LateScanMisreads | snapshot.go:122-136 | otherwise it may not: for every instant and every later cutoff there is a run, its one compaction the one the loop would choose, in which the scan misses a value the log shows at its instant |
| ScanRace.PinIsSafeIff | iterator.go:23-28 | every scan that pins an instant when the latest cutoff given out is c reads the log, if and only if the instant is not before c |
| Snapshots.DropUndoesTake | snapshot.go:92-120 | releasing undoes acquiring, entry for entry |
| Snapshots.Least | snapshot.go:139-154 | the least of a set of pins, or the fallback |
| Snapshots.SnapshotSet.Acquire | snapshot.go:41-48 | a pin is counted exactly when no filter run is reserved |
| Snapshots.SnapshotSet.Release | snapshot.go:92-100 | one count of the pin goes, no other changes |
| Snapshots.SnapshotSet.AcquireIteratorTime | snapshot.go:106-110 | one count of the read time is added, no other changes |
| Snapshots.SnapshotSet.ReleaseIteratorTime | snapshot.go:112-120 | one count of the read time goes, no other changes |
| Snapshots.SnapshotSet.BeginCompactionFilter | snapshot.go:69-77 | a filter run is reserved exactly when nothing is pinned, so no pin is ever held during one |
| Snapshots.SnapshotSet.EndCompactionFilter | snapshot.go:79-90 | one reservation ends, or there was none to end |
| Snapshots.SnapshotSet.Oldest | snapshot.go:139-154 | the retained sequence is at most every pin and is one of them, or the current read sequence when there is none |
| Snapshots.SnapshotSet.OldestIteratorTime | snapshot.go:125-135 | the cutoff is at most now and at most every time in use, and no lower than needed |
| Replay.ReplayIsHarmless | db_internal.go:25-30 | replaying any suffix of the log over tables that read as the log changes no read |
| Replay.RecoveryReads | db_internal.go:32-150 | tables that read as a prefix of the log, joined with a replayed suffix that overlaps it, read as the whole log |
| Replay.ExtendMany | db_internal.go:83-94 | adding any number of newer changes to tables and log alike keeps them reading alike |
| GroupCommit.CommitStepKeeps | wal.go:92-261 | every step of the group-commit protocol keeps its invariant |
| Committers.TeamStepMaps | wal.go:92-322 | with any number of callers contending for the writing flag, each inside commit at its own point, every step keeps at most one inside and is a step of the commit protocol or invisible to it |
| Committers.TeamRefines | wal.go:92-322 | so every run of the callers is a run of the commit protocol, whose theorems hold of it |
| Committers.AtMostOneCommitter | wal.go:92-146 | in every state of every run at most one caller is inside commit, one is exactly while the flag is up, a queue that is not empty has one, and none is while a rotation holds the lock |
| Committers.RotationIsAlone | wal.go:296-322 | from the end of its wait to the switch of segments a rotation sees the journal, the queue and the published sequence stand still, with everything written applied unless the log is poisoned |
| Recovery.FlushEndKeeps | db_internal.go:314-367 | committing a flush, whole or partial batches alike, keeps the crash invariant |
| Recovery.MergeKeeps | engine_compaction.go:656-690 | any merge, filtered or not, keeps every held version accounted for by the log |
| Recovery.FiltersKeeps | db.go:716-735 | a filtered compaction, its retain and its safe sequence loaded at any earlier time, keeps the crash invariant |
| Recovery.CrashKeeps | db.go:1001-1044 | a crash that keeps any part of the unsynced log keeps it |
| Recovery.RecoverKeeps | db.go:443-558 | recovery keeps it |
| Recovery.RunInv | db.go:1491-1602 | every state of every run of writes, commits, flushes, rotations, checkpoints, compactions, filters, crashes and recoveries satisfies the crash invariant |
| CrashSafety.AtOrAboveBoundary | db_internal.go:38-41 | a change the skipped segments do not hold is in a segment replay reads |
| CrashSafety.RunningReads | db.go:1607-1645 | while the store is up and unfiltered, reads agree with the log of everything applied |
| CrashSafety.AcknowledgedIsSafe | wal.go:92-205 | in every reachable state each acknowledged change is reflected in live tables or sits in a segment at or above the replay boundary, and is applied while the store is up |
| CrashSafety.CrashAndRecover | db.go:443-558 | crash anywhere, recover: the journal is its surviving prefix, every acknowledged change is in it, and reads show exactly that journal |
| CrashSafety.CommitPromises | wal.go:133-322 | logged sequences ascend without gap in a session, everything published is applied, everything applied is synced, and a rotation's cutoff splits the old segments' sequences from the new one's |
| CrashSafety.PoisonIsFinal | wal.go:133-205 | over every stretch of a run that stays up, after a poisoning error nothing more is logged, applied, published or acknowledged |
| CrashSafety.SequencesAreFresh | db.go:1369-1402 | a reserved sequence is above every one in a live table, in the journal or in the queue |
| CrashSafety.RejectedStaysGone | db.go:1483-1602 | in every state of every run in which no filter ran beside a live copy, a version a filter rejected is neither in a table nor in what replay reads, but for its tombstone |
| CrashSafety.FiltersAreSafeUntilReplay | db.go:1483-1489 | no filter run leaves a copy behind as long as no recovery has replayed what tables already held |
| CrashSafety.ReplayedCopiesAgree | engine_compaction.go:957-976 | in every state of every run in which no filter ran beside a live copy, replayed copies included, no two held versions at one sequence disagree or refuse to merge at any instant not before the latest cutoff, in the tables and with the memtables |
| ReplayRuns.CrashReplays | db_internal.go:32-150 | two puts flushed apart and merged one tier down, then a crash: recovery writes both again to tables of their own beside the merged one |
| FilterConflict.FilteredReadsAgreeIff | engine_compaction.go:957-1043 | after a filtered merge the versions at equal sequences agree if and only if it left no conflicting copy of a rejected version outside |
| FilterConflict.FilterRunAgreesIff | db.go:716-735 | in every reachable state with no earlier filter beside a copy, a filtered compaction, its cutoff not before an earlier one's, leaves tables that agree if and only if it left no conflicting copy of a rejected version outside |
| FilterConflict.FilterCanConflict | db_internal.go:22-32 | a run of two puts, their flushes, a merge, a crash, a recovery and a filtered merge, each merge the one the compaction loop chooses, ends with two conflicting versions of one key at one sequence |
| FilterConflict.EarlierReadsConflict | db_internal.go:22-32 | and without a filter, for any two instants in order, a run leaves a replayed value beside the tombstone its expiry left, which conflict for a reader or a merge at the earlier instant |
| Sequences.RunKeeps | db_internal.go:333-367 | every state of every run with partial flushes, ingestion and its roll-back, edits that read the watermark before they are appended, rotation, crash and recovery keeps the allocation invariant |
| Sequences.NumbersAreFresh | db.go:1369-1379 | a number taken by a write or an ingestion is above every number held, logged, queued or acknowledged |
| Sequences.RecoveryResumesAbove | db.go:449-537 | recovery resumes at or above every acknowledged number and every number in a table or a replayed record |
| Sequences.RotationLowersIff | db.go:798-864 | a rotated manifest lowers the watermark if and only if, when it reads its own, the number last given back by an ingestion is one the manifest has recorded; then by exactly one, and it still covers every table and every acknowledged number |
| Sequences.LostBy | db_internal.go:333-367 | that comes about exactly when an ingestion gives back a recorded number, or when an edit or a baseline that read the number before lands after it was given back |
| Sequences.RotationCanLower | sst.go:226-254 | both happen: after enough real flushes to reach the rotation threshold, the last one reads the watermark while an ingestion holds the next number, and lands before or after the number is given back |
| Varint.UvarintRoundTrip | wal_record.go:135-145 | every 64-bit value reads back, whatever follows it |
| Varint.UvarintIff | wal_record.go:135-145 | from any bytes a value is read exactly when one of the first ten ends it within 64 bits, and it is worth the seven-bit digits up to there |
| Varint.VarintRoundTrip | wal_record.go:70-133 | every signed 64-bit value reads back |
| Varint.BytesRoundTrip | wal_record.go:135-145 | a length-prefixed string reads back |
| Journal.RecordCut | journal.go:173-262 | a record cut short anywhere reads as the end, or in strict mode as corruption unless none of it but block padding was written |
| Journal.PrefixReads | journal.go:173-285 | on any byte prefix of a log the reader returns exactly the records wholly inside it, then the end; strictly, corruption exactly when a record was cut |
| Journal.RoundTrip | journal.go:61-285 | reading a whole log gives its records and a clean end |
| Journal.FrameAllGrows | journal.go:61-112 | one more record is framed exactly where the log ends |
| JournalDamage.RecordIsSummed | journal.go:173-262 | whatever the bytes, a record read is whole chunks in order, typed first to last, each headed by the sum of its own type and data, whose data joined are the record |
| JournalDamage.DamagedLogReads | journal.go:253-259 | a log with one chunk whose stored sum does not match reads as the records before it and then as corruption, for strict and tolerant readers alike |
| JournalDamage.FlippedByteReads | journal.go:253-259 | in particular, one payload byte changed to give another sum ends the log there, whatever follows |
| JournalDamage.DamagedSegmentReplays | wal.go:375-424 | a log file so damaged replays to exactly the batches before the damage, and stops or fails as the mode says |
| JournalFile.JournalWriter.EmitChunk | journal.go:103-112 | one chunk is appended to the stream |
| JournalFile.JournalWriter.Write | journal.go:61-100 | what is framed stays the log of the records written, one longer |
| JournalFile.JournalWriter.Flush | journal.go:119-139 | after any sequence of writes and flushes the file is the log of every record written and reads back as exactly them |
| JournalFile.JournalReader.Next | journal.go:173-285 | the buffered reader returns exactly what reading the stream at its position gives, which over any bytes is a record of summed chunks, the end, or corruption |
| WalRecord.BatchRoundTrip | wal_record.go:47-133 | every batch in range decodes to itself |
| WalRecord.DecodedIsWhole | wal_record.go:70-145 | whatever decodes is a batch in range that encodes to a record of itself, and no longer record with anything after it decodes |
| WalRecord.EncodeBatch | wal_record.go:47-67 | the loop writes the encoding of the batch |
| WalRecord.DecodeBatch | wal_record.go:70-133 | the loop decodes exactly the records that are batches |
| WalSegment.BatchReadsBack | wal_record.go:47-133 | a logged batch decodes to the same changes at the same sequences |
| WalSegment.ReplayFile | wal.go:375-424 | replaying a file gives the batches up to the first damage, and says how it ended |
| WalSegment.ReplayAscends | wal.go:375-424 | whatever the bytes, the sequences of the batches handed on ascend |
| WalSegment.TornSegmentReplays | wal.go:375-424 | the first bytes of a log file, cut anywhere, replay to exactly the whole batches in them; the end is clean, but for a strict reader exactly when no record is cut short |
| WalSegment.JournalFollows | wal.go:296-322 | the batches of an ascending journal pass replay's order check |
| RecoverLog.Visit | db_internal.go:49-109 | a batch is applied whole if and only if its sequences go on ascending and every entry is sound; otherwise a prefix is |
| RecoverLog.SoundIffStorable | db_internal.go:60-83 | the checks pass exactly what the store can hold: a key that is not empty, a range that is not empty or inverted, a sequence that fits the trailer, and a size within the limit |
| RecoverLog.ReplayInto | db_internal.go:49-113 | a file torn, or damaged after some batches, adds exactly its whole batches before that, and says how it ended |
| RecoverLog.RecoverWal | db_internal.go:32-150 | over files torn anywhere recovery applies exactly the whole batches of those at or above the boundary, in order, and resumes from the highest sequence seen; with a damaged record in one of them, strict recovery fails and lenient recovery applies exactly what comes before it and nothing from later files; over any bytes it applies only changes the store can hold, ascending |
| RecoverLog.RecoversSuffix | db_internal.go:38-50 | for a stopped store's files that is the journal from the replay boundary on |
| RecoverLog.StoppedStoreRecovers | db_internal.go:32-150 | in every run, from the files of a stopped store with entries within bounds recovery takes exactly the changes and the start sequence of the machine's recovery step |
| CatchUp.ConvertBatch | replication.go:256-274 | the entries above what was emitted, with no gap and no repeat |
| CatchUp.Visit | replication.go:218-234 | a gap is reported exactly when there is one, and the stream so far stays exact |
| CatchUp.GetUpdatesSince | replication.go:162-250 | from the files' bytes, read strictly but for the live one: whenever it succeeds the entries are exactly since+1 through the cutoff, from the log files; it refuses exactly below the horizon, succeeds whenever the files are complete, and refuses whenever a damaged file comes before the cutoff |
| CatchUp.FileDecodes | replication.go:213-240 | a file torn anywhere decodes to its whole batches, and fails exactly when it is not the live one and a record in it is cut short |
| CatchUp.RetainedIsServed | replication.go:208-249 | files whose whole batches hold everything after the request without a gap, none but the live one cut inside a record, are complete |
| Manifest.EditRoundTrip | manifest.go:86-298 | every edit in range decodes to itself |
| Manifest.DecodedIsWhole | manifest.go:127-200 | whatever decodes is an edit in range that encodes to a record of itself, and no record with anything after it decodes |
| Manifest.RefusedFields | manifest.go:138-176 | a second identity, another version, a second watermark or one past the limit, and a second, zero or too large boundary are refused |
| Manifest.DecodeEdit | manifest.go:127-200 | the loop decodes exactly the byte strings that are edits |
| ManifestReplay.ReplayManifest | manifest.go:380-463 | replay succeeds if and only if the first edit and no other carries the identity, boundaries never fall, every added number is new and not zero, and every deleted one is live; it then gives the state the edits describe |
| ManifestReplay.ReplaySucceedsIff | manifest.go:400-463 | the same of the fold over any list of edits: when it succeeds, and that a table or blob is live exactly when added and not deleted, watermark and boundary being the highest given |
| ManifestReplay.TableChangeApplies | manifest.go:422-437 | the edit of a flush or compaction, adding fresh numbers and deleting live ones, applies to every manifest that replays, and changes the live tables by exactly that |
| Manifest.FoldGives | manifest.go:380-463 | replay is set algebra: what was live or added, less what was deleted, with watermark and boundary never lower |
| Manifest.ReplayIsAddedLessDeleted | manifest.go:380-463 | a table is live if and only if some edit added it and none deleted it |
| Manifest.RotationKeepsState | db.go:798-825 | a rotated baseline replays to the same live tables and boundary, with the allocated watermark |
| Cache.FitIsLongest | cache.go:84-111 | only what does not fit is dropped, and from the least recent end |
| Cache.CacheShard.Unlink | cache.go:55-58 | exactly one node leaves the ring |
| Cache.CacheShard.PushFront | cache.go:61-66 | a node becomes the most recent and the ring stays whole |
| Cache.CacheShard.Touch | cache.go:69-80 | the node moves to the front and the rest keep their order |
| Cache.CacheShard.Get | cache.go:69-80 | a hit returns the value last added and makes it most recent; a miss changes nothing |
| Cache.CacheShard.EvictOldest | cache.go:103-111 | exactly the least recent item goes |
| Cache.CacheShard.Add | cache.go:84-101 | the item becomes most recent, the longest run of recent items that fits is kept, and size is their sum, within capacity |
| Cache.SplitCapacity | cache.go:141-161 | the stripes' capacities sum to the configured one and differ by at most a byte |
| Ikey.RoundTrip | ikey.go:56-78 | key, sequence and kind read back for every 56-bit sequence |
| Bytes.LtIsLexicographic | ikey.go:83-87 | user keys are ordered as bytes: a proper prefix first, and otherwise by the first byte that differs |
| Ikey.Laws | ikey.go:83-99 | the comparison is a strict total order |
| Ikey.OrderIsPrecedes | ikey.go:83-99 | encoded keys sort exactly as versions do: key ascending, then newest first |
| Arena.NodeReads | memtable_skiplist.go:66-120 | a node laid out in the arena reads back its key and value |
| Arena.HoldsAfterAlloc | memtable_skiplist.go:66-92 | growing the arena disturbs no node and no link |
| Arena.HoldsAfterSetLink | memtable_skiplist.go:123-129 | overwriting one link disturbs no node's data and no other link |
| Skiplist.Spliced | memtable_skiplist.go:159-176 | with every level of a new tower spliced, each level is again the sublist of the level below that reaches it, in key order |
| Skiplist.Skiplist.FindGE | memtable_skiplist.go:141-156 | the first node not below the key, and its predecessor on every level |
| Skiplist.Skiplist.Seek | memtable_skiplist.go:179-181 | the first node not below the target |
| Skiplist.Skiplist.Insert | memtable_skiplist.go:159-176 | the node goes before the first key not below its own, on every level of its tower, and nothing else moves |
| Skiplist.Skiplist.Snapshot | memtable.go:218-231 | a snapshot holds the nodes present, in order |
| Skiplist.SnapshotIsStable | memtable_skiplist.go:100-128 | a node that a later arena still holds reads the same from the bytes below the old end |
| Skiplist.Drain | memtable.go:202-245 | after any sequence of inserts and arena growth, whenever each key and value is read, a snapshot iterator yields exactly the entries there were when it was taken |
| MemtableList.ShownIsOutcome | ttl.go:24-39 | stored bytes show what the version shows, deadline included |
| MemtableList.DamagedShowsNothing | ttl.go:30-39 | a deadline cut short, zero or negative shows nothing |
| MemtableList.SeekFinds | memtable.go:131-164 | seeking the lookup key lands on the newest version at or below the sequence |
| MemtableList.SkipMemtable.Add | memtable.go:114-121 | the version joins the sorted run at its place |
| MemtableList.SkipMemtable.DelRange | memtable.go:88-101 | a version is then deleted for a reader exactly if it was before, or if the new tombstone is newer, covers its key and is visible to the reader |
| MemtableList.SkipMemtable.GetVersionAt | memtable.go:131-164 | the newest version at or below the sequence and what it shows, or nothing |
| Bloom.Pow2Bytes | filter_bloom.go:45-55 | a power of two of at least eight bytes that holds the bits asked for |
| Bloom.ProbesNear | filter_bloom.go:32-41 | the probe count is the nearest to 0.69 for each bit of a key, within one to thirty |
| Bloom.DeltaRotates | filter_bloom.go:58-77 | the probe step is the hash rotated left by 15 bits |
| Bloom.WellFormedIff | filter_bloom.go:82-95 | a filter is accepted exactly when its bits are a power of two of at least eight bytes and its probe count is from one to thirty |
| Bloom.SetProbes | filter_bloom.go:58-77 | every probe of the hash is set and no bit is cleared |
| Bloom.Build | filter_bloom.go:58-95 | the filter is in the form readers accept and misses none of its keys |
| Bloom.Check | filter_bloom.go:99-137 | admits exactly the hashes all of whose probes are set |
| DataBlock.BuiltNext | table_block.go:230-253 | one more entry keeps the builder's bytes, restart offsets and counter those of the entries added |
| DataBlock.RestartIff | table_block.go:230-253 | restart points are exactly the entries whose place is a multiple of the interval |
| DataBlock.DataBlockBuilder.Add | table_block.go:230-253 | the entry is appended under prefix compression with restarts at the interval |
| DataBlock.DataBlockBuilder.Finish | table_block.go:273-290 | the payload is the encoding of the entries added |
| BlockIter.StepAt | table_block.go:429-480 | from a restart point or its predecessor's key, the next step gives exactly the next entry |
| BlockIter.SplitPayload | table_block.go:312-324 | a finished block splits into its entries, restart words and count |
| BlockIter.RestartReads | table_block.go:350-388 | a restart index leads to the restart entry and its key |
| BlockIter.DataBlockIter.Seek | table_block.go:394-427 | lands on the last restart point below the target with everything before it below; on damaged bytes it stays inside the block |
| BlockIter.DataBlockIter.Next | table_block.go:429-480 | one entry, the end, or damage, which is final |
| RangeDelBlock.BlockRoundTrip | rangetomb.go:67-114 | the block reads back as the tombstones it was made from |
| RangeDelBlock.ParsedIsWhole | rangetomb.go:81-114 | whatever parses is tombstones the format carries, none empty, that encode to a block of themselves; nothing may follow it |
| RangeDelBlock.Encode | rangetomb.go:67-77 | the loop writes that block |
| RangeDelBlock.Decode | rangetomb.go:81-114 | the loop accepts exactly the well-formed blocks, none with an empty range |
| TableFormat.BlockRoundTrip | table_block.go:105-158 | a finished block, compressed or not, decodes to its payload |
| TableFormat.DecodedIsSummed | table_block.go:136-158 | whatever decodes, from any bytes, was stored with the checksum of its body and codec id |
| TableFormat.BlockSize | table_block.go:105-121 | a block takes five bytes more than the smaller of the payload and its compressed form |
| TableFormat.FooterReads | table_writer.go:282-290 | the footer's three handles read back |
| TableFormat.WrittenOpens | table_reader.go:74-141 | every table the writer finishes passes the reader's layout checks |
| TableFormat.OpenedIsWhole | table_reader.go:74-141 | whatever opens ends in the magic number and zero padding, and its range-tombstone, filter and index blocks lie end to end up to the footer |
| TableFormat.BlockInside | table_reader.go:326-339 | only bytes before the footer are read as a block |
| TableFormat.BlocksRead | table_reader.go:202-247 | the filter, index and range-tombstone blocks are found where the footer says |
| TableFormat.DataBlockReads | table_reader.go:326-339 | every data block is found where its handle says |
| TableWriter.Writer.constructor | table_writer.go:139-146 | an empty writer |
| TableWriter.Writer.Add | table_writer.go:149-189 | an entry is taken if and only if no error came before, its key is well formed and above the last one, and its block could be written; a refusal is final |
| TableWriter.Writer.FlushDataBlock | table_writer.go:191-217 | the current block reaches the file, or the writer fails for good |
| TableWriter.Writer.Finish | table_writer.go:221-280 | the file is the table of exactly the entries added and the tombstones set, with a filter that misses no key |
| TableIndex.SeparatorsAscend | table_writer.go:165-172 | separators are admitted keys, strictly ascending |
| TableIndex.ParseIndex | table_reader.go:251-309 | an accepted index is strictly sorted over blocks laid end to end from 0 to the data end; every written index is accepted, entry for entry |
| TableIndex.FindBlock | table_reader.go:521-532 | every separator before the result is below the key and none from it on is |
| TableLookup.BlockDecides | table_reader.go:413-429 | the first block whose separator is not below the lookup key decides the lookup over the whole table |
| TableLookup.AnswerIsLookup | table_reader.go:384-387 | on stored versions the linear scan's answer is the newest visible version's outcome |
| TableLookup.DamagedAnswers | table_reader.go:461-494 | an unknown kind, or a deadline cut short, zero or negative, is damage; a blob reference is handed back as it is |
| TableLookup.VersionsSorted | ikey.go:83-105 | versions in the engine's order are entries the table format takes |
| TableReader.ScanBlock | table_reader.go:430-506 | seek, prefix reconstruction and the scan loop give the linear scan's answer over the block; on any other bytes the answer is the scan from some place in the block, damage it meets reported as damage |
| TableReader.JudgeRejects | table_reader.go:443-464 | the scan refuses a key exactly when it is too short, not above the one before it, or the key looked for with an unknown kind |
| TableReader.LoadMeta | table_reader.go:202-247 | a written table's metadata is accepted as written; whatever is accepted was read from blocks that decode, the filter in its form, the index sorted over blocks laid end to end, the tombstones exactly those parsed |
| TableReader.FilterMiss | table_reader.go:392-409 | a key the filter rejects has no version in the table |
| TableReader.LookupAtTime | table_reader.go:392-506 | Bloom gate, index search, block search and scan give exactly the linear scan's answer over all entries; in any file, a block that does not decode is reported whenever the filter admits the key |
| TableReader.Reader.EnsureMeta | table_reader.go:146-161 | the metadata of a written table, parsed or kept |
| TableReader.Reader.Lookup | table_reader.go:384-409 | a lookup answers as a linear scan does, whether or not the parsed metadata was dropped before it, and reports damage when the metadata does not load |
| TableReader.OpenTable | table_reader.go:62-141 | every written table opens, eagerly or lazily |
| TableReader.AnswerIsNewest | table_reader.go:384-387 | a table of versions answers with the newest one at or below the sequence, or with nothing exactly when there is none |
| TableScan.TableIterator.BlockRaw | table_reader.go:572-602 | through the read-ahead window, exactly the block's bytes |
| TableScan.TableIterator.StepInner | table_reader.go:623-645 | the next entry of the loaded block is the next of the table, in order; in any file, keys taken ascend and a block is left only at its end |
| TableScan.TableIterator.LoadNext | table_reader.go:646-674 | the next block of a written table loads, or there is none; in any file, the block is the next one, decoded, and there is none only past the last |
| TableScan.TableIterator.Next | table_reader.go:610-676 | over a written table: its entries unchanged, in order, each once, and then the end; over any file: ascending keys, an error that stays, and an end only past the last block |

## Left out

- Value separation: blob files and the references to them; blob fields are kept only in the manifest encoding, and a blob reference read from a table is handed back undecoded.
- Ingestion inside the crash machine: ingested entries bypass the log, so it is in `Store` and `Sequences` only.
- NoSync mode and lenient recovery in the crash machine: it is the durable protocol, whose logs are torn but not damaged; what a damaged log gives is in `RecoverLog`.
- Ambiguous manifest appends in the crash machine: an append either is durable or fails; `Sequences` has the unsure case.
- Filter panics and user filters with state: a filter is a function of key and value.
- Files, fsync, rename, locks, descriptor pool, tickers, throttling, metrics, logging, options, Verify and image export: foreign calls or plumbing.
- Compression, CRC and hash functions: parameters; the codec is taken to undo itself, and only the absence of false negatives is proved of the filter.
- Aliasing of returned slices: keys and values are copied values, so the one-advance validity of iterator buffers and the reuse of scratch buffers are not modelled.
- JournalFile.JournalReader.Next: the reader's block is a value replaced on each fill, not an array filled in place; the writer's block is an array.
- Merge.LeastHead: the heap is a choice of a least head; its array layout is not modelled.
- Skiplist.Skiplist.Insert: 32-bit arena offsets are taken to be in range, and towers are given their height.
- TableReader.LookupAtTime: stated for tables whose blocks, keys and values fit 32-bit sizes and whose file fits 64 bits, as the format's fields demand; the block cache in front of it is modelled apart in `Cache`.
- Bloom.Build: the filter's bit count is taken to fit 32 bits and the probe count is computed with integers.
- Committers.TeamRefines: reserving sequences and joining the queue are one step, as they are under the sequence lock, and Close's wait for the committer is left out.
- Recovery.RunInv: memtables are stretches of the journal, and a point read is one step.
- Engine.EngineT.Compact: the expiry cutoff and the file sizes are given, and the merge reads whole tables rather than blocks.
- Engine.EngineT.DrainTiers: stated when the retained sequence covers every stored one and no table lies deeper than the cap, as the source needs for the loop to stop.
- CatchUp.GetUpdatesSince: the segment list and cutoff are captured as given; retention reaping beside it is not modelled.
- Has, GetMany and Snapshot wrappers: the same reads through another door.

# Verified models of LevelDB and nanopb

The iOS application in this repository vendors two C and C++ libraries, LevelDB and nanopb. This project
models both in Dafny and proves what they are for. `dafny verify dfyconfig.toml` checks everything.

LevelDB is a multi-version store over a leveled tree of sorted files. Its abstract state is a set of entries
(user key, sequence number, type, value); a read at a snapshot gives the newest entry at or before the snapshot,
and a deletion counts as absent. Everything below is proved against that picture:

- `db_format`, `version`, `lookup`: internal keys, versions, the tree invariant, and the early-exit lookup.
- `compaction_inputs`, `cut_rule`, `compaction`, `compaction_install`, `output_cuts`, `tree`, `database`,
  `snapshots`, `counterexamples`: the choice of compaction inputs, what the loop drops and where it cuts its tables,
  flushes, moves and installs over whole runs, exactly when they preserve what a held snapshot reads, and databases for
  which they do not.
- `database_map`, `input_iterator`, `database_iterator`: over any run from a new database, point reads and iterators
  at a snapshot show the map of the updates up to the snapshot; the iterators that feed a compaction and a user.
- `write_queue`, `write_progress`, `write_answers`, `write_batch`: group commit over all interleavings of writers, why
  no writer waits for ever, and what each is told.
- `history`, `lifecycle`, `lifecycle_steps`, `lifecycle_runs`, `lifecycle_progress`, `drop_rule`: the life of logs,
  tables and the manifest through crashes, recoveries, compactions and the deletion of obsolete files, what answered
  writes leave behind, and that a database can always be opened again.
- `listings`, `crash_map`: crashes and the map together.
- `lifecycle_failures`, `reuse_exact`, `torn_manifest`: writing behind a torn record, and the exact condition.
- `cursor`, `db_iter`, `merging`, `two_level`: stateful two-way iterators that refine one plain cursor.
- `coding`, `log_format`, `log_writer`, `log_reader`, `log_recovery`, `log_damage`, `log_damage_exact`, `log_torn`: the
  log, read back under truncation, exactly what is read of a damaged one, and what of one written on behind a cut.
- `block_format`, `block_iter`, `block_round_trip`, `comparator`, `bloom`, `filter_block`, `table_format`,
  `table_lookup`, `table_builder`, `table`: table files down to their bytes.
- `version_edit`, `manifest`, `version_builder`, `version_recovery`: the manifest and its replay.
- `rings`, `handle_table`, `cache_spec`, `cache`, `snapshot_list`, `skiplist`, `skiplist_readers`: the structures
  in memory, with every interleaving of skip list readers and the writer.

nanopb encodes and decodes Protocol Buffers messages from descriptor tables. `pb_types`, `pb_wire`, `pb_encode`
and `pb_decode` say what encoding and decoding mean for a message seen as a record over a descriptor list;
`pb_ostream` and `pb_istream` are the stream code, proved to compute that; `pb_round_trip`, `pb_message` and
`pb_exact` prove that decoding undoes encoding, and for which messages. `pb_safe`, `pb_required`, `pb_refused` and
`pb_order` are about any bytes: what is decoded fits its struct, what is refused, and what the order of fields means.
The wire format is that of the Protocol Buffers Encoding document, sections "Base 128 Varints", "Message Structure"
and "Signed Integers".

Code that changes state step by step is a class with methods and loops; each method is proved against a function
of its inputs or of the old state, and lemmas prove the promises about those functions. Pointers of the cache, the
snapshot list and the skip list are numbers of nodes, so that stores and sharing stay visible. Protocols are state
machines whose theorems are about every run.

User keys of the tree and of the skip list are real numbers: the byte strings under any total order embed in them,
so a theorem over real keys covers every comparator. Where bytes matter (blocks, tables, index keys) keys are bytes
under the bytewise comparator.

Where the code does not meet what it promises in general, a case shows it and a condition says exactly when it does:

- `SetupOtherInputs` does not call `AddBoundaryInputs` for the next level, so a user key split over two of its files
  may lose its newer part: reads are preserved if and only if no dropped marker hides an older value outside the
  inputs (`CompactionLoop.CompactionPreservesReads`, `Counterexamples.DeletedValueComesBack`).
- A flush inside a compaction picks its level from a version without the compaction's outputs: the tree invariant is
  kept if and only if the compaction ended a table wherever a file that stays falls between two entries it kept
  (`Database.InstallKeeps`, `Counterexamples.FlushLandsInsideOutput`). Two guards that are decided before the step rule
  out this and the case above over whole runs (`Snapshots.Guard`): a compaction starts with next-level inputs that end
  between user keys, and a flush next to a running compaction puts no file at its output level between its inputs,
  for instance by choosing another level.
- With `reuse_logs` recovery writes on at the end of the last log, even if a crash cut that log within a record. The
  records written there are read again if and only if the file ends at a boundary of physical records, or leaves no
  room for a header in its block (`LogTorn.ContinuedIsReadExactly`, `LogTorn.ReuseLosesRecord`). So a write that was
  synced and answered can be lost later (`LifecycleFailures.SyncedWriteIsLost`), and taking up a log is safe if and
  only if it is not torn (`ReuseExact.ReuseIsSafeExactly`).
- `ReuseManifest` has the same gap: edits saved behind a cut are not read again, but the logs they made obsolete are
  deleted (`TornManifest.SyncedWriteIsLost`). And after a failed append that left the beginning of a record in the log,
  the database goes on writing behind it (`LifecycleFailures.AppendedIsReadExactly`). The theorems about whole runs
  hold for runs that never write behind a torn record (`Lifecycle.Guard`).
- A crash may take away answered writes that were not synced and leave later ones, when only a later log was synced:
  it leaves a prefix if and only if no log keeps anything behind a loss in an earlier one
  (`LifecycleRuns.CrashLeavesPrefixExactly`, `LifecycleFailures.CrashLeavesNoPrefix`).
- A builder of versions to which a deleted file number is added again keeps both files (`Manifest.OneMoreExactly`,
  `Manifest.AddedTwiceDiffers`).
- A text in a nanopb message that fills its array is written, but not read back: a message comes back if and only if
  all its texts leave room for their terminators (`PbExact.DecodeUndoesEncodeExactly`).
- The bit position of `pb_decode_varint32` has eight bits, so it wraps around in a varint of 38 bytes: up to 37 bytes
  an accepted varint gives the low 32 bits of its value (`PbWire.Varint32IsLowWord`, `PbWire.Varint32Wraps`).
- The decoder of nanopb does not look at the wire type of a known field: it takes the value by the type of the field,
  so it may find fields that a reader without a descriptor does not (`PbRequired.WireTypeIsNotChecked`); where wire
  types match both find the same (`PbRequired.MatchingTagsArePlain`).

`VersionEdit::Clear` leaves the compaction pointers in place, against its name; decoding into an object that was used
before therefore keeps the old pointers in front.

## Model

| member | source | states |
|---|---|---|
| CompactionLoop.CompactionPreservesReads | Login/Pods/leveldb-library/db/db_impl.cc:890-999 | for every input set, data outside it, user key, list of snapshots and every snapshot still served: replacing the inputs by what the drop loop keeps leaves all reads alike if and only if no dropped deletion marker hides an older value outside the inputs |
| CompactionLoop.Compaction.IsBaseLevelForKey | Login/Pods/leveldb-library/db/version_set.cc:1533-1552 | for keys asked in ascending order, the moving cursors answer whether any deeper file has the key in its range, as a scan of all files would |
| CompactionLoop.Compaction.AdvanceLevel | Login/Pods/leveldb-library/db/version_set.cc:1536-1551 | one level of that search; the cursor passes only files that end before the key |
| CompactionLoop.Compaction.ShouldStopBefore | Login/Pods/leveldb-library/db/version_set.cc:1554-1576 | the output is cut exactly when the bytes carried over plus the sizes of the grandparent files passed now (counted only after the first key) exceed ten times the file size limit; the count restarts at zero after a cut and is carried on otherwise |
| CompactionLoop.DoCompactionWork | Login/Pods/leveldb-library/db/db_impl.cc:915-999 | the loop over the merged input writes exactly the kept entries in order (an entry goes if a newer one of its user key is visible at the smallest snapshot, or if it is an old enough deletion marker of a base-level key) and cuts them where the rule says: between two tables the earlier one is full, or a stop lies behind its last entry and at or before the first of the next; inside a table nothing but the whole of it is full and no stop lies |
| CompactionLoop.AskAt | Login/Pods/leveldb-library/db/db_impl.cc:919-928 | ShouldStopBefore, asked about every entry of the merged input in turn, dropped ones included, stops exactly where the grandparent bytes passed since the last stop, or since the first key, exceed ten times the file size limit |
| CutRule.CutsAreUnique | Login/Pods/leveldb-library/db/db_impl.cc:919-995 | the rule leaves no choice: sorted entries are cut into tables in one way only |
| CompactionLoop.PreviousEntryDecides | Login/Pods/leveldb-library/db/db_impl.cc:943-962 | remembering only the sequence number of the previous entry of the key is as good as looking at all newer entries of it |
| CompactionLoop.DroppedAnswer | Login/Pods/leveldb-library/db/db_impl.cc:953-971 | when the entry that answers a read is dropped it is a deletion marker, and the read then sees what the rest holds |
| Tree.PickLevelForMemTableOutput | Login/Pods/leveldb-library/db/version_set.cc:491-516 | a flush goes as deep as it may: to level 0 if level 0 overlaps the range; else step by step to the level, at most 2, behind which the next one overlaps or the files overlapping two levels down weigh more than ten file sizes; there the flush is safe |
| Tree.DeepestIsUnique | Login/Pods/leveldb-library/db/version_set.cc:491-516 | there is one such level, it is the deepest that can be reached, and no level from 0 to it overlaps the range unless it is 0 |
| Tree.FlushKeepsTree | Login/Pods/leveldb-library/db/db_impl.cc:491-526 | a table of newer data under a fresh number, put at a level that PickLevelForMemTableOutput may choose, keeps the tree invariant: sorted disjoint levels, newest-first order of overlapping level-0 files, and newer data only above older data of the same user key |
| CompactionInstall.ClosedRestIsNewer | Login/Pods/leveldb-library/db/version_set.cc:1378-1401 | closed inputs leave behind, at their level, only newer data of their user keys |
| CompactionInstall.ChosenInputsLeaveRestBeside | Login/Pods/leveldb-library/db/version_set.cc:1403-1447 | the inputs SetupOtherInputs chooses leave no file of the next level between them: every file that stays has all inputs on one side |
| CompactionInstall.NothingBetweenNoStraddle | Login/Pods/leveldb-library/db/db_impl.cc:811-876 | as long as no file of the next level lies between the inputs, no output table spans a file that stays |
| CompactionInstall.LoopOutputsOk | Login/Pods/leveldb-library/db/db_impl.cc:811-876 | the tables of a finished compaction are well formed, sorted, disjoint and made of input entries |
| OutputCuts.FitsExactlyWhenCut | Login/Pods/leveldb-library/db/db_impl.cc:811-876 | the output tables fit around a file that stays if and only if a table ends wherever that file falls between two kept entries |
| Database.FlushKeeps | Login/Pods/leveldb-library/db/db_impl.cc:535-566 | a flush keeps the whole database invariant and every entry |
| Database.FlushKeepsRunning | Login/Pods/leveldb-library/db/db_impl.cc:908-918 | a flush that happens next to a running compaction leaves the premises of the compaction intact |
| Database.WriteKeeps | Login/Pods/leveldb-library/db/db_impl.cc:1185-1256 | a write keeps the database invariant |
| Database.TrivialMoveKeeps | Login/Pods/leveldb-library/db/db_impl.cc:713-734 | moving one file down a level keeps the invariant and every entry |
| Database.InstallKeeps | Login/Pods/leveldb-library/db/db_impl.cc:860-876 | a finished compaction keeps the database invariant if and only if, for every next-level file that stays and falls between two neighbouring kept entries, the loop ended a table between these two; entries, files and cuts are those before the install |
| Database.StartKeeps | Login/Pods/leveldb-library/db/db_impl.cc:878-896 | starting a compaction on inputs chosen by SetupOtherInputs keeps the database invariant and every entry |
| Database.InstallReads | Login/Pods/leveldb-library/db/db_impl.cc:878-1036 | installing a compaction preserves every read still served if and only if no dropped marker hides an older value outside the inputs |
| Database.ClosedMeansNoResurrection | Login/Pods/leveldb-library/db/version_set.cc:1403-1462 | when the inputs of the next level are closed under user keys, no dropped marker hides anything |
| Snapshots.StepKeeps | Login/Pods/leveldb-library/db/db_impl.cc:688-767 | every write, memtable switch, flush, move, compaction start and end and change of snapshots keeps the database invariant, under a guard decided before the step: a compaction starts with next-level inputs that end between user keys, and a flush next to a running compaction puts no file at the output level between its inputs |
| Snapshots.StepKeepsReads | Login/Pods/leveldb-library/db/db_impl.cc:1166-1174 | in such states every step keeps the answer at every held snapshot and at the last sequence number, for every user key |
| Snapshots.HeldSnapshotIsStable | Login/Pods/leveldb-library/db/db_impl.cc:1100-1145 | over any run of such steps, a snapshot held throughout reads the same value for every key at the end as at the start |
| Snapshots.RunKeeps | Login/Pods/leveldb-library/db/db_impl.cc:688-767 | every state of a run under the guard satisfies the database invariant |
| Snapshots.WriteIsReadBack | Login/Pods/leveldb-library/db/db_impl.cc:1185-1256 | a read after a write sees the last update of the key in the write, or what was there before |
| DatabaseMap.RunShowsLastUpdate | Login/Pods/leveldb-library/db/db_impl.cc:1100-1145 | over any run of writes, flushes, compactions and snapshots, a read at the end shows the last update of its key in the whole run, else what it showed at the start |
| DatabaseMap.NewDatabaseRefinesMap | Login/Pods/leveldb-library/db/db_impl.cc:182-215 | any run from a new database satisfies the invariant and answers every read as the map of its updates does |
| DatabaseMap.SnapshotShowsItsMoment | Login/Pods/leveldb-library/db/db_impl.cc:1166-1174 | in any run from a new database, a read at a snapshot still held shows the map as it was when the snapshot was taken, whatever ran since |
| DatabaseIterator.ChildrenAreAll | Login/Pods/leveldb-library/db/db_impl.cc:1062-1087 | the memtables, the level-0 tables and one run for each deeper level have pairwise distinct keys, and merged they are one sorted run of exactly the entries a point read can see |
| DatabaseIterator.NewInternalIterator | Login/Pods/leveldb-library/db/db_impl.cc:1062-1087 | builds the merging iterator over these children |
| DatabaseIterator.AddIterators | Login/Pods/leveldb-library/db/version_set.cc:230-246 | appends one child for each level-0 file and one for each deeper level that is not empty, in order |
| DatabaseIterator.IteratorShowsReads | Login/Pods/leveldb-library/db/db_impl.cc:1147-1156 | the iterator of a user at a snapshot shows a key with a value if and only if a point read at the snapshot finds that value |
| DatabaseIterator.IteratorShowsMap | Login/Pods/leveldb-library/db/db_impl.cc:1147-1156 | after any run from a new database, an iterator at a held snapshot shows exactly the map as it was when the snapshot was taken |
| InputIterator.ChildrenMerge | Login/Pods/leveldb-library/db/version_set.cc:1237-1268 | the level-0 inputs one by one and every other input level as one run have distinct keys, and merged they are the merged input of the compaction: sorted, all entries of the inputs and no others |
| InputIterator.MakeInputIterator | Login/Pods/leveldb-library/db/version_set.cc:1237-1268 | builds the merging iterator over exactly these children |
| InputIterator.LevelIndexOk | Login/Pods/leveldb-library/db/version_set.cc:164-205 | a sorted level, its files found by their largest keys, is a well-formed table for the two-level iterator |
| InputIterator.CompactInputs | Login/Pods/leveldb-library/db/db_impl.cc:878-1036 | from the chosen inputs through the merging iterator and the drop loop to the tables: their entries are what the install step of the database installs, cut where the rule says |
| Counterexamples.DeletedValueComesBack | Login/Pods/leveldb-library/db/version_set.cc:1403-1411 | from a database that satisfies the invariant, a compaction start and its install lead to another such database in which a key that read as deleted reads as its old value again |
| Counterexamples.SplitKeyFiles | Login/Pods/leveldb-library/db/version_set.cc:1407-1411 | well-formed levels with one user key split over two files of the next level, of which SetupOtherInputs takes only one |
| Counterexamples.FlushLandsInsideOutput | Login/Pods/leveldb-library/db/db_impl.cc:908-918 | from a database that satisfies the invariant, a compaction start, a memtable switch, a flush to the output level and the install lead to a level that overlaps itself, where the file a read of the flushed key picks lacks it |
| Counterexamples.GuardRulesThemOut | Login/Pods/leveldb-library/db/version_set.cc:1403-1411 | the guard of the run theorems excludes the offending step of each of the two cases |
| Lookup.Get | Login/Pods/leveldb-library/db/db_impl.cc:1100-1145 | under the tree invariant, probing memtable, immutable memtable and version with early exits answers exactly the newest entry at or before the snapshot over the union of all sources, a deletion counting as absent |
| Lookup.GetFromVersion | Login/Pods/leveldb-library/db/version_set.cc:326-421 | level by level, stopping at the first hit, the answer is the newest visible entry of the whole version |
| Lookup.FindFile | Login/Pods/leveldb-library/db/version_set.cc:88-106 | binary search finds the first file whose largest key is at or after the key |
| Lookup.OverlappingFiles | Login/Pods/leveldb-library/db/version_set.cc:352-362 | exactly the level-0 files whose user-key range holds the key |
| Lookup.SearchLevelZero | Login/Pods/leveldb-library/db/version_set.cc:352-370 | searching level 0 newest number first finds the newest visible entry of the level, or shows that there is none |
| Lookup.GetSortedLevel | Login/Pods/leveldb-library/db/version_set.cc:371-392 | one binary-searched file decides a sorted level |
| Lookup.OnlyFoundFileMatters | Login/Pods/leveldb-library/db/version_set.cc:371-392 | in a sorted disjoint level only the file found by binary search can hold a visible entry of the key |
| Lookup.ProbeFindsNewest | Login/Pods/leveldb-library/db/memtable.cc:100-134 | in one sorted run a seek to the lookup key finds the newest visible entry of the user key, or there is none |
| DbFormat.CompareIsTotalOrder | Login/Pods/leveldb-library/db/dbformat.cc:51-67 | the comparison of internal keys is a total order whose ties are equal keys |
| DbFormat.SeekKeySplits | Login/Pods/leveldb-library/db/dbformat.cc:121-138 | the seek key of a snapshot separates the entries newer than the snapshot from the visible ones |
| CompactionInputs.GetOverlappingInputs | Login/Pods/leveldb-library/db/version_set.cc:519-559 | terminates with exactly the files that overlap the final range; at level 0 that is the least set closed under user-key overlap |
| CompactionInputs.SomeFileOverlapsRange | Login/Pods/leveldb-library/db/version_set.cc:122-157 | true exactly if some file overlaps the range of user keys, by binary search on sorted levels |
| CompactionInputs.AddBoundaryInputs | Login/Pods/leveldb-library/db/version_set.cc:1378-1401 | terminates, and afterwards no file of the level starts inside the user key at which the inputs end |
| CompactionInputs.FindLargestKey | Login/Pods/leveldb-library/db/version_set.cc:1326-1340 | the largest internal key of the files |
| CompactionInputs.FindSmallestBoundaryFile | Login/Pods/leveldb-library/db/version_set.cc:1344-1362 | the smallest file that starts behind the key with the same user key, or none |
| CompactionInputs.GetRange | Login/Pods/leveldb-library/db/version_set.cc:1205-1224 | the least and the greatest key of the files |
| CompactionInputs.BoundaryClosesInputs | Login/Pods/leveldb-library/db/version_set.cc:1378-1401 | adding boundary files brings a selection to the closed form that a compaction needs |
| CompactionInputs.GrowInputs | Login/Pods/leveldb-library/db/version_set.cc:1417-1447 | the level inputs become the closed selection of all level files that overlap the range of the whole compaction if and only if that has more files, its bytes and those of the next-level inputs stay below 25 file sizes, and it overlaps as many next-level files; otherwise they stay as they are |
| CompactionInputs.SameCountSameFiles | Login/Pods/leveldb-library/db/version_set.cc:1430-1434 | a wider range that selects as many files selects the same files, so comparing counts is enough |
| CompactionInputs.SetupOtherInputs | Login/Pods/leveldb-library/db/version_set.cc:1403-1462 | the choice for the seed: the level inputs are the seed with its chain of boundary files, grown when the growth rule says so and there are next-level inputs; the next-level inputs are the files that overlap them, the grandparents those that overlap the whole compaction two levels down, and the compaction pointer moves to the largest key of the level inputs |
| CompactionInputs.ChoiceIsUnique | Login/Pods/leveldb-library/db/version_set.cc:1403-1462 | a seed leaves one choice of inputs, grandparents and compaction pointer |
| CompactionInputs.ClosingIsUnique | Login/Pods/leveldb-library/db/version_set.cc:1378-1401 | there is one way to close a selection under boundary files |
| CompactionInputs.SelectionIsUnique | Login/Pods/leveldb-library/db/version_set.cc:519-559 | there is one selection of overlapping files: at level 0 the least one closed under overlap, in level order |
| CompactionInputs.PickCompaction | Login/Pods/leveldb-library/db/version_set.cc:1270-1322 | a size compaction starts with the first file that ends behind the compaction pointer of the level, wrapping around to the first file of all, and a seek compaction with its file; at level 0 the seed is everything that overlaps the file, directly or through others, and else the file alone; the result is the choice for that seed |
| CompactionInputs.ResumeAt | Login/Pods/leveldb-library/db/version_set.cc:1284-1297 | the first file whose largest key is behind the pointer, or the first file when there is none or no pointer |
| CompactionInputs.CompactRange | Login/Pods/leveldb-library/db/version_set.cc:1464-1495 | nothing is compacted if and only if no file overlaps the range; otherwise the seed is, at level 0, the least closed set of files overlapping it, and further down the overlapping files from the first on up to the one that brings their total to the size limit; the result is the choice for that seed |
| CompactionInputs.LimitedFiles | Login/Pods/leveldb-library/db/version_set.cc:1476-1487 | the fewest leading files whose sizes reach the limit, or all of them |
| DbIter.DBIter.Run | Login/Pods/leveldb-library/db/db_iter.cc:141-299 | after any run of seeks, Next and Prev with reversals, over any sorted internal entries, the iterator shows what a plain cursor over the live user keys at its sequence number shows |
| DbIter.DBIter.FindNextUserEntry | Login/Pods/leveldb-library/db/db_iter.cc:168-198 | the scan forward stops at the next live key behind the ones skipped |
| DbIter.DBIter.FindPrevUserEntry | Login/Pods/leveldb-library/db/db_iter.cc:227-267 | the scan backward stops in front of the last live key and holds its key and newest visible value |
| DbIter.DBIter.Next | Login/Pods/leveldb-library/db/db_iter.cc:141-166 | moves to the next live key from either direction |
| DbIter.DBIter.Prev | Login/Pods/leveldb-library/db/db_iter.cc:200-225 | moves to the previous live key from either direction |
| DbIter.DBIter.Seek | Login/Pods/leveldb-library/db/db_iter.cc:269-281 | stops at the first live key at or after the target |
| DbIter.DBIter.SeekToFirst | Login/Pods/leveldb-library/db/db_iter.cc:283-292 | stops at the first live key |
| DbIter.DBIter.Key | Login/Pods/leveldb-library/db/db_iter.cc:64-67 | the key shown is that of the live entry the iterator stands on, in either direction |
| DbIter.DBIter.CurrentValue | Login/Pods/leveldb-library/db/db_iter.cc:68-71 | the value shown is that of the live entry the iterator stands on, in either direction |
| DbIter.DBIter.SeekToLast | Login/Pods/leveldb-library/db/db_iter.cc:294-299 | stops at the last live key |
| DbIter.LiveIsRead | Login/Pods/leveldb-library/db/db_iter.cc:168-198 | the keys shown are exactly those that a read at the snapshot finds, with the same values |
| DbIter.LiveAscends | Login/Pods/leveldb-library/db/db_iter.cc:141-166 | each live key is shown once, in ascending order |
| DbIter.NextAndPrevAreInverse | Login/Pods/leveldb-library/db/db_iter.cc:141-225 | on the shown keys Next and Prev undo each other |
| DbIter.SeekStopsAtFirstKey | Login/Pods/leveldb-library/db/db_iter.cc:269-281 | a seek to a user key at the sequence number stops at the first live key that is not smaller |
| Merging.MergingIterator.Run | Login/Pods/leveldb-library/table/merger.cc:31-176 | over children with pairwise distinct keys, after any run of seeks, Next and Prev with direction switches, the iterator shows what one cursor over the sorted merge shows |
| Merging.MergingIterator.FindSmallest | Login/Pods/leveldb-library/table/merger.cc:148-161 | the child with the smallest current key, or none |
| Merging.MergingIterator.FindLargest | Login/Pods/leveldb-library/table/merger.cc:163-176 | the child with the largest current key, or none |
| Merging.MergingIterator.Next | Login/Pods/leveldb-library/table/merger.cc:55-79 | the next entry of the merge, also after going backward |
| Merging.MergingIterator.Prev | Login/Pods/leveldb-library/table/merger.cc:81-108 | the previous entry of the merge, also after going forward |
| Merging.MergingIterator.Seek | Login/Pods/leveldb-library/table/merger.cc:47-53 | the first entry of the merge at or after the target |
| Merging.MergeAllHas | Login/Pods/leveldb-library/table/merger.cc:31-53 | the merge holds the entries of all children and no others |
| TwoLevel.TwoLevelIterator.Run | Login/Pods/leveldb-library/table/two_level_iterator.cc:82-161 | after any run of moves the iterator shows what one cursor over the blocks laid end to end shows, empty blocks included |
| TwoLevel.TwoLevelIterator.Seek | Login/Pods/leveldb-library/table/two_level_iterator.cc:82-87 | the first entry of all blocks at or after the target, when the index keys separate the blocks |
| TwoLevel.TwoLevelIterator.InitDataBlock | Login/Pods/leveldb-library/table/two_level_iterator.cc:146-161 | the block cursor belongs to the block that the index names; it is kept if it already did |
| TwoLevel.SeekIsBound | Login/Pods/leveldb-library/table/two_level_iterator.cc:82-87 | a search of the index and then of one block finds the lower bound of the whole |
| WriteQueue.BuildBatchGroup | Login/Pods/leveldb-library/db/db_impl.cc:1260-1306 | the group is the longest prefix of the queue that respects the size limit and puts no sync write under a leader that does not sync |
| WriteQueue.GroupIsUnique | Login/Pods/leveldb-library/db/db_impl.cc:1260-1306 | a queue determines its group, whatever arrives later |
| WriteQueue.GroupIsBounded | Login/Pods/leveldb-library/db/db_impl.cc:1265-1300 | a group respects its limit, and a sync write is never carried by a leader that will not sync |
| WriteProgress.SomeoneCanGoOn | Login/Pods/leveldb-library/db/db_impl.cc:1190-1256 | in every reachable state with a waiting writer, a writer that is already there can take a step |
| WriteProgress.StepBringsNearer | Login/Pods/leveldb-library/db/db_impl.cc:1190-1256 | every step but an arrival lets a waiting writer leave or lowers its rank: writers in front of it, stage of the commit, entries to insert; an arrival leaves the rank alone |
| WriteProgress.WaitingBringsNearer | Login/Pods/leveldb-library/db/db_impl.cc:1190-1256 | over whole runs, as long as a writer waits its rank falls with every step that is not an arrival |
| WriteProgress.EveryoneLeaves | Login/Pods/leveldb-library/db/db_impl.cc:1190-1256 | from every reachable state each waiting writer leaves by steps of the writers that are there |
| WriteQueue.StepKeeps | Login/Pods/leveldb-library/db/db_impl.cc:1185-1256 | every step of every interleaving of writers and readers keeps the protocol invariant |
| WriteQueue.LeavesInOrder | Login/Pods/leveldb-library/db/db_impl.cc:1190-1256 | in every run each writer leaves the queue once, in the order of arrival |
| WriteQueue.ReaderSeesWholeBatches | Login/Pods/leveldb-library/db/db_impl.cc:1213-1240 | in every run, at every moment, a reader at the last sequence number sees exactly the batches of the writers that were told Ok, whole, once, in order, under ascending numbers |
| WriteQueue.OkMeansLogged | Login/Pods/leveldb-library/db/db_impl.cc:1222-1236 | in every run whoever was told Ok has its batch whole in one log record, which is synced if it asked for that |
| WriteQueue.NothingSucceedsAfterSyncFailure | Login/Pods/leveldb-library/db/db_impl.cc:1227-1241 | in every run, once a sync has failed no later group succeeds |
| WriteAnswers.ErrorHasCause | Login/Pods/leveldb-library/db/db_impl.cc:1185-1256 | in every run a writer that left was told Ok if and only if there was room for it and neither the append nor the sync of its own group failed |
| LifecycleSteps.StepKeeps | Login/Pods/leveldb-library/db/db_impl.cc:223-566 | every step of writers, flushes, compactions, file deletion, crash and recovery keeps the storage invariant; the steps write nothing behind a torn record |
| History.DropKeepsFaithful | Login/Pods/leveldb-library/db/db_impl.cc:939-971 | leaving out of the inputs only writes with a newer write of their key there, and deletions behind which nothing older of their key is left, keeps the tables faithful to the history of writes: the newest write of every key is there, unless it is a deletion and nothing of the key is |
| History.FaithfulReads | Login/Pods/leveldb-library/db/db_impl.cc:1100-1145 | a store that is faithful to a history of writes answers every read as the history does |
| DropRule.InstallMayDrop | Login/Pods/leveldb-library/db/db_impl.cc:878-1036 | what a compaction of Database leaves out when it is installed is of these two kinds, as long as its next-level inputs end between user keys |
| LifecycleRuns.OpenReadsAreHistory | Login/Pods/leveldb-library/db/db_impl.cc:280-489 | in every run with crashes and recoveries, an open database answers every read as the history of its answered writes does |
| LifecycleRuns.AnsweredIsKept | Login/Pods/leveldb-library/db/db_impl.cc:223-278 | whenever the database is open, tables and memtables hold every answered write or a newer write of its key, or the newest write of the key is a deletion and nothing of the key is left |
| LifecycleRuns.AnsweredIsStored | Login/Pods/leveldb-library/db/db_impl.cc:223-278 | the same at every moment for what is on disk: the tables that the manifest names and the logs from its log number on |
| LifecycleRuns.DurableSurvives | Login/Pods/leveldb-library/db/db_impl.cc:280-489 | in every run in which nothing is written behind a torn record, a write that was answered and synced, or flushed, is in the history and covered in this sense whenever the database is open again |
| LifecycleRuns.SyncedAnswerIsDurable | Login/Pods/leveldb-library/db/db_impl.cc:1222-1240 | an answer given after a successful sync is durable at once |
| LifecycleRuns.CrashLeavesPrefixExactly | Login/Pods/leveldb-library/db/db_impl.cc:307-369 | a crash leaves a prefix of what was written if and only if no log keeps anything behind a loss in an earlier log |
| LifecycleRuns.LiveTablesAreOnDisk | Login/Pods/leveldb-library/db/db_impl.cc:223-278 | no table of a live version and no finished pending output is ever deleted |
| LifecycleRuns.NamedTablesNeverChange | Login/Pods/leveldb-library/db/db_impl.cc:343-359 | a table keeps its contents as long as a version names it, also across crashes and recoveries, so file numbers are not reused too early |
| LifecycleProgress.CanAlwaysReopen | Login/Pods/leveldb-library/db/db_impl.cc:280-380 | wherever a crash has left the files, the database can be opened again by recovery alone |
| LifecycleProgress.CleaningCollects | Login/Pods/leveldb-library/db/db_impl.cc:217-278 | a round of cleaning can delete everything but the live tables and the logs from the current log number on, which stay as they are |
| LifecycleProgress.FlushCanFinish | Login/Pods/leveldb-library/db/db_impl.cc:535-566 | a full memtable can always be brought into a table of the current version |
| LifecycleProgress.CompactionCanFinish | Login/Pods/leveldb-library/db/db_impl.cc:878-1036 | any tables of the current version can be compacted and replaced |
| LifecycleFailures.AppendedIsReadExactly | Login/Pods/leveldb-library/db/log_writer.cc:23-30 | a record appended to a log is sure to be read back if and only if the log is not torn |
| LifecycleFailures.SyncedWriteIsLost | Login/Pods/leveldb-library/db/db_impl.cc:459-477 | a run in which a synced and answered write is gone after a crash that took nothing away: its log was torn when it was taken up again |
| LifecycleFailures.CrashLeavesNoPrefix | Login/Pods/leveldb-library/db/db_impl.cc:1354-1364 | a run in which a crash takes an answered write away and leaves a later one, since only the later log was synced |
| TornManifest.SyncedWriteIsLost | Login/Pods/leveldb-library/db/version_set.cc:1013-1042 | a run in which a synced and answered write is nowhere on disk that a recovery looks: the manifest was torn when it was kept, its later edits are not read again, and the log of the write was deleted |
| ReuseExact.ReuseIsSafeExactly | Login/Pods/leveldb-library/db/db_impl.cc:459-477 | from every state that satisfies the invariant: taking up a log again can lose a synced answer, by steps that are all within the guard afterwards, if and only if the log is torn |
| CrashMap.RunReadsAsTale | Login/Pods/leveldb-library/db/db_impl.cc:280-369 | any run with crashes that lose only tails tells of one list of writes: every answer extends it, every crash cuts it, perhaps behind unanswered writes, but behind everything durable, and whenever the database is open it reads as the map of that list |
| CrashMap.OpenReadsAsMap | Login/Pods/leveldb-library/db/db_impl.cc:280-369 | whatever the crashes of a run took away, an open database reads as the map of the writes that are left, in the order of their sequence numbers |
| Coding.VarintRoundTrip | Login/Pods/leveldb-library/util/coding.cc:47-169 | every value that fits its width is read back, and what follows is left untouched |
| Coding.VarintAtFits | Login/Pods/leveldb-library/util/coding.cc:112-157 | whatever a decoder accepts fits the width |
| Coding.EncodeVarint32 | Login/Pods/leveldb-library/util/coding.cc:47-73 | the unrolled encoder writes the base-128 digits in one to five bytes |
| Coding.EncodeVarint64 | Login/Pods/leveldb-library/util/coding.cc:81-90 | the loop writes the base-128 digits |
| Coding.GetVarintPtr | Login/Pods/leveldb-library/util/coding.cc:112-157 | the loop with shifts computes the value of the digits, or fails when no byte ends it in time |
| Coding.VarintLength | Login/Pods/leveldb-library/util/coding.cc:103-110 | the number of bytes that an encoder writes |
| Coding.FixedRoundTrip | Login/Pods/leveldb-library/util/coding.h:60-85 | fixed-width numbers are read back |
| Coding.UnfixedRoundTrip | Login/Pods/leveldb-library/util/coding.h:60-85 | reading fixed-width bytes and writing them gives the same bytes |
| Coding.PrefixedRoundTrip | Login/Pods/leveldb-library/util/coding.cc:98-190 | length-prefixed strings are read back, with what follows them |
| LogRecovery.PrefixOfLogReadsBack | Login/Pods/leveldb-library/db/log_reader.cc:56-271 | reading any byte prefix of a log gives exactly the records wholly inside the prefix and reports no corruption |
| LogTorn.ContinuedIsReadExactly | Login/Pods/leveldb-library/db/db_impl.cc:459-470 | records written on behind any cut of a file of physical records are all read, behind those that the cut left whole, if and only if the cut is at a boundary of physical records or leaves no room for a header in its block |
| LogTorn.ReusedLogIsReadExactly | Login/Pods/leveldb-library/db/db_impl.cc:459-470 | the same for a log of whole records: the records before the cut and all new ones come back under exactly this condition |
| LogTorn.TornLosesFirst | Login/Pods/leveldb-library/db/log_reader.cc:189-271 | elsewhere the first new record is lost, and of the later ones some come back, whole and in order |
| LogTorn.ReuseLosesRecord | Login/Pods/leveldb-library/db/db_impl.cc:459-470 | a log of eight bytes cut behind its header: the next record written there is not read |
| LogTorn.SessionsReadBack | Login/Pods/leveldb-library/db/log_writer.cc:23-80 | however often a log is cut and written on, as long as every session starts at a boundary of physical records, each crash takes away a tail of the records and all later records are read |
| LogDamage.DamagedLogIsNotSpliced | Login/Pods/leveldb-library/db/log_reader.cc:91-268 | of a log in which any physical records are rejected, or whose end is missing, the reader returns some of the written records, each whole, at most once and in order |
| LogDamageExact.DamagedLogReadsExactly | Login/Pods/leveldb-library/db/log_reader.cc:91-268 | of such a log exactly those records are read of which every physical record is intact and for which nothing was rejected earlier in the block in which they begin: a rejected physical record loses the rest of its block and no more |
| LogWriter.Writer.AddRecord | Login/Pods/leveldb-library/db/log_writer.cc:34-80 | the appended bytes are the record cut into fragments that never cross a 32 KB block |
| LogWriter.Writer.EmitPhysicalRecord | Login/Pods/leveldb-library/db/log_writer.cc:82-108 | checksum, length, type and payload of one fragment |
| LogWriter.WriteInTwoSessions | Login/Pods/leveldb-library/db/log_writer.cc:23-30 | a writer that continues a file of known length leaves the bytes that one session would have left |
| LogFormat.LogBytesGrow | Login/Pods/leveldb-library/db/log_writer.cc:34-80 | writing on from where a log ends is the same as writing it all |
| LogReader.Reader.ReadRecord | Login/Pods/leveldb-library/db/log_reader.cc:56-174 | the reassembly of fragments: the record that starts next, or the end |
| LogReader.Reader.ReadPhysicalRecord | Login/Pods/leveldb-library/db/log_reader.cc:189-271 | the next fragment, a rejected one, or the end, as the checks on length, zeros and checksum say |
| LogReader.ReadLog | Login/Pods/leveldb-library/db/db_impl.cc:425-470 | all records up to the end |
| PbMessage.DecodeUndoesEncode | Login/Pods/nanopb/pb_decode.c:925-1073 | for every well-formed callback-free descriptor and every good message, decoding the encoded bytes gives presence, counts, oneof choice, values and nested messages back |
| PbExact.DecodeUndoesEncodeExactly | Login/Pods/nanopb/pb_decode.c:925-1073 | what the encoder writes with sizes below 4GB is read back if and only if every text in it, at any depth, leaves room for its terminator; otherwise decoding fails |
| PbRequired.AcceptedExactly | Login/Pods/nanopb/pb_decode.c:1030-1070 | a message is accepted if and only if its fields decode, the last fixed-count field is full, and each of the first 64 required fields has its tag at the top level of the bytes, found by walking tag and value without decoding |
| PbRequired.LeavingOutIsRefused | Login/Pods/nanopb/pb_decode.c:1030-1070 | without any one of the first 64 required fields, what the encoder writes is refused |
| PbRequired.MatchingTagsArePlain | Login/Pods/nanopb/pb_decode.c:406-420 | when known fields come with their own wire types, the tags are those that a reader without a descriptor finds |
| PbRequired.WireTypeIsNotChecked | Login/Pods/nanopb/pb_decode.c:406-420 | a message with a wrong wire type in a required field that decodes, although a reader without a descriptor does not find its second required field |
| PbSafe.DecodedFits | Login/Pods/nanopb/pb_decode.c:406-535 | whatever the bytes are, what is decoded fits its struct: counts within their arrays, texts with room for their terminators, numbers in range, at most one field of a oneof set |
| PbSafe.DecodedIsReadBack | Login/Pods/nanopb/pb_decode.c:925-1085 | whatever was decoded can be encoded, and if no part of the encoding is 4GB long it is decoded to the same message again |
| PbOrder.FieldIsSet | Login/Pods/nanopb/pb_decode.c:925-1028 | wherever a field with one value comes in a message, it is read, and its value takes the place of what was there |
| PbOrder.OrderOnWire | Login/Pods/nanopb/pb_decode.c:925-1028 | two fields that do not share a oneof may come in either order; two values of one field, or of one oneof, have the effect of the last |
| PbRefused.UnsignedReadsExactly | Login/Pods/nanopb/pb_decode.c:1366-1388 | a varint for an unsigned field is read if it is in range and refused otherwise |
| PbRefused.ZigZagReadsExactly | Login/Pods/nanopb/pb_decode.c:1390-1413 | a zigzag varint for a signed field is read if it is in range and refused otherwise |
| PbRefused.SignedReadsExactly | Login/Pods/nanopb/pb_decode.c:1329-1364 | a varint for a plain signed field of less than eight bytes is cut to 32 bits, then read if that is in range and refused otherwise |
| PbRefused.StringReadsExactly | Login/Pods/nanopb/pb_decode.c:1431-1548 | bytes, texts and fixed-length bytes are read whole, a text up to its first zero, if they fit, and refused otherwise |
| PbRefused.PackedReadsExactly | Login/Pods/nanopb/pb_decode.c:424-455 | a packed array is read if there is room for all its values, and refused otherwise |
| PbRoundTrip.TextRoundTrip | Login/Pods/nanopb/pb_decode.c:1468-1501 | a text comes back if and only if it leaves room for its terminator |
| PbRoundTrip.ZeroIsDefault | Login/Pods/nanopb/pb_encode.c:237-328 | leaving out a zero singular field loses nothing |
| PbRoundTrip.UnknownFieldIsSkipped | Login/Pods/nanopb/pb_decode.c:321-331 | a field that the descriptor does not know is skipped whole, whatever its number and wire type |
| PbRoundTrip.PackedRoundTrip | Login/Pods/nanopb/pb_decode.c:406-440 | a packed array comes back |
| PbWire.TagRoundTrip | Login/Pods/nanopb/pb_decode.c:298-319 | the field number and the wire type come back from a tag |
| PbWire.Varint32Fits | Login/Pods/nanopb/pb_decode.c:187-247 | a 32-bit value is accepted by the 32-bit decoder with its limits on the fifth byte |
| PbWire.Varint32IsLowWord | Login/Pods/nanopb/pb_decode.c:187-247 | a varint of up to 37 bytes that the 32-bit decoder accepts gives the low 32 bits of its value |
| PbWire.Varint32Wraps | Login/Pods/nanopb/pb_decode.c:213-234 | a varint of 38 bytes whose low word is 0 is read as 8: the bit position has wrapped around |
| PbOStream.OStream.EncodeSubmessage | Login/Pods/nanopb/pb_encode.c:708-756 | the size that the sizing pass computes is the number of bytes that the writing pass writes, so the check that it changed never fires |
| PbOStream.OStream.Encode | Login/Pods/nanopb/pb_encode.c:519-541 | the bytes written, or only counted, are the encoding of the message, and the result says whether they fit |
| PbOStream.OStream.EncodeArray | Login/Pods/nanopb/pb_encode.c:144-233 | packed arrays with their size first, other arrays with a tag for each value |
| PbOStream.OStream.EncodeField | Login/Pods/nanopb/pb_encode.c:332-456 | required, optional, singular, repeated and oneof fields as their presence says |
| PbOStream.OStream.Write | Login/Pods/nanopb/pb_encode.c:103-121 | bytes are appended or counted, or nothing is written when there is no room |
| PbOStream.OStream.EncodeVarint | Login/Pods/nanopb/pb_encode.c:599-619 | the base-128 digits |
| PbOStream.OStream.EncodeSVarint | Login/Pods/nanopb/pb_encode.c:621-630 | the zigzag form |
| PbOStream.OStream.EncodeTag | Login/Pods/nanopb/pb_encode.c:660-698 | field number and wire type |
| PbOStream.OStream.EncodeString | Login/Pods/nanopb/pb_encode.c:700-706 | length and bytes |
| PbOStream.OStream.GetEncodedSize | Login/Pods/nanopb/pb_encode.c:558-567 | the size of the encoded message |
| PbIStream.IStream.DecodeNoInit | Login/Pods/nanopb/pb_decode.c:925-1073 | the loop over tags, with required fields tracked and unknown fields skipped, computes what the specification of decoding says, or fails when it does; PbRequired.AcceptedExactly, PbSafe and PbOrder say what that is worth |
| PbIStream.IStream.DecodeStaticField | Login/Pods/nanopb/pb_decode.c:406-480 | one field, by its wire type and its kind |
| PbIStream.IStream.DecodeVarint32 | Login/Pods/nanopb/pb_decode.c:187-247 | the 32-bit varint decoder, overlong forms and the 8-bit position included |
| PbIStream.IStream.DecodeVarint | Login/Pods/nanopb/pb_decode.c:255-275 | the 64-bit varint decoder |
| PbIStream.IStream.SkipOverField | Login/Pods/nanopb/pb_decode.c:321-331 | exactly the bytes of one value are skipped |
| PbIStream.FieldIter.Find | Login/Pods/nanopb/pb_common.c:78-95 | the cyclic search finds the field with the tag, from any position, if there is one |
| PbIStream.FieldIter.Next | Login/Pods/nanopb/pb_common.c:20-76 | steps through the fields and counts the required ones, wrapping around at the end |
| PbIStream.FoundIsUnique | Login/Pods/nanopb/pb_common.c:78-95 | with distinct tags the field found does not depend on where the search starts |
| BlockRoundTrip.BuildAndRead | Login/Pods/leveldb-library/table/block_builder.cc:62-106 | for every restart interval of at least 1, reading a built block from front to back gives the added pairs |
| BlockRoundTrip.BuilderMakesBlock | Login/Pods/leveldb-library/table/block_builder.cc:62-106 | the finished bytes are a block that the reader understands: every entry, every restart point and the count are where they should be |
| BlockRoundTrip.CountAtEnd | Login/Pods/leveldb-library/table/block.cc:19-39 | the number of restart points is read from the last word |
| BlockFormat.BlockBuilder.Add | Login/Pods/leveldb-library/table/block_builder.cc:72-106 | the buffer grows by one entry, prefix-compressed against the last key unless a restart is due |
| BlockFormat.BlockBuilder.EstimateIsSize | Login/Pods/leveldb-library/table/block_builder.cc:56-60 | the estimate is the size of the finished block |
| BlockFormat.RestartsEveryInterval | Login/Pods/leveldb-library/table/block_builder.cc:72-106 | entry 0 is a restart point, and from each restart point the next one is block_restart_interval entries on |
| BlockFormat.BlockBuilder.Finish | Login/Pods/leveldb-library/table/block_builder.cc:62-70 | entries, restart array and count |
| BlockFormat.BlockBuilder.Reset | Login/Pods/leveldb-library/table/block_builder.cc:47-54 | an empty builder |
| BlockIter.DecodesEntry | Login/Pods/leveldb-library/table/block.cc:54-74 | both the one-byte path and the varint path read the three lengths that were written |
| BlockIter.Iter.Seek | Login/Pods/leveldb-library/table/block.cc:163-201 | the binary search over restart points and the scan land on the first key that is not before the target |
| BlockIter.Iter.Next | Login/Pods/leveldb-library/table/block.cc:137-140 | moves to the next entry |
| BlockIter.Iter.Prev | Login/Pods/leveldb-library/table/block.cc:142-161 | moves to the previous entry, so that it undoes Next |
| BlockIter.Iter.SeekToFirst | Login/Pods/leveldb-library/table/block.cc:203-206 | moves to the first entry |
| BlockIter.Iter.SeekToLast | Login/Pods/leveldb-library/table/block.cc:208-213 | moves to the last entry |
| BlockIter.Iter.ParseNextKey | Login/Pods/leveldb-library/table/block.cc:224-251 | rebuilds key and value of the entry behind the current one, or reaches the end |
| CacheSpec.ApplyKeeps | Login/Pods/leveldb-library/util/cache.cc:217-333 | every operation keeps: each handle is in use, idle, held outside the cache or deleted, as its references say |
| CacheSpec.DeletedOnce | Login/Pods/leveldb-library/util/cache.cc:225-237 | in every run a deleter runs once, exactly when the references reach zero, and never while a client holds the handle |
| CacheSpec.EvictsOldest | Login/Pods/leveldb-library/util/cache.cc:294-300 | eviction takes the least recently released entries, and no more of them than needed |
| CacheSpec.InsertFits | Login/Pods/leveldb-library/util/cache.cc:266-303 | after an insertion the usage is within the capacity or nothing can be evicted |
| CacheSpec.IdleInReleaseOrder | Login/Pods/leveldb-library/util/cache.cc:225-250 | in every run the entries that can be evicted stand in the order of their last release |
| CacheSpec.HitIsLatest | Login/Pods/leveldb-library/util/cache.cc:252-259 | in every run a hit is the latest insertion under the key that was not erased |
| CacheSpec.InsertPuts | Login/Pods/leveldb-library/util/cache.cc:266-303 | an insertion puts its entry into the cache under a handle of its own, unless the capacity is 0: the eviction that follows cannot take it |
| CacheSpec.MissIsExplained | Login/Pods/leveldb-library/util/cache.cc:252-336 | in every run the latest insertion under a key that was not erased is found, unless a later step took it while no client used it: Prune, or the eviction of an insertion |
| CacheSpec.ReferencesBalance | Login/Pods/leveldb-library/util/cache.cc:212-264 | over every run the references that clients have to a handle are its insertion and the lookups that found it, less the releases |
| CacheSpec.OnlyIdleLeaves | Login/Pods/leveldb-library/util/cache.cc:294-333 | an entry in use leaves only by its own erasure |
| Cache.CountersFit | Login/Pods/leveldb-library/util/cache.cc:181-195 | in a valid cache the usage field is the sum of the cached charges, refs counts the clients and the cache, and refs with in_cache decide which ring, the hash table or the deleter has the entry |
| Cache.LRUCache.Insert | Login/Pods/leveldb-library/util/cache.cc:266-303 | the fields (rings, refs, in_cache, usage, hash chains) after an insertion with its evictions are valid for exactly the state CacheSpec.Apply gives |
| Cache.LRUCache.Lookup | Login/Pods/leveldb-library/util/cache.cc:252-259 | likewise for a lookup, which takes a reference |
| Cache.LRUCache.Release | Login/Pods/leveldb-library/util/cache.cc:261-264 | likewise for a release |
| Cache.LRUCache.Erase | Login/Pods/leveldb-library/util/cache.cc:318-321 | likewise for an erasure |
| Cache.LRUCache.Prune | Login/Pods/leveldb-library/util/cache.cc:323-333 | likewise for dropping all idle entries |
| Cache.LRUCache.FinishErase | Login/Pods/leveldb-library/util/cache.cc:307-316 | the entry leaves its list, the usage and the cache |
| Cache.LRUCache.LruRemove | Login/Pods/leveldb-library/util/cache.cc:239-242 | the two stores unlink the node from its list |
| Cache.LRUCache.LruAppend | Login/Pods/leveldb-library/util/cache.cc:244-250 | the four stores put the node in as the newest |
| Cache.LRUCache.Ref | Login/Pods/leveldb-library/util/cache.cc:217-223 | the first client reference moves a cached entry to the in-use list |
| Cache.LRUCache.Unref | Login/Pods/leveldb-library/util/cache.cc:225-237 | the last client reference moves it back; the last of all runs the deleter |
| HandleTable.Table.Insert | Login/Pods/leveldb-library/util/cache.cc:78-92 | the handle takes the place of the one with its key, if there is one; there stay at least as many chains as handles |
| HandleTable.Table.Remove | Login/Pods/leveldb-library/util/cache.cc:94-102 | the handle with the key is taken out, if there is one |
| HandleTable.Table.Lookup | Login/Pods/leveldb-library/util/cache.cc:74-76 | the handle with the key, if there is one |
| HandleTable.Table.Resize | Login/Pods/leveldb-library/util/cache.cc:122-146 | moving all handles to longer bucket lists keeps the contents, and as many as were counted are moved |
| HandleTable.Table.FindPointer | Login/Pods/leveldb-library/util/cache.cc:114-120 | the place of the key in its chain, or the end of the chain |
| Rings.CutRing | Login/Pods/leveldb-library/util/cache.cc:239-242 | unlinking a node of a circular doubly linked list leaves the list without it |
| Rings.PutRing | Login/Pods/leveldb-library/util/cache.cc:244-250 | linking a node before the head leaves the list with it at the end |
| SnapshotList.List.New | Login/Pods/leveldb-library/db/snapshot.h:57-70 | the snapshot becomes the newest of the list |
| SnapshotList.List.Delete | Login/Pods/leveldb-library/db/snapshot.h:79-86 | exactly this snapshot leaves the list |
| SnapshotList.List.SmallestSnapshot | Login/Pods/leveldb-library/db/db_impl.cc:888-894 | no live snapshot is below the number that a compaction keeps entries for |
| SkipLists.SkipList.Insert | Login/Pods/leveldb-library/db/skiplist.h:337-368 | the list stays legal, its keys grow by the one inserted, and the new node joins exactly the levels below its height |
| SkipLists.HalfStep | Login/Pods/leveldb-library/db/skiplist.h:361-367 | the store to the new node leaves a legal list with the same levels |
| SkipLists.PublishStep | Login/Pods/leveldb-library/db/skiplist.h:361-367 | the store that leads to the new node leaves a legal list whose level has grown by exactly that node |
| SkipLists.RaiseHeight | Login/Pods/leveldb-library/db/skiplist.h:346-357 | raising the height leaves a legal list |
| SkipLists.SkipList.FindGreaterOrEqual | Login/Pods/leveldb-library/db/skiplist.h:262-281 | the first node not before the key, and in every level the last node before it |
| SkipLists.SkipList.FindLessThan | Login/Pods/leveldb-library/db/skiplist.h:285-302 | the last node before the key |
| SkipLists.SkipList.FindLast | Login/Pods/leveldb-library/db/skiplist.h:305-322 | the last node of all |
| SkipLists.SkipList.Contains | Login/Pods/leveldb-library/db/skiplist.h:371-378 | whether the key is in the list |
| SkipLists.Iterator.Next | Login/Pods/leveldb-library/db/skiplist.h:207-210 | the next node in order |
| SkipLists.Iterator.Prev | Login/Pods/leveldb-library/db/skiplist.h:213-221 | the previous node in order |
| SkipLists.Iterator.Seek | Login/Pods/leveldb-library/db/skiplist.h:224-226 | the first node not before the target |
| SkipLists.Iterator.SeekToFirst | Login/Pods/leveldb-library/db/skiplist.h:229-231 | the first node |
| SkipLists.Iterator.SeekToLast | Login/Pods/leveldb-library/db/skiplist.h:234-239 | the last node |
| SkipLists.PrevUndoesNext | Login/Pods/leveldb-library/db/skiplist.h:207-221 | going back after going forward leads back |
| SkipListReaders.StepKeeps | Login/Pods/leveldb-library/db/skiplist.h:262-368 | every load of any reader and every store of the writer, in any interleaving, leaves a legal list and every search where it may be |
| SkipListReaders.StepAddsOneKey | Login/Pods/leveldb-library/db/skiplist.h:361-367 | the keys change only with the store to level 0, by exactly the key inserted |
| SkipListReaders.SearchIsAtomic | Login/Pods/leveldb-library/db/skiplist.h:262-322 | in every interleaving each of the three searches (at or after a key, before a key, last) answers as if it had run in one moment after it began, so it misses no key that was there when it began |
| Tables.Table.InternalGet | Login/Pods/leveldb-library/table/table.cc:216-244 | what is reported is the first entry of the table at or after the target; if nothing is reported, no such entry has the user key of the target |
| Tables.ScanFinds | Login/Pods/leveldb-library/table/table.cc:216-244 | if the table holds an entry with the user key of the target at or after it, the lookup reports the first such entry |
| Tables.Open | Login/Pods/leveldb-library/table/table.cc:38-82 | footer, index block, metaindex and filters of a finished file are found |
| Tables.ReadMeta | Login/Pods/leveldb-library/table/table.cc:84-111 | the filters are found by name |
| Tables.Table.ReadDataBlock | Login/Pods/leveldb-library/table/table.cc:155-208 | an index entry leads to its block |
| Tables.Table.MayContain | Login/Pods/leveldb-library/table/table.cc:225-228 | the answer is that of the filter made for the 2 KB range in which the block starts, and it never rejects a key whose user key is in the block |
| Tables.ByUserKeyPasses | Login/Pods/leveldb-library/db/dbformat.cc:105-119 | a policy without false negatives has none for internal keys either |
| Tables.BloomHasNoFalseNegatives | Login/Pods/leveldb-library/util/bloom.cc:28-80 | the Bloom policy has no false negatives |
| TableLookup.InBlock | Login/Pods/leveldb-library/table/table.cc:216-244 | an entry found in the block that the index leads to is the first of the table at or after the target |
| TableLookup.BehindBlock | Login/Pods/leveldb-library/table/table.cc:216-244 | if the block has none, the next block does not start with the user key of the target |
| TableBuilding.TableBuilder.Add | Login/Pods/leveldb-library/table/table_builder.cc:94-123 | the entries grow by one, and the block in the making is written exactly if it has reached block_size with this entry; blocks, index keys, filters and file stay consistent |
| TableBuilding.TableBuilder.Flush | Login/Pods/leveldb-library/table/table_builder.cc:125-139 | the block in the making is written and waits for its index key |
| TableBuilding.TableBuilder.Finish | Login/Pods/leveldb-library/table/table_builder.cc:198-253 | the file holds the data blocks, filters, metaindex, index and footer of all entries added |
| TableBuilding.TableBuilder.WriteRawBlock | Login/Pods/leveldb-library/table/table_builder.cc:177-194 | contents and trailer are appended and the handle leads to them |
| TableBuilding.BuildTable | Login/Pods/leveldb-library/db/builder.cc:17-41 | a table built from ascending entries holds exactly these; every block but the last ends with the entry that brings it to block_size |
| TableBuilding.BlocksAreUnique | Login/Pods/leveldb-library/table/table_builder.cc:119-139 | entries are cut into blocks in one way only |
| TableBuilding.FirstEntryCuts | Login/Pods/leveldb-library/table/table_builder.cc:102-109 | the index key made from the last key of a block and the first of the next separates them |
| TableBuilding.LastCuts | Login/Pods/leveldb-library/table/table_builder.cc:229-237 | the short successor of the last key is a valid index key for the last block |
| TableFormat.FooterRoundTrip | Login/Pods/leveldb-library/table/format.cc:31-62 | a footer decodes to the handles that were encoded |
| TableFormat.HandleRoundTrip | Login/Pods/leveldb-library/table/format.cc:15-29 | a block handle decodes to what was encoded |
| TableFormat.BlockReads | Login/Pods/leveldb-library/table/format.cc:64-139 | a written block is read back, with or without verification of its checksum |
| FilterBlock.FilterBlockBuilder.StartBlock | Login/Pods/leveldb-library/table/filter_block.cc:21-27 | filters are made up to the 2 KB range of the offset |
| FilterBlock.FilterBlockBuilder.AddKey | Login/Pods/leveldb-library/table/filter_block.cc:29-33 | the key joins the pending ones |
| FilterBlock.FilterBlockBuilder.GenerateFilter | Login/Pods/leveldb-library/table/filter_block.cc:51-75 | one filter for exactly the pending keys |
| FilterBlock.FilterBlockBuilder.Finish | Login/Pods/leveldb-library/table/filter_block.cc:35-49 | all filters, their offsets and the base |
| FilterBlock.FilterBlockReader.KeyMayMatch | Login/Pods/leveldb-library/table/filter_block.cc:90-104 | the answer of the filter that the offset array leads to; errors count as matches |
| FilterBlock.FilterBlockReader.constructor | Login/Pods/leveldb-library/table/filter_block.cc:77-88 | a block that is too short or points outside itself has no filters |
| FilterBlock.Query | Login/Pods/leveldb-library/table/filter_block.cc:90-104 | a finished block answers with the filter of the range in which the data block starts |
| Bloom.CreateFilter | Login/Pods/leveldb-library/util/bloom.cc:28-54 | the filter whose set bits are the probes of the keys goes behind what was there |
| Bloom.KeyMayMatch | Login/Pods/leveldb-library/util/bloom.cc:56-80 | true exactly if all probes of the key are set, or the encoding is reserved |
| Bloom.MadeForPasses | Login/Pods/leveldb-library/util/bloom.cc:28-80 | every key that a filter was made for passes |
| Comparators.SeparatorSeparates | Login/Pods/leveldb-library/util/comparator.cc:29-50 | the shortened key is not before the start, before the limit and not longer |
| Comparators.FindShortestSeparator | Login/Pods/leveldb-library/util/comparator.cc:29-50 | the first differing byte is raised if that stays below the limit |
| Comparators.SuccessorSucceeds | Login/Pods/leveldb-library/util/comparator.cc:52-64 | the short successor is not before the key and not longer |
| Comparators.FindShortSuccessor | Login/Pods/leveldb-library/util/comparator.cc:52-64 | the first byte that can be raised is raised, the rest cut off |
| Comparators.KeySeparatorSeparates | Login/Pods/leveldb-library/db/dbformat.cc:69-86 | the index key is not before the last key of a block and before the next; when shortened, its user key is before that of the next block |
| Comparators.FindShortestKeySeparator | Login/Pods/leveldb-library/db/dbformat.cc:69-86 | the separator of the user keys with the greatest tag, when that is shorter |
| Comparators.KeySuccessorSucceeds | Login/Pods/leveldb-library/db/dbformat.cc:88-101 | the short successor of an internal key is not before it |
| Comparators.FindShortKeySuccessor | Login/Pods/leveldb-library/db/dbformat.cc:88-101 | the successor of the user key with the greatest tag, when that is shorter |
| VersionEdits.EditRoundTrip | Login/Pods/leveldb-library/db/version_edit.cc:41-205 | decoding gives the encoded edit; pointers that the object still had come first, so a fresh object gives the edit itself |
| VersionEdits.VersionEdit.EncodeTo | Login/Pods/leveldb-library/db/version_edit.cc:41-85 | the items of the edit are appended in order |
| VersionEdits.VersionEdit.DecodeFrom | Login/Pods/leveldb-library/db/version_edit.cc:107-205 | the items are read one by one; an unknown tag or a cut item makes the record corrupt |
| VersionEdits.VersionEdit.Clear | Login/Pods/leveldb-library/db/version_edit.cc:26-39 | everything but the compaction pointers is cleared |
| VersionEdits.FieldRoundTrip | Login/Pods/leveldb-library/db/version_edit.cc:107-205 | each kind of item is read back, with what follows it |
| Manifest.SavingOnceIsStepwise | Login/Pods/leveldb-library/db/version_set.cc:650-754 | for any sequence of edits that adds each number to a level at most once, gathering all and saving once gives the same files as applying them one at a time |
| Manifest.OneMoreExactly | Login/Pods/leveldb-library/db/version_set.cc:650-692 | one more edit does the same to builder and files if and only if no number of a deleted file is added again with another file |
| Manifest.AddedTwiceDiffers | Login/Pods/leveldb-library/db/version_set.cc:650-692 | a number that is deleted and added again with other metadata: the builder keeps both files |
| Manifest.SortedIsUnique | Login/Pods/leveldb-library/db/version_set.cc:596-604 | the sorted list of a level is determined by its files |
| VersionBuilder.Builder.Apply | Login/Pods/leveldb-library/db/version_set.cc:650-692 | for any edit: deletions first, then additions into the ordered set of each level, where a file of the same rank as one that is there does not get in |
| VersionBuilder.Builder.SaveTo | Login/Pods/leveldb-library/db/version_set.cc:695-754 | if no two files of a level have the same rank, each level is sorted and holds exactly the files that are known and not deleted |
| VersionBuilder.OnceIsApart | Login/Pods/leveldb-library/db/version_set.cc:596-604 | when every file number is added to a level at most once, no two files have the same rank |
| VersionBuilder.Builder.SaveLevel | Login/Pods/leveldb-library/db/version_set.cc:698-724 | the merge of old and added files |
| VersionRecovery.ReplayIsStepwise | Login/Pods/leveldb-library/db/version_set.cc:801-884 | replaying all edits with one builder gives exactly the version that was installed edit by edit |
| VersionRecovery.SnapshotRestores | Login/Pods/leveldb-library/db/version_set.cc:1088-1116 | a snapshot record read into an empty version gives the version back |
| VersionRecovery.Recover | Login/Pods/leveldb-library/db/version_set.cc:933-1000 | for any records: the first that is corrupt or names another comparator decides the error; else a counter that no record has; else the version saved from all records and the last value of each counter |
| VersionRecovery.RecoverCurrent | Login/Pods/leveldb-library/db/version_set.cc:886-1000 | recovery from a manifest that starts with a snapshot and goes on with edits as LogAndApply writes them succeeds, with the current version and the counters of the last edit |
| WriteBatches.WriteBatch.InsertInto | Login/Pods/leveldb-library/db/write_batch.cc:132-137 | operations get consecutive sequence numbers from that of the batch; the status is Ok if and only if the count did not wrap around |
| WriteBatches.WriteBatch.Iterate | Login/Pods/leveldb-library/db/write_batch.cc:42-80 | on any bytes: the operations up to the first bad record, and the status that the source reports |
| WriteBatches.WriteBatch.SetSequence | Login/Pods/leveldb-library/db/write_batch.cc:94-96 | the sequence number of the batch changes and its operations stay |
| WriteBatches.WriteBatch.Append | Login/Pods/leveldb-library/db/write_batch.cc:144-148 | the operations of both batches in order |
| WriteBatches.WriteBatch.Put | Login/Pods/leveldb-library/db/write_batch.cc:98-103 | the batch grows by a put |
| WriteBatches.WriteBatch.Delete | Login/Pods/leveldb-library/db/write_batch.cc:105-109 | the batch grows by a deletion |
| WriteBatches.RecordsReadBack | Login/Pods/leveldb-library/db/write_batch.cc:42-109 | records that were written are read back |

## Left out

- Snapshots.StepKeeps: holds under Snapshots.Guard, which the code does not check: next-level inputs that end between user keys, and no flush to the output level between the inputs of a running compaction. Database.InstallKeeps and Database.InstallReads say exactly when an install is safe without it, and Counterexamples shows both failures.
- Snapshots.StepKeepsReads: asks for a state that such guarded steps reach, for the same reason.
- Snapshots.HeldSnapshotIsStable: the guard holds at every step of the run; so it does in DatabaseMap.RunShowsLastUpdate, DatabaseMap.NewDatabaseRefinesMap, DatabaseMap.SnapshotShowsItsMoment and DatabaseIterator.IteratorShowsMap.
- Database.FlushKeeps: the log number recorded with the flush and the deletion of obsolete files are part of LifecycleSteps, not of this step.
- Snapshots.RunKeeps: under the same guard.
- DatabaseMap.RunShowsLastUpdate: under the same guard.
- DatabaseMap.NewDatabaseRefinesMap: under the same guard.
- DatabaseMap.SnapshotShowsItsMoment: under the same guard.
- DatabaseIterator.IteratorShowsMap: under the same guard.
- LifecycleSteps.StepKeeps: holds under Lifecycle.Guard, which the code does not check: nothing is written behind a torn record. LifecycleFailures and TornManifest show runs of the code's own steps that fail without it, and ReuseExact.ReuseIsSafeExactly and LogTorn.ContinuedIsReadExactly say exactly when a log may be written on. What a compaction may drop is the condition that DropRule.InstallMayDrop proves of the compactions of Database, whose own guard it needs. The versions here are sets of tables; levels are those of Database.
- LifecycleRuns.DurableSurvives: the guard holds at every step of the run; so it does in the other theorems of LifecycleRuns and of CrashMap. Errors that paranoid_checks reports for a damaged log are not modelled.
- CrashMap.RunReadsAsTale: besides, every crash of the run loses only tails; LifecycleRuns.CrashLeavesPrefixExactly says exactly when it does.
- CompactionLoop.DoCompactionWork: corrupt internal keys in the merged input, which the source passes through unchanged, are not modelled.
- Database.WriteKeeps: one write is one step here; the writer queue, the log and the insertion entry by entry are WriteQueue. A database whose sequence numbers are used up (2^56 writes) is not modelled.
- CompactionInputs.PickCompaction: which level is too big or which file was sought in vain too often is given (compaction scores and seek allowances are not modelled).
- LogReader.Reader.ReadRecord: reading from an initial offset, and the resynchronisation that goes with it, is not modelled; the database itself always reads from the start.
- LogReader.Reader.ReadPhysicalRecord: likewise; read errors of the file are not modelled.
- LogDamage.DamagedLogIsNotSpliced: the checksum is any function; damage is any set of physical records that it rejects.
- PbMessage.DecodeUndoesEncode: callbacks, extensions, pointer fields and fields with defaults given by pointers are not modelled; a message is a record over a descriptor list, so that memory layout does not appear.
- PbIStream.IStream.DecodeNoInit: extensions are not modelled.
- BlockIter.Iter.ParseNextKey: the iterator stands in a block that its builder finished; what it does in a corrupt block is not modelled.
- Tables.Open: compressed blocks and the block cache are not modelled; a file that no builder finished is answered by the error results of DecodeFooter and ReadBlock, and the method itself is for finished files.
- Tables.ReadMeta: of a file that a builder finished; its read errors are not modelled.
- Tables.Table.ReadDataBlock: compressed blocks, the block cache and read errors are not modelled.
- TableFormat.BlockReads: of a block that was written uncompressed; the results for damaged blocks are not part of it.
- Tables.Table.InternalGet: read errors of the environment are not modelled.
- TableBuilding.TableBuilder.Add: write errors of the environment, Abandon and ChangeOptions are not modelled.
- Bloom.CreateFilter: the hash is any function, and the number of probes comes in already rounded, since it is computed in floating point.
- VersionBuilder.Builder.Apply: seek allowances and reference counts of files, and the compaction pointers kept beside the builder, are not modelled.
- VersionBuilder.Builder.SaveTo: requires that no two files of a level have the same smallest key and number, as the fresh numbers of the database guarantee (VersionBuilder.OnceIsApart); Manifest.OneMoreExactly proves exactly what happens when a number comes back. The debug check that files of a level do not overlap is not part of it; that they do not is Tree.FlushKeepsTree and Database.InstallKeeps.
- VersionRecovery.Recover: takes the records that the log reader returned, under the condition of SaveTo for the edits in them; the file CURRENT is not modelled.
- Cache.LRUCache.Insert: the destructor of the cache and the sixteen shards are not modelled; a shard is one LRUCache chosen by the high bits of the hash.
- SkipLists.SkipList.Insert: the height is a parameter, since it is drawn at random.
- SkipListReaders.SearchIsAtomic: loads and stores are atomic steps; memory orders are not modelled.
- WriteQueue.StepKeeps: MakeRoomForWrite is one step that succeeds or fails; its delays and waits are not modelled.
- WriteProgress.EveryoneLeaves: speaks of the steps of this protocol; that a wait for the background thread ends is not part of it.
- Size limits, seek-triggered compaction and compaction scores are parameters or arbitrary choices.
- DestroyDB, RepairDB, the C binding, the environment, file names, the info log and statistics are not modelled.
- The application code, BoringSSL, GTMSessionFetcher, SDWebImage and the Firebase headers are not modelled.

# LevelDB, modelled and proved

LevelDB keeps a pile of versioned entries, spread over memtables, level-0 tables, sorted
levels and logs, and it must always read like one plain map while background work drops,
moves and re-encodes those entries.  This project models that machinery in Dafny and
proves it.  `dafny verify dfyconfig.toml` checks everything.

## What is modelled

**The tree** (`Format`, `Version`, `Lsm*`, `Compaction`, `Builder`, `DbImpl`).  `Lsm.Next` is a
state machine over memtables, per-level file lists, snapshots and file numbers.  Its steps
are write, memtable switch, flush, trivial move, compaction, taking and releasing a
snapshot, and a crash with the reopening after it.  The state carries the history of
writes, which defines the plain map.  The loops that choose inputs, drop entries, cut
outputs and apply edits are methods that are proved to make such a step.

**Where reads fail, and exactly when.**  That Get returns the newest write in every run is
false of the code.  With a live snapshot a compaction may cut one user key between two
outputs; then a later step may take the newer half alone.  `LsmSplit.SplitKeyReadsStale`
and `LsmSplit.DeletedKeyReturns` are two such runs of public calls.  A step is *clean* if

- a file that stays at the upper input level holds an older version of a key of the upper
  inputs only if the newest input of the key is a deletion that the base-level rule drops
  (for a trivial move: never), and
- a deletion that is the newest version at the smallest snapshot, and that the base-level
  rule drops, does not uncover a value in the files that stay.

Both are conditions on the state before the step.  `LsmRuns.NextIff` and
`LsmRuns.RunsReadRightIff` show that reads are right in a run if and only if its steps are
clean, where right means: Get finds the newest stored version of every key at every
sequence, and from the smallest snapshot of the last compaction on that version answers
like the plain map.  Runs whose compactions start with no live snapshot are clean
(`LsmNoSnapshot.GetReturnsNewest`).  Sorted and disjoint levels hold in every run.

The same is proved for the reads that someone can make (`LsmPromised`): at the last sequence
and the live snapshots, or at every sequence from that smallest snapshot on.  There a step is
clean if no version that such a read sees goes below an older one that stays, unless the
base-level rule drops it, and if a deletion that the rule drops uncovers neither a value nor
a version that lies below an older one.

**The manifest** (`Builder`, `ManifestReplay`, `Manifest`, `ManifestRuns`, `ManifestBytes`).  One builder over
all edits does not always give what a version per edit gives
(`ManifestReplay.ReplayCanDiffer`).  Starting from the empty version, as recovery does, the
two agree at every prefix if and only if no edit adds a number that the version it applies
to holds (`ManifestReplay.ReplayIff`), given that a number stands for one file.  Every run
of the tree writes such a manifest, it can be encoded, and its bytes give the version back.

**Durability** (`Durability*`, `LsmOnDisk`).  The files on disk and the process that changes
them one file operation at a time: log append, acknowledgement, log switch, table write,
manifest append, CURRENT switch, file deletion, crash, and every step of recovery, which may
crash too.  `LsmOnDisk` ties single steps to it: a safe compaction of the tree passes its
guard, and its recovery is a reopening of the tree.

**Cursors** (`Cursor`, `Merging`, `DbIterator`, `IteratorReads`, `TwoLevel`, `BlockIter`).  Each
iterator is a class whose methods are proved against an index into a sorted list, for every
call sequence and every change of direction.

**Skip list** (`SkipList`).  One writer and any number of readers, interleaved at single
pointer loads and stores.

**Formats** (`Bytes`, `Coding`, `Crc32c`, `LogFormat`, `LogReader`, `WriteBatch`, `Block`,
`BlockIter`, `Keys`, `Filter`, `FilterBlock`, `TableFormat`, `Table`, `TableBuilder`).  Real bytes
and the loops over them.  CRC32C follows section 12.1 of RFC 3720.  What the log reader makes
of damaged files is stated on the physical records alone (`LogDamage`).  Known encodings and
check values fix what round trips cannot see (`KnownBytes`, `KnownChecksums`).

**Writer queue and cache** (`WriteQueue`, `Cache`).

## Hypotheses

- User keys are integers in the tree and the cursors, which only compare them; the format
  layers use byte strings with the bytewise comparator.
- Sequence numbers stay below the 56-bit maximum; the drop rule needs this of the smallest
  snapshot.
- Merging needs children whose internal keys are distinct; the tree's children are.
- Flush and compaction are whole steps of the tree.  In the durability model they are split
  into file operations.
- An append to a log or manifest is whole or missing after a crash.  `LogReader.TruncatedLog`
  is why a torn tail reads as a missing record.
- Loads and stores of the skip list are sequentially consistent.
- Lengths fit the 32-bit and 64-bit words they are stored in, and table files are shorter
  than 2^62 bytes.
- A file number stands for one file.

## Model

| member | source | states |
|---|---|---|
| Version.FindFile | leveldb_source_code/db/version_set.cc:84-104 | the binary search gives the first file whose largest key is not before the target, which a linear scan would give |
| Version.SomeFileOverlapsRange | leveldb_source_code/db/version_set.cc:123-163 | true if and only if some file meets the closed user-key range; scan (level 0) and binary search (sorted levels) agree, open ends included |
| Version.OverlapsIff | leveldb_source_code/db/version_set.cc:105-121 | a file and a closed range overlap if and only if some user key is in both |
| Version.GetOverlappingInputs | leveldb_source_code/db/version_set.cc:615-661 | ends despite its restarts; at level 0 the final range is the least one that contains the request and every file it touches, and the chosen files are exactly those; elsewhere the range never moves |
| Version.PickLevelForMemTableOutput | leveldb_source_code/db/version_set.cc:583-609 | the level is 0 if a file there meets the new table, and else the deepest one it can go down to: nothing on the way meets its range, and the files one level further down that meet it have few enough bytes |
| LsmReads.LevelGetReads | leveldb_source_code/db/version_set.cc:375-487 | one binary search and one file per sorted level find the newest visible version in the whole level, even if a key runs on from file to file |
| LsmReads.GetIsPlainMap | leveldb_source_code/db/db_impl.cc:1222-1275 | from the invariant of the tree: first-hit Get over memtables, level 0 and levels answers what a plain map that saw the writes up to the sequence answers |
| LsmExact.GetExactIff | leveldb_source_code/db/version_set.cc:375-487 | Get returns the newest stored version of every key at every sequence if and only if no file that is searched earlier holds an older version of a key than a file searched later |
| LsmDrops.JustDropsIff | leveldb_source_code/db/db_impl.cc:1040-1077 | entries dropped by the two rules leave every answer from the smallest snapshot on as it was if and only if no dropped deletion that reads at the snapshot see uncovers a value |
| LsmRuns.RuleA | leveldb_source_code/db/db_impl.cc:1044-1057 | the one-entry memory last_sequence_for_key drops an entry if and only if some newer input of its key is at or below the snapshot |
| LsmRuns.CompactAnswersIff | leveldb_source_code/db/db_impl.cc:973-1119 | after a compaction the stored entries answer right at and above the smallest snapshot if and only if its deletions were safe, a condition on the inputs and the files that stay |
| LsmRuns.CompactOrderIff | leveldb_source_code/db/version_set.cc:1551-1632 | after a compaction the levels are ordered as Get needs it if and only if the files left at the upper input level are newer than the outputs, and if and only if an older version stays there only for keys that vanish |
| LsmRuns.MoveIff | leveldb_source_code/db/db_impl.cc:784-795 | after a trivial move reads are right if and only if no file left at the level holds an older version of a moved key |
| LsmRuns.NextIff | leveldb_source_code/db/db_impl.cc:748-843 | for every step (write, switch, flush, move, compaction, snapshot, crash and reopen) from a state that reads right: the next state reads right if and only if the step is clean |
| LsmRuns.RunsReadRightIff | leveldb_source_code/db/version_set.cc:1487-1669 | over every run: reads are right in all states up to a point if and only if all steps up to there are clean |
| LsmRuns.GetOverRuns | leveldb_source_code/db/db_impl.cc:1222-1275 | in every state of a clean run, Get at the last sequence or at a live snapshot answers like the plain map |
| LsmPromised.GetExactAtIff | leveldb_source_code/db/version_set.cc:375-487 | at one sequence: Get finds the newest stored version of every key if and only if every newer version that lies below an older one is hidden there by a still newer visible version |
| LsmPromised.NextPromisedIff | leveldb_source_code/db/db_impl.cc:748-843 | for every step, and for readers at the last sequence and the live snapshots as well as for readers at every sequence from the floor on: these reads stay right if and only if the step is clean for them, a condition on the state before it |
| LsmPromised.RunsPromisedIff | leveldb_source_code/db/version_set.cc:1487-1669 | over every run, for both kinds of readers: their reads are right in all states up to a point if and only if all steps up to there are clean for them |
| LsmPromised.PromisedGet | leveldb_source_code/db/db_impl.cc:1222-1275 | right means that Get at such a sequence answers what a plain map that saw the writes up to it answers |
| LsmLevels.LevelsStayDisjoint | leveldb_source_code/db/version_set.cc:819-895 | over every run, clean or not, every level above 0 stays sorted and pairwise disjoint by internal key, and every stored entry is a write kept in one file |
| LsmNoSnapshot.NoSnapshotNoSplit | leveldb_source_code/db/db_impl.cc:1025-1115 | a compaction that starts with no live snapshot keeps at most one version of a key, so it cuts no key between two outputs |
| LsmNoSnapshot.KeysStayOnce | leveldb_source_code/db/db_impl.cc:973-1119 | in every run whose compactions start with no live snapshot (or cut no key) no user key lies in two files of a level above 0, and every step is clean |
| LsmNoSnapshot.GetReturnsNewest | leveldb_source_code/db/db_impl.cc:1222-1275 | in those runs Get answers like the plain map, always |
| LsmSplit.SplitKeyReadsStale | leveldb_source_code/db/db_impl.cc:621-636 | a run of fourteen steps after which Get returns an older value: a live snapshot, a key of two megabytes cut between two outputs, and the newer half compacted alone; flush levels, cuts and inputs are the ones that the rules of the code give for these sizes |
| LsmSplit.DeletedKeyReturns | leveldb_source_code/db/version_set.cc:1634-1669 | the same run with a deletion as the newer half: the compaction drops it at the base level and Get returns the deleted value |
| Compaction.SetupOtherInputs | leveldb_source_code/db/version_set.cc:1551-1632 | the lower inputs are exactly the files of the next level that the range of the picked files meets; the upper inputs are the picked files, unless a larger set meets no more lower files and is below the size limit, and then they are that set; at level 0 no overlapping file is left out |
| Compaction.PickCompaction | leveldb_source_code/db/version_set.cc:1487-1549 | a size compaction starts from the first file behind the compaction pointer, or from the first file if there is none behind it, a seek compaction from its file; the inputs grown from it are such inputs |
| Compaction.FirstBehindIs | leveldb_source_code/db/version_set.cc:1506-1521 | the file at the compaction pointer is the first that ends behind it, or the first of all if none does |
| Compaction.CutAtSizeIs | leveldb_source_code/db/version_set.cc:1646-1663 | before the total size reaches the limit nothing is cut, and where it does the rest is |
| Compaction.CompactRange | leveldb_source_code/db/version_set.cc:1634-1669 | a manual step exists if and only if a file of the level meets the range; above level 0 the list is cut behind the file with which its total size reaches the limit; the inputs grown from it are such inputs |
| Compaction.BaseLevelCursor.IsBaseLevelForKey | leveldb_source_code/db/version_set.cc:1711-1734 | for keys that never decrease the advancing cursors answer what a scan of all deeper levels answers |
| Compaction.DoCompactionWork | leveldb_source_code/db/db_impl.cc:973-1119 | the outputs hold, in order, exactly the merged entries that the two drop rules keep, each output is well formed, numbers rise; a table ends exactly where ShouldStopBefore asks for it or behind the entry with which it reaches the target size |
| Compaction.CutsAtTarget | leveldb_source_code/db/db_impl.cc:1109-1115 | where nothing asks to stop, every finished output has reached the target size and the open one has not |
| Compaction.CutsWhereAsked | leveldb_source_code/db/db_impl.cc:1025-1031 | where ShouldStopBefore asks for it the tables of the entries before stand, whatever follows |
| Builder.VersionBuilder.Apply | leveldb_source_code/db/version_set.cc:766-817 | deletions, then additions, level by level, as one function of the old state |
| Builder.VersionBuilder.SaveLevelTo | leveldb_source_code/db/version_set.cc:819-895 | the merge of base and added files gives the saved level, and the overlap assertion of MaybeAddFile holds at every file |
| ManifestReplay.ReplayAgrees | leveldb_source_code/db/version_set.cc:1098-1144 | all edits through one builder give the files that a version per edit gives, if no edit adds a number that the base or the version it applies to holds; numbers may leave a level and return |
| ManifestReplay.ReplayIff | leveldb_source_code/db/version_set.cc:1098-1144 | from the empty version: the two agree at every prefix if and only if no edit adds a number that the version it applies to holds |
| ManifestReplay.ReplayCanDiffer | leveldb_source_code/db/version_set.cc:766-815 | a file added twice is listed once by the single builder and twice by a version per edit |
| ManifestRuns.RunsKeepManifest | leveldb_source_code/db/version_set.cc:952-1056 | over every run the edits of the manifest in use (a snapshot first, after a reopening) meet that condition and lead to the levels of the version |
| ManifestRuns.ManifestGivesVersion | leveldb_source_code/db/version_set.cc:1058-1191 | in every state of every run, replaying the manifest through one builder gives each level of the version |
| ManifestRuns.RecoverFromBytes | leveldb_source_code/db/version_edit.cc:43-212 | the same from the bytes of any encodable edits of the run: read as a log, decoded edit by edit, applied through one builder |
| ManifestBytes.RunRecoversFromBytes | leveldb_source_code/db/version_edit.cc:43-212 | every run has such edits, whatever numbers and pointers the records also carry, if its file numbers and sizes fit 64 bits and its keys are written in a form that reads back; their bytes give every level of the version |
| Lsm.ReplayOps | leveldb_source_code/db/write_batch.cc:124-138 | the entries of a batch replay like its operations: a put sets its key and a delete removes it |
| DbImpl.Database.Write | leveldb_source_code/db/db_impl.cc:1316-1407 | a batch gets consecutive sequence numbers from the last one on, the plain map of the history changes as the puts and deletes of the caller say, and the invariant of the tree is kept |
| DbImpl.Database.CompactMemTable | leveldb_source_code/db/db_impl.cc:584-619 | the immutable memtable becomes a table at the level that PickLevelForMemTableOutput picks; the step is one of the state machine and keeps the invariant |
| DbImpl.Database.BackgroundCompaction | leveldb_source_code/db/db_impl.cc:748-843 | the inputs are those of the manual range, and there is no step if and only if no file meets it, or else those of the picked file; the step is a move if and only if nobody asked for a range, one upper and no lower input are left and the files further down are small, and else a compaction with outputs cut by the rules; the tree keeps its invariant if and only if the step is clean |
| DbImpl.Database.Get | leveldb_source_code/db/db_impl.cc:1222-1275 | the answer is that of a plain map that saw the puts and deletes of the callers up to the last sequence or to a live snapshot |
| DurabilityRuns.CrashSafety | leveldb_source_code/db/db_impl.cc:285-383 | in every state of every run, with crashes between any two file operations and during recovery: the manifest's tables exist, and with the logs from its log number on they read, at every promised sequence, like a plain map that saw the acknowledged writes and at most the group in flight |
| DurabilityRuns.AcknowledgedStays | leveldb_source_code/db/db_impl.cc:1316-1407 | the acknowledged history only grows, across crashes too |
| DurabilityRuns.OpenSequence | leveldb_source_code/db/db_impl.cc:1656-1719 | once open, the last sequence is the number of acknowledged writes, and no recovered entry is above it |
| DurabilityRuns.RecoveredInOrder | leveldb_source_code/db/db_impl.cc:385-526 | recovery writes its tables oldest first with rising numbers, all newer than the manifest's tables |
| DurabilityRecovery.RecoveryCompletes | leveldb_source_code/db/db_impl.cc:1656-1719 | from every state that a crash leaves, opening can run to its end, with the same history |
| DurabilityRecovery.WriteCompletes | leveldb_source_code/db/db_impl.cc:1340-1375 | in every open state a group can be logged and acknowledged, and then the history is longer by it |
| DurabilityRecovery.FlushCompletes | leveldb_source_code/db/db_impl.cc:584-619 | in every idle open state an immutable memtable can become a table of the version |
| DurabilityRecovery.CompactionCompletes | leveldb_source_code/db/db_impl.cc:947-971 | in every idle open state any tables of the version can be replaced by one with their entries |
| LsmOnDisk.CompactionIsJustified | leveldb_source_code/db/db_impl.cc:947-971 | a compaction of the tree whose deletions are safe passes the guard under which the durability model installs a compaction |
| LsmOnDisk.RecoveryIsReopen | leveldb_source_code/db/db_impl.cc:385-526 | in any run of the durability model, once all logs are replayed: if the tree is what the disk holds, the recovery is the reopening step of the tree and adds exactly the recovered tables |
| Merging.MergingIterator.Seek | leveldb_source_code/table/merger.cc:62-68 | the iterator stands on the first merged entry at or after the key |
| Merging.MergingIterator.Next | leveldb_source_code/table/merger.cc:70-110 | the iterator moves to the next entry of the sorted union, also right after moving backward |
| Merging.MergingIterator.Prev | leveldb_source_code/table/merger.cc:112-140 | the iterator moves to the entry before, also right after moving forward |
| Merging.MergingIterator.SeekToFirst | leveldb_source_code/table/merger.cc:46-52 | the first merged entry, or not valid |
| Merging.MergingIterator.SeekToLast | leveldb_source_code/table/merger.cc:54-60 | the last merged entry, or not valid |
| Merging.FindSmallest | leveldb_source_code/table/merger.cc:184-197 | a child with the least current key, or none if no child is valid |
| Merging.FindLargest | leveldb_source_code/table/merger.cc:199-212 | a child with the greatest current key, or none |
| DbIterator.DBIter.Next | leveldb_source_code/db/db_iter.cc:172-241 | the next key of the visible map, whatever the direction was |
| DbIterator.DBIter.Prev | leveldb_source_code/db/db_iter.cc:243-322 | the key before in the visible map, whatever the direction was |
| DbIterator.DBIter.Seek | leveldb_source_code/db/db_iter.cc:324-336 | the first key of the visible map at or after the target |
| DbIterator.Drive | leveldb_source_code/db/db_iter.cc:172-354 | under every sequence of calls the iterator shows what a cursor over the visible map shows |
| IteratorReads.IteratorIsPlainMap | leveldb_source_code/db/db_impl.cc:1180-1209 | over memtables, level-0 tables and sorted levels the visible map at a promised sequence is the plain map of the writes up to it |
| SkipList.LevelsStaySorted | leveldb_source_code/db/skiplist.h:387-428 | after every single pointer store and load of every run each level is a rising list of exactly its members, and each level's members are members of the level below |
| SkipList.SearchIsExact | leveldb_source_code/db/skiplist.h:307-330 | a finished search, interleaved with inserts at the grain of loads and stores, returned the least key at or after its bound and the greatest before it among the nodes listed at its last load, which include all listed when it began |
| SkipList.ListedKeyIsFound | leveldb_source_code/db/skiplist.h:431-439 | a key that was listed when Contains began is found |
| SkipList.InsertedIsListed | leveldb_source_code/db/skiplist.h:415-428 | when Insert is done its node is linked at every one of its levels |
| SkipList.SkipListObject.Find | leveldb_source_code/db/skiplist.h:307-372 | one loop behind FindGreaterOrEqual, FindLessThan and FindLast: both neighbours of the bound, and where the search left each level |
| SkipList.SkipListObject.Insert | leveldb_source_code/db/skiplist.h:387-428 | the key joins the list, every level stays sorted, and nothing else changes |
| LogFormat.Writer.AddRecord | leveldb_source_code/db/log_writer.cc:36-84 | appends exactly the fragments of the record, zero-filled block tails included, and keeps the block offset |
| LogReader.LogRoundTrip | leveldb_source_code/db/log_reader.cc:62-198 | every list of records of any lengths reads back, with no corruption report |
| LogReader.TruncatedLog | leveldb_source_code/db/log_reader.cc:215-314 | a log cut at any byte reads as exactly the records wholly inside, with no report |
| LogReader.ReopenedWriter | leveldb_source_code/db/log_writer.cc:28-31 | a writer reopened at the current length writes the bytes it would have written had it never been closed |
| LogReader.Reader.ReadOneRecord | leveldb_source_code/db/log_reader.cc:62-198 | on any bytes: the record, the reports and the place that the declarative reader gives; a fragment of type 5 or 6 is taken for the end or for a dropped fragment, as in the code |
| LogReader.Reader.ReadPhysicalRecord | leveldb_source_code/db/log_reader.cc:215-314 | on any bytes: the fragment with its raw type byte, the end or the kind of damage that the declarative reader gives |
| LogReader.Reader.ReadToEnd | leveldb_source_code/db/log_reader.cc:62-198 | reading to the end yields the records and the number of reports of the declarative reader |
| LogDamage.PhysicalIs | leveldb_source_code/db/log_reader.cc:215-314 | on any bytes: a fragment is read if and only if the bytes a writer would write stand there; the end if and only if what stands there runs over the end of a last block; all else is damage, which gives up the rest of the block, reported unless it is zero padding |
| LogDamage.ReadsFirstRecord | leveldb_source_code/db/log_reader.cc:62-198 | on any bytes: the record returned is the joined payload of the first run of fragments that is one FULL or FIRST, MIDDLE and LAST with nothing between, and there is none if and only if there is no such run |
| LogDamage.ReadsAllRecords | leveldb_source_code/db/log_reader.cc:62-198 | on any bytes: reading to the end yields exactly these runs in order, and the reports are those of damage, of begun records that do not go on, and of pieces that continue nothing |
| Crc32c.ExtendFast | leveldb_source_code/util/crc32c.cc:286-329 | for every length and alignment, the loops over four and sixteen bytes give the bit-by-bit checksum |
| Crc32c.ExtendAppend | leveldb_source_code/util/crc32c.cc:286-329 | extending by one piece after another is extending by both together, as the precomputed type checksums need it |
| Crc32c.WordStepIs | leveldb_source_code/util/crc32c.cc:292-306 | four table lookups on a word are four byte steps |
| Crc32c.TableBasis | leveldb_source_code/util/crc32c.cc:16-81 | the table of the recurrence has the listed constants at the powers of two |
| KnownChecksums.ValueOfZeros | leveldb_source_code/util/crc32c_test.cc:13-18 | the checksum of 32 zero bytes is the one of section B.4 of RFC 3720 |
| KnownChecksums.ValueOfOnes | leveldb_source_code/util/crc32c_test.cc:20-21 | the checksum of 32 bytes 0xff is the one of section B.4 of RFC 3720 |
| KnownBytes.Masks | leveldb_source_code/util/crc32c.h:37-47 | known masked checksums |
| KnownBytes.FooLog | leveldb_source_code/db/log_writer.cc:86-110 | the ten bytes of a log with one record |
| KnownBytes.DocumentedLog | leveldb_source_code/doc/log_format.txt:39-55 | the example of the log format: the pieces of three records and the six zero bytes between them |
| Crc32c.UnmaskMask | leveldb_source_code/util/crc32c.h:37-55 | unmasking undoes masking |
| Coding.EncodeVarint32 | leveldb_source_code/util/coding.cc:51-77 | the unrolled encoder writes the seven-bit groups, low ones first |
| Coding.EncodeVarint64 | leveldb_source_code/util/coding.cc:86-95 | the loop writes the seven-bit groups, low ones first |
| Coding.DecodeLoop | leveldb_source_code/util/coding.cc:118-165 | the decoding loop gives the number of at most so many bytes and the rest, or an error, on any bytes |
| Coding.VarintRoundTrip | leveldb_source_code/util/coding.cc:118-178 | decoding an encoded number in front of anything gives the number and the rest |
| Coding.PrefixedRoundTrip | leveldb_source_code/util/coding.cc:180-201 | decoding a length-prefixed string in front of anything gives the string and the rest |
| Coding.VarintIs | leveldb_source_code/util/coding.cc:51-95 | an encoded number is the weighted sum of its bytes, of which the last alone lacks the high bit |
| Coding.DecodeIs | leveldb_source_code/util/coding.cc:118-178 | on any bytes the number is the weighted sum up to the first byte without the high bit |
| Coding.DecodeFails | leveldb_source_code/util/coding.cc:118-178 | without such a byte among those allowed decoding fails |
| Coding.PrefixedIs | leveldb_source_code/util/coding.cc:180-201 | on any bytes a string is read if and only if its length decodes and so many bytes follow |
| KnownBytes.FixedNumbers | leveldb_source_code/util/coding_test.cc:55-76 | fixed-width numbers are little-endian |
| KnownBytes.KnownBlock | leveldb_source_code/table/block_builder.cc:69-125 | the bytes of a block of two entries: shared prefix left out, restart array and count |
| Block.FastPathAgrees | leveldb_source_code/table/block.cc:66-92 | the one-byte fast path reads the same lengths as full varint decoding |
| Block.ParsesEntry | leveldb_source_code/table/block.cc:261-295 | at each entry of a finished block, parsing with any key that shares the prefix yields the entry's key and value |
| BlockIter.BlockBuilder.Add | leveldb_source_code/table/block_builder.cc:79-125 | the buffer is the encoding of all that was added, with restart points every interval entries |
| BlockIter.BlockBuilder.Finish | leveldb_source_code/table/block_builder.cc:69-77 | the finished bytes are entries, restart array and count |
| BlockIter.Iter.Seek | leveldb_source_code/table/block.cc:195-236 | the first entry whose key is not before the target, for any comparator |
| BlockIter.Iter.Prev | leveldb_source_code/table/block.cc:172-193 | the entry before, at every position, although the restart index may lag behind |
| BlockIter.Iter.Next | leveldb_source_code/table/block.cc:167-170 | the entry after |
| BlockIter.Iter.SeekToLast | leveldb_source_code/table/block.cc:244-250 | the last entry, or not valid |
| BlockIter.Scan | leveldb_source_code/table/block.cc:238-295 | walking a finished block returns the list that was added |
| Keys.SeparatorBetween | leveldb_source_code/util/comparator.cc:31-54 | the shortened key is never longer, lies between start and limit, and a start not before the limit is left alone |
| Keys.SeparatorShortest | leveldb_source_code/util/comparator.cc:31-54 | where the first different bytes leave room the key is shortened, and no key from start on and before limit is shorter; elsewhere it stays |
| Keys.SuccessorLater | leveldb_source_code/util/comparator.cc:57-70 | the short successor is never longer and not before the key; it is the key only if all bytes are 0xff |
| Keys.SuccessorShortest | leveldb_source_code/util/comparator.cc:57-70 | no key that is not before the key is shorter than its successor |
| Keys.InternalOrderIs | leveldb_source_code/db/dbformat.cc:51-67 | of two internal keys the one with the smaller user key comes first, and of the same user key the one with the larger tag |
| Keys.InternalShortens | leveldb_source_code/db/dbformat.cc:70-102 | an index key is shortened exactly if its user key is |
| KnownBytes.KnownInternalKey | leveldb_source_code/db/dbformat.cc:12-21 | the bytes of an internal key |
| Keys.InternalIsOrder | leveldb_source_code/db/dbformat.cc:51-67 | user key ascending and tag descending is a strict weak order on byte strings |
| Keys.InternalSeparatorBetween | leveldb_source_code/db/dbformat.cc:70-88 | an index key is the last key itself, or has a user key strictly between its neighbours with the tag that comes first |
| Keys.InternalSuccessorLater | leveldb_source_code/db/dbformat.cc:90-102 | the key of the last index entry is the last key itself, or has a larger user key with the tag that comes first |
| Filter.DeltaIsRotation | leveldb_source_code/util/bloom.cc:70-82 | the step between probes is the hash rotated right by 17 bits |
| Filter.ProbeIs | leveldb_source_code/util/bloom.cc:70-82 | probe j is the hash plus j steps, modulo 2^32 |
| Filter.BloomShape | leveldb_source_code/util/bloom.cc:33-69 | the number of bytes and of probes that the bits per key give, with their bounds |
| Filter.BloomReserved | leveldb_source_code/util/bloom.cc:87-101 | filters without a probe count deny every key, and counts above 30 let every key through |
| KnownBytes.KnownBloom | leveldb_source_code/util/bloom.cc:48-85 | the bytes of the filter of one hash |
| Filter.BloomExact | leveldb_source_code/util/bloom.cc:48-113 | a key is let through if and only if each of its probes is a probe of some key that was added |
| Filter.BloomKeepsKeys | leveldb_source_code/util/bloom.cc:48-113 | no key of the list is denied |
| Filter.CreateFilter | leveldb_source_code/util/bloom.cc:48-85 | the loops over keys and probes set exactly those bits in the array |
| Filter.BloomKeyMayMatch | leveldb_source_code/util/bloom.cc:87-113 | the early-exit loop gives the answer of all probes, on any bytes |
| FilterBlock.FilterBlockBuilder.StartBlock | leveldb_source_code/table/filter_block.cc:30-39 | filters are made up to the one of the new offset; the pending keys go to the first of them |
| FilterBlock.FilterBlockBuilder.Finish | leveldb_source_code/table/filter_block.cc:49-96 | for every policy, offset and key the reader asks exactly the filter made from the keys of that offset, and lets through behind the last filter |
| FilterBlock.AddedIsFound | leveldb_source_code/table/filter_block.cc:98-136 | a key added for the block at an offset is let through at that offset, for any policy without false negatives |
| FilterBlock.StartKeeps | leveldb_source_code/table/filter_block.cc:30-39 | starting a block moves no key to another filter |
| FilterBlock.AddKeeps | leveldb_source_code/table/filter_block.cc:42-46 | a key is in the filter of the block that it was added for, and in no other |
| FilterBlock.MalformedPasses | leveldb_source_code/table/filter_block.cc:98-136 | what cannot be a filter block denies nothing |
| KnownBytes.KnownFilterBlock | leveldb_source_code/table/filter_block_test.cc:46-49 | the bytes of an empty filter block |
| KnownBytes.KnownFilterBlockOfOne | leveldb_source_code/table/filter_block.cc:49-66 | the bytes of a filter block with one filter |
| FilterBlock.BloomIsPolicy | leveldb_source_code/util/bloom.cc:48-113 | the bloom policy is one, whatever the hash |
| TwoLevel.TwoLevelIterator.Seek | leveldb_source_code/table/two_level_iterator.cc:93-98 | the first entry at or after the target in the concatenation of the blocks, empty blocks included |
| TwoLevel.TwoLevelIterator.Next | leveldb_source_code/table/two_level_iterator.cc:114-142 | the next entry of the concatenation, across block ends and empty blocks |
| TwoLevel.TwoLevelIterator.Prev | leveldb_source_code/table/two_level_iterator.cc:122-155 | the entry before, across block starts and empty blocks |
| TwoLevel.TwoLevelIterator.SeekToLast | leveldb_source_code/table/two_level_iterator.cc:107-112 | the last entry of the concatenation |
| TwoLevel.TwoLevelIterator.InitDataBlock | leveldb_source_code/table/two_level_iterator.cc:162-178 | the data iterator is over the block of the current index value, reused only for the same handle |
| Table.IndexFences | leveldb_source_code/table/table_builder.cc:95-150 | the shortened index keys fence the blocks as the two-level iterator needs it, and the iterator walks all entries of the table in order |
| Table.InternalGet | leveldb_source_code/table/table.cc:277-318 | on the bytes of the file: what is handed to the saver is the first entry at or after the target, and it is handed over whenever it has the target's user key, filter or not |
| TableFormat.StoredReads | leveldb_source_code/table/format.cc:87-140 | a block that was written with its trailer is read back, checksum verified or not |
| TableFormat.ReadsStored | leveldb_source_code/table/format.cc:87-140 | with verification a block is read if and only if it stands there with the trailer that a writer would write |
| KnownBytes.KnownTrailer | leveldb_source_code/table/table_builder.cc:191-210 | the bytes of the trailer of a block |
| TableFormat.FooterHasMagic | leveldb_source_code/table/format.cc:50-74 | nothing is a footer that does not end with the magic number |
| KnownBytes.KnownFooter | leveldb_source_code/table/format.cc:34-48 | the bytes of a footer |
| TableFormat.FooterRoundTrip | leveldb_source_code/table/format.cc:34-74 | the footer reads back as the two handles |
| TableBuilder.TableBuilder.Add | leveldb_source_code/table/table_builder.cc:95-130 | one more entry at the end; the block is flushed if and only if its size reaches the block size; the pending index entry gets the separator of the two keys; blocks, index and filter groups stay consistent |
| TableBuilder.TableBuilder.Flush | leveldb_source_code/table/table_builder.cc:132-150 | the pending entries become a stored block and the filter starts at the new offset |
| TableBuilder.TableBuilder.Finish | leveldb_source_code/table/table_builder.cc:222-291 | the file is a table of exactly the entries added, with filter, metaindex, index and footer |
| TableBuilder.FilterMadeIsOk | leveldb_source_code/db/dbformat.cc:109-123 | the finished filter lets every entry of every block through, by user key |
| TableBuilder.Get | leveldb_source_code/table/table.cc:45-172 | opening the bytes and looking up answers like a linear search, whatever filter policy the table is opened with |
| Manifest.EditRoundTrip | leveldb_source_code/db/version_edit.cc:43-212 | decoding an encoded edit into a fresh one gives the edit |
| Manifest.DecodeApplies | leveldb_source_code/db/version_edit.cc:111-212 | bytes that are fields one after the other decode, and the fields are applied in order |
| Manifest.DecodedStand | leveldb_source_code/db/version_edit.cc:111-212 | what decodes is fields one after the other, so nothing else decodes |
| KnownBytes.KnownEdit | leveldb_source_code/db/version_edit.cc:15-26 | the tag and the bytes of each field |
| KnownBytes.KnownOrder | leveldb_source_code/db/version_edit.cc:43-87 | the order of the fields |
| Manifest.ManifestRoundTrip | leveldb_source_code/db/version_edit.cc:43-212 | a manifest reads back as the edits that were logged, without a report |
| Manifest.EncodeTo | leveldb_source_code/db/version_edit.cc:43-87 | the fields are appended in the order and with the tags of the format |
| Manifest.DecodeFrom | leveldb_source_code/db/version_edit.cc:111-212 | on any bytes: the edit, or an error, that field-by-field decoding gives |
| WriteBatch.BatchRoundTrip | leveldb_source_code/db/write_batch.cc:51-88 | iterating a batch hands over exactly its updates in order |
| WriteBatch.GetOpIs | leveldb_source_code/db/write_batch.cc:58-82 | on any bytes one update is a type byte, 1 or 0, and the strings of its kind |
| WriteBatch.IterateIs | leveldb_source_code/db/write_batch.cc:51-88 | on any bytes the updates that stand at the front are handed over up to the end or up to what is no update |
| WriteBatch.WellFormedIff | leveldb_source_code/db/write_batch.cc:51-88 | a batch is well formed if and only if it has a header and its count is the number of the updates that fill the rest |
| KnownBytes.KnownBatch | leveldb_source_code/db/write_batch.cc:5-14 | the bytes of a batch of two updates |
| WriteBatch.Iterate | leveldb_source_code/db/write_batch.cc:51-88 | on any bytes: the updates handed over before the end or an error, and the status; a wrong count is noticed only at the end |
| WriteBatch.Batch.Append | leveldb_source_code/db/write_batch.cc:162-166 | the updates of the other batch follow, and the header counts both |
| WriteBatch.Batch.InsertInto | leveldb_source_code/db/write_batch.cc:149-155 | the memtable gets the updates in order under consecutive sequence numbers |
| WriteBatch.InsertedAt | leveldb_source_code/db/write_batch.cc:124-138 | entry i is update i under sequence number first + i, with its type and value |
| WriteQueue.BuildBatchGroup | leveldb_source_code/db/db_impl.cc:1409-1460 | the group is the longest run from the front that fits: it stops only before a sync write under a leader without sync or a batch that would exceed the size, which is a megabyte, or 128 kilobytes more than a small first batch |
| WriteQueue.Queue.Lead | leveldb_source_code/db/db_impl.cc:1333-1352 | the front writer leads the group that BuildBatchGroup builds, in the shared batch if more than its own is in it; a flush request leads alone |
| WriteQueue.Queue.Finish | leveldb_source_code/db/db_impl.cc:1358-1407 | the group's writers complete, in arrival order, and their batches are applied under consecutive sequence numbers; the queue invariant holds while others enqueue |
| WriteQueue.Queue.Enqueue | leveldb_source_code/db/db_impl.cc:1316-1330 | a writer joins the back, also while a leader is writing |
| WriteQueue.ConsecutiveRanges | leveldb_source_code/db/db_impl.cc:1340-1375 | each completed batch has its own range of sequence numbers right behind those of the writers before it, counted from the last sequence at opening |
| Cache.HandleTable.Insert | leveldb_source_code/util/cache.cc:88-107 | the table holds the new node instead of the one of its key, through resizes |
| Cache.HandleTable.Remove | leveldb_source_code/util/cache.cc:109-117 | the node of the key leaves, no other |
| Cache.HandleTable.Resize | leveldb_source_code/util/cache.cc:142-173 | the same nodes in at least as many buckets as elements |
| Cache.LRUCache.Insert | leveldb_source_code/util/cache.cc:290-332 | the new handle is newest, the old handle of the key leaves, the oldest are evicted in order and only while over capacity, and exactly what leaves and nobody holds is deleted, once |
| Cache.LRUCache.Lookup | leveldb_source_code/util/cache.cc:265-281 | the handle of the key becomes newest and is held once more; nothing else moves |
| Cache.LRUCache.Release | leveldb_source_code/util/cache.cc:283-288 | the deleter runs exactly if the handle has left the cache and this was the last reference |
| Cache.LRUCache.Erase | leveldb_source_code/util/cache.cc:334-341 | the handle of the key leaves the cache; it is deleted if nobody holds it |
| Cache.LRUCache.Prune | leveldb_source_code/util/cache.cc:343-354 | only handles that callers hold stay, in their order, and exactly the others are deleted |

## Left out

- The memtable flush in the middle of a running compaction: flush and compaction are whole steps, so the level invariants are not claimed for that interleaving.
- Reuse of logs and of the manifest when opening (off by default), and the old prev_log_number.
- Input/output errors, paranoid checks, bg_error_ and MaybeIgnoreError.
- Compaction scores, allowed seeks, read samples, byte counts of tables being built and ShouldStopBefore: they enter as parameters, so every choice they may make is covered.
- Compression: blocks are stored uncompressed, and a compressed block reads as an error.
- The block cache and the table cache as callers of the cache: blocks are read from the file each time; cache shards are not modelled.
- Corrupted blocks: `ParseNext` and `FindRestart` of the block iterator are stated on any bytes, the other methods on blocks that a builder finished.
- Corrupted tables: lookup is stated on files that a table builder finished; truncated or foreign files only in the total reading functions.
- Internal keys that do not parse: entries of the tree always have a user key, a sequence number and a type.
- The encoding of memtable entries and lookup keys; the memtable is the sorted list that the skip list keeps, and the height of a new node is a parameter.
- Weak memory: the barriers of the skip list's atomic pointers are not modelled.
- The bloom hash function and the hash of the cache: any function. The number of probes uses the integer 69/100 for the factor 0.69.
- The flattened key buffer of the filter block builder: a list of keys.
- Reading a log from an initial offset other than zero, and the byte counts of corruption reports; their number is modelled.
- Raw pointers, reference counts of versions and files, arenas, mutexes and condition variables: objects, sequences and steps.
- DBIter::Seek, merging and two-level iterators with a failing child: status codes are not modelled.
- The repairer, dump tools, the C binding, benchmarks, statistics and logging.
- WriteQueue.BuildBatchGroup: bounds the size only of groups that were merged, because a single large batch is written as it is; a request to flush (a writer without a batch) in the middle of the queue is passed over in a group without flushing, as the code does.
- WriteQueue.Queue.Enqueue: assumes that waiting writers are distinct objects.
- ManifestReplay.ReplayAgrees: on a non-empty base the condition is sufficient only; recovery starts from the empty version, where it is exact.
- LsmOnDisk.RecoveryIsReopen: takes as given that the tree is what the disk holds, and the sorted level-0 list, because the durability model keeps tables as sets of entries; no theorem over whole runs joins the tree and the disk, because compactions are whole steps of the tree while those of the disk are interleaved with writes and log switches.
- LsmOnDisk.CompactionIsJustified: one step; that the tree is what the disk holds is taken as given.
- LsmRuns.RunsReadRightIff: asks for right reads at every sequence; LsmPromised.RunsPromisedIff asks only for those that readers can make.
- Builder.VersionBuilder.Apply: does not model compaction pointers and allowed_seeks; no result reads them.
- Crc32c.TableBasis: compares only the constants at the powers of two of the first table, which fix all tables by linearity.

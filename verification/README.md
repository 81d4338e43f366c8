# InfraLens in Dafny

A model of the three cores of InfraLens, an observability store, and proofs about it:

- **Storage** (`Bytes`, `Wal`, `Bloom`, `Sorting`, `MemTable`, `ZoneMap`, `Partition`, `Engine`,
  `Buffering`, `Conservation`, `Invariants`, `Restarts`, `StorageEngine`, `Shutdown`): the write-ahead
  log down to its bytes, the Bloom filter, the in-memory table, zone maps, and the engine as a state
  machine whose writer, flush worker and compaction worker interleave step by step over the files in
  its directories.
- **Query** (`Ast`, `Lexer`, `Parser`, `Descent`, `Frontend`, `Grammar`, `Statements`, `Printer`,
  `Copilot`, `Guarantee`, `Utf8`, `Bytewise`, `Generation`, `Spellings`, `Like`, `Evaluate`, `Folding`, `Rowwise`, `Plans`,
  `Values`, `Operators`, `Ordering`, `Scans`, `Pruning`, `Statistics`, `Queries`, `Limits`, `Answers`,
  `Retrieval`): IQL from its bytes to
  the batches that answer a statement, and the grammar from which a language model writes IQL.
- **Cluster** (`Ring`, `Membership`): the consistent-hash ring under membership events.

Code that updates things in place is a class or a method with loops, proved against a function;
the theorems are about those functions. `dafny verify dfyconfig.toml` checks everything.

## The main results

- *Conservation* (`Invariants.EveryRunHolds`, `Conservation.ConservedMeaning`): in every state of
  every interleaving, accepted rows are exactly the rows in memory, in SSTables, in a running
  compaction, dropped, or orphaned by a failed compaction. `Invariants.DropsExactly` says, before
  the step, which steps drop rows.
- *Files and restarts* (`Restarts.EveryHistoryHolds`, `Restarts.RestartExactly`): through every history
  of runs and stops the numbers of listed tables, running inputs, orphans and torn files stay distinct
  and below the next one, deletion by number removes only inputs, and the files hold exactly the rows
  the engine has on disk. Starting again doubles no row exactly if no compaction stood between
  registering and deleting and none has failed to delete.
- *Write, then read* (`Retrieval.WriteThenRead`): in a sound state at rest, `SELECT *` answers with the
  accepted rows less the dropped and orphaned ones.
- *Closing* (`Shutdown.ClosingSavesExactly`): a decodable row is saved exactly if none of it is still
  queued and no flush that held it failed.
- *End to end* (`Queries.EndToEnd`): folding, pushdown, pruning and the scan limit together answer
  a single-table statement with the rows of its plain reading, although single rewrites change
  meaning. Where it fails the exact conditions are `Limits.OffsetExactly`, `Limits.OffsetPerLoad`,
  `Limits.OrderedLimitExactly`, `Limits.LostWhereExactly`, `Queries.OffsetAloneExactly`,
  `Queries.FoldingExactly` and `Pruning.PrunedExactly`.
- *Meaning of the clauses* (`Values.ComparisonSelects`, `Answers.ComparisonAnswered`,
  `Answers.OrderedAnswer`, `Answers.GroupedAnswer`, `Answers.OffsetAnswer`): what WHERE, ORDER BY,
  grouping with HAVING, and LIMIT with OFFSET answer, told from stored values and the statement.
- *Vectorisation* (`Rowwise.Vectorised`): the columnar evaluator computes what an evaluator of
  single rows computes, so batch boundaries do not matter.
- *Parsing* (`Statements.StatementsExactly`, `Grammar.ExpressionsExactly`): the recursive descent
  accepts exactly an unambiguous grammar. `Printer.ParseInvertsPrint` and `Printer.PrintIsLeast`
  give an inverse with as few parentheses as possible.
- *The generation grammar* (`Generation.ReadBackExactly`, `Generation.PromiseExactly`): with
  identifiers as names, the bytes of a derived statement are read back as what it says exactly if it
  fits and its string literals are ASCII; and identifiers as names are exactly what that takes.
- *Crash safety* (`Wal.RecoverExactly`, `Wal.CrashSafety`, `Wal.ReopenExactly`): recovery of any file
  whatever, with the first bad checksum named; of a log cut at any byte; and of
  what is appended to it afterwards: nothing appended is ever lost exactly if the cut was between
  two frames.
- *Convergence* (`Membership.ConvergesIffCollisionFree`): the ring is a function of the live
  members exactly if no two positions collide.
- *LIKE* (`Like.LikeIsSqlExactlyWhenFaithful`): exactly which patterns mean what section 8.5 of
  SQL-92 says.

## Assumptions

- Hashes and the checksum are functions of which nothing is assumed (`hash64`, `sip_hash`, CRC-32).
  bincode is a record's size and whether it decodes.
- Integer widths are written out where they matter: 64-bit literals, wrapping interval products
  and casts, u64 byte lengths, the u32 length field of the log. Counters that grow by one
  (sequence numbers, row counts, sizes) are unbounded. Unchecked arithmetic wraps, as in the release
  build the Dockerfile makes.
- `f64` is `real`; its arithmetic is a parameter. The lexer works on bytes, which are characters
  below 256; `Utf8.Encode` gives the bytes of a text.
- `now()` is one value per query. Functions other than `now`, the sort kernel, grouping, the order in
  which a directory is listed and the value stored under a null are parameters. Whether an SSTable can
  be written, leaves a torn zone map, can be read, or can be removed is an input of each step.
- One writer: a record's write is one step, and no flush of all memtables runs inside it. There is
  one flush worker and one compaction worker. A stop with a file half written is a failed write with
  a torn zone map, then the stop.
- `compare_arrays` has no pair of an unsigned and a signed array, while timestamps are unsigned and
  literals signed. `Env.widen` says whether such a pair compares as integers. All results hold for
  both settings; `Pruning.TimePredicatesFail` says what the absence of the pair means.

## Where the code departs from its description

The model follows the code.

- `recover` is described as stopping at a checkpoint and at the first corruption. It goes on after
  a checkpoint, forgetting what came before, and answers a checksum mismatch with an error.
- `fold_constants` is described as folding intervals. An interval is not an integer literal to it,
  so `now() - interval '1 hour'` is not folded and gives no time range.
- `extract_time_range` takes the start of the left and the end of the right conjunct rather than
  intersecting them.
- A replica count of 0 still gives one node.
- The generation grammar is described as guaranteeing valid IQL; `Generation.PromiseExactly`,
  `Generation.ReadBackExactly` and `Bytewise.DerivedBytesRead` give the conditions.
- A string literal is read byte by byte, each byte as a character, so that a letter outside ASCII
  becomes several (`Generation.AccentIsMisread`).
- Closing is described as giving the workers time to drain. It returns after a fixed time, drained or
  not, and failed flushes are logged only.
- Opening a log leaves a torn frame at its end in place, and appends behind it.
- Compaction writes a Bloom filter into which it has inserted nothing.

## Model

| member | source | states |
|---|---|---|
| `Ring.PrimaryIsNearestClockwise` | crates/infralens-cluster/src/ring.rs:69-81 | the primary owns the position at the least clockwise distance from the key, wrapping past the top; an empty ring is an error |
| `Ring.ConsistentHashRing.AddNode` | crates/infralens-cluster/src/ring.rs:49-56 | the loop over virtual nodes leaves exactly the old positions overridden by the node's |
| `Ring.ConsistentHashRing.RemoveNode` | crates/infralens-cluster/src/ring.rs:59-66 | the loop leaves exactly the positions that are not the node's hashes, whoever owned them |
| `Ring.ConsistentHashRing.ReplicaNodes` | crates/infralens-cluster/src/ring.rs:84-99 | the two-pass loop with early exit gives the first `count` distinct nodes of the clockwise walk |
| `Ring.AddMovesOnlyToNewNode` | crates/infralens-cluster/src/ring.rs:49-81 | adding a node changes a key's primary only to the new node, even with colliding positions |
| `Ring.RemovalIsExact` | crates/infralens-cluster/src/ring.rs:59-66 | removal takes away just the node's positions if and only if none of its hashes is owned by another node |
| `Ring.RemoveUndoesAdd` | crates/infralens-cluster/src/ring.rs:49-66 | removing what was added restores the ring if and only if the node's positions were free |
| `Ring.PreferenceWithout` | crates/infralens-cluster/src/ring.rs:84-99 | the preference order of a ring without a node is the old order with that node struck out |
| `Ring.AddKeepsReplicas` | crates/infralens-cluster/src/ring.rs:49-99 | with free positions the new replica list without the new node is a prefix of the old list |
| `Ring.RemoveKeepsReplicas` | crates/infralens-cluster/src/ring.rs:59-99 | the mirror image for removal |
| `Ring.ReplicaListShape` | crates/infralens-cluster/src/ring.rs:84-99 | the replica list has no repetition, has the wanted length capped by the number of nodes, and begins with the primary |
| `Ring.CollisionBreaksRemoval` | crates/infralens-cluster/src/ring.rs:59-66 | a colliding position lets the removal of one node take another node's position away |
| `Membership.TrimRecoversId` | crates/infralens-cluster/src/membership.rs:184-190 | stripping the key prefix recovers a node id if and only if the id does not begin with the prefix itself |
| `Membership.ClusterView.OnEvent` | crates/infralens-cluster/src/membership.rs:172-193 | one Put or Delete moves both the node list and the ring as the specification of events says |
| `Membership.ClusterView.Watch` | crates/infralens-cluster/src/membership.rs:169-199 | the watch loop is the fold of its events |
| `Membership.RingTracksRegistry` | crates/infralens-cluster/src/membership.rs:155-200 | without collisions the ring is, after any history, the positions of the live nodes and no others |
| `Membership.NodesAreTheRegistry` | crates/infralens-cluster/src/membership.rs:155-200 | after any history the node list has unique ids and holds exactly the latest record of each live node |
| `Membership.LoadThenWatch` | crates/infralens-cluster/src/membership.rs:136-200 | a load followed by events has the ring of the load's nodes as Puts and then the events, and its node list if and only if the events leave no id that was loaded twice |
| `Membership.ConvergesIffCollisionFree` | crates/infralens-cluster/src/membership.rs:155-200 | any two histories with the same live nodes give the same ring if and only if no two nodes share a position |
| `Membership.RouteIsReplicaList` | crates/infralens-cluster/src/router.rs:37-59 | a routing decision is the replica list, primary first, for every replication factor including 0, and local exactly if the primary is this node; an empty ring stays local |
| `Membership.SameMembersRouteAlike` | crates/infralens-cluster/src/router.rs:37-59 | views with the same live nodes route every key alike, and the ring's nodes are the registry's, or none without virtual nodes |
| `Bytes.LeRoundTrip` | crates/infralens-storage/src/wal.rs:56-59 | little-endian bytes give back the number modulo 256 to the width |
| `Bytes.LeInverse` | crates/infralens-storage/src/wal.rs:122-123 | every byte string is the encoding of the number it decodes to |
| `Bytes.LeDigits` | crates/infralens-storage/src/wal.rs:56-59 | the byte at place i counts 256 to the i |
| `Wal.FrameRoundTrip` | crates/infralens-storage/src/wal.rs:51-66 | a frame reads back as its entry, whatever follows, if and only if the payload is below 2^32 bytes |
| `Wal.FrameFields` | crates/infralens-storage/src/wal.rs:51-66 | a frame is checksum of type and data, length, type and data, little-endian |
| `Wal.ReadFrameExactly` | crates/infralens-storage/src/wal.rs:108-147 | in any byte string an entry is read if and only if its frame with the right checksum stands at the front and its payload is below 2^32 bytes |
| `Wal.CutFrame` | crates/infralens-storage/src/wal.rs:108-135 | a frame cut anywhere is recognised as torn, never misread |
| `Wal.RecoverExactly` | crates/infralens-storage/src/wal.rs:96-159 | every file is a log of frames and a rest; recovery gives the entries after the last checkpoint if the rest is torn, and otherwise an error with the offset of the frame whose checksum disagrees and both checksums |
| `Wal.RecoversIffTorn` | crates/infralens-storage/src/wal.rs:96-159 | recovery succeeds if and only if the file is a log of frames with a torn rest |
| `Wal.ChangeIsCaught` | crates/infralens-storage/src/wal.rs:138-145 | a changed type or payload under a checksum that tells them apart is an error at its offset, whatever follows |
| `Wal.Recover` | crates/infralens-storage/src/wal.rs:96-159 | the recovery loop computes the function that the results on recovery are about, error offset included |
| `Wal.Wal.Append` | crates/infralens-storage/src/wal.rs:51-66 | whatever file was opened, torn or not, the bytes become that file with the log of the entries appended so far behind it, and the offset returned is the old length |
| `Wal.Wal.Checkpoint` | crates/infralens-storage/src/wal.rs:77-80 | appends one checkpoint entry |
| `Wal.WholeFramesIsLargest` | crates/infralens-storage/src/wal.rs:108-135 | the number of whole frames in a truncation is the largest that fits |
| `Wal.ReplayMeaning` | crates/infralens-storage/src/wal.rs:149-155 | replaying keeps exactly the entries after the last checkpoint |
| `Wal.CrashSafety` | crates/infralens-storage/src/wal.rs:96-159 | for all appends and every truncation length recovery succeeds with exactly the entries after the last whole checkpoint among the whole frames |
| `Wal.ReopenExactly` | crates/infralens-storage/src/wal.rs:36-159 | a log cut anywhere, opened again and appended to is recovered with its whole frames and all later appends, whatever they are, if and only if the cut was between two frames |
| `Wal.CutInside` | crates/infralens-storage/src/wal.rs:36-66 | for every cut inside a frame, an entry whose append is lost |
| `Wal.OffsetsLocateFrames` | crates/infralens-storage/src/wal.rs:51-66 | each offset handed out is where that entry's frame reads back, however much follows |
| `Bloom.SetBitIsOr` | crates/infralens-storage/src/bloom.rs:29-35 | setting a bit sets that bit and no other |
| `Bloom.BloomFilter.Insert` | crates/infralens-storage/src/bloom.rs:29-35 | the loop on the byte array sets exactly the bits of the key's hashes, all within the array |
| `Bloom.BloomFilter.Contains` | crates/infralens-storage/src/bloom.rs:37-45 | the early-exit loop answers whether all of the key's bits are set |
| `Bloom.NoFalseNegatives` | crates/infralens-storage/src/bloom.rs:29-45 | every inserted key is reported present, whatever else is inserted |
| `Bloom.OnlyInsertedBits` | crates/infralens-storage/src/bloom.rs:29-35 | a bit is set if and only if it was set before or some inserted key hashes to it |
| `Bloom.ContainsExactly` | crates/infralens-storage/src/bloom.rs:29-53 | after inserts into an empty filter a key is reported present if and only if each of the bits it hashes to was hit by an inserted key |
| `Bloom.BytesSuffice` | crates/infralens-storage/src/bloom.rs:23 | the bytes hold the bits with less than a byte to spare |
| `Bloom.SerialisedRoundTrip` | crates/infralens-storage/src/bloom.rs:55-76 | decoding the encoded filter gives the filter, trailing bytes or not |
| `Bloom.CutFilterIsRejected` | crates/infralens-storage/src/bloom.rs:64-76 | an encoding cut anywhere is rejected |
| `Bloom.StoredFilterHasNoFalseNegatives` | crates/infralens-storage/src/bloom.rs:29-76 | no false negatives after a round trip through bytes |
| `Bloom.NeverInsertedDeniesAll` | crates/infralens-storage/src/compaction.rs:99-120 | a filter into which nothing was inserted denies every key: what compaction stores |
| `Sorting.StableSortSorts` | crates/infralens-storage/src/partition.rs:72 | the sort orders by key and permutes |
| `Sorting.StableSortStable` | crates/infralens-storage/src/partition.rs:72 | elements with equal keys keep their order |
| `MemTable.MemTable.Insert` | crates/infralens-storage/src/memtable.rs:59-71 | the entry goes in under a fresh sequence number and the size grows by key and value |
| `MemTable.MemTable.DrainSignal` | crates/infralens-storage/src/memtable.rs:92-99 | the filter over the tree gives the entries of one signal in key order |
| `MemTable.PutKeeps` | crates/infralens-storage/src/memtable.rs:59-71 | an insert with a new sequence number overwrites nothing |
| `MemTable.DrainIsStableSort` | crates/infralens-storage/src/memtable.rs:59-99 | after any inserts a drain is the signal's records stably sorted by time |
| `MemTable.DrainsPartition` | crates/infralens-storage/src/memtable.rs:92-99 | the three drains share out the contents, each entry as often as the table holds it |
| `MemTable.SizeIsExact` | crates/infralens-storage/src/memtable.rs:59-76 | the size counter is the sum of key and value sizes of what the table holds |
| `Buffering.FullAgrees` | crates/infralens-storage/src/memtable.rs:59-90 | the size counter of the tree finds a memtable full exactly when the engine does |
| `Buffering.WriteFreezesExactly` | crates/infralens-storage/src/engine.rs:185-201 | a write empties its active memtable if and only if the tree is full with it |
| `Buffering.DrainAgrees` | crates/infralens-storage/src/memtable.rs:92-99 | draining the tree gives the encodings of the rows that the engine drains, in the same order |
| `ZoneMap.ZoneMap.ObserveTimestamp` | crates/infralens-storage/src/zone_map.rs:36-40 | the fields move as one observation says |
| `ZoneMap.ZoneMap.ObserveAll` | crates/infralens-storage/src/sstable.rs:70-75 | observing a table's rows gives the zone map of their timestamps |
| `ZoneMap.ZoneExact` | crates/infralens-storage/src/zone_map.rs:26-40 | minimum, maximum and count are those of the timestamps |
| `ZoneMap.ZoneOfConcat` | crates/infralens-storage/src/compaction.rs:98-111 | the zone map of a concatenation is the join of the zone maps |
| `ZoneMap.BucketIsUnique` | crates/infralens-storage/src/partition.rs:25-27 | a key is a timestamp's partition if and only if it is a multiple of the bucket and its half-open bucket holds the timestamp |
| `Partition.SignalPartition.Open` | crates/infralens-storage/src/partition.rs:46-79 | the scan of the directory gives the readable tables sorted by number and one more than the largest number |
| `Partition.SignalPartition.Candidates` | crates/infralens-storage/src/partition.rs:94-101 | the tables whose zone map overlaps the range, in order |
| `Partition.CandidatesOmitNothing` | crates/infralens-storage/src/partition.rs:94-101 | a table with an exact zone map and a row in the range is among the candidates |
| `Partition.CandidatesExactly` | crates/infralens-storage/src/partition.rs:94-101 | the candidates are exactly the tables whose zone meets the range, in their order |
| `Partition.CandidateIsNear` | crates/infralens-storage/src/partition.rs:94-101 | the rows of a candidate are neither all before nor all after the range |
| `Partition.ReopenIsFresh` | crates/infralens-storage/src/partition.rs:46-79 | for every directory, reopening gives its readable tables in the order of their numbers, all below the next one, and the numbers are distinct if and only if the names of the readable zone maps are distinct as numbers |
| `Partition.UnnumberedNamesClash` | crates/infralens-storage/src/partition.rs:55-58 | two file names that are no numbers both get number 0 |
| `Partition.ScanFindsDirectory` | crates/infralens-storage/src/partition.rs:46-79 | the scan of a directory that an engine wrote finds the same tables in the same order and the same next number, in whatever order the system lists it |
| `Conservation.ConservedMeaning` | crates/infralens-storage/src/engine.rs:104-227 | balanced books mean that accepted rows are those in memory, on disk, dropped and orphaned |
| `Conservation.StepConserves` | crates/infralens-storage/src/engine.rs:104-352 | no step of writer, flush or compaction creates or loses a row without booking it |
| `Invariants.StepKeeps` | crates/infralens-storage/src/engine.rs:104-352 | every step keeps placement by bucket and signal, exact zone maps, a queue of at most 64, and file numbers that are distinct and below the next one across listed tables, running inputs, orphans and torn files; reserved numbers have no file and the two workers hold different ones |
| `Invariants.OpenedHolds` | crates/infralens-storage/src/engine.rs:55-89 | an engine freshly started on sound directories satisfies the invariants, with no directory read yet |
| `Invariants.EveryRunHolds` | crates/infralens-storage/src/engine.rs:104-374 | after every interleaving of events the invariants and conservation hold |
| `Invariants.DropsExactly` | crates/infralens-storage/src/engine.rs:185-201 | a step drops rows if and only if it freezes into a full queue, meets an undecodable row, fails a flush with rows left, or compacts inputs it cannot read in full |
| `Invariants.NothingLost` | crates/infralens-storage/src/engine.rs:104-352 | after a run without such steps and without failed compactions every accepted row is in memory or on disk |
| `Invariants.DrainedIsOnDisk` | crates/infralens-storage/src/engine.rs:206-227 | once memory is empty every accepted row is in an SSTable or in the books |
| `Invariants.CompactionZoneIsJoin` | crates/infralens-storage/src/compaction.rs:98-130 | a compaction that reads all inputs writes the join of their zone maps |
| `Invariants.CandidatesComplete` | crates/infralens-storage/src/partition.rs:94-101 | in every sound state a lookup by time finds every table with a row in the range |
| `Invariants.RemovedKeepsFiled` | crates/infralens-storage/src/compaction.rs:139-147 | removal by number leaves the files of every table with another number alone |
| `Restarts.DiskRemoved` | crates/infralens-storage/src/compaction.rs:139-147 | removing an input by number takes away its rows and no others |
| `Restarts.EveryRunFiles` | crates/infralens-storage/src/compaction.rs:41-147 | after every run the files hold exactly the rows of listed tables, running inputs, orphans, unremoved inputs and unopened directories, each as often as the engine has it |
| `Restarts.ReopenFromRun` | crates/infralens-storage/src/partition.rs:46-79 | every directory a run leaves is listed under distinct numbers, and scanning it gives sound tables with fresh numbers |
| `Restarts.EveryHistoryHolds` | crates/infralens-storage/src/engine.rs:55-374 | through every history of runs and stops at any step, each engine opens soundly on the files left and every state is sound, conserves rows and keeps its files |
| `Restarts.FilesAfterStop` | crates/infralens-storage/src/engine.rs:55-89 | of the rows a stopped engine had, the files hold all but those in memory and dropped, and the leftovers of compactions once more |
| `Restarts.RestartExactly` | crates/infralens-storage/src/compaction.rs:120-134 | starting again doubles no row if and only if no compaction stood between registering its output and deleting its inputs, and none has failed to delete one with rows |
| `Restarts.StopBeforeDeletion` | crates/infralens-storage/src/compaction.rs:120-134 | a stop right after the output is registered leaves each of its rows twice |
| `Restarts.StaleExactly` | crates/infralens-storage/src/compaction.rs:139-147 | an input with rows outlives its compaction if and only if neither its data nor its zone map can be removed |
| `Restarts.SeenExactly` | crates/infralens-storage/src/engine.rs:175-183 | after a start the listed tables hold all rows of the files, apart from leftovers and orphans, if and only if every directory that holds a row has been opened |
| `StorageEngine.RunIsRun` | crates/infralens-storage/src/engine.rs:267-374 | the runs the operations are proved to be are the runs of the state machine |
| `StorageEngine.StorageEngine.constructor` | crates/infralens-storage/src/engine.rs:55-89 | the engine opens with nothing in memory and no partition known; the log is not replayed |
| `StorageEngine.StorageEngine.GetOrCreatePartition` | crates/infralens-storage/src/engine.rs:175-183 | on first use the three directories of a partition are scanned, as steps of the machine |
| `StorageEngine.StorageEngine.MaybeFreeze` | crates/infralens-storage/src/engine.rs:185-201 | a full memtable is replaced by an empty one and queued, or lost if 64 are waiting |
| `StorageEngine.StorageEngine.WriteRecord` | crates/infralens-storage/src/engine.rs:104-115 | insert and freeze together are one write step of the machine |
| `StorageEngine.StorageEngine.WriteBatch` | crates/infralens-storage/src/engine.rs:93-151 | a closed engine takes nothing; otherwise the records are written in order up to the first that cannot be encoded or logged, whatever the workers are doing |
| `StorageEngine.StorageEngine.FlushSignal` | crates/infralens-storage/src/engine.rs:301-352 | one signal of a frozen table is drained, decoded, numbered and registered, or its failure loses the rest of the table, whatever the compaction worker is at |
| `StorageEngine.StorageEngine.FlushOne` | crates/infralens-storage/src/engine.rs:267-299 | the worker's handling of one request is a run of the machine and takes one request off the queue |
| `StorageEngine.StorageEngine.FlushAll` | crates/infralens-storage/src/engine.rs:206-218 | every memtable with rows is sent once, behind what was queued; the queue never exceeds 64; the requests the worker got done in the meantime are gone from its front, and a step fails only if one of them does |
| `StorageEngine.StorageEngine.Close` | crates/infralens-storage/src/engine.rs:220-227 | closing sends every memtable and returns after the worker has got some number of requests done, each with its own failures; exactly the others stay queued |
| `Shutdown.ClosingSavesExactly` | crates/infralens-storage/src/engine.rs:206-227 | a run that takes every memtable out of memory, such as closing, saves a decodable row if and only if none of it is still queued at the end and no flush that held it failed |
| `Shutdown.CleanClosingSaves` | crates/infralens-storage/src/engine.rs:206-227 | with the queue emptied and no failure every decodable row is in SSTables as often as it was accepted and not lost before |
| `StorageEngine.StorageEngine.CompactSignal` | crates/infralens-storage/src/compaction.rs:41-147 | below the trigger or two tables nothing happens; otherwise drain, number, merge or give up, and delete the inputs one by one by number, or orphan them on an error, whatever the flush worker is at |
| `StorageEngine.GatheredAll` | crates/infralens-storage/src/compaction.rs:60-75 | when every input can be read the merged rows are all rows in order |
| `Lexer.Scanner.SkipWhitespaceAndComments` | crates/infralens-query/src/lexer.rs:55-65 | blanks and line comments are skipped, and nothing else |
| `Lexer.Scanner.LexString` | crates/infralens-query/src/lexer.rs:107-122 | the literal with doubled quotes undone, or unterminated at end of input or NUL |
| `Lexer.Scanner.LexNumber` | crates/infralens-query/src/lexer.rs:124-135 | the longest run of digits, a fraction only if a digit follows the dot, an error beyond i64 |
| `Lexer.Scanner.Tokenise` | crates/infralens-query/src/lexer.rs:37-49 | the cursor halts within the input on every byte string with an error or the tokens and one Eof |
| `Spellings.DecimalReads` | crates/infralens-query/src/lexer.rs:124-135 | the decimal spelling of a number reads back as it |
| `Spellings.IntegerReads` | crates/infralens-query/src/lexer.rs:124-135 | a number is read as itself or refused beyond i64; a dot without a digit behind it does not belong to it |
| `Spellings.FractionReads` | crates/infralens-query/src/lexer.rs:124-135 | a fraction is its digits over the power of ten of its places |
| `Spellings.LiteralReads` | crates/infralens-query/src/lexer.rs:107-122 | a literal with its quotes doubled is read as its text |
| `Spellings.QuotedNameReads` | crates/infralens-query/src/lexer.rs:163-174 | a quoted name is read as the name |
| `Spellings.CommentEnds` | crates/infralens-query/src/lexer.rs:55-65 | a comment goes to the end of its line or of the input |
| `Spellings.GapIsSkipped` | crates/infralens-query/src/lexer.rs:55-65 | what is skipped before a token is made of blanks and comments, and nothing is left of them |
| `Spellings.KeywordsRead` | crates/infralens-query/src/lexer.rs:137-161 | every keyword outside the generation grammar is read as itself in upper and lower case |
| `Spellings.SymbolsRead` | crates/infralens-query/src/lexer.rs:67-105 | each operator and punctuation mark is read as its token, the longer one first, and `<>` as `!=` |
| `Spellings.WordCharacters` | crates/infralens-query/src/lexer.rs:137-142 | words are letters, digits and underscores and do not begin with a digit |
| `Frontend.LexNoEof` | crates/infralens-query/src/lexer.rs:37-49 | no token before the closing Eof is Eof |
| `Frontend.VectorKeepsTokens` | crates/infralens-query/src/parser.rs:20-34 | the parser sees through the vector exactly the tokens the lexer produced |
| `Frontend.ParseText` | crates/infralens-query/src/lib.rs:25-29 | the two cursors together answer every text with the statement or an error, and halt |
| `Frontend.ParseIql` | crates/infralens-query/src/lib.rs:25-29 | the configured lexer and parser answer the UTF-8 bytes of every text |
| `Descent.Cursor.ParseStatement` | crates/infralens-query/src/parser.rs:26-34 | the descent over the vector agrees with the grammar functions in value, error and position, never leaves the vector, and halts; success means every token was consumed |
| `Descent.Cursor.ParseComparison` | crates/infralens-query/src/parser.rs:173-230 | the comparison level with IS, BETWEEN, IN, LIKE and their negations agrees with its function |
| `Descent.Cursor.ParsePrimary` | crates/infralens-query/src/parser.rs:279-323 | primaries agree with their function, interval literals included |
| `Grammar.ExpressionsExactly` | crates/infralens-query/src/parser.rs:142-323 | the expression parser accepts a prefix if and only if it is the spelling of a well-formed tree that what follows cannot extend, and returns its denotation |
| `Grammar.Unambiguous` | crates/infralens-query/src/parser.rs:142-323 | two well-formed trees with the same spelling denote the same expression |
| `Statements.StatementComplete` | crates/infralens-query/src/parser.rs:26-140 | every well-formed statement parses to what it denotes, to the last token |
| `Statements.StatementSound` | crates/infralens-query/src/parser.rs:26-140 | whatever is accepted is the whole spelling of a well-formed statement |
| `Statements.StatementsExactly` | crates/infralens-query/src/parser.rs:26-140 | the statement parser accepts exactly the language of the grammar; a count is the number written, wrapped to 64 bits if negative |
| `Statements.CountsAsWritten` | crates/infralens-query/src/parser.rs:66-80 | LIMIT and OFFSET of an accepted statement are the numbers spelled, and 2^64 more for negative ones |
| `Spellings.LimitIsRead` | crates/infralens-query/src/parser.rs:66-80 | the text `LIMIT n OFFSET o` is read as n and o |
| `Printer.ParseInvertsPrint` | crates/infralens-query/src/parser.rs:142-323 | parsing the printing of a producible expression gives it back |
| `Printer.ProducibleExactly` | crates/infralens-query/src/parser.rs:142-323 | an expression is some parse result if and only if it is producible |
| `Printer.PrintIsLeast` | crates/infralens-query/src/parser.rs:142-323 | no spelling of the same expression has fewer parentheses than the printing |
| `Guarantee.LexSelect` | services/llm-copilot/copilot/grammar.py:65-133 | a derived byte string lexes to the spelling of its derivation, or fails exactly if a literal does not lex |
| `Guarantee.AcceptedIntervals` | crates/infralens-query/src/parser.rs:368-387 | no accepted statement holds an interval literal without meaning |
| `Guarantee.DerivedTextsRead` | services/llm-copilot/copilot/grammar.py:65-133 | a derived byte string is read as its derivation, or rejected exactly if an integer leaves i64, a literal holds NUL or an interval has no meaning |
| `Utf8.EncodeFixesAscii` | crates/infralens-query/src/lexer.rs:107-122 | the bytes of a text are its characters if and only if it is ASCII |
| `Bytewise.SelectBytes` | services/llm-copilot/copilot/grammar.py:65-133 | the bytes of a derived text are the text of the derivation with the bytes of its string literals |
| `Bytewise.SameSelect` | crates/infralens-query/src/lexer.rs:107-122 | a statement and its byte-wise reading say the same if and only if every string literal is ASCII |
| `Bytewise.DerivedBytesRead` | crates/infralens-query/src/lexer.rs:37-122 | the bytes of a derived text are read as its byte-wise reading, or rejected just as the text would be |
| `Generation.ColumnNames` | services/llm-copilot/copilot/grammar.py:53-61 | the columns of the first table of the selected name, or all columns once each in the order of first appearance |
| `Generation.IntervalMeaning` | crates/infralens-query/src/parser.rs:368-387 | a derived interval means its number times its unit in nanoseconds, wrapped to 64 bits, and has no meaning if the number leaves i64 |
| `Spellings.UnitsRelate` | crates/infralens-query/src/parser.rs:368-387 | a day is 24 hours, an hour 60 minutes, and so on to 1000 ns in a microsecond, under each name of a unit |
| `Spellings.SignedReads` | crates/infralens-query/src/parser.rs:368-387 | a number of an interval may carry a sign and must fit i64 |
| `Spellings.TrimMeaning` | crates/infralens-query/src/parser.rs:368-387 | trimming takes away the white space at both ends and nothing else |
| `Spellings.LowerMeaning` | crates/infralens-query/src/parser.rs:368-387 | lower case replaces each capital by its small letter and nothing else |
| `Spellings.UpperMeaning` | crates/infralens-query/src/lexer.rs:143 | upper case replaces each small letter by its capital and nothing else |
| `Generation.EveryDerivationIsRead` | services/llm-copilot/copilot/grammar.py:65-133 | with identifiers as names the bytes of every derivation that fits are read as its byte-wise reading, and every other is rejected |
| `Generation.ReadBackExactly` | services/llm-copilot/copilot/grammar.py:65-133 | with identifiers as names a derivation is read back as what it says if and only if it fits and every string literal is ASCII |
| `Generation.AccentIsMisread` | crates/infralens-query/src/lexer.rs:107-122 | with the default catalog a question for one letter outside ASCII is read as one for the two characters of its bytes |
| `Generation.DefaultCatalogIsGood` | services/llm-copilot/copilot/grammar.py:10-31 | the default catalog has identifiers as names |
| `Generation.PromiseExactly` | services/llm-copilot/copilot/grammar.py:1-5 | for a catalog every derivation that fits and has ASCII literals is read back if and only if every table and column name is read as the identifier it spells |
| `Generation.NoCatalogIsEnough` | services/llm-copilot/copilot/grammar.py:1-5 | for every catalog with a table some derivation that fits is not read back |
| `Like.SimpleLikeMatch` | crates/infralens-query/src/functions/eval.rs:310-330 | the loop over pieces computes greedy leftmost matching |
| `Like.GreedySound` | crates/infralens-query/src/functions/eval.rs:310-330 | what greedy matching accepts has the pieces in order |
| `Like.GreedyComplete` | crates/infralens-query/src/functions/eval.rs:310-330 | greedy leftmost matching finds the pieces whenever some placement exists and the end is open |
| `Like.PlainSound` | crates/infralens-query/src/functions/eval.rs:306-330 | for patterns without `_` and without a dot before a star, a match is a match of SQL |
| `Like.LikeIsSqlExactlyWhenFaithful` | crates/infralens-query/src/functions/eval.rs:306-330 | LIKE is SQL's on all strings if and only if the pattern has no `_`, no dot before a star, and no `%` or ends in `%` |
| `Evaluate.InLoop` | crates/infralens-query/src/functions/eval.rs:77-86 | the IN loop computes the mask, with the first error winning |
| `Evaluate.EvalLength` | crates/infralens-query/src/functions/eval.rs:31-132 | every array an expression gives is as long as the batch |
| `Rowwise.Vectorised` | crates/infralens-query/src/functions/eval.rs:31-240 | the vectorised evaluator gives, on every batch, the cells a single-row evaluator gives, and fails exactly if the types do not fit or some row fails |
| `Rowwise.ConnectivesExactly` | crates/infralens-query/src/functions/eval.rs:145-165 | AND and OR are those of SQL-92 section 8.12 unless a null stands beside the deciding value |
| `Values.StringOrder` | crates/infralens-query/src/functions/eval.rs:199-206 | strings are compared by a strict total order, by their first difference, in which a proper prefix comes first |
| `Values.ComparisonSelects` | crates/infralens-query/src/functions/eval.rs:178-209 | `column op literal` keeps exactly the rows whose stored integer, real or string stands in that relation to the literal, and fails exactly if the column is missing or the types do not compare |
| `Values.BetweenSelects` | crates/infralens-query/src/functions/eval.rs:68-75 | BETWEEN keeps exactly the rows whose value is at least the one and at most the other literal |
| `Values.NullTestsSelect` | crates/infralens-query/src/functions/eval.rs:57-66 | IS NULL and IS NOT NULL keep exactly the rows whose value is missing, or there |
| `Values.InSelects` | crates/infralens-query/src/functions/eval.rs:77-86 | IN keeps exactly the rows whose value equals an item, NOT IN those whose value is there and equals none |
| `Values.LikeSelects` | crates/infralens-query/src/functions/eval.rs:117-130 | for a pattern that means what SQL says, LIKE keeps exactly the rows whose string matches and NOT LIKE the others |
| `Values.ConnectivesSelect` | crates/infralens-query/src/functions/eval.rs:145-165 | AND keeps what both sides keep, OR what one keeps while the other is not null, NOT what is false |
| `Values.ColumnsCombine` | crates/infralens-query/src/functions/eval.rs:211-228 | arithmetic on integer columns gives the exact 64-bit result row by row, division rounding toward zero, null beside null, and fails exactly if some row has no such result |
| `Values.MinusNegates` | crates/infralens-query/src/functions/eval.rs:230-240 | unary minus negates, the least integer alone excepted |
| `Values.ConstantsHold` | crates/infralens-query/src/functions/eval.rs:31-132 | literals, intervals and `now()` have their value on every row |
| `Rowwise.FilterBatchMeaning` | crates/infralens-query/src/executor/scan.rs:97-102 | filtering a batch selects the rows whose predicate is true, and fails exactly if it is not boolean or fails on a row |
| `Rowwise.FilterMeaning` | crates/infralens-query/src/executor/filter.rs:26-39 | for every batching, empty batches included, the filter yields the selected rows of its input, with its exact failures |
| `Folding.FoldingPreserves` | crates/infralens-query/src/optimizer/rules.rs:14-48 | folding keeps every successful result and every failure except remainders of constants, which the evaluator always rejects |
| `Folding.RemainderChangesAnswer` | crates/infralens-query/src/optimizer/rules.rs:38 | a remainder that is rejected as written and accepted once folded |
| `Values.ConstantsFold` | crates/infralens-query/src/optimizer/rules.rs:14-48 | every constant of integers, `now()` and the four operations that evaluates is folded to the literal of its value |
| `Values.RemainderFolds` | crates/infralens-query/src/optimizer/rules.rs:38 | a remainder of literals is folded to what the division leaves, with the sign of the dividend |
| `Queries.FoldingExactly` | crates/infralens-query/src/optimizer/rules.rs:14-48 | the folded predicate filters a batch alike if and only if no remainder was folded or it cannot be evaluated row by row on the batch either |
| `Plans.ExtractAggregates` | crates/infralens-query/src/planner.rs:179-203 | the loop collects exactly the aggregate calls among the projections |
| `Plans.PlanSelect` | crates/infralens-query/src/planner.rs:71-147 | the step-by-step wrapping gives the plan of the statement, with the bare LIMIT in the scan |
| `Answers.JoinsPlanned` | crates/infralens-query/src/planner.rs:71-94 | under all else the plan joins unlimited scans in the order of the statement to the first scan, which has the bare LIMIT |
| `Answers.JoinsRejected` | crates/infralens-query/src/executor/mod.rs:66-70 | every statement with a JOIN is an error |
| `Answers.AggregatesExactly` | crates/infralens-query/src/planner.rs:179-203 | the aggregates are exactly the aggregate calls among the projections, in order, with function, first argument and name |
| `Queries.OptimizedShape` | crates/infralens-query/src/optimizer/mod.rs:21-27 | the four rewrites turn a single-table statement into one folded, pruned scan under projection, sort and limit |
| `Queries.HavingReplacesWhere` | crates/infralens-query/src/optimizer/rules.rs:53-67 | HAVING without aggregation is planned as if WHERE were absent |
| `Answers.HavingAnswer` | crates/infralens-query/src/optimizer/rules.rs:53-67 | HAVING without aggregation is answered as if it were the WHERE |
| `Queries.OffsetAloneExactly` | crates/infralens-query/src/planner.rs:138-144 | OFFSET without LIMIT is answered right if and only if it is 0 or there is no matching row |
| `Queries.OffsetAloneIgnored` | crates/infralens-query/src/planner.rs:138-144 | `OFFSET 1` on a table of one row answers with that row |
| `Limits.LostWhereExactly` | crates/infralens-query/src/optimizer/rules.rs:58-61 | dropping WHERE leaves the selection right if and only if every row that satisfies HAVING satisfies WHERE |
| `Operators.LimitOperator.PollNext` | crates/infralens-query/src/executor/limit.rs:22-49 | each poll takes one step of the limited stream |
| `Operators.LimitMeaning` | crates/infralens-query/src/executor/limit.rs:22-49 | for every batching the polls concatenate to dropping the offset and taking the limit |
| `Answers.ClipMeaning` | crates/infralens-query/src/executor/limit.rs:22-49 | dropping the offset and taking the limit gives rows offset, offset + 1 and so on, as many as there are up to the limit |
| `Operators.LimitFailure` | crates/infralens-query/src/executor/limit.rs:22-49 | the limit fails if and only if its input fails before the last row it needs |
| `Operators.FilterOperator.PollNext` | crates/infralens-query/src/executor/filter.rs:26-39 | each poll takes one step of the filtered stream, skipping batches left empty |
| `Operators.SortOperator.PollNext` | crates/infralens-query/src/executor/sort.rs:71-74 | the first poll sorts everything, later polls are exhausted |
| `Operators.SortOperator.Materialize` | crates/infralens-query/src/executor/sort.rs:26-61 | the child is drained and sorted by the keys that name a column, or the failure is passed on |
| `Ordering.SortedInOrder` | crates/infralens-query/src/executor/sort.rs:26-61 | with a kernel that sorts by the items it is given, of any two rows the one comes first that the first key naming a column and telling them apart puts first, in its own direction and before nulls; keys that name no column do not matter |
| `Ordering.SortedStream` | crates/infralens-query/src/executor/sort.rs:26-74 | the sorted stream is one batch of the rows of its input in that order |
| `Operators.Execute` | crates/infralens-query/src/lib.rs:42-49 | the poll loop collects all batches, or fails |
| `Scans.LoadFile` | crates/infralens-query/src/executor/scan.rs:60-71 | one file's batches are filtered and appended, the first error ending the scan |
| `Scans.LoadKeys` | crates/infralens-storage/src/engine.rs:246-261 | partitions are read in order, unknown keys skipped |
| `Scans.RetainLoop` | crates/infralens-query/src/executor/scan.rs:74-83 | the retain pass keeps the batches before which fewer than the limit of rows came |
| `Scans.LoadBatches` | crates/infralens-query/src/executor/scan.rs:49-86 | the nested loops compute the loaded, filtered and capped batches |
| `Scans.ScanOperator.PollNext` | crates/infralens-query/src/executor/scan.rs:34-36 | polls hand out the loaded batches in order |
| `Pruning.RangeBounds` | crates/infralens-query/src/optimizer/rules.rs:110-144 | the literals of the extracted range bound the timestamp of every matching row |
| `Pruning.RangeSound` | crates/infralens-query/src/optimizer/rules.rs:110-144 | if the chosen lower literal is not negative, every matching row lies in the range after the cast to u64 |
| `Pruning.LowerBoundExactly` | crates/infralens-query/src/optimizer/rules.rs:116-132 | a lower bound prunes soundly if and only if it is not negative or timestamps do not compare with it at all |
| `Pruning.TimePredicatesFail` | crates/infralens-query/src/functions/eval.rs:178-209 | with the source's comparison pairs every predicate that pruning understands is an error on unsigned timestamps |
| `Pruning.PrunedScanKeepsMatches` | crates/infralens-query/src/optimizer/rules.rs:93-106 | with one covering entry per partition the pruned scan has exactly the matching rows of the full scan, also when no partition overlaps |
| `Pruning.DuplicateEntryDoubles` | crates/infralens-query/src/catalog.rs:104-114 | two entries for one partition return its rows twice |
| `Pruning.PrunedExactly` | crates/infralens-query/src/optimizer/rules.rs:93-106 | whatever the statistics, the pruned scan has the rows of the full scan if and only if no partition overlaps or each partition with matching rows is listed exactly once |
| `Answers.RangeIsPruned` | crates/infralens-query/src/optimizer/rules.rs:93-144 | a range of timestamps reads exactly the partitions with an entry that meets it, if there is one |
| `Answers.OverlapExactly` | crates/infralens-query/src/catalog.rs:104-115 | the overlapping partitions are exactly those with an entry that meets the range |
| `Statistics.ExactMapsCover` | crates/infralens-query/src/catalog.rs:88-101 | statistics taken from one exact zone map per partition cover it |
| `Queries.RetainMeaning` | crates/infralens-query/src/executor/scan.rs:74-83 | the scan limit keeps a prefix of the rows, all of them or at least the limit |
| `Queries.ScanLimitInvisible` | crates/infralens-query/src/executor/scan.rs:74-83 | a scan limit of at least limit plus offset cannot be seen above the limit operator |
| `Limits.OffsetExactly` | crates/infralens-query/src/planner.rs:78 | `LIMIT n OFFSET o` is answered right for whatever the scan loads if and only if one of them is zero |
| `Limits.OffsetPerLoad` | crates/infralens-query/src/planner.rs:78 | for one load it is answered right if and only if nothing was asked for or the rows retained number at least min(n + offset, all rows) |
| `Answers.OffsetAnswer` | crates/infralens-query/src/planner.rs:78 | `LIMIT n OFFSET o` is answered with those rows of what the scan retains, and so right if and only if there is nothing to answer or it retains enough |
| `Limits.OrderedLimitExactly` | crates/infralens-query/src/planner.rs:78 | `ORDER BY c LIMIT n` is answered right for whatever the scan loads if and only if n is zero |
| `Answers.TopAnswer` | crates/infralens-query/src/planner.rs:78 | `ORDER BY c LIMIT n` is answered with the first n of the sorted rows that the scan retains |
| `Queries.PlainReadingRowwise` | crates/infralens-query/src/functions/eval.rs:22-29 | for predicates without functions the plain reading is the selection of single rows from all SSTables |
| `Queries.ScanLoadsMatches` | crates/infralens-query/src/optimizer/mod.rs:21-27 | the folded, pushed and pruned scan loads the rows of the plain reading |
| `Queries.AnswerFromScan` | crates/infralens-query/src/executor/mod.rs:33-71 | the operator tree answers from the batches of the one scan, sorted and limited |
| `Queries.EndToEnd` | crates/infralens-query/src/lib.rs:20-50 | a single-table statement without HAVING, aggregates and OFFSET, and with LIMIT only without ORDER BY, is answered with the multiset of its plain reading, or exactly min(n, matches) of its rows |
| `Answers.ComparisonAnswered` | crates/infralens-query/src/lib.rs:20-50 | `WHERE column op literal` is answered with the rows of all SSTables whose stored value stands in that relation to the literal |
| `Answers.OrderedAnswer` | crates/infralens-query/src/lib.rs:20-50 | ORDER BY is answered with one batch of the matching rows in the order its keys ask for |
| `Answers.GroupedAnswer` | crates/infralens-query/src/planner.rs:97-114 | grouping gets the rows that satisfy WHERE under the keys of GROUP BY and the aggregate calls of the projections, HAVING filters what it gives, and ORDER BY and LIMIT come after; a failed grouping fails the statement |
| `Answers.RetainsAll` | crates/infralens-query/src/executor/scan.rs:74-83 | under LIMIT n the rows before grouping or sorting are all of them if and only if each batch with rows begins before row n |
| `Retrieval.WriteThenRead` | crates/infralens-query/src/executor/scan.rs:49-86 | in a sound state of the engine at rest, `SELECT *` answers with exactly the accepted records of its signal less those dropped or orphaned |

## Left out

- `Queries.EndToEnd`: assumes that the plain reading succeeds and, for a time range, that the statistics cover the partitions and the chosen lower bound is not negative; the other cases have their own exact conditions above.
- `Ordering.SortedInOrder`: takes a kernel that sorts integers, reals, strings and booleans; other column types are not told apart.
- `Answers.GroupedAnswer`: grouping itself is a parameter; a HAVING that fails as written and not once folded is left to `Queries.FoldingExactly`.
- `Values.LikeSelects`: takes what lies under a null string to be empty.
- `Rowwise.Vectorised`: covers `now` and unknown functions, which fail; `time_bucket`, `rate`, `delta` and `histogram_quantile` take their value or a parameter from the whole batch. Null slots are taken to hold a default of their type.
- `Rowwise.FilterBatchMeaning`: excludes the same four functions.
- `Rowwise.FilterMeaning`: excludes the same four functions.
- `Queries.PlainReadingRowwise`: excludes the same four functions.
- `Queries.FoldingExactly`: excludes the same four functions.
- `Pruning.RangeSound`: one direction for conjunctions; the exact condition is given for a single lower bound.
- `Bloom.BloomFilter.constructor`: filters of more than 2^64 - 8 bits, whose byte length wraps, are excluded.
- GROUP BY and aggregate execution: grouping is a parameter.
- JOIN execution: the executor rejects it; joins are parsed and planned.
- Projection of columns: the executor does not apply it.
- `time_bucket`, `rate`, `delta`, `histogram_quantile`: floating point over columns; parameters of the evaluator. The expression nodes for them that no parser rule builds are not modelled.
- NaN, infinities and rounding of `f64`.
- Parquet and Arrow encodings, Bloom sizing from a false-positive rate, directory names, fsync.
- Replay of the log on open: the engine does not do it. The checkpoint a flush writes goes through a second file handle and is not part of the engine's state here.
- `Grammar.ExpressionsExactly`: is about prefixes that end before a token that cannot continue an expression, which is where every statement ends one; `Statements.StatementsExactly` has no such restriction.
- `Pruning.PrunedExactly`: takes partitions to share no matching row, which placement by timestamp gives.
- `StorageEngine.StorageEngine.Close`: begins with the flush worker between two requests; other moments are runs of the state machine, where `Shutdown.ClosingSavesExactly` covers them.
- Files other than data and zone maps: Bloom files and data files without a zone map are never looked at on opening.
- Concurrent writers, and events missed between the initial load and the watch of the cluster view.
- etcd, gRPC, replication, scatter and gather, the gateway, inference, and the operator: calls into other systems.
- Printing of statements: the printer covers expressions.

# A verified model of mq

mq is a message broker that speaks the Kafka protocol. This project models, in Dafny 4.11, the
parts of it whose correctness is hard to see by reading, and proves properties of them that hold
for all inputs, all runs or all reachable states:

- **Record batches and the file log** (`Bytes`, `Record`, `Chunks`, `Segments`, `FileLog`): the
  batch header at the byte positions of section 5.3.1 "Record Batch" of the Apache Kafka
  documentation, offset assignment in place, segments with a sparse index, rolling, reads, crash
  recovery and retention.
- **The object-backed log** (`Wal`, `WalFiles`, `ObjectStorage`, `ObjectRuns`, `ObjectTheorems`,
  `ObjectReads`, `ObjectIndex`, `ObjectRecovery`, `ObjectCommits`, `ObjectLives`, `ObjectDurability`,
  `ObjectUpkeep`, `ObjectNode`, `ObjectBackend`, `Timestamps`): the node's write-ahead log, the
  pending buffer, the uploader, the index, retention, crashes and restarts, as a state machine over
  any number of partitions and process lives, and as classes each of whose methods takes one step of
  it.
- **Replication and metadata** (`Replication`, `Serving`, `Metadata`): follower fetch, the high
  watermark, in-sync sets and failover within one leader term, with messages lost, delayed and
  repeated; and the replicated placement metadata under commands computed from stale views.
- **The group coordinator** (`Coordinator`): generations, assignments and waiting followers.
- **The fetch wire format** (`FetchCodec`).

The theorems build on each other. `ObjectLives.PartitionOkIff` and `ObjectTheorems.Conservation` say
of each partition that in every run of appends, uploads, failed uploads, retention and crashes at any
point, whatever becomes of the other partitions, nothing of it that the write-ahead log kept is lost,
repeated or reordered, and give the exact condition for that; `ObjectDurability.Durable` says what it
means for one appended batch, and `ObjectReads.BackendsIndistinguishable` that a consumer cannot tell
the two backends apart. `Replication.TermSafety` and `Metadata.PlacementHolds` are the safety theorems
of a leader term, whatever in-sync sets are committed in it, and of the metadata log;
`Coordinator.Fencing` and `Coordinator.SyncReturns` are those for groups. Against standing still,
`Replication.CanCommit` says that every run of a term can go on to commit all of the leader's log,
and `Coordinator.MissingIff` that nobody leaves a group unasked.

Where the code does not do what its comments say, the model follows the code and a lemma gives the
exact condition under which the promise holds:

- A crash brings a partition back at offset 0 if it has neither an index entry nor a record left in
  the write-ahead log, and there are runs that end so (`ObjectLives.OffsetsLost`). It leaves a
  partition in good order if and only if it has one of the two, or no history to lose
  (`ObjectRecovery.CrashOffsets`, `ObjectRecovery.CrashPartIff`, `ObjectRecovery.CrashKeepsIff`).
- Object names restart with the process. An upload keeps a partition in good order if and only if
  every entry of it into an old object of the same name lies within the new one and finds its old
  bytes there (`ObjectRuns.FinishPart`, `ObjectRuns.FinishKeepsIff`, `ObjectLives.FirstUploadExact`),
  and there are runs in which one does not (`ObjectLives.NamesCollide`).
- An append between the buffer swap and the sealing of the write-ahead log is trimmed from the log
  before it is uploaded (`ObjectRecovery.AppendsInTheWindow`).
- A crash between the first index commit and the trim of the write-ahead log changes nothing a
  reader sees, but leaves the committed partitions holding their snapshot twice
  (`ObjectCommits.LateInvisible`, `ObjectCommits.LateOkIff`).
- A crash between the put of an object and the first index entry for it leaves an object that no
  entry points at and that retention does not see. Every object is pointed at in every state of a run
  if and only if no crash came there (`ObjectUpkeep.NoOrphansIff`).
- An offset in the snapshot being uploaded reads as "nothing yet", and lookups by time pass over it
  (`ObjectReads.EmptyReadIff`, `Timestamps.ObjectLookupExact`).
- The in-sync set is widened by how recently a replica was heard from, not by how far it has got.
  Given what the leader knows, the set it wants is safe if and only if every replica it would add is
  on record as having reached the high watermark (`Replication.SafeInViewIff`,
  `Replication.DesiredIsSafeIff`), and there are runs in which one is not, is put in sync and is then
  elected (`Replication.RecencyIsNotEnough`). A leader that commits only sets it can see to be safe
  never has an in-sync replica that lacks a committed batch (`Replication.CarefulInSync`).
- An ISR change applied after a failover can leave the leader out of its own in-sync set
  (`Metadata.StaleIsrDropsLeader`). Every leader is in sync after every prefix of the log if and
  only if every ISR change names the leader of the state it is applied to, as it does when no
  election came between (`Metadata.LeaderInSyncIff`, `Metadata.LeaderInSync`).
- An acks=all request whose record set has an unreadable tail is answered at once: an answer without
  an error guarantees that the batches are committed if and only if the set was read to its end or
  held no batch (`Serving.AcksAllExact`).
- A group member whose SyncGroup times out gets the assignment of an earlier generation and no
  error; what it gets is of the current generation if and only if a Sync of the leader in this
  generation names it (`Coordinator.SyncReturns`, `Coordinator.OldAssignmentSurvives`,
  `Coordinator.OldAssignmentRun`).

Assumptions, which the code relies on and does not check:

- A batch is well formed (`Record.WellFormed`): its slice is exactly as long as its header says, and
  its record count is its last offset delta plus one, at least 1. The file log advances by the record
  count, everything else by the last offset; a header that announces no bytes at all would make the
  scan loops stand still.
- Checksums are any function of the bytes they cover; the topic hash is any number.
- Sizes, positions and offsets are unbounded integers, except where a field's width is the point:
  every encoded field, the 32-bit leader epochs and generations (runs shorter than 2^31 steps), and
  the 32-bit arithmetic of broker placement.
- Partition counts stay below 2^31.

Keys are modelled by what they are made of: a partition by topic and number, an object by node and
sequence number. Time, the nodes that are alive, what the object store answers and which messages
arrive are inputs.

`dafny verify dfyconfig.toml` checks the project.

## Model

| member | source | states |
|---|---|---|
| `Bytes.IntOfPutInt` | internal/kbytes/writer.go:14-23 | every signed value that fits n bytes is read back from its n big-endian bytes |
| `Record.HeaderOf` | internal/record/batch.go:51-74 | the header fields parsed at the start of any bytes that begin with a batch are that batch's size, offsets, count and time |
| `Record.HeaderRoundTrip` | internal/record/batch.go:51-74 | the parser reads back every field of every header that fits its fields |
| `Record.HeaderAccepted` | internal/record/batch.go:57-74 | any bytes are accepted if and only if there are 61 of them and the magic byte is 2, and called too short exactly if there are fewer |
| `Record.SmallestIs` | internal/record/batch.go:51-74 | at every offset there is a batch the parser reads back as well formed |
| `Record.SetBaseOffset` | internal/record/batch.go:77-79 | the first 8 bytes become the offset in place, the rest is untouched |
| `Record.RecomputeCRC` | internal/record/batch.go:84-87 | the checksum field becomes the checksum of everything behind it, the rest is untouched |
| `Record.AssignedIsBatch` | internal/record/batch.go:77-87 | assigning an offset changes the base offset and the checksum only: the batch now covers [off, off + count) with the same size and time |
| `Record.Iterate` | internal/record/batch.go:91-107 | on any record set whose headers announce at least one byte each: visits exactly the slices a recursive walk visits, stops where it stops, and reports whether it got to the end |
| `Record.WalkBatches` | internal/record/batch.go:91-107 | on batches followed by unreadable bytes that walk visits exactly the whole batches, in order, and gets to the end just when nothing follows them |
| `Record.CutAnywhere` | internal/storage/log.go:395-440 | a run of batches cut at any byte is some of the batches and an unreadable tail |
| `Segments.FloorPosition` | internal/storage/index.go:39-52 | binary search returns the position of the last index entry at or below the target, or 0 |
| `Segments.DecodeIndexEntries` | internal/storage/index.go:16-34 | any index file is read eight bytes an entry, without an incomplete last one; and exactly the entries that were written are read back |
| `Segments.EntryPointsAtBatch` | internal/storage/segment.go:80-96 | every index entry append writes points at the byte position of a batch and carries its offset |
| `Segments.IndexAscends` | internal/storage/segment.go:80-96 | the entries append writes ascend, which the binary search relies on |
| `Segments.IndexSparse` | internal/storage/segment.go:80-96 | the first batch has an index entry, and entries are at least the interval apart |
| `Segments.IndexDense` | internal/storage/segment.go:80-96 | every batch has an entry of its own, or one less than the interval before it |
| `Segments.Segment.Append` | internal/storage/segment.go:80-96 | log file, index file, index, size and byte count are those of the batches held plus one |
| `Segments.Sealed.ReadBatchesFrom` | internal/storage/segment.go:100-131 | index floor and forward scan return what a scan of the whole rolled segment would |
| `Segments.Segment.ReadBatchesFrom` | internal/storage/segment.go:100-131 | the same for the active segment |
| `Segments.ScanBatches` | internal/storage/log.go:395-440 | the recovery scan stops behind the last whole batch with the index, byte count and next offset that appending had produced |
| `Segments.RecoverActive` | internal/storage/log.go:395-456 | recovery keeps exactly the whole batches and restores every field, so the segment can be appended to again; an empty segment resumes at its base |
| `Chunks.Gather` | internal/storage/segment.go:100-131 | the scan loop skips the batches before the offset and returns whole batches up to maxBytes, at least one |
| `Chunks.SliceIsRun` | internal/storage/segment.go:100-131 | a read from one segment is a run of whole batches from the one that holds the offset; above the limit only as a single batch, and the next batch would exceed it |
| `Chunks.ReadIsRun` | internal/storage/log.go:223-247 | a read at a retained offset is a non-empty run of whole consecutive batches starting with the one holding the offset, above maxBytes only as a single batch |
| `Chunks.DrainReturnsAll` | internal/storage/log.go:223-235 | reading from the earliest offset and advancing past the last one returned ends, and returns every stored batch once and in order, for every maxBytes |
| `Chunks.ChunkingInvisible` | internal/storage/backend.go:3-13 | two logs with the same batches give the same drain however they are cut into segments or objects |
| `Chunks.RaisedIs` | internal/storage/log.go:185-194 | a raised high watermark is the larger of the old one and the value offered, cut off at the log end |
| `FileLog.ExtendStores` | internal/storage/log.go:114-140 | an append adds the batch at the end of what the segments hold, whether or not it rolls |
| `FileLog.ExtendBounds` | internal/storage/log.go:114-140 | an append rolls if and only if the active segment holds something and would exceed its size, and so no segment exceeds it except as a single batch |
| `FileLog.Log.Open` | internal/storage/log.go:72-110 | opening the files of a log cut off in its active segment gives back the same segments and log end |
| `FileLog.Reopen` | internal/storage/log.go:72-110 | a live log whose active segment is cut at any byte by a crash, its index file being anything, is opened from its own files with a prefix of its contents and the offsets to match |
| `FileLog.CutLayout` | internal/storage/log.go:395-456 | cutting the active segment behind any batch leaves a well laid out log that ends there |
| `FileLog.Log.Roll` | internal/storage/log.go:206-217 | a new empty segment at the log end, everything else as it was |
| `FileLog.Log.Append` | internal/storage/log.go:114-140 | the stored batches grow by exactly the patched batch at the log end offset; the high watermark follows unless held; a refused batch stores nothing |
| `FileLog.Log.AppendReplica` | internal/storage/log.go:148-173 | a batch at the log end is stored verbatim, an older one skipped, a later one refused, and the high watermark stays |
| `FileLog.Log.SetHighWatermark` | internal/storage/log.go:185-194 | moves forward only and never past the log end |
| `FileLog.Log.SegmentFor` | internal/storage/log.go:239-247 | the last segment that starts at or before the offset |
| `FileLog.Log.Read` | internal/storage/log.go:223-235 | segment search, index floor and scan together are the reference read over the stored batches, with both edge cases |
| `FileLog.Log.EnforceRetention` | internal/storage/log.go:319-355 | drops exactly the leading segments that are too old or too much, stops at the first that is neither, never drops the active one; what is left is not expired and within the byte limit unless it is the active segment alone; without a byte limit only expired segments go |
| `Wal.PayloadRoundTrip` | internal/storage/object/wal.go:195-226 | a record survives encoding and decoding, for topics under 2^16 and payloads under 2^32 bytes |
| `Wal.ReplaySegment` | internal/storage/object/wal.go:164-192 | on any bytes, hands on the records Replayed defines and reports its errors |
| `Wal.NextFrameIs` | internal/storage/object/wal.go:164-192 | a replay goes on if and only if the magic byte, everything the frame announces and the checksum it announces are there |
| `Wal.ReplayedFrames` | internal/storage/object/wal.go:79-91 | replaying the frames of any records followed by any tail it stops at yields exactly those records |
| `Wal.PrefixStops` | internal/storage/object/wal.go:164-192 | any proper prefix of a frame is such a tail |
| `Wal.CutFrames` | internal/storage/object/wal.go:136-192 | a segment file cut at any byte is some of its records and such a tail |
| `WalFiles.SegmentSeqs` | internal/storage/object/wal.go:233-252 | the segment numbers, ascending |
| `WalFiles.WalLog.Open` | internal/storage/object/wal.go:49-76 | old files stay as they are, a fresh segment numbered above them takes the appends |
| `WalFiles.WalLog.Append` | internal/storage/object/wal.go:79-91 | the active file grows by one frame, the log by one record |
| `WalFiles.WalLog.Seal` | internal/storage/object/wal.go:102-116 | everything so far lies in segments up to the returned number, a new one is open |
| `WalFiles.WalLog.DeleteThrough` | internal/storage/object/wal.go:120-134 | exactly the files up to the number are gone, the others byte for byte the same |
| `WalFiles.WalLog.Replay` | internal/storage/object/wal.go:139-154 | the records of all segments in order, whatever unreadable tails crashes left |
| `WalFiles.CutOnDisk` | internal/storage/object/wal.go:136-192 | the files with the active one cut at any byte are those of the log without its last records, some or none, and bytes replay stops at |
| `ObjectStorage.RefForHolds` | internal/storage/object/storage.go:228-251 | each index entry an upload writes points at exactly its partition's bytes inside the shared object |
| `ObjectRuns.AppendKeeps` | internal/storage/object/storage.go:143-168 | an append keeps the invariant of every partition |
| `ObjectRuns.BeginKeeps` | internal/storage/object/storage.go:208-226 | so does taking the pending buffer and sealing the log |
| `ObjectRuns.FailKeeps` | internal/storage/object/storage.go:267-282 | so does putting a failed snapshot back in front of what was appended meanwhile |
| `ObjectRuns.FinishPart` | internal/storage/object/storage.go:228-263 | putting the object, committing the entries and trimming the log keeps a partition in good order if and only if every entry of it into an old object of that name finds its old bytes in the new one |
| `ObjectRuns.FinishKeepsIff` | internal/storage/object/storage.go:228-263 | and all of them, if and only if that holds of every partition |
| `ObjectLives.SealFailsPart` | internal/storage/object/storage.go:221-226 | putting the buffer back when the log cannot be sealed keeps a partition in good order |
| `ObjectTheorems.RetainKeeps` | internal/storage/object/retention.go:34-84 | retention keeps every partition in good order, including that no entry points at a deleted object |
| `ObjectTheorems.RetainOther` | internal/storage/object/retention.go:34-84 | retention of one partition, in good order or not, leaves the others in good order |
| `ObjectTheorems.ReplicaKeeps` | internal/storage/object/log.go:136-160 | so does a follower's append |
| `ObjectLives.StepKeepsIff` | internal/storage/object/storage.go:62-282 | any step keeps a partition in good order if and only if it does that partition no harm: a put that overwrites what its entries point at, a crash that leaves it nothing to take its offsets from, or one between its commit and the trim |
| `ObjectLives.PartitionOkIff` | internal/storage/object/storage.go:62-282 | over every run, with crashes at any point that may lose the end of the log, and whatever becomes of the other partitions: a partition is in good order in every state if and only if no step does it harm |
| `ObjectLives.EveryReachableStateOk` | internal/storage/object/storage.go:62-282 | so every partition is in every state of a run that harms none: entries, snapshot and pending tile the retained history, and the log holds what is not in the index |
| `ObjectTheorems.Conservation` | internal/storage/object/storage.go:204-282 | the bytes behind the entries, then the snapshot, then pending are exactly the bytes of every batch appended at or above the earliest offset; entries are gap-free; the log holds exactly the un-uploaded batches |
| `ObjectTheorems.PruneIsDrop` | internal/storage/object/index.go:171-187 | the cutoff filter removes exactly the entries the retention loop counted |
| `ObjectTheorems.KeptIs` | internal/storage/object/index.go:171-187 | the prune filter keeps exactly the entries that end above the cutoff and drops exactly the rest |
| `ObjectTheorems.RetainDropsPrefix` | internal/storage/object/retention.go:49-84 | retention drops a prefix of the entries and moves the earliest offset to the first surviving one |
| `ObjectTheorems.RetainCollects` | internal/storage/object/retention.go:49-84 | after retention an object is there, unchanged, if and only if it was and some partition still points at it or no dropped entry did |
| `ObjectTheorems.RetainMeetsBudget` | internal/storage/object/retention.go:51-60 | after retention the partition has no entry left, or its size is within the byte budget and its first entry within the age limit; and the last entry dropped had to go |
| `ObjectReads.ObjectReadExact` | internal/storage/object/read.go:20-44 | a read is the reference read over everything retained, except inside the snapshot being uploaded, where it is empty |
| `ObjectReads.EmptyReadIff` | internal/storage/object/read.go:33-38 | a retained offset reads as empty if and only if it is inside that snapshot |
| `ObjectReads.BackendsIndistinguishable` | internal/storage/object/read.go:20-99 | a file log and an object log holding the same batches give every drain alike, for any read sizes and any history of rolls and uploads, unless this partition is being uploaded |
| `ObjectIndex.RefForOffset` | internal/storage/object/index.go:154-167 | over ordered entries, gaps allowed, binary search finds an entry exactly when a linear walk does, and the same one |
| `ObjectIndex.StoresAgree` | internal/controller/indexstore.go:18-48 | no sequence of operations tells the in-memory store from the one over the replicated metadata |
| `ObjectIndex.StoreHolds` | internal/storage/object/index.go:58-88 | after any operations the store holds exactly the entries committed and not reached by a prune since |
| `ObjectIndex.StoreAnswers` | internal/storage/object/index.go:58-102 | either store, starting empty, answers every operation of any sequence rightly: a load returns and a prune drops exactly the entries committed before and not reached by a prune since, and an object is referenced if and only if one of them points at it |
| `ObjectIndex.FilterInPlace` | internal/controller/fsm.go:128-142 | filtering within the entries' own array leaves exactly the kept ones at its front |
| `ObjectIndex.SortRefs` | internal/storage/object/index.go:117-127 | a sorted arrangement of the stored entries |
| `ObjectIndex.IndexCache.Load` | internal/storage/object/index.go:117-127 | one load step of the index: the partition's entries are those of the store, sorted, and nothing else changes |
| `ObjectIndex.IndexCache.Commit` | internal/storage/object/index.go:130-139 | one commit step: the entry is added at the end of the partition in the store and the cache, and nothing else changes |
| `ObjectIndex.IndexCache.Prune` | internal/storage/object/index.go:171-187 | one prune step: store and cache keep exactly the entries that end above the cutoff, and it returns exactly what the store dropped |
| `ObjectIndex.IndexCache.RefFor` | internal/storage/object/index.go:154-167 | after any run of the index, the stored entry that covers the offset, or that there is none |
| `ObjectIndex.IndexCache.Bounds` | internal/storage/object/index.go:203-222 | after any run of the index, the least and the greatest offset bound of the stored entries |
| `ObjectIndex.IndexRun` | internal/storage/object/index.go:117-187 | after any mix of loads, in-order commits and prunes the cache of a loaded partition is its store's entries, ordered and without overlap |
| `ObjectRecovery.ReplayPart` | internal/storage/object/storage.go:88-104 | replay gives each partition exactly its own records in order, and the offset range they span |
| `ObjectRecovery.CrashPending` | internal/storage/object/storage.go:59-104 | a crash in any reachable state gives each partition back a prefix of its un-uploaded batches, upload in flight or not: all but those whose records were lost |
| `ObjectRecovery.CrashOffsets` | internal/storage/object/storage.go:108-138 | log end and earliest offset are those of what is left if the partition has an entry or a record left; otherwise it restarts at 0 |
| `ObjectRecovery.LogEndSurvives` | internal/storage/object/storage.go:88-138 | with nothing lost the log end survives if and only if the partition has an entry or an un-uploaded batch, or it was 0 |
| `ObjectRecovery.CrashPartIff` | internal/storage/object/storage.go:62-138 | a crash leaves a partition in good order if and only if it has an entry, a record left or no history to lose, and a put just before it left its entries alone |
| `ObjectRecovery.CrashKeepsIff` | internal/storage/object/storage.go:62-138 | and the whole node, if and only if that holds of every partition |
| `ObjectLives.NamesSafeUntilCrash` | internal/storage/object/storage.go:216-228 | from a state whose own entries are older than its name counter, as the first is, every upload up to the next crash has a safe name |
| `ObjectLives.FirstUploadExact` | internal/storage/object/storage.go:216-253 | after a crash at the end of any run that did a partition no harm, and the next upload, its entries all hold if and only if those into an old object of the same name lie within the new one and find their old bytes there |
| `ObjectLives.NamesCollide` | internal/storage/object/storage.go:208-253 | for any two batches, a run of append, upload, append, crash and begin whose upload, once finished, leaves the partition in disorder |
| `ObjectLives.SmallestCollide` | internal/storage/object/storage.go:208-253 | such a run exists: with the two smallest batches |
| `ObjectLives.OffsetsLost` | internal/storage/object/storage.go:108-138 | for any batch, a run of append, upload and retention after which a crash brings the partition back at offset 0 |
| `ObjectRecovery.AppendsInTheWindow` | internal/storage/object/storage.go:208-226 | appends between swap and seal, and after the seal: the log still covers a partition's pending batches after the upload, and a crash returns them, if and only if none of them fell into the window |
| `ObjectDurability.EveryRead` | internal/storage/object/read.go:20-44 | in every state of every run that does the partition no harm, whatever became of the others, a read is the reference read over every batch appended and not lost at or above the earliest offset, except inside a snapshot being uploaded |
| `ObjectDurability.CrashKeepsBatchIff` | internal/storage/object/storage.go:88-104 | a crash keeps an appended batch if and only if it does not lose the batch's record |
| `ObjectDurability.Durable` | internal/storage/object/storage.go:140-168 | a batch appended at any point of such a run is there in every later state, through uploads, failures, retention and crashes that do not lose its record, and a read at its offset returns its bytes unless retention has passed it |
| `ObjectCommits.LateInvisible` | internal/storage/object/storage.go:253-263 | a crash after any of the index commits and before the trim restarts every partition with the offsets and the reads of a crash before them |
| `ObjectCommits.LateOkIff` | internal/storage/object/storage.go:253-263 | a partition is then in good order if and only if its entry was not committed, it has something to take its offsets from, and the put left its older entries alone |
| `ObjectUpkeep.HeldStep` | internal/storage/object/log.go:34-84 | while a partition holds its high watermark a step without a crash moves it only by offering a higher one, and no further than that |
| `ObjectUpkeep.HeldOverRun` | internal/storage/object/log.go:34-84 | over a run without a crash it stays where it was or at most at the highest value offered; appends never move it |
| `ObjectUpkeep.AppendCommits` | internal/storage/object/log.go:49-57 | an append moves the log end to the end of the batch, and the high watermark with it exactly if it is not held |
| `ObjectUpkeep.StepTidyIff` | internal/storage/object/storage.go:204-263 | a step leaves every object pointed at if and only if it is not a crash between a put and the first entry for it |
| `ObjectUpkeep.NoOrphansIff` | internal/storage/object/storage.go:204-263 | in every state of a run every object is pointed at by some partition, if and only if no such crash came before |
| `ObjectNode.BuildObject` | internal/storage/object/storage.go:228-251 | the upload loop lays out every buffered partition once, in the byte order of their names, and records where each went |
| `ObjectNode.NameInjective` | internal/storage/object/index.go:224-226 | different partitions have different names, whatever bytes their topics hold |
| `ObjectNode.RestoreBuffer` | internal/storage/object/storage.go:267-282 | every partition's snapshot in front of its newer batches, and the counter equal to the sum |
| `ObjectNode.CountDropped` | internal/storage/object/retention.go:51-60 | the retention loop counts what DropCount defines |
| `ObjectNode.CollectLoop` | internal/storage/object/retention.go:73-82 | an object is left, unchanged, if and only if it was there and a partition references it or no dropped entry did |
| `ObjectBackend.ReplayInto` | internal/storage/object/storage.go:88-104 | replaying the files rebuilds the pending buffer, its byte count and the recovered ranges |
| `ObjectBackend.Storage.Create` | internal/storage/object/storage.go:62-84 | a new storage shows the initial state |
| `ObjectBackend.Storage.Reopen` | internal/storage/object/storage.go:62-104 | a storage opened over what a crash left shows exactly the restarted state |
| `ObjectBackend.Restart` | internal/storage/object/storage.go:59-138 | the active file of the write-ahead log cut at any byte, then a new life over the files: each partition that was in good order gets back a prefix of its un-uploaded batches and the offsets to match |
| `ObjectBackend.Resume` | internal/storage/object/storage.go:59-138 | a partition's handle in the next life is valid, and the partition in good order if and only if it was recoverable and no put overwrote its entries |
| `ObjectBackend.Storage.Append` | internal/storage/object/storage.go:143-168 | one append step: log file, buffer and counter |
| `ObjectBackend.Storage.BeginUpload` | internal/storage/object/storage.go:204-226 | one begin step, or nothing if nothing is pending |
| `ObjectBackend.Storage.FinishUpload` | internal/storage/object/storage.go:228-263 | one finish step: object, entries and trimmed log |
| `ObjectBackend.Storage.FailUpload` | internal/storage/object/storage.go:253-282 | one fail step |
| `ObjectBackend.Storage.UploadUnsealed` | internal/storage/object/storage.go:204-226 | one step of an upload whose log cannot be sealed: what was buffered is back, and only the name counter has moved |
| `ObjectBackend.Storage.Upload` | internal/storage/object/storage.go:204-263 | begin then finish, or begin then fail, by what the object store answers |
| `ObjectBackend.Storage.Size` | internal/storage/object/retention.go:16-27 | the lengths of all entries plus the pending bytes |
| `ObjectBackend.Storage.EnforceRetention` | internal/storage/object/retention.go:34-84 | one retention step, and the cutoff it returns; which entries and objects that step drops is `ObjectTheorems.RetainMeetsBudget` and `ObjectTheorems.RetainCollects` |
| `ObjectBackend.Storage.Read` | internal/storage/object/read.go:20-44 | the bytes ObjectRead defines |
| `ObjectBackend.ObjectLog.Open` | internal/storage/object/storage.go:108-138 | the offsets a partition is reopened with; over a storage whose machine has just them the handle is valid |
| `ObjectBackend.ObjectLog.Append` | internal/storage/object/log.go:34-58 | the batch is patched at the log end offset and one append step is taken; the log end is the end of the batch, the high watermark follows it unless it is held; a refused batch changes nothing |
| `ObjectBackend.ObjectLog.AppendReplica` | internal/storage/object/log.go:136-160 | a batch at the log end is one replica step and moves the log end to its end, an older one is skipped, a later one refused, the high watermark stays |
| `ObjectBackend.ObjectLog.SetHighWatermark` | internal/storage/object/log.go:68-77 | as for the file log |
| `ObjectBackend.ObjectLog.HoldHighWatermark` | internal/storage/object/log.go:80-84 | appends no longer move the high watermark |
| `ObjectBackend.ObjectLog.Read` | internal/storage/object/log.go:111-123 | the reference read of the backend interface, except inside a snapshot being uploaded |
| `ObjectBackend.ObjectLog.EnforceRetention` | internal/storage/object/log.go:171-182 | one retention step; the earliest offset never moves back |
| `ObjectBackend.Perform` | internal/storage/object/storage.go:39-57 | any operation, in a first life or a later one, keeps the fields showing the machine's state, the node as a whole in order, and every partition in good order that was and whose entries no put overwrites |
| `Timestamps.ScanTimestamp` | internal/storage/object/read.go:102-114 | the first batch of the data that is recent enough |
| `Timestamps.FirstSinceIs` | internal/storage/log.go:254-275 | the lookup by time finds the first batch whose largest timestamp is recent enough, or there is none |
| `Timestamps.FileLookup` | internal/storage/log.go:254-275 | the first batch the file log holds that is recent enough |
| `Timestamps.ObjectLookup` | internal/storage/object/read.go:50-69 | the same over the uploaded slices and the pending buffer |
| `Timestamps.ObjectLookupExact` | internal/storage/object/read.go:50-69 | this is the first among everything retained, if and only if that one is not in the snapshot being uploaded |
| `Replication.TakenIs` | internal/replication/replication.go:200-212 | a follower takes from any run of the leader's log exactly the batches it lacks, or refuses a run beyond its end |
| `Replication.HandleKeeps` | internal/server/handlers.go:339-361 | answering a fetch keeps the term's invariant, never lowers the high watermark, and leaves in-sync followers caught up that were |
| `Replication.AdvanceKeeps` | internal/broker/broker.go:187-213 | so does re-deriving the high watermark: it lands on a batch boundary no in-sync follower is short of |
| `Replication.LeastIs` | internal/broker/broker.go:196-210 | the minimum is at most the log end and every other in-sync replica's recorded offset, 0 if none, and is one of these |
| `Replication.AdvanceReaches` | internal/broker/broker.go:187-213 | the high watermark reaches every offset of the log that all in-sync followers are on record for |
| `Replication.AdvanceNoFurther` | internal/broker/broker.go:187-213 | and moves only to an offset they are all on record for |
| `Replication.LastFetchCommits` | internal/server/handlers.go:339-361 | once the last in-sync follower's fetch at the log end is handled the high watermark is at the log end |
| `Replication.CanCommit` | internal/replication/replication.go:166-215 | every run of a term can go on to a state with the same log and the high watermark at its end |
| `Replication.ApplyKeeps` | internal/replication/replication.go:197-214 | so does applying any response ever sent, in any order and any number of times |
| `Replication.ApplyReaches` | internal/replication/replication.go:197-214 | a follower's high watermark reaches the one reported, as far as its log reaches, unless the response left a gap, and goes no further |
| `Replication.IsrKeeps` | internal/broker/broker.go:310-316 | so does committing any in-sync set of known replicas, as far as the invariant goes |
| `Replication.SafeInViewIff` | internal/broker/broker.go:187-213 | whatever the followers really hold, a new in-sync set is safe in every state the leader cannot tell from this one if and only if each member is the leader, in sync already, or on record as having reached the high watermark |
| `Replication.CarefulInSync` | internal/broker/broker.go:284-317 | a leader that commits only in-sync sets it can see to be safe has every in-sync replica caught up in every state |
| `Replication.DesiredIsSafeIff` | internal/broker/broker.go:284-308 | the set maintainPartitionISR wants is safe if and only if every recently heard replica it would add is on record as having reached the high watermark |
| `Replication.RecencyIsNotEnough` | internal/broker/broker.go:284-317 | for any batch, a run from empty logs that commits it, puts a recently heard replica without it in sync as maintainPartitionISR wants, and lets checkFailover elect that replica |
| `Replication.SmallestNotEnough` | internal/broker/broker.go:284-317 | such a run exists: with the smallest batch |
| `Replication.TermSafety` | internal/replication/replication.go:166-215 | in every state of every run of a term, whatever in-sync sets are committed: follower logs are prefixes of the leader's, their high watermarks at most their log ends and the leader's high watermark, and that on a batch boundary |
| `Replication.InSyncHoldsCommitted` | internal/broker/broker.go:187-213 | in every state of every run an in-sync follower that was not put in sync short of the high watermark holds all committed batches |
| `Replication.CommittedGrows` | internal/broker/broker.go:165-213 | along a run the high watermark, the committed batches and every follower's log only grow |
| `Replication.AckedIsCommitted` | internal/server/handlers.go:206-277 | once the high watermark reaches an append's log end, the whole append is below it, whatever in-sync sets were committed |
| `Replication.AckedIsReplicated` | internal/server/handlers.go:206-277 | and on every in-sync follower that was not put in sync short of the high watermark |
| `Replication.ElectedHoldsCommitted` | internal/controller/liveness.go:121-144 | whichever survivor is elected is a follower of the leader, as is every node left in sync, and each of them not put in sync short of the high watermark holds every committed batch |
| `Replication.FreshTermOk` | internal/controller/fsm.go:88-96 | a partition just created satisfies the term's invariant |
| `Serving.BackendServes` | internal/server/handlers.go:335-347 | what either backend reads at a batch boundary is what the protocol may serve |
| `Serving.LeastLoop` | internal/broker/broker.go:196-210 | the loop's result is at most the log end and every other in-sync replica's recorded offset, and is one of these |
| `Serving.LeaderPartition.AdvanceHighWatermark` | internal/broker/broker.go:187-213 | the high watermark reaches every offset of the log that all in-sync followers are on record for, and otherwise stays |
| `Serving.LeaderPartition.ServeReplica` | internal/server/handlers.go:339-361 | a follower's fetch: the batches read are a run the protocol may serve, handling a request that was sent is an enabled step with just those batches, and a leader showing a state of the protocol shows the state after it |
| `Serving.ApplyResponse` | internal/replication/replication.go:200-213 | the follower's log grows by exactly the batches it lacks, up to a gap, and takes over the high watermark unless there was one; a log showing a follower of the protocol shows the follower after its Apply step |
| `Serving.Clamp` | internal/server/handlers.go:376-393 | keeps the leading batches that end at or below the high watermark |
| `Serving.ClampExact` | internal/server/handlers.go:373-393 | these hold exactly the records below the high watermark, if and only if it does not fall inside a batch |
| `Serving.HwmNeverSplits` | internal/server/handlers.go:373-376 | within a term it never does |
| `Serving.Produce` | internal/server/handlers.go:186-211 | the log grows by the request's batches in order at consecutive offsets, as the leader's log does; the answer is the first one's; acks=all waits just when something was appended and the set was read to its end |
| `Serving.GivenChain` | internal/server/handlers.go:193-199 | the offsets given cover the new range without gap |
| `Serving.Committed` | internal/server/handlers.go:262-277 | succeeds just when some poll saw the target reached |
| `Serving.AwaitCommit` | internal/server/handlers.go:239-259 | times out just when it waits and no poll reaches the target |
| `Serving.AcksAllExact` | internal/server/handlers.go:192-211 | whatever state the leader appends in, an acks=all answer without error means in every run that the batches are committed, if and only if the record set was read to its end or held no batch |
| `Metadata.Fsm.ApplyCommand` | internal/controller/fsm.go:86-159 | the new placement, and whether the command was refused |
| `Metadata.CreatesTopic` | internal/controller/fsm.go:88-96 | a topic that is not there gets one partition per replica list, led by the first replica with all in sync and epoch 0; every other topic stays; one that is there is left alone |
| `Metadata.AddsPartitions` | internal/controller/fsm.go:97-103 | a topic that is there gets as many such partitions behind its own, which stay as they are |
| `Metadata.ChangesLeader` | internal/controller/fsm.go:105-112 | the named partition, and nothing else, gets the leader, the in-sync set and the next 32-bit epoch |
| `Metadata.ChangesIsr` | internal/controller/fsm.go:114-120 | the named partition, and nothing else, gets the in-sync set and keeps its leader and epoch |
| `Metadata.Fsm.ApplyLog` | internal/controller/fsm.go:74-84 | replaying a log gives the state after it |
| `Metadata.PartsFromReplicas` | internal/controller/fsm.go:164-174 | first replica leads, all in sync, epoch 0; no replica, no leader |
| `Metadata.ReplicasFor` | internal/cluster/cluster.go:121-135 | rf different brokers (clamped to what there is), the first the one LeaderFor names, the others those that follow it round the list |
| `Metadata.StartsInTurn` | internal/cluster/cluster.go:106-135 | partition 0 starts at the hash and each next one a broker further round, except where the 32-bit sum wraps to 0 |
| `Metadata.CheckFailover` | internal/controller/liveness.go:121-144 | commits if and only if the leader is down and the first in-sync replica that is up is another: that one, with the survivors in sync |
| `Metadata.FailoverIs` | internal/controller/liveness.go:121-144 | a leader that is up is never deposed; the one elected is the first in-sync node that is up, and exactly the in-sync nodes that are up stay in sync |
| `Metadata.DesiredIsr` | internal/broker/broker.go:284-308 | this node and the replicas heard from within the timeout, or not yet within it of starting to lead, in replica order |
| `Metadata.MaintainIsr` | internal/broker/broker.go:284-317 | on a placed partition a change is proposed exactly when the wanted set names other nodes than the committed one |
| `Metadata.SameNodeSet` | internal/broker/broker.go:320-334 | equal lengths and everything of the second in the first |
| `Metadata.SameNodeSetExact` | internal/broker/broker.go:319-334 | on lists without repetition, which the placement theorem says they are, that is exactly set equality |
| `Metadata.SameNodeSetRepeats` | internal/broker/broker.go:319-334 | on any lists a yes is right if and only if both name equally many nodes |
| `Metadata.PlacementHolds` | internal/controller/fsm.go:86-174 | after every prefix of a log whose commands were computed from any earlier states, applied late or twice: leader among the replicas, in-sync set a non-empty subset of them without repetition |
| `Metadata.StaleChangeOk` | internal/controller/liveness.go:121-144 | one such command places its partition again |
| `Metadata.PrefixesAgree` | internal/controller/fsm.go:86-146 | a longer prefix has every partition of a shorter one, no fewer per topic, the same replicas, an epoch at least as high, and the same leader at the same epoch |
| `Metadata.SameEpochSameLeader` | internal/controller/fsm.go:211-219 | two nodes that report the same epoch for a partition report the same leader |
| `Metadata.IsrChangeKeepsLeaderIff` | internal/broker/broker.go:310-316 | an ISR change, however late it is applied, leaves the leader of that moment in sync if and only if it counted as recent when the change was computed; and it does if the epoch is still the same |
| `Metadata.LeaderInSyncIff` | internal/controller/fsm.go:105-120 | every leader is in sync after every prefix of the log if and only if every ISR change names the leader of the state it is applied to |
| `Metadata.LeaderInSync` | internal/controller/fsm.go:105-120 | and so it is when every ISR change was computed in the epoch it is applied in |
| `Metadata.StaleIsrDropsLeader` | internal/broker/broker.go:310-316 | a late ISR change can leave the leader out of the in-sync set |
| `Coordinator.Fencing` | internal/group/coordinator.go:204-261 | over every run generations never decrease, and equal generations mean the same members and leader, and stay stable once they are |
| `Coordinator.RunOk` | internal/group/coordinator.go:354-372 | the group is empty exactly when it has no members, otherwise a member leads it |
| `Coordinator.StepIs` | internal/group/coordinator.go:204-372 | after any step: exactly who is a member, the generation, the state, the protocol, and that the leader stays if it is still a member |
| `Coordinator.StepMember` | internal/group/coordinator.go:204-372 | a member after any step: its protocols, timeout, last heartbeat and whether it has synced |
| `Coordinator.HeardSurvives` | internal/group/coordinator.go:396-411 | a member is reaped if and only if it was silent for longer than its session timeout, so one just heard from survives every reap within it |
| `Coordinator.MissingIff` | internal/group/coordinator.go:338-411 | over every run a member of one state is missing from the next if and only if the step between removes it |
| `Coordinator.ListedThroughout` | internal/group/coordinator.go:255-259 | the list handed to the leader names exactly the members at every moment of its generation |
| `Coordinator.WaiterIsMember` | internal/group/coordinator.go:298-308 | a follower woken in the generation it waited in is still a member |
| `Coordinator.SyncReturns` | internal/group/coordinator.go:289-308 | a completed Sync returns what the last accepted Sync of the leader to name the member since it joined gave it; that one is of this generation if and only if one of this generation names the member, and after a timeout none does |
| `Coordinator.FullAssignment` | internal/group/coordinator.go:289-308 | if every Sync of the leader in a generation names every member, each member's Sync in the stable group returns what a step of this generation gave it, with no later step naming it |
| `Coordinator.OldAssignmentSurvives` | internal/group/coordinator.go:228-243 | in any run a rejoin of a stable group opens a generation of the same leader in which the member holds its old assignment and no step of the generation gave it one |
| `Coordinator.OldAssignmentRun` | internal/group/coordinator.go:289-308 | a run of two joins, a leader Sync and a rejoin after which the follower holds the bytes of the generation before |
| `Coordinator.ConsumerGroup.Join` | internal/group/coordinator.go:204-261 | the group after a join, and the answer: generation, leader, protocol, and for the leader the full member list |
| `Coordinator.ConsumerGroup.SyncBegin` | internal/group/coordinator.go:273-297 | unknown member, wrong generation, the leader's assignments stored, or a follower starts to wait |
| `Coordinator.ConsumerGroup.SyncWake` | internal/group/coordinator.go:298-308 | a woken follower is told of a rebalance, gets its assignment, or waits on |
| `Coordinator.ConsumerGroup.Heartbeat` | internal/group/coordinator.go:314-333 | the four answers, and that an accepted beat changes only the time that member was heard from |
| `Coordinator.ConsumerGroup.Leave` | internal/group/coordinator.go:338-351 | exactly that member is gone, the others keep protocols, assignment, heartbeat and timeout, the leader stays if it can, else another member leads, and the next generation is open; or the member was unknown and nothing changes |
| `Coordinator.ConsumerGroup.Reap` | internal/group/coordinator.go:396-411 | exactly the members silent for longer than their session timeout are gone, the others as after Leave, in one new generation |
| `Coordinator.ConsumerGroup.Remove` | internal/group/coordinator.go:354-372 | exactly the given members are gone and the others as after Leave; the group is empty if and only if nobody is left |
| `Coordinator.ListMembers` | internal/group/coordinator.go:255-259 | every member once, with its metadata for the protocol |
| `Coordinator.ChooseProtocol` | internal/group/coordinator.go:418-428 | the leader's first protocol, else some member's first, else none |
| `Coordinator.FindMetadata` | internal/group/coordinator.go:431-441 | the metadata of the first protocol of that name, else of the first |
| `FetchCodec.Reader.Take` | internal/kbytes/reader.go:38-49 | the next n bytes, or an error that sticks and moves nothing |
| `FetchCodec.Reader.ReadInt` | internal/kbytes/reader.go:51-81 | the signed value of the next n bytes; 0 and the sticky error otherwise |
| `FetchCodec.Reader.ReadString` | internal/kbytes/reader.go:98-105 | reads back any string that was written; on any other bytes exactly the field there, empty if null or not all there, with where it ends and whether it is an error |
| `FetchCodec.Reader.ReadNullable` | internal/kbytes/reader.go:108-116 | the same for nullable strings, null and empty told apart |
| `FetchCodec.Reader.ReadBytes` | internal/kbytes/reader.go:119-131 | the same for byte slices, absent if null or not all there |
| `FetchCodec.Reader.ReadArrayLen` | internal/kbytes/reader.go:134-144 | on any bytes the length there, 0 if null, not all there or more than the bytes left, and the last two an error |
| `FetchCodec.Writer.WriteInt` | internal/kbytes/writer.go:14-23 | appends the big-endian bytes |
| `FetchCodec.Writer.WriteString` | internal/kbytes/writer.go:35-38 | appends length and bytes |
| `FetchCodec.Writer.WriteNullable` | internal/kbytes/writer.go:41-47 | appends -1 for an absent string |
| `FetchCodec.Writer.WriteBytes` | internal/kbytes/writer.go:50-57 | appends -1 for an absent slice |
| `FetchCodec.DecodeHeader` | internal/protocol/header.go:16-23 | reads back any request header |
| `FetchCodec.DecodeRequest` | internal/protocol/fetch.go:33-67 | at every version, reads back any request that version carries, with any topics and partitions, and stands right behind it; on other bytes the error sticks |
| `FetchCodec.EncodeFetch` | internal/replication/replication.go:218-242 | the framed request: header v1 and a version 4 fetch of one partition |
| `FetchCodec.RequestRoundTrip` | internal/replication/replication.go:218-242 | the broker decodes it to the fields the follower put in, with no byte left over |
| `FetchCodec.EncodeResponse` | internal/protocol/fetch.go:94-125 | the response body at every version |
| `FetchCodec.ReadFetchResponse` | internal/replication/replication.go:254-293 | any version 4 response, of any number of topics and partitions, is read back as its first partition's error code, high watermark and records; other bytes give an error or some result, never a partial one with an error |
| `FetchCodec.ResponseRoundTrip` | internal/replication/replication.go:254-293 | what the broker encodes the follower decodes |

## Left out

- Segments that have been rolled past are frozen values, not objects: the model does not capture that their file handles stay shared and mutable.
- The swap of the pending buffer with the sealing of the write-ahead log, and an append's log write with its buffering, are single steps of the runs; what the gap between them costs is `ObjectRecovery.AppendsInTheWindow`.
- Putting an object and committing its entries is one step with respect to retention, and index commits succeed; the code returns without restoring when one fails.
- Logs across several leader terms: nothing truncates a follower that was ahead of a new leader, so prefix claims are stated for one term, over which the set of followers stays the same. The progress a leader remembers from an earlier term is assumed to be true of its followers.
- The leader's log during a term is modelled as the batches ever appended, retained or not.
- Overflow of 32-bit positions and sizes in segments and of 64-bit offsets.
- I/O errors other than a failed put, fsync, file handles, directory listing and permissions.
- Locks, goroutines, tickers, deadlines and connections: steps are atomic where the code holds a lock, and time is an input.
- Raft itself, snapshots and JSON: the metadata log is taken as agreed.
- Record.Iterate: the callback's own errors are modelled at its callers; a header announcing no bytes or fewer, on which the loop would stand still or fail, is excluded.
- FileLog.Log.Append: slices under 21 bytes, which cannot be patched; and a slice whose header parses is exactly one batch, which record.Iterate ensures for its callers.
- FileLog.Log.AppendReplica: a slice whose header parses is exactly one batch, which record.Iterate ensures for its callers.
- ObjectBackend.ObjectLog.Append: as for the file log.
- ObjectBackend.ObjectLog.AppendReplica: as for the file log.
- Serving.Produce: one partition of one request; a log refuses no batch that record.Iterate hands it, I/O errors aside.
- Metadata.Fsm.ApplyCommand: the index entries that travel in the same log are modelled by `ObjectIndex` instead.
- Coordinator.ConsumerGroup.Join: group creation and lookup by name, and the random part of a made-up member id.
- Serving.Committed: the deadline and the sleeping between polls; what it polls is a list of values.
- The remaining protocol messages, offset storage, configuration, metrics, topic creation plumbing and listings: they would only add easy members.

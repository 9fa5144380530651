# Verified model of the NimbusFS storage node

NimbusFS keeps file content as chunks named by their SHA-256 digest. This project models the parts of it
that are hard to get right and proves what they are for:

- **The chunk store on disk.** `DiskMachine` is a step machine: any number of threads inside Put, Get, Delete
  and Exists, one system call per step, every call free to fail, and a crash possible between any two steps.
  Rename is atomic, fsync makes content durable, and a directory change may be undone by a crash until its
  directory is fsynced. On it stand linearizability (`DiskLinearizability`, `DiskRealTime`, `DiskReplies`), crash
  atomicity and durability (`DiskCrash`), counter accounting (`DiskAccounting`) and lock progress
  (`DiskProgress`), all resting on one inductive invariant (`DiskInvariant`); `DiskSolo` follows one call alone,
  `DiskTemps` the temporary files.
  `LocalDiskStore` is the same store one call at a time, as a class over a tree of files. The two agree
  (`DiskBigStep`), and both are measured against one atomic map, `AtomicStore`.
- **The bounded blocking queue.** `BlockingQueue` holds the critical sections as a class and the monitor as a
  step machine with spurious wakeups, timeouts and barging. `BlockingQueueSafety` is its invariant,
  `BlockingQueueTheorems` what follows: no lost wakeups, order, conservation, shutdown.
- **The streaming service and the cluster.** `Framing`, `Service` and `Cluster`: the handlers over message
  sequences, what each of their answers means (`ServiceReplies`), and many nodes that replicate from each other
  over streams that may be cut, with disks that go bad.
- **Chunk ids, the fault-injecting wrapper, the path validator.** `HexCodec`, `ChunkIds`, `FaultInjection`,
  `PathValidator`.

SHA-256 is a parameter: any function from bytes to 32 bytes, never assumed injective. Where equal bytes are
concluded (`Cluster.ClusterAgreement`) collision-freedom over the payloads of the run is a hypothesis. The
outcome of every system call, the UUID of a temporary file, the order of a directory listing, the messages that
arrive and the limit `max_chunk_bytes_` are parameters too. Counters are 64-bit and wrap explicitly.

`dafny verify dfyconfig.toml` checks the whole project.

## What the code does that its documentation or intent does not say

- Put holds the stripe lock and calls Exists, which locks the same `std::mutex`. Whether the owner may re-enter
  is a field of `DiskMachine.Config`. Safety holds either way; with plain locks no Put gets past that point
  (`DiskProgress.PlainLockPutNeverReturns`, `PlainLockStoreStaysEmpty`), with re-entry everything runs to rest
  (`DiskProgress.RunsToRest`, `RunsToRestCleanly`).
- A failed `exists` or `file_size` call reads as "no such file". A Put then renames over a present chunk and
  counts it twice (`DiskSolo.BlindPutOverCounts`; the statistics are exact iff this has not happened,
  `DiskAccounting.QuiescentStats`, `OverCountNeedsBlindPut`). A Delete answers Ok and deletes nothing, a Get
  answers NotFound (`DiskSolo.BlindAnswer`; `DiskSolo.FailedStat` is the exact condition, and
  `DiskReplies.RepliesAreTruthful` says that nothing else makes a reply untrue).
- An acknowledged Put may be lost in a crash, for three reasons: its directory fsync failed, which is only
  logged (`DiskSolo.OkPutMayBeLost`); nobody fsyncs the parent of a new shard directory
  (`DiskSolo.OkPutMayBeLostWithShard`); or it deduplicated, which fsyncs nothing
  (`DiskSolo.DuplicatePutMayBeLost`). `DiskSolo.OkPutLossExactly` is the exact condition for one Put,
  `DiskReplies.AcknowledgedPutLoss` and `DiskCrash.CrashOutcomes` for every run.
- Delete fsyncs nothing either, so a deleted chunk may come back (`DiskCrash.DeleteMayBeUndone`).
- ReplicateChunk checks the declared size but no frame. In a cluster of these nodes the limit holds all the same
  (`Cluster.ClusterSafety`), because GetChunk declares the true size; `Service.OversizedExample` is a source that
  gets past it, `Service.OversizedReplication` the exact condition.
- `FromHexString` alone accepts pairs such as "+1" and " 1"; the filter in `ChunkId::Parse` is what makes the
  codec a bijection (`HexCodec.LooseParser`, `PlusOneIsAccepted`, `ChunkIds.ParseAcceptsExactlyPrinted`).
- docs/protocol-versioning.md asks for the version check first; PutChunk and DeleteChunk parse the id first
  (`Service.UnsupportedVersionGoesUnnoticed`; `Service.VersionAfterId` is the exact condition).
- The fault wrapper's call counter is a `size_t`; after 2^64 calls an armed fault pauses
  (`FaultInjection.CounterWraps`; `FaultInjection.FaultDecision` is the exact condition).

## Model

| member | source | states |
|---|---|---|
| `DiskLinearizability.Linearizable` | services/storage_node/src/local_disk_chunk_store.cpp:93-264 | Every run of any number of threads, with any failures and crashes, is a run of the atomic map with the same invocations, replies and crashes; each call commits exactly once between its invocation and its reply, and the final states correspond. |
| `DiskLinearizability.StepSimulates` | services/storage_node/src/local_disk_chunk_store.cpp:93-264 | Each system call of each operation either commits the whole atomic operation (rename for Put, remove for Delete, the probe or read otherwise), returns its reply, or is invisible. |
| `DiskLinearizability.SequentialHistory` | services/storage_node/src/local_disk_chunk_store.cpp:93-264 | Without a crash, the replies the threads decide on and the final contents are those of running the committed operations one at a time in commit order. |
| `DiskRealTime.ReturnedCall` | services/storage_node/src/local_disk_chunk_store.cpp:93-264 | Every call that returns, in every run, is one event of that history, committed exactly once between its invocation and its return, and returns that event's reply. |
| `DiskRealTime.RealTimeOrder` | services/storage_node/src/local_disk_chunk_store.cpp:93-264 | A call that returns before another is invoked stands before it in the history. |
| `DiskLinearizability.ProbesSucceedTrace` | services/storage_node/src/local_disk_chunk_store.cpp:103-106 | If no `exists`/`file_size` call errs along a run, no operation of it commits with a probe fault. |
| `DiskLinearizability.FaultlessRun` | services/storage_node/src/local_disk_chunk_store.cpp:93-264 | If no system call fails along a run, every operation commits without any fault, so the store is the plain map. |
| `DiskLinearizability.NeverCorrupt` | services/storage_node/src/local_disk_chunk_store.cpp:217-222 | With no outside edits a Get never reports corruption. |
| `AtomicStore.AtomicFrame` | services/storage_node/src/local_disk_chunk_store.cpp:93-264 | An atomic operation touches no key but its own, an error reply changes nothing, and stored bytes were there before or hash to their key. |
| `AtomicStore.FaultlessMeaning` | services/storage_node/src/local_disk_chunk_store.cpp:93-264 | Without faults: Put succeeds iff the hash matches and leaves the chunk readable, Get returns exactly what is stored, Delete leaves it absent, Exists tells the truth. |
| `AtomicStore.ErrorMeaning` | services/storage_node/src/local_disk_chunk_store.cpp:94-263 | Under every fault: which error each operation gives exactly when, and what Exists answers. |
| `AtomicStore.DeleteDoneButPresent` | services/storage_node/src/local_disk_chunk_store.cpp:241-246 | Of the atomic operation: Delete answers Ok and leaves the chunk in place iff its size probe failed on a present chunk (of the step machine: `DiskSolo.FailedStat`). |
| `DiskSolo.FailedStat` | services/storage_node/src/local_disk_chunk_store.cpp:188-246 | At the `file_size` call of a Delete or Get: the call goes on to answer Ok, or NotFound, with the chunk in place iff `file_size` failed on a present chunk. |
| `DiskSolo.BlindAnswer` | services/storage_node/src/local_disk_chunk_store.cpp:236-246 | From every state where a Delete or Get of a present chunk can take its lock there is a run in which it answers Ok, or NotFound, and the chunk is still there. |
| `DiskReplies.RepliesAreTruthful` | services/storage_node/src/local_disk_chunk_store.cpp:93-264 | In every reachable state a reply about to be given is true of the store as it is then: Ok of Put means present, bytes of Get are the stored ones, and unless the call's own probe failed, Ok of Delete and NotFound of Get mean absent and Exists is exact. |
| `DiskReplies.IoErrorExactly` | services/storage_node/src/local_disk_chunk_store.cpp:108-160 | A call decides on IoError exactly when a system call it cannot do without fails. |
| `DiskBigStep.ModelsAgree` | services/storage_node/src/local_disk_chunk_store.cpp:93-264 | Run alone on the step machine with any outcome of each system call, each of the four operations returns and leaves what the class methods return and leave for these outcomes. |
| `DiskTemps.FailedPutsCleanUp` | services/storage_node/src/local_disk_chunk_store.cpp:136-160 | At the rest of every run without a crash in which no removal of a temporary file fails, whatever else fails, no temporary file is left. |
| `AtomicStore.GetReturnsVerifiedBytes` | services/storage_node/src/local_disk_chunk_store.cpp:217-225 | Get hands out bytes only if they hash to the id and are the stored ones, whatever is on disk. |
| `DiskInvariant.RunKeeps` | services/storage_node/src/local_disk_chunk_store.cpp:93-264 | The inductive invariant (lock ownership and depth, what each program position knows about its files, synced hash-correct final files) holds along every run, across crashes, re-entrant locks or not. |
| `DiskInvariant.Exclusion` | services/storage_node/src/local_disk_chunk_store.cpp:101-101 | Two threads inside critical sections are on different stripes, hence on different chunks. |
| `DiskInvariant.StepFrame` | services/storage_node/src/local_disk_chunk_store.cpp:101-177 | A step changes no other thread, no other chunk and no other id's temporary files, and changes files only inside the critical section. |
| `DiskCrash.CrashAtomicity` | services/storage_node/src/local_disk_chunk_store.cpp:116-171 | After a crash at any point of any run every final path is absent or holds complete bytes that hash to its id, and the chunk had those bytes at an earlier moment with no successful fsync of its directory and no restart since. |
| `DiskCrash.ImagesAreHistory` | services/storage_node/src/local_disk_chunk_store.cpp:155-171 | What a crash may bring back at a final path is exactly what was there at some moment since the entry was last settled. |
| `DiskCrash.CrashOutcomes` | services/storage_node/src/local_disk_chunk_store.cpp:108-171 | The outcomes of a crash, exactly, from the history of the run: with which bytes a chunk may come out, and when it may be gone. |
| `DiskCrash.DirectorySyncSettles` | services/storage_node/src/local_disk_chunk_store.cpp:162-171 | After the directory fsync of a Put the entry may still be undone iff the fsync failed and the entry could be undone before. |
| `DiskCrash.AcknowledgedPutIsDurable` | services/storage_node/src/local_disk_chunk_store.cpp:155-180 | Once its directory fsync has succeeded a chunk is present and hash-correct at the end of every continuation, through any number of crashes, that does not delete it or lose the shard directory itself. |
| `DiskCrash.OnlyDeleteRemoves` | services/storage_node/src/local_disk_chunk_store.cpp:155-180 | If the shard directory is on disk as well, only a removal of the chunk can take it away, whatever crashes follow. |
| `DiskReplies.AcknowledgedPutLoss` | services/storage_node/src/local_disk_chunk_store.cpp:103-180 | In every run, a Put about to answer Ok has its hash-correct chunk in place, and a crash may then lose it iff the chunk was absent at some moment since the last successful fsync of its directory or restart, or the shard directory never reached the disk. |
| `DiskSolo.OkPutLossExactly` | services/storage_node/src/local_disk_chunk_store.cpp:103-180 | For one Put from its start to its Ok: a crash may lose the chunk iff the shard directory is not on disk, or the chunk could be found absent before and the call fsynced nothing, because the fsync failed or because it deduplicated. |
| `DiskSolo.OkPutMayBeLostWithShard` | services/storage_node/src/local_disk_chunk_store.cpp:108-180 | Every call succeeds, the Put answers Ok, and a crash that loses the new shard directory loses the chunk, though no crash that keeps the directory can. |
| `DiskSolo.DuplicatePutMayBeLost` | services/storage_node/src/local_disk_chunk_store.cpp:103-106 | A Put that finds an unsettled chunk answers Ok without any fsync, and a crash that loses no directory may lose the chunk. |
| `DiskCrash.DeleteMayBeUndone` | services/storage_node/src/local_disk_chunk_store.cpp:248-257 | Delete fsyncs nothing: while nobody stores the chunk again, a crash may bring it back, with its bytes, exactly until a Put into the shard has fsynced the directory or a restart has found it absent. |
| `DiskCrash.ChunksAreHoused` | services/storage_node/src/local_disk_chunk_store.cpp:108-114 | Whatever a crash may bring back at a final path lies in a shard directory that some Put has created. |
| `DiskSolo.OkPutMayBeLost` | services/storage_node/src/local_disk_chunk_store.cpp:164-180 | From every state where a Put of an absent chunk can start there is a run in which only its directory fsync fails, it answers Ok, and a crash that loses no directory may lose the chunk. |
| `DiskAccounting.RunAccounted` | services/storage_node/src/local_disk_chunk_store.cpp:176-177 | At every moment of every run both counters equal, modulo 2^64, the number and total size of the files, plus what was renamed over, less what operations between file change and counter update still owe. |
| `DiskAccounting.QuiescentStats` | services/storage_node/src/local_disk_chunk_store.cpp:266-276 | Whenever a run comes to rest the statistics are exact iff nothing was renamed over since the last restart. |
| `DiskAccounting.SubtractionsNeverWrap` | services/storage_node/src/local_disk_chunk_store.cpp:253-254 | In every run from the empty store with fewer than 2^64 files and bytes, each `fetch_sub` finds at least what it subtracts in the counter. |
| `DiskAccounting.OwedFits` | services/storage_node/src/local_disk_chunk_store.cpp:176-177 | What Puts in flight owe fits into the files on disk, with room for what a Delete in flight will subtract. |
| `DiskAccounting.OverCountNeedsBlindPut` | services/storage_node/src/local_disk_chunk_store.cpp:103-177 | The over-count grows at a step iff that step is the rename of a Put over a present chunk after its existence probe failed. |
| `DiskAccounting.NoProbeFaultNoDrift` | services/storage_node/src/local_disk_chunk_store.cpp:103-177 | If no probe fails along a run, nothing is ever counted twice. |
| `DiskSolo.BlindPutOverCounts` | services/storage_node/src/local_disk_chunk_store.cpp:103-177 | From every state where a Put of a present chunk can start, a failed probe leads to a run that answers Ok with the same files and `chunk_count_` one higher. |
| `DiskProgress.SomeoneCanStep` | services/storage_node/src/local_disk_chunk_store.cpp:101-103 | With owner re-entry, whenever some call is open some thread is not blocked and has an enabled step. |
| `DiskProgress.BoundedWork` | services/storage_node/src/local_disk_chunk_store.cpp:93-264 | Without new calls, the number of steps of any continuation is bounded by a measure that every step decreases. |
| `DiskProgress.RunsToRest` | services/storage_node/src/local_disk_chunk_store.cpp:93-264 | With owner re-entry every reachable state can be run until all calls have returned, even if calls fail throughout. |
| `DiskProgress.RunsToRestCleanly` | services/storage_node/src/local_disk_chunk_store.cpp:93-264 | And, given a UUID per thread, without a single failing system call. |
| `DiskProgress.PlainLockPutNeverReturns` | services/storage_node/src/local_disk_chunk_store.cpp:101-103 | With non-re-entrant locks a Put past its checksum never returns in any continuation without a crash. |
| `DiskProgress.PlainLockStripeIsDead` | services/storage_node/src/local_disk_chunk_store.cpp:260-263 | With non-re-entrant locks, once a Put sits at the nested lock, it and everyone waiting for that stripe never move again. |
| `DiskProgress.PlainLockStoreStaysEmpty` | services/storage_node/src/local_disk_chunk_store.cpp:101-103 | With non-re-entrant locks an empty store stays empty for ever. |
| `DiskSolo.SoloPut` | services/storage_node/src/local_disk_chunk_store.cpp:93-181 | One Put running alone reaches `return Ok`, and exactly what it leaves behind: the files, both counters, the over-count, and whether an absence can still be undone, for each outcome of its probe and its directory fsync. |
| `DiskLayout.FinalPathInjective` | services/storage_node/src/local_disk_chunk_store.cpp:84-91 | Different digests have different final paths, and all of them carry the `.chunk` extension. |
| `DiskLayout.TempPathShape` | services/storage_node/src/local_disk_chunk_store.cpp:116-117 | A temporary name never has the `.chunk` extension and is never a final path. |
| `DiskLayout.TempPathInjective` | services/storage_node/src/local_disk_chunk_store.cpp:116-117 | Different ids or UUIDs have different temporary paths, in the directory of the final path. |
| `DiskLayout.ShardsAreDirectories` | services/storage_node/src/local_disk_chunk_store.cpp:84-87 | The directories of a chunk are the first four digits of its id, two and two, and two chunks share them iff the step machine has them in one shard. |
| `DiskLayout.ChunkNameShape` | services/storage_node/src/local_disk_chunk_store.cpp:66-66 | A file name has the extension iff it ends in `.chunk` after something else, which is then its stem. |
| `DiskLayout.ChunkFilesAreChunks` | services/storage_node/src/local_disk_chunk_store.cpp:64-69 | In a tree written by the store the `.chunk` files are as many and as large as the stored chunks, whatever temporary files are left. |
| `DiskLayout.RenamedTree` | services/storage_node/src/local_disk_chunk_store.cpp:155-155 | Renaming a temporary file to its final path keeps the tree in step with the map updated at that id. |
| `LocalDiskStore.Scan` | services/storage_node/src/local_disk_chunk_store.cpp:61-76 | The constructor's loop computes the number and total size of the `.chunk` files, in 64-bit arithmetic, for every listing order. |
| `LocalDiskStore.ListAllChunkIds` | services/storage_node/src/local_disk_chunk_store.cpp:278-294 | The result holds exactly the ids that files stand for; on a tree written by the store exactly the stored ids, without repeats. |
| `LocalDiskStore.IdOfMeaning` | services/storage_node/src/local_disk_chunk_store.cpp:285-290 | A file stands for an id iff it is named with the id's text and `.chunk`, in whatever directory. |
| `LocalDiskStore.RestartRecovers` | services/storage_node/src/local_disk_chunk_store.cpp:57-77 | Whatever tree a crash left, the scan finds exactly the surviving chunks and the counters the step machine restarts with. |
| `LocalDiskStore.LocalDiskChunkStore.constructor` | services/storage_node/src/local_disk_chunk_store.cpp:57-77 | Opening any data root counts its `.chunk` files; in one that only this store has written, they are the stored chunks and the count and size are theirs. |
| `LocalDiskStore.LocalDiskChunkStore.Put` | services/storage_node/src/local_disk_chunk_store.cpp:93-181 | Put on the file tree has the effect and reply of the atomic Put under the faults of its system calls, counts exactly when it wrote, and otherwise, if cleaning up succeeds, leaves every file as it was. |
| `LocalDiskStore.LocalDiskChunkStore.Get` | services/storage_node/src/local_disk_chunk_store.cpp:183-226 | Get replies as the atomic Get and returns only bytes that hash to the id. |
| `LocalDiskStore.LocalDiskChunkStore.VerifyOnly` | services/storage_node/src/local_disk_chunk_store.cpp:228-234 | Exactly when it succeeds, and exactly when it gives NotFound, IoError and CorruptionDetected. |
| `LocalDiskStore.LocalDiskChunkStore.Delete` | services/storage_node/src/local_disk_chunk_store.cpp:236-258 | Delete has the effect and reply of the atomic Delete, removes exactly the one file and subtracts exactly its size. |
| `LocalDiskStore.LocalDiskChunkStore.Exists` | services/storage_node/src/local_disk_chunk_store.cpp:260-264 | Exists answers as the atomic Exists; a failed probe reads as absent. |
| `BlockingQueueTheorems.NoLostWakeups` | libs/common/include/nimbus/common/bounded_blocking_queue.h:29-71 | In every reachable state, if a consumer sleeps un-notified the items are at most the woken consumers yet to look again plus pushes about to signal; likewise for producers and free slots. |
| `BlockingQueueTheorems.SleepersAreJustified` | libs/common/include/nimbus/common/bounded_blocking_queue.h:31-40 | When nobody is awake, consumers sleep only on an empty queue, producers only on a full one, never both, and nobody after shutdown. |
| `BlockingQueueTheorems.BothSidesNeverStuck` | libs/common/include/nimbus/common/bounded_blocking_queue.h:29-71 | A sleeping producer and a sleeping consumer never coexist with nobody awake. |
| `BlockingQueueTheorems.SomeoneCanStep` | libs/common/include/nimbus/common/bounded_blocking_queue.h:29-78 | If any thread is awake, some thread has an enabled step. |
| `BlockingQueueTheorems.FirstInFirstOut` | libs/common/include/nimbus/common/bounded_blocking_queue.h:29-71 | In every reachable state the accepted items are the delivered items followed by the buffered ones, in order, and the buffer is within capacity. |
| `BlockingQueueTheorems.NothingLostOrInvented` | libs/common/include/nimbus/common/bounded_blocking_queue.h:29-71 | With no call under way except sleepers, each value was pushed successfully exactly as often as it was popped or is still buffered. |
| `BlockingQueueTheorems.ShutdownBringsDown` | libs/common/include/nimbus/common/bounded_blocking_queue.h:73-78 | Shutdown's last notification leaves nobody asleep. |
| `BlockingQueueTheorems.ShutdownDrains` | libs/common/include/nimbus/common/bounded_blocking_queue.h:73-78 | From then on nobody sleeps, nothing is accepted, and without new calls the remaining steps are bounded. |
| `BlockingQueueTheorems.OutcomesAreTruthful` | libs/common/include/nimbus/common/bounded_blocking_queue.h:31-65 | In every run a call that leaves tells the truth: Push is accepted, or ShutDown after shutdown, or, timed, TimedOut on a full queue; Pop has an item, or nothing on a drained queue after shutdown, or, timed, TimedOut on an empty one. |
| `BlockingQueueTheorems.EmptyResult` | libs/common/include/nimbus/common/bounded_blocking_queue.h:38-47 | An empty result of Pop or TryPop implies shutdown and that every accepted item has been delivered. |
| `BlockingQueueSafety.RunKeeps` | libs/common/include/nimbus/common/bounded_blocking_queue.h:23-78 | The queue's inductive invariant (mutex ownership, wakeup counts, shutdown broadcast, order, per-value ledger) holds along every run with spurious wakeups, timeouts and barging. |
| `BlockingQueue.Monitor.Push` | libs/common/include/nimbus/common/bounded_blocking_queue.h:31-34 | One critical section of Push: appends iff there is room and no shutdown, else changes nothing. |
| `BlockingQueue.Monitor.Pop` | libs/common/include/nimbus/common/bounded_blocking_queue.h:40-46 | One critical section of Pop: takes the oldest item iff there is one, even after shutdown. |
| `BlockingQueue.Monitor.Shutdown` | libs/common/include/nimbus/common/bounded_blocking_queue.h:74-75 | Sets the flag and keeps the items. |
| `BlockingQueue.Create` | libs/common/include/nimbus/common/bounded_blocking_queue.h:23-27 | Construction fails iff the capacity is zero. |
| `Service.StorageNodeService.PutChunk` | services/storage_node/src/storage_node_service_impl.cpp:65-146 | The frame loop with its early returns has the reply and leaves the store of receiving frame by frame, rejecting mid-stream, and then the atomic Put. |
| `Service.StorageNodeService.GetChunk` | services/storage_node/src/storage_node_service_impl.cpp:148-206 | The messages sent: a truthful size and the accepted frames of the verified bytes, or one message with the mapped error. |
| `Service.StorageNodeService.ReplicateChunk` | services/storage_node/src/storage_node_service_impl.cpp:277-359 | The receiving loop stores the concatenation of the data messages under the atomic Put, after the status, size and finish checks. |
| `Service.StorageNodeService.DeleteChunk` | services/storage_node/src/storage_node_service_impl.cpp:239-275 | The reply and the store of the atomic Delete, id checked before version. |
| `Service.StorageNodeService.VerifyChunk` | services/storage_node/src/storage_node_service_impl.cpp:208-237 | Exactly which code and status each request gets; valid iff the bytes could be read and hash to the id. |
| `Service.FrameSplitIndependence` | services/storage_node/src/storage_node_service_impl.cpp:109-127 | Two request streams with equal first message and equal total payload have the same outcome, however split or interleaved with other messages. |
| `Service.ReceiveMeaning` | services/storage_node/src/storage_node_service_impl.cpp:112-125 | The frame-by-frame test rejects a stream exactly if its total payload exceeds the limit, and otherwise assembles the whole payload. |
| `Service.PutChunkEffect` | services/storage_node/src/storage_node_service_impl.cpp:102-127 | PutChunk removes nothing and adds at most a payload that hashes to its key and fits the limit. |
| `ServiceReplies.PutChunkCodes` | services/storage_node/src/storage_node_service_impl.cpp:73-107 | For every stream and fault: exactly when each code is answered, with which status, and that all but RPC OK leave the store alone. |
| `ServiceReplies.PutChunkStatus` | services/storage_node/src/storage_node_service_impl.cpp:127-137 | For every admitted stream and fault: exactly when each status is answered, and the store it leaves. |
| `ServiceReplies.PutChunkOkMeansStored` | services/storage_node/src/storage_node_service_impl.cpp:127-134 | No upload is answered OK unless its chunk is in the store afterwards. |
| `ServiceReplies.UploadIsStored` | services/storage_node/src/storage_node_service_impl.cpp:109-134 | An upload of matching data within the limit is stored and answered OK, however it is split. |
| `ServiceReplies.PutPayloadConcat` | services/storage_node/src/storage_node_service_impl.cpp:113-124 | What the loop assembles is the concatenation of what the parts of the stream carry, in order. |
| `ServiceReplies.UploadThenDownload` | services/storage_node/src/storage_node_service_impl.cpp:109-199 | Upload in frames, then download: the receiver assembles exactly the bytes that were sent. |
| `Service.StreamRoundTrip` | services/storage_node/src/storage_node_service_impl.cpp:187-199 | A receiver of any prefix of a GetChunk stream assembles a prefix of the chunk, and the chunk itself if nothing was cut. |
| `Service.ReplicationDelivers` | services/storage_node/src/storage_node_service_impl.cpp:323-346 | Replicating a verified chunk within the limit over an unbroken stream stores exactly that chunk. |
| `ServiceReplies.ReplicateCodes` | services/storage_node/src/storage_node_service_impl.cpp:285-294 | For every request: exactly when each code is answered. |
| `ServiceReplies.ReplicateFailures` | services/storage_node/src/storage_node_service_impl.cpp:310-343 | The source's own failure reaches the caller unchanged; a missing first message and a bad finish are SOURCE_UNREACHABLE, a declared size beyond the limit CHUNK_TOO_LARGE; none is OK and none changes the store. |
| `ServiceReplies.ReplicateStatus` | services/storage_node/src/storage_node_service_impl.cpp:346-356 | After a stream that arrived: exactly when each status is answered, and the store it leaves. |
| `ServiceReplies.ReplicateOkMeansStored` | services/storage_node/src/storage_node_service_impl.cpp:310-352 | No replication is answered OK unless the chunk is in the store afterwards. |
| `Service.OversizedReplication` | services/storage_node/src/storage_node_service_impl.cpp:323-337 | ReplicateChunk stores a chunk beyond the limit iff the payload is too large while the declared size is not, the hash matches and nothing fails. |
| `Service.OversizedExample` | services/storage_node/src/storage_node_service_impl.cpp:323-346 | A source that declares zero bytes and sends any too large payload gets it stored. |
| `Service.VersionAfterId` | services/storage_node/src/storage_node_service_impl.cpp:84-99 | PutChunk and DeleteChunk answer FAILED_PRECONDITION iff the version is unsupported and the id parses (for Put, in a first message with metadata). |
| `Service.VersionFirst` | services/storage_node/src/storage_node_service_impl.cpp:154-162 | GetChunk and ReplicateChunk answer FAILED_PRECONDITION iff the version is unsupported. |
| `Service.UnsupportedVersionGoesUnnoticed` | services/storage_node/src/storage_node_service_impl.cpp:247-260 | An unsupported version with a text that is no id is answered INVALID_ARGUMENT by PutChunk and DeleteChunk. |
| `Service.MapStoreErrorFaithful` | services/storage_node/src/storage_node_service_impl.cpp:14-22 | Distinct store errors map to distinct statuses, none of them success. |
| `Service.ReportedReadFailures` | services/storage_node/src/storage_node_service_impl.cpp:169-181 | A client sees NOT_FOUND for an absent and CORRUPTION_DETECTED for a damaged chunk, and no data. |
| `ServiceReplies.GetChunkCodes` | services/storage_node/src/storage_node_service_impl.cpp:154-163 | For every request: exactly when each code is answered, and that a failed RPC sends nothing. |
| `ServiceReplies.GetChunkStatus` | services/storage_node/src/storage_node_service_impl.cpp:168-199 | For every fault: exactly when each status heads the stream, and what follows it. |
| `ServiceReplies.DeleteChunkCodes` | services/storage_node/src/storage_node_service_impl.cpp:247-260 | For every request: exactly when each code is answered, and that a refused request deletes nothing. |
| `ServiceReplies.DeleteChunkStatus` | services/storage_node/src/storage_node_service_impl.cpp:262-272 | For every fault: exactly when OK and IO_ERROR are answered; after OK the chunk is gone unless its size probe failed; no other chunk changes. |
| `ServiceReplies.DeleteChunkDeletes` | services/storage_node/src/storage_node_service_impl.cpp:262-267 | Without faults the chunk is removed and OK answered. |
| `Service.ReportedWriteFailures` | services/storage_node/src/storage_node_service_impl.cpp:127-137 | A payload with the wrong hash and a failed removal are reported and change nothing. |
| `Framing.WriteFrames` | services/storage_node/src/storage_node_service_impl.cpp:187-199 | The write loop terminates and sends the frames of the data up to the first refused one. |
| `Framing.FrameShape` | services/storage_node/src/storage_node_service_impl.cpp:189-190 | All frames are non-empty and full but possibly the last. |
| `Framing.FramePrefix` | services/storage_node/src/storage_node_service_impl.cpp:187-199 | The first k frames concatenate to the first 262144 k bytes. |
| `Framing.FramingRoundTrip` | services/storage_node/src/storage_node_service_impl.cpp:187-199 | All frames concatenate to the data; a broken stream gives a prefix. |
| `Cluster.ClusterSafety` | services/storage_node/src/storage_node_service_impl.cpp:127-127 | Over every run of puts, deletes, replications over cut streams and disk corruption, every undamaged chunk on every node hashes to its id and fits the limit. |
| `Cluster.ClusterAgreement` | services/storage_node/src/storage_node_service_impl.cpp:323-346 | If no two payloads of the run collide, undamaged copies of an id are identical on all nodes and were supplied by a client put. |
| `Cluster.NoCorruptionNoDamage` | services/storage_node/src/storage_node_service_impl.cpp:127-127 | Without corruption steps nothing is damaged, so both theorems cover every copy. |
| `Cluster.RunKeeps` | services/storage_node/src/storage_node_service_impl.cpp:187-199 | The cluster invariant (origin, hash and size of entries, truthful streams) holds along every run. |
| `Cluster.FetchedStreamOk` | services/storage_node/src/storage_node_service_impl.cpp:168-199 | Even from a damaged file GetChunk never sends a successful stream of bytes that do not hash to the id. |
| `Cluster.ReplicationEffect` | services/storage_node/src/storage_node_service_impl.cpp:323-346 | What replication adds hashes to its id, has a client origin, and fits the limit because the source declares the true size. |
| `HexCodec.ToHexString` | libs/common/src/sha256.cpp:49-55 | The printing loop gives the 64 hex digits of the digest, high nibble first. |
| `HexCodec.FromHexString` | libs/common/src/sha256.cpp:57-72 | The parsing loop succeeds iff every pair passes `stoi` with both characters consumed, and fills the digest with their values. |
| `HexCodec.StoiOnPairs` | libs/common/src/sha256.cpp:61-65 | Which two-character strings `stoi` base 16 consumes whole: two hex digits, or a sign or a blank and one hex digit. |
| `HexCodec.ParsePrinted` | libs/common/src/sha256.cpp:49-72 | Parsing a printed digest gives it back. |
| `HexCodec.PrintParsed` | libs/common/src/sha256.cpp:49-72 | Printing a parsed lowercase text gives it back. |
| `HexCodec.DigitsAre` | libs/common/src/sha256.cpp:49-66 | Which character stands for which digit, in either case. |
| `HexCodec.LooseParser` | libs/common/src/sha256.cpp:57-72 | FromHexString round-trips a 64-character text iff all its characters are lowercase hex digits. |
| `HexCodec.PlusOneIsAccepted` | libs/common/src/sha256.cpp:61-65 | The text of thirty-two "+1" pairs is accepted and does not round-trip. |
| `ChunkIds.Parse` | services/storage_node/src/chunk_id.cpp:10-28 | Accepts exactly 64 lowercase hex digits, ties the text to the digest, and reports the first offending character's error. |
| `ChunkIds.FromDigest` | services/storage_node/src/chunk_id.cpp:30-32 | The id of a digest satisfies the class invariant. |
| `ChunkIds.ParseAcceptsExactlyPrinted` | services/storage_node/src/chunk_id.cpp:10-32 | A text is accepted iff it is the print of some digest, and then it is the print of the parsed digest. |
| `ChunkIds.ParseInvertsPrint` | services/storage_node/src/chunk_id.cpp:10-32 | Parsing the print of a digest gives the id of that digest. |
| `ChunkIds.SameTextSameDigest` | services/storage_node/src/chunk_id.cpp:30-40 | Two ids have the same text iff they have the same digest. |
| `ChunkIds.EqualityIsDigestEquality` | services/storage_node/include/nimbus/storage_node/chunk_id.h:24-24 | Memberwise equality of ids is equality of digests. |
| `ChunkIds.HashOf` | services/storage_node/src/chunk_id.cpp:42-50 | The shift-or loop gives the big-endian value of the first eight digest bytes with no bit lost. |
| `ChunkIds.OrIntoClearedBits` | services/storage_node/src/chunk_id.cpp:47-47 | Or-ing into cleared low bits is addition. |
| `ChunkIds.StripeIndex` | services/storage_node/src/local_disk_chunk_store.cpp:79-82 | The stripe is the eighth digest byte, below 256, and the lock the step machine takes. |
| `FaultInjection.WrapperRefinesDelegate` | services/storage_node/src/fault_injecting_chunk_store.cpp:64-125 | For every sequence of injections, clears and operations, over any delegate, its final state and the unfaulted answers are those of running it on the unfaulted calls alone. |
| `FaultInjection.FaultDecision` | services/storage_node/src/fault_injecting_chunk_store.cpp:33-51 | Which calls fail, and with which error, in terms of the command history alone; the one-shot fault wins and still counts. |
| `FaultInjection.AnswerAfter` | services/storage_node/src/fault_injecting_chunk_store.cpp:64-125 | After any history of commands: a call that meets a fault is refused with its error (Exists, GetStats and ListAllChunkIds with an empty answer) and does not reach the delegate; every other call is the delegate's own. |
| `FaultInjection.PastTheNthCall` | services/storage_node/src/fault_injecting_chunk_store.cpp:43-48 | After arming with n, calls past the n-th all fail until cleared or re-armed. |
| `FaultInjection.CounterWraps` | services/storage_node/src/fault_injecting_chunk_store.cpp:35-44 | Armed to fail every call, the wrapper lets the 2^64-th one through, because its counter has wrapped. |
| `FaultInjection.OneShotMeaning` | services/storage_node/src/fault_injecting_chunk_store.cpp:9-41 | A one-shot fault is pending iff one was injected with no call, clear or other injection since. |
| `FaultInjection.ArmedMeaning` | services/storage_node/src/fault_injecting_chunk_store.cpp:14-35 | While armed, the counter is the number of calls since arming, modulo 2^64. |
| `FaultInjection.LatencyMeaning` | services/storage_node/src/fault_injecting_chunk_store.cpp:20-31 | The latency in force is the last one set since the last clear. |
| `FaultInjection.FaultInjectingChunkStore.ShouldInjectFault` | services/storage_node/src/fault_injecting_chunk_store.cpp:33-51 | Decides and updates the fault state as specified. |
| `FaultInjection.FaultInjectingChunkStore.Operation` | services/storage_node/src/fault_injecting_chunk_store.cpp:64-125 | A wrapped call either is refused with the fault, operation by operation, and leaves the delegate alone, or is the delegate's call. |
| `FaultInjection.FaultInjectingChunkStore.ClearInjectedFaults` | services/storage_node/src/fault_injecting_chunk_store.cpp:25-31 | Resets all four fault fields. |
| `FaultInjection.FaultInjectingChunkStore.InjectFailureAfterNCalls` | services/storage_node/src/fault_injecting_chunk_store.cpp:14-18 | Arms and restarts the count, keeping a pending one-shot fault. |
| `PathValidator.Validate` | libs/common/src/path_validator.cpp:9-60 | The index-based scan gives exactly the verdict, error kind included, of splitting at slashes and forgiving one trailing slash. |
| `PathValidator.ComponentsAreSplit` | libs/common/src/path_validator.cpp:30-34 | The components found by looking for the next slash are those of splitting the rest of the path. |
| `PathValidator.ScanFindsFirstError` | libs/common/src/path_validator.cpp:31-58 | The scan reports the first error among the components, one trailing slash forgiven. |
| `PathValidator.Accepted` | libs/common/src/path_validator.cpp:9-60 | A path is accepted iff absolute, within the length, free of NUL, and every component (but for an empty last one) is non-empty, not "..", short enough and of allowed characters. |
| `PathValidator.RejectionMeaning` | libs/common/src/path_validator.cpp:10-52 | What each error says about the path: which test failed first, and for a component error which component is the first bad one and what is wrong with it. |
| `PathValidator.AllowedExactly` | libs/common/include/nimbus/common/path_validator.h:22-22 | The characters of the default pattern, one by one. |
| `PathValidator.NormalizeForDisplay` | libs/common/src/path_validator.cpp:62-72 | The loop drops exactly the slashes that follow a slash. |
| `PathValidator.SqueezeClean` | libs/common/src/path_validator.cpp:62-72 | No double slash is left. |
| `PathValidator.SqueezeIdentity` | libs/common/src/path_validator.cpp:62-72 | Normalising is the identity iff the path has no double slash. |
| `PathValidator.SqueezeIdempotent` | libs/common/src/path_validator.cpp:62-72 | Normalising twice is normalising once. |
| `PathValidator.SqueezeKeepsWords` | libs/common/src/path_validator.cpp:62-72 | The sequence of non-empty components is kept. |
| `PathValidator.AcceptedIsNormal` | libs/common/src/path_validator.cpp:9-72 | Every accepted path is its own display form. |
| `PathValidator.NormalHasNoEmptyComponent` | libs/common/src/path_validator.cpp:36-38 | A normalised absolute path is never rejected for an empty component. |

## Left out

- The digest computation itself (OpenSSL calls in libs/common/src/sha256.cpp): foreign code, a parameter here.
- gRPC channels, contexts, correlation ids, response messages' texts and timing: a stream is a sequence of messages plus a finish status.
- Capability tokens: the check is a stub that always succeeds, so PERMISSION_DENIED and CAPABILITY_DENIED never arise.
- The Windows branches, raw descriptors and `close`; the Unix steps are modelled.
- Logger, configuration and schema lookups, lease, clock and UUID generation; UUIDs are only taken to be fresh, 36 characters long and free of dots.
- Free space and the network side of GetStats; the two counters are modelled.
- The injected latency is stored and cleared but nobody sleeps.
- General regular expressions in the path validator: the default pattern is a character predicate.
- `SizeApprox`, the greeter, the command line, the sync daemon, the coordinator and the metadata service: easy or scaffolding.
- Memory order of the relaxed atomics: a counter update is one atomic step; a payload larger than a machine word can count is not modelled.
- Outside edits of the data root in the step machine: `DiskMachine` has none; `LocalDiskStore`, `Service` and `Cluster` allow files whose bytes no longer hash to their id.
- LocalDiskStore.LocalDiskChunkStore.Put: one call at a time, so locks, durability and the directory fsync are in `DiskMachine`; `DiskBigStep.ModelsAgree` connects the two.
- FaultInjection.FaultInjectingChunkStore.Operation: the seven wrapped operations have one shape and share this method.
- BlockingQueue.Monitor.Push: TryPush and TryPop share the critical sections of Push and Pop; their timeouts are in the step machine.

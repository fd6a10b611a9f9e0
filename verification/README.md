# MemphisOS: verified models of the stateful cores

This project models the parts of MemphisOS that keep state and proves what they are for:
the durable task queue and its write-ahead log, the approximate nearest-neighbour index,
the block chains (the files of the TypeScript adapter and the in-memory chain of the Rust
core), the merge of chain replicas, the bounded agent loop with its replay dedupe, and four
smaller cores: the JSON import, the block cache, the embedding cache and the rate limiter.

`dafny verify dfyconfig.toml` checks everything.

## How the project is laid out

| file | source | what is proved |
|---|---|---|
| `Basics.dfy` | | options, text orders, decimal numerals |
| `Crc32c.dfy` | task-queue-wal.ts | the table form is CRC32C bit by bit (section 12.1 of RFC 3720); every burst within 4 bytes is detected |
| `WalFormat.dfy` | task-queue-wal.ts | framing: round trip, tiling, torn tails, truncation as a fixed point |
| `TaskQueueWal.dfy` | task-queue-wal.ts | the log class: append, rotate, recover |
| `QueueModel.dfy` | task-queue-service.ts | the queue as a value: records, replay, the file on disk |
| `QueueCrash.dfy`, `QueueArchive.dfy` | both | the queue under crashes: what a restart brings back, and what stays on disk |
| `TaskQueueService.dfy` | task-queue-service.ts | the service class, resume included |
| `HnswSearch.dfy`, `HnswIndex.dfy` | hnsw-index.ts | the graph search, exactness, graph upkeep |
| `Json.dfy`, `Canonical.dfy` | chain-diff.ts, chain-adapter.ts | what printed and canonical texts tell apart, undefined parts included |
| `JsonScanner.dfy` | chain-adapter.ts | the recovery scanner undoes the printer |
| `BlockFiles.dfy`, `AppendProtocol.dfy` | chain-adapter.ts | reading and validation of block files; the locked append of several processes, safety and progress |
| `MemoryChain.dfy` | soul.rs, chain.rs, harness.rs, hash.rs | validation, replay, the last hash fixes the history |
| `KeyText.dfy`, `ReplicaMerge.dfy`, `MergeLaws.dfy`, `ReplicaNetwork.dfy` | conflict-resolver.ts, chain-diff.ts | what keys and fingerprints mean; merge, diff, convergence |
| `LoopEngine.dfy` | loop_engine.rs, task-executor.ts | the two loop engines and their simulation |
| `TaskExecutor.dfy`, `TaskReplay.dfy` | task-executor.ts | one generation; at-most-once results across restarts |
| `ImportJson.dfy`, `ImportLaws.dfy` | import-json.ts | dedupe and relinking; idempotent re-import |
| `ChainCache.dfy`, `EmbeddingCache.dfy`, `RateLimiter.dfy` | chain-cache.ts, cache.rs, rate-limit.ts | exact LRU, queue listing, admission bounds |

Where the source updates an object in place there is a class whose methods are proved
against functions on values; the laws are lemmas about those functions.  Code of the
environment is a parameter with its assumption stated where it is used: the hash functions
(injective, and never all zeros where that is needed), JSON parsing (the queue's parser reads back what is
printed of the values it can hold; `QueueModel.FaithfulReader` shows that all legible values may be among them),
date and number parsing, the string collation (a strict total order), clocks and fresh ids (arguments).

## What turned out to be false of the code, and what holds instead

* **Rotation forgets pending work.**  Recovery reads only the active segment, so a queued item whose
  record was rotated away is not recovered (`QueueCrash.RotationForgets`, from a fresh start, for every pair of
  enqueues of which the second rotates).  What a restart restores is exactly the restriction to the active
  segment (`QueueCrash.RestartRefines`), which is everything exactly when every pending item was enqueued there
  (`QueueCrash.RestartRestoresAllIff`).
* **Rotation unbalances the totals.**  An item enqueued before the rotation and finished after it is counted as
  finished only: one enqueued, one finished and one pending (`QueueCrash.RotationForgets`).  The totals after a
  restart balance exactly when, in the log before it, every finish record of the active segment follows an enqueue
  of its item there (`QueueCrash.RestartBalances`, `QueueCrash.TotalsBalance`).
* **Archives are named by the clock in milliseconds**, so the second of two rotations in one millisecond replaces the
  archive of the first, and acknowledged records are gone (`QueueArchive.SameReadingLoses`).  With rotations at later
  and later readings nothing acknowledged ever leaves the disk (`QueueArchive.NothingLeavesTheDisk`).
* **A signature that does not check counts as none**: only strict validation refuses the block
  (`MemoryChain.StrictMeansSigned`).
* **A block hashed in the early form is covered in its data only**: its time and chain name may change unnoticed.
  Where a change of a stored block is noticed is told exactly by `BlockFiles.AlteredFileDetected`.
* **The search reads its cutoff once per expanded node**, so a better node can be dropped in favour of
  a worse one (`HnswSearch.StaleCutoffLosesBetterNode`).  An expansion keeps the best of everything it saw exactly
  when the list is full beforehand or has room for all neighbours (`HnswSearch.CutoffExactIff`); with room for all
  nodes the search is exact (`HnswSearch.Search`, `HnswIndex.FewNodesAllFound`).
* **Undefined parts do not reach a hash.**  A block whose data has an undefined field and one without the field
  hash alike (`BlockFiles.HashCovers`); in fingerprints such a field counts, and only a list of one undefined item is
  taken for the empty list (`Canonical.CanonicalText`).
* **The TypeScript loop step counts on after a halt**; the two engines agree on a step exactly when the state
  has not halted (`LoopEngine.AgreeUnlessHalted`), and over whole runs give the same answers
  (`LoopEngine.FallbackSimulatesEngine`).  A step limit of the largest u32 is no limit, because the counter
  sticks at it (`LoopEngine.HaltsIffBelowMaximum`, `LoopEngine.LimitsHoldIff`).
* **Last-write-wins lets the remote side win ties**, so merging commutes exactly when tied blocks are equal
  (`MergeLaws.MergeCommutes`), and two replicas with different tied blocks that keep exchanging swap them
  for ever (`ReplicaNetwork.TiesSwapForever`).
* **A result that is not well formed is stored but not read back**, so the provider is called again exactly then
  (`TaskReplay.CalledAgainIff`).
* **An import whose index reads as infinite** is skipped, and the loop then fails on the next block
  (`ImportLaws.LongIndexCrashes`, `ImportJson.Import`).
* **`EmbeddingCache::put` on a present key of a full cache evicts another key**; it is least-recently-used exactly
  otherwise (`EmbeddingCache.PutIsExactIff`).
* **`invalidateChain` takes a name with a colon for a prefix**: invalidating `a` also hits a chain called `a:b`
  (`ChainCache.PrefixMeaning`); for names without a colon it is exact.
* The rate limiter admits up to **twice the limit less one** in a window length, and no more
  (`RateLimiter.AdmissionsBounded`, `RateLimiter.BoundIsReached`).
* In the import the branches for an empty or non-text previous hash are dead code: normalisation replaces an
  empty one by the genesis hash.

## Model

| member | source | states |
|---|---|---|
| Crc32c.BuildTable | src/infra/storage/task-queue-wal.ts:45-55 | entry i of the table is eight bit shifts of i, for all 256 bytes |
| Crc32c.TableChecksum | src/infra/storage/task-queue-wal.ts:57-64 | the table-driven loop returns the bit-by-bit CRC32C of the bytes |
| Crc32c.TableStep | src/infra/storage/task-queue-wal.ts:60-61 | one table step of any register and byte is eight single-bit steps |
| Crc32c.FeedIsShift | src/infra/storage/task-queue-wal.ts:57-64 | feeding up to 32 bits is adding the packed bits to the register and shifting |
| Crc32c.FeedLinear | src/infra/storage/task-queue-wal.ts:57-64 | the checksum is linear: the difference of two runs is the run of the differences |
| Crc32c.FeedWordInjective | src/infra/storage/task-queue-wal.ts:57-64 | from one register, two words of at most 32 bits that lead to the same register are equal |
| Crc32c.FeedRegisterInjective | src/infra/storage/task-queue-wal.ts:57-64 | the same bits keep different registers different |
| Crc32c.BurstOfBits | src/infra/storage/task-queue-wal.ts:57-64 | two messages that differ only inside a burst of at most 32 bits end in different registers |
| Crc32c.BurstDetected | src/infra/storage/task-queue-wal.ts:57-64 | payloads of one length that differ only inside 4 consecutive bytes have different checksums |
| WalFormat.FirstFrameIsEncoding | src/infra/storage/task-queue-wal.ts:78-98 | a buffer starts with an accepted frame of a payload exactly when it starts with that payload's encoding |
| WalFormat.ParseRecords | src/infra/storage/task-queue-wal.ts:75-102 | the loop returns the scanned payloads, each placed where its frame lies, and validBytes is the length of their stream |
| WalFormat.ScanOfStream | src/infra/storage/task-queue-wal.ts:66-102 | parsing a stream of encoded records followed by bytes that start no frame gives exactly those records |
| WalFormat.ScanTiles | src/infra/storage/task-queue-wal.ts:75-102 | for any bytes the parsed records tile the front of the buffer, and no frame starts after them |
| WalFormat.TornTailRoundTrip | src/infra/storage/task-queue-wal.ts:66-102 | records followed by a proper prefix of one more record parse to exactly those records, cut at the tear |
| WalFormat.TruncationIsFixedPoint | src/infra/storage/task-queue-wal.ts:152-155 | parsing the truncated file gives the same records and cuts nothing more |
| WalFormat.AppendAddsOne | src/infra/storage/task-queue-wal.ts:124-158 | after truncation an append adds exactly one record |
| WalFormat.ScanOfPrefix | src/infra/storage/task-queue-wal.ts:75-102 | any prefix of a stream parses to a prefix of its records, the longest that fits |
| WalFormat.BurstStopsParse | src/infra/storage/task-queue-wal.ts:86-91 | a record whose payload took a burst within 4 bytes stops the parse right before it |
| TaskQueueWal.TaskQueueWal.Enqueue | src/infra/storage/task-queue-wal.ts:124-146 | refused exactly when the payload is too long, the lock file is there or a due rotation fails, changing nothing; otherwise one frame more at the end of the active file, the old segment archived if it was full, synced in financial mode; the offset returned is where the frame lies |
| TaskQueueWal.TaskQueueWal.EncodeRecord | src/infra/storage/task-queue-wal.ts:66-73 | the three writes give the length-prefixed, checksummed frame |
| TaskQueueWal.TaskQueueWal.RotateIfNeeded | src/infra/storage/task-queue-wal.ts:166-190 | when the next record does not fit, and only then, the bytes of the active file are filed among the archives under the clock reading and the active file is empty |
| TaskQueueWal.TaskQueueWal.RecoverAndRead | src/infra/storage/task-queue-wal.ts:148-158 | the records are those of the file's valid prefix, and the file is cut to that prefix; the archives stay |
| QueueModel.ShapeRoundTrip | src/infra/storage/task-queue-service.ts:83-114 | the shape check reads back every record that is written, undefined parts aside |
| QueueModel.RecordRoundTrip | src/infra/storage/task-queue-service.ts:83-114 | decoding the bytes of a record gives the record back, for any parser that reads back the printed values it can hold |
| QueueModel.ParseIff | src/infra/storage/task-queue-service.ts:83-114 | a parsed value is taken for a record exactly when it names the operation and has every field with its type, the task an object with a textual type, the status one of three |
| QueueModel.PayloadKept | src/infra/storage/task-queue-wal.ts:124-126 | a record and the record without its undefined parts are written as the same bytes |
| QueueModel.KeptIsValid | src/infra/storage/task-queue-service.ts:90-99 | a described task stays one when its undefined parts are left out |
| QueueCrash.ReplayOfLog | src/infra/storage/task-queue-service.ts:282-303 | replaying the records of a log gives the pending items and totals of the log |
| QueueCrash.SuffixIsRestriction | src/infra/storage/task-queue-service.ts:282-303 | what a suffix of a log leaves pending is the whole pending map restricted to the items enqueued in the suffix |
| QueueCrash.Bookkeeping | src/infra/storage/task-queue-service.ts:282-303 | enqueues plus orphan finishes equal finishes plus pending items, for every log |
| QueueCrash.OrphansRooted | src/infra/storage/task-queue-service.ts:299-301 | a log has no orphan finish record exactly when each follows an enqueue of its item, for every log whose finishes target pending items where they follow an enqueue |
| QueueCrash.RunTargets | src/infra/storage/task-queue-service.ts:165-185 | that premise holds of the log after any run, restarts and rotations included |
| QueueCrash.StepKeeps | src/infra/storage/task-queue-service.ts:141-185 | every call, crash and restart keeps file, log, live queue and acknowledgements in step |
| QueueCrash.RunKeeps | src/infra/storage/task-queue-service.ts:141-185 | the same over whole runs |
| QueueCrash.RestartRefines | src/infra/storage/task-queue-service.ts:282-303 | after any run and crash the rebuilt pending map is the one after some prefix of the operations that includes every synced one (every returned one in financial mode), restricted to the active segment; the whole map without rotation |
| QueueCrash.RestartRestoresAllIff | src/infra/storage/task-queue-service.ts:282-303 | a restart brings back the whole pending map of that prefix exactly when every item pending in it was enqueued in the active segment |
| QueueCrash.AcknowledgedSurvives | src/infra/storage/task-queue-wal.ts:124-146 | in financial mode the log's acknowledged records since the last rotation are exactly the operations that returned, with at most one other record per crash |
| QueueCrash.NothingLostWithoutRotation | src/infra/storage/task-queue-wal.ts:124-146 | without rotation the acknowledged records are all operations that ever returned |
| QueueCrash.StruckRecord | src/infra/storage/task-queue-wal.ts:124-146 | an operation struck by a crash, never acknowledged, is recovered exactly when all of its record reached the disk |
| QueueCrash.PendingBounded | src/infra/storage/task-queue-service.ts:141-163 | pending never exceeds the fixed maximum over any run, and recovered ids stay within pending |
| QueueCrash.TotalsBalance | src/infra/storage/task-queue-service.ts:282-303 | at any time enqueued plus orphan finishes equals finished plus pending; enqueued equals finished plus pending exactly when every finish record of the log follows an enqueue of its item |
| QueueCrash.RestartBalances | src/infra/storage/task-queue-service.ts:282-303 | the totals after a restart balance exactly when, in the log before it, every finish record read back from the active segment follows an enqueue of its item in that segment |
| QueueCrash.Conservation | src/infra/storage/task-queue-service.ts:141-185 | without rotation, enqueued equals finished plus pending at any time, across crashes |
| QueueCrash.RotationForgets | src/infra/storage/task-queue-wal.ts:184-188 | two enqueues of which the second rotates: after a clean stop and restart only the second is pending; with the first finished before the stop, the restarted process counts one enqueued, one finished and one pending |
| QueueArchive.StepArchives | src/infra/storage/task-queue-wal.ts:166-190 | every call, crash and restart keeps this: the archived files, read in the order of their names, hold exactly the records before the active segment, and in financial mode the acknowledged records of the whole history are the operations that returned |
| QueueArchive.NothingLeavesTheDisk | src/infra/storage/task-queue-wal.ts:124-190 | in financial mode, after any run whose rotations happen at later and later clock readings, the archives in the order of their names followed by the active file hold the whole history up to a point after which nothing was acknowledged; its acknowledged records are all operations that ever returned, so each of them is on disk |
| QueueArchive.SameReadingLoses | src/infra/storage/task-queue-wal.ts:184-188 | when two rotations share a clock reading the second replaces the archive of the first: an acknowledged record is then in no file |
| TaskQueueService.TaskQueueService.Recover | src/infra/storage/task-queue-service.ts:282-303 | the state becomes the replay of the file's records and the file is cut to its valid prefix |
| TaskQueueService.TaskQueueService.Enqueue | src/infra/storage/task-queue-service.ts:141-163 | refused when full or when the log write fails, changing nothing; otherwise logged first and then pending |
| TaskQueueService.TaskQueueService.Finish | src/infra/storage/task-queue-service.ts:165-185 | an unknown id changes nothing; otherwise the finish is logged first and the item leaves the pending map; while the log is open only a record that is too long is refused |
| TaskQueueService.TaskQueueService.ListPending | src/infra/storage/task-queue-service.ts:200-207 | exactly the pending items, each once, oldest first |
| TaskQueueService.TaskQueueService.TryTask | src/infra/storage/task-queue-service.ts:243-264 | one item without its error path: finished and counted as the answer says, or what went wrong; with an open log and a record that fits only the handler's own error can go wrong |
| TaskQueueService.TaskQueueService.ResumeTask | src/infra/storage/task-queue-service.ts:243-276 | exactly the counter of the answered status goes up, or `failed` with an error text when the answer could not be recorded; with an open log and a record that fits it is the answer's; the item is no longer pending or recovered, whatever others do while it is awaited |
| TaskQueueService.TaskQueueService.ResumeAll | src/infra/storage/task-queue-service.ts:242-277 | the counts add up to the number of items and the recovered set is empty; with an open log and records that fit the result is the tally of the answers |
| TaskQueueService.TaskQueueService.ResumeEach | src/infra/storage/task-queue-service.ts:242-279 | the same with the summary kept, each item counted by its answer, oldest first |
| TaskQueueService.TaskQueueService.ResumeRecoveredPending | src/infra/storage/task-queue-service.ts:209-280 | scanned equals redispatched plus failed plus canceled plus kept; the recovered set is emptied; the totals stay balanced under interleaved calls; with an open log and records that fit it succeeds and each item, oldest first, is counted by its answer |
| TaskQueueService.InsertKeepsOrder | src/infra/storage/task-queue-service.ts:200-207 | inserting keeps the listing in order of age |
| TaskQueueService.OldestFirst | src/infra/storage/task-queue-service.ts:203-206 | in the listing no item is older than one before it, and items of one time go by id |
| TaskQueueService.TallyMeaning | src/infra/storage/task-queue-service.ts:243-276 | of any answers: a task counts as redispatched when the handler said completed or nothing, as canceled when it said so, otherwise as failed; the errors are one line for each handler that threw, in order |
| TaskQueueService.SettlingMeaning | src/infra/storage/task-queue-service.ts:244-271 | the record that finishes a resumed item, status, reason and error text, by the handler's answer |
| TaskQueueService.FilteredRecovered | src/infra/storage/task-queue-service.ts:217-221 | filtering the listing by the recovered ids gives each recovered item once, oldest first |
| HnswSearch.Cosine | src/infra/embeddings/hnsw-index.ts:275-281 | the loop computes the dot product |
| HnswSearch.DotMeaning | src/infra/embeddings/hnsw-index.ts:275-281 | the dot product is the sum of the products, place by place |
| HnswSearch.FindInsertIndexDesc | src/infra/embeddings/hnsw-index.ts:26-38 | the binary search returns the place after all entries at least as good and before all worse ones |
| HnswSearch.InsertionPlace | src/infra/embeddings/hnsw-index.ts:26-38 | inserting at that place keeps the list in descending order |
| HnswSearch.Push | src/infra/embeddings/hnsw-index.ts:164-173 | a splice at the found place keeps the list sorted, distinct and true to the scores |
| HnswSearch.VisitOne | src/infra/embeddings/hnsw-index.ts:153-174 | one neighbour: the invariant of the search is kept and nothing visited is forgotten |
| HnswSearch.VisitNeighbors | src/infra/embeddings/hnsw-index.ts:152-175 | all neighbours of an expanded node are visited, each offered with its true score, and with room for all none is forgotten |
| HnswSearch.FullListKeepsBest | src/infra/embeddings/hnsw-index.ts:150-172 | offering hits to a full list, with a cutoff no better than its last entry, keeps every hit offered or held unless it is no better than the last one kept |
| HnswSearch.RoomKeepsAll | src/infra/embeddings/hnsw-index.ts:150-172 | while there is room nothing offered is dropped, and the list holds exactly what was held or offered |
| HnswSearch.StaleCutoffLosesBetterNode | src/infra/embeddings/hnsw-index.ts:150-167 | whenever the list fills up during an expansion, any later neighbour that is better than what filled it but below the cutoff read at the start is turned away |
| HnswSearch.CutoffExactIff | src/infra/embeddings/hnsw-index.ts:150-172 | an expansion keeps the best of everything it saw, whichever its neighbours are, exactly when the list is full beforehand or has room for all of them |
| HnswSearch.ClosedSetHoldsReachable | src/infra/embeddings/hnsw-index.ts:142-175 | a set that contains the start and is closed under neighbours contains everything reachable |
| HnswSearch.Search | src/infra/embeddings/hnsw-index.ts:128-181 | terminates on every graph; at most k distinct existing ids, descending, with true scores; exactly the k best reachable nodes on a closed graph when ef is at least the node count |
| HnswIndex.NormalizedScore | src/infra/embeddings/hnsw-index.ts:270-281 | the score of two normalised vectors is the cosine of their angle; a vector without length is left as it is |
| HnswIndex.TrimNeighbors | src/infra/embeddings/hnsw-index.ts:244-261 | at most the maximum is kept: all of them if they fit, otherwise the nearest, best first |
| HnswIndex.LinkBack | src/infra/embeddings/hnsw-index.ts:72-79 | the neighbour holds, of its old neighbours and the new id, all if they fit, otherwise the nearest up to the maximum; everything else is unchanged |
| HnswIndex.LinkAll | src/infra/embeddings/hnsw-index.ts:71-79 | every neighbour of the new node has been relinked so, nobody else has changed, and the graph stays closed, self-free and bounded |
| HnswIndex.InsertNode | src/infra/embeddings/hnsw-index.ts:62-82 | the new node links to the nodes found, and each of them holds the nearest of its old neighbours and the new id; the graph stays closed, self-free and bounded, and complete while it is small |
| HnswIndex.HnswIndex.PickEntryPoint | src/infra/embeddings/hnsw-index.ts:231-242 | the pinned entry point, or else the first stored node, which is pinned then |
| HnswIndex.HnswIndex.SearchInternal | src/infra/embeddings/hnsw-index.ts:117-181 | the search from the entry point with ef the larger of k and efSearch, with all guarantees of Search |
| HnswIndex.HnswIndex.Add | src/infra/embeddings/hnsw-index.ts:53-82 | refused on wrong dimensions; a new id is linked to the nearest nodes found, which are the exact ones when efSearch covers the index, and each of them re-ranks its neighbours with it; the index stays valid, complete while small |
| HnswIndex.HnswIndex.Update | src/infra/embeddings/hnsw-index.ts:84-100 | a stored id moves and chooses its neighbours anew among the nearest nodes found, nobody else changes; an unknown id is added |
| HnswIndex.HnswIndex.SearchIndex | src/infra/embeddings/hnsw-index.ts:102-105 | a query of the right length gets the search result for its normalised form |
| HnswIndex.HnswIndex.Clear | src/infra/embeddings/hnsw-index.ts:226-229 | the index is empty, without entry point, and valid |
| HnswIndex.CompleteIsBruteForce | src/infra/embeddings/hnsw-index.ts:117-181 | on a complete graph an exact result over the reachable nodes is the brute-force top k |
| HnswIndex.FewNodesAllFound | src/infra/embeddings/hnsw-index.ts:117-181 | a brute-force top k with k at least the node count lists every node |
| HnswIndex.RelinkOk | src/infra/embeddings/hnsw-index.ts:90-99 | relinking a moved node keeps the graph closed, self-free and bounded, and complete while it is small |
| HnswIndex.NearestKept | src/infra/embeddings/hnsw-index.ts:92-99 | an update links the moved node to the nearest of the others found, best first, as many as fit |
| HnswIndex.MovedOk | src/infra/embeddings/hnsw-index.ts:84-95 | replacing a node with its new vector keeps the graph closed, self-free, bounded and complete as it was |
| HnswIndex.StillComplete | src/infra/embeddings/hnsw-index.ts:62-82 | an insertion into a complete graph that reaches at most maxNeighbors plus one nodes leaves it complete |
| Json.PrintUnique | src/sync/chain-diff.ts:15-22 | two well-formed values, no list of them a single undefined item, whose texts, each followed by something, agree are equal, and so is what follows |
| Json.PrintInjective | src/sync/chain-diff.ts:15-22 | two such values with one printed text are equal, compact or indented |
| Json.PrintMeaning | src/sync/chain-diff.ts:15-22 | any two well-formed values have one compact text exactly when they agree, a list of one undefined item counting as empty |
| Json.StringifyMeaning | src/infra/storage/chain-adapter.ts:353-355 | any two well-formed values are written alike by the library exactly when they agree once undefined fields are left out and undefined items are null |
| Json.EscapeMeaning | src/infra/storage/chain-adapter.ts:353-355 | inside strings only quotes, backslashes and control characters are escaped, the short form where there is one, otherwise by their code (section 7 of RFC 8259) |
| Canonical.SameIffSortedEqual | src/infra/storage/chain-adapter.ts:433-446 | two values sort to the same value exactly when they are equal up to object key order |
| Canonical.CanonicalText | src/sync/chain-diff.ts:15-22 | two values print the same canonical text exactly when they are equal up to object key order, a list of one undefined item counting as empty |
| Canonical.SortedTextMeaning | src/infra/storage/chain-adapter.ts:353-355 | two values have one hashed text exactly when they are equal up to object key order and undefined parts |
| Canonical.DroppedSort | src/infra/storage/chain-adapter.ts:433-446 | sorting the keys and leaving out undefined parts commute |
| Canonical.SortIdempotent | src/infra/storage/chain-adapter.ts:433-446 | sorting twice is sorting once |
| Canonical.SortIsSame | src/infra/storage/chain-adapter.ts:433-446 | the sorted value is the same up to key order |
| JsonScanner.ExtractJsonObjects | src/infra/storage/chain-adapter.ts:382-431 | the loop returns the chunks that parse, in order, of the brace, quote and escape scan |
| JsonScanner.RunValue | src/infra/storage/chain-adapter.ts:382-431 | scanning any printed value inside a chunk leaves depth, string and escape state as they were |
| JsonScanner.RunTopObject | src/infra/storage/chain-adapter.ts:382-431 | scanning a printed object at top level finds exactly its text |
| JsonScanner.ScannerUndoesPrinter | src/infra/storage/chain-adapter.ts:357-431 | objects printed one after another with separators free of brace and quote are returned exactly (undefined parts left out), in order |
| JsonScanner.ParseJsonObject | src/infra/storage/chain-adapter.ts:357-380 | a blank file is an error; otherwise the parsed text, or the last object the scan finds, or an error |
| JsonScanner.EmptyFileIff | src/infra/storage/chain-adapter.ts:357-361 | a file counts as empty exactly when it holds nothing but white space |
| JsonScanner.NoisyFile | src/infra/storage/chain-adapter.ts:357-380 | a file whose text as a whole does not parse but holds printed objects yields the last of them |
| JsonScanner.LastObjectReturned | src/infra/storage/chain-adapter.ts:357-380 | for whitespace separators the last printed object is returned |
| BlockFiles.ReadAndValidate | src/infra/storage/chain-adapter.ts:211-319 | the texts of the files are accepted exactly when each holds a block, of the right shape, and the blocks form a chain; then they are numbered 1, 2, …, linked hash to hash, and each carries its own hash or the early form of it; otherwise the first offending file is named |
| BlockFiles.ChainMeaning | src/infra/storage/chain-adapter.ts:238-263 | the chains accepted are exactly those numbered from 1, linked hash to hash, with every hash that of the block or of its data alone |
| BlockFiles.FileRoundTrip | src/infra/storage/chain-adapter.ts:268-319 | reading the text an append writes gives the block back, its data without undefined parts |
| BlockFiles.ShapeRoundTrip | src/infra/storage/chain-adapter.ts:304-319 | the shape check gives back every block that is written |
| BlockFiles.ShapeIff | src/infra/storage/chain-adapter.ts:304-319 | an object is taken for a block exactly when each of the six fields is there with its type |
| BlockFiles.HashCovers | src/infra/storage/chain-adapter.ts:206-209 | with an injective digest, two blocks hash alike exactly when they agree in index, timestamp, chain, previous hash and, up to key order and undefined parts, data |
| BlockFiles.StoredHashesAlike | src/infra/storage/chain-adapter.ts:278-297 | a block is taken for intact before it is written exactly when it is after it is read back |
| BlockFiles.AlteredHash | src/infra/storage/chain-adapter.ts:278-297 | a block altered in anything its hash covers, with its hash kept, passes for intact exactly where the early form covers the change |
| BlockFiles.AlteredFileDetected | src/infra/storage/chain-adapter.ts:238-297 | altering one file of an accepted chain in anything its hash covers, with the hash kept, makes the read fail, unless number and link are still accepted and the early form covers the change |
| BlockFiles.ChainPrefix | src/infra/storage/chain-adapter.ts:211-266 | every prefix of an accepted chain is accepted |
| BlockFiles.ChainIndices | src/infra/storage/chain-adapter.ts:211-266 | the blocks of an accepted chain are numbered from 1 |
| Basics.DecimalUnique | src/infra/storage/chain-adapter.ts:140-142 | two indices with one decimal text are equal |
| BlockFiles.PruneTrailingEmptyBlockFiles | src/infra/storage/chain-adapter.ts:480-504 | exactly the empty files above the last non-empty one are removed |
| AppendProtocol.StepKeeps | src/infra/storage/chain-adapter.ts:129-166 | every step of every process, death and power loss keeps the directory invariant |
| AppendProtocol.RunKeeps | src/infra/storage/chain-adapter.ts:129-166 | the same over whole interleavings |
| AppendProtocol.SafeUnderEveryInterleaving | src/infra/storage/chain-adapter.ts:448-474 | at most one process is in the locked section; the files are a chain that validates followed only by empty files; the appends that returned have distinct indices and name the stored blocks; without a power loss no stored block is ever lost or changed |
| AppendProtocol.ValidateKeeps | src/infra/storage/chain-adapter.ts:135-149 | inside the section the read blocks always validate, and the next block follows them |
| AppendProtocol.ReadKeeps | src/infra/storage/chain-adapter.ts:211-232 | inside the section reading never meets an empty or missing file, and keeps the invariant |
| AppendProtocol.PruneKeeps | src/infra/storage/chain-adapter.ts:480-504 | pruning inside the section keeps the stored chain; only the number of trailing empty files changes |
| AppendProtocol.PrunedDirValidates | src/infra/storage/chain-adapter.ts:211-266 | after pruning every stored file is accepted by the validation |
| AppendProtocol.EnteredAppends | src/infra/storage/chain-adapter.ts:129-166 | from any reachable state, the process inside the section can, by its own steps alone, store the data of its call under the given name and time as the next block, linked to the last one stored and hashed: the run ends with its receipt and the lock free |
| AppendProtocol.AppendSucceeds | src/infra/storage/chain-adapter.ts:129-166 | the same from the start of an append, when the lock is free |
| AppendProtocol.RunCarries | src/infra/storage/chain-adapter.ts:129-149 | whatever other processes do meanwhile, an append stores the data it was called with |
| AppendProtocol.GivesUp | src/infra/storage/chain-adapter.ts:454-473 | while another process holds the lock an append keeps trying, gives up at the 200th attempt and not before, and changes nothing |
| AppendProtocol.RunTemps | src/infra/storage/chain-adapter.ts:148-158 | in every run each rename finds its temporary file and takes it away |
| AppendProtocol.StaleLockClears | src/infra/storage/chain-adapter.ts:456-464 | the lock left by a process that is gone can be taken away, and then an append can begin |
| AppendProtocol.RefusesBadFiles | src/infra/storage/chain-adapter.ts:129-132 | whatever the directory holds, blocks that do not validate or a file that holds none make the append fail without writing anything |
| MemoryChain.ValidateBlock | crates/memphis-core/src/soul.rs:14-94 | the reported problems are exactly those the block has; none exactly when it is valid |
| MemoryChain.ValidIff | crates/memphis-core/src/soul.rs:14-94 | a block is valid exactly when its texts, time, hash and signature are sound and it follows the one before in number, link and time |
| MemoryChain.StrictIsStronger | crates/memphis-core/src/soul.rs:6-12 | a strictly valid block is valid |
| MemoryChain.StrictMeansSigned | crates/memphis-core/src/soul.rs:48-56 | strictly valid is valid and signed, the signature checking against the hash of the contents |
| MemoryChain.LastHashFixesHistory | crates/memphis-core/src/hash.rs:5-22 | with an ideal hash, two valid chains with the same last hash have the same length and agree in every hashed field of every block |
| MemoryChain.TamperingShows | crates/memphis-core/src/soul.rs:14-94 | two valid chains that differ in a hashed field of some block have different last hashes |
| MemoryChain.ValidPrefix | crates/memphis-core/src/soul.rs:14-94 | every prefix of a valid chain is valid |
| MemoryChain.ValidIndices | crates/memphis-core/src/soul.rs:58-70 | the blocks of a valid chain are numbered one after the other from 0 or 1 |
| MemoryChain.TimesNeverGoBack | crates/memphis-core/src/soul.rs:74-85 | the times of a valid chain never go back |
| MemoryChain.MemoryChain.Append | crates/memphis-core/src/chain.rs:17-22 | a block with no problem is pushed, any other leaves the chain as it was |
| MemoryChain.MemoryChain.AppendStrict | crates/memphis-core/src/chain.rs:24-29 | likewise under strict validation |
| MemoryChain.MemoryChain.Tail | crates/memphis-core/src/chain.rs:39-42 | the last n blocks, newest first as the source lists them |
| MemoryChain.Replay | crates/memphis-core/src/harness.rs:23-48 | the accepted blocks are the greedily kept ones and form a valid chain; accepted plus rejected is the input length; each rejected block is reported, in order, with exactly the problems it has after what was kept before it |
| MemoryChain.KeptNext | crates/memphis-core/src/harness.rs:29-40 | a block is kept exactly when it is valid after what was kept before it |
| MemoryChain.TakeSnapshot | crates/memphis-core/src/harness.rs:50-73 | the snapshot is the block count, the last hash and the digest of all hash texts |
| MemoryChain.HashTextsMeaning | crates/memphis-core/src/harness.rs:50-60 | the snapshot digests the stored hash of each block in turn, recomputed where it is blank |
| MemoryChain.KeptIsSubsequence | crates/memphis-core/src/harness.rs:23-48 | what replay accepts is a subsequence of its input |
| MemoryChain.KeptIsValid | crates/memphis-core/src/harness.rs:23-48 | what replay accepts is a valid chain |
| MemoryChain.ReplayIsIdempotent | crates/memphis-core/src/harness.rs:23-48 | replaying an accepted chain keeps all of it and gives the same snapshot |
| MemoryChain.SnapshotFollowsLastHash | crates/memphis-core/src/harness.rs:50-73 | two valid chains with the same last hash have the same snapshot |
| KeyText.RunPrint | src/sync/chain-diff.ts:24-28 | printed text, read at any bracket depth, leaves the reader where it was |
| KeyText.InsidePrint | src/sync/chain-diff.ts:24-28 | printed text read from within a string never gets out of it |
| KeyText.SplitUnique | src/sync/chain-diff.ts:24-28 | a text, a colon and a printed value: the whole tells text and print apart, colons in the text or not |
| ReplicaMerge.FingerprintMeaning | src/sync/chain-diff.ts:30-38 | two blocks have one fingerprint exactly when they agree in every field and hold the same data (up to key order, a list of one undefined item counting as empty) |
| ReplicaMerge.KeyMeaning | src/sync/chain-diff.ts:24-28 | any two blocks share a key exactly when they share a hash, or neither has one and they share an index, or neither has an index either and they share timestamp and data; a missing timestamp counts as "unknown" |
| ReplicaMerge.BuildMap | src/sync/chain-diff.ts:41-42 | a list becomes an insertion-ordered map: first-seen key order, last block of each key |
| ReplicaMerge.ResolveChainConflicts | src/sync/conflict-resolver.ts:17-53 | the two loops and the final sort give the merged list |
| MergeLaws.ResolveShape | src/sync/conflict-resolver.ts:17-53 | whatever duplicates come in, the merged list holds one block per key and is sorted |
| MergeLaws.ResolveIsMerge | src/sync/conflict-resolver.ts:17-53 | without duplicates on the remote side it holds exactly the union of keys, each with the winner of its strategy |
| MergeLaws.LatestIsKept | src/sync/conflict-resolver.ts:39-44 | under last-write-wins, duplicates included, no remote block of a key nor the last local one is later than the one kept |
| MergeLaws.LaterWins | src/sync/conflict-resolver.ts:12-15 | one block against another of its key: the remote one is kept exactly when its timestamp parses to a date no earlier; a missing, empty or unparsable timestamp counts as zero |
| MergeLaws.LatestDateKept | src/sync/conflict-resolver.ts:12-44 | the block kept for a key is dated no earlier than any remote block of the key, nor than the last local one |
| MergeLaws.SortKeeps | src/sync/conflict-resolver.ts:47-52 | the final sort puts the blocks in order and loses none |
| MergeLaws.MergedOrder | src/sync/conflict-resolver.ts:47-52 | a merged list goes by index, blocks without one last, and by date where indices agree |
| MergeLaws.MergeCommutes | src/sync/conflict-resolver.ts:39-44 | last-write-wins merging commutes exactly when tied blocks of a key are equal |
| MergeLaws.MergeAssociates | src/sync/conflict-resolver.ts:39-44 | last-write-wins merging is associative |
| MergeLaws.ResolveIdempotent | src/sync/conflict-resolver.ts:17-53 | merging a merged list with itself changes nothing, order included |
| MergeLaws.PreferencesMirror | src/sync/conflict-resolver.ts:33-37 | preferring local is preferring remote from the other side |
| MergeLaws.DetectChainDiff | src/sync/chain-diff.ts:40-66 | the loops give the one-sided blocks of both sides and the differing shared keys |
| MergeLaws.MissingMeaning | src/sync/chain-diff.ts:48-63 | the one-sided part has one block for each key the other side lacks, and as many |
| MergeLaws.DifferingMeaning | src/sync/chain-diff.ts:54-56 | the conflicts are exactly the shared keys whose blocks differ in some field or in their data |
| MergeLaws.PullThenDiff | src/sync/sync-manager.ts:84-102 | after a pull nothing of the remote is missing, the block count grows by the remote-only keys, and a key still differs exactly where the strategy kept the local block |
| ReplicaNetwork.StepKeeps | src/sync/sync-manager.ts:70-88 | every reply and every (possibly stale) pull keeps each replica explained by the lists that have flowed into it |
| ReplicaNetwork.RunKeeps | src/sync/sync-manager.ts:70-88 | the same over whole runs |
| ReplicaNetwork.Convergence | src/sync/conflict-resolver.ts:17-53 | where tied blocks agree, any two replicas that have seen the same replicas hold the same map, after any run |
| ReplicaNetwork.MapDeterminesList | src/sync/conflict-resolver.ts:47-52 | two sorted lists with the same map are the same list when no two blocks tie for a place |
| ReplicaNetwork.TiesSwapForever | src/sync/conflict-resolver.ts:42-44 | two replicas exchanging one key agree after a round exactly when the timestamps differ; tied different blocks are swapped for ever |
| LoopEngine.LoopState.Apply | crates/memphis-core/src/loop_engine.rs:63-106 | the mutation is the engine step on values, saturating counters included |
| LoopEngine.ApplyFallbackLoopStep | src/modules/orchestration/task-executor.ts:122-167 | the edited copy is the fallback step on values |
| LoopEngine.AgreeUnlessHalted | src/modules/orchestration/task-executor.ts:127-134 | for any state with room in its counters the two steps agree exactly when the state has not halted |
| LoopEngine.FallbackSimulatesEngine | src/modules/orchestration/task-executor.ts:122-167 | over whole runs every action gets the same answer and the states agree in all but steps, which differ exactly after a halt |
| LoopEngine.LimitsHold | crates/memphis-core/src/loop_engine.rs:63-106 | under effective limits accepted actions, tool calls, waits and errors stay within them in every run; unhalted counters are their exact totals; a closing action is the last accepted |
| LoopEngine.AcceptedIff | crates/memphis-core/src/loop_engine.rs:63-106 | a run goes on exactly as long as the totals of its actions are within the limits and none of them closes it (a recoverable error does not); it is accepted in full exactly when the totals are within the limits and at most its last action closes it |
| LoopEngine.DefaultsAccept | crates/memphis-core/src/loop_engine.rs:20-29 | under the defaults a run is accepted in full exactly with at most 32 actions, 16 tool calls, two minutes of waiting and 4 errors, and nothing after an action that closes it |
| LoopEngine.LimitsHoldIff | crates/memphis-core/src/loop_engine.rs:68-94 | all runs stay within their limits exactly when `max_steps` is below the largest u32 and `max_wait_ms` below the largest u64 (or at most one step is allowed) |
| LoopEngine.LongRunHalts | crates/memphis-core/src/loop_engine.rs:68-72 | a run of more than maxSteps actions has halted |
| LoopEngine.HaltStays | crates/memphis-core/src/loop_engine.rs:64-66 | a halted state never changes again |
| LoopEngine.HaltsIffBelowMaximum | crates/memphis-core/src/loop_engine.rs:68-72 | all runs longer than maxSteps halt exactly when maxSteps is below the largest u32 |
| LoopEngine.GenerationFitsDefaults | src/modules/orchestration/task-executor.ts:215-288 | the two steps of a generation are accepted under the default limits, by both engines alike |
| TaskExecutor.StoredReadsBack | src/modules/orchestration/task-executor.ts:93-116 | a stored result is read back exactly when it is well formed, with its timing truncated |
| TaskExecutor.StoredInjective | src/modules/orchestration/task-executor.ts:263-274 | the stored form determines the result |
| TaskExecutor.ResultMeaning | src/modules/orchestration/task-executor.ts:78-116 | which blocks count as the result of a run, and which results are fit to be used again |
| TaskExecutor.FindCachedResult | src/modules/orchestration/task-executor.ts:397-433 | the loop returns the first block in the listing that offers a result of the run |
| TaskExecutor.TaskExecutor.Execute | src/modules/orchestration/task-executor.ts:186-310 | the events appended, whether the provider is called and what is returned are those of the execution on values; a stored result is reused when the flag asks for it or, without a flag, the request names its run, and never otherwise |
| TaskReplay.LookupSound | src/modules/orchestration/task-executor.ts:397-433 | in whatever order the files are listed, a lookup finds the stored result, and nothing where there is none |
| TaskReplay.StepKeeps | src/modules/orchestration/task-executor.ts:186-310 | every step of every execution, crash and foreign block keeps the chain and the executions consistent |
| TaskReplay.RunKeeps | src/modules/orchestration/task-executor.ts:186-310 | the same over whole runs |
| TaskReplay.AtMostOneResult | src/app/bootstrap.ts:322-335 | across any restarts a run stores at most one tool result |
| TaskReplay.NeverCalledAgain | src/modules/orchestration/task-executor.ts:241-262 | the provider is only called while the chain holds no result of the run |
| TaskReplay.OneAnswer | src/modules/orchestration/task-executor.ts:186-310 | all completed executions of a run return one result, its timing truncated when reused |
| TaskReplay.CalledAgainIff | src/modules/orchestration/task-executor.ts:93-116 | once a result of the run is stored, wherever it stands on the chain and in whatever order the blocks are listed, the next execution calls the provider exactly when the result was not well formed or reuse is off (by flag, or without flag and run id), and otherwise returns it with its timing truncated |
| TaskReplay.ExecutionIsRun | src/modules/orchestration/task-executor.ts:186-310 | an uninterrupted execution is a run of the steps: same events, call and answer, and nothing left in progress |
| TaskReplay.CrashRestarts | src/modules/orchestration/task-executor.ts:186-310 | after a crash nothing is in progress and every run can be executed again |
| ImportJson.DropDuplicates | src/infra/cli/import-json.ts:198-224 | the first loop gives the first good candidate of each hash and one issue for every other candidate |
| ImportJson.RunImportJsonPayload | src/infra/cli/import-json.ts:185-295 | the whole import, the type error on a skipped block included |
| ImportLaws.DedupedMeaning | src/infra/cli/import-json.ts:198-224 | the blocks kept are exactly the first good candidates of their hashes |
| ImportLaws.DedupedHashes | src/infra/cli/import-json.ts:198-224 | their hashes are distinct, and kept blocks plus issues account for every candidate |
| ImportLaws.ShapeMeaning | src/infra/cli/import-json.ts:117-136 | the candidates are the payload itself, its "blocks", or, without those, the older "chain" |
| ImportLaws.CandidateFields | src/infra/cli/import-json.ts:138-162 | each field of a block is the first one present among its names, in order; a candidate without a hash is refused, one without index or link gets its place and the genesis hash |
| ImportLaws.CandidateData | src/infra/cli/import-json.ts:163-182 | kind, text and tags likewise, a flat name before one under "data"; without any of them there is no data |
| ImportLaws.FieldMeaning | src/infra/cli/import-json.ts:90-105 | a text counts if it is not empty, a number if it is finite, or a string of digits |
| ImportLaws.IssueMeaning | src/infra/cli/import-json.ts:198-224 | each candidate that is no object, has no hash or repeats one adds the issue that names it, and no other does |
| ImportLaws.DuplicatesMeaning | src/infra/cli/import-json.ts:198-224 | the number of duplicates is the number of issues that say so |
| ImportLaws.ImportedChain | src/infra/cli/import-json.ts:226-264 | a finished import is one chain 0, 1, 2, … linked hash to hash with distinct hashes; blocks differ from their candidates only in index and link; every candidate is accounted for |
| ImportLaws.ValidIff | src/infra/cli/import-json.ts:270-273 | called valid exactly when every candidate was good, every link was right and no index was infinite |
| ImportLaws.RoundTrip | src/infra/cli/import-json.ts:138-183 | normalising a written block gives the block back |
| ImportLaws.ReimportIsIdentity | src/infra/cli/import-json.ts:185-295 | importing the written output gives the same blocks, rewrites and skips nothing and reports no issue, provided its own indices are read back as printed |
| ImportLaws.LongIndexCrashes | src/infra/cli/import-json.ts:233-238 | a digit string too long for a number crashes the import unless its block is the last one kept |
| ChainCache.KeyInjective | src/infra/cache/chain-cache.ts:32-34 | a key names one chain and one index |
| ChainCache.PrefixMeaning | src/infra/cache/chain-cache.ts:82-89 | invalidating a name hits the keys of that chain and of chains whose name continues it with a colon |
| ChainCache.PrefixIsChain | src/infra/cache/chain-cache.ts:82-89 | for a chain name without a colon exactly that chain's keys are hit |
| ChainCache.LeastRecentlyUsed | src/infra/cache/chain-cache.ts:41-80 | over any run of reads and writes the cache holds exactly the maxBlocks most recently used keys, in order, with the values last written |
| ChainCache.SetKeeps | src/infra/cache/chain-cache.ts:56-80 | a write keeps the key list a duplicate-free listing of the map |
| ChainCache.ChainCache.Get | src/infra/cache/chain-cache.ts:41-54 | a hit returns the value and makes its key the newest; a miss changes only the counter |
| ChainCache.ChainCache.Set | src/infra/cache/chain-cache.ts:56-80 | the write, with the oldest key evicted when full; the byte estimate stays the sum of the recorded sizes, so its clamp never fires |
| ChainCache.ChainCache.EvictOldest | src/infra/cache/chain-cache.ts:71-79 | the oldest key and its size go, and the estimate stays the sum of the recorded sizes |
| ChainCache.ChainCache.InvalidateChain | src/infra/cache/chain-cache.ts:82-105 | exactly the keys with the prefix go, and their number is returned |
| ChainCache.ChainCache.InvalidateBlock | src/infra/cache/chain-cache.ts:107-117 | exactly that key goes, if present |
| ChainCache.ChainCache.Clear | src/infra/cache/chain-cache.ts:119-126 | the cache is empty with an estimate of zero |
| EmbeddingCache.EmbeddingCache.Get | crates/memphis-embed/src/cache.rs:27-40 | a fresh entry is returned and moves to the front; an expired one is dropped |
| EmbeddingCache.EmbeddingCache.Put | crates/memphis-embed/src/cache.rs:42-65 | the insertion, with the last key of the queue evicted when the map is full |
| EmbeddingCache.EmbeddingCache.EvictExpired | crates/memphis-embed/src/cache.rs:67-82 | exactly the expired keys go, and their number is returned |
| EmbeddingCache.PutKeeps | crates/memphis-embed/src/cache.rs:42-65 | the queue stays a duplicate-free listing of the keys, within the maximum size |
| EmbeddingCache.PutLosesAnother | crates/memphis-embed/src/cache.rs:47-55 | a put loses some other key exactly when the map is full and holds another key |
| EmbeddingCache.PutIsExactIff | crates/memphis-embed/src/cache.rs:47-55 | a put is the least-recently-used one (file the key in front, drop what no longer fits) except when it rewrites a key of a full map that holds others |
| RateLimiter.RateLimiter.CheckRequest | src/infra/http/rate-limit.ts:16-32 | the check on the bucket map: new window, admission or refusal with the time left |
| RateLimiter.WindowCounts | src/infra/http/rate-limit.ts:16-32 | a window's count is the number of requests admitted in it and never exceeds the limit |
| RateLimiter.RetryAfterIsExact | src/infra/http/rate-limit.ts:24-28 | a refusal tells exactly how long to wait: the key is refused until then and admitted from then on |
| RateLimiter.AdmissionsBounded | src/infra/http/rate-limit.ts:16-32 | in any chronological trace each key gets at most twice the limit less one in any half-open interval of one window length |
| RateLimiter.BoundIsReached | src/infra/http/rate-limit.ts:16-32 | for every limit and any window of at least two milliseconds some trace reaches that bound |

## Left out

- Real cryptography: SHA-256 and Ed25519 are abstract functions; injectivity, and a digest that is never all zeros, are assumptions of the lemmas that need them.
- The operating system beyond bytes and names: a write that does not crash is complete, a rename and an exclusive create are atomic and durable, and a stale lock is removed only when its owner no longer runs; short writes that do not crash are not modelled.
- Crashes act on the active file: an archived file is taken to be on disk as it was when it was renamed; in financial mode its acknowledged records had all been synced by then.
- The text of an error is a parameter, and the queue uses one clock reading for all records of one resume.
- Wall-clock waiting, generated ids and UTF-8 conversion: clocks and ids are arguments, lock attempts are counted, payloads are bytes.
- JSON parsing: the parser is a parameter that reads back what the printer wrote; the printer itself is modelled, undefined parts included, except for lone surrogates in strings, `toJSON` methods and the text of numbers, which is part of the value.
- Block files are read in order, where the source reads them concurrently and, of several unreadable ones, names the one that fails first; an index that is no natural number counts as a wrong shape, where the source reports it as a wrong hash or index.
- The runtime's enumeration order: the adapter's sort lists integer-like keys first; this is covered by letting the key order be that enumeration, and collation is assumed to be a strict total order.
- Floating point: scores and durations are exact reals, indices and timestamps exact integers, and there is no NaN; JavaScript counters are taken to stay below 2^53.
- The vector index's `load`, `save` and diagnostics; its nodes are values in a map, so aliasing between a node object and the map is not modelled.
- The native bridge (`NapiChainAdapter`): it takes no lock, and what it validates is the Rust core modelled here.
- `crates/memphis-core` signing and block repair; transport, registry and persistence around the replica merge; writing and reporting around the import.
- Executions with dedupe switched off, or whose event appends fail: the at-most-once results are for runs with a run id, dedupe on and working appends; two executions of one run id at the same time are excluded.
- The issue texts of the import (`detail`, `errors`) and its progress callback; fractional indices are kept apart from whole ones but not ordered.
- A record handed to the block cache is not changed afterwards by its caller.
- HTTP server, command line, terminal and web interfaces, providers, alerts, and the cognitive models: wiring and heuristics without a specification to prove.
- Decision lifecycle, trust root, configuration profiles, metrics, request limits, chain repair: they would add only easy members.

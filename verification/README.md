# EngineRace verification model

EngineRace is a key-value store for the cycle "write, get killed, reopen, read, scan twice". This project models
the protocols and data structures its correctness rests on, and proves them, in Dafny 4.11:

    dafny verify dfyconfig.toml

| part | module |
|---|---|
| reference-counted lock-free free list | `FreeList` |
| optimistic-ticket dequeue of a sub-queue | `OptimisticDequeue` |
| circular block index that doubles while consumers use it | `BlockIndex` |
| hash from threads to producers, a chain of tables | `ProducerHash` |
| counting semaphore with spinning, timeouts and bulk waits, and the blocking queue on it | `Semaphore` |
| reusable barrier | `Barrier` |
| odd/even tokens between random readers | `ReaderTokens` |
| per-bucket log with two persistent buffers, killed at any step | `BucketLog`, `BucketFiles` |
| key order, buckets and the sorted index with its branch-free search | `KeyOrder`, `BucketIndex` |
| ordered scan of a whole pass | `RangeScan`, `Engine` |
| double-pass range pipeline with recycled buffers | `RangePipeline` |
| block-wise reading of one bucket by several workers | `BucketRead` |
| what a visitor sees of all that | `VisitorScan` |
| sparse hash table: probing, table, rows of packed groups | `Probing`, `SparseHash`, `SparseTable`, `SparseGroup` |
| boundary-tag heap with tree bins | `TreeBins`, `Allocator` |
| skip list | `SkipList` |

`Arith`, `Sums` and `Options` are shared vocabulary.

How the parts are modelled:

* A concurrent part is a transition system over any number of threads. One transition is one atomic operation or
  one locked section; runs are sequentially consistent; `Reachable` means at the end of some run from an initial
  state. Each has an inductive invariant (`Inv`), its preservation (`StepInv`), the promises derived from it, what
  every finished call did in terms of what was called (runs with their actions), and what a call does when it runs
  alone. Where the invariant needs history (who owns a node, where a buffer is), it is a ghost component beside the
  state.
* Sequential code that updates fields or arrays is a class or a method on arrays, proved against a function of the
  old state: a map for the two tables, a set of chunks for the heap, a log for a bucket.
* Sizes, thread counts and buffer counts are parameters under the divisibility facts the code needs;
  `BucketLog.EngineLayout` shows that the engine's own constants meet them. 64-bit words, 32-bit truncation and
  16-bit offsets are written out where they matter. A mask by a power of two minus one is a remainder.

Limits the code has, which appear as hypotheses or as exact conditions:

* `KeyEntry.value_offset_` has 16 bits (engine_race/engine_race.h:69-72) though a region has 69632 slots.
  `BucketIndex.ReadsRightIffOffsetsFit` shows 65536 to be the exact bound, and `OverlongReadsOldValue` gives a log
  that fails beyond it.
* `Write` never compares the count with the region size; `BucketLog.PastRegionIsNextBucket` shows what the next slot
  would be. The models write only inside the region.
* `branchfree_search` reads `*base`, so it needs n >= 1 (engine_race/engine_race.cc:61).
* The dequeue compares 64-bit words. `OptimisticDequeue.SafeUpToLimit` shows that no sub-queue can err before it has
  handed out 2^63 + 3 units of tickets, and `BeyondLimit` gives a run that does then.
* All readers must do the same multiple of SHRINK_SYNC_FACTOR reads: `ReaderTokens.CompletesIffMultiple` is exact.
* `compute_tree_index` keeps the shifted size in 32 bits, so the comment-level promise that a chunk is in the bin of
  its size holds below 2^40 and beyond that only as `TreeBins.IndexRightIff` says.
* The skip list's comment gives levels in [1, maxLevel) while its code can draw maxLevel; the model allows it.
* Two exits of `_resize_delta` (engine_race/sparsepp/spp.h:2720-2721, 2725-2741) can never be taken, by
  `SparseHash.OneGrowth`; the model of that function leaves them out.

## Model

| member | source | states |
|---|---|---|
| FreeList.StepInv | engine_race/concurrentqueue.h:1375-1454 | Every atomic operation of `add`, `try_get` and the linking routine, by any thread, keeps the invariant: one owner per node, a well-formed list, reference counts that add up |
| FreeList.SingleLinker | engine_race/concurrentqueue.h:1432-1454 | At most one thread is linking a node; the node is then with no caller and not on the list |
| FreeList.TakeIsExact | engine_race/concurrentqueue.h:1403-1410 | The head CAS of `try_get`, when it succeeds, installs the head's current successor (no ABA) with the should-be-on-list flag clear, removes exactly the head, and the node has no other owner |
| FreeList.TakenExclusively | engine_race/concurrentqueue.h:1405-1413 | A node about to be returned is not on the list, not with a caller, and not being added, linked or returned by another thread |
| FreeList.NotLost | engine_race/concurrentqueue.h:1375-1387 | Every node is with a caller, in an operation's hands, on the list, or flagged with a reference holder that will link it |
| FreeList.QuiescentConservation | engine_race/concurrentqueue.h:1375-1454 | With all threads idle, the callers' nodes and the list partition the nodes, with reference counts 0 and 1 |
| FreeList.NeverStuck | engine_race/concurrentqueue.h:1375-1426 | Whatever the interleaving, a thread inside an operation can take its next step, on nodes that exist, and one between operations may start any that its caller may call |
| FreeList.CallsAreServed | engine_race/concurrentqueue.h:1375-1426 | In every run, a finished `try_get` took one node, or none and then the list was empty at some moment of the call; a finished `add` took none |
| FreeList.LockFree | engine_race/concurrentqueue.h:1389-1454 | Wherever the other threads were stopped, a thread that runs alone finishes its call |
| FreeList.SoloGet | engine_race/concurrentqueue.h:1394-1414 | Alone on a list with nodes, `try_get` hands out the head and leaves the rest of the list |
| FreeList.SoloGetEmpty | engine_race/concurrentqueue.h:1394-1425 | Alone on an empty list it hands out nothing and changes nothing |
| FreeList.SoloAdd | engine_race/concurrentqueue.h:1375-1454 | Alone, `add` puts the node in front of the list |
| FreeList.Starts | engine_race/concurrentqueue.h:1356-1358 | There are runs with any number of threads and nodes |
| OptimisticDequeue.CircularExactly | engine_race/concurrentqueue.h:406-417 | The circular test on two words holds exactly when the counters' difference, modulo a word, is positive and below half the range |
| OptimisticDequeue.CircularLessIsLess | engine_race/concurrentqueue.h:406-417 | Within half the range the test on words is the order of the unbounded counters |
| OptimisticDequeue.DecideSafe | engine_race/concurrentqueue.h:2180-2188 | A ticket that stands at most half the range beyond the tail is granted no more than there is, however far ahead the tail is |
| OptimisticDequeue.OneIsBulkOfOne | engine_race/concurrentqueue.h:1886-1923 | `dequeue` makes the same decisions as `dequeue_bulk` with a maximum of one, for all counter values |
| OptimisticDequeue.DecideFacts | engine_race/concurrentqueue.h:2180-2188 | A ticket passes exactly when its position is below the tail, and gets the smaller of what it asked for and what is left |
| OptimisticDequeue.GrantsAtMostTail | engine_race/concurrentqueue.h:1897-1923 | If every ticket's grant is bounded by the tail minus the tickets before it that were not given back, the grants together never exceed the tail |
| OptimisticDequeue.StepInv | engine_race/concurrentqueue.h:2474-2542 | Every enqueue, ticket, decision, give-back and claim keeps the ticket ledger and the claims consistent |
| OptimisticDequeue.CountersBalance | engine_race/concurrentqueue.h:1886-1983 | In every run, dequeueOptimisticCount = headIndex + overcommit + tickets in flight |
| OptimisticDequeue.HeadNeverPassesTail | engine_race/concurrentqueue.h:1886-1983 | In every run that has handed out at most 2^63 + 2 units of tickets, claimed plus about-to-be-claimed elements never pass the tail, which may itself wrap |
| OptimisticDequeue.BeyondLimit | engine_race/concurrentqueue.h:1886-1923 | With one unit more there is a run in which the head passes the tail |
| OptimisticDequeue.SafeUpToLimit | engine_race/concurrentqueue.h:1886-1923 | The head stays within the tail in all runs up to a number of ticket units if and only if that number is at most 2^63 + 2 |
| OptimisticDequeue.ClaimedExactlyOnce | engine_race/concurrentqueue.h:2171-2261 | In every run each element below the head belongs to exactly one claim and claims follow enqueue order; up to the ticket limit all are below the tail |
| OptimisticDequeue.SoloConsumer | engine_race/concurrentqueue.h:1886-1890 | A consumer that runs alone is turned away exactly when the sub-queue is empty |
| OptimisticDequeue.CallTakesAtMost | engine_race/concurrentqueue.h:2171-2188 | In every run, what a call has claimed and what it asks for, holds a ticket for or is about to claim are together at most what its caller allowed |
| OptimisticDequeue.SoloClaims | engine_race/concurrentqueue.h:2171-2261 | A consumer that runs alone claims exactly the smaller of its maximum and what is in the queue |
| OptimisticDequeue.WaitFree | engine_race/concurrentqueue.h:1886-1983 | A call can always go on, and ends within seven steps of its own |
| BlockIndex.DistanceRecovered | engine_race/concurrentqueue.h:2858-2874 | The signed word division in a lookup recovers the distance in blocks between two start indices across wrap-around |
| BlockIndex.KeyIsValid | engine_race/concurrentqueue.h:2797-2798 | No block's start index is ever the marker of an unused entry |
| BlockIndex.DoubledPlace | engine_race/concurrentqueue.h:2892-2911 | Doubling re-bases the old ring so that every block still indexed keeps its entry |
| BlockIndex.DoubledFits | engine_race/concurrentqueue.h:2876-2918 | A doubled ring, with its new tail, is a correct index of the same blocks |
| BlockIndex.StepInv | engine_race/concurrentqueue.h:2816-2918 | Inserting, publishing, rewinding, doubling, and every load and free of any number of consumers keep every ring a correct index of the live blocks |
| BlockIndex.LookupIsRight | engine_race/concurrentqueue.h:2851-2874 | Through any (header, tail) snapshot, across wrap-around, frees in any order, rewinds and doublings, the entry found has the block's key and a non-null block |
| BlockIndex.LookupNeverStuck | engine_race/concurrentqueue.h:2858-2874 | Each place a lookup reads exists, so it always takes its next step |
| BlockIndex.DoublingMakesRoom | engine_race/concurrentqueue.h:2836-2841 | After a doubling the retried insertion finds an unused entry, as the source asserts |
| BlockIndex.RoomIffOldestFreed | engine_race/concurrentqueue.h:2822-2830 | An insertion finds room exactly when the block one whole ring earlier has been freed or never existed |
| BlockIndex.InsertPublishes | engine_race/concurrentqueue.h:2816-2830 | With room, an insertion adds and publishes exactly the next block |
| BlockIndex.DoublingInserts | engine_race/concurrentqueue.h:2833-2842 | Without room, a doubling and the retried insertion do |
| BlockIndex.GiveUpFinishes | engine_race/concurrentqueue.h:2425-2460 | A failed insertion is unwound to what was published, and changes nothing else |
| BlockIndex.UnwindFinishes | engine_race/concurrentqueue.h:2845-2849 | Rewinding takes back exactly the unpublished blocks |
| BlockIndex.LookupFinishes | engine_race/concurrentqueue.h:2851-2874 | A lookup ends within four steps at the entry that holds its block |
| BlockIndex.ConsumeFinishes | engine_race/concurrentqueue.h:2674-2710 | A consumer with blocks of its own frees each of them at its own entry, and no other |
| BlockIndex.ClaimFinishes | engine_race/concurrentqueue.h:2700-2794 | From claim to end, a consumer that works alone dequeues exactly the blocks it claims |
| BlockIndex.ClaimAnytime | engine_race/concurrentqueue.h:2700-2721 | Any live blocks may be claimed, whatever other consumers and the producer are doing |
| BlockIndex.Starts | engine_race/concurrentqueue.h:2345-2352 | There are runs with any block size, ring and number of consumers |
| ProducerHash.GrownCapacity | engine_race/concurrentqueue.h:3366-3370 | The next capacity is the least of the doublings that is more than twice the new count |
| ProducerHash.EmptyMeansAbsent | engine_race/concurrentqueue.h:3350-3352 | An empty slot on the probe path proves the key is in no slot of that table |
| ProducerHash.StepInv | engine_race/concurrentqueue.h:3294-3442 | Every probe, lazy copy, count, table growth and insertion of any thread keeps the chain of tables sound |
| ProducerHash.SameProducerIffSameThread | engine_race/concurrentqueue.h:3294-3442 | A thread is handed the same producer on every call, two threads are never handed the same one, and no call comes back empty |
| ProducerHash.TablesStayOpen | engine_race/concurrentqueue.h:3357-3442 | No table of the chain is ever full, and none with an entry reaches three quarters, with lazy copies and concurrent resizes |
| ProducerHash.ProbeLoopsEnd | engine_race/concurrentqueue.h:3417-3433 | Every probe loop, in a lookup or an insertion, ends before it has been once around its table |
| ProducerHash.NeverStuck | engine_race/concurrentqueue.h:3294-3442 | In every reachable state every thread can take its next step |
| ProducerHash.ServedOnce | engine_race/concurrentqueue.h:3330-3349 | A thread that was served once finds its key on every later call: it is never counted nor given a producer again |
| ProducerHash.SoloCall | engine_race/concurrentqueue.h:3294-3442 | Unless another thread holds the resize lock, a thread that runs alone from any point of any run ends its call with a producer, its registering first call included |
| ProducerHash.Starts | engine_race/concurrentqueue.h:3294-3300 | There are runs with any number of threads and any hashes |
| Barrier.BarrierObject.constructor | engine_race/barrier.h:8-12 | Count and threshold are N, the generation is 0 |
| Barrier.BarrierObject.Enter | engine_race/barrier.h:15-21 | The locked section up to the wait changes the fields as one arrival does, and saves the generation before that |
| Barrier.BarrierObject.MayReturn | engine_race/barrier.h:22-22 | The predicate that lets a woken thread return is the one the transition system tests on the object's fields |
| Barrier.StepInv | engine_race/barrier.h:14-24 | Every arrival, wake-up, spurious wake-up and return keeps: the count is the number of threads yet to call in this round |
| Barrier.ReturnsAfterAllCalled | engine_race/barrier.h:14-24 | No thread's k-th Wait returns before all N have called their k-th Wait |
| Barrier.SavedGenerationIsRecent | engine_race/barrier.h:16-22 | A waiter's saved word is of the current round or the one before, so the wrapping counter tells them apart |
| Barrier.NobodyStranded | engine_race/barrier.h:14-24 | A parked thread always waits for the current round, and some thread is free to complete it |
| Barrier.LastArrivalReleasesAll | engine_race/barrier.h:17-20 | The arrival that completes a round resets the count and lets every waiter return |
| Barrier.WokenReturns | engine_race/barrier.h:22-22 | A woken thread returns at its next test exactly when its round is over, and waits on otherwise |
| Barrier.RoundsGoOn | engine_race/barrier.h:14-24 | From every reachable state the open round can be completed, all threads having called |
| Barrier.SpuriousIsHarmless | engine_race/barrier.h:22-22 | A parked thread may wake up at any time, and its test parks it again unchanged |
| Barrier.Starts | engine_race/barrier.h:8-12 | There are runs with any number of threads |
| Semaphore.ReleaseFits | engine_race/blockingconcurrentqueue.h:396-405 | `signal` posts at most one wake-up per waiter, by exactly the amount the deficit shrinks |
| Semaphore.StepInv | engine_race/blockingconcurrentqueue.h:260-405 | Every atomic operation of tryWait, wait, timed wait, the bulk forms and signal keeps both balance equations |
| Semaphore.NeverOverGrants | engine_race/blockingconcurrentqueue.h:260-405 | max(0,-m_count) = W-K-P and m_count+W = initial+signalled-granted, so grants never exceed initial plus signalled |
| Semaphore.NoSurplusWakeUps | engine_race/blockingconcurrentqueue.h:272-296 | Kernel count plus wake-ups still to be posted never exceed the waiters, so a timeout leaves none behind |
| Semaphore.NoLostWakeUp | engine_race/blockingconcurrentqueue.h:396-405 | While somebody waits, units are ungranted exactly when a wake-up is present or being posted |
| Semaphore.SpinnersAreServed | engine_race/blockingconcurrentqueue.h:755-761 | Every consumer spinning in `wait_dequeue` has elements left for it, and its dequeue can succeed |
| Semaphore.AcquisitionResult | engine_race/blockingconcurrentqueue.h:299-333 | An acquisition ends with 1 to `max` units; only a try, a timeout or a maximum of 0 ends with none |
| Semaphore.CallsAreServed | engine_race/blockingconcurrentqueue.h:299-391 | In every run, a finished acquisition took at most what its caller asked for; less only if no more was to be had at some moment after its last grant; none only if it was a try or a wait that timed out, so a blocking one took at least one; and an enqueue of n put in n elements and signalled n |
| Semaphore.SoloAcquire | engine_race/blockingconcurrentqueue.h:344-389 | With units to be had, an acquisition left alone is granted the smaller of its maximum and the count |
| Semaphore.SoloTryFails | engine_race/blockingconcurrentqueue.h:344-353 | Without units a try comes back at once with nothing and changes nothing |
| Semaphore.LeftAloneFinishes | engine_race/blockingconcurrentqueue.h:260-405 | Left alone at any point of any run of the blocking queue, with no post owed by others, a thread finishes its call, or is parked in an untimed wait with nothing left to grant |
| Semaphore.MayTimeOut | engine_race/blockingconcurrentqueue.h:280-296 | A timed wait may time out whether or not a wake-up is there |
| Semaphore.Starts | engine_race/blockingconcurrentqueue.h:339-342 | There are runs with any number of threads and units |
| ReaderTokens.StepInv | engine_race/engine_race.cc:413-422 | Every wait for, and hand-over of, a token by any reader keeps the token and round counts consistent |
| ReaderTokens.TokensConserved | engine_race/engine_race.cc:441-472 | Queued tokens plus tokens in hand are always NUM_THREADS/2, so at most half of the threads read at once |
| ReaderTokens.BlockedIsFinished | engine_race/engine_race.cc:441-450 | A configuration of round counts in which every unfinished thread waits on an empty queue has no unfinished thread |
| ReaderTokens.NoDeadlock | engine_race/engine_race.cc:413-472 | When all threads do the same multiple of SHRINK_SYNC_FACTOR reads, no reachable state is a deadlock, though tokens carry no round |
| ReaderTokens.IncompleteRoundsNeverFinish | engine_race/engine_race.cc:464-472 | With another number of reads the threads can never all finish |
| ReaderTokens.CompletesIffMultiple | engine_race/engine_race.cc:413-472 | Every run that stops has finished if and only if the number of reads is a multiple of SHRINK_SYNC_FACTOR |
| ReaderTokens.ReadsAreMade | engine_race/engine_race.cc:435-491 | In every run each thread's finished reads are counted once, and every read begun is ended before the next |
| ReaderTokens.AllReadsAreMade | engine_race/engine_race.cc:435-491 | When the protocol works, a run that stops has begun and ended exactly the reads that were to be made |
| ReaderTokens.Starts | engine_race/engine_race.cc:441-453 | There are runs with any number of pairs |
| BucketLog.AddressInFile | engine_race/engine_race.cc:68-81 | A range inside a bucket's region lies inside its file |
| BucketLog.AddressApart | engine_race/engine_race.cc:68-81 | Slots of different buckets never coincide, and a bucket's slots coincide only with themselves |
| BucketLog.WriteBucketReads | engine_race/engine_race.cc:377-396 | A pwrite through the layout changes exactly the addressed slots of that bucket and nothing of any other |
| BucketLog.StepInv | engine_race/engine_race.cc:369-400 | Every sub-step of concurrent writers, a kill at any of them, torn copies, the flush and the truncations keep every counted entry recoverable |
| BucketLog.OpenRecoversLog | engine_race/engine_race.cc:862-898 | After any run of writes, kills and interrupted flushes, reopening rebuilds for each bucket exactly the counted entries, key i beside value i, each in its own bucket |
| BucketLog.LogIsWhatWasWritten | engine_race/engine_race.cc:358-400 | In every run of writes, kills and recoveries, a bucket's log is exactly the sequence of entries that callers passed to the Writes that finished |
| BucketLog.WriteAppends | engine_race/engine_race.cc:369-400 | A Write called with e on a bucket with room appends exactly e, within six steps of its own |
| BucketLog.RecoveryFinishes | engine_race/engine_race.cc:862-898 | A store that is down can be reopened, with the logs it went down with |
| BucketLog.KillLosesNothing | engine_race/engine_race.cc:369-400 | At every moment of every run the process may be killed, and can then be reopened with exactly the logs of that moment |
| BucketLog.TornAnyhow | engine_race/engine_race.cc:374-395 | Until a copy or pwrite is over its target may hold anything |
| BucketLog.LogStep | engine_race/engine_race.cc:398-399 | A bucket's log changes at its count's increment, by one entry, and at no other step |
| BucketLog.LogOnlyGrows | engine_race/engine_race.cc:358-400 | Over a whole run, through kills and recoveries, the log at one point is the beginning of the log at any later point: nothing counted is taken back |
| BucketLog.ReopenAfterRecovery | engine_race/engine_race.cc:862-898 | Killing and reopening a recovered store changes neither its files nor its counts |
| BucketLog.FlushIdempotent | engine_race/engine_race.cc:820-859 | Re-running a bucket's flush leaves the files as they are |
| BucketLog.PastRegionIsNextBucket | engine_race/engine_race.cc:68-81 | The region bound is exact: one slot further is the first slot of the next bucket |
| BucketLog.EngineLayout | engine_race/engine_race.h:23-42 | The engine's constants meet the divisibility the layout needs, with 1024 buckets of 69632 slots |
| BucketFiles.Bucket.constructor | engine_race/engine_race.cc:130-132 | A new bucket holds an empty log in its buffers and files |
| BucketFiles.Bucket.Write | engine_race/engine_race.cc:369-400 | Within the region, a write appends exactly its entry to the log that buffers, files and count represent |
| BucketFiles.Bucket.StoreValue | engine_race/engine_race.cc:371-383 | The value is stored, and a full buffer flushed, without losing an entry counted before: the state a kill may leave at that point |
| BucketFiles.Bucket.StoreKey | engine_race/engine_race.cc:385-396 | Likewise for the key |
| BucketFiles.Bucket.FlushTmp | engine_race/engine_race.cc:820-859 | Afterwards the buffer files are empty and the key and value files alone hold every counted entry in order |
| BucketFiles.Bucket.FlushVals | engine_race/engine_race.cc:824-838 | The partial value block completes the value file |
| BucketFiles.Bucket.FlushKeys | engine_race/engine_race.cc:839-852 | The whole key buffer completes the key file, inside the bucket's region |
| KeyOrder.SwappedLoadIsBigEndian | engine_race/engine_race.cc:361-361 | The byte-swapped load of a key is the big-endian value of its bytes |
| KeyOrder.StoredSwapIsKey | engine_race/engine_race.cc:792-793 | What a scan writes for the visitor is the key's bytes again |
| KeyOrder.KeyBytesAreBigEndian | engine_race/engine_race.cc:792-793 | Every 64-bit integer is the big-endian value of the eight bytes stored for it |
| KeyOrder.CompareIsBigEndianOrder | include/polar_string.h:76-84 | For keys of one length, `compare` is the order of the big-endian integers, and zero only for equal keys |
| KeyOrder.BucketsFollowKeys | engine_race/engine_race.cc:64-66 | Every key has a bucket and bucket numbers are monotone in the key |
| KeyOrder.BucketFromBytes | engine_race/engine_race.cc:64-66 | A key's bucket is its first byte and the two top bits of its second |
| BucketIndex.BuildIndex | engine_race/engine_race.cc:905-970 | Reading the key region block by block and sorting yields the index of those keys: key ascending, offset descending |
| BucketIndex.AddEntries | engine_race/engine_race.cc:939-959 | Each block read appends its keys with their 16-bit offsets |
| BucketIndex.SortInPlace | engine_race/engine_race.cc:961-967 | The array becomes the sorted arrangement of its entries; it stands in for the library's sort |
| BucketIndex.SortedOnce | engine_race/engine_race.cc:961-967 | Any sequence sorted by the comparator with the same entries is that arrangement, so every sorting algorithm gives this index |
| BucketIndex.BranchfreeSearch | engine_race/engine_race.cc:51-62 | For every n >= 1 the search is the lower bound |
| BucketIndex.LowerBoundIs | engine_race/engine_race.cc:51-62 | The lower bound is the one position with smaller keys before it and no smaller key from it on |
| BucketIndex.Read | engine_race/engine_race.cc:454-490 | Read over the index and the values is the lookup of the specification, not-found included |
| BucketIndex.FoundHasLargestOffset | engine_race/engine_race.cc:47-62 | The entry found for a written key carries the largest stored offset among that key's entries |
| BucketIndex.LookUpIsLatest | engine_race/engine_race.cc:454-490 | For at most 65536 entries a read gives the value of the key's latest write, and not-found exactly when it was never written |
| BucketIndex.OverlongReadsOldValue | engine_race/engine_race.h:69-72 | With more than 65536 entries there is a log for which the wrapped offset makes a read return an old value |
| BucketIndex.ReadsRightIffOffsetsFit | engine_race/engine_race.h:69-72 | Reads are right for all logs of n entries if and only if n <= 65536 |
| RangeScan.ScanBucket | engine_race/engine_race.cc:779-801 | The inner loop visits the first entry of each run of equal keys, with its bytes and value |
| RangeScan.BucketScan | engine_race/engine_race.cc:779-801 | Over a bucket's index that is every distinct key once, ascending, with its latest value |
| RangeScan.PassIsOrderedScan | engine_race/engine_race.cc:753-801 | A pass visits exactly the keys ever written, once each, in strictly increasing byte order, with their latest values |
| Engine.StoredMatchesLog | engine_race/engine_race.cc:905-960 | After reopening, a bucket's key and value regions are its log |
| Engine.ReopenedReadIsLatest | engine_race/engine_race.cc:454-490 | After any run of writes, kills and reopening, a read of a bucket within the offset limit gives the last committed value of the key; for an empty bucket, which the code's search may not be given, the lookup is not-found |
| Engine.WrittenIsRead | engine_race/engine_race.cc:358-491 | After any run, a read of the reopened store gives the value last passed to a finished Write of the key, and not-found exactly when no finished Write passed it |
| Engine.ReopenedStoreCanBeScanned | engine_race/engine_race.cc:753-801 | Such a store meets everything an ordered scan needs |
| RangePipeline.StepInv | engine_race/engine_race.cc:666-715 | Every step of the coordinator, the visitors and the buffer hand-back keeps each buffer in one place: free, with the coordinator, published or cached |
| RangePipeline.EveryBufferInOnePlace | engine_race/engine_race.cc:666-715 | In every reachable state each buffer is in exactly one of the free queue, the coordinator's hands, the visitors' futures and the cache, and there once |
| RangePipeline.VisitorsSeeTheirBucket | engine_race/engine_race.cc:753-801 | In both passes a visitor reads from the buffer that holds its bucket |
| RangePipeline.FilledBufferIsPrivate | engine_race/engine_race.cc:669-704 | A buffer being filled is in no queue and held by no visitor |
| RangePipeline.CachedFrontSurvives | engine_race/engine_race.cc:803-811 | The buffers kept from the first pass hold the front buckets, untouched, until every visitor has had them in the second |
| RangePipeline.NoDeadlock | engine_race/engine_race.cc:666-816 | With at least one buffer that is not kept, no reachable state is stuck before everyone has finished both passes |
| RangePipeline.NothingSkipped | engine_race/engine_race.cc:753-812 | In every run, no visitor gets past a bucket, in either pass, without having visited it |
| RangePipeline.EveryRunFinishes | engine_race/engine_race.cc:666-816 | No run goes on for ever, and one that cannot go on has ended both passes with every visitor having visited every bucket twice |
| RangePipeline.OnlyTheseWait | engine_race/engine_race.cc:754-777 | A visitor waits only at the barrier, for an unpublished bucket, or at the end; the coordinator only on an empty queue, or at the end |
| RangePipeline.Starts | engine_race/engine_race.cc:710-715 | There are runs for every configuration |
| VisitorScan.VisitorReadsBucket | engine_race/engine_race.cc:669-704 | With fills that are completed block-wise bucket reads, a visitor's buffer begins with its bucket's values at every moment of the visit, in both passes |
| VisitorScan.VisitsArePass | engine_race/engine_race.cc:753-801 | In every run, a visitor that has got through a pass visited each bucket, and what the inner loop passed to it is the ordered scan of the store |
| BucketRead.BlockBounds | engine_race/engine_race.cc:505-512 | The blocks are non-empty and cover the bucket without a gap |
| BucketRead.BlocksApart | engine_race/engine_race.cc:505-526 | No two blocks overlap |
| BucketRead.StepInv | engine_race/engine_race.cc:493-533 | Every step of the polling loop and of the workers, and torn reads, keep each submitted block read or with one worker |
| BucketRead.ExitMeansRead | engine_race/engine_race.cc:513-533 | On exit all workers are idle, nothing is queued, and the buffer equals the bucket |
| BucketRead.OneJobPerWorker | engine_race/engine_race.cc:515-531 | A worker never has two jobs, and no block is with two workers |
| BucketRead.BlocksInOrder | engine_race/engine_race.cc:513-533 | Blocks are submitted in order, each exactly once |
| BucketRead.NeverWaitsInVain | engine_race/engine_race.cc:513-533 | Until the loop exits, some worker can act or the next scan finds something to do |
| BucketRead.ReadFinishes | engine_race/engine_race.cc:493-533 | From every point of every run, loop and workers can go on to the exit, with the buffer equal to the bucket |
| BucketRead.TornReads | engine_race/engine_race.cc:587-588 | While a worker reads, its part of the buffer may hold anything |
| BucketRead.Starts | engine_race/engine_race.cc:554-560 | There are runs for every bucket, number of workers and buffer that is large enough |
| Probing.TriApart | engine_race/sparsepp/spp.h:2498-2498 | Jumps of 1, 2, 3, ... never return to a bucket within 2^k probes modulo 2^k |
| Probing.ProbesDiffer | engine_race/sparsepp/spp.h:3048-3048 | The first 2^k probes look at different buckets |
| Probing.ProbesReachAll | engine_race/sparsepp/spp.h:3048-3048 | Every bucket is looked at within 2^k probes |
| Probing.NextProbe | engine_race/sparsepp/spp.h:2823-2823 | One loop iteration goes from one probe to the next |
| SparseHash.FillKeeps | engine_race/sparsepp/spp.h:3160-3172 | Filling the first free bucket of a new key's path adds that key and hides no other |
| SparseHash.EraseKeeps | engine_race/sparsepp/spp.h:3304-3333 | A tombstone removes one key and hides no other |
| SparseHash.OneContents | engine_race/sparsepp/spp.h:3015-3052 | The buckets determine the map they stand for |
| SparseHash.MetBeforeEmpty | engine_race/sparsepp/spp.h:3022-3032 | A stored key is met before any empty bucket |
| SparseHash.ProbesLeft | engine_race/sparsepp/spp.h:3047-3051 | While a bucket is empty, a probe that has met none has buckets left: the loops end |
| SparseHash.SomeEmpty | engine_race/sparsepp/spp.h:2706-2710 | Full and erased buckets never fill the table |
| SparseHash.OneGrowth | engine_race/sparsepp/spp.h:2717-2741 | When a growth is needed, the needed size is above the present one and `resize_to` is never below it, so the early exit and the doubling are never taken |
| SparseHash.MinBuckets | engine_race/sparsepp/spp.h:443-458 | The smallest power of two that is allowed, wanted and not too crowded |
| SparseHash.ShrunkSize | engine_race/sparsepp/spp.h:2672-2678 | The largest smaller size that is not too empty, or the default |
| SparseHash.PlaceNew | engine_race/sparsepp/spp.h:2819-2829 | An entry of the old table lands in an empty bucket of the new one, which then holds that entry besides what it held |
| SparseHash.AllMoved | engine_race/sparsepp/spp.h:2815-2830 | Once every bucket was moved, the new table holds the old contents and no tombstone |
| SparseHash.Hashtable.constructor | engine_race/sparsepp/spp.h:2885-2900 | An empty map |
| SparseHash.Hashtable.FindPosition | engine_race/sparsepp/spp.h:3015-3052 | Full position exactly for stored keys, with their value; otherwise the first free bucket of the probe path |
| SparseHash.Hashtable.FindBucket | engine_race/sparsepp/spp.h:3060-3081 | The key's bucket, or none exactly when the key is absent, whatever was erased before |
| SparseHash.Hashtable.Find | engine_race/sparsepp/spp.h:3058-3082 | The map's value for the key |
| SparseHash.Hashtable.Insert | engine_race/sparsepp/spp.h:3225-3229 | Adds an absent key, leaves a present one, and says which; the map is otherwise unchanged across any rehash |
| SparseHash.Hashtable.FindOrInsert | engine_race/sparsepp/spp.h:3253-3301 | The key's value, with the default inserted where it was absent |
| SparseHash.Hashtable.Erase | engine_race/sparsepp/spp.h:3304-3333 | Removes exactly the key and reports whether it was there |
| SparseHash.Hashtable.ResizeDelta | engine_race/sparsepp/spp.h:2691-2747 | Afterwards `delta` more keys fit under the threshold; unless a shrink was pending, it rehashes exactly when they did not fit before; contents unchanged |
| SparseHash.Hashtable.MaybeShrink | engine_race/sparsepp/spp.h:2655-2685 | Shrinks exactly when the table is too empty and above the default size, to a size that is not; contents unchanged |
| SparseHash.Hashtable.MoveTo | engine_race/sparsepp/spp.h:2791-2832 | A table of the smallest admissible size with the same contents and no tombstones |
| SparseHash.Hashtable.Rehashed | engine_race/sparsepp/spp.h:2802-2830 | The new array holds the same map with the same number of entries and no tombstone |
| SparseGroup.GapIsUpdate | engine_race/sparsepp/spp.h:1426-1437 | Opening a gap at a position's rank and setting its bit changes that cell only |
| SparseGroup.CloseIsUpdate | engine_race/sparsepp/spp.h:1577-1592 | Closing the gap and clearing the bit empties that cell only |
| SparseGroup.Group.constructor | engine_race/sparsepp/spp.h:1216-1221 | All cells vacant |
| SparseGroup.ClearedOne | engine_race/sparsepp/spp.h:1194-1195 | Clearing the lowest of the bits left removes the next one in rank |
| SparseGroup.LowestLeft | engine_race/sparsepp/spp.h:1197-1202 | When k bits are cleared, the lowest left is the full cell of rank k |
| SparseGroup.Group.Test | engine_race/sparsepp/spp.h:1455-1458 | Whether the cell is full |
| SparseGroup.Group.TestStrict | engine_race/sparsepp/spp.h:1462-1465 | Whether the cell is full or a tombstone |
| SparseTable.GroupOfBucket | engine_race/sparsepp/spp.h:1885-1900 | Every bucket has its group, and different buckets differ in group or position |
| SparseTable.FlattenUpdate | engine_race/sparsepp/spp.h:1892-1910 | Changing bucket i's cell in its group changes bucket i of the flat array, and nothing else |
| SparseTable.SlotsUpdate | engine_race/sparsepp/spp.h:2236-2263 | Storing and erasing in the flat array are the two bucket updates of the hash table, with the same number of full buckets |
| SparseTable.Table.constructor | engine_race/sparsepp/spp.h:1985-1994 | A flat array of vacant buckets |
| SparseTable.Table.Test | engine_race/sparsepp/spp.h:2125-2129 | Whether bucket i is full |
| SparseTable.Table.TestStrict | engine_race/sparsepp/spp.h:2133-2137 | Whether bucket i is full or a tombstone |
| SparseTable.Table.UnsafeGet | engine_race/sparsepp/spp.h:2183-2188 | The value of full bucket i |
| SparseTable.Table.Set | engine_race/sparsepp/spp.h:2236-2243 | Stores in bucket i, in the group and position of its number, leaves all other buckets alone and keeps the count of full ones |
| SparseTable.Table.Erase | engine_race/sparsepp/spp.h:2256-2264 | Leaves a tombstone in full bucket i, and all other buckets alone |
| SparseGroup.Group.Get | engine_race/sparsepp/spp.h:1288-1292 | The value of a full cell is found at its rank |
| SparseGroup.Group.PosToOffset | engine_race/sparsepp/spp.h:1166-1179 | The offset is the number of full cells before the position |
| SparseGroup.Group.OffsetToPos | engine_race/sparsepp/spp.h:1192-1212 | The inverse of the rank on full cells |
| SparseGroup.Group.Set | engine_race/sparsepp/spp.h:1444-1451 | Stores the value in its cell and leaves all others, whatever was there |
| SparseGroup.Group.Erase | engine_race/sparsepp/spp.h:1577-1592 | Leaves a tombstone in a full cell, and changes nothing otherwise |
| SparseGroup.Group.OpenGap | engine_race/sparsepp/spp.h:1369-1387 | The elements from the offset on move up one place |
| SparseGroup.Group.CloseGap | engine_race/sparsepp/spp.h:1502-1537 | The elements above the offset move down one place |
| SkipList.PredsNest | playground/skip_list_study.cpp:215-226 | No node of a level lies between that level's predecessor and the bottom one |
| SkipList.InsertLinked | playground/skip_list_study.cpp:162-166 | Splicing a node in after its predecessors gives the lists of the longer order on every level |
| SkipList.EraseLinked | playground/skip_list_study.cpp:179-182 | Splicing a node out gives the lists of the shorter order on every level |
| SkipList.InsertGood | playground/skip_list_study.cpp:147-167 | Whatever level is drawn, insertion keeps every level strictly sorted, a sublist of the level below and ending at NIL |
| SkipList.EraseGood | playground/skip_list_study.cpp:170-184 | Erasure keeps that too |
| SkipList.InsertEffect | playground/skip_list_study.cpp:147-167 | Insertion of an absent key gives a list that represents the map with that key added |
| SkipList.EraseEffect | playground/skip_list_study.cpp:170-184 | Erasure gives a list that represents the map without that key |
| SkipList.FoundOrAbsent | playground/skip_list_study.cpp:117-125 | The node after the bottom predecessor has the key exactly when the map has it, and is then not NIL, even for NIL's own key |
| SkipList.Node.constructor | playground/skip_list_study.cpp:55-64 | A node with its key, value and as many null links as levels |
| SkipList.List.constructor | playground/skip_list_study.cpp:95-105 | An empty map between the two sentinels |
| SkipList.List.Predecessors | playground/skip_list_study.cpp:215-226 | On every level the last node whose key is below the searched one, or the head |
| SkipList.List.Advance | playground/skip_list_study.cpp:220-222 | The walk along one level stops at that level's predecessor |
| SkipList.List.Find | playground/skip_list_study.cpp:117-125 | The map's value for any int, the sentinels' keys included |
| SkipList.List.Insert | playground/skip_list_study.cpp:147-167 | The map with the key set to the value; a new key gets a node on exactly the drawn number of levels, an old one keeps its own; only list nodes and fresh ones are touched |
| SkipList.List.Erase | playground/skip_list_study.cpp:170-184 | The map without the key, and the levels without its node |
| TreeBins.BinHolds | engine_race/sparsepp/spp_dlalloc.h:1349-1379 | A size whose shifted value is not truncated is in the range of its bin |
| TreeBins.IndexRange | engine_race/sparsepp/spp_dlalloc.h:1349-1379 | Below 2^40 every size goes to the bin whose range it is in: minsize(i) <= s < minsize(i+1) |
| TreeBins.IndexMonotone | engine_race/sparsepp/spp_dlalloc.h:1349-1364 | Below 2^40 larger sizes never go to lower bins |
| TreeBins.IndexRightIff | engine_race/sparsepp/spp_dlalloc.h:1349-1364 | On all 64-bit sizes the index is the untruncated one if and only if the size is below 2^40 or its truncated shift still exceeds every other bin |
| TreeBins.InsertTrie | engine_race/sparsepp/spp_dlalloc.h:2112-2170 | Insertion keeps the bitwise trie, equal sizes on one ring, and adds exactly the chunk |
| TreeBins.UnlinkTrie | engine_race/sparsepp/spp_dlalloc.h:2189-2269 | Unlinking, with the replacement by the rightmost leaf, keeps the trie and removes exactly the chunk |
| TreeBins.TopBit | engine_race/sparsepp/spp_dlalloc.h:2129-2135 | The top bit of the shifted size is the bit that picks the child |
| TreeBins.BetterFit | engine_race/sparsepp/spp_dlalloc.h:2876-2882 | The one comparison of wrapped remainders says whether a chunk fits and fits better |
| TreeBins.SearchBits | engine_race/sparsepp/spp_dlalloc.h:2867-2894 | After the walk along the size's bits, the best chunk is the one in hand or in the remaining subtree |
| TreeBins.LeastIn | engine_race/sparsepp/spp_dlalloc.h:2907-2917 | The leftmost path of what remains ends with a smallest chunk that fits |
| TreeBins.FindLarge | engine_race/sparsepp/spp_dlalloc.h:2862-2917 | The candidate is a smallest tree chunk of at least nb over all bins, or none exactly when there is none |
| TreeBins.FindHigher | engine_race/sparsepp/spp_dlalloc.h:2895-2917 | With no fit in the size's own bin, the next non-empty bin has the best fit |
| TreeBins.LeastOfBin | engine_race/sparsepp/spp_dlalloc.h:2907-2917 | The smallest chunk of a bin whose chunks all fit |
| TreeBins.FindSmall | engine_race/sparsepp/spp_dlalloc.h:2947-2964 | A smallest chunk of all bins |
| TreeBins.NextBin | engine_race/sparsepp/spp_dlalloc.h:2898-2904 | The first non-empty bin from a given one on |
| TreeBins.InsertLargeOk | engine_race/sparsepp/spp_dlalloc.h:2112-2170 | Over all bins, insert_large_chunk keeps the bins and adds exactly the chunk |
| TreeBins.UnlinkLargeOk | engine_race/sparsepp/spp_dlalloc.h:2189-2269 | Over all bins, unlink_large_chunk keeps the bins and removes exactly the chunk |
| Allocator.ChunkFor | engine_race/sparsepp/spp_dlalloc.h:782-791 | The least chunk size that is aligned, at least minimal and holds the request and its header |
| Allocator.MergedTags | engine_race/sparsepp/spp_dlalloc.h:3178-3199 | Writing one free chunk over a run of chunks in front of a used one leaves all tags agreeing |
| Allocator.MergedLaid | engine_race/sparsepp/spp_dlalloc.h:3118-3222 | The run becomes one free chunk: used and free chunks change by exactly the run's |
| Allocator.SplitTags | engine_race/sparsepp/spp_dlalloc.h:2934-2936 | A split chunk's two heads and its foot agree with all neighbours |
| Allocator.SplitLaid | engine_race/sparsepp/spp_dlalloc.h:2934-2936 | A split adds the used part, leaves the rest free, and keeps the tiling |
| Allocator.TakenTags | engine_race/sparsepp/spp_dlalloc.h:1448-1453 | Taking a free chunk whole leaves all tags agreeing |
| Allocator.TopTags | engine_race/sparsepp/spp_dlalloc.h:3164-3168 | Chunks that join the top leave the rest tiled and tagged |
| Allocator.ExtendTags | engine_race/sparsepp/spp_dlalloc.h:3096-3100 | Cutting from the bottom of the top keeps tiling, tags and separation |
| Allocator.MergedChunks | engine_race/sparsepp/spp_dlalloc.h:3118-3222 | The set of chunks changes by exactly the merged run |
| Allocator.Heap.constructor | engine_race/sparsepp/spp_dlalloc.h:2386-2411 | A heap that is all top |
| Allocator.Heap.Malloc | engine_race/sparsepp/spp_dlalloc.h:2991-3114 | With nb the least chunk size that serves the request: hands out a chunk of nb bytes, or less than a minimal chunk more, that was in no use before, cut from a best fit over all free chunks, from the victim for a small request without an exact fit, or from the top when nothing free fits; fails exactly when neither a free chunk nor the top can serve nb |
| Allocator.Heap.MallocRest | engine_race/sparsepp/spp_dlalloc.h:3069-3111 | When bins and trees do not serve: the victim, else the top, else failure |
| Allocator.Heap.MallocSmall | engine_race/sparsepp/spp_dlalloc.h:2996-3053 | The small path: a best fit, or nothing taken with the victim left to serve |
| Allocator.Heap.MallocBinned | engine_race/sparsepp/spp_dlalloc.h:3020-3053 | With too small a victim: a best fit of small bins and trees, or none exactly when nothing free fits |
| Allocator.Heap.FromExact | engine_race/sparsepp/spp_dlalloc.h:3006-3018 | The request's own bin serves it without a remainder |
| Allocator.Heap.FromSmall | engine_race/sparsepp/spp_dlalloc.h:3020-3048 | The next non-empty small bin serves it with a best fit |
| Allocator.Heap.FromTrees | engine_race/sparsepp/spp_dlalloc.h:2947-2987 | tmalloc_small serves it with a best fit, or nothing free fits |
| Allocator.Heap.MallocLarge | engine_race/sparsepp/spp_dlalloc.h:2862-2944 | tmalloc_large serves it with a best fit over all free chunks, or leaves it to a victim that fits better |
| Allocator.Heap.UseForSmall | engine_race/sparsepp/spp_dlalloc.h:2966-2982 | The chunk goes into use whole, or split with the rest becoming the victim |
| Allocator.Heap.UseForLarge | engine_race/sparsepp/spp_dlalloc.h:2922-2939 | The chunk goes into use whole, or split with the rest back in a bin |
| Allocator.Heap.UseDv | engine_race/sparsepp/spp_dlalloc.h:3069-3091 | The victim serves, and keeps the rest unless that is too small to be a chunk |
| Allocator.Heap.UseTop | engine_race/sparsepp/spp_dlalloc.h:3093-3105 | The bottom of the top serves |
| Allocator.Heap.InsertChunk | engine_race/sparsepp/spp_dlalloc.h:2273-2282 | A free chunk in hand goes to exactly one bin |
| Allocator.Heap.UnlinkChunk | engine_race/sparsepp/spp_dlalloc.h:2284-2293 | A binned chunk comes out of its bin |
| Allocator.Heap.ReplaceDv | engine_race/sparsepp/spp_dlalloc.h:2096-2107 | The chunk in hand becomes the victim, the old victim goes to its small bin |
| Allocator.Heap.TakeWhole | engine_race/sparsepp/spp_dlalloc.h:1448-1453 | A free chunk in hand goes into use |
| Allocator.Heap.SplitFrom | engine_race/sparsepp/spp_dlalloc.h:2934-2936 | The first part goes into use, the rest is in hand |
| Allocator.Heap.Free | engine_race/sparsepp/spp_dlalloc.h:3118-3222 | Keeps the invariant and removes exactly the freed chunk from those in use, whatever its neighbours are |
| Allocator.Heap.FreeBack | engine_race/sparsepp/spp_dlalloc.h:3127-3157 | A free chunk before it, binned or the victim, joins it first |
| Allocator.Heap.FreeForward | engine_race/sparsepp/spp_dlalloc.h:3159-3214 | What follows decides: used, free in a bin, the victim or the top |
| Allocator.Heap.FinishBin | engine_race/sparsepp/spp_dlalloc.h:3185-3213 | The merged chunk goes to a bin |
| Allocator.Heap.FinishDv | engine_race/sparsepp/spp_dlalloc.h:3178-3196 | The merged chunk becomes the victim |
| Allocator.Heap.FinishTop | engine_race/sparsepp/spp_dlalloc.h:3163-3177 | The merged chunk joins the top, the victim being given up when it is part of it |
| Allocator.Heap.WriteFree | engine_race/sparsepp/spp_dlalloc.h:3185-3199 | One free chunk replaces the run, in heads, foot and the next chunk's flag |
| Allocator.Heap.NoOverlap | engine_race/sparsepp/spp_dlalloc.h:1950-1984 | Chunks never overlap and stay between the base and the top |
| Allocator.Heap.OnePlace | engine_race/sparsepp/spp_dlalloc.h:1950-1984 | Every free chunk is in exactly one of a small bin, a tree and the victim |
| Allocator.Heap.FreeApart | engine_race/sparsepp/spp_dlalloc.h:1950-1984 | No two free chunks touch, and none touches the top |
| Allocator.Heap.AllBytes | engine_race/sparsepp/spp_dlalloc.h:1950-1984 | Chunks and top add up to the segment |

## Left out

Deliberately weaker than, or narrower than, the code:

- OptimisticDequeue.HeadNeverPassesTail: up to the exact bound on ticket units; what a longer run may do in the worst case is BeyondLimit's.
- OptimisticDequeue.SoloConsumer: the empty test only promises something to a consumer that runs alone; with others in flight it may turn one away early.
- BlockIndex.LookupIsRight: the null a freshly allocated index entry may hold until it is filled is a missing value, and blocks at most half the word range apart are indexed at a time, as the queue's own limit has it.
- ProducerHash.SameProducerIffSameThread: allocation succeeds and the thread-exit hooks are compiled out, so slots are never given back.
- ReaderTokens.CompletesIffMultiple: about states where nobody can move; that a run gets there needs a fair scheduler.
- BucketRead.ReadFinishes: the loop polls, so it ends in every run in which the workers get their turn; the lemma gives one way to end, not a schedule.
- RangePipeline.EveryRunFinishes: the barrier after the last bucket of a pass is folded into the next bucket's start, and a third pass is not modelled.
- BucketFiles.Bucket.Write: demands room in the region, which the source leaves to its caller.
- BucketIndex.SortInPlace: the library's algorithm is not modelled; by SortedOnce its result is.
- BucketIndex.BranchfreeSearch: does not model the prefetch hints.
- Engine.ReopenedReadIsLatest: also covers a bucket without entries, where the code's search reads the first entry of an empty index; what that read finds is not modelled.
- SparseHash.Hashtable.ResizeDelta: the float load factors are their default integer percentages, and the overflow exception is not modelled.
- SparseGroup.Group.Set: the bit words are sequences of bits and the buffer has full capacity, so growing it is not modelled.
- SparseGroup.Group.OffsetToPos: clears and finds the lowest set bit as operations on sequences; the arithmetic on words that does it is not modelled.
- ProducerHash.SoloCall: while another thread holds the resize lock, a caller whose table is three quarters full waits for it, as the code does.
- SparseTable.Table.Set: the number of groups is fixed; a resize of the hash table builds a new table.
- TreeBins.InsertTrie: tries are values, without parent pointers; the order on a ring is that of insertion.
- TreeBins.FindLarge: for sizes below 2^40, where the bin index is right.
- Allocator.Heap.Malloc: one segment below 2^40; asking the system for more memory is a failure here.
- Allocator.Heap.Free: on a chunk in use; the abort on a corrupted address is not modelled.
- SkipList.List.Insert: the random level is a parameter; nodes are not deallocated.

Not modelled at all:

- Memory orders weaker than sequential consistency, fences, exceptions in element constructors, move and swap of queues and tokens, roll-back in `enqueue_bulk`, thread-exit hooks.
- Allocation failure, logging, timing, statistics, affinity, and the thread pool that is no longer used.
- System calls, mmap and O_DIRECT: a file is a sequence of slots, a kill keeps what was written, and a write in progress may be torn.
- Crashes inside the constructor, writes after reopening, and a third Range pass: the code does not support them.
- The lower and upper arguments of Range: the code ignores them and scans everything (engine_race/engine_race.cc:751-752).
- `dispose_chunk`: the same merging as `_free`, in the same branches, for a chunk in use.
- Allocator trimming, several segments, directly mapped chunks, memalign, independent and bulk allocation.
- sparsepp iterators, traits, growth of group buffers, serialization.
- engine_example/: a linear-probing table without deletion and an append-only store, both simpler than the ones here.

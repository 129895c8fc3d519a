# A verified model of umap

umap maps files and other stores into an application's address space with page faults handled in
user space. This project models, in Dafny 4.11, the three parts of the repository whose correctness
depends on more than one function, and proves what they promise. `dafny verify dfyconfig.toml`
checks everything.

**The page cache.** `PageBuffer` gives the operations that happen under the buffer lock as functions
on a value; `BufferClass.Buffer` implements them in place, with its lists, index and descriptor array.
`UmapProtocol` is a step relation over the application, the fault handler, any number of fill workers
and evict workers, the evict manager, a flushing thread and an unmapping thread. One step is one
section of code under the lock, or one kernel or store call made outside it; a wait is the guard of
the step after it. `logical` is the application's view, and `mem` and `store` are the mapped pages and
the store. `ProtocolInvariant` couples descriptor states, the dirty, data-present and deferred flags,
write protection, memory, store and outstanding work; `ProtocolSteps` shows that every step keeps it;
`ProtocolRuns` draws the conclusions. `FlushCondition` and `DrainCondition` with `DrainFailure` give the
exact conditions under which a flush and a drain leave nothing behind, said of the moment at which they
begin. `Writability` says when a page can be written and that a write fault leads there, `EntryOrder` that the
deque is in order of time, `Watermarks` when the evict manager is called and goes on. `OldestWait`
splits the taking of the oldest page, `LifeCycle` follows the descriptor states,
`BufferRefinement` ties the object to the steps, `Wakeup` adds the two condition variables,
`WorkQueues` and `WorkerPool` are the queue and the pools, `EvictPool` puts the pool of evict workers
beside the protocol, `Regions` is the region table, and `FaultBatch` the treatment of a batch of fault
events.

**The graph pipeline.** `Csr` and `Ingest` build the adjacency structure by counting; `Distances`
defines shortest distances with no algorithm in sight; `Bfs` is the level-synchronous search with its
16-bit levels and its packed visited filter (`Bitmap`); `BfsRace` is the same search as its parallel
loop does it, with every shared access a step of its own, and `BfsRaceProgress` shows that it ends;
`Pipeline` goes from edge list to levels. `Bits` and `Hash` are the vertex scrambler as arithmetic on numbers;
`WordAlgebra` and `Words` say how machine words stand for numbers, `NativeHash` is the scrambler as the
source writes it on words, and `HashValues` computes some of its values. `Rmat` and `EdgeShares` are the
generator.

**The sparse store.** `StoreLayout` is the arithmetic and `DoubleSizes` says when double precision
agrees with it, `SparseStores` is the effect of one call, `SparseStoreClass` the object over a
directory, `SparseStoreRuns` whole histories of the specification, `SparseStoreReplay` whole histories
of the object, and `FileOpening` the double-checked locking. `CacheOverStore` puts the store under the
page cache: every load and write-back of a region's page is a call of the store.

## Conditions

These are part of the statements below.

- The fault handler is one thread. Prefetching (src/umap/RegionManager.cpp:110-115) is a second caller
  of the same code and is not modelled.
- The application neither accesses nor faults on a region while it is being unmapped; one region is
  unmapped at a time, and no region is mapped and no flush starts while it is.
- A flush starts when the dirty pages of the busy deque are all PRESENT, so its wait never gives up the
  lock. While it holds the lock, an eviction that has to mark its page free cannot finish; the claim is
  about flushes that do return.
- `evict_oldest_page` pops the end of the deque after a wait, whatever is there by then. In the
  protocol it is one guarded step; `OldestWait` says exactly when the two agree.
- The evict manager tests the low-water mark without the lock (src/umap/EvictManager.cpp:26) and takes
  its batch under it. The two are one step here. Between them a fault can only lengthen the deque, and
  while the last region is drained only that thread and the manager shorten it.
- The index of the batch scan (src/umap/Buffer.cpp:138-139) is unsigned, so its test for being
  non-negative never fails. The protocol takes the test over the integers; `LiteralScanCondition` says
  exactly when the loop as written stays inside the deque.
- The evict manager holds a batch between src/umap/EvictManager.cpp:39 and :45. What that means for a
  flush and for draining the buffer is stated exactly, at the moment the flush or the unmap begins, in
  `FlushExact` and `DrainExact`. The code's `EvictAll` returns as soon as the deque is empty and the
  workers are idle; when the manager still holds pages at that point the model does not go on to the
  removal of the region, which would free what those pages refer to.
- The two watermarks and the buffer size are parameters. Page sizes are powers of two, regions and
  page addresses are aligned, and store calls transfer whole pages.
- In `CacheOverStore` the store is open for writing while its region is mapped, is at least as large as
  the region, and is written through the cache only.
- `UFFDIO_COPY` fails on a mapped page, write protection can be set only on a mapped page, and
  `MADV_DONTNEED` unmaps it; a rejected call would set `kfailed`. A fast eviction leaves its page
  mapped, since the region goes away.
- The condition of the fault test `flags & (WP | WRITE) != 0` (src/umap/Uffd.cpp:115) groups as
  `flags & ((WP | WRITE) != 0)`, which looks at the WRITE bit alone. `ProcessBatch` says exactly
  for which batches this gives the intended answer.
- The 16-bit level wraps. `RunBfs` says exactly for which graphs the levels are right.

## Model

| member | source | states |
|---|---|---|
| `ProtocolSteps.StepKeeps` | src/umap/Buffer.cpp:23-207 | every step of every actor keeps the invariant that couples descriptors, indexes, work items, protection, memory and store |
| `ProtocolRuns.RunKeeps` | src/umap/Buffer.cpp:355-475 | every state of every run satisfies the invariant |
| `ProtocolRuns.LogicalIsFlat` | src/umap/FillWorkers.cpp:46-64 | the application's view after any run is that of a machine without a buffer, on which faults, fills, evictions, flushes and unmaps have no effect |
| `ProtocolRuns.Transparency` | src/umap/EvictWorkers.cpp:33-55 | over every interleaving a mapped page holds the flat memory's contents, and the store copy of an unmapped page does |
| `ProtocolRuns.FlatIsLastWrite` | src/umap/Buffer.cpp:355-413 | the flat memory holds, for each page, what the last write to it wrote |
| `ProtocolRuns.FlatIsMapped` | src/umap/RegionManager.cpp:37-61 | or, since its region was mapped, what the region's store then held |
| `ProtocolRuns.ReadsLastWrite` | src/umap/FillWorkers.cpp:45-64 | so a mapped page holds what the application wrote to it last, and the store copy of an unmapped page does, whatever happened in between |
| `ProtocolRuns.CleanPagesAreProtected` | src/umap/FillWorkers.cpp:46-62 | a writable mapped page is marked dirty, a clean mapped page equals its store copy, and a FILLING descriptor has a mapped page iff its data has arrived |
| `Writability.WritableIffDirty` | src/umap/FillWorkers.cpp:46-62 | in every state of every run a PRESENT page is mapped, and it can be written iff it is dirty and no flush is between protecting it and clearing its dirty flag |
| `Writability.SpuriousCanWrite` | src/umap/Buffer.cpp:370-382 | a write fault that is left alone was on a page that can be written |
| `Writability.UpgradeReachesWrite` | src/umap/Buffer.cpp:364-368 | from every reachable clean PRESENT page of an open region, with the lock free, the write fault and its fill item lead to a state in which the page can be written |
| `Writability.NewPageReachesWrite` | src/umap/Buffer.cpp:384-396 | the same for a page that is not in the buffer |
| `Writability.DirtyNeedsWriteFault` | src/umap/Buffer.cpp:364-393 | in every run a dirty page has had a write fault |
| `ProtocolRuns.NoFailures` | src/umap/PageDescriptor.cpp:25-53 | no run attempts a rejected state transition or a kernel call the kernel rejects |
| `ProtocolRuns.ExactlyOneOwner` | src/umap/Buffer.cpp:355-413 | one fill item per FILLING or UPDATING descriptor, exactly one owner or evict item per LEAVING one, none for the others but a flush |
| `ProtocolRuns.Conservation` | src/umap/Buffer.cpp:38-122 | free list, busy deque and pages in flight are disjoint and their sizes always add up to the buffer size |
| `ProtocolRuns.PresentIsIndex` | src/umap/Buffer.cpp:446-475 | the present map is injective and indexes exactly the descriptors that are not FREE |
| `ProtocolRuns.EvictionIsTriggered` | src/umap/Buffer.cpp:398-409 | at or above the high-water mark a THRESHOLD item is queued or the manager is in its loop; an empty free list with nothing in flight never meets a dormant manager |
| `Watermarks.NewPageCalls` | src/umap/Buffer.cpp:403-409 | a fault that enters a page calls the manager iff the deque then has exactly the high-water number of descriptors |
| `Watermarks.ManagerGoesOn` | src/umap/EvictManager.cpp:26-48 | a manager at work sends what it holds, then takes batches while more than the low-water number is busy, and rests exactly when it is not |
| `FlushCondition.FlushExact` | src/umap/Buffer.cpp:163-180 | for a flush that returns, said of the step that takes the lock: every page then dirty in the deque ends clean, protected and equal to the flat memory; the whole buffer ends clean iff the evict manager then holds no dirty page, and in that case the store equals the flat memory |
| `FlushCondition.NothingInFlight` | src/umap/EvictWorkers.cpp:46-55 | a flush that returns began with no eviction in flight, since an eviction cannot finish while the lock is held |
| `ProtocolRuns.UnmapDurability` | src/umap/Buffer.cpp:188-203 | when the per-page loop ends no page of the region is in the buffer and the store holds the flat memory's contents on the whole region |
| `DrainCondition.SafeDrainIsDurable` | src/umap/EvictManager.cpp:58-76 | if the last region's unmap begins in a state that is not at risk, then whenever the loop and the wait are over the present map is empty, all descriptors are free and the store equals the flat memory |
| `DrainFailure.DrainExact` | src/umap/EvictManager.cpp:58-76 | some continuation of the drain ends with pages still present iff the unmap begins at risk: the evict manager holds pages, or it is at work or called while more than the low-water number of descriptors is busy and one of them has a page |
| `ProtocolExample.DrainCanMissAHeldPage` | src/umap/EvictManager.cpp:26-46 | a concrete run in which draining is over while the last write is only in a page the manager holds |
| `ProtocolExample.FlushCanMissAHeldPage` | src/umap/EvictManager.cpp:39-46 | a concrete run in which a flush returns while the last write is only in a page the manager holds |
| `LifeCycle.LifeCycleIsGuarded` | src/umap/PageDescriptor.cpp:25-53 | in every run every change of a descriptor's state is one of the guarded transitions, the unguarded write of the batch eviction included |
| `BufferRefinement.PresentIsStep` | src/umap/Buffer.cpp:23-33 | marking a filled page present is the last step of its fill, never fails and changes nothing else in the buffer |
| `BufferClass.Buffer.MarkPageAsFree` | src/umap/Buffer.cpp:38-73 | erases both indexes, frees the descriptor, returns it to the free list unless deferred |
| `BufferClass.Buffer.GetPageDescriptor` | src/umap/Buffer.cpp:446-475 | takes the last free descriptor and makes it the newest busy page |
| `BufferClass.Buffer.ProcessPageEvent` | src/umap/Buffer.cpp:355-444 | new page, upgrade, spurious fault or wait, with the kick at the high-water mark |
| `BufferClass.Buffer.EvictOldestPage` | src/umap/Buffer.cpp:79-122 | releases flushed deferred descriptors, then takes the oldest page or says what it waits for |
| `BufferClass.Buffer.EvictOldestBatch` | src/umap/Buffer.cpp:128-161 | the two loops compute the batch eviction of the protocol |
| `BufferClass.Buffer.DirtyBusyPages` | src/umap/Buffer.cpp:163-176 | lists the dirty pages of the deque, newest first |
| `BufferRefinement.DirtyPagesMembers` | src/umap/Buffer.cpp:167-169 | the listing holds exactly the dirty pages of the deque |
| `BufferRefinement.FlushItemsAreDirtyPages` | src/umap/Buffer.cpp:167-175 | the protocol's scan creates one FLUSH item per listed page, in that order, and no other |
| `BufferClass.Buffer.ManagerPass` | src/umap/EvictManager.cpp:26-46 | one pass of the manager's loop stops at the low-water mark with nothing changed, or takes a batch |
| `BatchEviction.BatchTakesOldest` | src/umap/Buffer.cpp:128-161 | the batch is exactly the up-to-32 oldest PRESENT pages that are not deferred, oldest first; the unscanned part stays and the skipped pages go behind it oldest first |
| `BatchEviction.BatchSize` | src/umap/Buffer.cpp:132-139 | a batch takes every candidate when there are at most 32, and 32 otherwise |
| `EntryOrder.DequeIsInOrder` | src/umap/Buffer.cpp:472 | over every run whose batches have each skipped at most one page, the deque lists the descriptors from the last to enter to the first |
| `EntryOrder.BatchKeepsOrder` | src/umap/Buffer.cpp:138-156 | a batch keeps that order iff it skips at most one page, since what it skips goes back reversed |
| `EntryOrder.BatchIsOldestInTime` | src/umap/Buffer.cpp:136-150 | then whatever a batch takes entered before every page that may go and that it leaves |
| `EntryOrder.OldestIsFirst` | src/umap/Buffer.cpp:86-113 | and the draining thread takes the page that entered first |
| `BatchEviction.BatchConserves` | src/umap/Buffer.cpp:140-156 | as multisets, the busy pages before are the busy pages after and the evicted ones |
| `BatchEviction.LiteralScanCondition` | src/umap/Buffer.cpp:136-151 | with its unsigned index the scan stays inside a non-empty deque iff at least 32 pages may be evicted |
| `BatchEviction.LiteralScanCanOverrun` | src/umap/Buffer.cpp:139-140 | one resident page makes it leave the deque |
| `BufferRefinement.IndexesInRange` | src/umap/Buffer.cpp:446-475 | in every state with the list and index invariants, the object's own validity condition holds |
| `BufferRefinement.ResidentFaultIsStep` | src/umap/Buffer.cpp:360-383 | for a page in the buffer the method's outcome is the protocol's step, and it waits iff no step is enabled |
| `BufferRefinement.MissingFaultIsStep` | src/umap/Buffer.cpp:384-412 | the same for a page that is not in the buffer |
| `BufferRefinement.FreedIsReusedFirst` | src/umap/Buffer.cpp:461-462 | the descriptor freed last is the first to be used again |
| `BufferRefinement.OldestIsSteps` | src/umap/Buffer.cpp:85-118 | taking the oldest page is a number of release steps and one eviction step, or a wait with neither enabled |
| `OldestWait.PopIsEviction` | src/umap/Buffer.cpp:112-115 | popping after the wait is the eviction of the page waited for iff that page is still at the back |
| `OldestWait.BackStays` | src/umap/Buffer.cpp:86-113 | while the draining thread waits, no step but a batch moves the back of the deque |
| `OldestWait.BatchMovesBack` | src/umap/Buffer.cpp:136-156 | a batch leaves the page at the back iff it is the only one it scanned and did not take |
| `OldestWait.PopCanTakeAnother` | src/umap/Buffer.cpp:153-156 | two pages under fill that a batch swaps |
| `Wakeup.QuietStep` | src/umap/Buffer.cpp:23-73 | only the broadcasting sections make a waited-for condition true |
| `Wakeup.NoLostWakeup` | src/umap/Buffer.cpp:416-457 | in every run of protocol steps, sleeps, spurious wakeups and resumptions, a sleeper that has not been signalled waits for something false, and the counter that guards its broadcast is not zero |
| `Wakeup.StateCounterCanOverCount` | src/umap/Buffer.cpp:448-457 | waiting for a free descriptor leaves the state counter one too high |
| `WorkQueues.WorkQueue.Dequeue` | src/umap/WorkQueue.hpp:47-66 | one pass through the critical section takes the front item or waits, with the counters and the idle signal |
| `WorkQueues.WorkQueue.WaitForIdle` | src/umap/WorkQueue.hpp:68-77 | returns iff the queue is empty and all workers wait |
| `WorkerPool.IdleMeansDone` | src/umap/WorkQueue.hpp:68-77 | in every run, when the wait for idle returns every item ever enqueued has been delivered and fully processed |
| `WorkerPool.DeliveryIsFifo` | src/umap/WorkQueue.hpp:59-65 | items are handed out in order, each to exactly one worker |
| `WorkerPool.TurnExact` | src/umap/WorkQueue.hpp:50-57 | a turn that leaves the pool idle leaves no waiter asleep iff at most one slept before it |
| `WorkerPool.IdleSignalNotLost` | src/umap/WorkQueue.hpp:50-57 | while at most one idle waiter sleeps at a time, a sleeping waiter means the pool is not idle |
| `EvictPool.IdleReturnEmptiesTable` | src/umap/EvictManager.cpp:51-56 | with the evict workers as a pool beside the protocol, when the wait for idle returns the protocol's table of evict items is empty |
| `WorkerPool.TwoWaitersCanLoseIt` | src/umap/WorkQueue.hpp:53-54 | a run with two waiters in which one sleeps on although the pool is idle |
| `WorkerPool.WorkSignalNotLost` | src/umap/WorkQueue.hpp:40-57 | while a worker sleeps, at least as many workers are awake in the queue as items are waiting |
| `WorkerPool.ExitStopsAll` | src/umap/WorkerPool.hpp:89-110 | once one EXIT per worker has been sent, all workers are gone iff everything up to the last of them has been taken, and then it is all processed |
| `Regions.RegionManager.AddRegion` | src/umap/RegionManager.cpp:37-61 | adds exactly the region, keeps the order, forgets the remembered hit |
| `Regions.RegionManager.RemoveRegion` | src/umap/RegionManager.cpp:63-91 | removes exactly the region that starts there, or reports an error and changes nothing; the engine is up iff a region is left |
| `Regions.RegionManager.ContainingRegion` | src/umap/RegionManager.cpp:261-300 | the answer is a region iff it is in the table and the address is at least its start and below its start plus its size, and none iff there is no such region, whatever is remembered |
| `Regions.ScanOrder` | src/umap/RegionManager.cpp:279-291 | for regions that do not overlap the scan's answer does not depend on their order |
| `Regions.Replay` | src/umap/RegionManager.cpp:37-300 | over any history each lookup answers the region that was added and not removed since and within whose bounds the address lies, and none iff there is none |
| `Regions.ApartMeaning` | src/umap/RegionManager.cpp:37-61 | the condition on the added region says that no address is in two regions |
| `FaultBatch.MaskIsAlign` | src/umap/Uffd.cpp:103 | on 64 bits and for a page size that is a power of two, the mask gives the start of the page |
| `FaultBatch.AlignEvents` | src/umap/Uffd.cpp:102-103 | the masking loop rounds every event address down to its page, in place |
| `FaultBatch.AlignMeaning` | src/umap/Uffd.cpp:103 | the rounded address is the start of the page that holds the original one |
| `FaultBatch.ProcessBatch` | src/umap/Uffd.cpp:102-131 | from the mask to the calls: each touched page other than page zero is processed once, ascending; as a write exactly when it is one, iff a WP report of the page comes with a report that has both bits |
| `FaultBatch.WpAloneIsMissed` | src/umap/Uffd.cpp:115 | a batch of one event with the WP bit alone makes exactly one call, as a read |
| `Csr.OffsetTotal` | examples/bfs/rmat_graph_generator/ingest_edge_list.cpp:94-100 | the slices have exactly as many slots as there are edges |
| `Csr.SlotsAreDistinct` | examples/bfs/rmat_graph_generator/ingest_edge_list.cpp:124-132 | in any processing order no slot is written twice |
| `Csr.EverySlotIsWritten` | examples/bfs/rmat_graph_generator/ingest_edge_list.cpp:124-132 | in any processing order every slot is written |
| `Csr.TargetsOrder` | examples/bfs/rmat_graph_generator/ingest_edge_list.cpp:110-133 | the targets that leave a vertex, as a multiset, do not depend on the order of the edges |
| `Csr.TargetsCount` | examples/bfs/rmat_graph_generator/ingest_edge_list.cpp:110-133 | a vertex is a target of another as often as the edge list has the edge between them |
| `Ingest.CheckEdgeList` | examples/bfs/rmat_graph_generator/ingest_edge_list.cpp:30-56 | the largest id that occurs and the number of edges |
| `Ingest.CountDegrees` | examples/bfs/rmat_graph_generator/ingest_edge_list.cpp:60-91 | each entry is the number of edges that leave the vertex |
| `Ingest.ShiftCounts` | examples/bfs/rmat_graph_generator/ingest_edge_list.cpp:94-97 | every count moves up one place, in place |
| `Ingest.SumCounts` | examples/bfs/rmat_graph_generator/ingest_edge_list.cpp:98-100 | the counts become running sums, in place |
| `Ingest.Scatter` | examples/bfs/rmat_graph_generator/ingest_edge_list.cpp:110-133 | every edge's target is in the slot the specification gives it |
| `Ingest.IngestEdges` | examples/bfs/rmat_graph_generator/ingest_edge_list.cpp:58-136 | for any order of the second reading, the slice of each vertex has each target as often as the edge list has that edge |
| `Bitmap.BitUpdate` | examples/bfs/utility/bitmap.hpp:43-51 | setting a bit sets that bit and no other |
| `Bitmap.SizeCovers` | examples/bfs/utility/bitmap.hpp:25-36 | the filter has a word for every vertex |
| `Bitmap.TestBit` | examples/bfs/utility/bitmap.hpp:43-46 | tells whether the position is in the set the filter stands for |
| `Bitmap.SetBit` | examples/bfs/utility/bitmap.hpp:48-51 | adds the position to the set the filter stands for |
| `Bitmap.LostUpdateInventsNothing` | examples/bfs/utility/bitmap.hpp:48-51 | a store from a stale word sets no bit that was not set in the stale or the current filter, apart from its own |
| `Bfs.InitBfs` | examples/bfs/bfs_kernel.hpp:36-41 | all levels infinite, no bit set |
| `Bfs.FindRoot` | examples/bfs/main.cpp:145-157 | the first vertex with an outgoing edge, or failure iff there are no edges |
| `Bfs.Relax` | examples/bfs/bfs_kernel.hpp:86-93 | visiting an unvisited target keeps the pass right, except at level 65534, where it loses the vertex |
| `Bfs.RunBfs` | examples/bfs/bfs_kernel.hpp:66-104 | always terminates; the levels are the shortest distances, infinite iff unreachable, iff no vertex is at distance 65535, and then the returned level is the largest distance |
| `Pipeline.SearchEdgeList` | examples/bfs/main.cpp:214-230 | from edge list to levels: a root is found iff there is an edge and is the smallest source, and the levels are the distances in the edge list under the same exact condition |
| `Pipeline.LongPathWraps` | examples/bfs/bfs_kernel.hpp:30 | a path of 65536 vertices has a vertex at distance 65535 |
| `BfsRace.StepKeeps` | examples/bfs/bfs_kernel.hpp:81-101 | each unsynchronised access of each thread keeps the race invariant iff it is not a write of level 65535, and that one is made only for a vertex at distance 65535 |
| `Bfs.NoLevelsAreRight` | examples/bfs/bfs_kernel.hpp:30 | no array of 16-bit levels is right about a graph with a vertex at distance 65535 |
| `BfsRace.RaceTolerance` | examples/bfs/bfs_kernel.hpp:56-101 | every racy run that ends, on every graph, for any order of scans, double claims and lost filter bits: the levels are the distances iff no vertex is at distance 65535, and then the result is the largest distance |
| `BfsRace.RaceOutcomeIsUnique` | examples/bfs/bfs_kernel.hpp:81-103 | two racy runs from the same root are both right or both wrong, and if right give the same levels and the same result |
| `BfsRaceProgress.RunsAreBounded` | examples/bfs/bfs_kernel.hpp:77-101 | on every graph no racy run is longer than a number that depends on the graph alone |
| `BfsRaceProgress.NeverStuck` | examples/bfs/bfs_kernel.hpp:77-101 | on every graph, with at least one thread, a racy run that is not done can go on |
| `Hash.AddShlInjective` | examples/bfs/rmat_graph_generator/hash.hpp:70-74 | the step that adds a constant and a left shift is injective at every width, constant and shift of at least one |
| `Hash.XorUpInjective` | examples/bfs/rmat_graph_generator/hash.hpp:73 | the same for the step that mixes an addition and a left shift by exclusive or |
| `Hash.XorDownInjective` | examples/bfs/rmat_graph_generator/hash.hpp:71-75 | the same for exclusive or with a right shift |
| `Hash.MixInjective` | examples/bfs/rmat_graph_generator/hash.hpp:69-87 | both six-step hashes are injective on their width |
| `Hash.ShiftedInjective` | examples/bfs/rmat_graph_generator/hash.hpp:89-115 | hashing a window of an id loses nothing |
| `Hash.ShiftedBound` | examples/bfs/rmat_graph_generator/hash.hpp:89-115 | hashing a window inside an n-bit id gives an n-bit id |
| `NativeHash.Hash16Is` | examples/bfs/rmat_graph_generator/hash.hpp:79-87 | the six assignments of `hash16`, on machine words and with the constants of the source, compute the narrow mixer on every number |
| `NativeHash.Hash32Is` | examples/bfs/rmat_graph_generator/hash.hpp:69-77 | the same for `hash32` and the wide mixer |
| `NativeHash.WindowIs` | examples/bfs/rmat_graph_generator/hash.hpp:89-115 | shifting, masking, clearing and joining on 64-bit words compute the window step |
| `NativeHash.HashNBits` | examples/bfs/rmat_graph_generator/hash.hpp:117-143 | the loops over words return the scrambled value of their input |
| `HashValues.Values` | examples/bfs/rmat_graph_generator/hash.hpp:117-143 | what comes out for an id of 17, of 32 and of 33 bits |
| `Hash.ScrambleInjective` | examples/bfs/rmat_graph_generator/hash.hpp:117-143 | for 17 to 64 bits no two ids are merged |
| `Hash.ScrambleBound` | examples/bfs/rmat_graph_generator/rmat_edge_generator.hpp:201-203 | a scrambled id stays below 2^n |
| `Hash.ScrambleOnto` | examples/bfs/rmat_graph_generator/hash.hpp:117-143 | every id below 2^n is the image of one: scrambling is a permutation |
| `Rmat.GenerateEdge` | examples/bfs/rmat_graph_generator/rmat_edge_generator.hpp:214-258 | the ends of an edge are the binary numbers spelled by the quadrant choices, scrambled if asked, and stay below 2^scale |
| `Rmat.CellsAreDistinct` | examples/bfs/rmat_graph_generator/rmat_edge_generator.hpp:219-235 | different quadrant choices give different cells |
| `Rmat.CellDigits` | examples/bfs/rmat_graph_generator/rmat_edge_generator.hpp:224-232 | a digit of the source is one iff C or D was drawn at its level, and a digit of the target iff B or D was |
| `Rmat.EdgesAreDistinct` | examples/bfs/rmat_graph_generator/rmat_edge_generator.hpp:252-257 | with or without scrambling, different choices give different edges |
| `Rmat.EdgeIterator.constructor` | examples/bfs/rmat_graph_generator/rmat_edge_generator.hpp:85-92 | an iterator made with count zero holds the first edge and still counts zero |
| `Rmat.EdgeIterator.GetNext` | examples/bfs/rmat_graph_generator/rmat_edge_generator.hpp:125-136 | the ends of the current edge swapped, uncounted, or the next drawn edge, counted |
| `Rmat.EmitShare` | examples/bfs/rmat_graph_generator/rmat_edge_generator.hpp:85-136 | iterating from begin to end emits the first edges drawn, as many as asked for and, when both directions are wanted, each followed by the edge from its target to its source |
| `EdgeShares.NumLocalEdges` | examples/bfs/rmat_graph_generator/generate_edge_list.cpp:116-133 | in wrapping 64-bit arithmetic, empty list included, the result is an even division |
| `EdgeShares.StartOf` | examples/bfs/rmat_graph_generator/generate_edge_list.cpp:124-130 | a thread's first edge comes right after the shares of the threads before it |
| `EdgeShares.SharesAddUp` | examples/bfs/rmat_graph_generator/generate_edge_list.cpp:116-133 | for every number of threads the shares add up to the number of edges |
| `EdgeShares.SharesAreEven` | examples/bfs/rmat_graph_generator/generate_edge_list.cpp:116-133 | no share is more than one edge larger than another, and the larger ones come first |
| `EdgeShares.GenerateAll` | examples/bfs/rmat_graph_generator/generate_edge_list.cpp:150-178 | each thread's file has its share of the draws, with the opposite edge beside each when both directions are wanted, so that every edge is there as often as its opposite, and the final comparison holds |
| `DoubleSizes.PiecesExact` | src/umap/store/SparseStore.cpp:36 | for every 64-bit size the number of files computed in double precision is the least that covers the size iff the conversion to double does not round the size down to the end of a file |
| `DoubleSizes.FileSizeExact` | src/umap/store/SparseStore.cpp:34-35 | under the same condition on the requested size the file size is the least multiple of the page size that is at least as large |
| `DoubleSizes.SmallSizesExact` | src/umap/store/SparseStore.cpp:35-36 | below 2^53 bytes the numbers are exact for every page and file size |
| `DoubleSizes.SizeCanBeMissed` | src/umap/store/SparseStore.cpp:36 | a store of 2^53 + 1 bytes with files of 4096 bytes is one byte short |
| `StoreLayout.IndexInTable` | src/umap/store/SparseStore.cpp:164-166 | an offset inside the store has a file index inside the table |
| `StoreLayout.ReopenedTable` | src/umap/store/SparseStore.cpp:82-91 | the table made from the metadata has the size of the original one, except that a store of size zero is created with no file and reopened with one |
| `StoreLayout.PageInOneFile` | src/umap/store/SparseStore.cpp:164-166 | an aligned page never spans two files |
| `SparseStores.OpenedKeepsBytes` | src/umap/store/SparseStore.cpp:168-190 | opening, creating and allocating files changes no byte of the flat array |
| `SparseStores.FlatOrder` | src/umap/store/SparseStore.cpp:164-166 | byte b of file i is byte i times the file size plus b of the flat array |
| `SparseStores.ReadIsFlat` | src/umap/store/SparseStore.cpp:105-115 | a read inside one file is complete iff the store is writable or the file is already there, and then returns the bytes of the flat array |
| `SparseStores.WriteIsFlat` | src/umap/store/SparseStore.cpp:117-127 | a write replaces exactly its own bytes of the flat array, and none in a read-only store |
| `SparseStoreClass.SparseStore.GetFd` | src/umap/store/SparseStore.cpp:164-194 | the descriptor of the right file, opened at most once |
| `SparseStoreClass.SparseStore.ReadFromStore` | src/umap/store/SparseStore.cpp:105-115 | the object reads as the specification says |
| `SparseStoreClass.SparseStore.WriteToStore` | src/umap/store/SparseStore.cpp:117-127 | the object writes as the specification says, and fails iff it is read-only |
| `SparseStoreClass.CreateStore` | src/umap/store/SparseStore.cpp:31-64 | fails iff the directory exists; otherwise whole-page files, room for every offset, and metadata that rebuilds the same table |
| `SparseStoreClass.OpenStore` | src/umap/store/SparseStore.cpp:67-96 | fails iff the directory is missing; otherwise takes its geometry from the metadata |
| `SparseStoreReplay.Apply` | src/umap/store/SparseStore.cpp:67-127 | a read, write or reopening of the object, the latter through its metadata, is the corresponding step of the specification |
| `SparseStoreReplay.Replay` | src/umap/store/SparseStore.cpp:31-194 | creating a store and applying any history of page reads, page writes and reopenings gives the answers of a zero-filled flat array, with empty reads only from files a read-only store has never allocated; a store of size zero has its one page range after it is reopened |
| `SparseStoreRuns.StoreRefinesFlatArray` | src/umap/store/SparseStore.cpp:31-194 | from any legal store every such history answers at every step as a flat array would |
| `SparseStoreRuns.LastWriteIsRead` | src/umap/store/SparseStore.cpp:105-127 | a page read returns what was last written there, across other traffic and reopening in either mode |
| `SparseStoreRuns.ShortReadExample` | src/umap/store/SparseStore.cpp:171-188 | a never-written page of a read-only store gives an empty read, not zeros |
| `FileOpening.OpenedAtMostOnce` | src/umap/store/SparseStore.cpp:168-193 | under every schedule of threads each file is opened at most once, and a thread that returns has the one descriptor of a fully allocated file |
| `CacheOverStore.CoupledStep` | src/umap/EvictWorkers.cpp:33-44 | with a sparse store under a region, every step of the cache keeps the files equal to the store copies of the region's pages |
| `CacheOverStore.FilesAreStore` | src/umap/RegionDescriptor.hpp:32-35 | in every state of every run byte k of the store copy of a page is the flat byte at the page's distance from the start of the region plus k |
| `CacheOverStore.EveryRunHasFiles` | src/umap/store/SparseStore.cpp:105-127 | below every run of the cache that keeps page sizes there are files that follow it call by call |
| `CacheOverStore.LoadIsRead` | src/umap/FillWorkers.cpp:50-53 | the read call of a fill is at the page's distance from the start of the region, is complete, and returns what the protocol's load step takes |
| `CacheOverStore.EvictionIsWrite` | src/umap/EvictWorkers.cpp:33-39 | the write call of an eviction is at the same place, with what the page holds |
| `CacheOverStore.UnmapReachesFiles` | src/umap/Buffer.cpp:188-203 | when the loop that unmaps the region ends, closing and reopening the store in either mode reads back, at the page's distance from the start of the region, what the application wrote last |
| `CacheOverStore.DrainReachesFiles` | src/umap/EvictManager.cpp:58-76 | the same after a drain that did not begin at risk |
| `CacheOverStore.FlushReachesFiles` | src/umap/Buffer.cpp:163-180 | the same after a flush, for the pages it found dirty and, when the evict manager held no dirty page, for all |

## Left out

- System calls, polling, pipes, registration with the kernel and feature checks: only their effect on the page map is kept.
- Read-only builds (`UMAP_RO_MODE`): a simplification of the read/write protocol.
- `fetch_and_pin`, memory sizing and the percentage computation of the watermarks: they depend on the operating system or on floating point.
- Liveness of the page cache: whether waiting threads eventually proceed under fair scheduling, and lock cycles between a flush and an eviction.
- `StoreFile`, `Store`, environment variables, accessors, wrappers, logging, statistics and the monitor thread: input and output or configuration.
- FlushCondition.FlushExact: covers flushes that start with all dirty busy pages PRESENT, because the code's wait would otherwise release the lock and let the deque change under its iterator.
- ProtocolRuns.UnmapDurability: the application does not touch the region while it is being unmapped, as unmapping requires of its caller.
- SparseStoreRuns.StoreRefinesFlatArray: for whole aligned pages inside the store.
- DoubleSizes.PiecesExact: for page sizes that are multiples of 2048, as system pages are; of division it uses what correct rounding promises. The rest of the store model takes the exact number.
- FaultBatch.ProcessBatch: the library sort is a parameter that may be any sorted arrangement of the events; events carry only the WRITE and WP bits.
- Ingest.IngestEdges: file reading and parsing are left out, ids and counts are unbounded, and the atomic increments of the parallel loops are taken one at a time in any order.
- Rmat.GenerateEdge: random draws and floating-point probabilities are replaced by arbitrary quadrant choices; the scale is at most 63, since 2^scale is computed in 64 bits.
- The per-level counts and the comparison with a reference file that `main.cpp` prints, STREAM, the sorting and FITS examples, benchmarks, tests, scripts and build files: they would add only easy members.

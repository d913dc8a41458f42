# Verification of the PriME/LRP simulator's stateful core

PriME/LRP simulates a many-core cache hierarchy with persistent memory. This project models its
protocols and data structures in Dafny and proves what they are there for. Update in place is kept
where the program updates in place: classes whose methods reassign line arrays, node pools, linked
lists and tables, each proved against a specification. The concurrent programs that ship with the
simulator are transition systems that interleave between single memory accesses.

| files | what they model |
|---|---|
| `CacheArray`, `CacheTree`, `MesiStates`, `MesiBus` | set-associative line arrays, the tree of caches, and the bus-based MESI protocol over inclusive caches of any depth |
| `AvlShape`, `AvlBalance`, `AvlEdit`, `IntervalTree` | the AVL interval tree with parent pointers, stored heights and re-linking by key comparison |
| `FreeList`, `QueueModel` | first-fit allocation of service time: the list model, with and without interleaving, and the tree model with its pool of 100 nodes |
| `LockCoupling` | the hand-over-hand locked list: any number of threads, every interleaving |
| `LockFreeQueue` | the single-producer, single-consumer queue |
| `Directory` | directory MESI with one private cache per core, full-map and limited-pointer |
| `EpochCache` | buffered epoch persistency in a first-level cache |
| `PersistOrder`, `PersistBuffer` | per-core persist buffers in front of the memory-controller queue |
| `Lru`, `Tlb` | timestamp LRU as a recency list; TLBs over the page table |
| `Mesh` | mesh coordinates, links and their queues, routes and delay accounts |
| `Sequences` | sequences without duplicates, counting |

Main results, hardest first:

* Every access of every run on the bus keeps the caches inclusive and coherent: `MesiBus.BusSystem.Access`
  keeps `Safe` for any depth of the tree, any sharing factors and any choice of replacement victims, although
  a line is set to I before its parent is asked and inclusion is repaired only at the end. At most one core may
  write a block, and then nobody else holds it (`Run`, `SingleWriterInLines`).
* The locked list is linearizable to a set of integers, never touches freed memory, never deadlocks, loses no
  memory, and a call that runs alone ends after a number of steps linear in the list. From every quiescent state a
  lone call behaves like the sequential set if and only if its value is below the upper sentinel.
* Insertion and removal keep the tree an AVL search tree with exact heights and consistent pointers and change
  its intervals by exactly the one asked for; in the two-children case the returned node is unlinked and carries
  the removed interval. The search finds exactly the earliest interval that can hold a request.
* The tree queue model refines first-fit on a sorted list, branch by branch and with pruning; service windows
  are pairwise apart and apart from what is still free, each starts as early as a single free interval allows,
  and no node of the pool is lost or used twice. Every cycle that is not served stays free, but for pieces that are
  too short. What the next request relies on is kept if and only if the guard
  `FreeList.KeepsGaps` holds; a run needs nothing but a bound on arrival times and total work.
* The directory protocol keeps one writer or many readers along every run, recorded sharers cover all holders, an
  entry in M is backed by a core that holds the block in M, a silently evicted owner is handled, and a modified
  victim leaves no entry and no holder, in both modes. A read is granted E if and only if its block had no entry.
* No line or order of a core is lost between its persist buffer and memory along any run; stores with one between
  them that opened a line and was atomic or had a dependency never swap.
* What the single-consumer queue returns is a prefix of what its producer was called with, in every interleaving.
* After every access of every run no modified first-level line is older than an epoch that already left.
* A packet takes exactly its Manhattan distance in links, uses no link twice, meets exactly the contention of the
  queues of its links, and the contention-free time if it finds them idle. Along every run no link is occupied
  twice at one time.

Configuration assumed: all levels use one block size, set counts are powers of two, and the first level is private
(`share` is 1). The number of caches of each level is the number of children of the next level, and sharing factors
divide each other unless the next level is a single cache; `CacheTree.NestsIff` shows that the pointers set by
`init_caches` are consistent in no other configuration. Persistency is `NONB` in the bus and
directory models; the epoch model has `ASPLOS_AFTER` set, as `src/common.h` does, and no proactive flushing.
In the directory model `dirty` is never set, because only the branches above the last level set it. The mesh
has at least one header flit, so a packet is never empty. Page and block sizes are powers of two, so the
source's bit operations are quotients, remainders and sums.

Where code and promise differ, the code is modelled:

* The locked list is right only for keys below its upper sentinel `INT_MAX`; the lower sentinel's value is never
  read, so `INT_MIN` and smaller keys are handled. A key equal to `INT_MAX` is "found" in the tail sentinel, and a
  delete of it unlinks and frees that sentinel (`LockCoupling.AtSentinel`); a larger key follows the NULL pointer
  behind it (`LockCoupling.BeyondSentinel`). `LockCoupling.LoneCall` is the exact condition. The benchmark's default
  range reaches `INT_MAX`.
* The tree queue model relies on free intervals being non-empty and at least one cycle apart. `FreeList.GapsKeptIff`
  says exactly when a request keeps this: no empty piece is left, which takes a minimum size of 0, and the request
  takes a cycle or does not split an interval. `FreeList.ZeroLengthSplits` and `FreeList.EmptyPieceKept` are inputs
  that fail. A queue is safe for all arrivals if and only if minimum size and processing time are at least 1
  (`FreeList.SafeConfiguration`): for buses a bus latency of at least 1, for links a link delay and a packet length
  of at least 1. The parser's default for both delays is 0. A bus with that default loses all its time to a first
  request at time 0, because both pieces get one key and the tree refuses the second (`FreeList.BusWithoutLatency`).
* The list queue model always interleaves. It then agrees with first fit if and only if the first interval that ends
  after the arrival can hold the request (`FreeList.InterleavingIff`), and otherwise may take more time than was
  asked for, since the packet time is overwritten before it is used (`FreeList.InterleavingOvercharges`).
* `init_caches` accepts sharing factors that do not fit the number of cores, and then reads child pointers that do
  not exist (`CacheTree.SixByFour`).
* `Network::getLink` tests the second coordinate twice and never the third in three dimensions; `Mesh.LinkExists`
  shows that routes stay inside the array nevertheless.
* An access hits in a persist buffer only if no barrier stands at or behind the first matching line, yet merges
  into the last matching one; `PersistBuffer.HitAt` is stated so.

## Model

| member | source | states |
|---|---|---|
| CacheArray.AddressRoundTrip | src/cache.cpp:266-284 | splitting an address and composing the parts is the identity, and index and tag are those of its block |
| CacheArray.VictimAddress | src/cache.cpp:351-358 | the address composed for a victim lies in the block that the victim's tag and set name |
| CacheArray.SameBlock | src/cache.cpp:266-277 | two addresses share a block if and only if they belong to one program and one aligned range of the block size |
| CacheArray.LineStore.AccessLine | src/cache.cpp:305-323 | returns the way whose valid line holds the block, and -1 only if no way does |
| CacheArray.LineStore.ReplaceLine | src/cache.cpp:326-384 | takes a free way if the set has one, otherwise evicts exactly one block of the same set; the line keeps its old state under the new tag |
| CacheArray.LineStore.SetState | src/system.cpp:626-649 | changes the state of exactly one block in exactly one cache |
| CacheTree.ParIn | src/system.cpp:557-563 | the parent of a cache below the top exists in the level above |
| CacheTree.ChildIn | src/system.cpp:549-555 | the k-th child of a cache exists and has it as its parent |
| CacheTree.IsChild | src/system.cpp:549-563 | every cache is found among the children of its parent, so parent and child arrays agree |
| CacheTree.NestsIff | src/system.cpp:538-574 | the pointers that `init_caches` sets are consistent if and only if every level has exactly the children of the next one and factors divide or the next level is one cache |
| CacheTree.SixByFour | src/system.cpp:549-555 | six cores with a second level shared by four: a child pointer leads nowhere |
| MesiBus.BusSystem.Inval | src/system.cpp:3260-3344 | the recursion sets I exactly at the caches it reaches through lines that hold the block |
| MesiBus.BusSystem.InvalChildren | src/system.cpp:3347-3361 | the same for everything strictly below a cache |
| MesiBus.BusSystem.Share | src/system.cpp:3153-3238 | the recursion lowers M and E to S exactly at the caches it reaches through lines in M or E |
| MesiBus.BusSystem.ShareChildren | src/system.cpp:3241-3255 | the same for everything strictly below a cache |
| MesiBus.BusSystem.SnoopInval | src/system.cpp:634-648 | after the snoop loop, with or without its early exit at an owner, no other top-level subtree holds the block |
| MesiBus.BusSystem.SnoopShare | src/system.cpp:705-725 | after the snoop loop no other subtree holds the block in M or E, and the result says whether another one holds it |
| MesiBus.BusSystem.MesiBus | src/system.cpp:595-739 | one recursive transaction: a write leaves the block in M on the requester's path and nowhere else, a read leaves no other owner; evictions are exactly those of full sets |
| MesiBus.BusSystem.Upgrade | src/system.cpp:625-630 | a line may be set to I before its parent is asked: the answer repairs inclusion |
| MesiBus.BusSystem.MakeRoom | src/system.cpp:667-671 | the victim of a replacement disappears from the cache and everything below it |
| MesiBus.BusSystem.Access | src/system.cpp:231-300 | an access by any core keeps all blocks coherent; a write ends in M for the core and its ancestors and I elsewhere |
| MesiBus.BusSystem.Run | src/system.cpp:231-300 | along every run, a core in M or E excludes every other core, and a requester holds its block afterwards |
| MesiBus.BusSystem.SingleWriterInLines | src/system.cpp:595-739 | the same about the line arrays themselves |
| MesiStates.CoherentMeaning | src/system.cpp:595-739 | the invariant is equivalent to: valid child has valid parent, child M needs parent M, child E needs parent E or M, and M or E excludes copies in every sibling and other top-level cache |
| MesiStates.WriteKeeps | src/system.cpp:623-654 | the outcome of a write is a coherent state |
| MesiStates.ReadKeeps | src/system.cpp:656-662 | the outcome of a read is a coherent state |
| MesiStates.EvictionKeeps | src/system.cpp:669-671 | evictions keep every other block coherent |
| MesiStates.WriteHit | src/system.cpp:651-653 | the invalidation below the hit line repairs what the upgrade left |
| MesiStates.SnoopStop | src/system.cpp:691-694 | stopping the snoop at an owner is sound, since an owner has no rivals |
| MesiStates.SingleWriter | src/system.cpp:595-739 | coherence implies that a writer excludes all other cores |
| AvlBalance.SingleBalance | src/Graphite/interval_tree.cpp:190-209 | one rotation restores balance and exact heights when the outer grandchild is at least as high |
| AvlBalance.DoubleBalance | src/Graphite/interval_tree.cpp:185-204 | two rotations do when the inner one is higher |
| AvlBalance.StepUp | src/Graphite/interval_tree.cpp:241-245 | a repaired subtree whose height changed by at most one leaves exactly one ancestor to repair |
| AvlBalance.PendingDone | src/Graphite/interval_tree.cpp:241-245 | stopping as soon as a subtree kept its height is sound: the whole tree is good |
| IntervalTree.Tree.PerformRotation | src/Graphite/interval_tree.cpp:113-149 | the pool after a rotation, pointer by pointer, with the two heights updated and the root pointer moved when needed |
| IntervalTree.Tree.BalanceHeight | src/Graphite/interval_tree.cpp:151-211 | a subtree out of balance by two becomes a good subtree with the same nodes in the same order |
| IntervalTree.Tree.Rebalance | src/Graphite/interval_tree.cpp:213-246 | one pending change becomes a good tree with the same nodes in order; nothing outside the tree changes |
| IntervalTree.Tree.Swap | src/Graphite/interval_tree.cpp:248-258 | keys and intervals change places, links stay |
| IntervalTree.Tree.FindMin | src/Graphite/interval_tree.cpp:260-267 | the leftmost node of a subtree |
| IntervalTree.Tree.Insert | src/Graphite/interval_tree.cpp:269-313 | a fresh key adds exactly the new interval to the ordered sequence of a good tree; a key already present only counts |
| IntervalTree.Tree.Remove | src/Graphite/interval_tree.cpp:315-361 | exactly the interval of the given node goes; the returned node is unlinked and carries it |
| IntervalTree.Tree.Search | src/Graphite/interval_tree.cpp:363-399 | the node of the earliest interval that can hold the request, or NULL exactly if there is none |
| IntervalTree.FitFork | src/Graphite/interval_tree.cpp:370-399 | at every node, skipping the left subtree loses nothing because intervals are a cycle apart |
| AvlEdit.SwappedItems | src/Graphite/interval_tree.cpp:345-359 | removing the successor's node and moving its interval up is removing the node's interval |
| FreeList.HistoryList.ComputeUsingHistoryList | src/Graphite/queue_model_history_list.cpp:72-147 | the loop with its placement and interleaving branches and the size limit computes first fit, or what interleaving leaves |
| FreeList.InterleavingIff | src/Graphite/queue_model_history_list.cpp:110-136 | interleaving gives the delay and the list of first fit if and only if the first interval that ends after the arrival can hold the request, or there is none |
| FreeList.InterleavedInside | src/Graphite/queue_model_history_list.cpp:110-136 | nothing becomes free by interleaving |
| FreeList.InterleavedUses | src/Graphite/queue_model_history_list.cpp:79-137 | cycle by cycle: interleaving takes all free time from the arrival to an end, which is the processing time and the rest of the interval the packet arrived in if it did not fit; the delay is the time not used |
| FreeList.InterleavingOvercharges | src/Graphite/queue_model_history_list.cpp:112-124 | a concrete request for 8 cycles that takes 13 |
| FreeList.EarliestStart | src/Graphite/queue_model_history_list.cpp:79-109 | no request can start earlier inside one free interval than the delay says |
| FreeList.PlacedInside | src/Graphite/queue_model_history_list.cpp:83-109 | what is free afterwards was free before and lies outside the granted window |
| FreeList.PlacedFree | src/Graphite/queue_model_history_tree.cpp:75-112 | cycle by cycle: free afterwards is exactly what was free before, without the window, the piece before it unless the request did not wait and the piece has the minimum size, and the piece behind it unless it has |
| FreeList.OthersStay | src/Graphite/queue_model_history_tree.cpp:75-112 | every other interval stays as it is |
| FreeList.PrunedFree | src/Graphite/queue_model_history_tree.cpp:49-55 | pruning takes the oldest interval of a list of 100, and nothing else |
| FreeList.OldMeaning | src/Graphite/queue_model_history_tree.cpp:59-63 | the analytical model is used exactly if the packet would be done before all time that is still free |
| FreeList.GrantKeeps | src/Graphite/queue_model_history_tree.cpp:66-112 | granting a window keeps all windows apart from one another and from free time |
| FreeList.GapsKeptIff | src/Graphite/queue_model_history_tree.cpp:75-112 | a placement keeps the gaps the search needs if and only if it leaves no empty piece and takes time or does not split an interval, for every minimum size |
| FreeList.SafeConfiguration | src/bus.cpp:44-61 | a queue keeps its gaps for every state and arrival if and only if minimum size and processing time are at least one cycle |
| FreeList.ZeroLengthSplits | src/Graphite/queue_model_history_tree.cpp:78-86 | a concrete request for no time after which two free intervals touch |
| FreeList.EmptyPieceKept | src/Graphite/queue_model_history_tree.cpp:78-86 | a concrete request with minimum size 0 after which the search misses the minimum node |
| FreeList.KeysUpIff | src/Graphite/queue_model_history_tree.cpp:78-95 | the pieces of a placement have increasing keys if and only if it is not a request for no time at the start of an interval with minimum size 0 |
| FreeList.BusWithoutLatency | src/bus.cpp:44-61 | the first request at time 0 to a bus without latency loses the unbounded interval, and no minimum node is left |
| FreeList.LostEnd | src/Graphite/queue_model_history_tree.cpp:66-73 | a queue that lost its unbounded interval has nothing for later requests |
| FreeList.PlacedEndless | src/Graphite/queue_model_history_tree.cpp:75-112 | some interval holds the request, the unbounded one survives and starts no later than the request allows, and the list stays usable if and only if the gaps are kept |
| FreeList.OldestFirst | src/Graphite/queue_model_history_tree.cpp:49-58 | a search for one cycle at time 0 yields the minimum node |
| FreeList.RunWithin | src/Graphite/queue_model_history_list.cpp:10-12 | if arrival times and total work stay within 64 bits, no request of a run overflows or loses the unbounded interval |
| FreeList.ServeKeeps | src/link.cpp:54-60 | a request keeps the windows of a queue apart, and waits no longer than until everything granted is over |
| FreeList.SecondWaits | src/link.cpp:54-60 | of two equal requests at one time to an idle queue the second waits for exactly the first |
| QueueModel.HistoryTree.AllocateNode | src/Graphite/queue_model_history_tree.cpp:144-156 | hands out a node that is in no use and leaves tree and other slots alone |
| QueueModel.HistoryTree.ReleaseNode | src/Graphite/queue_model_history_tree.cpp:158-169 | takes back exactly that node |
| QueueModel.HistoryTree.Prune | src/Graphite/queue_model_history_tree.cpp:49-55 | a full tree loses its oldest interval, never the unbounded one |
| QueueModel.HistoryTree.Place | src/Graphite/queue_model_history_tree.cpp:66-112 | the in-place edits, insertion and removal leave exactly the first-fit list, and the delay is the first-fit delay; when the keys of the two pieces clash the second one and its node are lost |
| QueueModel.HistoryTree.AddPiece | src/Graphite/queue_model_history_tree.cpp:80-84 | the new node is inserted right behind its interval, or lost if the key is there already |
| QueueModel.HistoryTree.ComputeQueueDelay | src/Graphite/queue_model_history_tree.cpp:42-125 | the whole request refines prune, analytical test and first fit, for every minimum size and processing time; tree, pool and disjoint windows stay valid if and only if the gaps are kept |
| QueueModel.HistoryTree.Run | src/Graphite/queue_model_history_tree.cpp:42-125 | on a fresh queue, if arrival times and total work stay within 64 bits, every answer, the free time and the windows are those of first fit |
| QueueModel.NoSlotLost | src/Graphite/queue_model_history_tree.cpp:127-169 | every slot of the pool is in the tree or on the free list, and in one of them only |
| LockCoupling.StepKeeps | pbench/syncbench/src/lock-coupling-list/coupling.cc:31-105 | every step of every thread keeps list, locks, private nodes, phases and history consistent |
| LockCoupling.Linearizable | pbench/syncbench/src/lock-coupling-list/coupling.cc:31-105 | in every state of every run the effects so far are a legal history of a set of integers and the list is sorted and holds exactly that set |
| LockCoupling.EffectInside | pbench/syncbench/src/lock-coupling-list/coupling.cc:31-105 | a call that returned took effect exactly once between call and return, with the result it returned |
| LockCoupling.Found | pbench/syncbench/src/lock-coupling-list/coupling.cc:68-74 | the node where a traversal stops decides membership |
| LockCoupling.UnlinkStep | pbench/syncbench/src/lock-coupling-list/coupling.cc:47-49 | unlinking removes exactly the value and disturbs no other thread |
| LockCoupling.PublishStep | pbench/syncbench/src/lock-coupling-list/coupling.cc:98-101 | linking the new node adds exactly the value |
| LockCoupling.FreeStep | pbench/syncbench/src/lock-coupling-list/coupling.cc:49-51 | freeing the node after unlocking it keeps everything consistent |
| LockCoupling.SafeAccess | pbench/syncbench/src/lock-coupling-list/coupling.cc:31-105 | no step of any thread touches memory that was freed |
| LockCoupling.NobodyAtFreed | pbench/syncbench/src/lock-coupling-list/coupling.cc:49-50 | no other thread holds, waits for or is about to touch a node that is about to be freed, and the list does not contain it |
| LockCoupling.SomeoneRuns | pbench/syncbench/src/lock-coupling-list/coupling.cc:35-43 | while a call is in progress some call can make a step: locks are taken in list order |
| LockCoupling.AloneEnabled | pbench/syncbench/src/lock-coupling-list/coupling.cc:59-78 | a call whose thread is the only active one is never blocked |
| LockCoupling.AloneTerminates | pbench/syncbench/src/lock-coupling-list/coupling.cc:63-76 | a call that runs alone takes at most five steps per list node and seven more |
| LockCoupling.LoneCall | pbench/syncbench/src/lock-coupling-list/coupling.cc:31-105 | from every quiescent state a call that runs alone gives the answer and leaves the set of the sequential set if and only if its value is below the upper sentinel |
| LockCoupling.AtSentinel | pbench/syncbench/src/lock-coupling-list/coupling.cc:46-51 | with the sentinel's value find and delete answer true and insert false although it is in no set, and a delete unlinks and frees the sentinel |
| LockCoupling.BeyondSentinel | pbench/syncbench/src/lock-coupling-list/coupling.cc:40-45 | with a larger value every call follows the NULL pointer behind the sentinel |
| LockCoupling.EmptyFindsMax | pbench/syncbench/src/lock-coupling-list/coupling.cc:74-77 | find of INT_MAX on the empty list answers true |
| LockCoupling.EmptyDeletesMax | pbench/syncbench/src/lock-coupling-list/coupling.cc:46-51 | delete of INT_MAX on the empty list answers true and leaves only the lower sentinel |
| LockCoupling.EmptyRunsOff | pbench/syncbench/src/lock-coupling-list/coupling.cc:68-73 | find of INT_MAX + 1 on the empty list follows NULL |
| LockCoupling.InitHolds | pbench/syncbench/src/lock-coupling-list/linkedlist-lock.cc:41-55 | the initial list of two sentinels satisfies the invariant with the empty set |
| LockFreeQueue.StepKeeps | pbench/LFQueue/src/LockFreeQueue.cc:24-41 | every step of either thread keeps first, divider and last in order on one chain with at most one unpublished node |
| LockFreeQueue.FirstInFirstOut | pbench/LFQueue/src/LockFreeQueue.cc:24-41 | in every state of every interleaving, the results of `Consume`, the one in hand, the values in the queue and the one not yet published are the arguments of `Produce` in order |
| LockFreeQueue.EmptyIsTrue | pbench/LFQueue/src/LockFreeQueue.cc:34-41 | the queue is reported empty exactly if nothing is pending at the test |
| LockFreeQueue.TrimsAll | pbench/LFQueue/src/LockFreeQueue.cc:27-31 | a call of `Produce` ends exactly when no node that the consumer has passed is left |
| LockFreeQueue.NeverBlocked | pbench/LFQueue/src/LockFreeQueue.cc:24-41 | no step of either thread touches a deleted node |
| LockFreeQueue.ConsumerKeepsOut | pbench/LFQueue/src/LockFreeQueue.cc:27-31 | the consumer does not touch nodes that are being trimmed or not yet published |
| LockFreeQueue.WaitFree | pbench/LFQueue/src/LockFreeQueue.cc:24-41 | every own step brings a call closer to its end and no step of the other thread takes it further away |
| Directory.DirectorySystem.Drop | src/system.cpp:3402-3438 | an owner, all sharers or all cores lose the block, as the directory line demands |
| Directory.DirectorySystem.MakeEntry | src/system.cpp:3388-3452 | a directory miss makes an entry with the requester as only sharer; only the replaced entry's block is lost, and by everybody |
| Directory.DirectorySystem.WriteEntry | src/system.cpp:3465-3510 | a write leaves the directory in M with the requester as only sharer and nobody else holding the block |
| Directory.DirectorySystem.ReadEntry | src/system.cpp:3511-3535 | a read downgrades an owner, records the requester and overflows to broadcast exactly at the pointer limit |
| Directory.DirectorySystem.Forget | src/system.cpp:3536-3541 | a write-back empties the entry of a block nobody holds |
| Directory.DirectorySystem.AccessDirectory | src/system.cpp:3366-3567 | granted state, directory state and sharers after every request, with what was evicted |
| Directory.DirectorySystem.Hit | src/system.cpp:944-1161 | hits in the only cache level keep all blocks sound |
| Directory.DirectorySystem.MakeRoom | src/system.cpp:1183-1212 | a full set loses one block; if its core held it in M, the directory forgets it and nobody holds it |
| Directory.DirectorySystem.Miss | src/system.cpp:1183-1444 | a read miss is granted E if and only if the block had no entry; entries change only for the block, the directory's victim and a modified victim, which loses its own |
| Directory.DirectorySystem.Access | src/system.cpp:743-1447 | an access keeps the directory invariant for all blocks; a write excludes everybody, a read leaves the other copies as shared ones and is granted E exactly without an entry; only the two victims lose copies, and an evicted M loses its entry |
| Directory.DirectorySystem.Run | src/system.cpp:743-1447 | along every run a core in M or E excludes every other core, and a requester holds its block afterwards |
| Directory.DirectorySystem.SafeExcludes | src/system.cpp:3366-3567 | single writer or many readers, in both directory modes |
| Directory.HoldersRecorded | src/system.cpp:3366-3567 | a holder implies an entry; it is recorded unless in broadcast; it is in M or E exactly if the directory is, and then the only sharer |
| Directory.OwnerReal | src/system.cpp:3465-3541 | an entry in M has exactly one sharer, and that core holds the block in M |
| Directory.SilentEviction | src/system.cpp:1193-1198 | dropping a clean line without telling the directory is harmless |
| EpochCache.L1.EpochPersist | src/system.cpp:1996-2085 | the flush loop drops exactly the other modified lines older than the conflicting one, each accounted for |
| EpochCache.L1.Release | src/system.cpp:3195-3228 | a line leaves the modified state after everything older has gone |
| EpochCache.L1.Deliver | src/system.cpp:3301-3337 | remote invalidations and downgrades keep epoch order |
| EpochCache.L1.Replace | src/system.cpp:1183-1352 | a free way is used if there is one; only a modified victim makes older lines leave, and then exactly those |
| EpochCache.L1.Write | src/system.cpp:840-943 | the line ends modified in the write's epoch, in order; exactly a rewrite in a later epoch or a modified victim makes older lines leave, and without one nothing else changes and nothing is logged as gone |
| EpochCache.L1.Read | src/system.cpp:1125-1161 | a read hit changes nothing, a miss fills the granted state |
| EpochCache.L1.EpochOrder | src/system.cpp:1996-2085 | after every completed access no modified line is older than an epoch that has left |
| EpochCache.L1.Run | src/system.cpp:1996-2085 | along every run with stores in epoch order nothing modified is older than what has left, and what was modified is so still or has left |
| PersistBuffer.PersistSystem.Access | src/pbuff.cpp:61-91 | hits exactly if there is a matching line and no barrier at or behind the first, and then returns the last one |
| PersistBuffer.HitIff | src/pbuff.cpp:61-91 | there is a hit if and only if a line has the tag and none at or behind such a line is a barrier, and otherwise a miss |
| PersistBuffer.TagBlock | src/pbuff.cpp:64-64 | two addresses have one tag if and only if they lie in one aligned block of 64 bytes |
| PersistBuffer.PersistSystem.Append | src/pbuff.cpp:223-251 | the pointer updates of both insert functions |
| PersistBuffer.PersistSystem.Insert | src/pbuff.cpp:109-135 | refuses exactly when full, otherwise the line is the last of its buffer |
| PersistBuffer.PersistSystem.Remove | src/pbuff.cpp:160-173 | takes exactly the oldest line, NULL exactly if there is none |
| PersistBuffer.PersistSystem.AccessMcq | src/system.cpp:472-498 | a full queue first writes its oldest line to memory, then the line joins at the end |
| PersistBuffer.PersistSystem.Flush | src/system.cpp:445-469 | drains exactly the lines up to the hit one, or nothing, and terminates |
| PersistBuffer.DrainedMeaning | src/system.cpp:445-469 | a flush moves something if and only if it hits, and then leaves no line with the tag and takes nothing behind the last one |
| PersistBuffer.PersistSystem.Resolve | src/system.cpp:365-386 | before a dependent line goes on, every buffer it depends on is flushed up to its line |
| PersistBuffer.PersistSystem.AccessPersistBuffer | src/system.cpp:320-443 | a store is merged into the hit line, or opens a line that is a barrier if and only if the store is atomic or has a dependency, which it takes along; capacities, conservation and barrier order are kept |
| PersistBuffer.PersistSystem.AddDependency | src/system.cpp:280-288 | records one dependency of one core and nothing else |
| PersistBuffer.PersistSystem.Run | src/system.cpp:320-498 | along every run lines are conserved in order, capacities hold, every store is in a line with its tag, and of stores of one core those before a store that was not merged and was atomic or had a dependency reach queue and memory before it and before later ones |
| PersistBuffer.MergeLog | src/system.cpp:343-351 | a merged write is behind every barrier line of its core |
| PersistOrder.BarrierOrder | src/system.cpp:343-440 | two writes of a core with an enqueued barrier line between them reach controller queue and memory in that order |
| PersistOrder.DrainArrives | src/system.cpp:460-465 | what leaves the front of a buffer arrives behind everything of its core that arrived before |
| PersistOrder.PersistKeeps | src/system.cpp:480-490 | per-core conservation is kept when a line goes to memory |
| PersistOrder.ArriveKeeps | src/system.cpp:495-495 | and when a line joins the controller queue |
| PersistOrder.OnePlace | src/pbuff.cpp:109-173 | a line is in one list only |
| Tlb.TlbSystem.TranslatePage | src/page_table.cpp:56-72 | known pages keep their number, a new one gets the next, and exactly 0 to n-1 are in use |
| Tlb.TlbSystem.Translate | src/system.cpp:3868-3889 | the physical address is the page table's on every core and across evictions; with a later timestamp the sets stay recency lists |
| Tlb.TlbSystem.Run | src/system.cpp:3868-3889 | along every run on any cores two requests get one physical address if and only if program and virtual address are equal |
| Tlb.TranslationInjective | src/system.cpp:3887-3887 | equal physical addresses come from the same program and address |
| Tlb.PhysicalParts | src/system.cpp:3887-3887 | a physical address lies in its page and keeps the offset of the virtual one |
| Tlb.SamePage | src/page_table.cpp:50-53 | addresses have one page if and only if they belong to one program and one aligned range of the page size |
| Tlb.PagesInUse | src/page_table.cpp:61-66 | the page numbers in use are exactly those below the counter |
| Tlb.TlbSystem.OldestWay | src/cache.cpp:288-300 | the first way with the smallest timestamp |
| Lru.UseKeeps | src/cache.cpp:288-384 | scanning timestamps and replacing the oldest refines moving a block to the front of a recency list |
| Lru.HoldsMostRecent | src/cache.cpp:288-384 | a set holds a block if and only if it is among the most recently used, as many as there are ways |
| Lru.RecencyMeaning | src/cache.cpp:288-300 | the recency list holds every block ever used once, ordered by last use |
| Mesh.LocInverts | src/network.cpp:163-189 | every node lies in the grid and its number can be read off its coordinates, in two and three dimensions |
| Mesh.IdInverts | src/network.cpp:163-189 | every place of the grid is the place of its number |
| Mesh.NeighbourIds | src/network.cpp:180-189 | neighbours have numbers that differ by 1, the width and its square, and the origin is node 0 |
| Mesh.LinkExists | src/network.cpp:213-307 | every step of the mesh has a link inside the allocated array |
| Mesh.LinksApart | src/network.cpp:213-307 | two steps use one link if and only if they go along the same edge, in either direction |
| Mesh.RouteAt | src/network.cpp:116-144 | a route follows its directions inside the grid, comes one link closer with every step and ends at the receiver |
| Mesh.DimensionOrder | src/network.cpp:116-144 | a route goes along x until it is done, then y, then z, always towards the receiver |
| Mesh.SlotsApart | src/network.cpp:213-307 | a route uses no link twice |
| Mesh.OffRoute | src/network.cpp:116-144 | the queues of links off the route are left alone |
| Mesh.FirstPacket | src/network.cpp:116-144 | a packet that finds the links of its route idle meets no contention |
| Mesh.SecondCrossing | src/link.cpp:54-60 | of two packets of one length that come to an idle link together the second leaves exactly that length later |
| Mesh.TwoPackets | src/network.cpp:97-160 | a concrete mesh: two packets over one link at time 0 take 11 and 20 |
| Mesh.FlitsLeast | src/network.cpp:104-104 | the number of data flits is the least that has room for the data |
| Mesh.Network.TakeLink | src/network.cpp:118-123 | one turn of a loop: the link that `getLink` finds is occupied for the packet's length right before the packet is over it, and no link is ever occupied twice at one time |
| Mesh.Network.Leg | src/network.cpp:116-124 | one dimension of a route, one link at a time, each with the queue of its own slot |
| Mesh.Network.Transmit | src/network.cpp:97-160 | a route takes exactly the Manhattan distance in links; the delay is the contention-free formula plus what the queues of the links on the route answer; each of them is occupied by the packet and only those change; the totals split into router, link, injection and pipeline parts |
| Mesh.Network.Run | src/network.cpp:97-160 | along every run whose times stay within 64 bits the windows in which a link is occupied are pairwise apart, and every packet takes at least the contention-free time |

## Left out

- Timing: delays, bus, network and DRAM contention inside the coherence, flush and persist models; they do not influence states. The M/G/1 formula is the parameter `analytical`.
- Statistics counters, debug output, locks of the simulator itself, Pin, MPI and XML code.
- Caches that are created on demand are empty from the start; the model has no difference between the two.
- `mesi_directory` with several levels, and the shared last-level cache: a shared victim is replaced without invalidating what is below it, so inclusion does not hold there.
- Cleaning write-backs (`CLWB`) and other persistency models in the directory; they do not occur with `NONB`.
- Release, full-barrier and proactive-flush persistency, and the order of lines inside one flush: the epoch property holds when an access has completed.
- Release ordering in the persist buffer: an atomic write that hits is merged without a new epoch; epochs are those of enqueued barrier lines.
- Other operations on the lines of the same set in the epoch model: a duplicate tag is not excluded there, since the property does not need it.
- The home of a block is an arbitrary function; `getHomeId` and `allocHomeId` are not modelled.
- Allocation failure and memory reclamation other than `free` and `delete`; allocators may reuse freed addresses.
- Weak memory: atomics and locks are sequentially consistent, a lock is acquired in one step when it is free.
- IntervalTree.Tree.Insert: a key that is already present is counted in the size although nothing is added, as in the source.
- EpochCache.L1.Write: the answers of the levels above are taken to be M for writes and S or E for reads, with any messages arriving meanwhile.
- Tlb.TlbSystem.Translate: the recency claim needs timestamps that increase per core; the translation claims do not.
- Mesh.Network.Transmit: the queue of a link is its list of free intervals, which the tree queue model refines under the conditions given there. What happens when packet times overflow 64 bits is not modelled.
- LockFreeQueue.FirstInFirstOut: values are integers, since the element type plays no role.
- The TLB and page-table locks, page faults and page sizes that are not powers of two.
- The moving averages, `ThreadSched`, the SyncMap and the logarithm helpers.

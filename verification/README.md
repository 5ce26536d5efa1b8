# Verified models of the nusa kernel

nusa is a small SMP kernel descended from LK.  This project models the parts of it that carry the hard
correctness arguments and proves those arguments in Dafny 4.11:

- the arm64 page tables: mapping, unmapping and querying a mutable multi-level table with mixed blocks and
  pages, made and reclaimed on the way (`Slots`, `PageTree`, `Descriptor`, `Mmu`);
- the scheduler with its priority run queues and bitmap, wait queues with timeouts, and the counting mutex on
  top of them (`Sched`, `SchedOps`, `SchedLaws`, `Kernel`, `Mutex`, `MutexCode`, `WaitOrder`), and the timer queue
  (`Timer`, `TimerCode`);
- the physical page arenas and the virtual region list above them (`Pmm`, `PmmCode`, `Vmm`, `VmmCode`);
- the storage stack: a write-back LRU block cache, the byte interface over whole-block transfers, and
  subdevices (`Bcache`, `BcacheOps`, `BcacheLru`, `BcacheCode`, `Bio`, `BioCode`);
- the in-place quicksort, the in-place path normaliser, the init-hook loop, the message port with its
  travelling ring buffer, and the boot image writer and validator (`Qsort`, `Path`, `PathCode`, `Init`, `Port`,
  `PortCode`, `Bootimage`, `BootimageCode`, `BootimageSeal`).

A module named after a component holds the state as a value, the operations as functions and the theorems
about them.  The module beside it (`...Code`, `Kernel`, `Mmu.Aspace`) holds the imperative code: classes whose
fields are what the C code updates, and methods with the C code's loops and branches, proved against those
functions.  `Arith`, `Align`, `Bits`, `Lists`, `Octets` and `Wrappers` are shared arithmetic, bits, lists, bytes
and `Option`.

`dafny verify dfyconfig.toml` checks everything.

## Modelling choices

- Code that runs under one lock is one atomic step.  `wait_queue_block` and `mutex_acquire_timeout` are two
  steps each: going to wait, and running again.
- What the code cannot decide by itself is a parameter: the answers of a block driver, whether the heap had
  room, whether page tables could be had under `vmm_alloc`, whether a timer callback cancels its timer, the
  SHA-256 function.  Each call to a block driver has an answer of its own.
- Integer widths are written out where the code depends on them: 32-bit page and block counts, 64-bit
  addresses, signed 64-bit file offsets, the wrapping 32-bit clock, 64-bit descriptors as `bv64`.
- Page tables are a memory of 64-bit words with a `Tree` value beside it; the code reads and writes the words
  only, through the same masks as the source, and the tree is ghost.  Entries per top table, number of levels and
  largest block are parameters, so one proof covers the kernel's and the user's address spaces with 4 KiB pages.
  Physical addresses are 64-bit words (`Descriptor.AddressNumber`, `Descriptor.AddressWraps`, `Mmu.AlignWraps`),
  and page tables lie below byte 2^48.
- The scheduler starts from the state in which every cpu has become idle.  An idle thread does not block, sleep,
  exit or wake others with a reschedule, which the code asserts or its callers respect.

## Where the code and its promises differ

Each of these is proved both ways: on the inputs named the promise fails, and on all others it holds.  Most items
end with a concrete input on which the promise fails; in the others it fails on every input the condition leaves out.

- `unmap` removes a whole block when the range asked for covers part of it (`PageTree.UnmapExact`,
  `PageTree.StraddlingBlock`).
- A query gives a mapping back exactly when the address lies below byte 2^48 and the flags do not name the fourth
  cache mode, for which an error code is stored as attributes; the map call accepts both (`Descriptor.EntryBack`,
  `Mmu.Aspace.Map`, `Mmu.RangeSeen`, `Descriptor.HighAddressLost`, `Descriptor.CacheModeLost`).
- A mutex waiter that timed out keeps its place in the count until it runs again.  An acquire that finds only
  such places waits with nobody left to wake it, and waits forever if it set no timeout (`Mutex.ServedStep`,
  `Mutex.LostWakeup`, `Mutex.StuckForever`, `Mutex.LostWakeupHappens`).
- A cache slot changed through its pointer and put back without being marked dirty is lost on eviction
  (`BcacheOps.PutKeeps`, `BcacheOps.CarelessPut`, `BcacheOps.CarelessLoss`).
- `divpow2` takes its argument in 32 bits.  The default byte read and write act at the offset modulo 2^32, and
  copy past their one-block buffer when 2^32 bytes or more remain for the direct middle transfer
  (`Bio.ReadExact`, `Bio.WriteExact`, `BioCode.BlockDevice.DefaultRead`, `BioCode.BlockDevice.DefaultWrite`).
- For the same reason an access to a subdevice stays inside its window exactly when the forwarded offset does not
  come down in front of the window (`Bio.WindowWrites`, `Bio.WindowReads`, `BioCode.Subdevice.Write`,
  `BioCode.EscapingWrite`).
- The two trim functions overflow for ranges that end past the largest offset or block number (`Bio.TrimIs`,
  `Bio.TrimBlocksIs`).
- `pmm_alloc_contiguous` adds start and count in 32 bits, and rounds in 32 bits: for some huge counts it reads
  past the page array, for alignments of 2^44 bytes and more it can search the same start forever
  (`PmmCode.FindRun`, `PmmCode.OverrunArena`, `PmmCode.SpinArena`).
- `vmm_alloc_contiguous` passes its page count on in 32 bits; when there is a run for the truncated count, the
  call fails and the run stays taken (`VmmCode.AddressSpace.AllocContiguous`, `VmmCode.LeakingAlloc`).
- The boot image validator does not bound the entry count of the image, and looks past the image exactly when
  all entries before its end are good and the count says there are more (`BootimageCode.Validate`,
  `Bootimage.CrammedImage`).

Two details follow the code rather than its comments: `nusa_init_level` includes its stop level, which its
header calls exclusive, and of the 17 characters of the boot magic the format holds and compares 16.

## Model

| member | source | states |
|---|---|---|
| `Mmu.Aspace.constructor` | arch/arm64/mmu.c:585-627 | a new address space has one table, the root, and translates nothing |
| `Mmu.Aspace.Map` | arch/arm64/mmu.c:510-548 | each error code exactly when it is due; otherwise the translation is extended by exactly vaddr+i to paddr+i with the flags and the frames used are exactly those demanded, or, exactly when a slot is occupied or the free frames do not cover the tables needed, every translation is as before; in memory every page of the range is mapped by a word with the frame and, bit by bit, the permissions, memory type and execute-never bits the flags ask for; a query of the new range gives the addresses and flags back if and only if the range ends by byte 2^48 and the cache mode is not the fourth; the tables in use stay exactly those reachable from the root and no frame is lost |
| `Mmu.Aspace.MapRoot` | arch/arm64/mmu.c:456-482 | the same for the call on the root table: success exactly when the demand for tables can be met |
| `Mmu.Aspace.Unmap` | arch/arm64/mmu.c:550-583 | each error code exactly when it is due; on success a walk of memory finds nothing for any page of the range, every page of a block not touching the range is kept, and no empty sub-table is left on any path through the range |
| `Mmu.Aspace.UnmapRoot` | arch/arm64/mmu.c:484-508 | the same for the call on the root table |
| `Mmu.Aspace.Query` | arch/arm64/mmu.c:93-210 | found exactly when the address is translated; address and flags are those masked out of the stored word, whatever mix of blocks and pages holds it |
| `Mmu.Aspace.Fetch` | arch/arm64/mmu.c:136-138 | the type bits of a stored word tell what it stands for, and the address bits of a table word give the table back |
| `Mmu.Aspace.WriteEntry` | arch/arm64/mmu.c:431-439 | storing the word of an entry changes that entry only |
| `Mmu.Aspace.Walk` | arch/arm64/mmu.c:132-159 | the loop over memory descriptors computes the lookup in the tree |
| `Mmu.Aspace.IsClear` | arch/arm64/mmu.c:301-314 | true exactly when every descriptor is invalid |
| `Mmu.Aspace.AllocTable` | arch/arm64/mmu.c:212-243 | fails exactly when no frame is free; otherwise a frame not in use becomes a table of invalid descriptors |
| `Mmu.Aspace.FreeTable` | arch/arm64/mmu.c:245-260 | callable only on a table that holds no entry; its frame is free again |
| `Mmu.Aspace.GetTable` | arch/arm64/mmu.c:262-299 | finds or makes the table behind a slot without changing any translation; fails exactly on a leaf or when a table is missing and no frame is free |
| `Mmu.Aspace.UnmapPt` | arch/arm64/mmu.c:316-372 | the recursive unmap clears the range, keeps the rest, leaves no empty table on a visited path, and gives every frame it unlinks back |
| `Mmu.Aspace.UnmapTurn` | arch/arm64/mmu.c:332-371 | one turn of the loop extends the unmapped range to the end of the slot and makes progress |
| `Mmu.Aspace.UnmapChunk` | arch/arm64/mmu.c:339-367 | one slot: only that slot changes, and the part of the range in it is unmapped |
| `Mmu.Aspace.UnmapTable` | arch/arm64/mmu.c:341-355 | the branch that descends into a sub-table unmaps exactly what the recursive call unmapped there |
| `Mmu.Aspace.Prune` | arch/arm64/mmu.c:349-355 | a sub-table is unlinked and freed exactly when it holds no entry, whether that was read off it or follows from a full chunk |
| `Mmu.Aspace.MapPt` | arch/arm64/mmu.c:374-454 | the recursive map either maps the whole range or, after its rollback, changes no translation; which of the two is decided by the demand for frames and free slots computed beforehand |
| `Mmu.Aspace.MapTurn` | arch/arm64/mmu.c:401-445 | one turn maps the range up to the end of the slot and uses exactly the frames demanded, or shows that the demand could not be met |
| `Mmu.Aspace.MapChunk` | arch/arm64/mmu.c:406-440 | one slot: a block, a page or a descent, and only that slot changes; the frames used are those demanded |
| `Mmu.Aspace.MapLeafAt` | arch/arm64/mmu.c:423-440 | the OR of address, attributes and type is stored in an unused slot and maps exactly the span of the slot; a used slot is left alone |
| `Mmu.Aspace.MapTable` | arch/arm64/mmu.c:408-422 | the descent meets the slot's demand: one frame if the table was missing, plus what the table below needs |
| `Mmu.Aspace.RollBack` | arch/arm64/mmu.c:449-453 | unmapping what was mapped so far restores every translation |
| `Mmu.RolledBack` | arch/arm64/mmu.c:449-453 | a map of a fresh range followed by an unmap of the same range leaves every translation as it was |
| `Mmu.WholeTable` | arch/arm64/mmu.c:349-354 | a table unmapped from end to end is empty, so freeing it unread is safe |
| `Mmu.TableServed` | arch/arm64/mmu.c:411-422 | what the recursive call comes to, in translation and in frames, is what the slot comes to |
| `Mmu.EncodeType` | arch/arm64/mmu.c:268-291 | the low two bits of a stored word determine its kind, and only an invalid entry is the zero word |
| `Mmu.SeenIs` | arch/arm64/mmu.c:132-210 | what a query sees of a page is its frame and its flags if and only if the frame lies below byte 2^48 and the cache mode is not the fourth, also inside a block |
| `Mmu.RangeSeen` | arch/arm64/mmu.c:93-210 | and of a whole range just mapped, if and only if the range ends by byte 2^48 |
| `Mmu.ReachIs` | arch/arm64/mmu.c:132-159 | a walk of the words in memory, choosing by their low two bits, finds exactly the translations of the tree, each in the word stored for it |
| `Mmu.RangeStored` | arch/arm64/mmu.c:401-445 | after a map, memory holds for every page of the range a word for its frame and its flags |
| `Mmu.RangeCleared` | arch/arm64/mmu.c:332-371 | after an unmap, memory holds nothing for any page of the range |
| `Mmu.AlignWraps` | arch/arm64/mmu.c:406-408 | the alignment test does not see the wrap of a 64-bit physical address |
| `PageTree.LookExtent` | arch/arm64/mmu.c:93-163 | the block around a translated page lies inside the slot that maps it |
| `PageTree.LookBlock` | arch/arm64/mmu.c:93-163 | every page of a block is translated by that block |
| `PageTree.LookAligned` | arch/arm64/mmu.c:406-440 | every block is aligned to its own size in physical memory |
| `PageTree.BlockCost` | arch/arm64/mmu.c:406-440 | mapping one whole aligned slot of a block level needs no table, and to a frame that is not aligned at least one |
| `PageTree.UnmapExact` | arch/arm64/mmu.c:316-372 | an unmap removes exactly the range asked for if and only if no block reaches over either end of it |
| `PageTree.StraddlingBlock` | arch/arm64/mmu.c:339-367 | unmapping the first page of a mapped 2 MiB block removes its other pages too |
| `PageTree.MapUnmap` | arch/arm64/mmu.c:316-454 | unmapping what was just mapped restores every translation |
| `PageTree.RunAgrees` | arch/arm64/mmu.c:316-454 | over every run of maps and unmaps that splits no block, the tree translates each page as the last call that touched it says |
| `PageTree.BareTree` | arch/arm64/mmu.c:301-314 | a tree that translates nothing and hides no empty table has no entry |
| `Descriptor.FlagsRoundTrip` | arch/arm64/mmu.c:41-210 | for every page-aligned address, flags come back from a query unchanged if and only if they do not name the fourth cache mode and the address does not set the execute-never bit they leave clear |
| `Descriptor.AddressRoundTrip` | arch/arm64/mmu.c:431-436 | the masks recover the type of every leaf descriptor, and its address if and only if that lies within the address bits and either the cache mode is not the fourth or all address bits are set |
| `Descriptor.TableBack` | arch/arm64/mmu.c:283-291 | a table descriptor gives back the frame of the table |
| `Descriptor.TypeBack` | arch/arm64/mmu.c:431-436 | a stored leaf or table word has the type it was given and is not the invalid word, whatever its address and attributes |
| `Descriptor.LeafWord` | arch/arm64/mmu.c:41-91 | for every frame and all flags the word stored says, by the bit numbers of the format: 7 read-only, 6 user, 10 accessed, 8-9 shareable when cached, 2-4 memory type, 5 non-secure, 54 and 53 execute-never, the address, and no other bit; for the fourth cache mode nearly all bits are set |
| `Descriptor.PlainPage` | arch/arm64/mmu.c:431-439 | frame 1 mapped with no flags is the word 0x004000000000170b |
| `Descriptor.EntryBack` | arch/arm64/mmu.c:41-210 | frame and flags of a mapping come back from its word if and only if the frame lies below byte 2^48 and the cache mode is not the fourth |
| `Descriptor.HighAddressLost` | arch/arm64/mmu.c:431-436 | a mapping of physical byte 2^53 is read back as a mapping of byte 0 |
| `Descriptor.CacheModeLost` | arch/arm64/mmu.c:54-58 | a mapping of frame 1 with the fourth cache mode is read back as the last frame below byte 2^48, and its flags cannot be decoded |
| `Descriptor.AddressNumber` | arch/arm64/mmu.c:431-431 | the word of a frame is its byte address |
| `Descriptor.AddressWraps` | arch/arm64/mmu.c:443-443 | and wraps at 2^64 |
| `Sched.TopIs` | kernel/thread.c:434-460 | the pick is the first in queue order of the highest priority among ready threads unpinned or pinned to this cpu, and the idle thread if and only if there is none |
| `Sched.ReschedKeeps` | kernel/thread.c:472-603 | a reschedule leads from any state whose current thread has left the running state back to one that meets the global invariant |
| `Sched.WakeKeeps` | kernel/thread.c:1153-1189 | taking a blocked thread off its wait queue and making it ready keeps bitmap, run queues, wait queues and counts right and touches no other thread |
| `Sched.BlockKeeps` | kernel/thread.c:1104-1121 | putting the current thread on a wait queue keeps all of it but that a cpu now waits for a reschedule |
| `SchedLaws.TopHands` | kernel/thread.c:434-460 | from the run queues the cpu goes to the first thread it may run of the highest priority that has one, or to its idle thread when none has; the queues are otherwise as they were |
| `SchedLaws.SwitchIs` | kernel/thread.c:472-603 | a reschedule hands the cpu over so; who takes over from another gets a fresh quantum of 5 exactly when none was left, and no other record changes but for the cpu it ran on |
| `SchedLaws.TailTurnIs` | kernel/thread.c:614-676 | a thread put behind its equals runs on exactly when no ready thread of its own or a higher priority may run here; otherwise it is last of its priority, and with nothing higher the first of its equals that may run does |
| `SchedLaws.HeadTurnIs` | kernel/thread.c:650-676 | a thread put before its equals runs on exactly when no ready thread of a higher priority may run here; otherwise it is first of its priority |
| `SchedLaws.YieldIs` | kernel/thread.c:614-633 | a yield puts the thread behind its equals with no quantum |
| `SchedLaws.PreemptIs` | kernel/thread.c:650-676 | a preemption puts it before its equals while it has quantum and behind them after |
| `SchedLaws.SetPriorityIs` | kernel/thread.c:831-847 | a change of priority, clamped to 1 to 31, puts it before its new equals |
| `SchedLaws.SleepIs` | kernel/thread.c:755-771 | a sleeping thread is in no queue |
| `SchedLaws.BlockIs` | kernel/thread.c:1104-1129 | a blocking thread is last of those who wait |
| `SchedLaws.WakeOneIs` | kernel/thread.c:1153-1189 | a wake takes the first waiter and puts it before its equals; with a reschedule it runs at once exactly when it may run here, has at least the caller's priority and nothing higher is ready |
| `SchedLaws.WakeAllIs` | kernel/thread.c:1206-1254 | every waiter becomes ready, those of a priority before their equals in waiting order, and with a reschedule before the caller |
| `SchedLaws.ExitIs` | kernel/thread.c:385-427 | the thread is dead, and every thread that joins a joinable one is ready or running with answer 0 |
| `SchedLaws.TimesOutIs` | kernel/thread.c:1282-1303 | only the thread that timed out leaves its wait queue, from wherever it was |
| `SchedOps.WakeAllOrder` | kernel/thread.c:1206-1254 | wake-all puts the waiters of each priority, in their waiting order, in front of that run queue |
| `SchedOps.NextKeeps` | kernel/thread.c:80-1303 | every scheduler step keeps the global invariant: bitmap, run queues, wait queues, their counts, and running threads against current ones |
| `SchedOps.RunKeeps` | kernel/thread.c:80-1303 | the invariant holds in every state of every run |
| `SchedOps.BootOk` | kernel/thread.c:778-803 | and in the state the kernel starts from, for every number of cpus |
| `Kernel.Scheduler.constructor` | kernel/thread.c:778-803 | every cpu runs its idle thread and all queues are empty |
| `Kernel.Scheduler.InsertInRunQueue` | kernel/thread.c:80-100 | head or tail insertion, with the bit of the priority set |
| `Kernel.Scheduler.GetTopThread` | kernel/thread.c:434-460 | the search driven by the bitmap refines the plain pick over all queues and leaves the order of all other threads alone |
| `Kernel.Scheduler.TakeFrom` | kernel/thread.c:442-454 | the walk along one queue unlinks the first eligible thread and clears the bit exactly when the queue is left empty |
| `Kernel.Scheduler.Reschedule` | kernel/thread.c:472-603 | hands the cpu to the first thread it may run of the highest priority that has one, with the quantum rule, and restores the global invariant |
| `Kernel.Scheduler.ThreadYield` | kernel/thread.c:614-633 | the thread goes behind its equals with no quantum and runs on exactly when nothing of its own or a higher priority may run here, invariant kept |
| `Kernel.Scheduler.ThreadPreempt` | kernel/thread.c:650-676 | the thread goes before its equals while it has quantum left and behind them after that: with equals ready and nothing higher it runs on exactly when its quantum was positive, else the first of them that may run does, invariant kept |
| `Kernel.Scheduler.ThreadSetPriority` | kernel/thread.c:831-847 | the priority is clamped to 1 to 31, the thread goes before its new equals and runs on exactly when nothing higher may run here, invariant kept |
| `Kernel.Scheduler.ThreadTimerTick` | kernel/thread.c:714-726 | takes one off the quantum of an ordinary thread, and asks for a reschedule exactly when none is left |
| `Kernel.Scheduler.ThreadSleep` | kernel/thread.c:755-771 | a sleeping thread is in no queue and another thread runs |
| `Kernel.Scheduler.Readied` | kernel/thread.c:729-743 | the sleep handler makes the thread ready at the head of its queue |
| `Kernel.Scheduler.ThreadResume` | kernel/thread.c:278-300 | a suspended thread becomes ready, any other is left alone, and the result says which |
| `Kernel.Scheduler.ThreadExit` | kernel/thread.c:385-427 | the thread dies, every thread that joins it is ready or running with answer 0 if it was joinable, and another runs |
| `Kernel.Scheduler.WaitQueueBlock` | kernel/thread.c:1104-1129 | no time to wait means no change; otherwise the thread is last of the queue and another runs |
| `Kernel.Scheduler.WaitQueueReturn` | kernel/thread.c:1131-1136 | the resumed thread gets the answer its waker left and its timer is cancelled |
| `Kernel.Scheduler.WaitQueueWakeOne` | kernel/thread.c:1153-1189 | wakes the first waiter, if there is one, puts it before its equals, and says how many were woken; with a reschedule, exactly when it runs at once |
| `Kernel.Scheduler.WaitQueueWakeAll` | kernel/thread.c:1206-1254 | wakes every waiter, in waiting order before their equals, and says how many there were |
| `Kernel.Scheduler.WakeEach` | kernel/thread.c:1226-1242 | the loop is the recursive wake from the tail |
| `Kernel.Scheduler.TimeOut` | kernel/thread.c:1069-1303 | a timeout takes exactly this thread off its queue, exactly when it is still blocked |
| `Mutex.InitOk` | kernel/mutex.c:41-43 | a new mutex meets the mutex invariant |
| `Mutex.StepKeeps` | kernel/mutex.c:77-140 | every step of the mutex or of anything else in the kernel keeps it: at most one thread holds the mutex or has been granted it, and the count is what it should be |
| `Mutex.RunKeeps` | kernel/mutex.c:77-140 | it holds in every state of every run, with any timeouts |
| `Mutex.Exclusive` | kernel/mutex.c:77-140 | two threads that hold the mutex or have been granted it are the same thread |
| `Mutex.CountIs` | kernel/mutex.c:77-140 | the count is one for the owner, plus the queued, plus those timed out and not yet backed out |
| `Mutex.ServedStep` | kernel/mutex.c:77-114 | a step keeps the promise that a non-empty queue has an owner to wake it if and only if it is not a blocking acquire of a mutex whose count stands for expired waiters only |
| `Mutex.RunServed` | kernel/mutex.c:77-140 | in every run without finite non-zero timeouts a non-empty queue has an owner, present or granted |
| `Mutex.StuckForever` | kernel/mutex.c:77-140 | a thread waiting without timeout and without an owner is never woken by any step |
| `Mutex.LostWakeup` | kernel/mutex.c:77-114 | from any state in which the thread of one busy cpu holds the mutex, nobody is inside an acquire and another cpu is busy, four steps lead to such a thread |
| `Mutex.PairOk` | kernel/mutex.c:77-114 | a state of two busy cpus, one holding the mutex, meets the mutex invariant |
| `Mutex.LostWakeupHappens` | kernel/mutex.c:77-114 | from it the four steps lead to a holder that waits forever |
| `Mutex.ReleaseWakes` | kernel/mutex.c:131-136 | the wake of a release grants the mutex to the first waiter, and nobody else changes role |
| `Mutex.ReleaseGrants` | kernel/mutex.c:119-140 | a release grants the mutex to the first waiter, and to nobody when nobody waits |
| `WaitOrder.NextKept` | kernel/thread.c:1104-1303 | no scheduler step lets anybody overtake anybody on any wait queue |
| `WaitOrder.LongestWoken` | kernel/thread.c:1104-1189 | over any run, whoever a wake-one wakes has been waiting for as long as anyone on the queue |
| `WaitOrder.StepKept` | kernel/mutex.c:77-140 | no step of the mutex or the kernel lets anybody overtake anybody waiting for it |
| `WaitOrder.LongestGranted` | kernel/mutex.c:77-140 | over any run, whoever a release grants the mutex to has been waiting for it as long as anyone |
| `MutexCode.KernelMutex.constructor` | kernel/mutex.c:41-43 | an unheld mutex with an empty queue |
| `MutexCode.KernelMutex.AcquireTimeout` | kernel/mutex.c:77-114 | takes the mutex at once exactly when free, changes nothing when there is no time to wait, and otherwise goes to the end of its queue; refines the mutex step |
| `MutexCode.KernelMutex.AcquireReturn` | kernel/mutex.c:91-113 | a resumed waiter holds the mutex if and only if it was woken with success, and backs out of the count otherwise |
| `MutexCode.KernelMutex.Unlock` | kernel/mutex.c:119-140 | release grants the mutex to the first waiter, which runs at once when its priority allows it, and to nobody when nobody waits; keeps the invariant |
| `Qsort.QSort` | lib/libc/qsort.c:86-163 | for every length and every total preorder the array ends as a sorted permutation of its input, and the sort terminates |
| `Qsort.Sort` | lib/libc/qsort.c:86-163 | the same for a part of the array, nothing outside it touched: recursion on the left part, iteration on the right, both strictly smaller |
| `Qsort.Turn` | lib/libc/qsort.c:91-162 | one pass of the loop leaves a sorted prefix that splits off a strictly smaller rest |
| `Qsort.Divide` | lib/libc/qsort.c:114-161 | a pass with its pivot in place: insertion sort if nothing was swapped, else recursion on the left |
| `Qsort.ThreeWay` | lib/libc/qsort.c:116-153 | elements below, equal to and above the pivot end up in three consecutive parts |
| `Qsort.Partition` | lib/libc/qsort.c:116-140 | the four pointers part the range with equal keys parked at both ends |
| `Qsort.ScanUp` | lib/libc/qsort.c:118-125 | the upward scan keeps the parting and stops only at a larger element |
| `Qsort.ScanDown` | lib/libc/qsort.c:126-133 | the downward scan keeps the parting and stops only at a smaller element |
| `Qsort.Gather` | lib/libc/qsort.c:149-153 | the two block swaps bring the equal keys to the middle |
| `Qsort.VecSwap` | lib/libc/qsort.c:61-77 | two blocks of elements change places, nothing else moves |
| `Qsort.InsertionSort` | lib/libc/qsort.c:94-100 | sorts its range and permutes nothing else |
| `Qsort.Med3Is` | lib/libc/qsort.c:79-83 | the element chosen of three has the others on both sides of it |
| `Qsort.ChoosePivot` | lib/libc/qsort.c:101-113 | the pivot, of whatever size class, is an element of the range |
| `Path.Idempotent` | lib/fs/fs.c:513-644 | normalising a normalised path changes nothing |
| `Path.FoldJoin` | lib/fs/fs.c:513-644 | reading joined components back gives those components |
| `Path.DotVanishes` | lib/fs/fs.c:586-603 | a lone dot makes no difference |
| `Path.DotDotDrops` | lib/fs/fs.c:608-635 | neither does a component with two dots after it |
| `Path.DotDotOnTop` | lib/fs/fs.c:608-635 | two dots with nothing left to drop make the path relative |
| `Path.NormalText` | lib/fs/fs.c:513-644 | a normalised C string is still one |
| `PathCode.Normalize` | lib/fs/fs.c:513-644 | the in-place rewrite computes the left-to-right fold over components, terminates, and leaves the bytes after the old terminator alone |
| `PathCode.Turn` | lib/fs/fs.c:536-637 | one turn of the scanner keeps the fold, reads only unwritten characters and makes progress |
| `PathCode.Put` | lib/fs/fs.c:563-563 | a write lands before the read position |
| `PathCode.BackUp` | lib/fs/fs.c:612-623 | the backward walk ends where the last emitted component starts |
| `PathCode.InFieldTurn` | lib/fs/fs.c:557-566 | a turn inside a component copies it |
| `PathCode.SeenDotTurn` | lib/fs/fs.c:586-603 | a lone dot vanishes, a dot that starts a longer name is emitted |
| `PathCode.SeenDotDotTurn` | lib/fs/fs.c:608-635 | two dots drop the last component, or the leading slash when only that is left |
| `PathCode.Finish` | lib/fs/fs.c:639-643 | dropping one trailing slash and terminating yields the rendered components |
| `Init.InitLevel` | top/init.c:31-89 | the hooks called are exactly those with the flag and a level in the range, each once, ordered by level and then by position |
| `Init.FindNext` | top/init.c:42-74 | with only the last hook and its level for memory, a pass finds the next hook in that order, or that there is none |
| `Init.Determined` | top/init.c:31-89 | the order of calls is determined by flag and range |
| `Init.Adjacent` | top/init.c:31-89 | runs over adjacent ranges concatenate to the run over their union |
| `Init.BootIsOneRun` | top/main.c:64-135 | the eleven ranges used at boot make up one run over all levels |
| `Bcache.HomeIs` | lib/bcache/bcache.c:108-130 | a block has at most one slot, and the lookup finds it |
| `Bcache.CleanedView` | lib/bcache/bcache.c:74-88 | writing a slot back changes no block as a reader sees it |
| `Bcache.ClaimView` | lib/bcache/bcache.c:133-164 | giving a slot to a new block changes the view of that block only |
| `Bcache.VictimIs` | lib/bcache/bcache.c:133-164 | no slot can be had exactly when every slot is cached and pinned |
| `Bcache.FilledKeeps` | lib/bcache/bcache.c:166-196 | a miss evicts without losing data and shows the filled block |
| `Bcache.FilledPins` | lib/bcache/bcache.c:166-196 | a miss leaves every pinned slot in place |
| `Bcache.FlushedDevice` | lib/bcache/bcache.c:289-305 | after a flush the device equals the view if and only if the slots already clean equalled it |
| `BcacheOps.FillKeeps` | lib/bcache/bcache.c:166-196 | find-or-fill keeps the view, pins and coherence |
| `BcacheOps.GetKeeps` | lib/bcache/bcache.c:213-231 | a get pins one block once more and changes nothing a reader sees |
| `BcacheOps.PutKeeps` | lib/bcache/bcache.c:233-247 | a put keeps clean unpinned slots equal to the device if and only if the block was dirty, unchanged or still pinned |
| `BcacheOps.MarkDirtyKeeps` | lib/bcache/bcache.c:249-264 | marking dirty changes no block's contents |
| `BcacheOps.ZeroKeeps` | lib/bcache/bcache.c:266-287 | zeroing changes one block of the view |
| `BcacheOps.FlushKeeps` | lib/bcache/bcache.c:289-305 | a flush keeps the view and leaves nothing dirty, with the exact condition for the device to equal it |
| `BcacheOps.FlushSettles` | lib/bcache/bcache.c:289-305 | with nothing pinned, a coherent cache flushes to a device equal to the view |
| `BcacheOps.HeldStays` | lib/bcache/bcache.c:108-305 | no operation evicts or moves a pinned slot |
| `BcacheOps.NextKeeps` | lib/bcache/bcache.c:108-305 | every operation acts on the view as on a plain block array |
| `BcacheOps.RunAgrees` | lib/bcache/bcache.c:108-305 | over every careful run the cache and the plain block array agree |
| `BcacheOps.CarelessPut` | lib/bcache/bcache.c:233-247 | a concrete client that changes a block and puts it back clean |
| `BcacheOps.CarelessLoss` | lib/bcache/bcache.c:133-196 | the next miss loses its change |
| `BcacheLru.VictimAt` | lib/bcache/bcache.c:133-164 | the slot taken is the first free one, else the first on the list that nobody holds |
| `BcacheLru.NextOrder` | lib/bcache/bcache.c:108-305 | how each operation changes the order of the list: a hit to the end, a miss to the end in a free slot or in place of the first block that nobody holds |
| `BcacheLru.RunByUse` | lib/bcache/bcache.c:108-305 | over any run from an empty cache the list is in the order of last use, as the operations made tell it |
| `BcacheLru.OldestEvicted` | lib/bcache/bcache.c:133-196 | a block leaves the cache only when a miss finds no free slot; nobody holds it, and of those its last read, get, put, mark or zero is the oldest |
| `BcacheLru.MissEvicts` | lib/bcache/bcache.c:133-196 | and then one does leave, and the new block is cached |
| `BcacheCode.Cache.constructor` | lib/bcache/bcache.c:48-72 | an empty cache shows the device |
| `BcacheCode.Cache.FlushBlock` | lib/bcache/bcache.c:74-88 | one slot written back |
| `BcacheCode.Cache.FindBlock` | lib/bcache/bcache.c:108-130 | finds the one slot of the block and moves it from its place to the end of the list; without one changes nothing |
| `BcacheCode.Cache.AllocBlock` | lib/bcache/bcache.c:133-164 | the first free slot, else the first on the list that nobody holds, written back first; it goes to the end of the list |
| `BcacheCode.Cache.FindOrFill` | lib/bcache/bcache.c:166-196 | the block is in the slot returned |
| `BcacheCode.Cache.ReadBlock` | lib/bcache/bcache.c:198-211 | returns the block of the view |
| `BcacheCode.Cache.GetBlock` | lib/bcache/bcache.c:213-231 | pins the slot returned, which holds the block of the view |
| `BcacheCode.Cache.PutBlock` | lib/bcache/bcache.c:233-247 | unpins it |
| `BcacheCode.Cache.MarkBlockDirty` | lib/bcache/bcache.c:249-264 | succeeds exactly when the block is cached |
| `BcacheCode.Cache.ZeroBlock` | lib/bcache/bcache.c:266-287 | succeeds exactly when there is a slot for the block |
| `BcacheCode.Cache.FlushAll` | lib/bcache/bcache.c:289-305 | the loop is the flush of the model |
| `Pmm.CountIs` | kernel/vm/pmm.c:64-140 | free_count is the length of the free list and the number of pages not flagged |
| `Pmm.TakeGive` | kernel/vm/pmm.c:108-231 | taking pages and giving the same pages back in any order changes no flag and no count |
| `Pmm.TookMore` | kernel/vm/pmm.c:123-134 | taking one more free page adds exactly that page to those taken |
| `Pmm.GaveMore` | kernel/vm/pmm.c:201-231 | giving one page back removes exactly that page from those taken |
| `Pmm.FreeSeqAt` | kernel/vm/pmm.c:117-134 | pages are handed out in the order of the free lists, one arena after the other |
| `PmmCode.PhysMem.constructor` | kernel/vm/pmm.c:24-24 | no arenas |
| `PmmCode.PhysMem.AddArena` | kernel/vm/pmm.c:64-106 | a new arena, all free, takes its place after those of its priority and below and before the first above |
| `PmmCode.PhysMem.PlaceFor` | kernel/vm/pmm.c:71-81 | the walk finds that place |
| `PmmCode.PhysMem.AllocPages` | kernel/vm/pmm.c:108-140 | takes exactly the first pages of the free lists in arena order, as many as asked for or as there are, and changes nothing else |
| `PmmCode.PhysMem.Drain` | kernel/vm/pmm.c:123-134 | the loop over one arena takes from the head of its list until enough or empty |
| `PmmCode.PhysMem.Free` | kernel/vm/pmm.c:201-231 | every page goes back to its own arena and is counted |
| `PmmCode.PhysMem.ArenaOf` | kernel/vm/pmm.c:215-226 | the arena whose page array holds the page |
| `PmmCode.FindRun` | kernel/vm/pmm.c:304-331 | within an arena the skipping search returns the lowest aligned free run, or none if and only if there is none, or leaves the array or never ends exactly under the stated arithmetic conditions |
| `PmmCode.OverrunArena` | kernel/vm/pmm.c:313-321 | a two-page arena whose search for 2^32 - 1 pages reads past the page array |
| `PmmCode.SpinArena` | kernel/vm/pmm.c:316-324 | a two-page arena whose search for one page aligned to 2^44 bytes never ends |
| `PmmCode.SmallIsTame` | kernel/vm/pmm.c:316-324 | counts up to 2^31 pages with boundaries below 2^32 pages never meet those conditions |
| `PmmCode.Complete` | kernel/vm/pmm.c:285-361 | a tame search ends; it returns a run only where some KMAP arena has one, and nothing only if no KMAP arena has one |
| `PmmCode.GotIs` | kernel/vm/pmm.c:285-361 | the search gets a run if and only if the first KMAP arena that does not come to nothing has one |
| `PmmCode.GotFirst` | kernel/vm/pmm.c:285-361 | the run it gets is the lowest of that arena |
| `PmmCode.PhysMem.TakeRun` | kernel/vm/pmm.c:333-345 | exactly the pages of the run are flagged and unlinked |
| `PmmCode.PhysMem.AllocContiguous` | kernel/vm/pmm.c:285-361 | the lowest run in the first KMAP arena with one is taken and its address returned; nothing else changes |
| `Vmm.InGap` | kernel/vm/vmm.c:113-153 | a range inside a gap overlaps nothing and keeps the list sorted, disjoint and inside the space |
| `Vmm.SomeGap` | kernel/vm/vmm.c:113-153 | a range that fits and overlaps nothing lies in one gap |
| `Vmm.GapFull` | kernel/vm/vmm.c:170-211 | if the first aligned address of a gap does not do, nothing in the gap does |
| `Vmm.GapTaken` | kernel/vm/vmm.c:170-211 | and if it does, it is the lowest that does |
| `Vmm.GapWraps` | kernel/vm/vmm.c:170-211 | when rounding wraps, no aligned address is left, so stopping early loses nothing |
| `Vmm.RemoveOk` | kernel/vm/vmm.c:609-628 | removal keeps the list sorted, disjoint and inside the space |
| `Vmm.HeldInsert` | kernel/vm/vmm.c:485-588 | a region on freshly taken pages keeps every page on at most one region and flagged |
| `Vmm.HeldRemove` | kernel/vm/vmm.c:630-654 | so does dropping a region and giving its pages back |
| `VmmCode.InsideIs` | kernel/vm/vmm.c:50-67 | the overflow-aware check accepts exactly the ranges that fit |
| `VmmCode.PickSpot` | kernel/vm/vmm.c:160-211 | aligning the start of a gap decides the gap |
| `VmmCode.CheckGap` | kernel/vm/vmm.c:170-211 | a gap yields the lowest aligned address that does, or the search may go on, or stop, without missing one |
| `VmmCode.AllocSpot` | kernel/vm/vmm.c:213-248 | the lowest aligned address with enough free room, or none if and only if there is none |
| `VmmCode.FindPlace` | kernel/vm/vmm.c:113-153 | a specific-address add succeeds if and only if the range fits and overlaps nothing, with the right error otherwise |
| `VmmCode.RoundedIs` | lib/libc/include/stdlib.h:33-37 | rounding a size to pages is zero exactly for zero and for sizes that wrap |
| `VmmCode.SpotAligned` | kernel/vm/vmm.c:213-219 | a place found for a region is page aligned, so only the page tables can refuse to map it |
| `VmmCode.AddressSpace.constructor` | kernel/vm/vmm.c:656-696 | an empty space |
| `VmmCode.AddressSpace.AllocRegion` | kernel/vm/vmm.c:251-291 | places an empty region at the address asked for or at the lowest that does, and fails exactly when there is none |
| `VmmCode.AddressSpace.FindRegion` | kernel/vm/vmm.c:590-606 | the region that holds the address, or that none does |
| `VmmCode.AddressSpace.RemoveRegion` | kernel/vm/vmm.c:609-628 | that region off the list and unmapped |
| `VmmCode.AddressSpace.MapEach` | kernel/vm/vmm.c:540-559 | pages mapped so far are on the region in order, the others are still on the list, none is lost |
| `VmmCode.AddressSpace.Undo` | kernel/vm/vmm.c:568-580 | the error exit returns every page and restores the region list |
| `VmmCode.AddressSpace.Place` | kernel/vm/vmm.c:528-587 | a region on all the pages, mapped, or everything as before |
| `VmmCode.AddressSpace.Alloc` | kernel/vm/vmm.c:485-588 | succeeds if and only if the request is well formed, enough pages are free, the heap and the page tables answer and there is a place for the region; success puts exactly size/PAGE_SIZE pages on a region and maps them in order; every failure leaves regions, page flags, counts and other translations as they were |
| `VmmCode.AddressSpace.SeekRun` | kernel/vm/vmm.c:426-437 | the run asked for, with the count in 32 bits |
| `VmmCode.AddressSpace.PlaceRun` | kernel/vm/vmm.c:439-480 | a region on the run, mapped in one call, or everything as before |
| `VmmCode.AddressSpace.AllocContiguous` | kernel/vm/vmm.c:398-483 | succeeds if and only if the request is well formed, its page count fits 32 bits, there is a run and a place for it and heap and page tables answer; success puts exactly the run on a region and maps it; a failure conserves every page if and only if there is no run for a page count truncated to 32 bits |
| `VmmCode.LeakingAlloc` | kernel/vm/vmm.c:426-437 | with one free page, asking for 2^32 + 1 contiguous pages fails and takes the page |
| `VmmCode.AddressSpace.FreeRegion` | kernel/vm/vmm.c:630-654 | fails exactly when no region holds the address; otherwise exactly that region goes and exactly its pages become free |
| `VmmCode.Leaked` | kernel/vm/vmm.c:432-437 | pages taken and put nowhere differ from the state before |
| `VmmCode.AllocThenFree` | kernel/vm/vmm.c:485-654 | allocating and freeing a region changes no flag, no count and no other region |
| `Bio.PatchIs` | lib/bio/bio.c:129-245 | a write changes exactly its range of the image |
| `Bio.TrimIs` | lib/bio/bio.c:309-325 | the byte trim is exact if and only if the end of the range is a representable offset |
| `Bio.TrimBlocksIs` | lib/bio/bio.c:327-339 | the block trim is exact if and only if the end fits in 32 bits |
| `Bio.LandingIs` | lib/bio/bio.c:41-41 | the offset the code works at equals the one asked for if and only if that is below 2^32 |
| `Bio.ReadExact` | lib/bio/bio.c:33-127 | the default read returns the slice asked for, on every image, if and only if the offset is below 2^32 |
| `Bio.WriteExact` | lib/bio/bio.c:129-245 | the default write changes the slice asked for, on every image, if and only if the offset is below 2^32 |
| `Bio.PublishesIs` | lib/bio/subdev.c:163-167 | the wrapping bounds check accepts exactly the block ranges on the parent |
| `Bio.BlocksInside` | lib/bio/subdev.c:37-53 | a trimmed block access stays inside its (sub)device if and only if its end fits in 32 bits |
| `Bio.LandsBelow` | lib/bio/subdev.c:31-47 | an access inside a window never comes down past its end |
| `Bio.WindowWrites` | lib/bio/subdev.c:43-47 | a forwarded write leaves everything outside the window alone, for every parent image and all data, if and only if it does not come down in front of the window |
| `Bio.WindowReads` | lib/bio/subdev.c:31-35 | a forwarded read depends on the window only, if and only if it does not come down in front of the window |
| `BioCode.BlockDevice.constructor` | lib/bio/bio.c:494-570 | a device over an image of whole blocks |
| `BioCode.BlockDevice.ReadBlock` | lib/bio/bio.c:423-436 | the driver's blocks, or its error |
| `BioCode.BlockDevice.WriteBlock` | lib/bio/bio.c:453-466 | the blocks replaced, or nothing |
| `BioCode.BlockDevice.Split` | lib/bio/bio.c:40-45 | start block and place inside it add up to the offset modulo 2^32 |
| `BioCode.BlockDevice.ReadHead` | lib/bio/bio.c:44-65 | the partial first block |
| `BioCode.BlockDevice.ReadEach` | lib/bio/bio.c:74-90 | the middle blocks one by one |
| `BioCode.BlockDevice.ReadMany` | lib/bio/bio.c:91-104 | the middle blocks in one call; more than a block is left over exactly when the length did not fit 32 bits |
| `BioCode.BlockDevice.ReadTail` | lib/bio/bio.c:107-122 | the partial last block; runs past its buffer exactly when more than a block is left |
| `BioCode.BlockDevice.DefaultRead` | lib/bio/bio.c:33-127 | for every alignment, length, both middle branches and every set of driver answers, the bytes at the landing offset, and the exact condition for running past the buffer |
| `BioCode.BlockDevice.Update` | lib/bio/bio.c:142-163 | read-modify-write changes part of one block only |
| `BioCode.BlockDevice.WriteHead` | lib/bio/bio.c:140-170 | the partial first block |
| `BioCode.BlockDevice.WriteEach` | lib/bio/bio.c:180-196 | the middle blocks one by one |
| `BioCode.BlockDevice.WriteMany` | lib/bio/bio.c:197-213 | the middle blocks in one call |
| `BioCode.BlockDevice.WriteTail` | lib/bio/bio.c:216-240 | the partial last block |
| `BioCode.BlockDevice.DefaultWrite` | lib/bio/bio.c:129-245 | on every outcome, driver errors included, the image has a prefix of the buffer at the landing offset and is otherwise unchanged; on success all of it |
| `BioCode.BlockDevice.Read` | lib/bio/bio.c:368-381 | the part of the range on the device |
| `BioCode.BlockDevice.Write` | lib/bio/bio.c:438-451 | exactly the part of the range on the device is changed |
| `BioCode.Subdevice.constructor` | lib/bio/subdev.c:163-175 | a window of blocks on the parent |
| `BioCode.Subdevice.Read` | lib/bio/subdev.c:31-35 | the bytes of the parent where the forwarded offset comes down, which are those of the window when that is below byte 2^32; with a driver that never fails, exactly what the parent answers |
| `BioCode.Subdevice.Write` | lib/bio/subdev.c:43-47 | on every outcome the parent has a prefix of the buffer where the forwarded offset comes down and is otherwise unchanged; nothing outside the window changes unless that is in front of the window |
| `BioCode.Publish` | lib/bio/subdev.c:89-201 | a window is accepted exactly when it lies on the parent |
| `BioCode.EscapingWrite` | lib/bio/subdev.c:43-47 | through an accepted window at byte 2^32 of its parent, a write to the first byte changes byte 0 of the parent |
| `Port.NextKeeps` | kernel/port.c:200-454 | every operation keeps: accepted packets are those read followed by those in the buffer |
| `Port.RunKeeps` | kernel/port.c:200-559 | so does every run |
| `Port.InOrder` | kernel/port.c:200-559 | over any run of open, close, write and read the packets read are a prefix of the packets accepted, and the rest is in the buffer |
| `PortCode.RingBuf.constructor` | kernel/port.c:82-92 | an empty ring |
| `PortCode.RingBuf.Put` | kernel/port.c:102-106 | one packet at the end |
| `PortCode.RingBuf.Write` | kernel/port.c:98-108 | all of the packets or none |
| `PortCode.RingBuf.Read` | kernel/port.c:110-117 | the first packet, or that there is none |
| `PortCode.WritePort.constructor` | kernel/port.c:124-198 | a new port owns its buffer |
| `PortCode.WritePort.OpenReader` | kernel/port.c:200-268 | the first reader takes the buffer with its packets; a second is refused |
| `PortCode.WritePort.CloseReader` | kernel/port.c:532-559 | the buffer goes back to the write port with its packets |
| `PortCode.WritePort.WritePackets` | kernel/port.c:387-436 | accepted exactly when there is room for all, whoever owns the buffer |
| `PortCode.WritePort.ReadPacket` | kernel/port.c:438-489 | the oldest packet not read yet |
| `Timer.DiffIs` | lib/libc/include/sys/types.h:37-40 | within half the clock range the wrapping comparison is subtraction |
| `Timer.NextTimeIs` | kernel/timer.c:246-253 | a due periodic timer is put back strictly later, at now only if its period ends there |
| `Timer.Twice` | kernel/timer.c:212-254 | a timer fires twice in a tick exactly when it comes round at now itself, and never a third time |
| `Timer.InsertedOk` | kernel/timer.c:54-70 | insertion keeps the queue sorted by time and, for equal times, by insertion |
| `Timer.FireDrop` | kernel/timer.c:213-241 | a turn for a one-shot or cancelled timer keeps the tick invariant |
| `Timer.FireAgain` | kernel/timer.c:213-253 | so does a turn that puts the timer back |
| `Timer.RoundsIs` | kernel/timer.c:212-254 | a timer no longer due has fired exactly as often as its time and period say, at most twice |
| `Timer.TickEnds` | kernel/timer.c:212-254 | when nothing is due every timer has fired that often and is queued once, strictly later, or not at all |
| `Timer.LaterQueue` | kernel/timer.c:197-254 | a queue with nothing due is still in order at a later clock if and only if every timer and period stays within the comparison window of that clock |
| `Timer.NextTickOk` | kernel/timer.c:197-254 | it is so whenever timers, periods and the gap between ticks together stay within half the clock range |
| `Timer.StaysWithin` | kernel/timer.c:246-253 | a timer put back is no further ahead than it or its period was |
| `Timer.LoadLess` | kernel/timer.c:212-254 | every turn makes progress, so the tick ends |
| `TimerCode.TimerQueue.constructor` | kernel/timer.c:284-293 | an empty queue |
| `TimerCode.TimerQueue.InsertTimer` | kernel/timer.c:54-70 | before the first timer that is later, after all others |
| `TimerCode.TimerQueue.Fire` | kernel/timer.c:213-253 | one turn of the loop keeps the tick invariant and makes progress |
| `TimerCode.TimerQueue.PutBack` | kernel/timer.c:246-253 | one period on, or one period from now if that has passed |
| `TimerCode.TimerQueue.Tick` | kernel/timer.c:197-254 | firings come in nondecreasing scheduled time with equal times in insertion order; no due timer is left; each timer has fired as often as it should; the queue is sorted |
| `TimerCode.TimerQueue.TickWithin` | kernel/timer.c:197-254 | a tick leaves nothing due and no timer further ahead than the bound it found |
| `TimerCode.TimerQueue.RunTicks` | kernel/timer.c:197-254 | over every run of ticks that are not too far apart, across any number of clock wraps, each tick finds the queue in order and fires due timers only, in order |
| `Bootimage.LEBack` | lib/bootimage/include/lib/bootimage_struct.h:13-43 | a little-endian field reads back what was written |
| `Bootimage.FileFields` | lib/bootimage/include/lib/bootimage_struct.h:13-20 | the fields of a file entry read back |
| `Bootimage.TextFields` | lib/bootimage/include/lib/bootimage_struct.h:13-43 | the kind and the text of a string entry read back |
| `Bootimage.WordBytes` | lib/bootimage/include/lib/bootimage_struct.h:13-43 | words are four bytes, lowest first |
| `Bootimage.BuiltHeader` | lib/bootimage/bootimage.c:30-79 | a finished image passes the checks on its first page |
| `Bootimage.HeaderSealed` | lib/bootimage/bootimage.c:30-79 | a page that passes the checks spells out its name, and names the hash of the rest of it |
| `Bootimage.AcceptedSealed` | lib/bootimage/bootimage.c:84-130 | every file listed in an accepted image lies in it and has the hash its entry names |
| `Bootimage.DataAt` | tools/bootimage.c:62-139 | the bytes of a file are where its entry says |
| `Bootimage.CrammedImage` | lib/bootimage/bootimage.c:84-130 | an image of one page whose header is good and whose entry count is one too many, so that the walk leaves it |
| `Bootimage.BuiltAccepted` | lib/bootimage/bootimage.c:26-134 | every finished image is accepted |
| `Bootimage.BuiltLookup` | lib/bootimage/bootimage.c:178-202 | a lookup by type gives exactly the bytes of the first file added with it, or nothing when there is none |
| `BootimageCode.Builder.constructor` | tools/bootimage.c:30-48 | an image with its two fixed entries |
| `BootimageCode.Builder.AddString` | tools/bootimage.c:50-60 | refused exactly when the table is full or the string too long |
| `BootimageCode.Builder.AddFileData` | tools/bootimage.c:62-83 | refused exactly when the table is full; otherwise placed on the next page boundary |
| `BootimageCode.Builder.Done` | tools/bootimage.c:85-93 | size, count and hash of the other entries are filled in |
| `BootimageCode.Builder.Write` | tools/bootimage.c:115-139 | the bytes written for a finished builder are a finished image of its additions |
| `BootimageCode.Builder.WriteEntry` | tools/bootimage.c:121-134 | one turn pads to the file's offset and writes it |
| `BootimageCode.CheckHeader` | lib/bootimage/bootimage.c:30-79 | success exactly for a good first page; a checksum error exactly when its first entry is right and its hash is not that of the rest |
| `BootimageCode.CheckEntry` | lib/bootimage/bootimage.c:91-129 | success exactly for a good entry; a checksum error exactly for a file in range whose bytes do not have its hash; looks past the image exactly for one that lies past its end |
| `BootimageCode.EndFits` | lib/bootimage/bootimage.c:104-109 | the wrapping check accepts exactly the sections inside the image |
| `BootimageCode.CheckList` | lib/bootimage/bootimage.c:84-130 | the walk over the entries ends well exactly when all entries up to the end of the list are good, and in a checksum error exactly when the first that is not is a file with the wrong hash |
| `BootimageCode.Validate` | lib/bootimage/bootimage.c:26-134 | success exactly for acceptable images, with the trimmed length; after it the first page names itself and has the hash it names, and so has every file listed; a checksum error exactly when a hash is the first thing wrong; looks past the image exactly when the first entry that is not good lies past its end |
| `BootimageSeal.RejectsFile` | lib/bootimage/bootimage.c:111-122 | change the bytes of one file of a finished image in any way the hash tells, and validation fails with a checksum error |
| `BootimageSeal.RejectsPage` | lib/bootimage/bootimage.c:48-60 | the same for the entries after the first |
| `BootimageSeal.FileInside` | tools/bootimage.c:62-139 | every file of a finished image lies in it, so any of them can be changed so |
| `BootimageCode.FindFile` | lib/bootimage/bootimage.c:185-199 | the first file entry of the type |
| `BootimageCode.GetFileSection` | lib/bootimage/bootimage.c:178-202 | the section of that entry, inside the image |

## Left out

- Qsort.QSort: distances are counted in elements without bound; the source keeps byte distances in `int`, so what is stated is about arrays of less than 2^31 bytes, and the word-wise swap variants chosen by element size are one swap.
- Qsort.ChoosePivot: states only that the pivot is in the range, because sortedness and termination do not depend on which element it is.
- PathCode.Normalize: positions are unbounded; the source keeps them in `int`.
- BioCode.BlockDevice.Read: assumes that the end of the range is a representable offset; `Bio.TrimIs` says what happens otherwise.
- BioCode.BlockDevice.Write: assumes the same.
- BioCode.BlockDevice.ReadBlock: the driver call of the byte functions, which always lies on the device; the trim of `bio_read_block` is `Bio.TrimBlocksIs`.
- BioCode.BlockDevice.WriteBlock: the same.
- BcacheCode.Cache.ReadBlock: assumes the device answers and an unpinned slot is there on a miss; the error path of find-or-fill leaves a block on two lists, and is not modelled.
- BcacheCode.Cache.GetBlock: the same.
- BcacheCode.Cache.FindOrFill: the same; the source asserts that there is a slot.
- BcacheCode.Cache.FlushBlock: the device accepts the write.
- BcacheCode.Cache.AllocBlock: the same.
- BcacheCode.Cache.FlushAll: the same.
- BcacheCode.Cache.ZeroBlock: block numbers lie on the device.
- BootimageCode.Builder.Write: says nothing about images whose 32-bit offsets overflow; every write to the file succeeds.
- Kernel.Scheduler.ThreadSetPriority: not called by an idle thread, which it would put on a run queue.
- Kernel.Scheduler.ThreadResume: stops before the yield the code may end with, which is a step of its own.
- PortCode.WritePort.ReadPacket: a read with no timeout; blocking reads are a wait on the wait queue of the model.
- PmmCode.PhysMem.AddArena: arenas have at most 2^31 pages of 4 KiB.
- VmmCode.AddressSpace.constructor: creating the space itself does not fail, and the list of spaces is not modelled.
- Mmu.Aspace.constructor: the frame of the root table is given; the allocation that may fail is not modelled.
- VmmCode.AddressSpace.MapPages: a plain map of translations with the outcome as a parameter; `Mmu.Aspace` is the page table behind it, with frames from a pool of its own, so page-table pages are counted apart from data pages.
- TLB and cache maintenance, barriers, context-switch assembly, interprocessor interrupts, statistics and tracing.
- Mmu.Aspace.Map: translation pages of 4 KiB; with larger ones, which the user configuration allows, `free_page_table` returns one page only.
- Destroying an address space.
- `pmm_alloc_range`, `pmm_alloc_kpages`, `vmm_reserve_space`, `vmm_alloc_physical`, and creating and freeing address spaces.
- `timer_set` and `timer_cancel` beyond a callback cancelling its own timer; dynamic hardware timer programming; timers of other cpus.
- `thread_unblock`, `thread_join`, `thread_detach`, the real-time flags' effect on timers, and destroying mutexes, wait queues and ports.
- Semaphores and events, which are easier users of the same wait queues.
- `bio_default_erase`, asynchronous I/O, erase geometry, device registration and reference counts.
- Port groups, broadcast ports, and ports by name.
- The bcache counters; `bcache_destroy`.
- Files and the shell around the boot image tool, and the rest of the file system layer.

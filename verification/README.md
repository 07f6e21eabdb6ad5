# Verified model of the intro-os kernel

A Dafny model of the three parts of the kernel whose correctness depends on state that changes step
by step, and proofs about them.

**Threads and semaphores** (`Kernel.dfy`, `Handoff.dfy`, `Runs.dfy`, `Calls.dfy`). A thread that stops, yields or
blocks writes a request into its core's slot and switches to the core's idle thread, which carries the
request out once the old stack is no longer in use. A blocking `down` keeps the semaphore's spinlock
across that switch. `Kernel` is a transition system with one program counter per core, one atomic step
per turn, any number of threads and semaphores, and any schedule. `Handoff` is an inductive invariant
with a witness map that gives every live thread its one owner; ownership depends on the idle thread's
program counter, because a slot still names a thread for a while after the thread has been queued.
`Runs` draws the consequences for every reachable state and every schedule. `Calls` says what each call
of a thread comes to, from the call to its effect, alone and with the other cores interfering.

**SpinQueue** (`SpinQueue.dfy`). The linked list behind the ready queue and the semaphores, as a class
with head and tail pointers. Allocation, the two critical sections and deletion are separate moves, and
every interleaving of any number of clients refines a FIFO sequence, with every node accounted for.

**Heap** (`HeapBlocks.dfy`, `HeapArena.dfy`, `HeapRuns.dfy`). `HeapArena.Heap` is the arena as an array
of 64-bit words whose only structure is the tags in it; each operation is proved against the list of
blocks in `HeapBlocks`, where first fit, splitting, coalescing and canonicity are proved. `HeapRuns`
states the invariant over whole sequences of calls, with clients writing arbitrary words into payloads
they own.

**FAT32 reader** (`Bytes.dfy`, `Volume.dfy`, `Chain.dfy`, `FileRead.dfy`, `LongNames.dfy`,
`Directory.dfy`, `Path.dfy`). Mounting with its 32-bit arithmetic, cluster chains, `File::read` with its
cursor cache and its two copy paths, the long-file-name state machine with the encoding it undoes
(Microsoft FAT32 File System Specification 1.03, "FAT Long Directory Entries"), directory lookup in
three nested loops against one fold over the stream of slots, and path resolution.

## Hypotheses

- At most `kMaxCores` cores are released, and a core's boot context only calls `go` and `stop`.
- Semaphores start with a non-negative count and outlive their users; the counter is unbounded.
- `new` succeeds, and a TCB is identified by its thread id, so a reused address is not confused with the
  TCB that was there before.
- Atomic steps are sequentially consistent. In `Kernel` a push or pop of a queue is one step;
  `SpinQueues.Interleave` is the reason that is enough.
- `read_sectors` fails only for a range that is not on the disk, and the disk does not change.
- `free` is called with a null pointer or a payload that `malloc` returned and that was not freed since.

Three places where the code does not do what its comments or its callers expect; the model follows the
code. `find` is documented for absolute paths, and accepts a path without a leading slash as well.
`malloc` does not check whether the size it computes wraps, as it does beyond 2^64 - 48 bytes:
`HeapBlocks.NeededBeyond` says to what, `HeapBlocks.SoundIff` which such grants still cut a block cleanly,
and `HeapArena.Heap.Malloc` that the words of the arena spell a heap with the granted block in use exactly
then; `HeapArena.NothingTaken` is a request for which they do not. Mounting does not check that the FAT
has an entry for every cluster or that the clusters are fewer than the end-of-chain values:
`Volume.ShortFatMounts` is a disk on which `fat_next` reads a data sector, `Volume.ManyClustersMount` one
on which an end-of-chain value is a valid cluster, and `Volume.WrappedEntryMounts` one on which the byte
offset of an entry wraps; `Volume.OwnEntryIff` and `Volume.EndOfChainIff` are the exact conditions.

## Model

| member | source | states |
|---|---|---|
| `Handoff.InitInv` | kernel/src/percore.cpp:50-56 | The state after boot satisfies the ownership, context, lock and counter invariant, for any number of cores up to the table size. |
| `Handoff.CallKeeps` | kernel/include/threads.hpp:38-42 | Creating a thread or a semaphore, or entering an operation, keeps the invariant; a new thread is owned by its creator. |
| `Handoff.ThreadKeeps` | kernel/src/threads.cpp:20-83 | Every step of go, stop and yield, up to and including the switch to idle, keeps the invariant. |
| `Handoff.DownKeeps` | kernel/src/semaphore.cpp:25-42 | Every step of down keeps the invariant, including the lock carried into the switch. |
| `Handoff.UpKeeps` | kernel/src/semaphore.cpp:13-23 | Every step of up keeps the invariant; the pop never finds an empty queue. |
| `Handoff.DispatchKeeps` | kernel/src/percore.cpp:14-23 | Taking a thread off the ready queue and switching to it keeps the invariant. |
| `Handoff.FinishKeeps` | kernel/src/percore.cpp:24-41 | Completing a delete, queue-and-unlock or reschedule request, step by step, keeps the invariant. |
| `Handoff.StepKeeps` | kernel/src/percore.cpp:14-44 | One turn of any core, whatever it is doing, keeps the invariant for some new owner map. |
| `Runs.Reachable` | kernel/src/percore.cpp:18-43 | The invariant holds after every schedule. |
| `Runs.ExactlyOneOwner` | kernel/src/percore.cpp:18-43 | In every reachable state each live thread has exactly one owner: a core, an uncompleted request, a local variable, the ready queue or one semaphore queue; no queue has it twice, and nothing owns a dead one. |
| `Runs.OneCoreEach` | kernel/src/percore.cpp:19-23 | No thread executes on two cores, and no executing thread stands in a queue. |
| `Runs.NeverFails` | kernel/src/semaphore.cpp:15-20 | No ASSERT in up or idle_loop fails, no freed TCB or unsaved context is used, and stop never returns. |
| `Runs.DispatchIsSafe` | kernel/src/percore.cpp:19-23 | When idle is about to switch to a thread, its context is saved, nobody is on its stack, and the switch lands in its own code. |
| `Runs.DeleteIsSafe` | kernel/src/percore.cpp:24-27 | When idle deletes a TCB it is live and off every stack, and afterwards no queue, open request, running core or local variable names it. |
| `Runs.FreedForever` | kernel/src/tcb.cpp:11-16 | A freed TCB is never live or named again, so it is freed at most once. |
| `Runs.WaitersMatchCounter` | kernel/src/semaphore.cpp:13-42 | A semaphore whose lock is free has max(0, -counter) waiters queued; with the lock held the one blocking down or waking up accounts for the difference. |
| `Runs.Conservation` | kernel/src/semaphore.cpp:13-42 | Downs granted plus an up that has yet to pick its waiter equal initial + ups - max(counter, 0). |
| `Runs.LockHolderExecutes` | kernel/src/semaphore.cpp:26-41 | A held semaphore lock belongs to a core inside up or down or in idle's hand-off, whose stack is in no queue, and which holds no other. |
| `Runs.HolderAdvances` | kernel/src/percore.cpp:28-37 | Every turn of the core that holds a lock releases it or brings it closer to its release. |
| `Runs.LockReleasedInTime` | kernel/include/spinlock.hpp:16-22 | Within eight turns of the holding core, whatever the other cores do, the lock is free at some point. |
| `Runs.RequestServedInTime` | kernel/src/percore.cpp:23-41 | Within five turns of its core, whatever the other cores do, a written request is carried out: the stopped thread is freed, the blocked one is in the semaphore's queue, or the yielding one is in the ready queue. |
| `Runs.ReadyIsFifo` | kernel/src/scheduler.cpp:11-21 | The thread at position k of the ready queue is dispatched after exactly k others, whatever is pushed meanwhile. |
| `Runs.WokenInOrder` | kernel/src/semaphore.cpp:26-38 | The j-th thread to decrement below zero is the j-th to be woken, across cores; until then it is queued in that order or on its way, last. |
| `Runs.MutualExclusion` | kernel/src/mutex.cpp:3-12 | A mutex whose clients unlock only what they hold has at most one holder, counting a woken thread that has not run, and none exactly when it is open or being handed on. |
| `Runs.HeldUntilUp` | kernel/src/semaphore.cpp:13-42 | Over any run a thread that waits for a semaphore or holds it still does, and one that held it holds it, until its own increment. |
| `Runs.BlockedReturnsHolding` | kernel/src/semaphore.cpp:27-38 | A thread that was queued on a semaphore and executes again without having incremented it holds it. |
| `Runs.DecrementHolds` | kernel/src/semaphore.cpp:26-41 | A thread whose down does not block holds the semaphore from its decrement on. |
| `Calls.CodeIsQuiet` | kernel/src/percore.cpp:23-41 | In every reachable state a core in a thread's code executes its current thread and has no request left over, which is where the calls below start. |
| `Calls.UpCall` | kernel/src/semaphore.cpp:13-23 | In every reachable state with the lock free, up by a thread: after four or six turns of its core it is back in its code, counter and ups are one higher, the lock is free, and if the counter was negative the first waiter is at the end of the ready queue; nothing else changes. |
| `Calls.DownCallPasses` | kernel/src/semaphore.cpp:25-42 | down with a free lock and a positive counter: after four turns the thread is back in its code and one more time among the holders, the counter is one lower, and nothing else changes. |
| `Calls.DownCallBlocks` | kernel/src/semaphore.cpp:27-38 | down with a free lock and no count left: after ten turns the thread is last in the semaphore's queue with its context saved, the counter is one lower and the lock is free. |
| `Calls.YieldCall` | kernel/src/threads.cpp:75-83 | yield: after seven turns the thread is at the end of the ready queue with its context saved. |
| `Calls.StopCall` | kernel/src/threads.cpp:20-32 | stop: after five turns the thread's TCB is freed. |
| `Calls.BootStopCall` | kernel/src/threads.cpp:20-32 | stop from a boot context: after five turns the core is in its idle loop, and nothing was freed or queued. |
| `Calls.GoCall` | kernel/include/threads.hpp:38-42 | go: after two turns a new thread, ready to run, is at the end of the ready queue and the caller is where it was. |
| `Calls.NewSemCall` | kernel/src/semaphore.cpp:9 | A new semaphore has the count it was made with, an empty queue and a free lock. |
| `Calls.IdleDispatches` | kernel/src/percore.cpp:18-23 | An idle core takes the head of the ready queue and after three turns executes it in its own code. |
| `Calls.IdleComesBack` | kernel/src/percore.cpp:24-42 | Having carried out a request, the idle thread clears it and looks for a thread again. |
| `Calls.UpIncrementsOnce` | kernel/src/semaphore.cpp:13-23 | From a thread's call of up to its return, whatever the other cores do, it increments that semaphore exactly once and decrements none. |
| `Calls.DownDecrementsOnce` | kernel/src/semaphore.cpp:25-42 | From a thread's call of down to its return, on whatever core and after waiting or not, it decrements that semaphore exactly once and increments none. |
| `SpinQueues.SpinQueue.Link` | kernel/src/spin_queue.cpp:14-21 | push's critical section appends the node; the list stays acyclic with tail its last node. |
| `SpinQueues.SpinQueue.Unlink` | kernel/src/spin_queue.cpp:25-33 | pop's critical section takes off the first node, or reports that there is none. |
| `SpinQueues.SpinQueue.Consume` | kernel/src/spin_queue.cpp:39-41 | The node taken off is deleted, once. |
| `SpinQueues.SpinQueue.Push` | kernel/src/spin_queue.cpp:9-22 | The contents grow by the value, at the end. |
| `SpinQueues.SpinQueue.Pop` | kernel/src/spin_queue.cpp:24-42 | True exactly when the queue was not empty; then the first value comes out and its node is deleted, otherwise nothing changes. |
| `SpinQueues.SpinQueue.Empty` | kernel/src/spin_queue.cpp:44-49 | True exactly when there are no contents. |
| `SpinQueues.SpinQueue.Drain` | kernel/src/spin_queue.cpp:3-7 | The destructor ends, with the queue empty and exactly the queued nodes deleted. |
| `SpinQueues.FirstInFirstOut` | kernel/src/spin_queue.cpp:9-42 | What was there followed by what was linked is what was taken, in order, followed by what is left; `Interleave` ties the taken values to those the list handed out. |
| `SpinQueues.EachGetsItsOwn` | kernel/src/spin_queue.cpp:24-42 | Under every interleaving each client is returned exactly the values it took, in that order, but for the one it is about to be returned. |
| `SpinQueues.Interleave` | kernel/src/spin_queue.cpp:9-42 | For every interleaving of clients' allocations, critical sections and deletions: the list stays valid and holds what the FIFO holds; the values unlinked and the values returned are the FIFO's; every node that was there or was made is in exactly one of the list, one client's hands and the deleted nodes; none is deleted twice, and as many are deleted as values returned. |
| `HeapBlocks.NeededFits` | kernel/src/heap.cpp:89 | The block size covers the request and both tags if and only if the request is at most 2^64 - 48; then it is the least such multiple of 16. |
| `HeapBlocks.NeededBeyond` | kernel/src/heap.cpp:89 | Beyond 2^64 - 48 the computed size is 0 up to 2^64 - 32, 16 up to 2^64 - 16, and 32 above. |
| `HeapBlocks.ScanIsExact` | kernel/src/heap.cpp:84-115 | The scan finds a block if and only if some free block has room, for requests up to 2^64 - 48; beyond, it finds one whenever any block is free although none has room. |
| `HeapBlocks.WrappedRequestGranted` | kernel/src/heap.cpp:89 | The empty heap grants 2^64 - 1 bytes with a block of 32. |
| `HeapBlocks.GrantIsLowest` | kernel/src/heap.cpp:93-96 | No block that fits lies at a lower address than the one chosen. |
| `HeapBlocks.GrantIsTight` | kernel/src/heap.cpp:98-110 | The payload holds the request and at most 16 bytes more than the request rounded up. |
| `HeapBlocks.PayloadAligned` | kernel/src/heap.cpp:43 | Every payload address is a multiple of 16. |
| `HeapBlocks.CarveKeeps` | kernel/src/heap.cpp:98-107 | A clean cut keeps the list well formed and of the same span and adds exactly one block in use; what any other cut leaves is stated about the words, by `HeapArena.Heap.Malloc`. |
| `HeapBlocks.ReleaseKeeps` | kernel/src/heap.cpp:117-139 | Freeing, with merging on both sides, keeps the list well formed and of the same span and removes exactly that block from those in use. |
| `HeapBlocks.FreeUndoesMalloc` | kernel/src/heap.cpp:117-142 | Freeing what malloc just returned restores the block list. |
| `HeapBlocks.Canonical` | kernel/src/heap.cpp:117-142 | The blocks in use determine the whole list. |
| `HeapBlocks.FreeOrderIsIrrelevant` | kernel/src/heap.cpp:117-142 | Freeing a set of blocks gives the same list in every order. |
| `HeapBlocks.FreeingAllRestores` | kernel/src/heap.cpp:82 | Freeing every block in use gives back the one free block that init made. |
| `HeapBlocks.SoundIff` | kernel/src/heap.cpp:84-142 | A granted request cuts its block cleanly if and only if it is at most 2^64 - 48, or above 2^64 - 16, or above 2^64 - 32 with a first free block of 32 bytes. |
| `HeapBlocks.HistoryKeeps` | kernel/src/heap.cpp:82-142 | After every history of calls that cut cleanly the list spans the arena, with sizes that are multiples of 16 and at least 32 and no two adjacent free blocks. |
| `HeapBlocks.HistoriesAgree` | kernel/src/heap.cpp:82-142 | Two such histories that leave the same blocks in use leave the same heap. |
| `HeapBlocks.LiveDisjoint` | kernel/src/heap.cpp:62-65 | Blocks do not overlap. |
| `HeapArena.Heap.WriteTags` | kernel/src/heap.cpp:49-55 | The words after header and footer are written, a footer outside the arena left aside; for a whole block they spell it, with equal header and footer, and nothing of its payload or outside it changes. |
| `HeapArena.Heap.NextBlock` | kernel/src/heap.cpp:62-65 | The address after the block, or none at the end of the arena. |
| `HeapArena.Heap.PrevBlock` | kernel/src/heap.cpp:70-76 | The address of the block before, found through its footer, or none for the first. |
| `HeapArena.Heap.Init` | kernel/src/heap.cpp:82 | The arena decodes to one free block. |
| `HeapArena.Heap.Split` | kernel/src/heap.cpp:101-107 | The words after the one or two pairs of tags, whatever the size asked for; a clean cut turns the tags of the block into those of the taken block and the remainder, and no word outside changes. |
| `HeapArena.Heap.Malloc` | kernel/src/heap.cpp:84-115 | For every request: null exactly for size 0 or no fit, and then no word changes; otherwise the first fitting block, and no live payload changes. The words spell a heap with that block in use if and only if the cut is clean, and then the one with the block carved; after any other grant they spell no heap at all, or are as they were if nothing was asked of the first block. |
| `HeapArena.OverlappingSplit` | kernel/src/heap.cpp:101-104 | After a cut that is not clean, no heap the words spell has the granted block in use. |
| `HeapArena.WordsAfterOverlap` | kernel/src/heap.cpp:101-104 | After a cut that is not clean the words are unchanged if it takes nothing from the first block, and spell no heap otherwise. |
| `HeapArena.NothingTaken` | kernel/src/heap.cpp:84-110 | 2^64 - 40 bytes are granted of an empty heap, and every word of the arena is then as it was. |
| `HeapArena.Heap.Merge` | kernel/src/heap.cpp:128-139 | The run of free neighbours around the block becomes one free block. |
| `HeapArena.Heap.Free` | kernel/src/heap.cpp:117-142 | The words decode to the list with the block released; null changes nothing; no other live payload changes. |
| `HeapArena.Heap.Store` | kernel/src/heap.cpp:43-45 | A client's write inside a live payload leaves the heap valid with the same blocks. |
| `HeapRuns.Run` | kernel/src/heap.cpp:49-142 | Over every sequence of mallocs, frees of live blocks and writes into live payloads, up to and including the first malloc that does not cut cleanly: before it the raw words decode to the list the sequence stands for, after it no heap they spell has the granted block in use; and a payload word nobody freed or wrote keeps its value throughout. |
| `Bytes.FieldsRoundTrip` | kernel/src/fat32.cpp:30-35 | A 16-bit or 32-bit little-endian field is read back wherever it is stored. |
| `Bytes.EqualNoCase` | kernel/src/fat32.cpp:42-52 | Same length and pairwise equal up to ASCII case. |
| `Bytes.SameNameIff` | kernel/src/fat32.cpp:37 | Two names are the same exactly when they are spelled alike but for the case of the letters A to Z. |
| `Bytes.ShortNameChecksum` | kernel/src/fat32.cpp:60-66 | The loop computes the rotate-and-add fold of the eleven bytes. |
| `Bytes.MixRotates` | kernel/src/fat32.cpp:63 | One step of the checksum is a rotation to the right by one bit and a byte addition, on the bits. |
| `Bytes.ChecksumSeesOneByte` | kernel/src/fat32.cpp:60-66 | Changing any one byte of a short name changes its checksum. |
| `Bytes.FormatShortName` | kernel/src/fat32.cpp:72-85 | The buffer holds base, and dot and extension if there is one, each up to its padding, with 0x05 turned into 0xE5. |
| `Bytes.ShortNameRoundTrip` | kernel/src/fat32.cpp:72-85 | A base and extension stored in 8.3 form are shown as base, dot and extension, including a leading 0xE5. |
| `Volume.PowerOfTwoBits` | kernel/src/fat32.cpp:170-171 | The bit test on a non-zero byte accepts exactly the eight powers of two. |
| `Volume.MountIsSafe` | kernel/src/fat32.cpp:118-187 | Every disk that mounts has safe geometry: no truncated field, no wrapping sum, data region after all copies of the FAT and on the disk, a valid root. |
| `Volume.MountIsExact` | kernel/src/fat32.cpp:134-187 | Mounting, in 32-bit arithmetic, accepts exactly the disks whose boot sector, read byte by byte and in exact arithmetic, describes a FAT32 volume that fits, and with that metadata. |
| `Volume.FatsBeforeData` | kernel/src/fat32.cpp:175-182 | Every copy of the FAT lies before the data region, and the last ends where it starts. |
| `Volume.FormattedMounts` | kernel/src/fat32.cpp:118-187 | A volume formatted with any geometry mounts as formatted: data start reserved + copies * FAT size, and as many whole clusters as follow. |
| `Volume.ClusterOnDisk` | kernel/include/fat32.hpp:109-115 | Every sector of every valid cluster is in the data region and on the disk. |
| `Volume.ClustersDisjoint` | kernel/include/fat32.hpp:112-115 | Distinct clusters share no sector. |
| `Volume.OwnEntryIff` | kernel/src/fat32.cpp:253-261 | fat_next reads entry N of the first FAT if and only if the FAT has that entry and 4N does not wrap. |
| `Volume.OwnEntriesIff` | kernel/src/fat32.cpp:253-261 | Every valid cluster's own entry is read if and only if the clusters number at most 2^30 - 2 and the FAT has an entry for each. |
| `Volume.EndOfChainIff` | kernel/include/fat32.hpp:103-111 | End-of-chain values are never valid clusters if and only if the clusters number at most kEndOfChain - 2. |
| `Volume.FatIsSound` | kernel/src/fat32.cpp:253-261 | With those two conditions every valid cluster's own entry is read, without failure, and ends a chain as intended. |
| `Chain.FatNextReads` | kernel/src/fat32.cpp:253-261 | If bytes 4N to 4N + 4 of the FAT are x, the next cluster is the low 28 bits of x. |
| `Chain.ClusterSector` | kernel/include/fat32.hpp:112-115 | Sector s of cluster N is sector data start + (N - 2) * cluster size + s of the disk. |
| `Chain.LinkedEnds` | kernel/src/fat32.cpp:537-547 | The chain of clusters that the FAT links ends after the last of them. |
| `Chain.LinkedIsShort` | kernel/src/fat32.cpp:308 | A chain that ends has at most as many clusters as the volume. |
| `Volume.ShortFatMounts` | kernel/src/fat32.cpp:177-187 | A concrete disk mounts although its FAT has no entry for its last clusters; the first data sector is read instead. |
| `Volume.ManyClustersMount` | kernel/src/fat32.cpp:177-187 | A concrete disk mounts, with a FAT entry for every cluster, although the first end-of-chain value is a valid cluster. |
| `Volume.WrappedEntryMounts` | kernel/src/fat32.cpp:253-261 | A concrete disk mounts on which cluster 2^30 + 2 has a FAT entry but is followed through that of cluster 2. |
| `Chain.ClusterAtFrom` | kernel/src/fat32.cpp:523-547 | Walking on from a known position of a chain reaches what walking from the start reaches. |
| `Chain.AcyclicEndsFirst` | kernel/src/fat32.cpp:308 | An acyclic chain ends by itself before the hop bound, which therefore hides nothing. |
| `Chain.EveryClusterVisited` | kernel/src/fat32.cpp:406-412 | On any chain, cyclic or not, every cluster it ever reaches is visited within the hop bound. |
| `FileRead.ReadSectors` | kernel/src/disk_reader.cpp:229-232 | Succeeds exactly when first sector plus count is at most the disk's size, filling just its part of the buffer with those sectors. |
| `FileRead.File.constructor` | kernel/include/fat32.hpp:57-70 | A new handle satisfies the cache invariant. |
| `FileRead.File.Locate` | kernel/src/fat32.cpp:521-549 | Whatever the cache, the cluster at a chain position, or failure exactly when that position is unusable. |
| `FileRead.File.CopyStep` | kernel/src/fat32.cpp:553-584 | Both copy paths place the next stretch of the cluster in the buffer, make progress, stay in the cluster and touch nothing else. |
| `FileRead.File.Read` | kernel/src/fat32.cpp:502-588 | For every earlier history: the clamped byte count and exactly those bytes of the concatenated chain, 0 at or past the end, -1 exactly for an unreadable handle or a chain that does not reach the last byte wanted; the buffer beyond is untouched and the cache invariant is kept. |
| `FileRead.LinkedContent` | kernel/src/fat32.cpp:502-588 | The content that read returns is the bytes of the clusters the FAT links from the first, in that order, and a read fails exactly when it wants a byte past the last of them. |
| `FileRead.ReadInParts` | kernel/src/fat32.cpp:502-588 | Two adjacent reads give the bytes of one read over both. |
| `LongNames.RoundTrip` | kernel/src/fat32.cpp:325-364 | Any non-NUL ASCII name of 1 to 255 characters, encoded as pieces, is pending exactly, whatever slots came before. |
| `LongNames.RunIsPending` | kernel/src/fat32.cpp:325-364 | A run of pieces, first the one marked last and then others of one checksum, is the pending name: every character is that of the latest piece with its ordinal. |
| `LongNames.PendingIsRun` | kernel/src/fat32.cpp:319-349 | There is a pending name only after such a run. |
| `Directory.LongNameBuffer.TakePiece` | kernel/src/fat32.cpp:326-364 | One long-name slot takes the buffer and flags to the next pending name, with every write inside the buffer. |
| `Directory.LongNameBuffer.Compare` | kernel/src/fat32.cpp:373-394 | An 8.3 slot matches exactly when its checksum-tied long name or its short name does and it is no volume label; the pending name is used up. |
| `Directory.EntryRoundTrip` | kernel/src/fat32.cpp:393-400 | The cluster, size and directory flag laid out in an 8.3 slot are the ones read from it. |
| `Directory.VisitSector` | kernel/src/fat32.cpp:314-403 | The entry loop does what the fold over the sector's sixteen slots does. |
| `Directory.VisitCluster` | kernel/src/fat32.cpp:309-404 | The sector loop does what the fold over the cluster's slots does; its reads never fail. |
| `Directory.Lookup` | kernel/src/fat32.cpp:296-413 | The three nested loops return what one fold over the whole stream of slots returns. |
| `Directory.FirstMatchIff` | kernel/src/fat32.cpp:316-402 | The result is the entry of the first slot that bears the name, or nothing if the directory ends first. |
| `Directory.StopsIff` | kernel/src/fat32.cpp:316-402 | The search stops exactly at a slot that ends the directory, or that is neither deleted nor a volume label and whose 8.3 name, or the name in a run of pieces right before it with its checksum, is the one asked for, read off the bytes. |
| `Directory.NoMatchIff` | kernel/src/fat32.cpp:316-319 | Nothing is found if and only if no slot before the end bears the name. |
| `Directory.EncodedNameIsFound` | kernel/src/fat32.cpp:325-402 | A name stored as pieces before its 8.3 entry is found there in any letter case, after any slots that neither end the directory nor bear the name, and whatever comes after. |
| `Directory.EncodedNameInDirectory` | kernel/src/fat32.cpp:308-413 | The same for lookup in a directory, wherever sector and cluster boundaries divide the pieces and the entry. |
| `Directory.ShortNameIsFound` | kernel/src/fat32.cpp:387-401 | An entry stored under an 8.3 name is found by base, or base, dot and extension, in any letter case, with the cluster, size and kind it was stored with. |
| `Directory.ShortNameInDirectory` | kernel/src/fat32.cpp:296-413 | The same for lookup in a directory. |
| `Directory.LinkedSlots` | kernel/src/fat32.cpp:308-412 | The slots searched are those of the clusters the FAT links from the directory's first. |
| `Directory.EndlessSlots` | kernel/src/fat32.cpp:308 | A chain that never ends is searched for one cluster more than the volume has. |
| `Directory.EverySlotScanned` | kernel/src/fat32.cpp:308 | Even on a cyclic chain every slot of every reachable cluster is in the stream that is searched. |
| `Path.ComponentsOfJoin` | kernel/src/fat32.cpp:430-442 | Splitting a path undoes joining its components. |
| `Path.SlashSeparates` | kernel/src/fat32.cpp:430-442 | The components around a slash are those of the two sides, whatever these are. |
| `Path.ExtraSlashes` | kernel/src/fat32.cpp:430-438 | Leading, trailing and repeated slashes make no difference. |
| `Path.ResolveBelow` | kernel/src/fat32.cpp:422-467 | Resolving a path below a path is walking on from what the first names, and fails if it does. |
| `Path.ResolveRoot` | kernel/src/fat32.cpp:428-439 | The empty path and a lone slash are the root directory. |
| `Path.ResolveComponent` | kernel/src/fat32.cpp:445-457 | One component more is looked up in the directory's own cluster, or in the root if that is 0; below a file, or over 255 bytes, there is nothing. |
| `Path.ZeroIsRoot` | kernel/src/fat32.cpp:454 | A directory entry with cluster 0 stands for the root. |
| `Path.Find` | kernel/src/fat32.cpp:422-467 | The handle is the one of the left fold of lookup over the components: its cluster is the entry's, or the root's for a directory with cluster 0; an unmounted volume, a null path or a component that is not found gives the invalid handle. |

## Left out

- HeapArena.Heap.Malloc: of a request that wraps to 0 and is granted from the first block, the tag written below the arena is left aside; memory outside the arena is not modelled.
- HeapBlocks.HistoryKeeps: requires that every call cuts cleanly, as HeapBlocks.HistoriesAgree does, and HeapRuns.Run goes as far as the first that does not; after that call there is no list with the granted block, which HeapArena.Heap.Malloc states.
- Handoff.StepKeeps: percore, semaphore, threads, scheduler, mutex and tcb are modelled on values, as one transition function, and not as classes updated in place, because the properties are about interleavings of their steps.
- Runs.LockReleasedInTime: counts turns of the holding core; that every core keeps getting turns, and that a thread waiting for a lock gets it eventually, is not modelled.
- Directory.Lookup: nothing is claimed about runs of long-name pieces that are incomplete or out of order beyond what the fold itself does with them; the code does not check the order.
- Weak memory ordering: lock acquire and release are sequentially consistent steps.
- Overflow of the 64-bit semaphore counter and of thread ids.
- The ASSERT in the semaphore's destructor, which is about the lifetime of its users.
- The heap's spinlock: malloc and free are whole operations here.
- Register save and restore, the thread trampoline and the layout of a fresh stack frame: switch_to saves one context and resumes another.
- Virtio and DMA in the disk reader, MMU, SMP start-up, the boot entry, console and panic output.
- `operator new` and `delete` and the hang when memory runs out: thin wrappers over malloc and free.
- The volume label, the volume id and the FSInfo hint, which no later operation uses.
- The byte loops of the string functions.

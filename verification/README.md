# A verified model of the Xinu kernel with demand paging

This project models the parts of the Xinu-based kernel in `xinu-fall2022-paging` that keep state and
can lose it, and proves what they promise. Paths in the table below are relative to the repository.
`dafny verify dfyconfig.toml` checks everything.

Each part has two layers. A value layer gives every operation as a function on the state; the lemmas
about it, over every state, every run or every interleaving, are the main results. An imperative layer
holds the operations as the program runs them (arrays, pointers into arrays, fields updated in place,
loops); every method is proved to do exactly what its function says, so that the results carry over.

`Kernel`, `Wrappers`, `Seqs` and `Bytes` are the vocabulary that the parts share.

**The demand pager.** `Frames`, `FrameTable`, `FrameHistory`: the three stacks of free frames, the
inverted page table and the list of used E1 frames. `Pager`, `PagerInv`, `PagerSteps`: mapping,
restoring, evicting and swapping a page. `PagerReach`: what the bound of `invtakeframe` excludes has never
been in use. `PagerMachine`: faults, blocking, stores, grants, releases, kills and creations as one state
machine. Pages of all processes move between E1 and E2, and no byte of any page is lost, as long as every step
is harmless. `PagerExact`: the steps that are not are exactly those that break the invariant. `PagerRuns`,
`PagerLimit`, `PagerWait`: runs from the start that come to each kind of them. `PagerKill`: kill in two halves.
`PagerCount`: the reference counts of page tables. `BlockQueue`, `PagerImpl`: the imperative layer. All sizes
are parameters; the shipped ones are the constant `SHIPPED`.

**The local file system.** `LfSpec` gives the operations on directory, index blocks, data blocks and
one control block per open file. `LfInv` to `LfPanic` prove that each operation acts on a byte sequence
with a cursor, touches no other file, and panics exactly when a block is needed and there is none;
`LfRun` does so for runs over any number of files. `LfCodec`, `LfDisk`, `LfDevice`, `LfFormat` go down to
the bytes of the disk and up from a freshly formatted one; `LfBytes` leads whole runs from bytes to bytes.
`LfImpl` is the imperative layer, with index blocks and data blocks as the unit of the disk.

**The free lists.** `FreeList` has the canonical free list as a value, `HeapRun` the runs of the kernel
heap, `VirtualHeap` the heap of a process with its page marks. `MemBlk`, `NodeList`, `KernelHeap` are the
imperative layer, with the nodes stored inside the memory they describe.

**Processes.** `Delta`: the ready list's order and the delta list of sleepers. `SchedSpec`: the scheduler,
semaphores, messages, sleeping, suspending, killing and the clock. `SchedInv`, `SchedSteps`, `SchedRun`: the
invariant of every reachable state and first-in-first-out service. `SchedSleep`: the exactness of sleeping.
`SchedMeaning`: what each call means process by process, without the ready list, that it does just
that, and that no message is lost. `SchedFrames`: the block queue of `frameblock` beside the scheduler.
`QueueTab`, `QueueImpl`, `SchedImpl`, `FrameImpl`: the imperative layer on the one array of doubly linked lists.

**Message ports.** `PortSpec`: ports as steps of processes that may interleave wherever the program may
give up the processor, also between the two semaphores of `_ptclear`. `PortInv`, `PortSteps`, `PortRun`: the
bounded-buffer laws over all interleavings. `PortImpl`: the linked nodes.

**CRC-32.** `Crc32`, `CrcTable`: the unrolled table-driven computation and the literal table against the
bit-at-a-time definition of section 8 of RFC 1952.

## Where the code does not do what it seems to promise

Each of these is a lemma that says exactly when the code does meet the promise, or gives the state in
which it does not.

- `invtakeframe` compares a frame number, which starts at 1024, with the number of frames, 3072, and
  `evictframe` ignores its refusal. An eviction keeps the tables exactly while its destination is below the
  bound (`PagerLimit.EvictExact`), that is, while fewer E2 frames are in use than lie below the bound: 24 with
  the shipped sizes (`PagerLimit.FitsExact`). The 25th eviction breaks the tables (`PagerLimit.ShippedRun`).
- A process that has waited for a frame goes on at the address of the latest fault, whoever's that was, since
  `pgfaddr` is a global. That is right exactly when this address is a page of the process that is allocated and
  has no frame (`PagerExact.ResumeExact`). If it has one, its bytes are lost (`PagerExact.ResumeLoses`,
  `PagerWait.StrayRun`).
- The ring of `frameblock` keeps the numbers of killed processes, and does not notice when it is full: the newcomer
  is then alone in it. A process that is blocked stays in the ring exactly when there is a slot for the newcomer
  (`PagerExact.ParkExact`); otherwise it never runs again (`PagerWait.OverrunRun`, `DroppedForEver`). Without the
  reuse of a number that is still in the ring there is always a slot (`PagerWait.CleanStep`, `CleanFits`).
- `PagerExact.StepExact` puts the three together: it says of every step in every reachable state whether it keeps
  the invariant. The theorems about runs take harmless steps only. With the shipped bound E1 and E2 are never both
  full before the tables break, so that nobody blocks (`PagerWait.NeverFull`).
- `kill` gives up the processor to the parent when the victim's frames are free and its tables still name them.
  That is harmless as long as the victim does not run meanwhile (`PagerKill.KillInTwo`); if it does, its store
  may change somebody else's page, and `PagerKill.StrayStore` says exactly when.
- `kill` leaves the reference count of a page table in its frame, and `newpt` does not reset it
  (`PagerCount.KillLeaves`): the count is right exactly when nothing has been left (`PagerCount.CountExact`). The
  deletion that it would trigger is commented out.
- `create` does not look at the result of `newpd`, which fails exactly when region D is exhausted
  (`PagerSteps.SpawnExact`); the model creates no process then.
- A freed virtual-heap block that merges with the one behind it leaves the page of that block's old node
  marked (`VirtualHeaps.FreeExact`).
- A request to `getmem` or `getstk` within seven bytes of 2^32 is rounded to nothing (`HeapRun.GetExact`);
  given back to `freemem`, which tests the size before it rounds, it puts a node of no length into the list or
  links a node to itself (`HeapRun.RunKeeps`, `NodeLists.NoEnd`). `freemem` does not check that the block ends
  inside the heap either; `KernelHeaps.FreeMemExact` has the exact condition.
- The heap starts where the program ends, wherever that is: unless its size is a multiple of eight, a free
  block can be too small for its node (`HeapRun.NodesFitExact`).
- `recvtime(0)` and `sleepms` of 2^31 ms or more put the delta list out of order (`Delta.InsertDGood`,
  `SchedRun.DelayExact`), and a tick is then lost (`Delta.TickLost`).
- Creating a file does not mark the directory dirty (`LfRun.CreateThenShut`): a file that is closed without
  bytes may be missing from the disk (`LfRun.ShutExact`).
- `lfscreate` accepts a disk that has no data sector, and a request for no index blocks, whose two areas
  overlap (`LfFormat.CreateExact`, `LfFormat.NoIndexBlocks`).
- A port created for 65536 messages or more shrinks when it is reset (`PortRun.ResetCapacity`), and
  killing a process to which a place or a message has been promised loses it for ever
  (`PortSteps.KillExact`).
- `framewakeup` makes ready whoever has a number in the ring, also when a killed process has left it there and a
  new one has got it. The lists of the scheduler stay in order exactly when every process named there is on no list
  and named once (`SchedFrames.WakeExact`). Otherwise one ends on two lists (`SchedFrames.StaleEntry`,
  `SchedFrames.StaleRun`); and one that waits for a message goes on without (`SchedMeaning.ReceiveReturns`).
- `ptcount` leaves promised messages out of account, unlike its comment (`PortRun.PtCountIs`).

## Model

| member | source | states |
|---|---|---|
| `Frames.AllocKeeps` | xinu-fall2022-paging/system/framemgmt.c:155-239 | a frame popped from a region's stack is free, of that region, and comes from the top; when its number is below the bound of invtakeframe the stacks, the used list and the table stay exact and the frame joins the end of the list |
| `Frames.FreeKeeps` | xinu-fall2022-paging/system/framemgmt.c:247-310 | invfreeframe never meets a full stack; a used frame goes back to the top of its own region's stack and leaves the list wherever it stands, a free one is left alone |
| `Frames.FullHasVictim` | xinu-fall2022-paging/system/framemgmt.c:185-196 | when E1 has no free frame the list of used E1 frames is not empty |
| `FrameHistory.VictimIsOldest` | xinu-fall2022-paging/system/framemgmt.c:25-72 | after any takes and frees, also from the middle of the list and also after E2 frames that invtakeframe has refused, the frame at the head of the list is the used E1 frame that was taken earliest; any bound that covers D and E1 will do, the shipped one included |
| `FrameHistory.BootHist` | xinu-fall2022-paging/system/framemgmt.c:99-119 | every history may start with the frames as init_invpt leaves them |
| `FrameTables.FrameTable.constructor` | xinu-fall2022-paging/system/framemgmt.c:99-119 | init_invpt leaves every frame free and each stack holding its region in ascending order |
| `FrameTables.FrameTable.InsertUsed` | xinu-fall2022-paging/system/framemgmt.c:54-72 | the doubly linked list spells the old sequence with the frame at its end |
| `FrameTables.FrameTable.RemoveUsed` | xinu-fall2022-paging/system/framemgmt.c:25-51 | the doubly linked list spells the old sequence without the frame, with head and tail repaired |
| `FrameTables.FrameTable.GetFreeFrame` | xinu-fall2022-paging/system/framemgmt.c:155-178 | the array stack is popped, or SYSERR with nothing changed |
| `FrameTables.FrameTable.TakeFrame` | xinu-fall2022-paging/system/framemgmt.c:204-239 | the arrays and links follow the frame model, with its two refusals |
| `FrameTables.FrameTable.FreeFrame` | xinu-fall2022-paging/system/framemgmt.c:247-310 | the arrays and links follow the frame model, with the push onto the region's stack |
| `PagerInv.RefsDiffer` | xinu-fall2022-paging/system/pagingidx.c:9-24 | different pages have different page table entries |
| `PagerInv.EvictKeeps` | xinu-fall2022-paging/system/pgfutil.c:102-149 | an E1 frame moves to E2 with its bytes and its page's entry, every other page keeps frame and bytes, and the free frames of E1 and E2 together stay the same; also while one entry is dangling, as inside swapframe |
| `PagerInv.MapKeeps` | xinu-fall2022-paging/system/pgfutil.c:17-41 | the page gets the first free E1 frame, all other pages keep theirs, and the frame that the entry named before, if any, is the only one left without a page |
| `PagerInv.RestoreKeeps` | xinu-fall2022-paging/system/pgfutil.c:58-86 | restoreframe succeeds, the page is present with its bytes, its E2 frame is free again, and all other pages are as they were |
| `PagerInv.SwapKeeps` | xinu-fall2022-paging/system/pgfutil.c:168-201 | swapframe succeeds through its free-evict-map order with no free frame in E1 or E2: both pages keep their bytes |
| `PagerLimit.EvictExact` | xinu-fall2022-paging/system/pgfutil.c:119-123 | evictframe, which ignores the result of invtakeframe, keeps the tables exactly when the E2 frame on top of the stack is below the bound |
| `PagerExact.EvictLoses` | xinu-fall2022-paging/system/framemgmt.c:214-218 | what happens otherwise: the destination is not in use, on no stack, and still named by the victim's entry, so that it is lost to the tables |
| `PagerExact.FaultExact` | xinu-fall2022-paging/system/pgfhandler.c:61-125 | a fault on an allocated page keeps the invariant exactly when it does not evict or the E2 frame on top of its stack is below the bound, and it does not block or the ring has a slot or nobody to drop; all of which can be looked up before the fault |
| `PagerExact.ResumeExact` | xinu-fall2022-paging/system/pgfhandler.c:95-115 | a process that comes back into the blocking loop keeps the invariant exactly when it waits again and the ring has a slot or nobody to drop, or it goes on, the eviction fits, and the global address of the latest fault is a page of its own that is allocated, has its page table and has no frame |
| `PagerExact.ResumeLoses` | xinu-fall2022-paging/system/pgfutil.c:17-41 | if that page has a frame, which it can have only when the address is not the process's own, the frame stays in use with the page's bytes, no page names it any more, and all other pages are as they were |
| `PagerExact.OwnPageFits` | xinu-fall2022-paging/system/pgfhandler.c:95-105 | while no other fault has come since its own, the address is right |
| `PagerExact.ParkExact` | xinu-fall2022-paging/system/frameblock.c:11-21 | a process that blocks drops nobody who is blocked exactly when the ring has fewer entries than slots or nobody is blocked |
| `PagerExact.StepExact` | xinu-fall2022-paging/system/pgfhandler.c:45-125 | in every state of the invariant and for every step that can happen there: the step keeps the invariant exactly when it is harmless, which can be looked up beforehand |
| `PagerLimit.FitsExact` | xinu-fall2022-paging/system/framemgmt.c:214-218 | in every reachable state that is: exactly while fewer E2 frames are in use than lie below the bound, 24 with the shipped sizes |
| `PagerLimit.ShippedRun` | xinu-fall2022-paging/include/paging.h:36-39 | a run from the start with the shipped sizes and the shipped bound: 1024 faults fill E1, 24 more evict to the frames 3048 to 3071 within the invariant, and the fault after them breaks the tables |
| `PagerWait.NeverFull` | xinu-fall2022-paging/system/framemgmt.c:214-218 | under a bound below the number of frames E1 and E2 are never both full in a reachable state, and nobody is blocked |
| `PagerWait.StrayRun` | xinu-fall2022-paging/system/pgfhandler.c:6-6 | a run from the start, with the shipped sizes and the bound raised to 4096: a process blocks, another one blocks, a page is released, and the first one goes on at the other's address, where it has a page of its own; that step, which does not concern the page, loses its bytes |
| `PagerWait.OverrunRun` | xinu-fall2022-paging/system/frameblock.c:11-21 | a run from the start with eight processes: seven are created, block on their first page and are killed while one waits, under the numbers newpid gives out; when the next one blocks, the ring holds it alone and the waiting one is blocked outside the ring, also after a frame has become free |
| `PagerWait.DroppedForEver` | xinu-fall2022-paging/system/frameblock.c:64-79 | a process that is blocked and not in the ring stays so through any steps, harmless or not, until it is killed |
| `PagerWait.CleanStep` | xinu-fall2022-paging/system/create.c:111-128 | as long as create gives out no number that is in the ring, every number there is blocked or killed and comes once |
| `PagerWait.CleanFits` | xinu-fall2022-paging/system/frameblock.c:11-21 | then the ring has a slot for everybody who blocks |
| `PagerSteps.EnsurePtKeeps` | xinu-fall2022-paging/system/pgfhandler.c:12-25 | a page table is there afterwards, no page of any process changes |
| `PagerSteps.SpawnKeeps` | xinu-fall2022-paging/system/pagingmgmt.c:53-91 | a new process gets a page directory in D that holds the shared entries and is otherwise empty, and an empty heap; no page of any process changes |
| `PagerSteps.SpawnExact` | xinu-fall2022-paging/system/create.c:55-55 | newpd has a directory for the new process exactly while region D has a free frame, and changes nothing otherwise |
| `PagerSteps.FetchKeeps` | xinu-fall2022-paging/system/pgfhandler.c:82-93 | a swapped page is present afterwards with its bytes in all three scenarios, no primitive fails, and everything else is kept |
| `PagerSteps.FreshKeeps` | xinu-fall2022-paging/system/pgfhandler.c:94-115 | a page without a frame gets one when E1 or E2 has room, every other page is kept, and the free frames of E1 and E2 together drop by one |
| `PagerSteps.UnmapAllKeeps` | xinu-fall2022-paging/system/vmhfreemem.c:8-59 | the loop takes exactly the pages it names from the process and gives their frames back; no other page changes (the counts are `PagerCount.CountStep`) |
| `PagerSteps.ReapKeeps` | xinu-fall2022-paging/system/kill.c:28-34 | the tables stay in order without the killed process, the pages of all others are as they were |
| `PagerSteps.ReapFrees` | xinu-fall2022-paging/system/kill.c:28-34 | exactly the frames of the killed process are given back, its page directory and page tables in region D included |
| `PagerMachine.StepSafe` | xinu-fall2022-paging/system/pgfhandler.c:45-125 | every harmless step of the machine (fault, resumption in the blocking loop at the address of the latest fault, store, grant, release, kill also of a waiting process, creation under any free number) keeps the invariant and does to the pages of all processes exactly what the step means in terms of the pages alone |
| `PagerMachine.RunSafe` | xinu-fall2022-paging/system/pgfhandler.c:45-125 | the invariant holds in every state of every run of harmless steps |
| `PagerMachine.BytesSurvive` | xinu-fall2022-paging/system/pgfutil.c:17-201 | over any run a page reads the same bytes until a step that concerns this page, whatever is evicted, swapped and restored meanwhile |
| `PagerMachine.TablesInverse` | xinu-fall2022-paging/system/pgfutil.c:102-201 | a frame of E1 or E2 is in use exactly when some page's entry names it, and then for one page only |
| `PagerMachine.NoLostWakeup` | xinu-fall2022-paging/system/frameblock.c:11-79 | in every state of every such run, also with numbers of killed and of new processes in the ring: whoever is blocked is in the ring, somebody is there only while E1 and E2 are both full, and it has no more entries than slots |
| `PagerMachine.BootSafe` | xinu-fall2022-paging/system/framemgmt.c:99-119 | the invariant holds at the start |
| `PagerCount.CountStep` | xinu-fall2022-paging/system/pgfhandler.c:117-122 | in every step the reference counts stay what the next row says they are |
| `PagerCount.CountRun` | xinu-fall2022-paging/system/vmhfreemem.c:46-53 | in every state of every run the reference count of a page table is the number of its process's pages that have a frame, in E1 or in E2, plus what the processes killed with this table had when they were killed |
| `PagerCount.CountExact` | xinu-fall2022-paging/system/pgfhandler.c:117-122 | so the count is right exactly when no process killed with this table has left anything |
| `PagerCount.KillLeaves` | xinu-fall2022-paging/system/kill.c:28-34 | kill leaves the count of the page table in its frame, which is free again and from which newpt may make a table that starts with it |
| `PagerCount.HandleCountsIs` | xinu-fall2022-paging/system/pgfhandler.c:45-125 | the count along the handler's branches is the count of the machine's fault step |
| `PagerKill.StepApart` | xinu-fall2022-paging/system/kill.c:28-42 | between the two halves of kill, with the victim's tables still naming frames that are free or somebody else's, every step of the others is the step they would take if the victim were gone |
| `PagerKill.KillInTwo` | xinu-fall2022-paging/system/kill.c:28-65 | whatever harmless steps the others take while kill has given up the processor to the parent: as long as the victim takes none, kill ends in a state of the invariant |
| `PagerKill.GapBytes` | xinu-fall2022-paging/system/kill.c:28-42 | and the pages of the others keep their bytes meanwhile |
| `PagerKill.StrayStore` | xinu-fall2022-paging/system/kill.c:36-36 | if the victim does run, a store to a page that its table still names leaves the pages of the others alone exactly when nobody has got the frame yet, or the byte is the same |
| `BlockQueues.PutKeeps` | xinu-fall2022-paging/system/frameblock.c:11-21 | everybody in the ring stays in it exactly when it has fewer entries than slots, or there is nobody in it but the newcomer |
| `BlockQueues.BlockQueue.Insert` | xinu-fall2022-paging/system/frameblock.c:11-21 | the circular array holds the old queue and the process behind it if there is a slot, and the process alone if there is none |
| `BlockQueues.BlockQueue.Dequeue` | xinu-fall2022-paging/system/frameblock.c:24-36 | the first process of the circular array is taken, SYSERR when there is none |
| `PagerImpl.Machine.MapFreeFrame` | xinu-fall2022-paging/system/pgfutil.c:17-41 | the in-place updates follow the model of mapfreeframe |
| `PagerImpl.Machine.RestoreFrame` | xinu-fall2022-paging/system/pgfutil.c:58-86 | the byte-copy loop and the updates follow the model of restoreframe |
| `PagerImpl.Machine.EvictFrame` | xinu-fall2022-paging/system/pgfutil.c:102-149 | the byte-copy loop and the updates follow the model of evictframe |
| `PagerImpl.Machine.SwapFrame` | xinu-fall2022-paging/system/pgfutil.c:168-201 | the copy through the static buffer follows the model of swapframe |
| `PagerImpl.Machine.PdeInvCheck` | xinu-fall2022-paging/system/pagingmgmt.c:24-47 | a missing page table is made; false stands for the panic |
| `PagerImpl.Machine.PgfHandler` | xinu-fall2022-paging/system/pgfhandler.c:45-125 | the global address is set, the handler's branches follow the machine's fault step, and the reference count of the page table goes up as they say |
| `PagerImpl.Machine.BlockOrMap` | xinu-fall2022-paging/system/pgfhandler.c:95-122 | one turn of the blocking loop: the process waits, or the page at the global address gets a frame and is counted |
| `PagerImpl.Machine.SetPagesDeallocated` | xinu-fall2022-paging/system/vmhfreemem.c:8-59 | the unmapping loop follows the model, and the reference count of the page table goes down by the pages that had a frame |
| `PagerImpl.Machine.KillFrames` | xinu-fall2022-paging/system/kill.c:28-42 | the loop over the inverted page table and the wake-up follow the machine's kill step |
| `PagerImpl.Machine.NewPd` | xinu-fall2022-paging/system/pagingmgmt.c:53-91 | the loop fills the directory of a new process with the shared entries and absent ones; false stands for SYSERR |
| `LfCodec.IbRoundTrip` | xinu-fall2022-paging/include/lfilesys.h:71-76 | an index block read back from its 72 bytes is the one written |
| `LfCodec.DirRoundTrip` | xinu-fall2022-paging/include/lfilesys.h:109-116 | a directory read back from its sector is the one written |
| `LfDisk.GetSetIb` | xinu-fall2022-paging/device/lfs/lfibput.c:10-43 | reading an index block after writing it gives it back; the other index blocks, also of the same sector, and the other sectors do not change |
| `LfDisk.ViewSetIb` | xinu-fall2022-paging/device/lfs/lfibput.c:23-41 | on the bytes of the disk, writing an index block changes that index block of the file system and nothing else |
| `LfDevice.Device.IbGet` | xinu-fall2022-paging/device/lfs/lfibget.c:10-31 | the copy loop delivers the 72 bytes of the index block |
| `LfDevice.Device.IbPut` | xinu-fall2022-paging/device/lfs/lfibput.c:10-43 | the read-modify-write replaces the 72 bytes; beyond the disk SYSERR and no change |
| `LfDevice.Device.Create` | xinu-fall2022-paging/device/lfs/lfscreate.c:10-74 | for every argument: it is rejected exactly when the index area exceeds half the sectors or there is no sector; otherwise every sector holds what the two loops leave in it, also where their unsigned counts wrap around |
| `LfDevice.CreatedGood` | xinu-fall2022-paging/device/lfs/lfscreate.c:40-71 | with at least one index sector and one data sector the disk is then formatted, and nothing beyond the given size is touched |
| `LfFormat.CreateExact` | xinu-fall2022-paging/device/lfs/lfscreate.c:31-38 | of the arguments that pass its check lfscreate makes a consistent file system of exactly those that ask for at least one index block and leave a data sector |
| `LfFormat.NoIndexBlocks` | xinu-fall2022-paging/device/lfs/lfscreate.c:51-60 | with no index block asked for, the first free index block and the first free data block are the same bytes of sector 1 |
| `LfDevice.Device.Check` | xinu-fall2022-paging/device/lfs/lfsckfmt.c:33-57 | on any consistent disk both walks end, with the lengths of the two free lists |
| `LfFormat.FormatInv` | xinu-fall2022-paging/device/lfs/lfscreate.c:40-71 | on a formatted disk the two free lists enumerate an index area and a data area that are disjoint and inside the disk, there are no files, and the file system's invariant holds |
| `LfSetup.IbAllocOk` | xinu-fall2022-paging/device/lfs/lfiballoc.c:10-33 | the first free index block moves from the free list to the file; no other file is touched |
| `LfSetup.DbAllocOk` | xinu-fall2022-paging/device/lfs/lfdballoc.c:12-40 | the first free data block moves from the free list to the file; no other file is touched |
| `LfSetup.FlushOk` | xinu-fall2022-paging/device/lfs/lfflush.c:10-42 | writing back changes no byte of any file and leaves nothing dirty |
| `LfFile.SetupOk` | xinu-fall2022-paging/device/lfs/lfsetup.c:36-119 | with the blocks it needs, lfsetup ends with the index block and the data block of the position in memory, keeps all bytes of all files, and takes a new block only where the file has none |
| `LfPanic.SetupExact` | xinu-fall2022-paging/device/lfs/lfsetup.c:36-119 | lfsetup panics exactly when the file needs a new index or data block and that free list is empty |
| `LfPanic.PutcExact` | xinu-fall2022-paging/device/lfs/lflputc.c:33-60 | lflputc panics exactly when the byte pointer is outside the buffer and lfsetup does |
| `LfOps.GetcOk` | xinu-fall2022-paging/device/lfs/lflgetc.c:30-51 | lflgetc returns the byte at the cursor or EOF at the size, advances the cursor, never needs a block, and touches no other file |
| `LfOps.PutcOk` | xinu-fall2022-paging/device/lfs/lflputc.c:30-63 | lflputc overwrites below the size and appends at the size, advances the cursor, and touches no other file |
| `LfOps.SeekOk` | xinu-fall2022-paging/device/lfs/lflseek.c:25-40 | lflseek moves the cursor up to the size, refuses beyond it, and changes no byte |
| `LfSync.FlushedOnDisk` | xinu-fall2022-paging/device/lfs/lfflush.c:19-41 | after lfflush the disk alone, without the control block, has the same bytes for every file, and the directory sector is the directory if that was marked dirty and as before if not |
| `LfSync.OpenedOk` | xinu-fall2022-paging/device/lfs/lfsopen.c:148-175 | a freshly opened control block stands for the file's bytes with the cursor at 0 |
| `LfTrunc.TruncateOk` | xinu-fall2022-paging/device/lfs/lftruncate.c:24-104 | lftruncate ends, the file is empty, exactly its index and data blocks join the free lists with the old list of free index blocks as the end of the new one, also when that was empty, and no other file is touched |
| `LfRun.StepOk` | xinu-fall2022-paging/device/lfs/lfsetup.c:36-119 | one operation on any file keeps the invariant of the whole disk and does what it does to a byte sequence with a cursor, for this file, and nothing for the others |
| `LfRun.RunRefines` | xinu-fall2022-paging/device/lfs/lfsetup.c:36-119 | every run of creations, openings, reads, writes, seeks, truncations and closings on any number of files returns what independent byte sequences with cursors return |
| `LfRun.StepExact` | xinu-fall2022-paging/device/lfs/lflputc.c:33-60 | when an operation of such a run cannot be done: exactly a second opening, an unknown file, or a byte for which a block is needed and there is none |
| `LfRun.Partition` | xinu-fall2022-paging/device/lfs/lfsetup.c:45-114 | every index block is on the free list or in one file's chain, every data block on the free list or in one file, and in one place |
| `LfRun.StepSynced` | xinu-fall2022-paging/device/lfs/lfflush.c:21-25 | after every operation, also the creation of a file: unless the directory is marked dirty, the directory sector is the directory but for entries at its end of files that have no bytes and no index block |
| `LfRun.ShutExact` | xinu-fall2022-paging/device/lfs/lflclose.c:27-36 | after the file is closed its entry is in the directory sector exactly when the directory was marked dirty or had it before; its bytes are then on the disk, and otherwise it has none |
| `LfRun.Reopened` | xinu-fall2022-paging/device/lfs/lflclose.c:27-36 | after any run, a file that is closed and opened again from the directory sector and the disk alone reads from its start the bytes the run has put into it, unless it has none and its entry was never written |
| `LfRun.CreateThenShut` | xinu-fall2022-paging/device/lfs/lfsopen.c:130-139 | creating a file does not mark the directory dirty: closing it at once writes its entry exactly when the directory was dirty before |
| `LfBytes.RunFits` | xinu-fall2022-paging/include/lfilesys.h:71-119 | over any run on a disk of at most 2^32 bytes no block number, offset or file size outgrows the 32 bits it has on the disk |
| `LfBytes.FormatGood` | xinu-fall2022-paging/device/lfs/lfscreate.c:10-74 | a new disk satisfies what the next two rows start from, and has no files |
| `LfBytes.RunOnBytes` | xinu-fall2022-paging/device/lfs/lfflush.c:10-42 | a run that starts from the bytes of a disk returns what independent byte sequences return, and there are bytes of sectors that say what the file system has on the disk at its end |
| `LfBytes.Session` | xinu-fall2022-paging/device/lfs/lfsopen.c:80-92 | mount, any operations on any files, close them all: mounted again from the bytes, and from nothing else, the file system is consistent and has the files that the operations have made, except for last ones without bytes; so that sessions can follow each other |
| `LfStream.WriteExact` | xinu-fall2022-paging/device/lfs/lflwrite.c:22-28 | lflwrite does not panic exactly when the free lists have what all its bytes together need |
| `LfStream.ReadBack` | xinu-fall2022-paging/device/lfs/lflread.c:22-38 | on the file system with its buffers and blocks: bytes written to an open file, wherever its cursor stands, are what is read after seeking back |
| `LfImpl.FileSystem.IbAlloc` | xinu-fall2022-paging/device/lfs/lfiballoc.c:10-33 | the updates of directory and disk follow the model |
| `LfImpl.FileSystem.DbAlloc` | xinu-fall2022-paging/device/lfs/lfdballoc.c:12-40 | the updates of directory, disk and buffer follow the model |
| `LfImpl.FileSystem.DbFree` | xinu-fall2022-paging/device/lfs/lfdbfree.c:10-25 | the block becomes the head of the free list on disk |
| `LfImpl.OpenFile.ClearIb` | xinu-fall2022-paging/device/lfs/lfibclear.c:9-22 | the loop clears all sixteen pointers |
| `LfImpl.OpenFile.Flush` | xinu-fall2022-paging/device/lfs/lfflush.c:10-42 | the three conditional writes follow the model |
| `LfImpl.OpenFile.Setup` | xinu-fall2022-paging/device/lfs/lfsetup.c:10-122 | the walk along the chain and the loading of the block follow the model |
| `LfImpl.OpenFile.Getc` | xinu-fall2022-paging/device/lfs/lflgetc.c:9-52 | the updates of the control block follow the model |
| `LfImpl.OpenFile.Putc` | xinu-fall2022-paging/device/lfs/lflputc.c:9-64 | the updates of control block, size and buffer follow the model |
| `LfImpl.OpenFile.Seek` | xinu-fall2022-paging/device/lfs/lflseek.c:9-41 | the updates of the control block follow the model |
| `LfImpl.OpenFile.Close` | xinu-fall2022-paging/device/lfs/lflclose.c:9-38 | the test of lfstate, the write-back and the release follow the model |
| `LfImpl.OpenFile.Truncate` | xinu-fall2022-paging/device/lfs/lftruncate.c:10-104 | the nested loops over index blocks and their slots follow the model |
| `LfImpl.OpenFile.Read` | xinu-fall2022-paging/device/lfs/lflread.c:9-39 | the buffer receives what is left of the file up to count bytes and nothing else of it changes; EOF when nothing is left, SYSERR for a negative count |
| `LfImpl.OpenFile.Write` | xinu-fall2022-paging/device/lfs/lflwrite.c:9-29 | the bytes replace what is at the cursor and extend the file as needed; no other file is touched |
| `FreeList.GetOk` | xinu-fall2022-paging/system/getmem.c:22-49 | getmem fails exactly when no block is large enough; what it returns was free, is taken, and the list is again sorted, disjoint and without adjacent blocks |
| `FreeList.GetTopOk` | xinu-fall2022-paging/system/getstk.c:23-51 | the same for getstk, from the top of the last block that fits |
| `FreeList.PutOk` | xinu-fall2022-paging/system/freemem.c:25-69 | freemem accepts a block exactly when no part of it is free, adds exactly its addresses, and the list is canonical exactly when the block lay inside the heap |
| `FreeList.Unique` | xinu-fall2022-paging/system/freemem.c:51-67 | a canonical list is determined by its set of free addresses |
| `FreeList.GetPut` | xinu-fall2022-paging/system/freemem.c:25-69 | freeing what getmem or getstk returned restores the identical list |
| `HeapRun.GetExact` | xinu-fall2022-paging/include/memory.h:10-11 | what getmem or getstk returns is the caller's alone exactly when the request is not within seven bytes of 2^32, where rounding makes it nothing |
| `HeapRun.RunKeeps` | xinu-fall2022-paging/system/getmem.c:9-50 | in any run of requests and frees of any size no free is refused or breaks the list exactly when no pointer got for a request within seven bytes of 2^32 is handed to freemem, unless the byte before it is free; every address is then free or in exactly one live block |
| `HeapRun.FreeStep` | xinu-fall2022-paging/include/memory.h:17-20 | freestk inverts the address of getstk, freemem that of getmem: giving back a live block succeeds exactly when the call is safe in that sense |
| `HeapRun.AllFreed` | xinu-fall2022-paging/system/meminit.c:78-83 | when nothing is live the heap is again the one block it was at the start |
| `HeapRun.NodesFitExact` | xinu-fall2022-paging/system/meminit.c:73-85 | every free block has room for the node kept in it in every run exactly when the heap is a whole number of eight-byte nodes long |
| `HeapRun.LiveApart` | xinu-fall2022-paging/system/getstk.c:23-51 | live blocks of at least one byte never overlap |
| `HeapRun.StepSum` | xinu-fall2022-paging/system/freemem.c:49-49 | the total in memlist and the live blocks add up to the same at all times |
| `NodeLists.NodeList.First` | xinu-fall2022-paging/system/getmem.c:24-47 | the pointer walk and the split in place follow first fit |
| `NodeLists.NodeList.Last` | xinu-fall2022-paging/system/getstk.c:25-49 | the scan of the whole list and the cut from the top follow last fit |
| `NodeLists.NodeList.Give` | xinu-fall2022-paging/system/freemem.c:28-67 | the walk, the overlap test and the two merges in place, with sums that wrap around, leave the fields as the model of them says, and the canonical insertion for a block of at least one byte inside the heap |
| `NodeLists.GiveExact` | xinu-fall2022-paging/system/freemem.c:41-67 | an accepted block leaves a list in order with exactly this block added, exactly when it lies inside the heap and, if it has no length, stands at the end of a free block |
| `NodeLists.NoEnd` | xinu-fall2022-paging/system/freemem.c:51-67 | a block of no length given back at a free block links that node to itself: no walk along the list ever ends |
| `KernelHeaps.KernelHeap.constructor` | xinu-fall2022-paging/system/meminit.c:62-85 | the heap is one free block |
| `KernelHeaps.KernelHeap.GetMem` | xinu-fall2022-paging/system/getmem.c:9-50 | the call with its rounding and its error results |
| `KernelHeaps.KernelHeap.GetStk` | xinu-fall2022-paging/system/getstk.c:9-52 | the call with its rounding, its error results and the offset of four bytes |
| `KernelHeaps.KernelHeap.FreeMem` | xinu-fall2022-paging/system/freemem.c:9-70 | the call for any arguments: its error results, and the fields it leaves otherwise |
| `KernelHeaps.FreeMemExact` | xinu-fall2022-paging/system/freemem.c:18-25 | an accepted call gives back exactly the bytes it was asked to, in a list in order, exactly when the request is not within seven bytes of 2^32 and the block lies inside the heap |
| `KernelHeaps.KernelHeap.FreeStk` | xinu-fall2022-paging/include/memory.h:17-20 | the address arithmetic of freestk in front of freemem, for any arguments |
| `VirtualHeaps.InitInv` | xinu-fall2022-paging/system/vmhinit.c:9-27 | the first use of a heap makes it one free block whose node's page is marked |
| `VirtualHeaps.GetMemOk` | xinu-fall2022-paging/system/vmhgetmem.c:25-70 | vmhgetmem fails exactly when no block has that many pages; the pages returned were free and are marked, nothing else becomes used, and every page that is used or holds a node is marked |
| `VirtualHeaps.FreeMemOk` | xinu-fall2022-paging/system/vmhfreemem.c:65-150 | vmhfreemem accepts a block exactly when it lies in the heap and all its pages are in use; exactly these become free, and every used or node page stays marked |
| `VirtualHeaps.FreeExact` | xinu-fall2022-paging/system/vmhfreemem.c:138-143 | the marks stay exact, that is no unused page without a node is marked, exactly when the block does not merge with the one behind it |
| `VirtualHeaps.RunOk` | xinu-fall2022-paging/system/vmhgetmem.c:42-66 | over any run the pages held and the free pages partition the heap, what is held is what was obtained and not given back, and between the calls a touch of a held page or of a list node is never a segmentation fault |
| `VirtualHeaps.VirtualHeap.VmhInit` | xinu-fall2022-paging/system/vmhinit.c:9-27 | the header, the first node and the flag follow the model |
| `VirtualHeaps.VirtualHeap.VmhGetMem` | xinu-fall2022-paging/system/vmhgetmem.c:25-70 | the walk, the split and the marking loop follow the model, and every node that is read or written lies in a page that is marked at that moment |
| `VirtualHeaps.VirtualHeap.VmhFreeMem` | xinu-fall2022-paging/system/vmhfreemem.c:65-143 | the checks, the walk, the link, the unmarking loop and the merge follow the model in this order, and every node that is read or written lies in a page that is marked at that moment |
| `Delta.InsertOrder` | xinu-fall2022-paging/system/insert.c:22-34 | the newcomer stands behind all with its key or a higher one and before all others |
| `Delta.InsertDRem` | xinu-fall2022-paging/system/insertd.c:22-39 | the new sleeper has its delay and every other sleeper the time left that it had |
| `Delta.RemoveDRem` | xinu-fall2022-paging/system/unsleep.c:39-44 | every other sleeper has the time left that it had |
| `Delta.InsertDGood` | xinu-fall2022-paging/system/insertd.c:22-39 | the list stays in order, with at least one tick to go for the first, exactly for a delay of at least one tick |
| `Delta.TickExact` | xinu-fall2022-paging/system/clkhandler.c:28-36 | one tick takes one off everybody's time and releases exactly those whose time it ends |
| `Delta.TickLost` | xinu-fall2022-paging/system/clkhandler.c:28-36 | when the first key was below one, as after recvtime(0), the tick is lost for all who go on sleeping, and only then |
| `SchedInv.ReschedOk` | xinu-fall2022-paging/system/resched.c:16-49 | resched never meets an empty ready list, runs a process of the highest priority, and of the others only puts one in or takes the first out |
| `SchedSteps.WaitOk` | xinu-fall2022-paging/system/wait.c:29-35 | keeps the invariant of SchedRun.RunOk, and the ready processes that stay ready stay in their order |
| `SchedSteps.SignalOk` | xinu-fall2022-paging/system/signal.c:26-28 | keeps the invariant of SchedRun.RunOk, and the ready processes that stay ready stay in their order |
| `SchedSteps.SignalnOk` | xinu-fall2022-paging/system/signaln.c:28-34 | keeps the invariant of SchedRun.RunOk, and the ready processes that stay ready stay in their order, through the deferral |
| `SchedSteps.SemresetOk` | xinu-fall2022-paging/system/semreset.c:27-32 | keeps the invariant of SchedRun.RunOk, and the ready processes that stay ready stay in their order, through the deferral |
| `SchedSteps.SemdeleteOk` | xinu-fall2022-paging/system/semdelete.c:27-33 | keeps the invariant of SchedRun.RunOk, and the ready processes that stay ready stay in their order, through the deferral |
| `SchedSteps.SendOk` | xinu-fall2022-paging/system/send.c:29-38 | keeps the invariant of SchedRun.RunOk, and the ready processes that stay ready stay in their order, also when a timed wait is cut short |
| `SchedSteps.SuspendOk` | xinu-fall2022-paging/system/suspend.c:27-37 | keeps the invariant of SchedRun.RunOk, and the ready processes that stay ready stay in their order |
| `SchedSteps.KillEndOk` | xinu-fall2022-paging/system/kill.c:44-65 | keeps the invariant of SchedRun.RunOk, and the ready processes that stay ready stay in their order, whatever state the victim is in |
| `SchedSteps.TickOk` | xinu-fall2022-paging/system/clkhandler.c:26-36 | keeps the invariant of SchedRun.RunOk, and the ready processes that stay ready stay in their order; the sleepers left are those of Delta.TickExact |
| `SchedSteps.WakeLoopOk` | xinu-fall2022-paging/system/wakeup.c:11-18 | the loop makes exactly the expired sleepers ready and leaves the other processes and the semaphores alone |
| `SchedMeaning.WaitMeaning` | xinu-fall2022-paging/system/wait.c:9-39 | the count goes down by one; below zero the caller is the last of the queue and waiting for this semaphore; nothing else changes but who has the processor |
| `SchedMeaning.SignalMeaning` | xinu-fall2022-paging/system/signal.c:9-31 | the count goes up by one; when it was below zero the first of the queue is ready; nothing else changes |
| `SchedMeaning.SignalnMeaning` | xinu-fall2022-paging/system/signaln.c:9-37 | the count goes up by n and the first n of the queue, or all, are ready; nothing else changes |
| `SchedMeaning.SemresetMeaning` | xinu-fall2022-paging/system/semreset.c:9-35 | the count is the new one, the queue empty, and all who waited are ready; nothing else changes |
| `SchedMeaning.SemdeleteMeaning` | xinu-fall2022-paging/system/semdelete.c:9-36 | the semaphore is free, its queue empty, and all who waited are ready; nothing else changes |
| `SchedMeaning.SendMeaning` | xinu-fall2022-paging/system/send.c:9-41 | the receiver has the message unless it had one, and is ready if it waited; nothing else changes |
| `SchedMeaning.MessageMeaning` | xinu-fall2022-paging/system/recvtime.c:9-44 | the caller of receive or recvtime waits exactly when it has no message, the caller of sleepms sleeps; nothing else changes |
| `SchedMeaning.SuspendMeaning` | xinu-fall2022-paging/system/suspend.c:9-41 | suspend and resume change exactly the processes in the right states; nothing else changes |
| `SchedMeaning.KillMeaning` | xinu-fall2022-paging/system/kill.c:44-65 | the victim is free and off its semaphore's queue, whose count goes up by one; nothing else changes |
| `SchedMeaning.TickMeaning` | xinu-fall2022-paging/system/clkhandler.c:26-36 | exactly the sleepers whose time has come are ready; nothing else changes |
| `SchedMeaning.StepMeaning` | xinu-fall2022-paging/system/resched.c:11-81 | every operation does to every process and every semaphore exactly what it means, whatever the ready list, the deferral and the switch do meanwhile |
| `SchedMeaning.MessageKept` | xinu-fall2022-paging/system/send.c:24-30 | over any run a message that was sent is neither lost nor overwritten before its receiver takes it |
| `SchedMeaning.ReceiveReturns` | xinu-fall2022-paging/system/receive.c:18-23 | a process that has waited for a message goes on with one exactly when it is not framewakeup that has found its number |
| `SchedMeaning.NeverIgnored` | xinu-fall2022-paging/system/receive.c:18-21 | in no reachable state does a process wait for a message that has been sent to it |
| `SchedRun.RunOk` | xinu-fall2022-paging/system/resched.c:11-50 | in every reachable state process states agree with the lists they are on, exactly one process is current, nobody ready has a higher priority, and a used semaphore has as many waiting as its count is below zero |
| `SchedRun.OneList` | xinu-fall2022-paging/system/queue.c:11-52 | no process is on two lists of the shared table |
| `SchedRun.StaysInFront` | xinu-fall2022-paging/system/insert.c:22-34 | of two ready processes that stay ready the one in front stays in front, whatever is done: equal priorities are served first in, first out |
| `SchedRun.LeftStep` | xinu-fall2022-paging/system/insertd.c:22-39 | only ticks change a sleeper's time, each by one, and the last makes it ready; a message for a process in sleepms changes nothing |
| `SchedRun.RousesExact` | xinu-fall2022-paging/system/send.c:33-38 | apart from the clock, a sleeper leaves the sleep queue exactly by being killed, or by a message when it waits for one with a timeout and has none |
| `SchedSleep.SleepsExactly` | xinu-fall2022-paging/system/sleep.c:26-50 | a process that sleeps for d ticks sleeps through d - 1 ticks and is released by the d-th, over any run in which it is not killed, also when it is sent messages |
| `SchedSleep.TimesOutExactly` | xinu-fall2022-paging/system/recvtime.c:24-32 | a process that waits for a message for at most d ticks, over any run in which it is sent none and not killed, waits through d - 1 ticks and goes on at the d-th, without a message |
| `SchedRun.DelayExact` | xinu-fall2022-paging/system/sleep.c:41-44 | the unsigned delay is in order as the signed key of insertd exactly below 2^31 |
| `SchedRun.BootOk` | xinu-fall2022-paging/system/initialize.c:134-175 | the invariant holds at the start |
| `SchedFrames.WakeExact` | xinu-fall2022-paging/system/frameblock.c:64-79 | framewakeup keeps the scheduler's invariant exactly when every number in the block queue is nobody's, or that of a process which is on no list and does not come a second time |
| `SchedFrames.StaleEntry` | xinu-fall2022-paging/system/frameblock.c:64-79 | what happens otherwise: the process is ready or runs and is still on the list of sleepers, still in the queue of its semaphore, or a second time on the ready list |
| `SchedFrames.StaleRun` | xinu-fall2022-paging/system/create.c:111-128 | how that comes about: a run from the start in which a process blocks on a frame and is killed, its number is given out again, the new process sleeps, and framewakeup makes it run while it is asleep |
| `SchedFrames.CleanRun` | xinu-fall2022-paging/system/frameblock.c:42-79 | over any run in which create gives out no number that is in the ring, the invariant holds and the ring names only processes that wait for a frame or have been killed, each once |
| `FrameImpl.FrameBlock` | xinu-fall2022-paging/system/frameblock.c:42-58 | ring, state and switch follow the scheduler's model, also when the ring is full |
| `FrameImpl.FrameWakeup` | xinu-fall2022-paging/system/frameblock.c:64-79 | the loop under the deferral empties the ring and makes its processes ready while there is a free frame, and does nothing otherwise |
| `QueueTabs.LinkTab` | xinu-fall2022-paging/system/queue.c:22-28 | linking a process in leaves all other lists on the shared table as they are |
| `QueueTabs.CutTab` | xinu-fall2022-paging/system/getitem.c:52-56 | unlinking a process leaves all other lists on the shared table as they are |
| `QueueImpl.QueueTab.NewQueue` | xinu-fall2022-paging/system/newqueue.c:21-29 | the list is empty between its two sentinels, and the lists before it are as they were |
| `QueueImpl.QueueTab.Enqueue` | xinu-fall2022-paging/system/queue.c:11-30 | the process is behind all others of its list |
| `QueueImpl.QueueTab.Dequeue` | xinu-fall2022-paging/system/queue.c:36-52 | the first process leaves the list; EMPTY when there is none |
| `QueueImpl.QueueTab.GetFirst` | xinu-fall2022-paging/system/getitem.c:9-22 | the first process leaves the list; EMPTY when there is none |
| `QueueImpl.QueueTab.GetItem` | xinu-fall2022-paging/system/getitem.c:47-58 | the process leaves its list, wherever it stands |
| `QueueImpl.QueueTab.Insert` | xinu-fall2022-paging/system/insert.c:9-36 | the walk stops at the tail's key at the latest, and the list is the old one with the process in its place |
| `QueueImpl.QueueTab.InsertD` | xinu-fall2022-paging/system/insertd.c:9-42 | the walk and the adjustment of the next key follow the delta list |
| `QueueImpl.QueueTab.Undelay` | xinu-fall2022-paging/system/unsleep.c:37-44 | the delay goes to the next sleeper and the process leaves the list |
| `SchedImpl.Scheduler.Resched` | xinu-fall2022-paging/system/resched.c:11-50 | the switch and its exceptions follow the model |
| `SchedImpl.Scheduler.StopDefer` | xinu-fall2022-paging/system/resched.c:69-76 | the remembered attempt is made up for when the last deferral ends |
| `SchedImpl.Scheduler.ReadyProc` | xinu-fall2022-paging/system/ready.c:11-29 | ready follows the model |
| `SchedImpl.Scheduler.Wait` | xinu-fall2022-paging/system/wait.c:9-39 | count, state and queue follow the model; SYSERR exactly for a bad or free semaphore |
| `SchedImpl.Scheduler.Signal` | xinu-fall2022-paging/system/signal.c:9-31 | count and wake-up follow the model; SYSERR exactly for a bad or free semaphore |
| `SchedImpl.Scheduler.Signaln` | xinu-fall2022-paging/system/signaln.c:9-37 | the loop follows the model; SYSERR exactly for a negative count or a bad or free semaphore |
| `SchedImpl.Scheduler.Semreset` | xinu-fall2022-paging/system/semreset.c:9-35 | the loop follows the model; SYSERR exactly for a negative count or a bad or free semaphore |
| `SchedImpl.Scheduler.Semdelete` | xinu-fall2022-paging/system/semdelete.c:9-36 | the loop with its count follows the model; SYSERR exactly for a bad or free semaphore |
| `SchedImpl.Scheduler.Send` | xinu-fall2022-paging/system/send.c:9-41 | message, wake-up and early end of a timed wait follow the model; SYSERR exactly when there is no such process or it has a message |
| `SchedImpl.Scheduler.Receive` | xinu-fall2022-paging/system/receive.c:9-21 | the process blocks when it has no message |
| `SchedImpl.Scheduler.TakeMsg` | xinu-fall2022-paging/system/receive.c:22-25 | the message and whether there was one |
| `SchedImpl.Scheduler.Recvtime` | xinu-fall2022-paging/system/recvtime.c:9-33 | the timed wait follows the model |
| `SchedImpl.Scheduler.Sleepms` | xinu-fall2022-paging/system/sleep.c:26-50 | the delay goes to insertd as it does in the program; no delay is a yield |
| `SchedImpl.Scheduler.Suspend` | xinu-fall2022-paging/system/suspend.c:9-41 | a ready or current process is suspended, SYSERR exactly for all others |
| `SchedImpl.Scheduler.Resume` | xinu-fall2022-paging/system/resume.c:9-31 | a suspended process becomes ready, SYSERR exactly for all others |
| `SchedImpl.Scheduler.KillEnd` | xinu-fall2022-paging/system/kill.c:44-65 | the process leaves the list its state says |
| `SchedImpl.Scheduler.Wakeup` | xinu-fall2022-paging/system/wakeup.c:9-20 | the loop follows the model |
| `SchedImpl.Scheduler.Tick` | xinu-fall2022-paging/system/clkhandler.c:26-36 | the first key counts down and wakeup is called when it is used up |
| `SchedImpl.Scheduler.Slice` | xinu-fall2022-paging/system/clkhandler.c:38-44 | the time slice counts down and resched is called when it is used up |
| `PortSteps.LinkOk` | xinu-fall2022-paging/system/ptsend.c:36-56 | with a place promised and a node free the message is linked and places, messages and nodes add up; without a node the ports together take more messages than there are nodes |
| `PortSteps.TakeOk` | xinu-fall2022-paging/system/ptrecv.c:35-45 | with a message promised there is one, and places, messages and nodes add up afterwards |
| `PortSteps.SendOk` | xinu-fall2022-paging/system/ptsend.c:9-59 | ptsend keeps the invariant whether it passes or waits, and panics exactly when it passes and no node is free |
| `PortSteps.RecvOk` | xinu-fall2022-paging/system/ptrecv.c:9-48 | ptrecv keeps the invariant whether it passes or waits, and never finds the list empty |
| `PortSteps.GoOnOk` | xinu-fall2022-paging/system/ptsend.c:27-34 | a process that was woken, and has been overtaken by any number of others, keeps the invariant when it goes on, also when the port was reset, deleted or created anew meanwhile |
| `PortSteps.ClearOk` | xinu-fall2022-paging/system/ptclear.c:18-42 | the first part of _ptclear, up to the first semaphore, keeps the invariant |
| `PortSteps.ClearOnOk` | xinu-fall2022-paging/system/ptclear.c:42-50 | the rest of _ptclear keeps the invariant, whatever has run in between: nobody who waited before takes part afterwards |
| `PortSteps.CreateOk` | xinu-fall2022-paging/system/ptcreate.c:29-39 | a new port starts with all places free, and nobody from before knows it by its number |
| `PortSteps.KillExact` | xinu-fall2022-paging/system/kill.c:55-65 | killing a process keeps the ports in order exactly when no place or message has been promised to it |
| `PortRun.RunOk` | xinu-fall2022-paging/system/ptsend.c:27-56 | over all interleavings of sends, receives, resets, deletions, creations and such kills: free places, places promised to awakened senders and messages on the list make up the capacity; free receives and awakened receivers make up the messages; the queues hold exactly those who wait; every node is on exactly one list, and none is made or lost |
| `PortRun.NeverPanics` | xinu-fall2022-paging/system/ptsend.c:36-38 | as long as the existing ports together take no more messages than there are nodes, ptsend never runs out of nodes |
| `PortRun.InOrder` | xinu-fall2022-paging/system/ptrecv.c:35-43 | while the port is not cleared, what receivers have taken is a prefix of what senders have linked: every message arrives once and in order |
| `PortRun.NoneForgotten` | xinu-fall2022-paging/system/ptsend.c:55-56 | while somebody waits to receive, every message on the list is promised to an awakened receiver; while somebody waits to send, the port is full up to promised places |
| `PortRun.ReceiverFinds` | xinu-fall2022-paging/system/ptrecv.c:35-37 | a receiver that gets past its checks finds a node, whether it has waited or not |
| `PortRun.PtCountIs` | xinu-fall2022-paging/system/ptcount.c:26-41 | ptcount is the messages on the list less those promised to awakened receivers, plus the senders that wait; below zero, the receivers that wait. The comment above ptcount leaves the promised messages out of account |
| `PortRun.ResetCapacity` | xinu-fall2022-paging/system/ptclear.c:38-39 | a reset leaves the capacity of a new port as it was exactly when it fits the 16 bits of ptmaxcnt |
| `PortRun.CreateExact` | xinu-fall2022-paging/system/ptcreate.c:24-45 | ptcreate succeeds exactly when the count is not negative and some entry is free |
| `PortRun.InitOk` | xinu-fall2022-paging/system/ptinit.c:13-45 | the invariant holds at the start, with every node on the free list |
| `PortImpl.PortTab.constructor` | xinu-fall2022-paging/system/ptinit.c:13-45 | the loop links all nodes into one list |
| `PortImpl.PortTab.LinkMsg` | xinu-fall2022-paging/system/ptsend.c:36-56 | the pointer updates put the first free node behind the port's list |
| `PortImpl.PortTab.TakeMsg` | xinu-fall2022-paging/system/ptrecv.c:35-45 | the pointer updates move the port's first node to the front of the free list; the message is the one it held |
| `PortImpl.PortTab.Send` | xinu-fall2022-paging/system/ptsend.c:9-59 | the call up to its end or its wait; SYSERR exactly when the port is not in use |
| `PortImpl.PortTab.Recv` | xinu-fall2022-paging/system/ptrecv.c:9-48 | the call up to its end or its wait, and the message when there is one |
| `PortImpl.PortTab.GoOn` | xinu-fall2022-paging/system/ptrecv.c:28-33 | the second half of ptsend or ptrecv, with the test of state and number |
| `PortImpl.PortTab.Dispose` | xinu-fall2022-paging/system/ptclear.c:26-30 | the walk hands over all messages of the port in their order |
| `PortImpl.PortTab.Clear` | xinu-fall2022-paging/system/ptclear.c:18-39 | the splice of the whole list into the free list and the first semaphore follow the model |
| `PortImpl.PortTab.ClearOn` | xinu-fall2022-paging/system/ptclear.c:40-50 | the second semaphore and the new state follow the model |
| `PortImpl.PortTab.Create` | xinu-fall2022-paging/system/ptcreate.c:9-46 | the scan around the table finds a free entry if there is one |
| `Crc32.TableByte` | xinu-fall2022-paging/compile/uboot-tool/crc32.c:65-73 | one table step is eight steps of the bit-at-a-time division, for every register and byte |
| `Crc32.MakePattern` | xinu-fall2022-paging/compile/uboot-tool/crc32.c:60-63 | the polynomial put together from its terms is the reversed CRC-32 polynomial |
| `Crc32.MakeCrcTable` | xinu-fall2022-paging/compile/uboot-tool/crc32.c:65-73 | the loops fill the table with the eight-step remainders |
| `CrcTable.CrcTableOk` | xinu-fall2022-paging/compile/uboot-tool/crc32.c:78-131 | the 256 literal entries are those of make_crc_table |
| `Crc32.Crc32` | xinu-fall2022-paging/compile/uboot-tool/crc32.c:155-177 | the unrolled table-driven loop computes the bit-at-a-time CRC for every start value and every byte string |
| `Crc32.CrcAppend` | xinu-fall2022-paging/compile/uboot-tool/crc32.c:155-177 | the checksum of a concatenation is the checksum of the second part started from that of the first |
| `Crc32.FeedInjective` | xinu-fall2022-paging/compile/uboot-tool/crc32.c:149-149 | different registers stay different whatever bytes follow |
| `Crc32.BurstDetected` | xinu-fall2022-paging/compile/uboot-tool/crc32.c:155-177 | messages of one length that differ only within four neighbouring bytes have different checksums |

## Left out

- LfImpl.OpenFile.Write: needs the blocks for all its bytes beforehand, since the program panics without them; `LfStream.WriteExact` says that it panics exactly then.
- LfDevice.Device.Create: needs a disk that holds the size given and has fewer than 2^31 sectors; where the count of data blocks wraps around, the loop counter is taken to wrap around as well.
- KernelHeaps.KernelHeap.FreeMem: what a node behind the end of the heap overwrites there is not modelled; the words at address 0, which the program reads when a block ends at 2^32, are arbitrary.
- VirtualHeaps.VirtualHeap.VmhFreeMem: needs a block that ends inside the heap or meets a page not allocated before it does, since the marks behind the last page belong to nobody; the addresses are page numbers.
- VirtualHeaps.FreeMemOk: the same.
- VirtualHeaps.RunOk: the same.
- PagerMachine.RunSafe: takes harmless steps only, and `PagerExact.StepExact` says that exactly the others break the invariant; what the program does behind such a step is followed in `PagerWait` only.
- PagerMachine.StepSafe: one page table per process heap, since the shipped heap has exactly as many pages as a table has entries.
- PagerImpl.Machine.PgfHandler: the bits of the error code, the translation buffer and CR3 are hardware, and after the panic nothing more is said; a resumed process runs `BlockOrMap` again, and a fault with the protection bit set would only store its address.
- SchedImpl.Scheduler.Receive: receive and recvtime are modelled in two halves, before and behind the switch; `SchedMeaning.ReceiveReturns` joins them.
- SchedRun.RunOk: the null process makes no call that blocks, priorities are above the least key, and framewakeup is called only when `SchedFrames.WakeExact` says that it keeps the invariant.
- PortRun.RunOk: a process to which something is promised is not killed; `PortSteps.KillExact` says that exactly these kills break the law.
- Crc32.Crc32: the register is 32 bits, also where the type of the program is wider.
- Faults outside the heap of a process, where the program indexes `pralloc` beyond its end.
- SchedRun.BootOk: the null process on empty tables; the processes that `nulluser` then creates are steps of a run.
- kill: what a victim does that runs between the halves of its own kill, beyond one store (`PagerKill.StrayStore`); and a process that is killed inside `_ptclear` leaves its port in limbo for ever.
- The five page tables that all processes share are parameters: filling them at start-up, and the protection bits of page table entries, are left out.
- Names and modes in lfsopen: its test whether a file is already open compares names that were never copied; the model gives each file at most one handle.
- Crashes between two disk writes, and with them the order of the writes inside one operation; disk errors inside the file.
- File sizes and positions near 2^32 on a disk of more bytes than that, semaphore counts near 2^31, and the sequence numbers of ports: these are unbounded in the model.
- chprio: it does not reposition a process on the ready list, so that keys and priorities part.
- Stack building and context switching in create and ctxsw; freeing the stack and closing the devices in kill.
- newsem's search for a free semaphore, and ports whose semaphores could not be created.
- Remote disks, tty, Ethernet, the Internet protocols, the shell and the configuration tools.

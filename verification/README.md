# QEMU core verification

A Dafny model of the parts of QEMU 2.1.3 (`docker/qemu/qemu_stm32`) whose
correctness depends on interleavings, in-place tree surgery or bit arithmetic,
with proofs of what they promise.

- **Block layer** (`block.c`).  `TrackedRequests` is a step system of coroutines
  that register requests, widen them to an alignment, wait for conflicting ones
  and turn unaligned writes into read-modify-write; `BlockDevice` is the code that
  works on the list.  `Multiwrite` is the merging of write requests.
- **Physical address dispatch** (`exec.c`).  `PhysPageMap` with `Arithmetic`,
  `PhysPageTree`, `PhysDispatch` and `AddressSpace` cover the radix tree, its path
  compression, subpages and the rebuild of a dispatch.  `RamList` is the RAM-block
  allocator.
- **RAM migration** (`arch_init.c`).  `DirtyBitmap` and `RamSender` are bitmap,
  counter and scan; `RamMigration` is the protocol against a receiver; `RamStream`
  is the byte stream and its parser.
- **Disk migration** (`block-migration.c`).  `BlockMigration` is the protocol,
  `BlockSaver` the loops over sectors.
- **Event loop** (`async.c`, `aio-posix.c`).  `BottomHalves` is the wakeup protocol
  step by step; `AioLists` the lists under nested walks.
- **TLB and dump** (`cputlb.c`, `dump.c`).  `Tlb`; `KdumpBitmap`, `KdumpDescriptor`,
  `Kdump` and `KdumpWriter`.

Concurrent code is a state machine with one event per atomic step, an invariant
and theorems over all runs; sequential code is a class or method proved against a
function of its old state.  A `CanRun`/`Exec` pair in a module defines its runs.

Where a property that one would expect does not hold of the code, the code is kept
and the exact condition is proved:

- `multiwrite_merge` drops the tail of a request when the next one lies inside it.
  `MergeExact` says precisely when that matters.
- In the bulk stage `ram_find_and_save_block` skips the page of its cursor.
  `CallDropsIff` gives the only state in which a dirty page is dropped for it, and
  `LateWriteDropped` a migration that ends with a stale page.
- `ram_load` overwrites the error code of the block-list check, so that the next list
  entry is read as a page header.  `SetupAccepted` is the case of a last block that does
  not match; `SetupMismatch` says for all other lists, by one byte of the next entry,
  exactly when the section ends there accepted and which bytes refuse it, and
  `RefusedByLetter` is a condition on names under which it is refused.
  `UnknownBlocksAccepted` is an accepted list of unknown blocks.
- `qemu_bh_schedule_idle` can leave a scheduled bottom half that is not idle and has no
  notification.  `StrayIff` and `MissedIff` give the exact steps, `FlagsNoticed` the
  guarantee over all runs without them; `MissedByOwner` and `MissedAfterCancel` are two
  runs with them.
- In disk migration a read that completes before an earlier one of the same chunk, of
  which the in-flight bitmap does not know, can leave the destination stale.
  `ReadDoneSafeIff` and `StepKeepsInvIff` give the exact completions; `StaleDisk` is a
  whole migration with one.

`dafny verify dfyconfig.toml` checks the project.

## Model

| member | source | states |
|---|---|---|
| TrackedRequests.TargetSound | docker/qemu/qemu_stm32/block.c:2434-2476 | the request a scan stops at conflicts, is past its wait and not itself waiting; without one, no conflicting request is past its wait |
| TrackedRequests.ScanKeepsInv | docker/qemu/qemu_stm32/block.c:2434-2476 | the scan of wait_serialising_requests keeps the invariant whether it suspends or passes |
| TrackedRequests.BeginKeepsInv | docker/qemu/qemu_stm32/block.c:2350-2369 | registering a request, widening it and its first scan keep the invariant |
| TrackedRequests.ResumeKeepsInv | docker/qemu/qemu_stm32/block.c:2463-2473 | a woken request that scans again keeps the invariant |
| TrackedRequests.PassKeepsInv | docker/qemu/qemu_stm32/block.c:3290-3293 | the scans that a running request repeats later keep the invariant |
| TrackedRequests.ReadDoneKeepsInv | docker/qemu/qemu_stm32/block.c:3376-3437 | completing a head or tail read keeps the invariant: the padding read is what the device holds |
| TrackedRequests.WriteKeepsInv | docker/qemu/qemu_stm32/block.c:3434-3453 | a partial driver write keeps the invariant, in particular the padding that other writes have read |
| TrackedRequests.EndKeepsInv | docker/qemu/qemu_stm32/block.c:2337-2345 | ending a request and waking its waiters keeps the invariant and never underflows the serialising count |
| TrackedRequests.StepKeepsInv | docker/qemu/qemu_stm32/block.c:2337-2476 | every step of every request keeps the invariant |
| TrackedRequests.RunKeepsInv | docker/qemu/qemu_stm32/block.c:2337-2476 | the invariant holds after every run, by induction over its steps |
| TrackedRequests.Exclusion | docker/qemu/qemu_stm32/block.c:2371-2476 | in every reachable state two overlapping requests of which one is serialising are not both past their wait |
| TrackedRequests.NeverWaitsAgain | docker/qemu/qemu_stm32/block.c:3290-3293 | a request past its wait scans again without waiting: the assertions behind the later waits hold |
| TrackedRequests.SleepsOnRunning | docker/qemu/qemu_stm32/block.c:2448-2472 | a request that sleeps and has not been woken sleeps on one that is past its wait |
| TrackedRequests.CanComplete | docker/qemu/qemu_stm32/block.c:3336-3453 | a request past its wait completes by steps of its own, none of which is a failure |
| TrackedRequests.Drains | docker/qemu/qemu_stm32/block.c:2463-2473 | from every state of the invariant all requests in flight can complete |
| TrackedRequests.NoDeadlock | docker/qemu/qemu_stm32/block.c:2434-2476 | from every reachable state the requests in flight can all complete, without a failure and without a new request |
| TrackedRequests.WriteChangesOwnBytes | docker/qemu/qemu_stm32/block.c:3434-3453 | a step of an unaligned write in progress changes exactly those of its own bytes that it covers, whatever ran since its reads |
| TrackedRequests.PaddingIsInvisible | docker/qemu/qemu_stm32/block.c:3336-3453 | over every run the device equals one on which each write wrote only its own bytes: read-modify-write refines byte-granular writes |
| TrackedRequests.CompletedWriteIsOnDisk | docker/qemu/qemu_stm32/block.c:3336-3453 | a serialising write that may finish has all its bytes on the device |
| BlockDevice.BlockDriverState.TrackedRequestBegin | docker/qemu/qemu_stm32/block.c:2350-2369 | the list head and the request map after registration |
| BlockDevice.BlockDriverState.MarkRequestSerialising | docker/qemu/qemu_stm32/block.c:2371-2385 | the widened claim and the serialising counter, incremented once |
| BlockDevice.BlockDriverState.WaitSerialisingRequests | docker/qemu/qemu_stm32/block.c:2434-2476 | the list walk finds the same blocker as the scan of the state machine and suspends on it |
| BlockDevice.BlockDriverState.Submit | docker/qemu/qemu_stm32/block.c:3369-3376 | registration, widening and first wait together are the Begin step |
| BlockDevice.BlockDriverState.RestartAll | docker/qemu/qemu_stm32/block.c:2343-2344 | exactly the waiters on the request become runnable |
| BlockDevice.BlockDriverState.TrackedRequestEnd | docker/qemu/qemu_stm32/block.c:2337-2345 | unlinking, the counter and the wakeups together are the End step |
| PhysPageTree.NodeArray.Reserve | docker/qemu/qemu_stm32/exec.c:152-159 | there is room for n more nodes, and no reallocation if there was before |
| PhysPageTree.NodeArray.Alloc | docker/qemu/qemu_stm32/exec.c:161-174 | a fresh node whose entries read as unassigned; nothing else reads differently |
| PhysPageMap.PartHasNoLeaf | docker/qemu/qemu_stm32/exec.c:196-206 | if no leaf is cut by an end of the range, a slot covered in part leads to a node or to nothing |
| PhysPageMap.UnassignedUncut | docker/qemu/qemu_stm32/exec.c:176-209 | a page that is unassigned, or follows an unassigned one, cuts no leaf above the bottom level |
| PhysPageMap.NextUncut | docker/qemu/qemu_stm32/exec.c:194-208 | filling earlier slots of a node does not change which leaves the ends of the range cut |
| PhysPageTree.NodeArray.SetLevel | docker/qemu/qemu_stm32/exec.c:176-209 | unless an end of the range cuts a leaf above the bottom level, the recursion maps exactly the pages of the range below its entry, whatever they were mapped to, and stays within its node budget |
| PhysPageTree.NodeArray.Set | docker/qemu/qemu_stm32/exec.c:211-220 | exactly the range reads as the section afterwards, whatever it was mapped to; at most 2 * P_L2_LEVELS - 1 nodes are allocated, so a reserve of 3 * P_L2_LEVELS never moves the array |
| PhysPageTree.NodeArray.Find | docker/qemu/qemu_stm32/exec.c:283-298 | the loop with skips reads the same entry as the recursive walk, compacted or not |
| PhysPageTree.NodeArray.Compact | docker/qemu/qemu_stm32/exec.c:224-281 | every page reads as before or, if it was unassigned, possibly as a merged neighbour; nodes outside the subtree are untouched |
| PhysDispatch.MultipageKeepsInv | docker/qemu/qemu_stm32/exec.c:967-977 | a section of whole pages covers exactly the pages mapped to it |
| PhysDispatch.MultipageMeaning | docker/qemu/qemu_stm32/exec.c:967-977 | addresses of the section mean the section, all others what they did |
| PhysDispatch.SubpageKeepsInv | docker/qemu/qemu_stm32/exec.c:936-958 | a new empty subpage keeps the dispatch well formed |
| PhysDispatch.SubpageMeaning | docker/qemu/qemu_stm32/exec.c:1797-1815 | an empty subpage changes the meaning of no address |
| PhysDispatch.FillKeepsInv | docker/qemu/qemu_stm32/exec.c:1777-1795 | entering a section in a subpage table keeps the dispatch well formed |
| PhysDispatch.FillMeaning | docker/qemu/qemu_stm32/exec.c:1777-1795 | exactly the bytes entered in a subpage change their meaning |
| PhysDispatch.MultipageDivides | docker/qemu/qemu_stm32/exec.c:967-977 | entering whole pages divides no page and undivides none |
| PhysDispatch.SubpageDivides | docker/qemu/qemu_stm32/exec.c:950-958 | a new subpage divides exactly its page |
| PhysDispatch.FillDivides | docker/qemu/qemu_stm32/exec.c:1777-1795 | filling a subpage table divides no page |
| PhysDispatch.CompactionKeepsLookups | docker/qemu/qemu_stm32/exec.c:224-305 | path compression changes the result of phys_page_find and of the lookup for no address |
| AddressSpace.AddressSpaceDispatch.constructor | docker/qemu/qemu_stm32/exec.c:1848-1866 | a new dispatch has the four fixed sections and maps nothing |
| AddressSpace.AddressSpaceDispatch.MapSection | docker/qemu/qemu_stm32/exec.c:896-914 | a new section number and its pages mapped to it |
| AddressSpace.AddressSpaceDispatch.RegisterMultipage | docker/qemu/qemu_stm32/exec.c:967-977 | the whole pages of a section are entered; aborts exactly when the section numbers are used up |
| AddressSpace.AddressSpaceDispatch.PageFind | docker/qemu/qemu_stm32/exec.c:283-305 | the tree walk and range check give the section of the lookup specification |
| AddressSpace.AddressSpaceDispatch.RegisterSubpage | docker/qemu/qemu_stm32/exec.c:936-965 | a section within one page is entered, in a new subpage or in the existing one; it aborts exactly if the one or two section numbers it takes are not left |
| AddressSpace.AddressSpaceDispatch.AddPiece | docker/qemu/qemu_stm32/exec.c:990-1008 | the whole pages of what remains, or its last bytes, are entered; it aborts exactly if the numbers they take are not left |
| AddressSpace.AddressSpaceDispatch.MemAdd | docker/qemu/qemu_stm32/exec.c:979-1010 | any section, however aligned, is entered completely and nothing else changes; it aborts exactly if the section numbers of its pieces, counted before the call from its bounds and the pages already divided, are not left |
| AddressSpace.AddressSpaceDispatch.MemCommit | docker/qemu/qemu_stm32/exec.c:1868-1882 | compaction keeps the meaning of every address |
| AddressSpace.AddressSpaceDispatch.Translate | docker/qemu/qemu_stm32/exec.c:313-345 | lookup with subpages resolved gives region and offset |
| AddressSpace.ExistingSubpage | docker/qemu/qemu_stm32/exec.c:943-948 | the assertion of register_subpage: an unassigned address lies on an unassigned page or on a subpage |
| AddressSpace.NextPiece | docker/qemu/qemu_stm32/exec.c:979-1010 | the number of section numbers that a piece takes does not depend on the pieces entered before it |
| AddressSpace.LinearAppend | docker/qemu/qemu_stm32/exec.c:979-1010 | linear search of a list with one more disjoint section |
| AddressSpace.Rebuild | docker/qemu/qemu_stm32/exec.c:979-1010 | after mem_begin, mem_add of any disjoint sections and mem_commit every address is found as by linear search; the program aborts if and only if the section numbers that the list takes exceed TARGET_PAGE_SIZE |
| DirtyBitmap.PopulationCount | docker/qemu/qemu_stm32/arch_init.c:450-483 | the population count of a word is the number of its pages |
| RamSender.MovedWord | docker/qemu/qemu_stm32/arch_init.c:450-470 | one word of the log moved at once moves exactly its pages and counts the new ones |
| RamSender.MovedCounts | docker/qemu/qemu_stm32/arch_init.c:488-515 | the page counter stays the number of dirty pages on RAM blocks |
| RamSender.RoundIsClean | docker/qemu/qemu_stm32/arch_init.c:643-683 | a completed round of the scan leaves no dirty page but possibly the skipped cursor page |
| RamSender.RoundEnds | docker/qemu/qemu_stm32/arch_init.c:643-683 | a fruitless round drops a page exactly under the condition `Loses` |
| RamSender.PagesCount | docker/qemu/qemu_stm32/arch_init.c:815-825 | disjoint blocks have as many pages together as counted one by one |
| RamSender.RamState.constructor | docker/qemu/qemu_stm32/arch_init.c:806-828 | setup: all pages dirty, the counter exact, the cursor at the start of the bulk stage |
| RamSender.RamState.SetDirty | docker/qemu/qemu_stm32/arch_init.c:437-448 | the bit is set and the counter follows |
| RamSender.RamState.SyncRange | docker/qemu/qemu_stm32/arch_init.c:450-483 | word-wise and page-wise branch both move exactly the logged pages they look at, clear them in the log and count the new ones |
| RamSender.RamState.Sync | docker/qemu/qemu_stm32/arch_init.c:488-515 | the whole log is moved into the bitmap and cleared, and the counter stays exact |
| RamSender.RamState.FindAndResetDirty | docker/qemu/qemu_stm32/arch_init.c:413-435 | the next dirty page from an offset, or in the bulk stage the next page, is cleared and uncounted |
| RamSender.ScanTurn | docker/qemu/qemu_stm32/arch_init.c:653-680 | what a turn of the scan has come to, by what it found: the round ends, the next block, a page sent or a page skipped |
| RamSender.RamState.ScanStep | docker/qemu/qemu_stm32/arch_init.c:653-680 | a turn of the scan makes progress and keeps what is known about the pages behind it |
| RamSender.RamState.FindAndSave | docker/qemu/qemu_stm32/arch_init.c:643-683 | the scan terminates, hands over every page it clears but the one it drops, and sends nothing only if no page is dirty any more |
| RamMigration.SaveMirrors | docker/qemu/qemu_stm32/arch_init.c:339-411 | the cache again equals the receiver's copy, and every XBZRLE record decodes there to the page captured |
| RamMigration.SaveKeepsInv | docker/qemu/qemu_stm32/arch_init.c:567-634 | ram_save_page keeps the invariant, with the guest writing at the same time |
| RamMigration.StepKeepsInv | docker/qemu/qemu_stm32/arch_init.c:849-960 | guest writes, synchronisation, scans, saves, cache resizes and the start of the last stage keep the invariant |
| RamMigration.RunKeepsInv | docker/qemu/qemu_stm32/arch_init.c:849-960 | the invariant over whole migrations |
| RamMigration.MigratedRam | docker/qemu/qemu_stm32/arch_init.c:918-960 | at completion the receiver's RAM equals the guest's on every page that no scan dropped for good |
| RamMigration.CallDropsIff | docker/qemu/qemu_stm32/arch_init.c:413-435 | a call drops a page if and only if the bulk stage has just sent the last page of the last block and that page is the only dirty one |
| RamMigration.MigratedAll | docker/qemu/qemu_stm32/arch_init.c:643-683 | a run that never calls the scan in such a state migrates all of RAM |
| RamMigration.LateWriteDropped | docker/qemu/qemu_stm32/arch_init.c:413-435 | in such a state a write to that page before completion is never sent |
| RamMigration.BulkStageEnds | docker/qemu/qemu_stm32/arch_init.c:643-683 | such a state is reached by migrating two pages |
| RamStream.BeRoundTrip | docker/qemu/qemu_stm32/arch_init.c:305-320 | big-endian words read back as written |
| RamStream.WordSplits | docker/qemu/qemu_stm32/arch_init.c:1052-1056 | offset and flags of a page header separate uniquely |
| RamStream.HeaderParses | docker/qemu/qemu_stm32/arch_init.c:998-1024 | a header leads to the sender's block, whether it repeats the name or continues |
| RamStream.BodyParses | docker/qemu/qemu_stm32/arch_init.c:1095-1132 | zero, plain and XBZRLE page data are read back exactly |
| RamStream.RecordLoads | docker/qemu/qemu_stm32/arch_init.c:1095-1132 | one page is stored as sent and the receiver again remembers the sender's block |
| RamStream.SectionLoads | docker/qemu/qemu_stm32/arch_init.c:1039-1149 | a section is consumed exactly and replays its pages; it is refused only if a delta does not decode |
| RamStream.ListLoads | docker/qemu/qemu_stm32/arch_init.c:1057-1094 | the block list is read up to the first block that does not match, exactly to its end if all match |
| RamStream.SetupLoads | docker/qemu/qemu_stm32/arch_init.c:1057-1143 | after a block that does not match loading goes on behind it, because the error code is overwritten |
| RamStream.SetupAccepted | docker/qemu/qemu_stm32/arch_init.c:1057-1143 | a matching list is accepted and consumed exactly, and so is one whose last block alone does not match |
| RamStream.LoadConsumes | docker/qemu/qemu_stm32/arch_init.c:1039-1149 | an accepted stream leaves a rest that is shorter by at least one word |
| RamStream.EntryTurn | docker/qemu/qemu_stm32/arch_init.c:1052-1143 | a turn of ram_load on a list entry ends the section exactly if the flags in its eighth byte say so, and fails for the flags that are an error |
| RamStream.SetupMismatch | docker/qemu/qemu_stm32/arch_init.c:1057-1143 | if a block other than the last does not match, the section is accepted at once, with the rest of the list unread, if and only if the next entry passes for an end mark; it is refused if that entry passes for an error or, before the first page, for a page that continues a block |
| RamStream.RefusedByLetter | docker/qemu/qemu_stm32/arch_init.c:1057-1143 | a non-matching list is refused whenever the seventh character of the name behind the mismatch is a lower-case letter without the MEM_SIZE bit |
| RamStream.UnknownBlocksAccepted | docker/qemu/qemu_stm32/arch_init.c:1057-1143 | a receiver without blocks accepts the list of a and vga.ra0 with 16 bytes unread |
| RamStream.StreamLoads | docker/qemu/qemu_stm32/arch_init.c:1039-1149 | the stream of a whole migration, from setup on, is accepted, consumed exactly and replayed |
| RamStream.StoreIsReceive | docker/qemu/qemu_stm32/arch_init.c:1095-1132 | storing by block name and offset is receiving by page number |
| RamStream.RamSaver.BytesTotal | docker/qemu/qemu_stm32/arch_init.c:714-723 | the sum of the block lengths |
| RamStream.RamSaver.SaveSetup | docker/qemu/qemu_stm32/arch_init.c:831-844 | the bytes of the setup section |
| RamStream.RamSaver.SaveBlockHdr | docker/qemu/qemu_stm32/arch_init.c:305-320 | the bytes of a page header |
| RamStream.RamSaver.SaveRecord | docker/qemu/qemu_stm32/arch_init.c:567-634 | header and data, and last_sent_block afterwards |
| RamStream.RamSaver.SaveSection | docker/qemu/qemu_stm32/arch_init.c:849-960 | the bytes of one section |
| RamStream.RamLoader.FindBlock | docker/qemu/qemu_stm32/arch_init.c:1018-1021 | the first block of that name |
| RamStream.RamLoader.LoadBlockList | docker/qemu/qemu_stm32/arch_init.c:1057-1094 | the loop reads what the specification reads, with 64-bit wrap-around of the remaining total |
| RamStream.RamLoader.RamLoad | docker/qemu/qemu_stm32/arch_init.c:1039-1149 | the loop accepts and stores what the specification does, for any bytes |
| BlockMigration.ReadDoneSafeIff | docker/qemu/qemu_stm32/block-migration.c:235-250 | a completed read leaves its chunk safe if and only if it does not overtake an earlier read of the chunk that fetched other contents |
| BlockMigration.FetchKeepsSafe | docker/qemu/qemu_stm32/block-migration.c:301-306 | a read, even torn by a concurrent write, holds current data or its chunk is marked |
| BlockMigration.SendKeepsSafe | docker/qemu/qemu_stm32/block-migration.c:537-574 | sending from the queue and synchronous sends keep the last contents of a chunk last |
| BlockMigration.StepKeepsInvIff | docker/qemu/qemu_stm32/block-migration.c:235-574 | a step of guest, drivers or migration thread keeps the invariant if and only if it is not such a completion |
| BlockMigration.RunKeepsInv | docker/qemu/qemu_stm32/block-migration.c:651-753 | the invariant over whole migrations |
| BlockMigration.MigratedDisk | docker/qemu/qemu_stm32/block-migration.c:717-753 | at completion the destination disk equals the source disk, over every run in which no completion overtakes |
| BlockMigration.InOrderIsHarmless | docker/qemu/qemu_stm32/block-migration.c:235-250 | if reads of one chunk complete in issue order no completion overtakes |
| BlockMigration.CountersHold | docker/qemu/qemu_stm32/block-migration.c:245-248 | submitted and read_done count reads in flight and blocks queued, so the assertions hold |
| BlockMigration.TwoReads | docker/qemu/qemu_stm32/block-migration.c:445-489 | a bulk read and a dirty read of one chunk can be in flight together |
| BlockMigration.OvertakenRead | docker/qemu/qemu_stm32/block-migration.c:235-250 | if they complete out of order, migration completes with the old contents |
| BlockMigration.StaleDisk | docker/qemu/qemu_stm32/block-migration.c:651-753 | a whole migration from setup to completion that ends with a stale chunk, for any two contents |
| BlockSaver.ChunkArrives | docker/qemu/qemu_stm32/block-migration.c:114-146 | the destination writes the sectors read and no others, for partial last chunks and zero blocks |
| BlockSaver.BulkCursor.SaveDeviceBulk | docker/qemu/qemu_stm32/block-migration.c:253-310 | the bulk cursor reads each chunk of a device once, in order, with its exact length |
| BlockSaver.SyncSaver.SaveDeviceDirty | docker/qemu/qemu_stm32/block-migration.c:445-510 | the first dirty chunk is sent, and the device reported finished exactly if there is none |
| BlockSaver.SyncSaver.SaveDirtyBlock | docker/qemu/qemu_stm32/block-migration.c:520-533 | one chunk of the first device that has one |
| BlockSaver.SyncSaver.SaveComplete | docker/qemu/qemu_stm32/block-migration.c:729-742 | the loop terminates with every dirty chunk sent and no other touched |
| BlockSaver.CompletionCopies | docker/qemu/qemu_stm32/block-migration.c:717-753 | that makes the destination equal to the source |
| BottomHalves.ThreadKeepsNotice | docker/qemu/qemu_stm32/async.c:119-136 | a thread that has set scheduled still will notify, or saw dispatching set |
| BottomHalves.ThreadKeepsAwake | docker/qemu/qemu_stm32/async.c:119-136 | every step of a scheduling thread keeps the wakeup invariant |
| BottomHalves.PollKeepsAwake | docker/qemu/qemu_stm32/aio-posix.c:175-252 | every step of aio_poll keeps the wakeup invariant |
| BottomHalves.ReapKeepsLinked | docker/qemu/qemu_stm32/async.c:88-102 | freeing deleted bottom halves leaves no thread with a freed one |
| BottomHalves.StepKeepsInv | docker/qemu/qemu_stm32/async.c:61-136 | every interleaved step keeps the invariant |
| BottomHalves.NoLostWakeup | docker/qemu/qemu_stm32/aio-posix.c:175-252 | when aio_poll is about to block, every bottom half scheduled by qemu_bh_schedule has the notifier set or a thread that will still set it |
| BottomHalves.StrayIff | docker/qemu/qemu_stm32/async.c:61-136 | a bottom half that only qemu_bh_schedule_idle has scheduled loses its idle flag while scheduled, or gets scheduled without it, by exactly three steps |
| BottomHalves.MissedIff | docker/qemu/qemu_stm32/async.c:61-136 | and nobody will notify for it after exactly two of them: the owner taking back the flag, or a late qemu_bh_schedule_idle, while no qemu_bh_schedule is under way |
| BottomHalves.FlagsNoticed | docker/qemu/qemu_stm32/aio-posix.c:175-252 | in a run without those two steps, whenever aio_poll is about to block, a bottom half that is scheduled, not deleted and not idle has the notifier set or a thread that will set it |
| BottomHalves.NeverIdleNeverMisses | docker/qemu/qemu_stm32/async.c:107-136 | those steps need a call of qemu_bh_schedule_idle on the bottom half |
| BottomHalves.NeverFreed | docker/qemu/qemu_stm32/async.c:61-104 | no thread and no walk holds a freed bottom half |
| BottomHalves.IdleScheduled | docker/qemu/qemu_stm32/async.c:107-117 | first part of a run with qemu_bh_schedule_idle |
| BottomHalves.IdleCleared | docker/qemu/qemu_stm32/async.c:73-74 | aio_bh_poll clears scheduled in that run |
| BottomHalves.IdleRace | docker/qemu/qemu_stm32/async.c:78-83 | a second qemu_bh_schedule_idle loses its idle flag to the owner |
| BottomHalves.ScanEndsBlocking | docker/qemu/qemu_stm32/aio-posix.c:229-252 | the scan of a blocking aio_poll passes such a bottom half and blocks |
| BottomHalves.MissedByOwner | docker/qemu/qemu_stm32/async.c:61-136 | these parts as one run from the start: aio_poll blocks with a scheduled bottom half that is not idle, the notifier clear and no thread to set it |
| BottomHalves.ScheduledAndCancelled | docker/qemu/qemu_stm32/async.c:119-143 | in a second run qemu_bh_schedule clears the idle flag and qemu_bh_cancel the scheduled flag between the two stores of qemu_bh_schedule_idle |
| BottomHalves.ScheduledBehindScan | docker/qemu/qemu_stm32/async.c:107-117 | the second of these stores comes behind the scan of a blocking aio_poll |
| BottomHalves.MissedAfterCancel | docker/qemu/qemu_stm32/async.c:107-143 | this run from the start ends in the same state, though the owner has never taken back an idle flag |
| AioLists.SetFdKeepsInv | docker/qemu/qemu_stm32/aio-posix.c:45-93 | adding, changing and deleting handlers keeps the lists well formed and one live handler per fd |
| AioLists.LeaveKeepsInv | docker/qemu/qemu_stm32/aio-posix.c:157-166 | leaving a node frees it only if no walk is left on the stack |
| AioLists.EndBhKeepsInv | docker/qemu/qemu_stm32/async.c:86-104 | bottom halves are freed only when no walk of their list is left |
| AioLists.StepKeepsInv | docker/qemu/qemu_stm32/aio-posix.c:32-173 | every step of nested walks and their callbacks keeps the invariant |
| AioLists.NeverUsesFreed | docker/qemu/qemu_stm32/aio-posix.c:32-173 | no entry is used after it is freed, every walk holds an allocated entry, and no fd has two live handlers |
| AioLists.RemovedStays | docker/qemu/qemu_stm32/aio-posix.c:58-73 | a removed handler stays removed and is not called by the step |
| AioLists.RemovedNeverCalled | docker/qemu/qemu_stm32/aio-posix.c:58-173 | after aio_set_fd_handler has removed the handlers of an fd no callback of the fd starts until a handler is set again, not even from walks at the node |
| AioLists.AioContext.FindAioHandler | docker/qemu/qemu_stm32/aio-posix.c:32-43 | the one live handler of the fd |
| AioLists.AioContext.SetFdHandler | docker/qemu/qemu_stm32/aio-posix.c:45-93 | the list after adding, changing, marking or deleting a handler |
| AioLists.AioContext.RemoveDeletedBhs | docker/qemu/qemu_stm32/async.c:88-102 | exactly the deleted bottom halves leave the list, the others keep their order |
| Tlb.NextLarge | docker/qemu/qemu_stm32/cputlb.c:202-226 | a widened area covers every address of the old large pages and of the new one |
| Tlb.OutsideArea | docker/qemu/qemu_stm32/cputlb.c:92-100 | an address outside the area lies on no large page entered since the last full flush |
| Tlb.HitIndex | docker/qemu/qemu_stm32/cputlb.c:105-108 | an entry can only hit addresses that are looked up at its index |
| Tlb.CpuTlb.Flush | docker/qemu/qemu_stm32/cputlb.c:51-69 | all entries empty and the area reset |
| Tlb.CpuTlb.AddLargePage | docker/qemu/qemu_stm32/cputlb.c:202-226 | the mask loop terminates and the area covers the new page |
| Tlb.CpuTlb.SetPage | docker/qemu/qemu_stm32/cputlb.c:231-299 | the page is entered at its index and nothing else changes |
| Tlb.CpuTlb.FlushPage | docker/qemu/qemu_stm32/cputlb.c:82-112 | afterwards no entry in any mode hits the page nor any page of a large page that contains the address; without a forced flush no other entry is lost |
| KdumpBitmap.FramesPresent | docker/qemu/qemu_stm32/dump.c:1030-1075 | the walk lists exactly the frames of the guest's blocks |
| KdumpBitmap.FrameAt | docker/qemu/qemu_stm32/dump.c:1030-1075 | the position of a frame in the walk |
| KdumpBitmap.FlushKeeps | docker/qemu/qemu_stm32/dump.c:989-1007 | a flushed buffer is in both bitmaps and the parts before it stay |
| KdumpBitmap.SetKeeps | docker/qemu/qemu_stm32/dump.c:1009-1016 | setting a bit in the buffer sets just that frame |
| Kdump.DataAppends | docker/qemu/qemu_stm32/dump.c:1137-1167 | data goes to the end of the data area whether or not the cache is flushed |
| Kdump.DescAppends | docker/qemu/qemu_stm32/dump.c:1137-1167 | likewise for descriptors |
| Kdump.SyncKeeps | docker/qemu/qemu_stm32/dump.c:1137-1167 | syncing both caches puts every pending byte in its place |
| Kdump.DataStep | docker/qemu/qemu_stm32/dump.c:1270-1345 | pages described so far stay readable when data is added |
| KdumpDescriptor.ByteRoundTrip | docker/qemu/qemu_stm32/dump.c:50-70 | a byte is its eight bits |
| KdumpDescriptor.WordRoundTrip | docker/qemu/qemu_stm32/dump.c:50-70 | words read back as written, in either byte order |
| KdumpDescriptor.DescRoundTrip | docker/qemu/qemu_stm32/include/sysemu/dump.h:151-156 | the 24 bytes of a page descriptor read back as written, for every offset and size that fits its field |
| Kdump.UniformFormatOk | docker/qemu/qemu_stm32/dump.c:1270-1320 | the conditions on a format can be met, in either byte order |
| Kdump.DescStep | docker/qemu/qemu_stm32/dump.c:1245-1345 | a new descriptor makes one more page readable and keeps the others |
| KdumpWriter.AreasMeet | docker/qemu/qemu_stm32/dump.c:834-839 | the descriptors start where the second bitmap ends |
| KdumpWriter.FramesAscend | docker/qemu/qemu_stm32/dump.c:1030-1075 | the walk goes upwards, so the assertion of set_dump_bitmap holds |
| KdumpWriter.LastFrame | docker/qemu/qemu_stm32/dump.c:1542-1546 | the last frame lies in the last part of the bitmap, so no part stays unwritten |
| KdumpWriter.OffsetsFit | docker/qemu/qemu_stm32/dump.c:1218-1225 | for guests of up to 2^48 page frames every offset fits its 64-bit field |
| KdumpWriter.Writer.GetNextPage | docker/qemu/qemu_stm32/dump.c:1030-1075 | the n-th call gives the n-th frame and then ends |
| KdumpWriter.Writer.SetDumpBitmap | docker/qemu/qemu_stm32/dump.c:970-1019 | parts left behind are flushed to both bitmaps, then the bit is set in the buffer |
| KdumpWriter.Writer.WriteDumpBitmap | docker/qemu/qemu_stm32/dump.c:1077-1125 | both bitmaps have bit p set if and only if frame p is in guest memory |
| KdumpWriter.Writer.WritePage | docker/qemu/qemu_stm32/dump.c:1258-1346 | one page, zero, compressed or plain, becomes readable through its descriptor |
| KdumpWriter.Writer.WriteDumpPages | docker/qemu/qemu_stm32/dump.c:1204-1371 | the n-th descriptor leads to the n-th page, and the bitmaps are untouched |
| KdumpWriter.Writer.CreateVmcore | docker/qemu/qemu_stm32/dump.c:1373-1429 | the finished file is consistent |
| RamList.HitIsWithin | docker/qemu/qemu_stm32/exec.c:787-791 | the unsigned comparison tests membership, without wrap-around errors |
| RamList.GapIsFree | docker/qemu/qemu_stm32/exec.c:1140-1173 | a block placed in a fitting gap overlaps none |
| RamList.InsertKeepsOk | docker/qemu/qemu_stm32/exec.c:1288-1299 | insertion keeps the list sorted by length and disjoint |
| RamList.RemoveKeepsOk | docker/qemu/qemu_stm32/exec.c:1406-1435 | removal keeps both and removes exactly the block at the address |
| RamList.RunKeepsOk | docker/qemu/qemu_stm32/exec.c:1263-1302 | so does every sequence of allocations and releases |
| RamList.OneHolder | docker/qemu/qemu_stm32/exec.c:781-802 | at most one block holds an address |
| RamList.RamBlocks.FindRamOffset | docker/qemu/qemu_stm32/exec.c:1140-1173 | the end of the first block with a smallest fitting gap, or none exactly if no gap behind a block fits |
| RamList.RamBlocks.RamBlockAdd | docker/qemu/qemu_stm32/exec.c:1263-1302 | the new block at that place, inserted before the first shorter one |
| RamList.RamBlocks.RamFree | docker/qemu/qemu_stm32/exec.c:1406-1435 | the block at the address leaves the list and the shortcut is reset |
| RamList.RamBlocks.GetRamBlock | docker/qemu/qemu_stm32/exec.c:781-802 | the only block that holds the address, whatever the most-recently-used shortcut remembers |
| Multiwrite.MergeKeepsOk | docker/qemu/qemu_stm32/block.c:4472-4497 | a merged request has as many vector bytes as sectors and no more elements than both together |
| Multiwrite.OutputsWithinLimit | docker/qemu/qemu_stm32/block.c:4472-4497 | every output stays within IOV_MAX |
| Multiwrite.MergePreserves | docker/qemu/qemu_stm32/block.c:4452-4506 | applying the outputs equals applying the sorted requests, under the condition `Keeps` |
| Multiwrite.NoneContainedKeeps | docker/qemu/qemu_stm32/block.c:4452-4506 | the condition holds if no request ends before the one it is merged into |
| Multiwrite.LossDiffers | docker/qemu/qemu_stm32/block.c:4484-4494 | where it fails there are contents and a disk for which merging changes the result |
| Multiwrite.MergeExact | docker/qemu/qemu_stm32/block.c:4452-4506 | merging preserves every disk and all contents if and only if later requests write every sector that is dropped |
| Multiwrite.ContainedRequestLost | docker/qemu/qemu_stm32/block.c:4484-4494 | three sectors at 0 and one at 1: sector 2 is not written |
| Multiwrite.MultiwriteMerge | docker/qemu/qemu_stm32/block.c:4452-4506 | the in-place loop computes the outputs |
| Multiwrite.MultiwriteCB.Complete | docker/qemu/qemu_stm32/block.c:4414-4428 | the first error is kept and the callbacks run on the last completion |
| Multiwrite.CompleteAll | docker/qemu/qemu_stm32/block.c:4401-4428 | in whatever order the requests complete, every callback is called once, with the first error |

## Left out

- Zero-flag writes, throttling, copy-on-read write-back, detect-zeroes and request
  splitting in `block.c`; reads and writes of data only, with drivers that read and
  write the device bytes.  Alignments are any positive number.
- Coroutine switching: a coroutine is a sequence of atomic steps, and switches only
  where the source may suspend.  A coroutine does not issue a request on the same
  device from inside another.
- The 32-bit width of overlap_bytes and of sector counts.
- BlockDevice.BlockDriverState.TrackedRequestBegin: states the new list and request
  as the step system does, because the invariants are stated over that system.
- Freeing of old dispatches, reference counts, the iotlb, and RCU-like publication of
  a dispatch in `exec.c`; sections of fixed regions are never added.
- PhysPageTree.NodeArray.SetLevel: no leaf above the bottom level is cut by an end of
  the range; the source would take the section number of such a leaf for a node number,
  and its callers map disjoint sections.
- PhysPageTree.NodeArray.Set: likewise.
- AddressSpace.Rebuild: the address space is the one that the tree levels span, and
  running out of section numbers is reported instead of aborting.
- RDMA hooks, auto-converge throttling, statistics, the migration thread's timing and
  hot-plug of RAM during migration in `arch_init.c`.
- RamMigration.SaveMirrors: the XBZRLE codec is any pair in which decoding undoes
  encoding, and the page cache is any cache that replaces a cached page.
- RamSender.RamState.Sync: logged pages lie on RAM blocks.
- RamStream.RamLoader.LoadBlockList: a list that is cut short is refused at once; the
  source reads zeroes first.
- RamStream.RamLoader.RamLoad: likewise for a stream.  No load hook is registered, so its
  flag is an error.
- Read and write errors, shared base images, discards and the rate limit at completion
  of disk migration; `block_load` beyond the chunk it writes.
- BlockMigration.MigratedDisk: no completion overtakes, which is the exact condition of
  `StepKeepsInvIff` for each step.
- Timers, GSource integration, nested aio_poll and handlers with pending events at entry
  in the wakeup protocol; memory is sequentially consistent.
- BottomHalves.NoLostWakeup: speaks of qemu_bh_schedule; for the flags alone `MissedIff`
  and `FlagsNoticed` give the exact steps and the guarantee without them.
- BottomHalves.NeverFreed: qemu_bh_delete is called by the last user, as its callers must.
- The jump cache, iotlb, victim entries and dirty tracking in `cputlb.c`; pages have
  power-of-two sizes and page-aligned addresses, as the target code passes them.
- Headers and notes of the dump, write errors, and choice among compression formats: the
  compressor is any partial function with a left inverse.
- KdumpWriter.Writer.WriteDumpPages: every offset fits its 64-bit field, which
  `OffsetsFit` shows for guests of up to 2^48 page frames.
- KdumpWriter.Writer.CreateVmcore: guest blocks are sorted, page-aligned and not empty.
- AddressSpace.AddressSpaceDispatch.MemAdd: the source's branch for an unaligned rest of
  a page or more is absent, because it cannot be reached.
- Host memory, Xen and huge-page handling of RAM blocks.
- Multiwrite.MultiwriteMerge: the array after qsort is taken as given, and the requests
  of one call have equal flags.
- The other files of the repository: command plumbing, option parsing, sockets, devices,
  other block and display code.

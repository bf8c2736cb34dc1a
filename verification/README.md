# Verified models of the UNIX V6 kernel port

This project models, in Dafny, the parts of the kernel whose correctness depends on state that many routines share, and
proves what those routines guarantee together. Code that works by changing things is a class or an array method proved
against a specification function; the hard properties are lemmas about those functions and about state machines built
from them, over every run.

How the modules fit together:

| part | modules | built on |
|---|---|---|
| buffer cache and disk queue | `Rings`, `Buffers` (pure steps), `BufferCache` (linked lists), `CacheMachine`, `CachePool`, `CacheSteps`, `CacheTheorems` (interleavings), `CacheFrames`, `CacheCalls` (each call from beginning to end), `CacheExact` (when reads are right), `BlockStore` (what clients see) | - |
| resource maps | `ResourceMap`, `MapTable` (arrays), `MapRuns`, `MapTableRuns`, `MapStairs` (the worst run) | - |
| core and swap ownership | `Ownership` (interleavings), `Family` (parents and children), `SwapRoom` (room in the maps), `Swapper` (over the real map tables) | resource maps |
| file storage | `FreeList`, `FileTree`, `FileGrow`, `BlockMap`, `FileCensus`, `FileOrder`, `Volume` (alloc, free, bmap, itrunc) | a block store, which `BlockStore.CacheIsStore` says the cache is |
| file contents | `FileBytes`, `FileHoles`, `FileIO` (readi, writei), `FileRuns`, `VolumeFiles` | file storage |
| mkfs | `MkfsRuns`, `Mkfs` | file storage |
| pipes | `PipeMachine`, `PipeCalls` (each read and write from beginning to end), `PipeCode`, `PipeFile`, `PipeRuns` | file contents |
| callouts, alarm, character queues | `CalloutQueue`, `CalloutTable`, `CalloutRuns`; `Longs`, `Alarm`, `AlarmCalls`, `AlarmCode`; `CharQueue`, `CharPool` | - |
| choosing processes | `Scheduling` | - |
| shared | `Options`, `Counting` | - |

Conventions and granularity:

- Kernel code is not preempted until it sleeps, so a step of a state machine is at most the code between two sleeps, or
  one interrupt. Steps are often finer than that, which admits more interleavings than the kernel has.
- Words are integers. Where width matters it is written out: map arithmetic stays below 2^16 (`MapTable.Small`), times
  are two 16-bit words with carry and wrap-around (`Longs.Two`), file offsets are two words (`FileIO.User`), process
  numbers wrap at 32767.
- A buffer area has 257 words. That the 257th is zero is proved of the cache (`CacheTheorems.LastWordAlwaysZero`) and is
  what `Volume.Volume.Area` hands to the truncation loops. The proof takes it that clients write within the 256 words of
  a block (`CacheMachine.Enabled`, case `Poke`); the file layer does, because the buffers it fills have 256 words
  (`Volume.Volume.Bdwrite`).
- The blocks in use are a set `z` of pairs of minor device and block number, any that the driver admits
  (`Buffers.IsZone`); it admits every negative block number. The theorems on runs hold for every such set; those on
  contents ask that no two blocks in use share a sector (`Buffers.Apart`), and `CacheExact.CoherentIffApart` says that
  they hold in no other case. For drives used from one block up to another, `Buffers.ApartIffSpans` turns that into a
  comparison of lengths.
- Counts of bytes are ints. The kernel's `min` takes its part of a count if and only if the count is at most 32767
  (`Longs.MinOfCount`), so reads and writes, of files and of pipes, are modelled for such counts.
- Where an operation needs disk blocks the model asks that they can be had (`Need`, `Fits`, `ReadFits`). For a write,
  `FileBytes.FitsWhenRoom` says when that is so in terms of the number of free blocks; for a read,
  `FileHoles.ReadFitsWhenRoom` does, and `FileHoles.ReadFitsMapped` says that a read that meets no hole needs none.

Findings:

- The driver admits blocks of different drives that share a sector: those whose numbers differ, in sixteen bits, by as
  much as the starts of their drives (`Buffers.SectorClash`). Among block numbers from 0 up that happens in two ways.
  From minor 9 on a drive runs into the next one, as block 4872 of minor 9 is block 0 of minor 10; and sector numbers
  wrap around at 2^16, as block 11944 of minor 11 is block 0 of minor 0. Negative block numbers, which come from offsets
  of 2^24 and more on a block special file, are all admitted and reach back into other drives: block -4872 of minor 1 is
  block 0 of minor 0 (`Buffers.AdmittedClash`), and any two drives used in all that is admitted of them overlap
  (`Buffers.TwoDrivesClash`). All block numbers from 0 up that are admitted on minors 0 to 9 lie apart, and so do the
  first 4872 blocks of minors 0 to 12 (`Buffers.ApartDrives`). Reads are right in every run if and only if no two blocks
  in use share a sector (`CacheExact.CoherentIffApart`); otherwise `CacheExact.SharedSector` is a run that reads what was
  written elsewhere.
- `mfree` compares the end of the freed region with the address of the entry after the last one, which may be left over
  from an earlier table; its size is zero, so the merge it triggers adds nothing (`MapTable.JoinBoth`).
- The core and swap maps are tables of 100 words, 50 entries, without a check for overrun. With never more than k
  allocations outstanding, k+1 entries suffice (`MapTableRuns.Serve`) and can all be needed (`MapStairs.SegmentsReached`).
  In the runs modelled the core map therefore never overruns: fewer than 50 processes hold at most one region each
  (`SwapRoom.CoreAlwaysFits`). Nor does the swap map, as long as no process is swapped out in the middle of exit, when it
  holds two regions (`SwapRoom.SwapFitsWhile`).
- A count above 32767 is negative as an int. `writep` then passes a negative count on, and `readi` and `writei` a negative
  chunk; the exact condition is `Longs.MinOfCount`.
- A read of a hole allocates a block for it, so reading can consume disk space (`FileHoles.ReadOfHole`). A read leaves the
  inode, the free list and all blocks as they are if and only if every block it goes through is already there
  (`FileIO.Readi`, `FileHoles.StillIffNoHole`).
- `readi` compares size and offset as a signed 32-bit difference, so it recognises the end of the file if and only if the
  offset is at most 2^31 beyond it (`FileIO.EndSeen`).
- A callout asked for with no delay runs at its own tick if it was asked for during a scan and one tick later if not; with
  a delay it runs at its own tick either way (`CalloutQueue.ExactlyOnTime`, `CalloutQueue.NoDelayOutside`,
  `CalloutQueue.NoDelayInside`).

## Model

| member | source | states |
|---|---|---|
| CacheTheorems.ReadsSeeLastWrite | dmr/bio.c:50-97 | in every interleaving of cache calls, flushes and disk interrupts, a bread or breada that returns gives the block asked for, valid, with the contents last released by bwrite, bawrite or bdwrite, else those of the original disk; for any blocks in use of which no two share a sector |
| CacheTheorems.NoWriteLost | dmr/bio.c:247-252 | when no two blocks in use share a sector, in every reachable state a block that nobody holds is on the disk as last written, or waits in an available delayed buffer with exactly those contents; eviction loses nothing |
| CacheTheorems.ListsAlwaysHold | h/buf.h:1-15 | whatever blocks are in use, in every reachable state each buffer is on exactly one association chain, is available iff not busy, the driver queue holds busy buffers only and is non-empty iff the device is active, and no two buffers have the same block |
| CacheTheorems.LastWordAlwaysZero | dmr/bio.c:16 | whatever blocks are in use, no run whose clients write within the 256 words of a block leaves anything but zero in the 257th word of a buffer area |
| CacheTheorems.NoLostWakeup | dmr/bio.c:227-245 | a process asleep in the cache always has its wakeup still to come |
| CacheTheorems.QueueIsFifo | dmr/rk.c:30-38 | an interrupt takes the head of the driver's queue and every other event only appends to it |
| CacheTheorems.FlushReachesDisk | dmr/bio.c:427-442 | when no two blocks in use share a sector, from every state that satisfies the invariant, once bflush has found nothing more and the queue has drained, the disk holds the last released contents of every block of the device that no caller holds |
| CacheTheorems.RunInv | dmr/bio.c:209-263 | the whole cache invariant (lists, keys, flags, custody, sleepers, and, when no two blocks in use share a sector, coherence with the last released contents) holds after every sequence of events |
| CacheTheorems.StepKeeps | dmr/bio.c:103-181 | every single event keeps that invariant, with the released contents updated exactly when the event is a write; what each event does to the calls in progress is in `CacheCalls` |
| CacheTheorems.ReplayKeeps | dmr/bio.c:427-442 | every round of bflush, and every interrupt between rounds, keeps the invariant with the same last released contents |
| CacheTheorems.BflushMakesDiskCurrent | dmr/bio.c:427-442 | bflush as a whole: called in a good state with no two blocks in use on one sector, it leaves a good state, and once the queue has drained the disk is current for every block of the device that no caller holds |
| CacheCalls.BwriteWaits | dmr/bio.c:103-122 | in every run over blocks of which no two share a sector, when a call of bwrite ends, which is never at once but by a later turn of its own, the disk has the contents released for that block, and the buffer is available and valid with the same contents |
| CacheCalls.BwriteHolds | dmr/bio.c:103-122 | in those runs, from that event on the process is in the call, and until the call ends no other call, client or list has the buffer |
| CacheCalls.BreadGives | dmr/bio.c:50-97 | in those runs, when a call of bread or breada ends, by a turn of its own, the client has a buffer for the block asked for that is valid, that nobody else has, and that holds the contents last released for the block |
| CacheCalls.GetblkGives | dmr/bio.c:209-263 | in every run, over whatever blocks, when a call of getblk ends the client has a buffer for the block asked for that nobody else has |
| CacheCalls.BreadaReadsAhead | dmr/bio.c:82-92 | no call of breada with a read-ahead block ends before that block has been in a buffer |
| CacheCalls.AheadStarts | dmr/bio.c:84-90 | the turn that has got the read-ahead buffer leaves it valid and available, or on the queue to be read and then released |
| CacheCalls.ReleaseAndDelay | dmr/bio.c:128-181 | brelse and bdwrite put the buffer at the tail of the available list and do not go to the disk; bdwrite leaves it valid and marked |
| CacheCalls.AsyncQueues | dmr/bio.c:146-153 | bawrite puts the buffer on the queue to be written and then released, and does not wait |
| CacheFrames.OthersLeave | dmr/bio.c:209-317 | no event but its own turns and the disk touches the buffer of a call in progress, except to want it |
| CacheFrames.AvailIsFifo | dmr/bio.c:158-181 | in every run one event takes at most one buffer off the available list, or puts one at its tail |
| CacheFrames.TakesOldest | dmr/bio.c:239-263 | in every run getblk for a block in no buffer takes the buffer that has been available longest: it gets it for the block, or has it written out first if it is a delayed write |
| CacheFrames.FlushSpares | dmr/bio.c:427-442 | bflush for one device neither queues nor changes the buffers of another |
| CacheExact.CoherentIffApart | dmr/rk.c:100-100 | for any set of blocks that the driver admits: every finished read of every run gives what was last written to its block if and only if no two blocks in use share a sector |
| CacheExact.SharedSector | dmr/bio.c:50-62 | for any two blocks in use that share a sector, a run at whose end bread of the one returns what was written to the other |
| CacheExact.SectorIsBlock | dmr/rk.c:100-100 | when no two blocks in use share a sector, the last contents released for a sector are the last written to its block |
| BlockStore.CacheIsStore | dmr/bio.c:50-141 | for a client of blocks 0 to n-1 of a drive, whatever else goes on, the cache is a plain store: what it keeps is what the client's writes, applied in order, leave there, and each bread or breada gives what the store then has |
| BlockStore.WritesGive | dmr/bio.c:103-141 | the writes of a run, applied in order to the disk at boot, give each block as last written |
| Buffers.SectorClash | dmr/rk.c:100-100 | for any two block numbers, negative ones included, on any two drives: they share a sector if and only if they differ, in sixteen bits, by as much as the starts of the drives |
| Buffers.ApartIffSpans | dmr/rk.c:100-100 | for drives each used from one admitted block up to another: no two blocks share a sector if and only if no drive reaches, going round, the first block of another |
| Buffers.TwoDrivesClash | dmr/rk.c:22-25 | two drives used in all that the driver admits of them, negative numbers included, always share a sector |
| Buffers.ApartDrives | dmr/rk.c:22-25 | of the block numbers from 0 up, all that the driver admits on minors 0 to 9 have different sectors, and so have the first NRKBLK of minors 0 to 12 |
| Buffers.AdmittedClash | dmr/rk.c:22-25 | three admitted pairs on one sector: a block of minor 9 is block 0 of minor 10; by wrap-around one of minor 11 is block 0 of minor 0; and the negative block -4872 of minor 1 is block 0 of minor 0 |
| Buffers.FlushShrinks | dmr/bio.c:433-439 | each round of bflush removes one pending buffer and adds none |
| Buffers.RkintrDriving | dmr/rk.c:70-82 | an interrupt keeps the driver running exactly while it has work and adds nothing for bflush to write |
| BufferCache.Cache.Notavail | dmr/bio.c:285-297 | unlinking from the circular available list removes that buffer, keeps the order of the rest and marks it busy |
| BufferCache.Cache.Brelse | dmr/bio.c:158-181 | the buffer joins the tail of the available list, loses its busy, wanted and async bits, and both kinds of waiters are woken |
| BufferCache.Cache.Incore | dmr/bio.c:187-199 | the walk along the association chain finds the first buffer with that device and block, or none |
| BufferCache.Cache.Getblk | dmr/bio.c:217-263 | one pass: the cached buffer, a sleep on it, a sleep for any buffer, a write-out of the oldest, or the oldest reassigned and rechained; all lists stay well linked |
| BufferCache.Cache.GetOldest | dmr/bio.c:239-263 | the part of getblk for a block in no buffer |
| BufferCache.Cache.Reassign | dmr/bio.c:253-262 | the buffer leaves its old chain and comes to the front of the new one with fresh flags and key |
| BufferCache.Cache.StartWrite | dmr/bio.c:103-112 | bwrite up to its wait: flags cleared and the buffer queued |
| BufferCache.Cache.StartRead | dmr/bio.c:57-59 | bread and breada up to the wait: the buffer marked for reading, asynchronously for read-ahead, and queued |
| BufferCache.Cache.Bawrite | dmr/bio.c:146-153 | asynchronous write: the buffer is queued and belongs to the driver |
| BufferCache.Cache.Bdwrite | dmr/bio.c:128-141 | delayed write: the buffer is available, done and marked |
| BufferCache.Cache.Rkstrategy | dmr/rk.c:14-40 | the buffer joins the tail of the queue threaded through its available link, and an idle device is started |
| BufferCache.Cache.Rkstart | dmr/rk.c:60-68 | the device becomes active exactly when the queue is not empty |
| BufferCache.Cache.Rkintr | dmr/rk.c:70-82 | the head of the queue is transferred, taken off, completed, and the next one started |
| BufferCache.Cache.Iodone | dmr/bio.c:303-317 | completion: released when asynchronous, otherwise its waiters woken |
| BufferCache.Cache.Bflush | dmr/bio.c:427-442 | ends, with interrupts coming at any time; on return no available buffer of the device is a delayed write, and the result is a replay of rounds and interrupts |
| BufferCache.Cache.Binit | dmr/bio.c:338-368 | all buffers start on the unassociated chain, available, with the initial abstract pool |
| ResourceMap.AllocCorrect | ken/malloc.c:25-43 | malloc keeps the table sorted, disjoint and coalesced, fails only when no segment fits, otherwise takes the first that does and removes exactly those units |
| ResourceMap.InsertCorrect | ken/malloc.c:51-82 | mfree keeps the table sorted, disjoint and coalesced and adds exactly the units given back |
| ResourceMap.Canonical | ken/malloc.c:51-82 | the table is determined by the set of free units |
| ResourceMap.FreeUndoesAlloc | ken/malloc.c:25-82 | freeing what malloc took restores the table exactly |
| MapTable.Malloc | ken/malloc.c:25-43 | the array loops compute first fit in place and leave every entry after the last segment of size zero |
| MapTable.Mfree | ken/malloc.c:51-82 | the array loops compute the coalescing insertion in place, given room for the result and its terminator |
| MapTable.OpenUp | ken/malloc.c:73-80 | the carrying loop moves every entry up one place; it stops only because the entries after the table are zero |
| MapTable.Merge | ken/malloc.c:59-68 | the two neighbours become one and the entries after them move down |
| MapTable.JoinBoth | ken/malloc.c:61-68 | a stale address after the table changes nothing |
| MapRuns.RunsPartition | ken/malloc.c:25-82 | over every run on a fresh range free and allocated units partition the range, and the table has at most one segment more than there are allocations |
| MapRuns.FewSegments | ken/malloc.c:34-38 | with k outstanding allocations the map has at most k+1 segments |
| MapRuns.AllBack | ken/malloc.c:51-82 | once everything is given back the map is again the one segment it started as |
| MapTableRuns.Serve | ken/malloc.c:25-82 | over any run with never more than k allocations outstanding a table of k+1 entries (two if k is 0) never overruns, and always holds the segments of that run |
| MapRuns.FewAtPeak | ken/malloc.c:25-82 | with never more than k allocations outstanding the map never has more than k segments, beyond the one it starts with |
| MapStairs.SegmentsReached | ken/malloc.c:25-82 | for every k a run with never more than k allocations outstanding leaves k segments with k-1 outstanding, so k+1 entries are needed |
| Ownership.NothingLostOrShared | ken/slp.c:135-239 | in every reachable state of sched, xswap, exit, wait and in-core newproc the free maps, images, zombie blocks and regions in transit are pairwise disjoint and cover exactly core and swap |
| Ownership.FreesOnlyOwned | ken/sys1.c:204-213 | no mfree in any run frees a unit that is free or was never handed out |
| Ownership.SavuIntoOwnCore | ken/slp.c:441-453 | whenever resume saves a u area, it goes into core that its process still owns |
| Family.Forked | ken/slp.c:365-378 | in every run a fork leaves the child runnable, in core of its own that was free, with the number given, of the size of its parent and with the number of its parent as p_ppid; every other process is as it was |
| Family.KeepsParent | ken/sys1.c:214-231 | over every run, as long as a child has not been reaped its parent is the live process that forked it, or process 1 from the moment that one exits |
| Family.CanBeReaped | ken/sys1.c:249-262 | over every run, a child that has exited can be reaped by wait in the process that forked it, or in process 1 if that one exited first |
| Family.LeftAlone | ken/slp.c:213-235 | number and size last as long as the process; its state, residence, lock and address change in the steps they belong to, to the values named, and in no others |
| Family.SwapperGoesOn | ken/slp.c:171-235 | a transfer goes to or comes from space that was free, and the process swapped has exactly that address at its end; no other step disturbs it |
| Family.CallsGoOn | ken/sys1.c:204-262 | exit and wait begin and end by their own steps only, with the block or the child they began with |
| Family.Reaped | ken/sys1.c:255-262 | the end of wait clears the slot of a zombie child of the caller |
| Ownership.StepKeeps | ken/text.c:14-35 | each step (fork, exit, wait, swap in, swap out, sleep, wakeup), across its sleeps, keeps the ownership invariant; what each step does to each process is in `Family` |
| Ownership.BootInv | ken/main.c:80-81 | the maps as main sets them up satisfy it |
| Ownership.SplitTake | ken/slp.c:174-175 | a region that malloc hands to one holder is disjoint from all others |
| Ownership.SplitGive | ken/slp.c:229-229 | a region given back returns to the map whole |
| SwapRoom.FewSegments | ken/malloc.c:51-82 | a map that splits its range with a number of holders has at most one segment more than there are holders |
| SwapRoom.MapsStaySmall | ken/slp.c:135-239 | in every reachable state the core map and the swap map have at most one segment more than there are regions held |
| SwapRoom.CoreAlwaysFits | ken/text.c:24-35 | in every reachable state the core map has fewer segments than there are process slots, so its 50 entries never overrun |
| SwapRoom.SwapFitsWhile | ken/sys1.c:204-262 | so has the swap map, along every run in which no process in the middle of exit is swapped out |
| Swapper.RoomOnSwap | ken/slp.c:225-235 | the room that swapping in and wait ask of the swap map is there under that condition, or in any table with two entries more than there are regions held after the step |
| Swapper.Kernel.OutBegin | ken/slp.c:213-218 | swap space is taken and the victim marked, as one ownership step, or nothing changes |
| Swapper.Kernel.OutEnd | ken/text.c:24-35 | the image's core goes back to the map, which always has room, and its address becomes the swap address |
| Swapper.Kernel.InBegin | ken/slp.c:171-175 | core is found for the process coming in, or nothing changes |
| Swapper.Kernel.InEnd | ken/slp.c:225-235 | its swap space is freed and it becomes resident |
| Swapper.Kernel.ExitBegin | ken/sys1.c:204-209 | one block of swap is taken for the status, or nothing changes |
| Swapper.Kernel.ExitEnd | ken/sys1.c:210-231 | core is freed into a map that always has room, the zombie holds its block, its children are adopted |
| Swapper.Kernel.WaitBegin | ken/sys1.c:249-255 | the first zombie child in table order, if there is one |
| Swapper.Kernel.WaitEnd | ken/sys1.c:255-262 | the zombie's block is freed once and its slot emptied |
| Swapper.Kernel.Newproc | ken/slp.c:400-432 | as one fork step, whose effect is `Family.Forked`: the child gets core of its own; or nothing changes |
| FreeList.RepPushSpill | ken/alloc.c:105-116 | a full superblock copied into the freed block, which then stands alone, is still the same stack with the block on top |
| FreeList.RepPopReload | ken/alloc.c:62-68 | taking the last entry brings in the batch stored in that very block |
| FreeList.RepRestart | ken/alloc.c:101-104 | an exhausted list starts again from a zero entry |
| FreeList.RepPopInCore | ken/alloc.c:55-61 | a pop within the superblock is a pop of the stack |
| FreeList.RepPushInCore | ken/alloc.c:116-116 | a push within the superblock is a push of the stack |
| FreeList.RepUnique | ken/alloc.c:45-118 | superblock and chain stand for one stack only |
| Volume.Volume.Alloc | ken/alloc.c:45-82 | pops the unbounded stack, reloading a batch when needed; 0 exactly when it is empty |
| Volume.Volume.Free | ken/alloc.c:89-118 | pushes a block of the data area and refuses any other; never asked for a block whose buffer the caller holds |
| Volume.Volume.Bmap | ken/subr.c:11-114 | the in-place algorithm (direct, conversion, indirect, doubly indirect) computes `BlockMap.Bmap` on inode, blocks and free stack; block numbers above 32767 give 0 and change nothing |
| Volume.Volume.ConvertToLarge | ken/subr.c:29-45 | the eight addresses move into an indirect block whose number becomes address 0 |
| Volume.Volume.BmapDirect | ken/subr.c:47-53 | a missing direct block is allocated cleared and entered |
| Volume.Volume.FetchSlot | ken/subr.c:65-75 | the indirect block of the address, allocated if missing |
| Volume.Volume.FetchDouble | ken/subr.c:81-96 | the second indirect block, allocated and entered in the first if missing |
| Volume.Volume.FetchData | ken/subr.c:102-109 | the data block, allocated cleared and entered if missing |
| Volume.Volume.Itrunc | ken/iget.c:153-186 | the blocks of the file go onto the free stack in the order of the backward walk, each once and none while its buffer is held; the inode is empty and small and its size is 0 |
| Volume.Volume.FreeWords | ken/iget.c:170-172 | the innermost walk from word 256 frees exactly the blocks named by the 256 words |
| BlockMap.BmapCorrect | ken/subr.c:11-114 | bmap returns the block of bn in the file as it then is, moves no other block, keeps all data, loses and shares no block, touches nothing outside the file and the free list, and what it adds is cleared |
| BlockMap.BmapStable | ken/subr.c:11-114 | asked again it gives the same answer and changes nothing |
| BlockMap.StillIffMapped | ken/subr.c:11-114 | bmap changes nothing if and only if the block is already there |
| BlockMap.ConvertProgress | ken/subr.c:35-45 | conversion moves no mapped block and conserves blocks |
| BlockMap.WordProgress | ken/subr.c:83-108 | so does entering a new block in any indirect block |
| BlockMap.SlotProgress | ken/subr.c:48-53 | so does entering one in the inode |
| FileGrow.LookupInjective | ken/subr.c:64-113 | different logical blocks never have the same physical block |
| FileGrow.LookupIn | ken/subr.c:64-113 | a mapped block is one of the file's blocks and not one of its indirect blocks |
| FileCensus.RunCensus | ken/iget.c:153-186 | over every run of bmap, itrunc and data writes on any number of files, every block of the data area stays on the free list or on exactly one path of exactly one file |
| FileCensus.FreeOrOnOnePath | ken/alloc.c:45-118 | what that means for one block: free or in a file, never both, in one file only and once |
| FileCensus.TruncatedConserves | ken/iget.c:153-186 | truncation gives back each block exactly once |
| FileOrder.LastBlocksFirst | ken/iget.c:153-186 | itrunc frees the data blocks of a file in reverse order: of two mapped blocks the logically later one is freed first |
| FileCensus.DataWrite | ken/rdwri.c:92-100 | writing a data block changes neither the file's tree nor the free list |
| FileBytes.WriteChunkBytes | ken/rdwri.c:82-100 | one turn of writei changes the file's bytes in that range and no others |
| FileBytes.MapKeepsBytes | ken/subr.c:11-114 | bmap changes no byte of the file |
| FileBytes.StoreWhole | ken/rdwri.c:92-95 | a whole block written over a buffer from getblk does not depend on what the buffer held |
| FileBytes.StoreBytesAt | ken/rdwri.c:133-139 | byte copying into words, low byte first, sets those bytes and no others |
| FileBytes.PlanWrote | ken/rdwri.c:82-108 | after any number of turns exactly the data passed so far has been written |
| FileBytes.FitsWhenRoom | ken/rdwri.c:87-88 | four free blocks for each block touched suffice for a write |
| FileHoles.StillIffNoHole | ken/rdwri.c:29-53 | the blocks of a read in turn leave inode, free list and blocks as they are if and only if all are already there |
| FileHoles.ReadFitsMapped | ken/rdwri.c:29-53 | a read that meets no hole needs no free block |
| FileHoles.ReadFitsWhenRoom | ken/rdwri.c:29-53 | four free blocks for each block spanned suffice for any read |
| FileHoles.ReadOfHole | ken/rdwri.c:29-53 | reading the first byte of an empty inode with one block free takes that block off the free list |
| FileIO.Writei | ken/rdwri.c:66-109 | the file's bytes from the offset on become the user's, all others stay, the size grows to the end of the write if it was less, blocks are conserved |
| FileIO.Readi | ken/rdwri.c:13-54 | the user gets the file's bytes from the offset on, as many as asked for or as there are; no byte of the file changes and no other byte of the user's; inode, free list and blocks stay as they are if and only if the read meets no hole |
| FileIO.EndSeen | ken/rdwri.c:34-37 | for every 32-bit offset the test for the end of the file succeeds if and only if the offset is at or beyond the size by at most 2^31 |
| FileIO.IomoveWrite | ken/rdwri.c:126-139 | moves exactly n bytes from the user into the buffer and advances offset, count and base by n |
| FileIO.IomoveRead | ken/rdwri.c:140-144 | moves exactly n bytes from the buffer to the user |
| FileIO.User.Passc | ken/subr.c:122-135 | one byte out, the offset advanced with carry, -1 on the last |
| FileIO.User.Cpass | ken/subr.c:144-159 | one byte in, the offset advanced with carry, -1 when the count is spent |
| FileIO.ClipLosesNothing | dmr/pc.c:117-129 | the difference clipped to 512 still bounds every chunk exactly |
| FileRuns.FilesAreByteArrays | ken/rdwri.c:13-109 | over every run of reads, writes and truncations on any number of files each file is the byte sequence that the same run leaves on plain zero-filled sequences, every read returned the matching slice, and the block census holds |
| FileRuns.StepRefines | ken/rdwri.c:13-109 | each single operation refines its abstract counterpart |
| FileRuns.ReadBack | ken/rdwri.c:13-109 | what a write put into a byte sequence is what a read of that range gives |
| FileRuns.OtherBytes | ken/rdwri.c:66-109 | an operation on one file is not seen in another |
| VolumeFiles.WriteFile | ken/rdwri.c:66-109 | on a volume whose files are the byte sequences c, writei leaves exactly c with that file patched at the offset, and all blocks accounted for |
| VolumeFiles.ReadFile | ken/rdwri.c:13-54 | readi hands over the slice of that file and leaves c as it is, and the volume untouched if and only if it meets no hole |
| VolumeFiles.TruncateFile | ken/iget.c:153-186 | itrunc leaves c with that file empty |
| Mkfs.Interleave | tools/mkfs.c:534-543 | for every f_n and f_m the table adr is a permutation of 0..f_n-1 that starts with 0, and each next entry is the first slot not yet used, going round from f_m after the last |
| Mkfs.OneTable | tools/mkfs.c:534-543 | there is only one such table |
| Mkfs.NextFree | tools/mkfs.c:538-539 | the search ends at the first unused slot going round from where it starts |
| Mkfs.Maker.Bfree | tools/mkfs.c:464-478 | pushes the block on the stack the kernel's alloc reads |
| Mkfs.Maker.Bflist | tools/mkfs.c:526-558 | every block of the data area ends up on that stack exactly once, and no other, in this order: down to the end of a round, then in rounds of f_n by the table, then down to the first |
| Mkfs.Maker.FreeRound | tools/mkfs.c:553-555 | one round frees i-adr[0], i-adr[1], .. in this order, which are f_n consecutive blocks, once each |
| Mkfs.Maker.FreeRounds | tools/mkfs.c:553-555 | all the rounds, each going on where the one before ended |
| Mkfs.Maker.Alloc | tools/mkfs.c:443-462 | pops the same stack while it is not empty |
| Mkfs.Maker.Newblk | tools/mkfs.c:500-511 | the data goes to the block popped, which is recorded |
| Mkfs.Maker.LayOutFile | tools/mkfs.c:312-319 | the addresses are those of `MkfsRuns.LayOut` |
| MkfsRuns.HandOver | tools/mkfs.c:197-330 | for every interleaving of files being laid out, the kernel's block census holds at the end and bmap returns the k-th recorded block of every file, holding the k-th data written |
| MkfsRuns.RunInv | tools/mkfs.c:197-330 | at every moment blocks are free, recorded in one open file, or in one finished file |
| MkfsRuns.Fresh | tools/mkfs.c:526-558 | what bflist leaves is where those runs start |
| MkfsRuns.LayOutCount | tools/mkfs.c:312-319 | laying out neither loses nor repeats a block |
| MkfsRuns.LaidOut | tools/mkfs.c:312-319 | up to eight blocks are in the inode, in order; more are in order in one indirect block, the first to come off the free list |
| PipeMachine.BytesInOrder | ken/pipe.c:55-178 | in every run with any number of readers and writers, each asking for at most 32767 bytes a call, bytes accepted are bytes delivered followed by those between offset and size, and 0 <= offset <= size <= 4096 |
| PipeCalls.WriterKeepsData | ken/pipe.c:118-171 | at every moment of a call of writep, what the pipe has accepted from the process since the call, followed by what it still has to write, is what the caller passed |
| PipeCalls.WriteEnds | ken/pipe.c:128-131 | a write that no signal ends has had all its bytes accepted, in order; one that a signal ends, a first part of them |
| PipeCalls.PortionFills | ken/pipe.c:155-171 | each turn of a writer takes as much as there is room for |
| PipeCalls.PortionWhole | ken/pipe.c:167-171 | a portion goes into the pipe in one piece, whoever else reads or writes meanwhile |
| PipeCalls.WriteInOnePiece | ken/pipe.c:118-171 | a write that finds room for all of it when its turn comes is accepted in one piece |
| PipeCalls.ReadEnds | ken/pipe.c:55-107 | a read that no signal ends has delivered the bytes at the head of the pipe, as many as it asked for or as there were, and never none |
| PipeCalls.OnlyReadsDeliver | ken/pipe.c:103-107 | nothing but the end of a read takes bytes out |
| PipeMachine.NeverBothAsleep | ken/pipe.c:75-97 | with the pipe unlocked nobody sleeps for the lock, a reader sleeps only on an empty pipe, a writer only on a full one, so never both |
| PipeMachine.RecordsGrow | ken/pipe.c:55-178 | what was accepted or delivered stays so, and what is delivered is a prefix of what was accepted |
| PipeMachine.RunCounted | ken/pipe.c:118-171 | at every moment of every run what a call still asks for is an int, as the code of readp and writep takes it |
| PipeMachine.StepInv | ken/pipe.c:185-214 | every step keeps the lock exclusive, the bit that wakes each sleeper set, and the queue in order |
| PipeCode.PipeInode.ReadPass | ken/pipe.c:63-105 | readp up to its next sleep, as one step of the protocol |
| PipeCode.PipeInode.ReadFinish | ken/pipe.c:105-107 | the bytes at the head are handed over and the lock released |
| PipeCode.PipeInode.WritePass | ken/pipe.c:123-171 | writep up to its next sleep, as one step of the protocol, whose effect on the data is `PipeCalls.WriterKeepsData` |
| PipeCode.PipeInode.WriteFinish | ken/pipe.c:172-177 | the lock is released and readers waiting for data woken |
| PipeCode.PipeInode.Plock | ken/pipe.c:185-195 | takes a free lock or sets the want bit |
| PipeCode.PipeInode.Release | ken/pipe.c:204-214 | clears the lock and wakes whoever wanted it |
| PipeCode.PipeInode.CloseDuplicate | ken/fio.c:42-51 | closing a duplicate clears both bits and wakes both sides |
| PipeRuns.PipeOnItsFile | ken/pipe.c:55-178 | at every moment of every run of the protocol on a file, its inode is not large and the bytes accepted but not yet delivered are the file's bytes from offset to size |
| PipeFile.PipeStaysSmall | ken/pipe.c:155-171 | writes that stay within 4096 bytes never make the inode large |
| PipeFile.PipeReadStaysSmall | ken/pipe.c:103-105 | nor do reads |
| PipeFile.PipeWrite | ken/pipe.c:167-171 | writei at the size is the protocol's append, whatever stale bytes follow |
| PipeFile.PipeRead | ken/pipe.c:103-106 | readi at the read offset is the protocol's removal |
| CalloutQueue.ExactlyOnTime | ken/clock.c:36-68 | over every run of timeout calls and ticks, with fired routines calling timeout, every request is fired or pending, and fires at exactly its firing tick: the tick asked for, or one later if it asked for no delay outside a scan; between scans it has fired if and only if that tick has come |
| CalloutQueue.NoDelayOutside | ken/clock.c:36-68 | a run in which a request for no delay made outside a scan at tick 0 fires at tick 1 |
| CalloutQueue.NoDelayInside | ken/clock.c:55-60 | a run in which one made during the scan of tick 1 fires at tick 1 |
| CalloutQueue.FiredInOrder | ken/clock.c:55-60 | firings come in order of deadline and then of request, none twice, and nothing fired is still in the table |
| CalloutQueue.OthersKept | ken/clock.c:135-163 | timeout changes no other entry's time and puts the new one behind everything due no later |
| CalloutQueue.InsertedAt | ken/clock.c:141-161 | the new entry is due after exactly tim ticks |
| CalloutQueue.Nearer | ken/clock.c:38-41 | decrementing the first non-zero entry brings every entry not yet due one tick nearer |
| CalloutQueue.FiredPrefix | ken/clock.c:55-67 | entries already fired may stay in front of the table during the scan without disturbing any time |
| CalloutTable.Table.Timeout | ken/clock.c:135-163 | the array loops compute the insertion in place, given a free slot |
| CalloutTable.Table.Clock | ken/clock.c:36-68 | decrement, scan with routines that call timeout, and closing up compute the specified table and firings |
| CalloutTable.Table.Tick | ken/clock.c:36-41 | only the first entry with time left is decremented |
| CalloutTable.Table.MoveDown | ken/clock.c:61-67 | the entries not fired move to the front, left-overs after the terminator ignored |
| CalloutRuns.ClockIsRun | ken/clock.c:36-68 | what the table code does in a clock tick is a run of the machine, with the same table and the same calls fired in the same order |
| CalloutRuns.TimeoutIsEvent | ken/clock.c:135-163 | a call of timeout on the table is one event of the machine |
| CalloutRuns.ReachesIsRun | ken/clock.c:36-163 | so the theorems on runs hold of whatever the table code reaches |
| Alarm.NobodyOversleeps | ken/sys2.c:267-285 | in every reachable state each sleeper has time < tout <= deadline, going round, for any number of sleepers, wrap-around and stime |
| Alarm.WokenAtDeadline | ken/clock.c:89-93 | the second in which a deadline arrives wakes its sleeper, whose next look ends the call |
| AlarmCalls.DeadlineKept | ken/sys2.c:271-274 | at every moment of a call the deadline is the time of the call plus its seconds |
| AlarmCalls.EndsInTime | ken/sys2.c:276-283 | in every run a call of sleep ends by a signal, or by a look at the clock that finds its deadline no longer ahead, and in no other way |
| AlarmCalls.SleepsOn | ken/sys2.c:276-282 | a look that finds the deadline ahead puts the process to sleep, whatever the alarm is set to |
| AlarmCalls.LastsLongEnough | ken/sys2.c:267-285 | while the time only runs, a call for n seconds that no signal ends lasts at least n of them |
| AlarmCalls.AwakeWhenOver | ken/sys2.c:267-285 | and once n have passed the process is awake and its next look ends the call |
| Longs.MinOfCount | h/pc.h:4-4 | of a 16-bit count and the room there is, min takes a part of the count if and only if the count is at most 32767; beyond that it yields the count itself, negative |
| Longs.Dpcmp | dmr/pc.c:117-129 | the clipped difference has the sign of the wrapped 32-bit difference |
| Longs.Dpadd | dmr/pc.c:107-115 | adds an unsigned word with carry and wrap-around |
| AlarmCode.Kernel.Turn | ken/sys2.c:276-283 | one turn of the loop of sslep, as a step of the machine; that it sleeps in each turn is `AlarmCalls.SleepsOn` |
| AlarmCode.Kernel.Clock | ken/clock.c:89-93 | the carry between the words and the wakeup when the alarm time is reached |
| AlarmCode.Kernel.SetTime | ken/sys4.c:18-25 | setting the time wakes every sleeper |
| AlarmCode.Kernel.Sslep | ken/sys2.c:271-274 | the deadline is fixed once |
| CharPool.Pool.Getc | dmr/tty.c:552-586 | removes the oldest character of the queue, -1 when empty; no other queue changes and the blocks stay partitioned |
| CharPool.Pool.Putc | dmr/tty.c:588-630 | appends a character, or fails exactly when a block is needed and none is free, and then changes nothing |
| CharPool.Pool.Cinit | dmr/tty.c:161-171 | every block is in the pool once and all queues are empty |
| CharPool.Pool.Give | dmr/tty.c:579-583 | a finished block returns to the pool, every other chain untouched |
| CharPool.Pool.Take | dmr/tty.c:598-618 | the first block of the pool is linked to the end of the queue |
| CharQueue.GotFirst | dmr/tty.c:567-578 | the new list head stands for the queue without its first character |
| CharQueue.PutLast | dmr/tty.c:596-623 | the new list head stands for the queue with the character at its end |
| CharQueue.PartitionGive | dmr/tty.c:579-583 | pool and queues still partition the blocks after a block is given back |
| CharQueue.PartitionTake | dmr/tty.c:598-604 | and after one is taken |
| Scheduling.Search | ken/slp.c:280-309 | the search picks a loaded runnable process of least priority number, the first of those after the last choice, and none exactly when there is none |
| Scheduling.Rotation | ken/slp.c:280-309 | while the best processes stay the same, successive searches take them in cyclic table order |
| Scheduling.EachOnce | ken/slp.c:280-309 | as many searches as there are best processes choose each exactly once |
| Scheduling.Longest | ken/slp.c:154-160 | the first of those longest in place |
| Scheduling.Decide | ken/slp.c:152-207 | which process a pass of sched brings in, the one longest out; if core cannot be had, whom it pushes out, the first easy one or else the one longest in; and exactly when it does neither |
| Scheduling.NewPid | ken/slp.c:348-361 | the search ends with the first number after mpid, going round, that no entry has, and the first free slot |

## Left out

- Swap image contents, `dmr/ide.c`, and swap transfers sharing the disk queue with the cache.
- I/O errors, `panic`, magtape, raw I/O, and interrupts inside a stretch of cache code between two sleeps; buffers obtained without a valid block are used as the callers in the kernel do (filled and written, or released unmodified).
- BufferCache.Cache.Rkstrategy: the branch for a block beyond the drive, which sets an error, is not modelled.
- The file layer runs one operation at a time: interleavings of bmap, readi, writei and itrunc at their sleeps, the inode lock, which iput drops unconditionally, and the superblock lock are not modelled; neither is the in-core inode table.
- Volume.Volume.Bmap: asks for the blocks it needs to be free, because a failed allocation leaves a cleared indirect block unwritten; the read-ahead hint it leaves in rablock is not modelled.
- Volume.Volume.Alloc: the retry on a bad block number, which cannot occur on a consistent free list.
- FileIO.Writei: special files, errors in user addresses, writes that end at or beyond 2^24, and counts above 32767, which the signed minimum in the source does not handle.
- FileIO.Readi: special files, counts above 32767, the choice between bread and breada, and offsets of 2^31 and more, which the test for the end of the file can take for offsets before it (`FileIO.EndSeen`).
- VolumeFiles.WriteFile: as FileIO.Writei.
- VolumeFiles.ReadFile: as FileIO.Readi.
- CacheTheorems.LastWordAlwaysZero: clients that write beyond the 256 words of a block.
- MapTable.Mfree: asks that the table has room for one more segment, which the source does not check; `MapTableRuns.Serve`, `SwapRoom.CoreAlwaysFits` and `Swapper.RoomOnSwap` say when it has.
- Swapper.Kernel.ExitEnd: a stopped child is not set running by the same step; the wakeup step that may follow does that.
- Swapper.Kernel.InEnd: asks for that room in the swap map.
- Swapper.Kernel.WaitEnd: asks for that room in the swap map.
- Ownership.NothingLostOrShared: fork through swap, where parent and child share core while asleep, the stopped-child branch of wait, and exec, which moves images across sleeps.
- Mkfs.Maker.Alloc: asks that a block is free; mkfs itself stops with a message when none is, and also when a file needs more than 255 blocks. Prototype parsing and the inode area are not modelled.
- PipeMachine.BytesInOrder: the last close of either end (end of file, SIGPIPE), failing writes, and counts above 32767, for which the code does not keep the order (`Longs.MinOfCount`); the same bound holds for the other theorems on pipes.
- PipeCode.PipeInode.ReadFinish: counts above 32767.
- PipeCode.PipeInode.WritePass: counts above 32767.
- FileRuns.FilesAreByteArrays: the same operations as FileIO.Readi and FileIO.Writei, with their bounds on counts and offsets.
- Volumes of more than 32767 blocks, whose size is no positive int in the superblock.
- CalloutTable.Table.Timeout: asks for a free slot; the source does not check for one.
- CalloutTable.Table.Clock: asks for a free slot for every request that a fired routine makes during the scan.
- CalloutQueue.ExactlyOnTime: negative times, which would delay the entries behind them.
- CharPool.Pool.Getc: only getc and putc; line editing and output delays run at lower priority against them.
- Scheduling.Search: saving and resuming contexts and the idle loop; priorities are below 128, as a char holds.
- Directories, names, permissions, mount, signals beyond interrupting a sleep, tracing, exec, shared text, terminals, and all device and assembly code.

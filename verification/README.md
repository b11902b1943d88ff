# Custom XV6: a Dafny model of the kernel's and the user tools' algorithms

This project models the parts of a teaching Unix for RISC-V where the state and the
interleavings are: the redo log, the buffer cache, block and inode allocation, file
contents, directories and link counts, page tables and physical frames, the deadline and
quota scheduler with its heap and queue, sleep and wakeup under sleep locks and under
wait and exit, pipes, and on the user side the memory allocator, the shell parser and the
pattern matcher of grep. C integers are unbounded here except where the width matters:
pipe counters, the clock, file offsets, sbrk's argument, link counts, the inode numbers of
directory entries and block numbers are modelled with their width.

## What is proved

- **Log.** `LogDisk` gives the exact list of disk writes of commit and recovery and says what
  a crash between any two of them leaves. `LogCode` is kernel/log.c as code, proved to issue
  exactly those lists and to pin exactly the logged blocks. `LogProtocol` runs any number of
  operations through begin_op, log_write and end_op with a crash at any moment: a recovered
  disk always holds exactly the committed operations, and by `LogPoint` that is the cache at
  one earlier moment without outstanding operations. `LogTrace` says the same from the steps
  taken: each block holds its last committed log_write, ended operations are committed, commit
  and recovery run to their end. `LogSpace` proves the reservation of begin_op, and that
  log_write's panic is out of reach if and only if operations log fewer than MAXOPBLOCKS
  blocks, because its guard counts the header block and the reservation does not.
- **Buffer cache.** `Bcache` relinks an array of buffers; bread returns what was last stored,
  one buffer per block, and the victim is the least recently released unreferenced buffer.
  This is what lets the other modules see cached blocks as one flat map. `BcachePins` says
  exactly when bget runs out of buffers: n blocks logged and k references held, n + k at least
  NBUF.
- **Files.** `FsVolume`, `FsBitmap`, `FsGrow`, `FsBytes`, `FsWrite` and `FsTrunc` hold the
  volume, the bitmap and what each update keeps; `FsCode` is balloc, bfree, bmap, readi,
  writei, itrunc, ialloc and iput as code. Marked bits are the metadata and the blocks that
  inodes name, no block is named twice, a file is a byte sequence without holes, also when
  the disk fills up. `FsRoom` says how far the free blocks carry a write, and `FileWrite`
  splits one into transactions that fit the log. `FsCrash` joins files and log: the disk
  recovered from a crash at any moment shows a consistent file system, the one that the
  committed operations made.
- **Directories.** `DirEntries` is a directory as a finite map from names, `DirTree` the tree
  with its link counts, `DirCode` link, unlink and create with their failure paths, and
  `DirPath` the walk along a path. `DirDisk` is dirlookup and dirlink over the bytes that readi
  and writei move, and refines `DirEntries`, disk-full cases included. Counts stay right
  exactly if the parent directory still has a link and the 16-bit count has room; both are
  stated as if and only if.
- **Memory.** `VmTree` is the three-level page table, `VmMemory` the flat map it refines and
  the frames, `VmCode` kernel/vm.c and kernel/kalloc.c as code. Every frame is free, a table,
  a user page or in somebody's hand, once. `VmDemand` counts the frames that a run of pages
  takes, tables included, and so says exactly when growth and fork's copy succeed.
- **Processes.** `PriorityQueue` and `Queue` are the scheduler's heap and ring in place.
  `Sched` is the scheduler over all CPUs with the clock, the ticks charged and the quotas: one
  place for every process, no overflow, dropped for good. `SchedLate` says when a late process
  can still run, `SchedCan` which process can run at all, `SchedQueue` who is queued and in
  what order the queue is left, and `SchedRuns` has the runs that show what is possible.
  `SleepLock` and `WaitExit` prove that no wakeup is lost. `SleepEnds`, `WaitEnds` and `WaitCan`
  say how acquiresleep, wait and exit end, and that they can.
- **User tools.** `FreeList` and `Umalloc` are malloc and free over the circular list,
  `ShellGrammar`, `ShellCode` and `ShellPrint` the parser, its code and the round trip with a
  printer, `ShellMix` commands whose words and redirections come in any order, `Grep` the
  matcher against a declarative language, `Pipe` the ring between readers and writers.

Protocols are step systems: `Enabled` says when a step can be taken, `Do` what it does,
`IsRun` what a run is, `Inv` what every step keeps. A step is the code between two points
where another process or CPU can look. Code that changes state in place is a class, each
method proved against a function or relation of the state before it. A panic is an outcome of
the method, or proved out of reach.

Disk writes are atomic per block and synchronous. Where the answer of something outside
matters (room on disk for a directory to grow, an inode that ialloc finds, pages for sbrk, a
failing copyin or copyout, a kill) it is a parameter, and the results hold for every value.

Some properties one might expect are false of the code. Each has its exact condition:

- Three operations that each log MAXOPBLOCKS blocks pass begin_op and still panic in
  log_write (`LogSpace.LargeOperationsPanic`); the condition is `LogSpace.PanicUnreachableIff`.
- A DROPPED process can be on a CPU and become RUNNABLE again, because usertrap marks the
  process it runs on and then yields (`SchedRuns.MarkUndone`); the condition is
  `SchedLate.DroppedForGoodIff`. A process past its deadline can still be dispatched; the
  condition is `SchedLate.LateRunsAgainIff`. A process late at a trap can go on, if the 32-bit
  clock wraps before the verdict (`SchedRuns.LateRunsAfterWrap`); the condition is
  `SchedLate.VerdictIff`, and `SchedLate.LateAtTrap` for a clock that does not wrap by then.
- A killed process can fall asleep in wait (`WaitEnds.KilledAsleep`), if the kill comes after
  the test of killed and before sleep takes p->lock; the condition is
  `WaitEnds.KillUnnoticedIff`.
- bget can panic with blocks pinned by the log and buffers held (`BcachePins.RunDry`); the
  condition is `BcachePins.EnoughBuffers`.
- writei can leave one changed block unlogged, if copyin fails within it
  (`FsSpill.UnloggedBlock`); the condition, `FsWrite.Spills`, is in terms of the volume, the
  offset and what copyin can deliver, and is in `FsCode.FileSystem.Writei` and
  `FileWrite.File.WriteOp`. What it costs the cache is in `Bcache.Cache.ReleaseSleep`.
- dirlink enters an inode number cut to 16 bits; the condition is in `DirDisk.LinkAt`.
- pq_check_and_push climbs only past parents with equal ticks, so it can lose heap order
  (`PriorityQueue.OrderLost`); the condition is in `PriorityQueue.Heap.CheckAndPush`.
- A link or a new directory in a directory that has lost its own link puts a link count out
  of step; the condition is `DirTree.AddLinkIff` and `DirTree.MakeDirIff`. A path that starts
  in such a directory can lead to a freed inode (`DirPath.StaleDotDot`); the condition is
  `DirPath.PanicFreeIff`.
- A request to malloc whose length is not a C int is asked of sbrk truncated; the condition is
  in `Umalloc.Heap.Morecore` and `Umalloc.Heap.Malloc`.

## Model

| member | source | states |
|---|---|---|
| LogDisk.HeadRoundTrip | kernel/log.c:87-114 | what read_head decodes is what write_head encoded, whatever the header buffer held before |
| LogDisk.CommitPrefix | kernel/log.c:179-203 | the disk writes of commit in order: log copies, header, home copies, cleared header; every crash point falls in one of these phases |
| LogDisk.LogAreaWritten | kernel/log.c:179-191 | after write_log and write_head the log area holds the transaction and no home block has changed |
| LogDisk.LogAreaDecides | kernel/log.c:117-123 | two disks with the same log area and the same unnamed home blocks mean the same: the header decides |
| LogDisk.PartialInstall | kernel/log.c:69-83 | installing any first part of the named blocks changes nothing about what the disk means; installing all of them makes every home block durable |
| LogDisk.CommitCrash | kernel/log.c:179-203 | commit cut after any of its 2n + 2 writes: the disk means the old contents, all of them, up to the header write, and the whole transaction after it |
| LogDisk.RecoverCrash | kernel/log.c:117-123 | recovery cut after any of its writes keeps the meaning of the disk; a full recovery clears the header and leaves every home block durable |
| LogDisk.CrashAtomicity | kernel/log.c:68-123 | commit crashes anywhere, any number of recoveries crash anywhere, the next one completes: every home block is as before the transaction, or every one as after it, and the header is clear |
| LogDisk.RecoveryIdempotent | kernel/log.c:117-123 | recovering a recovered disk changes nothing |
| LogCode.Log.WriteLog | kernel/log.c:179-191 | issues exactly the log copies of the transaction, one per block and in order |
| LogCode.Log.WriteHead | kernel/log.c:103-114 | issues exactly one write, of the encoded header |
| LogCode.Log.InstallTrans | kernel/log.c:69-83 | issues exactly the home copies of the logged blocks; after a commit every pin is gone, in recovery none is touched |
| LogCode.Log.Commit | kernel/log.c:194-203 | issues exactly the write list that CommitCrash is about, and nothing for an empty log; leaves lh.n at 0 and nothing pinned |
| LogCode.Log.ReadHead | kernel/log.c:87-97 | the in-memory header becomes the one on disk |
| LogCode.Log.RecoverFromLog | kernel/log.c:117-123 | issues exactly the write list that RecoverCrash is about; every home block is then durable and the log empty |
| LogCode.Log.LogWrite | kernel/log.c:215-235 | absorbs a block already in the transaction, appends and pins a new one, so the blocks pinned are the logged ones, once each; panics exactly when the log is full by its own test or no operation is outstanding |
| LogCode.Log.EndOp | kernel/log.c:147-175 | the last operation out commits: every home block on the device then holds the cached contents if the transaction named it and what it held before otherwise, and the log and the pins are empty; before that nothing moves; the panic exactly if a commit is running |
| LogProtocol.StepKeeps | kernel/log.c:127-235 | every step of begin_op, log_write, end_op, of the single disk writes of commit and recovery, and of a crash, keeps the invariant |
| LogProtocol.RunKeeps | kernel/log.c:127-235 | the invariant holds in every state of every run |
| LogProtocol.DurableNow | kernel/log.c:127-203 | at any moment the disk means exactly what the committed operations logged |
| LogProtocol.CrashAnywhere | kernel/log.c:127-203 | any run stopped at any moment and recovered: every home block holds what the committed operations logged, in order, and nothing of any other operation |
| LogProtocol.CommitExcludesOperations | kernel/log.c:147-175 | commit never runs with an operation outstanding, so the log.committing panic is out of reach; with nothing outstanding every ended operation is committed and the log empty |
| LogProtocol.CommitIsFinal | kernel/log.c:147-203 | an operation is committed once: afterwards it stays committed and logs nothing more |
| LogTrace.LastWriteSurvives | kernel/log.c:127-235 | stop any run anywhere and recover: a block holds the data of the last log_write step of it by a committed operation, absorbed or not |
| LogTrace.OthersSurvive | kernel/log.c:127-235 | and a block that no committed operation has logged holds what it held at the start |
| LogTrace.EndedIsCommitted | kernel/log.c:147-175 | an operation that has called end_op, with no crash since, is committed by the time that nothing is outstanding and no commit is under way |
| LogTrace.NotEndedNotCommitted | kernel/log.c:147-175 | an operation that has not called end_op is not committed |
| LogTrace.CrashLoses | kernel/log.c:117-123 | an operation that has begun and is not committed when the machine crashes never is |
| LogTrace.GoesOn | kernel/log.c:117-203 | a commit or recovery under way can always take its next write; the steps left go down by one, and the last leaves the system running with an empty log |
| LogSpace.SpentSplit | kernel/log.c:127-142 | the blocks the active operations have logged add up independently of their order |
| LogSpace.ReservationHolds | kernel/log.c:127-142 | with operations of at most MAXOPBLOCKS blocks, lh.n plus all unspent reservations never exceeds LOGSIZE |
| LogSpace.SmallOperationsFit | kernel/log.c:215-222 | operations of fewer than MAXOPBLOCKS blocks never meet the "too big a transaction" panic, in any interleaving |
| LogSpace.LargeOperationsPanic | kernel/log.c:215-222 | three admitted operations of MAXOPBLOCKS blocks each do meet it: the guard counts the header block, the reservation does not |
| LogSpace.PanicUnreachableIff | kernel/log.c:215-235 | on a log of mkfs size the panic is out of reach of every run if and only if operations log fewer than MAXOPBLOCKS blocks |
| Bcache.UnlinkKeeps | kernel/bio.c:122-132 | unlinking a buffer leaves a well-formed circular doubly linked list of the others, and only links changed |
| Bcache.PushFrontKeeps | kernel/bio.c:46-52 | linking a buffer behind the head does too |
| Bcache.RecycleKeeps | kernel/bio.c:76-88 | taking an unreferenced buffer for another block loses nothing that was stored and keeps one buffer per block |
| Bcache.FrontKeeps | kernel/bio.c:122-132 | moving a released buffer to the front keeps the list in order of last full release |
| Bcache.LeastRecent | kernel/bio.c:76-88 | the first unreferenced buffer from the tail is the least recently released one |
| Bcache.Cache.constructor | kernel/bio.c:37-53 | binit leaves a well-formed list of all NBUF buffers, none of them valid |
| Bcache.Cache.Lookup | kernel/bio.c:64-73 | finds the buffer of a block exactly if there is one |
| Bcache.Cache.Victim | kernel/bio.c:76-88 | finds the least recently released unreferenced buffer, or none exactly if all are referenced |
| Bcache.Cache.Bget | kernel/bio.c:59-89 | the cached buffer, else the least recently released unreferenced one recycled; the panic exactly if all are referenced; a pinned or held buffer is never recycled |
| Bcache.Cache.Fill | kernel/bio.c:93-103 | bread returns what was last stored to the block, from the cache or from disk |
| Bcache.Cache.Store | kernel/bio.c:93-103 | the lock holder changes the contents: this is the store that later breads see |
| Bcache.Cache.Bwrite | kernel/bio.c:107-112 | the disk gets the contents; what the cache stands for is unchanged |
| Bcache.Cache.ReleaseSleep | kernel/bio.c:117-122 | the lock goes; bread still returns what was last stored if and only if a changed buffer was written or pinned |
| Bcache.Cache.Drop | kernel/bio.c:122-137 | the last reference moves the buffer to the front; every other brelse only counts |
| Bcache.Cache.Bpin | kernel/bio.c:140-144 | one more pin; everything else as it was |
| Bcache.Cache.Bunpin | kernel/bio.c:147-151 | one pin fewer; bread still returns what was last stored if and only if the disk has the contents or the buffer is still held or pinned |
| BcachePins.PinnedAreLogged | kernel/bio.c:140-144 | as many buffers are pinned as blocks are logged |
| BcachePins.TakenBound | kernel/bio.c:59-89 | a referenced buffer is pinned or some process has a reference to it: they are no more than pins and references together |
| BcachePins.EnoughBuffers | kernel/bio.c:59-89 | with n blocks logged and k references held by processes, n + k below NBUF, some buffer is free: the "no buffers" panic is out of reach |
| BcachePins.RunDry | kernel/bio.c:59-89 | for every n up to NBUF and every k with n + k at least NBUF the operations of the cache lead to a state with n blocks logged and k references held in which bget panics: the bound is exact (n of NBUF takes a log longer than mkfs makes) |
| FsVolume.WordSet | kernel/fs.c:400-421 | setting one entry of an indirect block changes that entry and no other |
| FsVolume.NotNamedTwice | kernel/fs.c:383-421 | no block is reachable twice, through direct slots, indirect slots or entries |
| FsVolume.AttachOwned | kernel/fs.c:383-421 | naming an unused block in an empty slot keeps the ownership record exact |
| FsBitmap.ByteBits | kernel/fs.c:66-105 | setting or clearing one bit of a bitmap byte leaves the other seven |
| FsBitmap.MarkBit | kernel/fs.c:66-88 | marking a block in the bitmap changes the answer for that block only |
| FsBitmap.ClearBit | kernel/fs.c:92-105 | clearing one does too |
| FsGrow.EntryAttached | kernel/fs.c:400-421 | a block allocated for an entry of the indirect block keeps the volume sound and touches no other name |
| FsGrow.AttachSound | kernel/fs.c:383-421 | one more named block keeps ownership, holes and free inodes as they must be |
| FsBytes.ExtendsBytes | kernel/fs.c:383-421 | allocation is invisible: no file reads a byte differently, its own hole included |
| FsBytes.RewriteBytes | kernel/fs.c:506-528 | storing a block of one file changes exactly the bytes of that block in that file |
| FsWrite.PartContent | kernel/fs.c:506-539 | the bytes written, with the new size, are the old contents with the data spliced in, cut at that size |
| FsWrite.WriteEnds | kernel/fs.c:530-539 | after the size update the file is sound, has no holes and holds the splice as far as the size goes; every other file is untouched |
| FsWrite.NoSpaceAt | kernel/fs.c:517-520 | bmap runs out of space only at a block boundary past the end of the file |
| FsGrow.LogsTwice | kernel/fs.c:506-539 | the rule that every changed block is logged carries over from step to step |
| FsGrow.StuckIndirect | kernel/fs.c:400-421 | past the direct blocks bmap fails if and only if the block is missing and none is free, or the indirect block is missing too and at most one is |
| FsWrite.FirstBlockNamed | kernel/fs.c:383-421 | the block of an unaligned starting offset already exists |
| FsWrite.TallyTotal | kernel/file.c:148-174 | the blocks logged for one chunk, by kind, add up to at most MAXOPBLOCKS, and to 7 with one bitmap block |
| FsTrunc.DetachDirect | kernel/fs.c:426-453 | freeing a direct block takes exactly its ownership away |
| FsTrunc.FreeEntry | kernel/fs.c:426-453 | freeing an indirect entry takes exactly its ownership away, none twice |
| FsTrunc.DropIndirect | kernel/fs.c:426-453 | dropping the emptied indirect block leaves the inode naming nothing past the direct slots |
| FsTrunc.TruncSound | kernel/fs.c:426-453 | a truncated inode leaves the volume sound |
| FsCode.FileSystem.constructor | mkfs/mkfs.c:237-250 | mkfs's start, every inode free and only metadata marked, meets the invariant |
| FsCode.FileSystem.Balloc | kernel/fs.c:66-88 | the lowest free block, owned by nobody, marked and zeroed; 0 exactly when the disk is full, with nothing changed |
| FsCode.FileSystem.FirstClear | kernel/fs.c:73-83 | the first clear bit of a bitmap block within the disk, all earlier ones set |
| FsCode.FileSystem.Bfree | kernel/fs.c:92-105 | clears the bit; the panic exactly on a clear bit |
| FsCode.FileSystem.FreeBlock | kernel/fs.c:92-105 | for a block in use the "freeing free block" panic is out of reach |
| FsCode.FileSystem.Bmap | kernel/fs.c:383-421 | the block of a file block, allocated if missing; 0 if and only if the blocks it would take are not free; ownership, bitmap and all bytes stay right even then; every block it changes it logs, and at most one bitmap block per allocation |
| FsCode.FileSystem.IndirectBlock | kernel/fs.c:400-421 | the same for blocks past the direct ones, indirect block included |
| FsCode.FileSystem.Writei | kernel/fs.c:506-539 | -1 exactly for a bad range, else the number of bytes stored: exactly as many as copyin delivers in whole chunks and there are free blocks for; file contents are spliced, size follows, other files are untouched, no block is lost or shared, at most MAXOPBLOCKS blocks logged per chunk; every block it changes it logs if and only if nothing spills: copyin fails, before it there is room, and in a block that the file has and the operation has not logged it delivers a byte that differs |
| FsCode.FileSystem.WriteChunk | kernel/fs.c:516-528 | one round: stores what copyin delivers in exactly one block; if copyin fails, all that changed is logged if and only if the block is new, or logged already, or unchanged; no space if and only if too few blocks are free, and otherwise exactly the missing blocks are taken |
| FsRoom.RoomOne | kernel/fs.c:383-421 | bmap finds too few free blocks for one block of a file exactly if there is no room for it, the indirect block counted |
| FsRoom.RoomNext | kernel/fs.c:516-520 | with one block in place there is room for a range if and only if there is room for the rest of it |
| FsRoom.AheadNext | kernel/fs.c:516-528 | a round of writei neither changes nor logs a block that is still ahead of it, and renames none |
| FsWrite.ReachedSome | kernel/fs.c:516-520 | where the loop stops for lack of space, there was room for the bytes up to there and for no more |
| FsWrite.ReachedMore | kernel/file.c:148-174 | where a chunk has stored all its bytes, what there is room for after it is what there was room for from the start |
| FsRoom.FilledTwice | kernel/file.c:148-174 | the blocks that two chunks in a row have taken are those that one write of both would take |
| FsWrite.SpillLogged | kernel/fs.c:522-526 | an unlogged store to the block that bmap found or allocated leaves a change unlogged if and only if it spills |
| FsSpill.UnloggedBlock | kernel/fs.c:522-526 | on any disk with a free block and a free inode two writes reach a state in which writei has counted nothing, the file has changed, and the block that holds it is not in the log |
| FsCode.FileSystem.Readi | kernel/fs.c:472-496 | exactly the clipped slice of the file, or -1 exactly if copyout cannot deliver all of it; nothing is allocated or logged |
| FsCode.FileSystem.Itrunc | kernel/fs.c:426-453 | frees every block of the inode exactly once and no other; the inode is empty; the bitmap blocks changed and the inode's block are logged, and no others |
| FsCode.FileSystem.Ialloc | kernel/fs.c:199-219 | the lowest inode that is free on disk, cleared and typed; 0 exactly when there is none |
| FsCode.FileSystem.IputLast | kernel/fs.c:337-362 | the last reference to an unlinked inode frees its blocks and the inode, nothing else, and logs what it changes |
| FileWrite.StoredTwice | kernel/file.c:148-174 | two consecutive chunks are one store of their concatenation |
| FileWrite.File.WriteOp | kernel/file.c:161-166 | one begin_op..end_op: at most ChunkLimit blocks logged; every disk block and inode changed is among them if and only if nothing spills; the bytes stored are those for which there is room, and the offset follows them |
| FileWrite.File.Write | kernel/file.c:148-174 | the file gets, at the old offset, exactly the bytes for which there is room and which copyin can deliver; n is returned exactly when that is all of them, and -1 otherwise, also for a negative n; every chunk is one operation within the log limit, for any offset, length, number of bitmap blocks and point at which copyin fails |
| FileWrite.FileWritesFit | kernel/file.c:148-174 | operations whose block sets are within the bound of WriteOp, on a disk with one bitmap block, never meet the log panic, however they are interleaved with each other, commits and crashes |
| LogPoint.CommittedAt | kernel/log.c:127-203 | in every state of every run the committed operations amount to the cache at one earlier end_op that left no operation outstanding, and are exactly those that had ended by then |
| LogPoint.RecoversTo | kernel/log.c:117-203 | a run stopped anywhere and recovered: the home blocks hold that cache |
| LogPoint.PreviousPoint | kernel/log.c:127-203 | from one such point to the next, whatever crashes lie between, the cache changes only on the blocks in the log |
| FsCrash.DinodeOnce | kernel/fs.h:32-39 | the words of struct dinode determine type, link count, size and addresses |
| FsCrash.ShowsOnce | kernel/fs.h:32-51 | the blocks of a disk determine the inodes, the bitmap and the data blocks they show |
| FsCrash.ChangesTwice | kernel/log.c:215-235 | two operations of one transaction together log every disk block in which the file system after both differs from the one before |
| FsCrash.Carried | kernel/log.c:215-235 | a cache that shows one file system and changes on the logged blocks only, to show the next one there, shows the next one |
| FsCrash.WriteLogged | kernel/file.c:161-166 | one operation of filewrite leaves a consistent file system with all inodes written back, and logs every disk block in which it differs from the one before if and only if nothing spills |
| FsCrash.FilesSurvive | kernel/log.c:117-203 | any run over a file system whose transactions log what they change, stopped at any moment and recovered: the disk shows a consistent file system (blocks named once and marked, no holes), the one after exactly the committed operations |
| VmTree.PxInjective | kernel/vm.c:86-103 | below MAXVA the three indices determine the page |
| VmTree.AddMidKeeps | kernel/vm.c:96-100 | linking an empty level-1 table changes no translation |
| VmTree.AddLowKeeps | kernel/vm.c:96-100 | linking an empty level-0 table changes no translation |
| VmTree.SetLeafKeeps | kernel/vm.c:144-199 | storing an entry changes the translation of exactly one page of one address space |
| VmTree.BelowNext | kernel/vm.c:279-294 | the tables below the first n slots are disjoint subtrees, so freewalk meets each once |
| VmTree.RemoveTree | kernel/vm.c:279-304 | taking a whole tree away leaves every other address space as it was |
| VmMemory.PopConserved | kernel/kalloc.c:69-82 | a frame taken from the free list keeps the frames one duplicate-free set |
| VmMemory.PushConserved | kernel/kalloc.c:47-63 | a frame given back does too |
| VmMemory.RefinesSet | kernel/vm.c:144-199 | the tree with an entry stored refines the flat map with that page changed |
| VmMemory.ExclusiveMap | kernel/vm.c:144-172 | mapping a fresh user frame keeps each user frame in one page |
| VmMemory.ExclusiveUnmap | kernel/vm.c:178-199 | unmapping keeps it too |
| VmMemory.MapRangeAt | kernel/vm.c:144-172 | a mapped run is the old map plus exactly the named pages |
| VmMemory.StoreMore | kernel/vm.c:359-383 | one page of copyout stores exactly its bytes and no other byte any user sees |
| VmCode.Memory.constructor | kernel/kalloc.c:27-40 | every whole page of the range is on the free list once |
| VmCode.Memory.Kalloc | kernel/kalloc.c:69-82 | takes a frame nobody holds, or fails exactly when none is left |
| VmCode.Memory.Kfree | kernel/kalloc.c:47-63 | gives a frame back; every frame is still in exactly one place if and only if the caller held it; the panic exactly for an address that is not a page of the allocator |
| VmCode.Memory.Walk | kernel/vm.c:86-103 | finds the level-0 table, or fails exactly when fewer frames are free than tables are missing; tables made on the way change no translation, even when memory runs out half way |
| VmDemand.DemandNext | kernel/vm.c:86-103 | one page more takes one frame and one for each table on its way that is there neither from the start nor for the pages before |
| VmCode.Memory.Mappages | kernel/vm.c:144-172 | maps a first part of the pages asked for, none of which was mapped, and no other page: all of them, or up to one for which memory ran out, or up to the panic at an unaligned or empty range, a mapped page or one past MAXVA |
| VmCode.Memory.Uvmunmap | kernel/vm.c:178-199 | exactly the named pages go, and with do_free exactly their frames, which otherwise stay with the caller; the panic exactly at an unaligned address or the first page that is not mapped |
| VmCode.Memory.Uvmcreate | kernel/vm.c:204-212 | an empty address space with a root nobody used |
| VmCode.Memory.Uvmdealloc | kernel/vm.c:263-274 | shrinks by exactly the pages past the new size, frames freed; the panic exactly if one of them is not mapped |
| VmCode.Memory.Uvmalloc | kernel/vm.c:233-256 | grows by zeroed pages on fresh frames, or leaves mapping, contents and data frames as they were; the growth succeeds if and only if all its pages are unmapped and below MAXVA and as many frames are free as the pages and the missing tables take; the panic exactly if the free frames last to the first page that is mapped or past MAXVA |
| VmCode.Memory.Freewalk | kernel/vm.c:279-294 | every table of the tree is freed exactly once; the panic exactly if a leaf is left |
| VmCode.Memory.Uvmfree | kernel/vm.c:299-304 | the pages and every table of the address space are freed, once each, and other address spaces are untouched; a panic exactly unless the pages mapped are those below sz |
| VmCode.Memory.Uvmcopy | kernel/vm.c:313-340 | every page below sz is copied with flags and contents to a fresh frame, or the child is left as it was with all data frames returned; the copy succeeds if and only if every page is in the parent and none in the child and as many frames are free as the pages and the missing tables take; the panics exactly if the free frames last to the page that causes them |
| VmCode.Memory.Copyout | kernel/vm.c:359-383 | stores the bytes up to the first page the user cannot write, and no other byte |
| VmCode.Memory.Copyin | kernel/vm.c:389-408 | the bytes of the range, or failure exactly if a page of it is not readable |
| VmCode.Memory.CopyRoundTrip | kernel/vm.c:359-408 | copyout then copyin of the same range returns the same bytes, for any alignment and length |
| PriorityQueue.RootIsLeast | kernel/priority_queue.h:43-83 | the root of an ordered heap is a minimum by ticks, then deadline |
| PriorityQueue.UpStep | kernel/priority_queue.h:29-40 | one swap of pq_push leaves only the parent slot in doubt |
| PriorityQueue.DownStep | kernel/priority_queue.h:54-77 | one swap of pq_pop leaves only the child slot in doubt |
| PriorityQueue.ClimbEnd | kernel/priority_queue.h:105-115 | where the climb of pq_check_and_push stops, the heap is ordered exactly if the process could have started there |
| PriorityQueue.OrderLost | kernel/priority_queue.h:89-117 | a process with fewer ticks than its parent slot stays below it: order is lost |
| PriorityQueue.Heap.Push | kernel/priority_queue.h:20-41 | adds the process once and keeps an ordered heap ordered; the panic exactly on a full heap |
| PriorityQueue.Heap.BubbleUp | kernel/priority_queue.h:29-40 | restores order from one suspect leaf, contents unchanged |
| PriorityQueue.Heap.Pop | kernel/priority_queue.h:43-83 | removes the root, a minimum of an ordered heap, and keeps the heap ordered |
| PriorityQueue.Heap.BubbleDown | kernel/priority_queue.h:54-77 | restores order from a suspect root, contents unchanged |
| PriorityQueue.Heap.BubbleUpEqual | kernel/priority_queue.h:105-115 | climbs only past equal ticks, so order results exactly if the slot was right up to ties |
| PriorityQueue.Heap.CheckAndPush | kernel/priority_queue.h:89-117 | adds a runnable process that is not there once; from an ordered heap, order survives if and only if the slot is the root or its parent has no more ticks |
| Queue.SlotsPush | kernel/queue.h:22-31 | storing at rear appends to the ring contents, wrap-around included |
| Queue.SlotsPop | kernel/queue.h:33-42 | advancing front drops the first |
| Queue.Ring.Enqueue | kernel/queue.h:22-31 | appends, or fails exactly when full |
| Queue.Ring.Pop | kernel/queue.h:33-42 | returns the oldest, or nothing exactly when empty |
| Sched.StepKeeps | kernel/proc.c:584-756 | every step of the scheduler, of usertrap and its mark, yield, sleep, exit, wakeup, kill, fork, fork_deadline, set_cpu_quota, wait and the clock, with the ticks charged, keeps every process in at most one place with the state that place needs |
| Sched.RunKeeps | kernel/proc.c:584-756 | so in every state of every run |
| Sched.OnePlace | kernel/proc.c:584-713 | a process is in at most one of heap, queue and CPUs; heap members are RUNNABLE, queue members PASSED_QUOTA; a RUNNING process is on a CPU, and a process on a CPU is RUNNING, or DROPPED exactly between usertrap's mark and its yield |
| Sched.NoOverflow | kernel/proc.c:584-713 | the heap-overflow panic and the full-queue return are out of reach |
| Sched.DroppedForGood | kernel/proc.c:584-713 | a DROPPED process that is on no CPU stays dropped and is never in the heap, the queue or on a CPU again |
| SchedLate.DroppedForGoodIff | kernel/proc.c:584-756 | a DROPPED process of a reachable state stays dropped on every path if and only if no CPU is on it |
| SchedRuns.MarkUndone | kernel/trap.c:75-78 | a run in which init forks a child with a deadline, usertrap marks the child on the CPU DROPPED, and its own yield makes it RUNNABLE again |
| SchedLate.LateAtTrap | kernel/trap.c:75-78 | a process that usertrap finds late leaves its CPU, neither in the heap nor queued nor chosen meanwhile, and is dropped for good unless the clock wraps before the verdict; what the clock does after it does not matter |
| SchedLate.VerdictIff | kernel/proc.c:681-704 | a process marked at a trap is dropped, and then for good, if and only if it is late when the scheduler gives its verdict |
| SchedLate.LateStaysOff | kernel/proc.c:584-713 | a late process that is neither queued nor chosen is never dispatched again while it keeps its slot and the clock does not wrap |
| SchedLate.NextOf | kernel/proc.c:599-706 | a CPU that has not yet seen the heap empty can always go on towards that, or another CPU towards the release of a lock it needs; what is left to do decreases |
| SchedLate.LateRunsAgainIff | kernel/proc.c:584-713 | a late process can still be dispatched if and only if it waits in the queue or is chosen already: neither is followed by another look at the deadline; the queue is reached only after a scan of all slots and with the heap empty |
| SchedRuns.LateRunsAfterWrap | kernel/trap.c:75-78 | for a child with the greatest deadline one tick between the mark and the verdict wraps the clock, and the process that was late at a trap is dispatched again |
| SchedRuns.QueuedRun | kernel/proc.c:689-695 | a run in which set_cpu_quota gives a child a quota of no ticks, and the verdict when it yields puts it in the queue |
| SchedQueue.OverQuota | kernel/proc.c:689-695 | a RUNNABLE process in time whose charged ticks reach its quota becomes PASSED_QUOTA and last in the queue |
| SchedQueue.OnlyOver | kernel/proc.c:681-704 | and nobody becomes PASSED_QUOTA otherwise |
| SchedQueue.FirstInFirstOut | kernel/proc.c:584-713 | between any two states of a run, the queue at first and those who enter are, in this order, those who leave and the queue at last |
| SchedQueue.InTurn | kernel/proc.c:584-713 | a process behind m others stays queued, and off heap and CPUs, until m have left, and is the next to leave |
| SchedQueue.TicksCharged | kernel/proc.c:678-684 | the verdict charges a process the ticks since its dispatch, in 32 bits, less those between a trap and its return |
| SchedCan.WhoCanRun | kernel/proc.c:584-829 | in every reachable state a process can be dispatched again if and only if it is queued or chosen, or it is in time and neither a zombie nor dropped off every CPU |
| SchedCan.SlotReused | kernel/proc.c:440-484 | from every reachable state with a zombie its slot can be freed and forked into, with any deadline and nothing charged |
| SleepLock.StepKeeps | kernel/proc.c:784-829 | every step of acquiresleep, releasesleep, sleep, wakeup and kill keeps the invariant |
| SleepLock.NoLostWakeup | kernel/sleeplock.c:21-41 | in every reachable state with the inner spinlock free, a process asleep on the lock or on its way to sleep means that somebody holds the lock: no wakeup is lost |
| SleepLock.MutualExclusion | kernel/sleeplock.c:21-41 | at most one process holds the sleep lock |
| SleepEnds.AcquireEnds | kernel/sleeplock.c:21-31 | a process leaves acquiresleep only by taking a lock that is free: a woken one goes back to the test |
| SleepEnds.AcquireCanEnd | kernel/sleeplock.c:21-41 | from every reachable state a process in acquiresleep, or outside, can come to hold the lock |
| WaitExit.StepKeeps | kernel/proc.c:329-484 | every step of fork, wait, exit, reparent, sleep, wakeup and kill keeps the invariant; fork is three critical sections and a failure path |
| WaitExit.ZombieNoticed | kernel/proc.c:379-484 | whenever wait_lock is free a zombie has a parent that has not exited and is neither asleep in wait nor on its way to sleep there, reparenting to init included |
| WaitExit.NoOrphans | kernel/proc.c:379-435 | a process that has exited, or a free slot, is nobody's parent |
| WaitEnds.HowWaitEnds | kernel/proc.c:440-484 | a process leaves wait by freeing exactly one exited child of its own, or without any change because it has no child, is killed, or the copyout for an exited child fails |
| WaitEnds.WaitSleeps | kernel/proc.c:476-482 | a process goes to sleep in wait only if it has a child and was not killed at the test |
| WaitEnds.KilledStaysAwake | kernel/proc.c:476-482 | a process killed before that test does not sleep in wait |
| WaitEnds.KillUnnoticedIff | kernel/proc.c:476-482 | a kill of a process in wait can go unnoticed, and the process fall asleep there, if and only if it comes between the test of killed and sleep's acquire of p->lock |
| WaitEnds.KilledAsleep | kernel/proc.c:476-482 | a run in which a kill after the test, before sleep takes p->lock, leaves the process killed and asleep |
| WaitCan.WaitCanReap | kernel/proc.c:440-484 | from every reachable state a process in wait with an exited child can go on to free one |
| WaitCan.ExitCanEnd | kernel/proc.c:396-435 | from every reachable state a process other than init, in user space or in exit, can come to have exited |
| FreeList.LinkSorted | user/umalloc.c:24-44 | a block put where it belongs keeps the list in address order and disjoint |
| FreeList.AbsorbHolds | user/umalloc.c:33-42 | merging two touching blocks keeps exactly the same bytes free |
| FreeList.ReleaseKeeps | user/umalloc.c:24-44 | releasing a block keeps the list circular, sorted, disjoint and without touching blocks, and adds exactly the bytes of the block |
| FreeList.UnlinkKeeps | user/umalloc.c:76-77 | taking a whole block off keeps the list as it must be |
| FreeList.ShrinkKeeps | user/umalloc.c:78-81 | cutting the tail off a block does too |
| Umalloc.Heap.constructor | user/umalloc.c:21-22 | the zeroed static state meets the invariant |
| Umalloc.Heap.Search | user/umalloc.c:30-32 | the circular search ends, at the one block after which the freed block belongs |
| Umalloc.Heap.JoinNext | user/umalloc.c:33-37 | the first half of the relinking equals the list-level merge with the next block |
| Umalloc.Heap.JoinPrevious | user/umalloc.c:38-43 | the second half equals the merge with the previous one |
| Umalloc.Heap.Free | user/umalloc.c:24-44 | exactly the bytes of the block become free; the list invariants hold and stay apart from all allocated blocks |
| Umalloc.Heap.Morecore | user/umalloc.c:46-61 | adds one block of at least nu units; the block lies in granted memory if and only if its length is a C int |
| Umalloc.Heap.Take | user/umalloc.c:75-85 | the block cut off was free, is now allocated and apart from all others; no other byte changes hands |
| Umalloc.Heap.Malloc | user/umalloc.c:63-90 | a fresh block large enough, the tail of the first block after freep that has room; sbrk asked at most once and only if no free block fits; failure only if it refuses; bytes owned change only by its grant |
| Grep.FoundCons | user/grep.c:85-106 | a match of a pattern splits into a piece for the first item and a match of the rest |
| Grep.MatchHere | user/grep.c:85-96 | true exactly if a substring from this offset is in the language of the items |
| Grep.MatchStar | user/grep.c:99-106 | the same for a starred item first; both end by a joint measure |
| Grep.Match | user/grep.c:72-82 | true exactly if some substring is in the language, at the start for a leading ^ |
| Pipe.Counters | kernel/pipe.c:76-130 | 32-bit counters tell full and empty apart like unbounded ones |
| Pipe.RingPlace | kernel/pipe.c:76-130 | ring places survive the wrap of the counters |
| Pipe.Pipe.constructor | kernel/pipe.c:32-35 | a new pipe is empty and open at both ends |
| Pipe.Pipe.Put | kernel/pipe.c:91-96 | one byte more in the pipe, the others in place |
| Pipe.Pipe.Get | kernel/pipe.c:118-121 | the oldest byte |
| Pipe.Pipe.WriteRun | kernel/pipe.c:76-103 | a locked stretch stores the source bytes in order, up to exactly the end, the full pipe, the failing copyin or the kill, whichever is first; sleeps exactly on a full pipe; returns all, what could be copied in, or -1 |
| Pipe.Pipe.ReadRun | kernel/pipe.c:105-130 | a locked stretch delivers the oldest bytes in order, up to n; sleeps only on an empty open pipe; a failed copyout loses exactly one byte |
| ShellGrammar.GetToken | user/sh.c:266-309 | the cursor never moves back; a word token is a maximal run of word characters |
| ShellGrammar.Line | user/sh.c:345-360 | the parsers end, with a cursor that never moves back |
| ShellGrammar.LineGood | user/sh.c:345-447 | every word recorded in the tree is a maximal run of word characters, ended by its eq |
| ShellCode.Parser.AtOne | user/sh.c:311-321 | peek skips white space and answers for the next character |
| ShellCode.Parser.Next | user/sh.c:266-309 | gettoken computes the token of the grammar |
| ShellCode.Parser.ParseRedirs | user/sh.c:375-398 | the loop reads the redirections of the grammar, or reports a missing file |
| ShellCode.Parser.ParseExec | user/sh.c:416-447 | a simple command or a block, as the grammar has it |
| ShellCode.Parser.ParseSimple | user/sh.c:424-446 | arguments and redirections in any mixture, at most MAXARGS - 1 arguments |
| ShellCode.Parser.ParseBlock | user/sh.c:400-414 | a parenthesised line and its redirections, or a missing ) |
| ShellCode.Parser.ParsePipe | user/sh.c:362-373 | pipes associate to the right |
| ShellCode.Parser.ParseLine | user/sh.c:345-360 | background marks, then lists to the right |
| ShellCode.EndsOutside | user/sh.c:450-494 | the places nulterminate writes to are on no word |
| ShellCode.CutReads | user/sh.c:450-494 | cutting at such places leaves every word readable as its C string |
| ShellCode.NulTerminate | user/sh.c:450-494 | writes a NUL just past every word and nowhere else |
| ShellCode.ParseCmd | user/sh.c:328-343 | the tree of the line, or an error with the buffer as it was; every word is then a C string in the buffer |
| ShellPrint.WordsBack | user/sh.c:416-447 | the arguments printed are the arguments read |
| ShellPrint.UnitBack | user/sh.c:416-447 | a printed command, block or redirection is read back |
| ShellPrint.PipelineBack | user/sh.c:362-373 | a printed pipeline is read back |
| ShellPrint.LineBack | user/sh.c:345-360 | a printed line is read back, up to a closing parenthesis or the end |
| ShellPrint.ExecFails | user/sh.c:436-441 | a tenth argument is refused |
| ShellPrint.LineFails | user/sh.c:345-360 | a printed line with a command of ten or more arguments is refused, wherever the command stands |
| ShellPrint.RoundTrip | user/sh.c:328-447 | parsing the canonical printing of any tree whose words are words gives the tree back if every command has at most 9 arguments, and the too-many-arguments error otherwise |
| ShellMix.AnyMixture | user/sh.c:416-447 | words and redirections in any order and with any white space are read as all the words, under all the redirections, the last outermost; a tenth word is refused |
| DirEntries.NameEq | kernel/fs.c:544-547 | namecmp decides whether two 14-byte fields hold the same name |
| DirEntries.CopyName | kernel/fs.c:600-601 | strncpy keeps the name and pads with NULs |
| DirEntries.PutKeeps | kernel/fs.c:580-606 | a new entry adds exactly its name to the map the directory stands for |
| DirEntries.EraseKeeps | kernel/sysfile.c:220-222 | erasing an entry takes exactly its name out of the map |
| DirEntries.DirLookup | kernel/fs.c:552-575 | answers as the map does |
| DirEntries.FindFree | kernel/fs.c:592-598 | the first unused entry, or the end |
| DirEntries.DirLink | kernel/fs.c:580-606 | adds the name to the map, or fails without change exactly if the name is there or the directory cannot grow |
| DirEntries.IsDirEmpty | kernel/sysfile.c:174-186 | true exactly if nothing past "." and ".." is in use |
| DirDisk.EntryRoundTrip | kernel/fs.h:56-59 | the 16 bytes of an entry decode to what was encoded, and the other way round |
| DirDisk.SpliceEntry | kernel/fs.c:600-603 | splicing the bytes of an entry into the file stores exactly that entry |
| DirDisk.ReadEntry | kernel/fs.c:561-562 | readi of an entry gives the entry the bytes stand for, short exactly if the file ends inside it |
| DirDisk.LookupAt | kernel/fs.c:552-575 | over readi: the first entry in use with the name; the panics exactly on an inode that is no directory and on an entry cut short by the end of the file |
| DirDisk.WriteEntry | kernel/fs.c:600-604 | over writei: the entry is stored whole or not at all, always inside the file, and past its end if and only if the file can grow; no other directory changes |
| DirDisk.LinkAt | kernel/fs.c:580-606 | over readi and writei: refines DirLink, failing exactly if the name is there or no entry is unused and the file cannot grow, disk-full cases included; the map names the inode if and only if its number fits 16 bits |
| DirDisk.EraseAt | kernel/sysfile.c:220-222 | over writei: the map loses exactly the name, and the writei panic is out of reach |
| DirDisk.EmptyAt | kernel/sysfile.c:174-186 | over readi: true exactly if nothing past "." and ".." is in use; the panic exactly for a directory that ends inside an entry and has none in use before |
| DirTree.AddLinkIff | kernel/sysfile.c:124-170 | a link keeps every count right if and only if the directory still has a link and the count room |
| DirTree.MakeDirIff | kernel/sysfile.c:246-302 | a new directory keeps every count right if and only if its parent still has a link and the parent's count room |
| DirTree.MakeDirUnlinked | kernel/sysfile.c:246-302 | in a directory without a link a new directory brings the count of its ".." out of step |
| DirTree.EmptyDirOnce | kernel/sysfile.c:189-243 | an empty directory has exactly one link |
| DirTree.NamedHasLink | kernel/sysfile.c:210-212 | what an entry names has a link: the nlink < 1 panic is out of reach |
| DirTree.RemoveKeeps | kernel/sysfile.c:189-243 | removing an entry for a file or an empty directory keeps the tree and every count right |
| DirTree.RetypeKeeps | kernel/fs.c:337-362 | freeing an inode without links keeps them too |
| DirCode.Namespace.EnterName | kernel/fs.c:580-606 | dirlink in a directory of the tree adds exactly the name |
| DirCode.Namespace.Link | kernel/sysfile.c:124-170 | success exactly if allowed; the map gains the name; counts right exactly if the directory still has a link and the count room; failure changes nothing |
| DirCode.Namespace.Unlink | kernel/sysfile.c:189-243 | success exactly for a name other than "." and ".." of a file or an empty directory; the map loses the name; counts stay right either way |
| DirCode.Namespace.MakeDots | kernel/sysfile.c:272-276 | a new directory holds "." and "..", or its creation fails |
| DirCode.Namespace.MakeInode | kernel/sysfile.c:262-302 | from ialloc on: the new inode is entered with one link, or freed again with nothing changed |
| DirCode.Namespace.Create | kernel/sysfile.c:246-302 | an existing inode exactly for T_FILE and the name of a file or device, else the new inode exactly if there is one and all entries fit; counts right exactly if the parent still has a link and, for a directory, its count room; failure changes nothing |
| DirCode.Namespace.Iput | kernel/fs.c:337-362 | the last reference frees an inode without links |
| DirCode.Namespace.constructor | mkfs/mkfs.c:116-126 | the tree mkfs writes, the root alone, has every count right |
| DirPath.SkipElem | kernel/fs.c:623-645 | takes the first element off the path, cut to 14 bytes, and leaves an empty rest exactly after the last |
| DirPath.Namex | kernel/fs.c:652-684 | walks the path through the directory maps, to its end or to the parent of its last element |
| DirPath.LinkedWalk | kernel/fs.c:652-684 | a walk from a directory with a link meets only inodes with links, never ilock's panic |
| DirPath.PanicFreeIff | kernel/fs.c:652-684 | no path from a directory meets the panic if and only if climbing ".." from it through directories that have lost their link meets no free inode |
| DirPath.StaleDotDot | kernel/fs.c:652-684 | mkdir a, mkdir a/b, unlink a/b, unlink a and the last iput of a lead, with every count right, to a state in which the path ../.. from b meets ilock's panic |

## Left out

- Threads (create_thread, join_thread, exit_thread, the per-thread branch of the scheduler): threads of one process share one kernel context; `Sched` is about processes without threads.
- Sched.StepKeeps: which process of the heap is taken first is a free choice; the order inside the heap is `PriorityQueue`'s.
- Two file system operations interleaved: `FsCode`, `FileWrite`, `DirTree` and `DirCode` take each operation as a whole, as inode locks and the log make it; only the log itself is interleaved.
- Reference counts of in-memory inodes and iget, idup, ilock: when an iput is the last one is given from outside (`DirCode.Namespace.Iput`, `FsCode.FileSystem.IputLast`).
- filewrite on pipes and devices, and more than one disk.
- The junk that kalloc and kfree fill frames with.
- FsCode.FileSystem.Ialloc: takes an inode that is free on disk to be free in memory, as it always is.
- The device numbers in struct dinode.
- FsCrash.FilesSurvive: that the operations of a transaction leave a consistent file system and log what they change is asked of each transaction as a whole; `FsCrash.WriteLogged` proves it for file writes that do not spill, one after the other.
- VmCode.Memory.Mappages: the frames mapped for a user belong to the caller, and the permission has a read, write or execute bit, as at every call in the kernel.
- VmCode.Memory.Uvmunmap: the trampoline and trapframe pages, and so the range of uvmdealloc, uvmfree and uvmcopy, are not unmapped with do_free set or copied.
- DirCode.Namespace.EnterName: the tree of `DirTree` holds directories as entries; `DirDisk` joins one directory to its bytes, not the whole tree.
- The kernel page table, copyinstr, uvmfirst, uvmclear and exec.
- Fairness: that a sleeper which is woken does run again, that begin_op's wait ends. What is proved is that it is always possible (`SchedCan.WhoCanRun`, `SleepEnds.AcquireCanEnd`, `WaitCan.WaitCanReap`, `LogTrace.GoesOn`).
- SleepLock.NoLostWakeup: one sleep lock at a time; a process asleep on another channel counts as outside.
- Umalloc.Heap.Malloc: block sizes are unbounded, while the C field has 32 bits; and after a truncated sbrk the model goes on where the process would fault on the first store.
- Umalloc.Heap.Free: the caller must not have overwritten the header of the block.
- ShellCode.Parser.ParseSimple: the tree is a value built when the command ends; in C the exec node is filled in place under its redirections.
- runcmd, and the shell's reading of a line.
- Pipe.Pipe.ReadRun: wakeups of pipe readers and writers are not modelled; pipewrite can return -1 after storing bytes without waking a reader.
- pipeclose and the freeing of a pipe.
- Spinlocks, interrupts, memory fences, devices, the disk driver, the console, system call argument fetching, the trap and child process reports: taken as atomic, given or not part of the model.

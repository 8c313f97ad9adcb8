# A verified model of the xv6 cores

This project models the parts of the xv6 RISC-V kernel and of its user programs whose guarantees span several
functions, and proves those guarantees. Code that changes state is a class with methods and loops; each method is
proved against a specification on values, and the promises of the source are lemmas about that specification,
preserved invariants, or statements about every run. `dafny verify dfyconfig.toml` checks everything.

| files | model |
|---|---|
| `Disk`, `Crash` | atomic block writes in order; the redo log under crashes at any write, and under crashes of recovery |
| `Bio`, `Log` | the buffer cache with its LRU ring, the log on top of it, and recovery |
| `LogGroup` | many processes sharing transactions, reading between the steps of a group commit, crashes in commits and in recoveries, on the real cache and log |
| `LogCrowd`, `LogQuota` | scripts from a boot that leave a commit without buffers; quotas and room in the log over every run of that machine |
| `LogSpace` | begin_op, log_write and end_op over every interleaving |
| `Kalloc` | the reference-counting page allocator over every interleaving, and its linked free list |
| `PageTable`, `PageSlots`, `Riscv` | the three-level Sv39 table (section 4.4 of the RISC-V Privileged Architecture 1.12), and the map of slots it stands for |
| `Cow`, `CowRun`, `CowSeen` | copy-on-write memory on those tables, its refinement of a machine whose fork copies everything, and what that machine shows byte by byte |
| `FsOwn`, `Fs`, `FsCrash` | bitmap, direct and indirect blocks, truncation, files as byte sequences, chunked writes, and crashes between and inside the chunks |
| `FsGroup` | writes of many processes to many files in shared transactions, under crashes |
| `Itable`, `ItableRun` | the inode table, with iput and ialloc cut where they let go of their locks, over every interleaving |
| `Umalloc` | the allocator of section 8.7 of The C Programming Language, 2nd edition |
| `Virtio`, `VirtioRun`, `VirtioBlocks` | the split-ring driver and a device that completes in any order (sections 2.6 and 5.2 of VIRTIO 1.1), and where blocks lie on the medium |
| `Pipe`, `PipeRun` | the pipe ring, and every run of reads, writes, closes and kills |
| `Sleeplock`, `Sched` | sleep, wakeup and sleeplocks; the scheduler's choice and the time accounting |
| `Shell`, `ShellSyntax` | the shell's parser and nulterminate, and the lines as they are typed |
| `Grep` | the regular-expression matcher and grep's line buffer |
| `Wrappers` | the option type |

The chain from disk to file is: `Virtio` shows that a block write is carried out exactly once; `Log` and `LogGroup`
issue exactly the writes whose crashes `Crash` studies, with processes, crashes and reboots; `Fs` bounds the blocks
that one chunk of a write logs and shows that what changed is logged; `FsCrash` concludes that a crash leaves a whole
number of chunks, and `FsGroup` that it leaves a whole number of the operations that share transactions; `LogSpace` says
exactly when the bound leaves room.

`VirtioRun`, `PipeRun`, `ItableRun` and `LogGroup` have the same shape: a machine on values, with a step for every
event and what the event answers; lemmas about every run of it; and a method that performs any sequence of events on
the real classes and is proved to answer as the machine.

Where an expected property does not hold of the code, the code is kept and the exact condition is proved:

- a step of a commit panics exactly when it reads a log block while NBUF other blocks are pinned, held or awaited
  (`LogGroup.TurnPanicsExactlyWhen`): undisturbed, when NBUF blocks are logged (`LogGroup.CrowdedAlone`,
  `LogGroup.AloneCompletes`); with a reader outside any operation, already with one fewer
  (`LogGroup.ReaderStopsCommit`); operations within their quotas get there from a boot
  (`LogCrowd.ReadersStopCommit`);
- log_write tests for room before it looks for the block: it panics exactly when log.size - 1 or LOGSIZE blocks are
  logged. mkfs's log makes operations within their quota reach this (`LogSpace.MkfsLogIsTooSmall`); with any log size,
  one that logs a block again can (`LogSpace.AbsorbedWritePanics`, `LogSpace.EveryRunHasRoom`);
- a write whose source goes bad inside a block changes bytes beyond those it reports, exactly up to the end of the good
  source (`Fs.FileSystem.Writei`);
- a uvmcopy fails, and leaves exactly one reference too many, exactly when the child lacks more tables than there are
  free pages (`Cow.Machine.UvmCopy`, `Cow.Machine.Fork`);
- copyout never stores into user page 0, although userinit maps it: cowHandler takes it for a null pointer. With enough
  memory a copy into mapped memory fails exactly if it starts there (`Cow.CopyOutMissesPageZero`);
- malloc's byte count reaches sbrk intact exactly up to 2^31 - 32 bytes; a program's heap is sound exactly until the
  first granted request above that (`Umalloc.Session`, `Umalloc.BreakInsideBlock`);
- a write to a pipe that fails after putting bytes is exactly what leaves a reader asleep (`PipeRun.StrandedExactly`);
- an inode is left behind, allocated without links or references, exactly by a step that drops the last reference
  without freeing it while it is unlinked on disk (`ItableRun.StrandedExactly`); an iput does so only for an entry that
  is not loaded or not written back (`ItableRun.PutStrandsUnseen`), and the last decrement of an iput does
  (`Itable.DelayedDropLeavesInode`);
- ialloc may report that there are no inodes although one is free at every moment (`Itable.FreeInodeMissed`); an inode
  is free at the report exactly if it was freed after the turn that passed it and not taken since
  (`ItableRun.NoInodesExactly`);
- RBI's unsigned formula keeps its meaning exactly under a condition on the three times (`Sched.RbiAgrees`);
- waitx underflows, by one, exactly for a process created during a tick that had still to come to it, that did not exit
  during one, and that every tick found running (`Sched.WaitTimeOk`);
- grep stops at the first line that is unfinished, holds a NUL or has 1023 bytes; it prints every matching line exactly
  if no line matches from there on (`Grep.PrintsAllExactlyWhen`).

## Model

| member | source | states |
|---|---|---|
| `Crash.HeadRoundTrip` | initial-xv6/src/kernel/log.c:87-114 | what read_head reads is what write_head wrote, for every list of at most LOGSIZE blocks and any stale words in the header block |
| `Crash.CommitWrites` | initial-xv6/src/kernel/log.c:103-114 | the writes of a commit one by one: each logged block to the log area behind the header block, then the header with count and block numbers, then each block to its place, then the header with count 0 |
| `Crash.CommitDone` | initial-xv6/src/kernel/log.c:194-203 | after all writes of a commit the home blocks are those of the whole transaction and the header on disk is empty |
| `Crash.CommitPrefix` | initial-xv6/src/kernel/log.c:179-203 | after any number of the writes of a commit, recovery can rebuild the old home blocks (header not yet written) or the new ones (header written) |
| `Crash.RecoverPrefix` | initial-xv6/src/kernel/log.c:69-123 | a recovery cut short after any write leaves a disk from which the same contents can still be rebuilt |
| `Crash.RecoverDone` | initial-xv6/src/kernel/log.c:117-123 | a recovery that runs to the end rebuilds every home block and leaves an empty log |
| `Crash.BootsRebuild` | initial-xv6/src/kernel/log.c:117-123 | any number of crashed recoveries followed by one that finishes rebuilds the same contents |
| `Crash.CrashAtomicity` | initial-xv6/src/kernel/log.c:68-203 | a crash after any write of commit and any number of crashed recoveries leave all home blocks old (before the header write) or all new (after it), never a mix |
| `Crash.StepIsAtomic` | initial-xv6/src/kernel/log.c:194-203 | a commit, undisturbed or cut short and recovered, has the effect of an indivisible transaction or of none |
| `Crash.EveryRunIsAtomic` | initial-xv6/src/kernel/log.c:68-203 | over any sequence of transactions, crashes and crashed recoveries the home blocks are those of a disk that applies each transaction at once or not at all |
| `Bio.UnlinkKeepsRing` | initial-xv6/src/kernel/bio.c:128-129 | taking a buffer out leaves a doubly linked ring of the others in the same order |
| `Bio.PushKeepsRing` | initial-xv6/src/kernel/bio.c:130-133 | a buffer linked in behind the head becomes the first of the ring, in both directions |
| `Bio.Bcache.constructor` | initial-xv6/src/kernel/bio.c:37-53 | binit links all buffers into one ring; none holds a block |
| `Bio.Bcache.Bget` | initial-xv6/src/kernel/bio.c:59-89 | the one buffer that caches the block, or else the least recently used unused one; a cached buffer that is locked is referenced at once and its caller waits; the "no buffers" panic exactly when the block is not cached and every buffer is in use |
| `Bio.Bcache.Bread` | initial-xv6/src/kernel/bio.c:93-103 | the locked buffer holds the cached contents if valid, and the block on disk otherwise; no other buffer changes; the caller waits exactly when the block is cached in a locked buffer |
| `Bio.Bcache.Acquire` | initial-xv6/src/kernel/bio.c:70-103 | a caller that waited gets the lock and the contents, and only the lock and validity change |
| `Bio.Bcache.Bwrite` | initial-xv6/src/kernel/bio.c:107-112 | one block write, of the buffer, is added to the disk and to its history |
| `Bio.Bcache.Brelse` | initial-xv6/src/kernel/bio.c:117-137 | one reference fewer and unlocked; a buffer with no reference left becomes the most recently used and the ring stays a permutation of all buffers |
| `Bio.Bcache.MoveToFront` | initial-xv6/src/kernel/bio.c:126-134 | the links again spell a ring of all buffers, with this one first and the others in their old order |
| `Bio.Bcache.Bpin` | initial-xv6/src/kernel/bio.c:140-144 | one reference more, keeping the table and ring invariants |
| `Bio.Bcache.Bunpin` | initial-xv6/src/kernel/bio.c:147-151 | one reference fewer, keeping the table and ring invariants |
| `Log.FsLog.HeadBlock` | initial-xv6/src/kernel/log.c:103-114 | the header block spells the list of logged blocks and keeps its other words |
| `Log.FsLog.WriteHead` | initial-xv6/src/kernel/log.c:103-114 | in recovery: one block write, of the header |
| `Log.FsLog.NamedBlocks` | initial-xv6/src/kernel/log.c:87-97 | the blocks a header names, none for a count of zero or less |
| `Log.FsLog.ReadHead` | initial-xv6/src/kernel/log.c:87-97 | the list in memory becomes the one on disk; nothing is written |
| `Log.FsLog.InstallOne` | initial-xv6/src/kernel/log.c:69-83 | in recovery: one home block gets its logged contents, by one write |
| `Log.FsLog.InstallTrans` | initial-xv6/src/kernel/log.c:69-83 | in recovery: every home block that the header names gets its logged contents, by exactly those writes in order; afterwards cache and disk agree |
| `Log.FsLog.LogTurn` | initial-xv6/src/kernel/log.c:182-189 | the rest of a turn of write_log once it has its two buffers: one block write puts the latest contents of the logged block into its log slot, and cache, disk and store stay coherent whatever other processes hold |
| `Log.FsLog.HeadTurn` | initial-xv6/src/kernel/log.c:105-113 | the rest of write_head once it has its buffer: one block write, of the header, whatever other processes hold |
| `Log.FsLog.InstallTurn` | initial-xv6/src/kernel/log.c:73-82 | the rest of a turn of install_trans in a commit once it has its two buffers: the home block on disk catches up by one write and its pin goes, whatever other processes hold or await |
| `Log.LogTurnKeepsCoherent` | initial-xv6/src/kernel/log.c:182-189 | copying a logged block to the log keeps coherence |
| `Log.InstallTurnKeepsCoherent` | initial-xv6/src/kernel/log.c:73-82 | installing a block keeps coherence with one pinned block fewer |
| `Log.FsLog.RecoverFromLog` | initial-xv6/src/kernel/log.c:117-123 | the writes issued are exactly those of the crash model and the home blocks are the recovered ones |
| `Log.FsLog.Read` | initial-xv6/src/kernel/bio.c:93-103 | bread returns the last logged contents of a home block although its home write is deferred, whatever has been recycled since, or waits exactly for a locked buffer |
| `Log.FsLog.Acquire` | initial-xv6/src/kernel/bio.c:70-103 | a reader that waited gets the last logged contents too |
| `Log.FsLog.LogWrite` | initial-xv6/src/kernel/log.c:215-235 | the buffer becomes the latest contents of its block; the block is logged and pinned once (absorption); the two panics exactly for a full log or no transaction |
| `Log.FsLog.Release` | initial-xv6/src/kernel/bio.c:117-137 | releasing a buffer that holds the latest contents keeps cache, log and disk coherent |
| `Log.ReadKeepsCoherent` | initial-xv6/src/kernel/bio.c:58-103 | a read keeps coherence and yields the latest contents: a logged block is never recycled and any other unlocked buffer equals the disk |
| `Log.LoggedKeepsCoherent` | initial-xv6/src/kernel/log.c:215-235 | logging a changed buffer keeps coherence with the store updated at that block |
| `Log.ReleaseKeepsCoherent` | initial-xv6/src/kernel/bio.c:117-137 | releasing a buffer keeps coherence |
| `Crash.InterruptedKeeps` | initial-xv6/src/kernel/log.c:117-123 | any number of interrupted recoveries keeps the disk recoverable to the same contents |
| `LogGroup.CrowdedIff` | initial-xv6/src/kernel/bio.c:59-89 | with several processes holding and awaiting buffers, bget finds neither the block nor an unused buffer exactly when NBUF other blocks are pinned, held or awaited |
| `LogGroup.Reshare` | initial-xv6/src/kernel/bio.c:59-137 | a change of one buffer keeps: a buffer is locked exactly when a process has it, and its references are those of the log, of that process and of those waiting |
| `LogGroup.BreadStep` | initial-xv6/src/kernel/bio.c:93-103 | bread by any process: the contents last logged by anyone, or waiting for the holder, or the panic, as the machine of locks and a store has it |
| `LogGroup.WakeStep` | initial-xv6/src/kernel/bio.c:70-103 | a waiting process gets the contents last logged by anyone |
| `LogGroup.LogStep` | initial-xv6/src/kernel/log.c:215-235 | log_write while others hold other buffers changes the store at that block, with both panics |
| `LogGroup.ReleaseStep` | initial-xv6/src/kernel/bio.c:117-137 | brelse gives the block up to whoever waits |
| `LogGroup.CrashUndoesWholeOperations` | initial-xv6/src/kernel/log.c:127-203 | in every run, what a crash restores is the store at some moment since the last commit when no operation was under way: operations are undone as a whole, and none that was committed |
| `LogGroup.HeaderIsDurable` | initial-xv6/src/kernel/log.c:194-203 | after the header write of a commit, or a reboot, everything is saved and no operation is under way |
| `LogGroup.TurnPanicsExactlyWhen` | initial-xv6/src/kernel/log.c:179-203 | a step of a commit panics exactly when it reads a log block for which NBUF other blocks are busy at that moment |
| `LogGroup.CrowdedAlone` | initial-xv6/src/kernel/log.c:182 | with no other process using a buffer that is exactly when NBUF blocks are pinned |
| `LogGroup.ReaderStopsCommit` | initial-xv6/src/kernel/file.c:120-124 | a reader outside any operation that has one more block makes it panic with one pinned block fewer |
| `LogCrowd.LogEachLeads` | initial-xv6/src/kernel/log.c:215-235 | from a boot, three operations that log up to thirty blocks, ten each, run without a panic |
| `LogCrowd.ReadEachLeads` | initial-xv6/src/kernel/bio.c:93-103 | the reads between their end and the commit go through too, as long as buffers are left |
| `LogCrowd.ReadersStopCommit` | initial-xv6/src/kernel/log.c:179-203 | then the first turn of the commit panics exactly if the logged blocks and those that a reader holds are NBUF together: with 29 logged blocks one held block is enough |
| `LogQuota.RefusedExactly` | initial-xv6/src/kernel/log.c:127-145 | each event is refused exactly for its reasons; begin_op exactly if the process sleeps or is inside an operation, a commit is under way, or the logged blocks and a quota of ten for each operation and this one exceed thirty |
| `LogQuota.EveryRunHasRoom` | initial-xv6/src/kernel/log.c:127-145 | in every run of the machine of LogGroup in which operations log at most ten new blocks each: outside a commit, the logged blocks and the unused quotas are at most LOGSIZE |
| `LogQuota.LogWritePanicsExactly` | initial-xv6/src/kernel/log.c:215-235 | in such a run log_write panics exactly if log.size - 1 blocks are logged, or if LOGSIZE are and the block is one of them; so with a larger log a new block always finds room |
| `LogQuota.AtMostThree` | initial-xv6/src/kernel/log.c:133-135 | in every run at most three operations are under way |
| `LogGroup.AloneCompletes` | initial-xv6/src/kernel/log.c:194-203 | undisturbed, a commit of fewer than NBUF blocks runs to its end and the store is saved |
| `LogGroup.StoreKept` | initial-xv6/src/kernel/log.c:179-203 | in every run the contents that reads return for a block change with log_write of it or with a crash only, so no step of a commit changes them |
| `LogGroup.StepClean` | initial-xv6/src/kernel/log.c:127-235 | every event keeps: a buffer that is not dirty has the store's contents, the committing process has or awaits the buffers of its turn, and after the header write nothing is unsaved |
| `LogGroup.Fetch` | initial-xv6/src/kernel/bio.c:59-103 | bread of a home block by a process or by the committing one, between any steps of a commit: the store's contents, or waiting for the holder, or the panic |
| `LogGroup.AreaStep` | initial-xv6/src/kernel/log.c:182 | a commit reads a log block, or panics exactly when it is crowded out |
| `LogGroup.LogOver` | initial-xv6/src/kernel/log.c:182-189 | a turn of write_log is over: the disk is one write further in the crash model's commit |
| `LogGroup.HeadOver` | initial-xv6/src/kernel/log.c:103-114 | the header is written: from here on recovery rebuilds the store |
| `LogGroup.InstallOver` | initial-xv6/src/kernel/log.c:73-82 | a turn of install_trans is over: the disk is one write further and one buffer is unpinned |
| `LogGroup.ClearOver` | initial-xv6/src/kernel/log.c:194-203 | the log is cleared; the writes of the whole commit, between which other processes have read, are exactly those of the crash model in order |
| `LogGroup.TurnStep` | initial-xv6/src/kernel/log.c:147-203 | any step of a commit is that step of the machine |
| `LogGroup.Boot` | initial-xv6/src/kernel/log.c:55-123 | from any disk that a crash left, and after recoveries cut short anywhere, the real recovery comes up with the saved store |
| `LogGroup.Perform` | initial-xv6/src/kernel/log.c:127-235 | one event of the real cache and log is one event of the machine |
| `LogGroup.Run` | initial-xv6/src/kernel/log.c:55-235 | every run of any number of processes that share transactions, hold and await buffers, read between the steps of a commit, commit as a group, crash at any point of a commit and crash in the middle of recoveries, answers exactly as a store behind locks that is saved by header writes |
| `LogSpace.StepKeepsInv` | initial-xv6/src/kernel/log.c:127-175 | every critical section of begin_op, log_write and end_op keeps: blocks logged plus unused quotas at most LOGSIZE, and no operation outstanding during a commit |
| `LogSpace.EveryRunHasRoom` | initial-xv6/src/kernel/log.c:127-235 | over every interleaving end_op never panics, and log_write, of a new block or of one already logged, panics exactly when log.size - 1 or LOGSIZE blocks are logged; at LOGSIZE the block is logged already and every quota is used up; an operation with quota left never panics when log.size exceeds LOGSIZE |
| `LogSpace.AbsorbedWritePanics` | initial-xv6/src/kernel/log.c:215-221 | for every log size there is a run in which log_write panics on a block that is already in the log |
| `LogSpace.MkfsLogIsTooSmall` | initial-xv6/src/kernel/log.c:215-221 | with log.size equal to LOGSIZE, as mkfs makes it, three operations within their quotas reach the panic |
| `Kalloc.AllocKeepsInv` | initial-xv6/src/kernel/kalloc.c:71-97 | the page kalloc hands out had no reference, and its panic cannot happen |
| `Kalloc.StepKeepsInv` | initial-xv6/src/kernel/kalloc.c:71-176 | every critical section of kalloc, increase_cnt, kfree and add2FL keeps the counts and the free list consistent and cannot panic |
| `Kalloc.LeakedOnlyByLeak` | initial-xv6/src/kernel/vm.c:338-354 | references are lost only by a mapping that fails after its count was raised |
| `Kalloc.EveryRunConserves` | initial-xv6/src/kernel/kalloc.c:71-176 | over every interleaving: counts at least the live references (equal without failed mappings), a duplicate-free list of zero-count pages, every other zero-count page in exactly one kfree between decrement and add2FL, and no panic |
| `Kalloc.BootInv` | initial-xv6/src/kernel/kalloc.c:28-44 | the invariant holds at boot, with every page still to be freed by freerange |
| `Kalloc.FreeCount` | initial-xv6/src/kernel/kalloc.c:71-176 | between calls, with no kfree under way, the free list is as long as there are pages without references |
| `Kalloc.Kmem.constructor` | initial-xv6/src/kernel/kalloc.c:28-32 | kinit leaves every page after the kernel free and unreferenced |
| `Kalloc.Kmem.Freerange` | initial-xv6/src/kernel/kalloc.c:35-44 | freerange frees every page in its range exactly once |
| `Kalloc.Kmem.Pop` | initial-xv6/src/kernel/kalloc.c:71-97 | the critical section of kalloc: the head of the list, which nobody references, gets count one |
| `Kalloc.Kmem.Kalloc` | initial-xv6/src/kernel/kalloc.c:71-97 | an unreferenced page filled with junk, or none exactly when the list is empty; no other page changes |
| `Kalloc.Kmem.IncreaseCnt` | initial-xv6/src/kernel/kalloc.c:99-122 | one reference more to a page in use, without panic |
| `Kalloc.Kmem.Decrement` | initial-xv6/src/kernel/kalloc.c:133-160 | one reference fewer; a page whose count reaches zero is pending, not yet free |
| `Kalloc.Kmem.Add2FL` | initial-xv6/src/kernel/kalloc.c:125-131 | a pending page goes to the front of the free list |
| `Kalloc.Kmem.Kfree` | initial-xv6/src/kernel/kalloc.c:133-176 | one reference fewer; the page is scrubbed and listed exactly when no count is left, and no other page changes |
| `PageSlots.CreateRepresents` | initial-xv6/src/kernel/vm.c:198-206 | a zeroed root page is the tree of an empty table |
| `PageSlots.AddLevel1` | initial-xv6/src/kernel/vm.c:97-103 | a table page that walk adds below the root is one slot more, and nothing else in the map |
| `PageSlots.AddLevel0` | initial-xv6/src/kernel/vm.c:97-103 | a table page that walk adds below a level-1 page is one slot more, and nothing else in the map |
| `PageSlots.SetUser` | initial-xv6/src/kernel/vm.c:155-159 | writing the level-0 entry that walk finds is setting the slot of that page |
| `PageSlots.ClearUser` | initial-xv6/src/kernel/vm.c:179-193 | clearing it is removing the slot of that page |
| `PageSlots.FreeWalkReady` | initial-xv6/src/kernel/vm.c:274-293 | without user pages freewalk meets no leaf, and the pages below the root are those of the table slots |
| `PageSlots.LackingStep` | initial-xv6/src/kernel/vm.c:90-104 | the tables missing for one more page are those missing on its own way through the tree |
| `PageSlots.TablesCounted` | initial-xv6/src/kernel/vm.c:90-104 | n pages need one level-0 table for each 512 and one level-1 table for each 512 * 512 |
| `Cow.GrownTree` | initial-xv6/src/kernel/vm.c:97-103 | the table page that walk links into the tree of a process is the new slot of its map |
| `Cow.WrittenTree` | initial-xv6/src/kernel/vm.c:155-159 | the entry that mappages writes through the tree is the new slot of the map |
| `Cow.ReplacedTree` | initial-xv6/src/kernel/trap.c:283-284 | the entry that cowHandler or uvmcopy overwrites in the tree is the slot of the map |
| `Cow.ClearedTree` | initial-xv6/src/kernel/vm.c:192 | the entry that uvmunmap clears in the tree is the slot removed from the map |
| `Cow.TreeTranslates` | initial-xv6/src/kernel/vm.c:85-106 | for every process and page number, the hardware finds through the tree exactly the page and the permissions that the map has, or no valid entry |
| `Cow.MapKeepsInv` | initial-xv6/src/kernel/vm.c:143-166 | a new mapping of a held page keeps: counts equal users plus held, and a writable entry is the only user of its page |
| `Cow.UnmapKeepsInv` | initial-xv6/src/kernel/vm.c:171-194 | removing a mapping keeps the invariant, the page being held until it is freed |
| `Cow.ProtectKeepsInv` | initial-xv6/src/kernel/vm.c:331-332 | clearing PTE_W keeps the invariant |
| `Cow.CopyKeepsInv` | initial-xv6/src/kernel/trap.c:274-287 | replacing an entry by a private writable copy keeps the invariant |
| `Cow.TableIsBounded` | initial-xv6/src/kernel/vm.c:225-302 | a process maps no more pages than there are in physical memory, so sizes stay below 2^64 and below MAXVA |
| `Cow.Machine.MapPage` | initial-xv6/src/kernel/vm.c:143-166 | a user page is mapped together with the table pages it lacks, exactly when that many pages are free; otherwise nothing but table pages changes, and exactly as many are added as there is memory for |
| `Cow.Machine.WalkLevel` | initial-xv6/src/kernel/vm.c:90-104 | a missing table page is allocated, zeroed and linked, in the map and in the tree, exactly when a page is free; no process sees a change |
| `Cow.Machine.WalkAlloc` | initial-xv6/src/kernel/vm.c:85-106 | walk with alloc adds exactly the table pages that the path lacks, or as many as are free; it succeeds exactly if they are enough, and no process sees a change |
| `Cow.Machine.UvmCreate` | initial-xv6/src/kernel/vm.c:198-206 | a new process with a root page and no user page, or none exactly when no page is free |
| `Cow.Machine.Replace` | initial-xv6/src/kernel/trap.c:276-287 | the copy takes the place of the page and the original loses one reference; no process sees a change |
| `Cow.Machine.CowHandler` | initial-xv6/src/kernel/trap.c:266-289 | no process sees a change in memory; success exactly for a nonzero address below MAXVA in a user page while a page is free, and the entry is then private and writable, and executable whatever it was; it uses up a free page exactly when the old page has other references |
| `Cow.Machine.UserStore` | initial-xv6/src/kernel/trap.c:64-71 | a store by user code changes that byte of that process only, through a write fault when the page is shared; otherwise nothing changes; of the tables only the entry of a page that was not writable changes, and becomes private |
| `Cow.Machine.CopyOutPage` | initial-xv6/src/kernel/vm.c:378-399 | one turn of copyout changes exactly the given bytes of that process, exactly when it accepts the page and a page is free |
| `Cow.Machine.CopyOut` | initial-xv6/src/kernel/vm.c:374-401 | the bytes stored are a prefix of the source, in that process only; all of them exactly when every page is accepted and more pages are free than pages before the last one are shared; exactly the entries of the pages stored to become private |
| `Cow.CopyOutMissesPageZero` | initial-xv6/src/kernel/vm.c:378-390 | with enough free pages, a copy into mapped user memory fails exactly if it is not empty and starts in page 0 |
| `Cow.CopyingOn` | initial-xv6/src/kernel/vm.c:378-399 | after a turn of copyout the pages still to come are as they were, and the free pages are fewer by the shared pages done |
| `Cow.Machine.CopyIn` | initial-xv6/src/kernel/vm.c:406-426 | succeeds exactly when every byte is in a readable user page; the bytes copied, also before a failure, are those the process sees up to the first page that is not readable |
| `Cow.Machine.UvmUnmap` | initial-xv6/src/kernel/vm.c:171-194 | exactly the given pages disappear from that process, each freed once, without panic |
| `Cow.Machine.UvmDealloc` | initial-xv6/src/kernel/vm.c:258-270 | exactly the pages above the new size disappear, and the user pages are again those below the rounded size |
| `Cow.Machine.AllocPage` | initial-xv6/src/kernel/vm.c:234-250 | one zeroed page is added at the end of the process, exactly when there are free pages for it and for the tables it lacks, or nothing is |
| `Cow.Machine.UvmAlloc` | initial-xv6/src/kernel/vm.c:225-252 | zeroed pages are added up to the new size, exactly when there are free pages for them and for the tables the process lacks; none remain after a failure, but the tables that were reached do |
| `Cow.Machine.ShareOne` | initial-xv6/src/kernel/vm.c:320-345 | the child sees the parent's page through the same physical page, read-only in both; the mapping fails exactly when the tables it lacks are more than the free pages, and then leaves exactly one reference too many |
| `Cow.Machine.ShareNext` | initial-xv6/src/kernel/vm.c:320-345 | the pages shared so far, the parent's entries made read-only, the child's tables and the free pages used are those of one page more |
| `Cow.Machine.UvmCopy` | initial-xv6/src/kernel/vm.c:310-358 | the child sees what the parent sees, exactly when there are free pages for all the tables the child lacks; otherwise nothing, with exactly one reference too many on the page that could not be mapped, which is the first one whose tables are too many |
| `Cow.Machine.FreeTables` | initial-xv6/src/kernel/vm.c:274-293 | every table page of an empty process is freed |
| `Cow.Machine.Fork` | initial-xv6/src/kernel/proc.c:298-317 | a child with the parent's size and memory, exactly when there are free pages for the root and for the tables of that many pages; its entries are the parent's, read-only in both, and its tables just those needed; otherwise no child, and the parent's pages are read-only up to the one that could not be mapped, on which a reference is leaked exactly when uvmcopy fails |
| `Cow.Machine.UserInit` | initial-xv6/src/kernel/proc.c:249-271 | with four free pages and code shorter than a page, the first process: one page with the given code and zeros, its three tables, and no other process changes |
| `Cow.Machine.Discard` | initial-xv6/src/kernel/proc.c:228-234 | a process without user pages disappears; freewalk on its tree meets no leaf and the pages it frees are exactly its table pages |
| `Cow.Machine.Exit` | initial-xv6/src/kernel/vm.c:297-302 | the process and all its pages are gone; no other process sees a change |
| `Cow.Machine.GrowUp` | initial-xv6/src/kernel/proc.c:281-287 | growing by n leaves the size sz + n, with zeroed pages and their tables, exactly when there are free pages for both; a failed grow leaves the size and only the tables that were reached |
| `Cow.Machine.GrowDown` | initial-xv6/src/kernel/proc.c:288-291 | shrinking leaves the size sz + n, or sz if that is negative, and removes exactly the pages above it |
| `Cow.GrownSizeIs` | initial-xv6/src/kernel/vm.c:225-270 | the size is the sum in 64 bits, and stays as it is if the sum is not a size |
| `Cow.Machine.Grow` | initial-xv6/src/kernel/proc.c:275-294 | a successful growproc(n) leaves the size sz + n, or sz if that is no size; the entries and the tables are those of that size; growing succeeds exactly if it finds enough free pages; no process sees anything else |
| `CowRun.Perform` | initial-xv6/src/kernel/vm.c:310-401 | one operation of the real machine is one operation of the machine whose fork copies everything, succeeds exactly when the pages free before it suffice, and changes tables and leaked references as that operation does |
| `CowRun.StockIsOk` | initial-xv6/src/kernel/kalloc.c:71-176 | in every state of the real machine a page is counted once for each entry and each leaked reference, and the free pages are those not counted |
| `CowRun.Run` | initial-xv6/src/kernel/vm.c:225-401 | every run of forks, stores, copyouts, sbrks and exits shows, state by state, a run of the eager machine in which each operation succeeds exactly when the real machine has enough for it; what the machine has before each operation follows from what it had before the one before, and every page is counted and free as its tables and leaked references say |
| `CowRun.Boot` | initial-xv6/src/kernel/proc.c:249-271 | from fresh memory and userinit, every run shows such a run of the eager machine that starts with the code in one process, four pages in use and none leaked; userinit fails exactly with fewer than four pages or with code that fills one |
| `CowSeen.StoreMeans` | initial-xv6/src/kernel/trap.c:64-71 | byte by byte: a store that succeeds changes the byte at its address in its process, and no other byte of any process |
| `CowSeen.CopyMeans` | initial-xv6/src/kernel/vm.c:374-401 | byte by byte: copyout changes the bytes it counts to those of the source, in that process only; it counts all, or up to the end of a page |
| `CowSeen.ForkMeans` | initial-xv6/src/kernel/proc.c:298-317 | the child has a memory and size of its own that are the parent's; a failed fork is not seen |
| `CowSeen.SbrkMeans` | initial-xv6/src/kernel/proc.c:275-294 | byte by byte: sbrk(n) moves the size by n, pages below both sizes keep their bytes, new ones are zero, a page is there exactly if it begins below the size, and no other process is touched |
| `CowSeen.ExitMeans` | initial-xv6/src/kernel/vm.c:297-302 | the memory of the process is gone, and nothing else is |
| `CowSeen.RunIsWhole` | initial-xv6/src/kernel/vm.c:225-302 | in every run every process has exactly the pages that begin below its size |
| `CowSeen.BootIsWhole` | initial-xv6/src/kernel/vm.c:211-221 | userinit's process is such a one, and its page is the code followed by zeros |
| `CowSeen.SbrksAdd` | initial-xv6/src/kernel/proc.c:275-294 | over any run, a process that lives on is larger by the sum of what its successful sbrks asked for, as long as no such sum is negative or beyond 64 bits |
| `PageTable.PteRoundTrip` | initial-xv6/src/kernel/riscv.h:341-352 | a page number and flags packed into an entry come back, and the tests on the flags say what the flags are |
| `PageTable.IndicesDetermine` | initial-xv6/src/kernel/riscv.h:355-357 | the three 9-bit indices determine the page number |
| `PageTable.LeavesApart` | initial-xv6/src/kernel/vm.c:85-106 | two page numbers never share a level-0 entry |
| `PageTable.SetLeaf` | initial-xv6/src/kernel/vm.c:143-166 | writing the entry walk returns changes the flat map at that page number only and keeps the tree |
| `PageTable.AddTableTree` | initial-xv6/src/kernel/vm.c:97-103 | a new zeroed table page keeps the table pages a tree without sharing |
| `PageTable.AddTableFlat` | initial-xv6/src/kernel/vm.c:97-103 | a new table page changes no mapping |
| `PageTable.Vm.constructor` | initial-xv6/src/kernel/vm.c:198-206 | an empty table maps nothing |
| `PageTable.Vm.Walk` | initial-xv6/src/kernel/vm.c:85-106 | the table page of the level-0 entry, none exactly if it does not exist and none could be made; the flat map does not change; without alloc nothing changes at all |
| `PageTable.Vm.WriteLeaf` | initial-xv6/src/kernel/vm.c:155-159 | exactly one page number changes |
| `PageTable.Vm.MapPages` | initial-xv6/src/kernel/vm.c:143-166 | exactly the addressed pages map to consecutive physical pages, up to the first that is mapped already (the remap panic) or has no memory for its tables; leaf entries stay distinguishable from pointers |
| `PageTable.ProperIffFlat` | initial-xv6/src/kernel/vm.c:274-293 | no level-0 entry is taken for a pointer by freewalk exactly when no mapped page has an entry without R, W and X |
| `PageTable.Vm.UvmUnmap` | initial-xv6/src/kernel/vm.c:171-194 | exactly the addressed pages are unmapped, and the pages freed are the ones they mapped, in order |
| `PageTable.Vm.FreeWalk` | initial-xv6/src/kernel/vm.c:274-293 | each table page below is freed exactly once, and the leaf panic happens exactly when a leaf is left |
| `PageTable.Vm.UvmFree` | initial-xv6/src/kernel/vm.c:297-302 | every mapped page and every table page is freed exactly once, without panic |
| `PageTable.NoLeafWhenEmpty` | initial-xv6/src/kernel/vm.c:274-293 | when nothing is mapped freewalk meets no leaf |
| `PageTable.AllBelowRoot` | initial-xv6/src/kernel/vm.c:274-293 | the tree below the root is all table pages |
| `FsOwn.PutWordMeaning` | initial-xv6/src/kernel/fs.c:407-414 | an entry stored in an indirect block is read back and no other changes |
| `FsOwn.NoSharing` | initial-xv6/src/kernel/fs.c:382-421 | two places never name the same block |
| `FsOwn.AllocateOwn` | initial-xv6/src/kernel/fs.c:66-88 | a block taken from the bitmap was named nowhere, and ownership holds with it in hand |
| `FsOwn.PlaceOwn` | initial-xv6/src/kernel/fs.c:388-415 | storing an allocated block in an empty place keeps ownership |
| `FsOwn.UnplaceOwn` | initial-xv6/src/kernel/fs.c:432-449 | forgetting a block keeps ownership with it in hand |
| `FsOwn.FreeOwn` | initial-xv6/src/kernel/fs.c:92-105 | freeing a block in hand keeps ownership; its bit was set, so "freeing free block" cannot happen |
| `FsOwn.DataWriteOwn` | initial-xv6/src/kernel/fs.c:516-528 | writing a data block keeps ownership |
| `Fs.FileSystem.constructor` | initial-xv6/src/kernel/fs.c:65-105 | an empty file system: the bits set are those of the metadata, and every inode is an empty file |
| `Fs.FileSystem.Balloc` | initial-xv6/src/kernel/fs.c:66-88 | the first free block, zeroed, or 0 exactly when none is free; two blocks logged |
| `Fs.FileSystem.AllocAddr` | initial-xv6/src/kernel/fs.c:389-406 | a new block in an empty slot of the inode, or nothing changes when the disk is full |
| `Fs.FileSystem.AllocInd` | initial-xv6/src/kernel/fs.c:407-415 | a new block in an empty entry of the indirect block, or nothing changes when the disk is full |
| `Fs.FileSystem.BmapInd` | initial-xv6/src/kernel/fs.c:399-418 | the indirect part of bmap, including both out-of-space paths, keeps ownership and every byte of data |
| `Fs.FileSystem.Bmap` | initial-xv6/src/kernel/fs.c:383-421 | the block of the file, new and zeroed if there was none, 0 when the disk is full; no data changes, the logged blocks are accounted for, and what changed is logged |
| `Fs.FileSystem.FreeDirect` | initial-xv6/src/kernel/fs.c:432-437 | exactly that block is freed |
| `Fs.FileSystem.FreeEntries` | initial-xv6/src/kernel/fs.c:440-445 | exactly the blocks the indirect block names are freed |
| `Fs.FileSystem.FreeIndirect` | initial-xv6/src/kernel/fs.c:439-449 | exactly the indirect block and the blocks it names are freed |
| `Fs.FileSystem.Itrunc` | initial-xv6/src/kernel/fs.c:426-453 | exactly the blocks the inode names are freed; the file is empty and no other file changes; only bitmap blocks and the inode's block are logged |
| `Fs.TruncateLogs` | initial-xv6/src/kernel/fs.c:426-453 | on a disk whose bitmap is one block, a truncation logs at most two blocks |
| `Fs.FileSystem.WriteOne` | initial-xv6/src/kernel/fs.c:516-528 | one turn of writei: at most one block changes, in exactly the bytes copied, also when the copy faults inside the turn |
| `Fs.FileSystem.WriteLoop` | initial-xv6/src/kernel/fs.c:516-528 | the bytes counted are a prefix of the source that ends with a block; it falls short exactly when the next block is missing and the disk full, or when the block is there and its turn would copy beyond the good source, and then the bytes in the block go on exactly to the end of the good source |
| `Fs.FileSystem.Writei` | initial-xv6/src/kernel/fs.c:506-539 | the byte sequence is overwritten at the offset and extended to the maximum by the bytes counted; a fault inside a turn also changes exactly the bytes up to the end of the good source, within the size; no other file changes, -1 exactly for the three bad ranges, a write of at most three blocks logs at most MAXOPBLOCKS blocks, and without a fault every bit, block and inode that changed is logged |
| `Fs.FileSystem.Readi` | initial-xv6/src/kernel/fs.c:472-496 | the slice of the byte sequence, cut at the end of the file |
| `Fs.FileSystem.Chunk` | initial-xv6/src/kernel/file.c:157-173 | one chunk, in its own transaction, continues the overwriting; it is refused exactly for the offset or the size the file would get, and falls short exactly as writei does |
| `Fs.FileSystem.Filewrite` | initial-xv6/src/kernel/file.c:155-175 | the file is overwritten by a prefix of the source, all of it exactly on success, and by what a fault inside a turn had copied; it ends exactly where a chunk is refused or falls short; each transaction has at most three blocks of data and MAXOPBLOCKS logged blocks, and without a fault after k of them exactly k chunks are written |
| `Fs.WrittenFiles` | initial-xv6/src/kernel/fs.c:506-539 | the block changes of a write, together with the new size, are an overwrite of that byte sequence, cut at the size; holes never appear below the size |
| `Fs.WhereByteIs` | initial-xv6/src/kernel/fs.c:383-418 | byte k of a file is byte k % 1024 of the block that the inode names for one of the first twelve, and else of the one that a little-endian word of the indirect block names |
| `Fs.WrittenMore` | initial-xv6/src/kernel/file.c:157-174 | a last chunk that falls short continues the chunks before it |
| `Fs.WhyShort` | initial-xv6/src/kernel/file.c:157-175 | a source that can be read to its end is written to its end unless the file would get too long or the disk is full |
| `Fs.LogBound` | initial-xv6/src/kernel/file.c:149-155 | a chunk of three blocks logs at most ten distinct blocks, even with one bitmap block per allocation and an unaligned start |
| `Fs.OverwriteMore` | initial-xv6/src/kernel/file.c:157-174 | overwriting chunk by chunk is overwriting once |
| `Fs.TruncatedFiles` | initial-xv6/src/kernel/fs.c:426-453 | truncating one file leaves every other byte sequence as it is |
| `FsCrash.KeptPart` | initial-xv6/src/kernel/fs.c:506-539 | a block of the disk that a write did not log holds the same bits, inodes and data as before |
| `FsCrash.WhereIs` | initial-xv6/src/kernel/fs.h:42-51 | a block of the bitmap has 8192 bits and a block of inodes sixteen |
| `FsCrash.RedoIsNext` | initial-xv6/src/kernel/log.c:69-83 | a transaction done as a whole takes the disk of the file system before a chunk to that after it |
| `FsCrash.CrashKeepsWholeChunks` | initial-xv6/src/kernel/file.c:155-175 | if a crash cuts a filewrite short at any block write, and any number of recoveries after it, recovery finds the file system after a whole number of chunks: the file overwritten by just these and every other file as it was |
| `FsGroup.StoreIsPart` | initial-xv6/src/kernel/log.c:215-235 | a block of the store has what it was last logged as |
| `FsGroup.ItemIsState` | initial-xv6/src/kernel/log.c:127-167 | at a moment without operations each bit, inode and data block has the value it has after the operations that ended, in whatever order they logged the blocks they share |
| `FsGroup.QuietStoreIsState` | initial-xv6/src/kernel/log.c:127-167 | whenever no operation is under way, the store is the disk of the file system after exactly the operations that have ended |
| `FsGroup.FileIsReplay` | initial-xv6/src/kernel/file.c:155-175 | after some of the operations each file is its old contents with their writes to it, in order |
| `FsGroup.CrashKeepsWholeJobs` | initial-xv6/src/kernel/file.c:155-175 | writes of many processes overlap and share transactions: a crash at any moment, also inside a commit, leaves the file system after a whole number of them, with all that ended before the last save and none that has not ended, and every file is as just these wrote it |
| `Umalloc.StopsAtPlace` | initial-xv6/src/user/umalloc.c:30-32 | the search of free stops at exactly one node: the one the block belongs after, including the wrap |
| `Umalloc.FreedGaps` | initial-xv6/src/user/umalloc.c:33-42 | after free the list is in address order, disjoint and without adjacent blocks |
| `Umalloc.FreedUnits` | initial-xv6/src/user/umalloc.c:33-42 | the free units are the old ones and those of the block |
| `Umalloc.FreedHeap` | initial-xv6/src/user/umalloc.c:33-43 | after the assignments of free the headers spell that list and live blocks are untouched: every unit from sbrk is free or live |
| `Umalloc.TakenGaps` | initial-xv6/src/user/umalloc.c:75-84 | after malloc takes a block the list is still in order, disjoint and without adjacent blocks |
| `Umalloc.TakenUnits` | initial-xv6/src/user/umalloc.c:75-84 | the units that were free are those still free and those of the block |
| `Umalloc.TakenHeap` | initial-xv6/src/user/umalloc.c:75-84 | after the assignments of malloc the new block is disjoint from every free and live block, and every unit is accounted for |
| `Umalloc.RequestReachesSbrk` | initial-xv6/src/user/umalloc.c:52-54 | the byte count reaches sbrk intact, and the region obtained is as large as the one recorded, exactly for requests up to 2^31 - 32 bytes |
| `Umalloc.EnlargedBacked` | initial-xv6/src/user/umalloc.c:47-61 | after a grant the process owns all it has recorded exactly if the request was at most 2^31 - 32 bytes |
| `Umalloc.GrownList` | initial-xv6/src/user/umalloc.c:47-61 | when nothing fitted, the region from sbrk is, alone or merged, the last free block and the only one that fits |
| `Umalloc.LargestRequestObtainsOneUnit` | initial-xv6/src/user/umalloc.c:52-58 | the largest request obtains one unit and records 2^28 + 1 |
| `Umalloc.RequestSizes` | initial-xv6/src/user/umalloc.c:50-72 | a request takes (n + 15) / 16 + 1 units; sbrk is asked for 4096 units up to 65520 bytes and for the request beyond |
| `Umalloc.RoomForRequest` | initial-xv6/src/user/umalloc.c:69-84 | the block has room for the bytes asked for, with less than a unit to spare |
| `Umalloc.Heap.constructor` | initial-xv6/src/user/umalloc.c:21-22 | nothing free, nothing live |
| `Umalloc.Heap.FindBefore` | initial-xv6/src/user/umalloc.c:30-32 | the search of free terminates at the node the block belongs after |
| `Umalloc.Heap.Release` | initial-xv6/src/user/umalloc.c:25-44 | a block that belongs to nobody becomes free, merged with its neighbours |
| `Umalloc.Heap.Free` | initial-xv6/src/user/umalloc.c:25-44 | a live block becomes free, all others stay as they are, and the heap invariant holds |
| `Umalloc.Heap.Morecore` | initial-xv6/src/user/umalloc.c:47-61 | at least 4096 units are recorded as free, while the break moves by what the int argument says; or nothing changes when sbrk fails |
| `Umalloc.Heap.Begin` | initial-xv6/src/user/umalloc.c:70-73 | the first call makes a list of the static header |
| `Umalloc.Heap.TakeBlock` | initial-xv6/src/user/umalloc.c:75-84 | a block of the wanted size leaves the list, exactly or from the tail of a larger one |
| `Umalloc.Heap.Malloc` | initial-xv6/src/user/umalloc.c:64-90 | terminates with at most one sbrk, made only if no free block fits; null exactly if none fits and sbrk fails; otherwise one new live block of the right size, disjoint from all others, the first fit after freep or the end of the new region; the process owns its heap afterwards exactly if no grant was truncated |
| `Umalloc.Called` | initial-xv6/src/user/umalloc.c:24-90 | one call of a program: what it holds afterwards follows from the answer, and its blocks do not overlap |
| `Umalloc.Session` | initial-xv6/src/user/umalloc.c:24-90 | over every sequence of mallocs and frees, what is allocated is the replay of the answers, every block handed out is new and apart from all others, malloc fails only if sbrk does; this lasts exactly until the first granted request above 2^31 - 32 bytes, whose block reaches beyond the break |
| `Umalloc.BreakInsideBlock` | initial-xv6/src/user/umalloc.c:47-61 | after malloc(2^32 - 1) the break of the process lies inside the block returned, so that the next sbrk answers with an address in it |
| `Grep.FirstItem` | initial-xv6/src/user/grep.c:84-105 | a word is in the language of an item followed by others exactly when it splits there |
| `Grep.HereFirst` | initial-xv6/src/user/grep.c:84-105 | a prefix matches an item and the rest exactly when some shorter prefix matches the item and the rest matches from there |
| `Grep.HereOne` | initial-xv6/src/user/grep.c:92-94 | a single item consumes exactly one character |
| `Grep.MatchHere` | initial-xv6/src/user/grep.c:84-95 | true exactly when a prefix of the text (all of it under a final $) is in the language of the pattern |
| `Grep.MatchStar` | initial-xv6/src/user/grep.c:98-105 | true exactly when the rest of the pattern matches after some run of the starred character |
| `Grep.Match` | initial-xv6/src/user/grep.c:72-81 | true exactly when some substring is in the language, at the start under ^, at the end under a final $ |
| `Grep.ReadingOfWritten` | initial-xv6/src/user/grep.c:83-95 | a pattern written down, with . for any character, * after what is repeated and $ at an anchored end, is read as itself |
| `Grep.WrittenOfReading` | initial-xv6/src/user/grep.c:83-95 | every string is the writing of exactly the pattern it is read as |
| `Grep.PlainSomewhere` | initial-xv6/src/user/grep.c:70-80 | plain characters match where they stand in the line: anywhere, under ^ at its front, under $ at its end, under both as the whole line |
| `Grep.DotHere` | initial-xv6/src/user/grep.c:92 | a dot matches any one character |
| `Grep.StarHere` | initial-xv6/src/user/grep.c:99-106 | c* matches any number of c, and .* anything |
| `Grep.FindNewline` | initial-xv6/src/user/grep.c:21 | the first newline of the string, unless a NUL comes first |
| `Grep.ScanBuffer` | initial-xv6/src/user/grep.c:20-28 | the complete lines in the buffer are dealt with; the rest is untouched |
| `Grep.MoveDown` | initial-xv6/src/user/grep.c:29-32 | the unfinished line moves to the front |
| `Grep.TakeIn` | initial-xv6/src/user/grep.c:18-32 | one read: the lines written and the bytes kept account for everything |
| `Grep.Grep` | initial-xv6/src/user/grep.c:11-34 | however the input is cut into reads, the output is the matching lines before the first that is unfinished, holds a NUL or has 1023 bytes without a newline |
| `Grep.NextLine` | initial-xv6/src/user/grep.c:21-28 | a complete line at the front of the buffer can be dealt with before the rest arrives |
| `Grep.NoLine` | initial-xv6/src/user/grep.c:17-33 | a full buffer or the end of input without a complete line ends the output |
| `Grep.LineIsRead` | initial-xv6/src/user/grep.c:12-37 | a line of fewer than 1023 bytes without a NUL is printed exactly if it matches, and one of 1023 bytes or more ends the output |
| `Grep.PrintedThenMissing` | initial-xv6/src/user/grep.c:11-34 | the matching lines of the whole input are those printed followed by those from the first line on that is unfinished, holds a NUL or does not fit the buffer |
| `Grep.PrintsAllExactlyWhen` | initial-xv6/src/user/grep.c:11-34 | every matching line is printed if and only if no line matches from that one on |
| `Shell.SkipSpace` | initial-xv6/src/user/sh.c:273-274 | the cursor skips exactly the whitespace |
| `Shell.Peek` | initial-xv6/src/user/sh.c:312-321 | the tokens ahead do not change, and the answer is whether the next one starts with one of the characters |
| `Shell.ScanToken` | initial-xv6/src/user/sh.c:277-301 | the end and the code of the token that starts here |
| `Shell.GetToken` | initial-xv6/src/user/sh.c:267-309 | consumes exactly the next token, with its code and, for a word, its bounds; 0 at the end |
| `Shell.ParseRedirs` | initial-xv6/src/user/sh.c:376-398 | follows the grammar: redirections wrap the command in order; panic on a missing file name |
| `Shell.ParseSimple` | initial-xv6/src/user/sh.c:427-446 | follows the grammar: words and redirections in any order, at most nine words |
| `Shell.ParseExec` | initial-xv6/src/user/sh.c:417-447 | a block if a parenthesis opens, else a simple command |
| `Shell.ParseBlock` | initial-xv6/src/user/sh.c:401-414 | a line in parentheses, then redirections; panic on a missing parenthesis |
| `Shell.ParsePipe` | initial-xv6/src/user/sh.c:363-373 | follows the grammar for pipes, to the right |
| `Shell.ParseLine` | initial-xv6/src/user/sh.c:346-360 | follows the grammar for & and ;; the mutually recursive parsers terminate on every line |
| `Shell.LexWords` | initial-xv6/src/user/sh.c:296-301 | every word token is maximal: it could not be longer |
| `Shell.LineMade` | initial-xv6/src/user/sh.c:346-447 | every parsed tree consists of maximal words, with at most nine words a command and the three modes of redirection |
| `Shell.LexRender` | initial-xv6/src/user/sh.c:267-309 | the scanner reads the printed form of any tokens as those tokens |
| `Shell.LineReads` | initial-xv6/src/user/sh.c:346-447 | the grammar reads a printed tree as that tree |
| `Shell.RoundTrip` | initial-xv6/src/user/sh.c:329-447 | every command tree with at most nine words a command, printed in full parentheses and parsed, comes back |
| `Shell.AcceptedPrints` | initial-xv6/src/user/sh.c:329-447 | whatever line is accepted, the printing of its tree is accepted with the same tree |
| `ShellSyntax.TypedReads` | initial-xv6/src/user/sh.c:346-456 | a line written as words and redirections in any order, groups, pipes, & and ; is read as what it means: words in order, the last redirection outermost, pipes and lists nested to the right |
| `ShellSyntax.TypedWritten` | initial-xv6/src/user/sh.c:346-456 | whatever is read was written in such a form |
| `ShellSyntax.AcceptedExactly` | initial-xv6/src/user/sh.c:332-344 | a line is accepted exactly if it has a written form with at most nine words a command, and all its written forms mean the same tree |
| `ShellSyntax.PipeLine` | initial-xv6/src/user/sh.c:363-373 | commands joined by the pipe sign nest to the right: Pipe(a, Pipe(b, c)) |
| `ShellSyntax.ListLine` | initial-xv6/src/user/sh.c:346-361 | a ; b ; c is List(a, List(b, c)); the pipe sign binds before &, and & before ; |
| `ShellSyntax.RedirectedLine` | initial-xv6/src/user/sh.c:375-399 | redirections may stand anywhere among the words; the last is the outermost, and each opens its file with the modes and descriptor of its sign |
| `ShellSyntax.AcceptedWords` | initial-xv6/src/user/sh.c:332-456 | the tree of an accepted line has every word of the line once and no other; without redirections from left to right as they are written |
| `ShellSyntax.TokensSpellLine` | initial-xv6/src/user/sh.c:263-310 | the tokens of a line spell all its characters but the white space, in order |
| `ShellSyntax.FirstToken` | initial-xv6/src/user/sh.c:273-303 | two > next to each other are one token, every other symbol is one by itself, and anything else begins a word |
| `ShellSyntax.WordsAreMaximal` | initial-xv6/src/user/sh.c:299-303 | a word has no symbol and no white space, and ends at one or at the end |
| `Shell.NulTerminate` | initial-xv6/src/user/sh.c:451-494 | NUL is written at exactly the ends of the tree's words |
| `Shell.CutWords` | initial-xv6/src/user/sh.c:466-467 | NUL is written at exactly the ends of the arguments |
| `Shell.EndsOutside` | initial-xv6/src/user/sh.c:451-494 | no word's end lies inside another word |
| `Shell.TreeSurvives` | initial-xv6/src/user/sh.c:451-494 | after nulterminate every argument and file string in memory equals its token |
| `Shell.ParseCmd` | initial-xv6/src/user/sh.c:329-343 | a line is accepted exactly when the grammar reads all of it; the tree's strings in memory are then its words; otherwise the buffer is unchanged |
| `Virtio.ThreeEach` | initial-xv6/src/kernel/virtio_disk.c:199-213 | the descriptors in use are three for each request |
| `Virtio.AtMostTwo` | initial-xv6/src/kernel/virtio_disk.c:199-213 | at most two requests are in flight |
| `Virtio.RingPush` | initial-xv6/src/kernel/virtio_disk.c:272-277 | a new entry overwrites no entry that has not been read |
| `Virtio.SlotOfCounter` | initial-xv6/src/kernel/virtio_disk.c:272-277 | the 16-bit index names the same slot as an unbounded one, through every wrap |
| `Virtio.FormatChain` | initial-xv6/src/kernel/virtio_disk.c:235-269 | three free descriptors formatted for a request keep all chains disjoint and intact |
| `Virtio.FinishedDescriptors` | initial-xv6/src/kernel/virtio_disk.c:288-289 | freeing a chain returns exactly its descriptors and leaves the other chain intact |
| `Virtio.PostCore` | initial-xv6/src/kernel/virtio_disk.c:226-277 | posting a request keeps the invariant |
| `Virtio.SeeCore` | initial-xv6/src/kernel/virtio_disk.c:312-324 | seeing the oldest completion keeps the invariant: its status is 0 and its buffer is its own |
| `Virtio.PerformCore` | initial-xv6/src/kernel/virtio_disk.c:235-277 | a transfer by the device, in any order among the requests it took, keeps the invariant |
| `Virtio.Disk.constructor` | initial-xv6/src/kernel/virtio_disk.c:143-146 | all descriptors free, nothing in flight |
| `Virtio.Disk.AllocDesc` | initial-xv6/src/kernel/virtio_disk.c:157-166 | the first free descriptor, or -1 exactly when none is free |
| `Virtio.Disk.FreeChain` | initial-xv6/src/kernel/virtio_disk.c:186-197 | follows the next links and frees exactly the three descriptors of the chain |
| `Virtio.Disk.Alloc3` | initial-xv6/src/kernel/virtio_disk.c:202-213 | three distinct free descriptors, or none taken when fewer are free |
| `Virtio.Disk.GiveBack` | initial-xv6/src/kernel/virtio_disk.c:207-208 | the clean-up restores the free set |
| `Virtio.SectorsApart` | initial-xv6/src/kernel/virtio_disk.c:218 | two blocks start at the same sector exactly if their numbers differ by a multiple of 2^31, and otherwise have no sector in common |
| `Virtio.SectorIs` | initial-xv6/src/kernel/virtio_disk.c:218 | below 2^31 a block starts at the sector of twice its number |
| `Virtio.Disk.MoveBytes` | initial-xv6/src/kernel/virtio_disk.c:240-263 | what the device does with three descriptors of the lengths, flags and order that it asks for: the 1024 bytes of the buffer go to the medium from byte 512 sector on, or come from there |
| `Virtio.Disk.Start` | initial-xv6/src/kernel/virtio_disk.c:216-281 | a request is posted with its own three descriptors and its buffer marked busy; it waits exactly when two requests are in flight |
| `Virtio.Disk.Prepare` | initial-xv6/src/kernel/virtio_disk.c:226-269 | allocation and formatting keep the invariant |
| `Virtio.Disk.PostHead` | initial-xv6/src/kernel/virtio_disk.c:272-277 | the ring holds the unread requests in order, through 16-bit wrap |
| `Virtio.Disk.Finish` | initial-xv6/src/kernel/virtio_disk.c:284-291 | when the caller goes on, the device has made exactly the transfer asked for and the buffer holds its bytes; exactly its three descriptors are freed |
| `Virtio.Disk.IntrOne` | initial-xv6/src/kernel/virtio_disk.c:312-324 | the oldest completion clears the flag of its own request's buffer and no other; the status panic cannot happen |
| `Virtio.Disk.Intr` | initial-xv6/src/kernel/virtio_disk.c:295-327 | all completions are seen |
| `Virtio.Disk.DeviceTake` | initial-xv6/src/kernel/virtio_disk.c:271-281 | the device takes the oldest posted request |
| `Virtio.Disk.DevicePerform` | initial-xv6/src/kernel/virtio_disk.c:235-277 | the device, following the descriptors, makes exactly the transfer of the request and reports it |
| `VirtioRun.StepGood` | initial-xv6/src/kernel/virtio_disk.c:215-327 | one event keeps: every transfer was asked for and none made twice, every answer goes to its own earlier request for that buffer with the bytes of its transfer, every accepted request is answered or in flight |
| `VirtioRun.EveryRunGood` | initial-xv6/src/kernel/virtio_disk.c:215-327 | the same in every run of requests, device steps, interrupts and returns |
| `VirtioRun.CountersTell` | initial-xv6/src/kernel/virtio_disk.c:312-314 | the ring indices differ exactly when a request is posted, or a completion not yet seen |
| `VirtioRun.FlagTells` | initial-xv6/src/kernel/virtio_disk.c:284-286 | the buffer's flag is clear exactly when the interrupt has seen the completion of its request |
| `VirtioRun.Submitted` | initial-xv6/src/kernel/virtio_disk.c:216-281 | a request is accepted or has to wait exactly as in that machine |
| `VirtioRun.Performed` | initial-xv6/src/kernel/virtio_disk.c:235-277 | the device may perform any request it has taken |
| `VirtioRun.Noticing` | initial-xv6/src/kernel/virtio_disk.c:312-324 | one turn of the interrupt, also when completions arrive between turns |
| `VirtioRun.Returned` | initial-xv6/src/kernel/virtio_disk.c:284-291 | a call returns exactly when its completion was seen, with the bytes of its own transfer |
| `VirtioRun.Run` | initial-xv6/src/kernel/virtio_disk.c:215-327 | every run of the real driver and device answers event by event as that machine, with the same buffers, the same medium and the same transfers in order; so every answer is to its own request, by its own transfer, and every transfer was asked for |
| `VirtioRun.WritesSendWhatWasAsked` | initial-xv6/src/kernel/virtio_disk.c:235-277 | in every run, with callers that fill buffers between their requests, a write puts on the medium the bytes its buffer held when the write was asked for |
| `VirtioBlocks.TransferOfBlock` | initial-xv6/src/kernel/virtio_disk.c:216-258 | in every run, on a medium of 512-byte sectors, the transfer for a request for block b below 2^31 moves exactly bytes 1024 b to 1024 (b + 1), to or from its buffer |
| `VirtioBlocks.BlockIsLastWritten` | initial-xv6/src/kernel/virtio_disk.c:216-258 | in every run a block of the medium is what the last write of that block put there, or what it was at first |
| `VirtioBlocks.ReadsBringLastWritten` | initial-xv6/src/kernel/virtio_disk.c:216-258 | in every run the transfer for a read brings what the last write of the same block before it put there |
| `VirtioBlocks.ReadsAnswerLastWritten` | initial-xv6/src/kernel/virtio_disk.c:216-283 | in every run that is what the read answers |
| `Pipe.CountersCompare` | initial-xv6/src/kernel/pipe.c:88-114 | the 32-bit comparisons for full and empty say so exactly, through every wrap |
| `Pipe.HoldsMore` | initial-xv6/src/kernel/pipe.c:95 | a byte written into its slot overwrites no unread byte |
| `Pipe.Channel.Conserved` | initial-xv6/src/kernel/pipe.c:76-130 | bytes taken followed by bytes in the ring are the bytes put, and at most 512 are in the ring |
| `Pipe.Channel.constructor` | initial-xv6/src/kernel/pipe.c:33-37 | an empty pipe, open at both ends |
| `Pipe.Channel.Write` | initial-xv6/src/kernel/pipe.c:77-103 | the longest prefix of the rest of the source that fits before the end is closed, the writer killed or the source bad enters the ring; at the byte it stops at, a closed or killed end fails before a full ring puts it to sleep, and that before a bad source ends it; a sleeping writer means a full ring; a reader is left asleep with something to read exactly when the call fails after putting bytes |
| `Pipe.Channel.CopyIn` | initial-xv6/src/kernel/pipe.c:84-99 | the copying loop, byte by byte, up to a full ring, a closed end, a kill or a bad source address |
| `Pipe.Channel.Wake` | initial-xv6/src/kernel/proc.c:697-718 | kill takes the sleeper off the pipe and strands nobody |
| `Pipe.Channel.Read` | initial-xv6/src/kernel/pipe.c:106-130 | the oldest bytes leave the ring in order; sleeps exactly on an empty pipe with a writer; no writer is left asleep |
| `Pipe.Channel.Drain` | initial-xv6/src/kernel/pipe.c:120-126 | the copying loop takes the oldest bytes until it has enough, the ring is empty or copyout fails |
| `Pipe.Channel.Close` | initial-xv6/src/kernel/pipe.c:59-74 | freed exactly when both ends are closed, with nobody asleep on it |
| `PipeRun.FillKeeps` | initial-xv6/src/kernel/pipe.c:84-99 | the bytes put are a slice of the source behind the old contents, and a writer goes to sleep only on a full ring |
| `PipeRun.PourCounts` | initial-xv6/src/kernel/pipe.c:120-126 | a read counts the bytes before the first that copyout refuses; that one has left the ring and is lost |
| `PipeRun.EveryRunConserves` | initial-xv6/src/kernel/pipe.c:58-130 | in every run, what was in the ring followed by all bytes put is all bytes taken followed by what is in it |
| `PipeRun.CallsPutPrefixes` | initial-xv6/src/kernel/pipe.c:77-103 | in every run, the bytes a write has put, over all its sleeps, are a prefix of its source |
| `PipeRun.StrandedExactly` | initial-xv6/src/kernel/pipe.c:58-130 | in every run, some reader was asleep with something to read exactly if some write failed after putting bytes while a reader slept |
| `PipeRun.Went` | initial-xv6/src/kernel/pipe.c:58-130 | one event of the real pipe is one event of the machine |
| `PipeRun.Run` | initial-xv6/src/kernel/pipe.c:58-130 | every run of reads, writes, closes and kills on the real pipe answers as that machine: bytes are neither lost, repeated nor reordered, and readers are stranded exactly as above |
| `Pipe.KilledWriterStrandsReader` | initial-xv6/src/kernel/pipe.c:84-87 | a killed writer can leave a reader asleep on a nonempty pipe |
| `Sleeplock.StepProc` | initial-xv6/src/kernel/proc.c:646-692 | every step keeps: each p->lock is held by exactly the process that is at a place where it holds it |
| `Sleeplock.StepSleep` | initial-xv6/src/kernel/proc.c:646-692 | every step keeps: a process on its way to sleep or asleep implies that the lock is held or a wakeup will still look at it |
| `Sleeplock.StepInv` | initial-xv6/src/kernel/sleeplock.c:21-41 | every step of every process keeps the invariant |
| `Sleeplock.TraceInv` | initial-xv6/src/kernel/sleeplock.c:21-41 | the invariant holds in every state of every interleaving |
| `Sleeplock.MutualExclusion` | initial-xv6/src/kernel/sleeplock.c:21-41 | at most one process holds a sleeplock, in every state of every run |
| `Sleeplock.NoLostWakeup` | initial-xv6/src/kernel/proc.c:646-692 | whenever the inner spinlock is free, a process asleep on the lock implies that the lock is held by someone |
| `Sleeplock.WakeupEnds` | initial-xv6/src/kernel/proc.c:676-692 | every step of its own brings a releasing process nearer to the end of wakeup() |
| `Sleeplock.NoDeadlock` | initial-xv6/src/kernel/sleeplock.c:21-41 | in every state of every run, if a process is inside acquiresleep or releasesleep or owns the lock, some such process can take a step |
| `Sleeplock.HoldingSleep` | initial-xv6/src/kernel/sleeplock.c:44-52 | the answer is whether the caller holds the lock |
| `Itable.ClaimedKey` | initial-xv6/src/kernel/fs.c:208-212 | a free inode is not valid in memory, or is in an iput that will invalidate it before unlocking |
| `Itable.Table.constructor` | initial-xv6/src/kernel/fs.c:182-190 | no entry is referenced |
| `Itable.Table.IGet` | initial-xv6/src/kernel/fs.c:247-277 | the one entry for the inode, found or the first free one made invalid; one reference more; the panic exactly for a full table |
| `Itable.Table.Search` | initial-xv6/src/kernel/fs.c:253-263 | the entry for the inode if there is one, else the first free one |
| `Itable.Table.IDup` | initial-xv6/src/kernel/fs.c:282-288 | one reference more |
| `Itable.Table.LockEntry` | initial-xv6/src/kernel/fs.c:298-301 | a holder of a reference takes the sleeplock |
| `Itable.Table.Load` | initial-xv6/src/kernel/fs.c:303-316 | after ilock an invalid copy is the inode on disk, whatever happened to it since the entry was valid; the panic exactly for a free inode; a valid copy stays, and is the disk's unless a change was not written back |
| `Itable.Table.Change` | initial-xv6/src/kernel/fs.c:221-225 | the holder of the lock changes its copy of a valid inode; the invariant lets it differ from the disk until iupdate |
| `Itable.Table.IUpdate` | initial-xv6/src/kernel/fs.c:226-241 | the inode on disk becomes the copy, and no other entry is affected |
| `Itable.Table.IUnlock` | initial-xv6/src/kernel/fs.c:321-327 | the lock is free; a valid entry whose changes were written back equals the inode on disk |
| `Itable.Table.Examine` | initial-xv6/src/kernel/fs.c:199-212 | one turn of ialloc: a free inode gets the type, and no entry that is valid and usable refers to it; any other inode is left alone |
| `Itable.Table.PutStart` | initial-xv6/src/kernel/fs.c:337-348 | the last reference to an inode that is unlinked in its loaded copy locks the entry without waiting; any other is dropped; that leaves an unlinked inode behind exactly if it was the last and the inode on disk is allocated without links, which takes an entry that was not loaded or not written back |
| `Itable.Table.PutTrunc` | initial-xv6/src/kernel/fs.c:350-351 | the truncated inode is on disk |
| `Itable.Table.PutErase` | initial-xv6/src/kernel/fs.c:352 | the inode is free on disk |
| `Itable.Table.PutInvalidate` | initial-xv6/src/kernel/fs.c:353 | the entry is invalid before it is unlocked |
| `Itable.Table.PutUnlock` | initial-xv6/src/kernel/fs.c:355 | the invariant holds in the window before the last decrement |
| `Itable.Table.Release` | initial-xv6/src/kernel/fs.c:357-361 | one reference fewer; an inode is left behind exactly if that was the last one and the inode on disk is allocated without links |
| `Itable.DelayedDropLeavesInode` | initial-xv6/src/kernel/fs.c:337-362 | an inode taken, used and unlinked while an earlier iput is about to decrement stays allocated without links or references |
| `Itable.UnloadedDropLeavesInode` | initial-xv6/src/kernel/fs.c:337-361 | so does one that is dropped before it was ever locked |
| `Itable.FreeInodeMissed` | initial-xv6/src/kernel/fs.c:199-216 | a run on the real table in which a search finds every inode taken although at every moment one is free |
| `ItableRun.StepOk` | initial-xv6/src/kernel/fs.c:194-362 | every step of every operation keeps the invariant of the table |
| `ItableRun.EveryRunOk` | initial-xv6/src/kernel/fs.c:194-362 | the invariant holds in every state of every interleaving |
| `ItableRun.AllocatedOnce` | initial-xv6/src/kernel/fs.c:194-216 | in every interleaving, between two allocations of the same inode an iput freed it |
| `ItableRun.StaysAllocated` | initial-xv6/src/kernel/fs.c:335-362 | only the erasing step of iput makes an inode free |
| `ItableRun.StepIsolated` | initial-xv6/src/kernel/fs.c:292-327 | a step of another process changes a locked and loaded inode neither in memory nor on disk |
| `ItableRun.Isolated` | initial-xv6/src/kernel/fs.c:292-327 | so does any sequence of such steps |
| `ItableRun.SearchOutcome` | initial-xv6/src/kernel/fs.c:199-216 | in every interleaving ialloc takes an inode that is free at that moment, having found every earlier one taken when it looked; it reports that there is none after it found each of them taken, each at its own time |
| `ItableRun.FreeExactly` | initial-xv6/src/kernel/fs.c:199-216 | in every interleaving, an inode that was taken is free later exactly if an iput freed it in between and no ialloc took it again |
| `ItableRun.NoInodesExactly` | initial-xv6/src/kernel/fs.c:199-216 | in every interleaving, when ialloc reports that there is no inode, an inode is nevertheless free exactly if it was freed after the turn that passed it and not taken since |
| `ItableRun.NoInodesIsRight` | initial-xv6/src/kernel/fs.c:199-216 | so the report is right if no inode was freed during the call |
| `ItableRun.StrandedExactly` | initial-xv6/src/kernel/fs.c:337-362 | a step leaves an inode behind, allocated without links or references and not about to be used by ialloc, exactly if the inode is unlinked on disk and the step drops its last reference without freeing it: the last decrement of an iput that freed the entry, an iput that did not see that the inode is unlinked, or iget's panic |
| `ItableRun.StrandedMeans` | initial-xv6/src/kernel/fs.c:337-362 | being left behind means: allocated on disk, no links, no entry in use for it, and no ialloc about to use it |
| `ItableRun.PutStrandsUnseen` | initial-xv6/src/kernel/fs.c:337-348 | an iput does so only for an entry that is not loaded or not written back |
| `ItableRun.StrandedBy` | initial-xv6/src/kernel/fs.c:194-362 | whatever is left behind after a run was let go by one of these steps |
| `ItableRun.Perform` | initial-xv6/src/kernel/fs.c:194-362 | one step of the real table is one step of the machine |
| `ItableRun.Run` | initial-xv6/src/kernel/fs.c:194-362 | every interleaving on the real table answers as the machine, up to a panic |
| `Sched.RbiTable` | initial-xv6/src/kernel/proc.c:878-891 | while 3 RTime - STime - WTime stays within 0 and 2^32, RBI is 100 iff RTime >= 3(STime + WTime) + 2, 50 iff otherwise RTime > STime + WTime, else 0 |
| `Sched.TooLong` | initial-xv6/src/kernel/proc.c:888 | beyond 2^32 it is too small |
| `Sched.WrappedSign` | initial-xv6/src/kernel/proc.c:888 | below 0 the wrapped product is positive exactly if floor(99 / (sum + 1)) is even and 2(STime + WTime) + 1 <= 2^32 + 2 RTime, where sum is RTime + STime + WTime |
| `Sched.SmallSums` | initial-xv6/src/kernel/proc.c:888 | for sums below 99 that is exactly for sums of 3, 5 to 7, 11, 14, 15, 19 to 23 and 33 to 48 |
| `Sched.RbiAgrees` | initial-xv6/src/kernel/proc.c:878-891 | the unsigned formula agrees with the intended one exactly if the process neither ran nor slept, or 3 RTime - STime - WTime is within 0 and 2^32, or it is negative and the product does not come out positive by WrappedSign |
| `Sched.RbiWraps` | initial-xv6/src/kernel/proc.c:888 | three ticks of sleep give 2147483598 instead of 0 |
| `Sched.WrappedValue` | initial-xv6/src/kernel/proc.c:888 | where the wrapped product is positive it is 50 times the quotient of the wrapped difference, less a multiple of 2^32 |
| `Sched.RefreshedPrio` | initial-xv6/src/kernel/proc.c:534-537 | the priority that the scan computes is static + RBI up to 100, then 100, and the sum as an unsigned int from 2^31 on |
| `Sched.BestStep` | initial-xv6/src/kernel/proc.c:539-562 | comparing with the best so far yields the best of one more |
| `Sched.BestIsUnique` | initial-xv6/src/kernel/proc.c:523-565 | the best process, last on ties, is unique |
| `Sched.Scheduler.Pick` | initial-xv6/src/kernel/proc.c:517-565 | each runnable process gets the RBI of its times and the priority static + RBI, cut at 100, unless that sum is negative as an int; the one picked has, on the old table, the least such sum up to 100, then the fewest runs, then the least ctime, the last one on ties; none exactly if none is runnable |
| `Sched.Scheduler.UpdateTime` | initial-xv6/src/kernel/proc.c:855-875 | every process is charged for its state |
| `Sched.Scheduler.ClockIntr` | initial-xv6/src/kernel/trap.c:169-173 | with a tick in one step no process is charged more ticks than it has lived |
| `Sched.StepInv` | initial-xv6/src/kernel/proc.c:855-875 | with a tick in steps, every tick since a process was created is charged to it, found it being set up, or has still to come to it, and one tick more is counted exactly for a process created during a tick that had still to come to it |
| `Sched.TimesCount` | initial-xv6/src/kernel/proc.c:855-875 | in every run RTime, STime and WTime count the ticks since its creation that found the process running, asleep and runnable |
| `Sched.CreatedAs` | initial-xv6/src/kernel/proc.c:157-165 | a new process has spent no time and starts with static priority 50 and RBI 100, so with priority 100 |
| `Sched.WaitTimeOk` | initial-xv6/src/kernel/proc.c:826 | in every run waitx's subtraction underflows, by one, exactly for a process created during a tick that had still to come to it, that did not exit during one, and that every tick found running; otherwise it is exactly the ticks that found it asleep, waiting or being set up, less one if it came late and more one if it left early |
| `Sched.CreatedMidTick` | initial-xv6/src/kernel/proc.c:826 | such a process exists: its waiting time is reported as 2^32 - 1 |

## Left out

Contracts weaker than a reader might expect:

- LogGroup.ReleaseStep: a process releases a buffer only when what it changed is logged; writei releases one into which a copy faulted without logging it.
- LogGroup.TurnStep: memmove, bwrite and brelse of a turn are one step; what others can do between them they can do before it.
- Cow.Machine.UserInit: says nothing of the machine after a failure, when the source panics or goes on with a process that has no page.
- Cow.Machine.Fork: counts the root and the tables of the user pages; the trapframe page and the two tables of the trampoline, which allocproc takes as well, are not counted.
- FsCrash.CrashKeepsWholeChunks: every chunk is a transaction by itself, as `Crash` has them; `FsGroup.CrashKeepsWholeJobs` is for chunks that share transactions. A block's parts are encoded by any function.
- FsGroup.CrashKeepsWholeJobs: asks that operations which set the same bit, inode or data of a block do so in the order in which they count; the inode and buffer locks that see to it are not composed with it. The operations are writes.
- Fs.FileSystem.Writei: what a faulting turn leaves in its buffer is not logged by that turn; that it is lost when the buffer is recycled or the machine crashes is not modelled.
- Umalloc.Heap.Morecore: addresses count whole header units.
- Umalloc.Session: stops at the first truncated grant; after it the source would hand out memory twice (`Umalloc.BreakInsideBlock`).
- Sched.Scheduler.Pick: one hart scans; counters do not reach 2^32.
- Sched.Scheduler.ClockIntr: ticks do not wrap.
- ItableRun.Run: a process may also act while an iput of its own is under way; so it covers more interleavings than the source has.
- Itable.UnloadedDropLeavesInode: create, the one caller of ialloc, locks the inode before anything else; callers are not modelled, so the path is open here.
- Itable.Table.LockEntry: waiting for the sleeplock is outside the call; `Sleeplock` has the waiting.
- Virtio.Disk.Start: sleeping for descriptors is the answer None, to be tried again; the caller holds the buffer's lock, so no other request for it is in flight.
- Virtio.Disk.Intr: the device adds no completion during the call; `VirtioRun.Run` interleaves completions with the turns of its loop.

Not modelled:

- Trampoline and trapframe mappings, the kernel page table, uvmclear, copyinstr and exec.
- Quotas in `LogGroup`: its processes may log more than they reserved; `LogQuota` says what holds if they do not.
- Errors of the disk: every request the device takes succeeds.
- Directories, path names, link counts and sysfile.c.
- device inodes, stati, readsb and fsinit.
- set_priority, and dispatch of one process by several harts.
- MMIO registers, virtio_disk_init's negotiation, memory barriers; waiting for descriptors.
- fork's other effects (files, registers), wait, kill beyond its effect on a sleeper.
- runcmd, getcmd, cd, and the shell's memory: a word stored through the execcmd that redirections already wrap is a function of the tree.
- Assembly, interrupts, the UART, the console, printf and string helpers.
- mkfs beyond the size of its log, the user test programs, and the programs under concurrency/.

# Verified model of the xv6-riscv kernel

This project models the parts of the xv6 kernel (with its four scheduling policies) and of three of its
user programs where correctness depends on more than one function, and proves what they promise.  All of
it is Dafny; `dafny verify dfyconfig.toml` checks every file.

Code that changes state in place is modelled as classes and methods with the loops and assignments of the
source, each method proved against functions of the old state.  Code that runs concurrently is modelled as
a state machine whose steps are the sections between two points where a lock is free, or finer where that
matters, and theorems speak of every run.  Spinlocks are owner fields, a context switch hands over the
process lock, the device is nondeterministic.

| files | what they model |
|---|---|
| Common, Bytes, Recovery, LogRuns | commit and recovery as ordered single-block disk writes; stopping anywhere; when log_write refuses |
| BufferCache, CacheView, Log, Transactions | the buffer ring, the log over it, the plain block contents both present, and whole transactions |
| Bitmap, BlockMap, Contents, DiskInodes, Journal, Files | block allocation, direct and indirect slots, files as byte sequences, inodes on disk, filewrite's transactions |
| FileCrash | files and log together: a crash anywhere in a filewrite |
| Itable, ItableFree, ItableLinks, Namex | the inode table under interleaving, and what iput frees; directories, path elements, path walking and references |
| PageTree, PageRanges, PageCount, TreeFree, Vm | page frames, Sv39 tables as partial maps, how many pages they take, growing, copying and freeing address spaces |
| SleepWakeup, SleepLocks, WaitExit, WaitFamily, WaitProgress, WaitStat | sleep and wakeup, and two of their users: sleep-locks, and wait/exit/reparent/fork; parents and children over whole runs; a wait_stat that keeps its locks |
| Sched | the FCFS, SRT and CFSD scans on several CPUs, and the turns of the processes they start |
| VirtioDisk, VirtioRuns | descriptor tables; requests, device and interrupt handler interleaved |
| Pipe | the byte ring with 32-bit counters |
| HeapRing, HeapCells, Malloc | the user-level allocator |
| ShellParser, ShellRoundTrip, ShellGrammar, Shell | the shell's parser, a printer, the grammar it accepts, and the buffer it writes NULs into |
| Regex, Grep | the pattern matcher and grep's buffered line loop |

How they fit: `Recovery` says what a disk becomes when commit or recovery stops after any write.  `Log`
proves that the code in kernel/log.c makes exactly those writes while the cache presents one array of block
contents (`CacheView.Agree`).  `Files` works on that array: its `blocks` are what the log presents, and its
`journal` lists the log_writes of a transaction, which turn the old blocks into the new ones.
`Transactions.Transact` runs such a list through the log.  `FileCrash` puts them together: a crash anywhere
in a filewrite, and then recovery, leaves the file with the chunks that had committed, whole and no more.

Where a property has a condition that the code does not check, the condition is proved with it:

- log_write tests the size of the log before it looks for the block.  With the 30-block log region that
  mkfs makes, three operations that keep within their allowance can be refused a new block
  (`LogRuns.RoomExact`); with a larger one they can still be refused a block that is already logged
  (`LogRuns.AbsorbExact`).
- ilock panics on a freed inode, and iget can be asked for one: a process in /a/b whose directories b and a
  are both unlinked finds the freed number of a under ".." (`Itable.StaleName`).  It cannot happen while
  names are of linked inodes (`ItableLinks.LinkedSafe`).
- wait_stat returns with its locks held if and only if the copyout of the counters fails
  (`WaitStat.LeakExact`, `WaitStat.LeakHappens`), and then nobody else ever enters wait or exit, or gets
  wait_lock in fork (`WaitStat.LockKept`).
- malloc passes a byte count to an int parameter: from 2^27 headers on sbrk is asked for something else
  (`Malloc.RequestExact`, `Malloc.Heap.Malloc` for when that happens, `Malloc.FirstTooBig` for an input).
- CFSD's comparison is no order on processes that have neither run nor slept, so it can miss the least
  ratio (`Sched.PickUnvalued`, `Sched.LeastMissed`).
- grep stops printing at a line of 1023 bytes or more, or with a NUL byte in it (`Grep.PrintsAll`).
- A copyout that fails in piperead has already taken the byte out (`Pipe.Ring.Fetch`).
- A filewrite chunk on a file without holes logs at most MAXOPBLOCKS blocks, however large the bitmap, and
  neither writei nor itrunc makes holes (`Files.FileSystem.FileWrite`).

## Model

| member | source | states |
|---|---|---|
| Bytes.PutWord | kernel/log.c:103-114 | Storing a 32-bit word in a block reads back as that word, and every other word of the block is as it was |
| Recovery.Head | kernel/log.c:103-114 | The header image write_head makes lists exactly the given block numbers, in order |
| Recovery.InstallAgain | kernel/log.c:69-83 | Installing any part of a transaction and then all of it again gives the same home blocks as installing it once |
| Recovery.InstallKeepsLog | kernel/log.c:69-83 | Installation changes neither the header nor the log blocks, so an interrupted recovery can start over |
| Recovery.RecoveryEnds | kernel/log.c:117-123 | A recovery that finishes has installed every listed block, left all others alone, and emptied the log |
| Recovery.CutRecovery | kernel/log.c:117-123 | A recovery cut off after any number of its writes leaves a disk from which recovery reaches the same home blocks |
| Recovery.Interrupted | kernel/log.c:117-123 | Any number of recoveries, each cut off anywhere, do not change what a final recovery makes of the home blocks |
| Recovery.BeforeHead | kernel/log.c:179-203 | Until the header is written, recovery still finds an empty log |
| Recovery.AfterHead | kernel/log.c:194-203 | Once the header is written, recovery performs exactly the rest of the commit |
| Recovery.CrashAtomicity | kernel/log.c:69-203 | Stop a commit after any of its disk writes, then cut off any number of recoveries anywhere, then let one finish: home blocks are all old if the header was not yet written, and all updated with the logged contents if it was |
| Logging.Log.constructor | kernel/log.c:55-65 | initlog performs exactly the writes of recovery and presents the recovered disk with nothing pinned |
| Logging.Log.Recover | kernel/log.c:117-123 | recover_from_log writes exactly the recovery writes and leaves the recovered disk, at rest |
| Logging.Log.InstallTrans | kernel/log.c:69-83 | install_trans writes the log blocks to their home blocks in order and, outside recovery, unpins each |
| Logging.Log.ReadHead | kernel/log.c:87-97 | read_head loads exactly the block numbers the header lists |
| Logging.Log.WriteHead | kernel/log.c:103-114 | write_head is one disk write, of a header listing block[..n] |
| Logging.Log.WriteLog | kernel/log.c:179-191 | write_log copies the logged blocks, as callers see them, to the log blocks in order |
| Logging.Log.Commit | kernel/log.c:194-203 | commit performs the commit writes in order, and at the end nothing is pinned and the home blocks on disk are what callers see; it finishes whenever callers hold no buffer and fewer than NBUF blocks are logged |
| Logging.Log.BeginOp | kernel/log.c:127-142 | An operation starts exactly when no commit runs and MAXOPBLOCKS more blocks fit for it and all outstanding ones; the reservation is kept |
| Logging.Log.Modify | kernel/bio.c:93-103 | A holder that changes a buffer changes what callers see of that block and of no other |
| Logging.Log.LogWrite | kernel/log.c:215-235 | log_write adds a block once, pins it, absorbs repeats, and uses up one unit of the operation's allowance; it refuses exactly when the log is full, size - 1 is reached, or it is called outside a transaction |
| Logging.Log.EndOp | kernel/log.c:147-175 | The last operation out commits; the disk writes made so far are always a prefix of the commit writes, and on return the disk holds what callers see; other operations only give their allowance back |
| LogRuns.StoppedCommit | kernel/log.c:147-203 | A machine that stops anywhere in end_op and then recovers, however often recovery is cut off, has all old home blocks or all as callers saw them at the end of the transaction |
| LogRuns.ReservedRun | kernel/log.c:127-175 | Over every run, logged blocks plus the unused allowances of outstanding operations never exceed LOGSIZE, and with none outstanding the log is empty |
| LogRuns.RefusedExact | kernel/log.c:215-235 | In every run, log_write refuses an operation within its allowance exactly when the log holds min(LOGSIZE, size - 1) blocks, whether the block is new or already logged |
| LogRuns.RoomExact | kernel/log.c:215-235 | log_write never refuses an operation that has some of its allowance left, in any run, exactly when the log region has more than LOGSIZE blocks |
| LogRuns.AbsorbExact | kernel/log.c:215-235 | log_write never refuses a block that is already logged, in any run, exactly when the region is too small to log any: the size test comes before the search |
| LogRuns.FillRuns | kernel/log.c:127-142 | A run that fills the log as far as the test lets it: three operations log up to 30 distinct blocks, each within its ten |
| Transactions.Change | kernel/log.c:204-235 | bread, a change, log_write and brelse by one operation: callers see the change, the block is logged once, and no buffer stays held; it succeeds whenever the size test does |
| Transactions.Transact | kernel/log.c:127-235 | begin_op, any changes of at most MAXOPBLOCKS blocks, and end_op succeed from a log at rest; the disk sees exactly the writes of one commit of the changed blocks, and at the end has all the changes |
| BufferCache.Cache.constructor | kernel/bio.c:37-53 | binit links all buffers into one ring |
| BufferCache.Cache.Find | kernel/bio.c:59-75 | The first scan returns the buffer that caches the block, and none exactly when no buffer does |
| BufferCache.Cache.Victim | kernel/bio.c:77-87 | The second scan returns the least recently released unused buffer, and none exactly when all are in use |
| BufferCache.Cache.BGet | kernel/bio.c:59-89 | bget returns the caching buffer or recycles the least recently released unused one; keys stay unique and it fails exactly when all buffers are in use |
| BufferCache.Cache.BRead | kernel/bio.c:93-103 | bread returns the cached contents, or the disk block when there was no valid copy |
| BufferCache.Cache.BWrite | kernel/bio.c:107-112 | bwrite is one write of the buffer to its block |
| BufferCache.Cache.BRelse | kernel/bio.c:117-137 | brelse drops one reference; at zero the buffer moves to the front, and the list stays in order of release |
| BufferCache.Cache.BPin | kernel/bio.c:140-144 | bpin adds one reference and changes nothing else |
| BufferCache.Cache.BUnpin | kernel/bio.c:147-151 | bunpin drops one reference and changes nothing else |
| BufferCache.MovedRing | kernel/bio.c:117-137 | The six pointer assignments of brelse turn the doubly linked ring into its move-to-front, with prev and next still inverse |
| BufferCache.OldestUnused | kernel/bio.c:77-87 | The first unused buffer met from the back of the ring is the one released longest ago |
| CacheView.ReadAgrees | kernel/bio.c:93-103 | Whether bread hits, misses or recycles, cache and disk go on presenting the same block contents, and the buffer holds them |
| CacheView.ModifyAgrees | kernel/bio.c:93-103 | Changing a held buffer changes the presented contents of its block only |
| CacheView.PinAgrees | kernel/log.c:215-235 | After log_write the block is pinned: refcnt is holders plus one, and the cache keeps it until the commit |
| CacheView.AbsorbAgrees | kernel/log.c:215-235 | log_write of a block already in the log pins nothing more |
| CacheView.UnpinAgrees | kernel/log.c:69-83 | Once disk and cache agree on a block, its pin may go without changing what callers see |
| PageTree.MakePte | kernel/vm.c:138-157 | An entry made from a frame and permissions gives both back, is valid, and is a leaf exactly when it has R, W or X |
| PageTree.PxInjective | kernel/vm.c:81-98 | The three 9-bit indices determine the virtual page below MAXVA |
| PageTree.LookupFields | kernel/vm.c:72-98 | A page number is looked up by its three 9-bit fields, highest first, and maps exactly when the entries on the way are valid |
| PageTree.PathUnique | kernel/vm.c:81-98 | No table is shared: a slot of a lowest table belongs to one page of one tree |
| PageTree.LinkTable | kernel/vm.c:81-98 | Hanging a zeroed table into an empty slot keeps the trees sound and maps nothing new |
| PageTree.MapLeaf | kernel/vm.c:138-157 | Filling an empty leaf slot changes the abstract map at one page of one tree |
| PageTree.UnmapLeaf | kernel/vm.c:163-184 | Emptying a leaf slot removes one page from the abstract map and gives an owned frame back |
| PageTree.OnePlace | kernel/vm.c:81-184 | A frame is owned by trees exactly when some tree maps it as its own, and then at exactly one virtual page of exactly one tree |
| PageTree.NewRoot | kernel/vm.c:189-197 | A zeroed page becomes the root of a tree that maps nothing |
| Vm.Memory.constructor | kernel/kalloc.c:27-40 | kinit puts every page of the range on the free list once |
| Vm.Memory.Kalloc | kernel/kalloc.c:69-82 | kalloc takes the first free page, filled with junk, or reports that none is left |
| Vm.Memory.Kfree | kernel/kalloc.c:47-63 | kfree puts a page nobody uses back on the free list; pages outside managed memory panic |
| Vm.Memory.UvmCreate | kernel/vm.c:189-197 | uvmcreate makes an empty address space from one free page |
| Vm.Memory.Walk | kernel/vm.c:81-98 | walk finds the slot of a virtual page; with alloc it adds exactly the missing tables, empty, and fails exactly when there are fewer free pages than those; it panics exactly at MAXVA |
| Vm.Memory.MapPages | kernel/vm.c:138-157 | mappages maps exactly the pages of the byte range to consecutive frames, leaves all other pages alone, and takes exactly the tables that the range lacks; on failure it has mapped a prefix and there were too few pages |
| Vm.Memory.UvmUnmap | kernel/vm.c:163-184 | uvmunmap removes exactly the range and, with do_free, frees exactly the frames the tree owned there; it panics exactly when va is unaligned or some page is not mapped |
| Vm.Memory.UvmAlloc | kernel/vm.c:218-241 | uvmalloc adds zeroed pages of its own and takes exactly those and the missing tables from the free list; it runs out of memory exactly when these are more than there are free pages, and then the mappings are as before and every page it took but new tables is free again |
| Vm.Memory.UvmDealloc | kernel/vm.c:248-259 | uvmdealloc unmaps and frees exactly the pages between the two sizes |
| PageCount.NeedBound | kernel/vm.c:72-98 | The tables that a range of pages lacks are at most one for each stretch of 512 pages and one for each of 512 times 512, and exactly those in a tree without tables |
| Vm.Memory.UvmCopy | kernel/vm.c:298-325 | uvmcopy gives the child a copy of every page with the parent's flags and takes exactly those pages and the missing tables from the free list; it fails exactly when these are more than there are free pages, and then the child is as before and every data page is free again; it panics only when the parent lacks a page or the child has it |
| Vm.Memory.FreeWalk | kernel/vm.c:264-279 | freewalk frees exactly the tables at and below a table; it panics exactly when one of them still has a leaf |
| Vm.Memory.UvmFree | kernel/vm.c:284-289 | uvmfree returns every page the tree owned and every table, once, and no other page; it fails exactly when the tree maps anything but the first pages of the size |
| Vm.Memory.ProcFreePagetable | kernel/proc.c:288-293 | proc_freepagetable unmaps trampoline and trapframe without freeing them and returns the whole address space |
| TreeFree.NoLeafMapsNothing | kernel/vm.c:264-279 | A tree maps nothing exactly when none of its tables has a leaf |
| TreeFree.FelledSlot | kernel/vm.c:264-279 | One slot of freewalk: the subtree below it is freed and the rest of the tree reads as before |
| Vm.UvmGone | kernel/vm.c:284-289 | Releasing the memory and then felling the tables frees all the tree had, and only that |
| SleepWakeup.InvStep | kernel/proc.c:768-814 | Every step of sleep, wakeup, kill, exit and the lock operations keeps: locks are held as program points say, states and channels agree with them, and a wakeup scan has no sleeper behind it |
| SleepWakeup.OtherProc | kernel/proc.c:799-814 | A step changes another process only by making it runnable, and only a wakeup on the very channel it sleeps on or a kill of it does that |
| SleepWakeup.NoLostWakeup | kernel/proc.c:768-814 | When a wakeup(chan) issued under lk has gone through the table, no process that called sleep(chan, lk) is left waiting, in any interleaving |
| SleepWakeup.WakerStays | kernel/proc.c:799-814 | A sleeper a running wakeup has not reached is woken by it or still ahead of it |
| SleepLocks.GoodStep | kernel/sleeplock.c:22-41 | Every step of acquiresleep and releasesleep keeps exclusion and a reason for every sleeper |
| SleepLocks.SleepLockSafe | kernel/sleeplock.c:22-41 | In every run a sleep-lock is marked locked exactly when some process holds it, and at most one does; nobody is asleep for it while it is unlocked and its spinlock is free |
| SleepLocks.NotStuck | kernel/sleeplock.c:22-41 | In every run, a process in the middle of acquiresleep or releasesleep can do what its code does next exactly when it waits neither for a wakeup nor for a lock that is taken |
| WaitExit.GoodStep | kernel/proc.c:49-111 | Every step of wait, exit, reparent and fork keeps the family invariant, the steps after a failed copyout in wait or wait_stat and a failed uvmcopy in fork included |
| WaitExit.ReapedGone | kernel/proc.c:58-96 | wait frees a child only when the child has left the CPU for good |
| WaitExit.HeardStep | kernel/proc.c:418-474 | Every step keeps: a parent asleep in wait with a zombie child is about to be woken, also when the step is the one that gives it the child |
| WaitFamily.NoOrphans | kernel/proc.c:418-474 | In every run from boot: whoever is somebody's parent is alive, every process but init has a parent, also as a zombie, and a slot not in use has none |
| WaitFamily.GivenAway | kernel/proc.c:418-428 | In every run from boot in which a process enters exit: when it is about to become a zombie, the children it had are init's and every other parent is as it was |
| WaitFamily.ReportedOnce | kernel/proc.c:49-96 | In every run from boot, each exit of a process is reported by wait exactly once or is still to be reported |
| WaitFamily.GaveUp | kernel/proc.c:100-104 | In every run from boot, a wait that gives up has no children or found itself killed |
| WaitProgress.NotStuck | kernel/proc.c:49-111 | In every run from boot, a process in the middle of wait, exit or fork can do what its code does next exactly when it waits neither for a wakeup nor for a lock that is taken |
| WaitExit.WaitSafe | kernel/proc.c:49-111 | In every run from boot, failing copyouts of the status and of the counters included: with wait_lock free no parent sleeps past a child's exit; wait reports no children only when there are none; a reaped child is gone |
| WaitStat.LeakExact | kernel/proc.c:77-88 | In every run from boot, a process outside wait, exit and fork holds wait_lock if and only if the copyout of the counters failed in its wait_stat |
| WaitStat.LockKept | kernel/proc.c:77-88 | From that return on, in every run, whoever moves: the process holds wait_lock and the lock of the child, no other process enters wait or exit or takes wait_lock in fork, and none asleep in wait comes back |
| WaitStat.LeakHappens | kernel/proc.c:77-88 | A run from boot that gets there: init forks, the child exits, and the copyout of its counters fails |
| Bitmap.PutBitReads | kernel/fs.c:65-103 | Setting or clearing one bit of a byte changes that bit and no other |
| Bitmap.PutBlockBit | kernel/fs.c:65-103 | Setting or clearing one bit of a bitmap block changes that bit and no other |
| Bitmap.PutBitOk | kernel/fs.c:65-103 | Changing the bit of a data block adds it to, or takes it from, the set of blocks in use |
| Files.FileSystem.BAlloc | kernel/fs.c:65-86 | balloc returns the lowest free block, marked and zeroed, touching no other data block; it panics exactly when every bit is set |
| Files.FileSystem.BFree | kernel/fs.c:90-103 | bfree clears one bit; it panics exactly when the block was free |
| BlockMap.AttachEntry | kernel/fs.c:378-405 | A fresh block in an empty indirect entry is owned by that entry; every other slot keeps its block |
| BlockMap.WriteView | kernel/fs.c:487-517 | Writing a data block changes the contents of one block of one file |
| Files.FileSystem.BMap | kernel/fs.c:378-405 | bmap returns the block that backs file block n, allocating at most it and the indirect block; no file's contents and no existing slot change; an existing block changes nothing at all; every change is logged |
| DiskInodes.InodeReads | kernel/fs.c:222-237 | An inode stored in its block reads back, and the other inodes of the block are as they were |
| DiskInodes.KindsStay | kernel/fs.h:32-39 | Storing size and addresses leaves the words with kind, device and links of every inode of the block |
| DiskInodes.StoredKeeps | kernel/fs.c:222-237 | Storing an inode changes no bit of the bitmap, no slot and no file contents |
| Files.FileSystem.IUpdate | kernel/fs.c:222-237 | iupdate logs the inode's block, and then the disk has all inodes as they are in memory, if it had the others before |
| Files.FileSystem.ITrunc | kernel/fs.c:410-437 | itrunc clears exactly the bits of the inode's blocks, each once and without panic; all other files and slots are as they were; every change is logged and the inode is on disk |
| Files.FileSystem.WriteI | kernel/fs.c:487-517 | A successful writei splices the bytes into the file at off, sets size to the maximum, leaves other files alone, makes no hole, logs every change and only blocks on the way, and stores the inode; it returns -1 exactly when off is behind the end of the file or the data would end behind byte 274432 |
| Files.FileSystem.ReadI | kernel/fs.c:456-477 | readi returns the part of the file in range, or -1 exactly when the destination has no room for all of it; it changes no contents, allocates nothing when the file has no holes, and panics only on a full disk or a size beyond the largest |
| Files.FileSystem.WriteTransaction | kernel/file.c:155-175 | A chunk, at any offset: the journal of its log_writes turns the old blocks into the new ones, in which the file is spliced and the inodes are up to date; on a file without holes it names at most MAXOPBLOCKS blocks, whatever the size of the bitmap |
| Files.FileSystem.FileWrite | kernel/file.c:135-181 | filewrite writes a prefix of the bytes in order and advances the offset by that much: all of them, or none behind the end of the file, or the chunks of three blocks that fit below the largest size; on a file without holes no transaction logs more than MAXOPBLOCKS |
| Files.FewLogged | kernel/file.c:143-153 | Four data blocks, the indirect block, the inode's block and a bitmap block for each new block: at most MAXOPBLOCKS for a file without holes, since of four data blocks the first is already there |
| FileCrash.SameFs | kernel/fs.h:8-23 | Two disks with the same home blocks have the same sound file system and the same files |
| FileCrash.CrashedWrite | kernel/file.c:155-175 | Stop the commit of a filewrite transaction after any of its disk writes, cut off any number of recoveries, let one finish: the file system on disk is sound, with the inodes stored there, and every file is as before, or the data is in its file and the others are as before |
| FileCrash.WriteThrough | kernel/file.c:155-175 | A filewrite transaction run through the log to its end makes exactly the writes of one commit, leaves the spliced file in a sound file system on the disk itself, and everything ready for the next one; a chunk that is refused writes nothing |
| FileCrash.PointOf | kernel/log.c:195-200 | Of the disk writes of a commit exactly one is a header that lists blocks: the one after the log blocks |
| FileCrash.NextChunk | kernel/file.c:155-175 | If a crash anywhere in the chunks so far leaves exactly those that have committed, then so does one anywhere in these and the next |
| FileCrash.FileWriteThrough | kernel/file.c:135-181 | A whole filewrite through the log writes the same prefix; and however it ends, stop it after any disk write, cut off any number of recoveries, let one finish, and the disk has a sound file system in which the file holds the bytes of the chunks committed by then and every other file is as before |
| Contents.SplicedFile | kernel/fs.c:487-517 | Byte-wise writing and growing the size amounts to splicing the sequence of bytes |
| Itable.Find | kernel/fs.c:243-273 | iget's scan returns an entry in use for the inode, and none exactly when there is none |
| Itable.StepInv | kernel/fs.c:196-358 | Every interleaved step of ialloc, iget of any number, idup, ilock, iunlock and iput keeps the inode table invariant |
| Itable.NeverBlocks | kernel/fs.c:333-358 | iput never waits for the lock of an inode it frees |
| Itable.HandMoves | kernel/fs.c:289-358 | Whoever has a reference can make its next step: only a lock that is taken makes a caller wait |
| Itable.GetPanics | kernel/fs.c:243-273 | iget panics exactly when the inode is not in the table and every entry is in use |
| Itable.LockPanics | kernel/fs.c:289-317 | With the entry's lock in hand, ilock panics exactly when the inode is free on disk |
| Itable.ILockPanics | kernel/fs.c:289-317 | A caller whose ilock finds the lock free sees it panic exactly when the inode is free on disk at the call |
| Itable.InodesSafe | kernel/fs.c:196-358 | In every run, whatever numbers iget is asked for: no two entries in use name one inode, whoever holds an inode locked sees what is on disk and it is allocated, and only a full table or ilock of an inode free on disk stops the machine |
| Itable.StaleName | kernel/fs.c:289-317 | ilock does panic in a run from a sound disk: an inode loses its last link and is freed, and a directory removed before still names it |
| ItableFree.FreedEmpty | kernel/fs.c:333-358 | In every run from a disk whose free inodes list no blocks that stays so: what iput frees it has truncated |
| ItableFree.FreedOnce | kernel/fs.c:196-358 | In every run an inode is freed exactly once for each time it was allocated, or is still in use |
| ItableFree.PutExact | kernel/fs.c:333-358 | iput frees the inode, with all its blocks, exactly when this was the last reference, the entry is valid and there are no links; in any case it gives up one reference and touches no other inode or entry |
| ItableLinks.LastOne | kernel/fs.c:333-358 | Where iget is asked only for linked inodes, the holder of the only reference to an inode is the only one on its number, also among allocations under way |
| ItableLinks.LinkedSafe | kernel/fs.c:196-358 | In a run that asks iget only for inodes allocated and linked at that moment, ilock never panics and only a full table stops the machine; an inode on its way out of ialloc has no links and no blocks |
| Namex.SkipElem | kernel/fs.c:600-622 | skipelem splits off the first nonempty element cut to DIRSIZ and returns a rest without leading slash, or null exactly when there is no element |
| Namex.DirLookup | kernel/fs.c:530-553 | dirlookup returns the first used entry with the name |
| Namex.DirLink | kernel/fs.c:557-583 | dirlink adds the name, leaves what the directory says of every other name, overwrites no used entry, grows only without an empty one, and refuses exactly names already there |
| Namex.References.NameX | kernel/fs.c:629-661 | namex equals folding dirlookup over the elements, all but the last for the parent, whatever the tree is at each step; it adds exactly one reference to the result and none when it fails |
| Itable.ReuseWindow | kernel/fs.c:333-358 | The window is real: a run in which ialloc takes a number, and the same entry with an outdated copy, before the iput that freed it drops its reference |
| HeapRing.InsertRing | user/umalloc.c:25-44 | Linking a block between two neighbours keeps the ring circular and in address order |
| HeapRing.JoinRing | user/umalloc.c:33-42 | Merging a block with the one it touches keeps the ring circular, ordered and disjoint |
| HeapCells.SettledCoalesced | user/umalloc.c:33-42 | After free no two free blocks touch |
| HeapCells.SettledCellsOk | user/umalloc.c:25-44 | After free every unit of the heap is still in exactly one block, free or allocated |
| HeapCells.Apart | user/umalloc.c:25-90 | Blocks, free or allocated, never overlap |
| Malloc.RequestExact | user/umalloc.c:47-61 | The byte count reaches sbrk's int parameter unchanged exactly when fewer than 2^27 headers are asked for |
| Malloc.FirstTooBig | user/umalloc.c:64-90 | On a fresh heap malloc(2^31), for which sbrk is asked for a negative count, goes wrong whatever sbrk answers |
| Malloc.Heap.FindGap | user/umalloc.c:25-32 | free's scan ends, at the neighbours the block lies between |
| Malloc.Heap.Free | user/umalloc.c:25-44 | free returns the block to a ring that is circular, ordered and coalesced; other allocated blocks and the set of heap units are unchanged |
| Malloc.Heap.MoreCore | user/umalloc.c:47-61 | morecore adds exactly the new units as free memory; it returns null, and then changes nothing, exactly when sbrk refuses a count that fits its int |
| Malloc.Heap.Take | user/umalloc.c:75-86 | An exact fit leaves the ring; a bigger block gives up its end |
| Malloc.Heap.Malloc | user/umalloc.c:64-90 | malloc ends after at most one successful morecore, made exactly when no free block fits; the new block has exactly the units asked for and is no other's; it returns null exactly when no free block fits and sbrk fails, and goes wrong exactly when none fits and 2^27 headers or more are asked for |
| ShellParser.GetToken | user/sh.c:313-355 | A token other than the end uses up text, and the end is reported exactly when only white space is left |
| ShellRoundTrip.LineOf | user/sh.c:392-406 | Parsing a printed command followed by the end or a closing parenthesis gives the command and leaves that |
| ShellRoundTrip.RoundTrip | user/sh.c:375-493 | The parser inverts a fully parenthesised printer on every command tree with writable words and at most nine arguments |
| ShellGrammar.ParserExact | user/sh.c:375-493 | A text is accepted with a result exactly when it is a sentence of the grammar with that meaning: words and redirections in any order, groups, pipelines, backgrounds and lists, with no token lost |
| ShellGrammar.Lexes | user/sh.c:309-355 | Every spelling of a row of tokens, with any white space between them that keeps them apart, is read as these tokens |
| ShellGrammar.BareRoundTrip | user/sh.c:375-493 | The parser inverts every spelling of every sentence, without parentheses beyond those of its groups |
| Shell.TokenOk | user/sh.c:313-355 | A word token is the text between its two positions, followed by something that is no part of a word |
| Shell.LineOk | user/sh.c:392-493 | Every argument and file name of a parsed command is a word of the input at its recorded place |
| Shell.Parser.GetTok | user/sh.c:313-355 | gettoken over the buffer returns the token of the text left and the text after it |
| Shell.Parser.Peeks | user/sh.c:358-367 | peek skips white space and reports whether one of the symbols follows |
| Shell.Parser.ParseRedirs | user/sh.c:422-444 | parseredirs collects the redirections in order, or fails for a missing file |
| Shell.Parser.ParseSimple | user/sh.c:463-493 | parseexec ends, with the arguments and redirections that its text begins with, which ShellGrammar.ParserExact shows to be all of them in order |
| Shell.Parser.ParseGroup | user/sh.c:447-460 | parseblock ends, with the command between the parentheses and its redirections |
| Shell.Parser.ParsePipeline | user/sh.c:409-419 | parsepipe ends, with the right-nested pipeline |
| Shell.Parser.ParseWhole | user/sh.c:392-406 | parseline ends, with the backgrounds and the right-nested list |
| Shell.Parser.NulTerminate | user/sh.c:497-540 | nulterminate puts a NUL behind every word of the command and changes no character of any word |
| Shell.Parser.ParseCommand | user/sh.c:375-389 | After parsecmd every argument and file name is a NUL-terminated string equal to its token |
| Sched.LessIsKey | kernel/proc.c:649-676 | The comparison of each policy is the order of its key; for CFSD of the exact ratio, where it exists |
| Sched.PickBest | kernel/proc.c:569-676 | The scan picks the first runnable process with the least key |
| Sched.PickUnvalued | kernel/proc.c:649-676 | Under CFSD a process that has neither run nor slept is picked exactly when it is the first runnable one; otherwise the best of the others is |
| Sched.LeastMissed | kernel/proc.c:649-676 | A table in which CFSD passes over the process with the least ratio for one that has neither run nor slept |
| Sched.ChoiceSafe | kernel/proc.c:569-676 | With any number of CPUs, a chosen process is runnable, chosen by one CPU only, the only one that CPU holds locked, and the first with the least key as the scan saw them |
| Sched.RunsOnce | kernel/proc.c:569-740 | In every run, no process runs on two CPUs; its state is RUNNING exactly while it runs on one; a chosen process runs on none |
| Sched.TakenInOrder | kernel/proc.c:569-676 | A CPU takes a process lock only at an index above every one it holds |
| Sched.NoCircle | kernel/proc.c:569-676 | In every run, among any CPUs that wait for process locks one waits for a lock that none of them holds |
| Sched.NoDeadlock | kernel/proc.c:569-676 | In every run and from any CPU, the locks waited for lead, at increasing indices, to a CPU that can move |
| VirtioDisk.Descriptors.AllocDesc | kernel/virtio_disk.c:145-154 | alloc_desc takes the lowest free descriptor |
| VirtioDisk.Descriptors.FreeDesc | kernel/virtio_disk.c:158-170 | free_desc frees one descriptor; it panics exactly when it is out of range or free already |
| VirtioDisk.Descriptors.Alloc3Desc | kernel/virtio_disk.c:190-201 | alloc3_desc takes three descriptors or none |
| VirtioDisk.Descriptors.FreeAll | kernel/virtio_disk.c:174-185 | free_chain follows the chain to its end and frees it |
| VirtioDisk.FreeThree | kernel/virtio_disk.c:174-185 | Freeing a chain of three frees these three and nothing else |
| VirtioRuns.FewRequests | kernel/virtio_disk.c:204-280 | At most two requests are under way: descriptors in use are three times the requests |
| VirtioRuns.NoOverwrite | kernel/virtio_disk.c:254-262 | The avail slot being filled holds no entry the device has yet to read, also when 16-bit indices wrap |
| VirtioRuns.CompleteFacts | kernel/virtio_disk.c:222-252 | The chain the device follows is header, data and status of the request it was given |
| VirtioRuns.HandleFacts | kernel/virtio_disk.c:283-315 | The handler finds the status clear and releases the buffer of the request that used the chain |
| VirtioRuns.StepInv | kernel/virtio_disk.c:204-315 | No step of request, device, handler or of a caller that changes an idle buffer panics, and each keeps the descriptors split into free ones and disjoint chains |
| VirtioRuns.DiskSafe | kernel/virtio_disk.c:204-315 | In every run: no panic, no overwritten slot, and every completion releases exactly its own buffer |
| VirtioRuns.Transferred | kernel/virtio_disk.c:204-280 | In every run, when virtio_disk_rw returns, a write has put into the sector what the buffer held at the call and a read has put into the buffer what the sector held, whatever else went on |
| VirtioRuns.NeverStuck | kernel/virtio_disk.c:204-315 | In every run, whatever a request waits for next can be done: published, fetched, completed, handled or finished |
| VirtioRuns.FreeUnlinked | kernel/virtio_disk.c:269-280 | In every run a free descriptor is linked to no buffer, and the head of a request to its own |
| Regex.MatchHere | user/grep.c:83-94 | matchhere is true exactly when some prefix of the text, all of it after $, is spelled by the pattern |
| Regex.MatchStar | user/grep.c:97-104 | matchstar is true exactly when the rest matches after some run of the starred character |
| Regex.Match | user/grep.c:71-80 | match is true exactly when some substring, a prefix after ^, is spelled by the pattern |
| Grep.Scan | user/grep.c:18-29 | The inner loop prints the matching lines that strchr finds in the buffer, in order, and leaves what follows them |
| Grep.Grep | user/grep.c:11-34 | On any input, however read splits it, the output is the matching lines in order, as far as the first line that does not fit the buffer or has a NUL byte in it |
| Grep.AllLines | user/grep.c:11-34 | If every line fits and has no NUL byte, that is the whole input |
| Grep.Missed | user/grep.c:11-34 | The matching lines of the input are those printed and, after them, those from the first line on that does not fit or has a NUL byte |
| Grep.PrintsAll | user/grep.c:11-34 | grep prints all the matching lines of an input, for every pattern, exactly when each of its lines has at most 1022 bytes and no NUL |
| Grep.LostLine | user/grep.c:11-34 | A line that does not fit, or has a NUL byte, is lost even if it matches |
| Grep.TooLong | user/grep.c:11-34 | So it goes with a line of 1023 letters |
| Grep.Arrives | user/grep.c:16-33 | Lines that come in pieces: keeping what follows the last line found loses and repeats nothing |
| Pipe.Ring.Write | kernel/pipe.c:77-103 | pipewrite puts in the next bytes of its data in order until done, full, refused or faulted, also when a kill comes between two bytes; full means PIPESIZE bytes are waiting, also when counters wrap |
| Pipe.Ring.Fetch | kernel/pipe.c:106-130 | piperead takes out the oldest bytes in order; it returns short only when the pipe is empty or copyout fails, which loses one byte |
| Pipe.Ring.Close | kernel/pipe.c:59-74 | pipeclose closes one end; the pipe is freed exactly when both are closed |
| Pipe.FullTest | kernel/pipe.c:84-91 | The 32-bit test for a full pipe is exact for every number of bytes ever written |

## Left out

- Files.FileSystem.WriteI: copies from user memory succeed; a failed either_copyin leaves a partly changed buffer that is not logged.
- Files.FileSystem.FileWrite: pipes and devices are not dispatched to; for a file with holes, which none of these operations makes, the bound is one block more once the bitmap has five blocks, and no run is given that reaches it.
- FileCrash.WriteThrough: the file has no holes or the bitmap at most four blocks, as FileWrite's bound asks; the log_writes of a transaction reach the log in their order but after the file code has made them all, with nobody else in the log.
- Logging.Log.Commit: buffers are held only between the steps of the log's callers; readers that run during a commit are not interleaved with it.
- Logging.Log.BeginOp: a turn that cannot start returns instead of sleeping; the waiting itself is the subject of SleepWakeup.
- Vm.Memory.UvmDealloc: sizes are unbounded; the cast of the page count to int is not modelled.
- Vm.Memory.UvmUnmap: with do_free, the pages mapped in the range are the tree's own, as for every caller; freeing a frame that is in use elsewhere would break kalloc's promise to others.
- Vm.Memory.MapPages: addresses are unbounded, without 64-bit wrap-around; sizes are positive and permissions name R, W or X, as for every caller.
- WaitStat.LockKept: a process that has returned with its locks does nothing more; the panic in sched at its next yield is not modelled.
- Sched.RunsOnce: a running process takes its own lock only to leave the CPU; what system calls do under it is a step of other kernel code.
- Sched.LessIsKey: products are unbounded; 32-bit overflow of rutime times priority is not modelled.
- Malloc.Heap.Malloc: sbrk returns addresses aligned to a header, above those it returned before; after a Broken request nothing is said.
- ItableLinks.LinkedSafe: that directories name only linked inodes is a hypothesis on the run; which directory operations keep to it is not modelled.
- Namex.References.NameX: ilock's waiting and the freeing that iput may do are in Itable; here an inode is what a function of time says it is.
- Shell.Parser.ParseSimple: an execcmd that is filled after redircmds already point to it is built at the end instead; fixed-size argv arrays are sequences with the same limit.
- VirtioRuns.StepInv: memory fences and register accesses; a buffer's data is one value.
- Pipe.Ring.Write: sleeping and waking of readers and writers; the turns between sleeps are modelled.
- The DEFAULT scheduling policy, time accounting (update_clock_ticks) and average burst times: easy members.
- exec and ELF loading, traps, system call arguments, console, UART, PLIC and boot: hardware or input and output.
- Link counts over the whole tree: creating entries in a directory already removed makes the simple count false.
- copyin, copyout and copyinstr: loops over walkaddr that add no harder property than walk.
- Shell execution and the other user programs: process and file input and output.

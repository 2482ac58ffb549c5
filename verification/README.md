# xv6 verification

A Dafny model of the parts of xv6 for RISC-V whose correctness does not show in any one
function, with proofs of what they promise.

- **Log and buffer cache** (`LogDisk`, `LogMachine`, `LogInvariant`, `LogTheorems`, `LogFull`, `LogAbandon`,
  `LogCommitted`, `LogCode`).  Concurrent operations share one redo log.  The machine has one action for each section
  under a lock and each single-block disk write, with a crash between any two, also while recovering.
  The code of kernel/log.c and kernel/bio.c is proved to take only steps of the machine.
- **Sleep locks** (`SleepLock`, `SleepLockProofs`, `SleepLockCalls`) and **fork, exit, wait** (`ExitWait`,
  `ExitWaitProofs`, `ExitWaitKin`, `ExitWaitTheorems`, `ExitWaitCalls`, `ExitWaitProgress`).  Machines over
  lock-level steps of kernel/proc.c and kernel/sleeplock.c, with theorems about every reachable state of
  every schedule, about what each call has done when it comes back, and that it comes back.
- **Files** (`FsFormat`, `FsModel`, `FsProofs`, `FsInode`, `FsContent`, `FsLogged`, `FsCode`, `FileCode`,
  `FsTight`, `FileTight`, `FsTrunc`) and **directories** (`DirModel`, `DirCode`).  Bitmap bits, the block map and
  truncation keep block ownership disjoint; readi and writei refine a byte sequence; the blocks a
  write logs are known exactly; a directory refines a map.
- **Files across crashes** (`FsDurable`, `FsDurableRun`).  The log's runs and the file system's states
  joined, with a run that shows it.
- **Page tables and frames** (`PageModel`, `PageProofs`, `PageChange`, `PageNeed`, `VmCode`, `UvmCode`,
  `FreeCode`, `ProcMemory`, `PageTheorems`).  Three-level tables in memory refine a map that the
  hardware's walk sees; the frames that mapping, growing and copying need are counted exactly; failed
  growth and failed copies roll back; frames are conserved.
- **The user-level allocator** (`HeapModel`, `HeapProofs`, `HeapCode`).
- **Virtio descriptors and rings** (`VirtioModel`, `VirtioProofs`, `VirtioCode`).
- **The shell's parser** (`ShellModel`, `ShellProofs`, `ShellLex`, `ShellSpacing`, `ShellGrammar`, `ShellCode`,
  `ShellBuffer`) and **the pattern matcher of grep** (`Grep`).
- **Pipes** (`PipeCode`).

`Sets` holds what several of these say about the sizes of sets.

Code that updates state in place is a class with methods proved against a specification; what
runs concurrently is a state machine.  Integer widths are written out where they wrap: ring
indices of 16 bits, pipe counters of 32 bits, directory inode numbers of 16 bits.  Process ids are not
bounded here, while nextpid is an int of 32 bits (kernel/proc.c:15): that no two processes share an id
and no id is reaped twice holds as long as fewer than 2^32 processes have been made.

Four promises do not hold in full.

- log_write tests whether the log is full before it looks for an entry that absorbs the write, so
  an operation that has kept to its budget can meet the panic when it writes a block that is
  already logged: `LogFull.AbsorbingWriteCanPanic` reaches such a state, `LogTheorems.PanicsIffFull`
  says exactly when it happens, and `LogTheorems.NoPanicWithinBudget` that unspent budget rules it out.
- A commit is to write what log_write was called for.  When either_copyin fails in the middle of a
  block, writei releases the changed buffer without logging it (kernel/fs.c:545-548); if the log lists
  that block already, the change is committed all the same.  `LogAbandon.SlotCanHoldAbandonedBytes`
  reaches such a state; `LogTheorems.SlotGetsLoggedBytes` and `LogTheorems.LoggedUnlessAbandoned` say
  exactly when the logged bytes are the ones written.  Crash atomicity holds over these runs too.
- An operation is to log at most MAXOPBLOCKS blocks.  itrunc logs every block of the free map that
  holds a bit of the file's blocks, and the inode's: it keeps to that if and only if the former are
  fewer than MAXOPBLOCKS (`FsLogged.TruncCost`), as on every disk with fewer than MAXOPBLOCKS blocks of
  free map; `FsTrunc.TruncOverflowsLog` has a disk and a file that need more.
- Every frame is to be either free or in use.  uvmunmap with do_free comes to its end and keeps that if
  and only if the range ends below MAXVA and no page of it above user memory is mapped
  (`VmCode.Vm.Uvmunmap`); else it panics, or frees a frame in use (`VmCode.InUseIsUndivided`).
  `ProcMemory.TrapframeFreed` is a size for which it does: one page beyond the trapframe, as sys_sbrk's
  lazy path allows (kernel/sysproc.c:54-61).

`dafny verify dfyconfig.toml` checks the whole project.

## Model

| member | source | states |
|---|---|---|
| `LogTheorems.CrashAtomicity` | kernel/log.c:66-124 | For a crash in any state of any run, and any number of further crashes while recovering, the disk keeps meaning the contents of the last committed header write, and when recovery is over every home block holds them. |
| `LogTheorems.CommitIsAtomic` | kernel/log.c:179-204 | In every state of a commit the disk means the whole contents from before the transaction until the header write, and all of the transaction from then on. |
| `LogTheorems.DuringCommit` | kernel/log.c:195-204 | While a commit runs, what it makes of the disk stands still, and the committed contents change at the header write alone. |
| `LogTheorems.StableIsLastCommit` | kernel/log.c:103-115 | What counts as committed is exactly what the commit made of the disk whose non-empty header reached it last. |
| `LogTheorems.LogicalInCommit` | kernel/log.c:148-176 | While a commit runs no operation does, and no action changes what the commit makes of the disk. |
| `LogTheorems.LoggedContents` | kernel/log.c:215-236 | Since recovery the remembered bytes of a block are those its last log_write found in its buffer, and the remembered abandoned change is the last one released unlogged since then. |
| `LogTheorems.LoggedUnlessAbandoned` | kernel/fs.c:545-548 | What a commit would make of a listed block is what its last log_write found, if and only if no change to it was abandoned since, or one that left the same bytes. |
| `LogTheorems.LogicalContents` | kernel/log.c:215-236 | Between crashes what a commit would make of a block is changed by log_write, and by abandoned changes to listed blocks, and by nothing else. |
| `LogTheorems.NoPanicWithinBudget` | kernel/log.c:215-236 | In every state of every run, an operation with unspent budget does not meet a log_write panic, and there is a slot for its next block. |
| `LogTheorems.PanicsIffFull` | kernel/log.c:220-224 | In every state of every run, log_write inside an operation panics if and only if the log is full, and then every running operation has used up its budget. |
| `LogTheorems.ReservationsFit` | kernel/log.c:127-144 | In every reachable state the listed blocks plus all unspent reservations are at most LOGBLOCKS, and committing implies that outstanding is 0. |
| `LogTheorems.OneBufferPerBlock` | kernel/bio.c:58-89 | In every reachable state at most one buffer holds any block. |
| `LogTheorems.EndOpNeverPanics` | kernel/log.c:147-156 | In every state of every run, an operation that ends finds no commit under way. |
| `LogTheorems.EndOpCommits` | kernel/log.c:147-176 | When the last operation's end_op is over, in any run without a crash on the way, everything that was logged is on its home block, the log is empty and operations are let in. |
| `LogTheorems.NoLostWakeup` | kernel/log.c:127-176 | Whenever a step of a run makes room for a thread that had to sleep in begin_op, that step is one at which end_op wakes the sleepers. |
| `LogTheorems.PinnedStays` | kernel/bio.c:58-90 | From the log_write that lists a block until install_trans has written it home, in every run, the block keeps its buffer, valid and referenced, whatever happens short of a crash. |
| `LogTheorems.SlotGetsLoggedBytes` | kernel/log.c:179-192 | In every run write_log puts the last logged bytes into the slot if and only if no change to that block was abandoned since its last log_write, or one that left the same bytes; and up to the header write no home block on disk has changed. |
| `LogAbandon.SlotCanHoldAbandonedBytes` | kernel/fs.c:545-548 | A reachable state in which write_log is about to write bytes that were never logged: a change to a listed block was released without log_write. |
| `LogTheorems.PinsDropped` | kernel/log.c:66-84 | In every run, after a commit no pin is left: reference counts are the users. |
| `LogTheorems.RunInv` | kernel/log.c:127-176 | Every state of every interleaving, with changes released unlogged and crashes anywhere, satisfies the invariant: the listed blocks plus all unspent reservations fit the log, committing means no operation is outstanding, a block has at most one buffer, pins and contents agree. |
| `LogTheorems.StepKeeps` | kernel/log.c:127-236 | Each lock-level action, disk write and crash keeps that invariant. |
| `LogInvariant.AppendKeeps` | kernel/log.c:226-234 | A new log entry takes the next slot, pins the buffer and keeps the invariant. |
| `LogInvariant.AbandonKeeps` | kernel/fs.c:545-548 | Releasing a changed buffer unlogged keeps the invariant: a listed block takes the change over, the buffer of another one strays until it is logged or recycled. |
| `LogInvariant.CommitHeadKeeps` | kernel/log.c:103-115 | The header write turns what the commit makes of the disk into the committed contents. |
| `LogInvariant.WriteHomeKeeps` | kernel/log.c:66-84 | Installing a block, in a commit or in recovery, does not change what the disk means. |
| `LogInvariant.BgetKeeps` | kernel/bio.c:58-90 | bget keeps the invariant, and a buffer it recycles is not the pinned buffer of any listed block. |
| `LogInvariant.CrashKeeps` | kernel/log.c:53-63 | After a crash in any state the log on disk can be followed and means the committed contents. |
| `LogFull.AbsorbingWriteCanPanic` | kernel/log.c:220-229 | A reachable state, with every operation within its budget, in which log_write of a block that the log already lists panics: the size test comes before absorption. |
| `LogFull.FilledReachable` | kernel/log.c:127-144 | Three operations of ten blocks each fill the log in a run of the machine. |
| `LogCommitted.CommittedRun` | kernel/log.c:127-236 | A run of the machine through an operation that changes and logs one block, its commit up to the header write, a crash, and recovery up to its end. |
| `LogDisk.ReplayIsRecovery` | kernel/log.c:66-84 | Copying the slots home one by one gives each home block the contents of the entry that lists it. |
| `LogDisk.HeaderRoundTrip` | kernel/log.c:86-115 | The header block that write_head fills is read back by read_head as the same list. |
| `LogCode.LogCache.constructor` | kernel/bio.c:36-53 | Power-on over a disk whose log can be followed, with an empty cache. |
| `LogCode.LogCache.Binit` | kernel/bio.c:36-53 | The list holds each buffer once, the last inserted first. |
| `LogCode.LogCache.Lookup` | kernel/bio.c:66-74 | A buffer that holds the block, or the knowledge that none does. |
| `LogCode.LogCache.Victim` | kernel/bio.c:77-87 | Of the unused buffers the least recently released one. |
| `LogCode.LogCache.Reference` | kernel/bio.c:63-89 | bget's section under bcache.lock is the machine's step, on the cached buffer or on the least recently released unused one. |
| `LogCode.LogCache.Bget` | kernel/bio.c:58-90 | The block's only buffer, locked, with one more reference. |
| `LogCode.LogCache.Bread` | kernel/bio.c:92-103 | The block's buffer, locked and valid, everything else in the cache as before. |
| `LogCode.LogCache.Bwrite` | kernel/bio.c:106-112 | One disk block becomes the buffer's contents, as one of the four writes of commit and recovery. |
| `LogCode.LogCache.Brelse` | kernel/bio.c:116-137 | The buffer is unlocked, its change abandoned if it was not logged, and dereferenced; when unused it goes to the front of the list and is stamped as released now; else list and stamps are as before. |
| `LogCode.LogCache.MoveToFront` | kernel/bio.c:125-134 | The list stays ordered by time of release, with this buffer first and stamped with the present time, and no other stamp changed. |
| `LogCode.MoveKeepsRecency` | kernel/bio.c:125-134 | Moving an entry to the front and stamping it keeps the list in order of release. |
| `LogCode.LogCache.Bunpin` | kernel/bio.c:146-151 | One reference less on the pinned buffer, as the machine's unpin. |
| `LogCode.LogCache.TryBeginOp` | kernel/log.c:127-144 | Admits the operation if and only if no commit runs and ten blocks for it and each outstanding one, beside those listed, fit the thirty of the log. |
| `LogCode.LogCache.Absorber` | kernel/log.c:226-229 | The entry that lists the block, or the end of the list exactly when none does. |
| `LogCode.LogCache.LogWrite` | kernel/log.c:215-236 | Absorbs into the listed entry, or appends an entry and pins, as the machine does. |
| `LogCode.LogCache.AddEntry` | kernel/log.c:230-234 | The new entry and the pin are the machine's append. |
| `LogCode.LogCache.EndOp` | kernel/log.c:147-166 | One operation less; the last one out commits, any other one wakes the threads that wait in begin_op. |
| `LogCode.LogCache.EndCommit` | kernel/log.c:168-176 | After the commit new operations are let in again, and the threads that wait in begin_op are woken. |
| `LogCode.LogCache.EndOperation` | kernel/log.c:147-176 | The whole of end_op: the last operation out leaves everything logged at home and the log empty, any other one leaves disk and log alone; waiting threads are woken either way. |
| `LogCode.LogCache.WriteLogBlock` | kernel/log.c:184-191 | One listed block is copied to its slot on disk. |
| `LogCode.LogCache.WriteLog` | kernel/log.c:179-192 | Every listed block is copied to its slot. |
| `LogCode.LogCache.FillHeader` | kernel/log.c:103-115 | The header block encodes the list. |
| `LogCode.LogCache.WriteHead` | kernel/log.c:103-115 | Writes the list as the header: the commit point, or the erasure of the transaction. |
| `LogCode.LogCache.InstallBlock` | kernel/log.c:71-83 | One slot is copied home, and its pin dropped unless recovering. |
| `LogCode.LogCache.InstallTrans` | kernel/log.c:66-84 | Every listed block is installed. |
| `LogCode.LogCache.Commit` | kernel/log.c:194-204 | Afterwards the logged contents are home, the log is empty and no pin is left; every disk image on the way is all or nothing. |
| `LogCode.CommitLeavesNoGap` | kernel/log.c:194-204 | Every disk image since the start of a commit means the contents before or after the transaction, and nothing in between. |
| `LogCode.LogCache.LoadHeader` | kernel/log.c:86-100 | The list in memory becomes the one in the header. |
| `LogCode.LogCache.ReadHead` | kernel/log.c:86-100 | Recovery knows exactly the list on disk. |
| `LogCode.LogCache.RecoverFromLog` | kernel/log.c:117-124 | Every home block ends up with what the disk meant before recovery. |
| `LogCode.RecoveryDone` | kernel/log.c:117-124 | When recovery is over, home blocks are what the disk meant at any state since the crash. |
| `SleepLockProofs.RunInv` | kernel/proc.c:539-584 | Every state of every schedule of acquiresleep, releasesleep, sleep, wakeup and the scheduler keeps the invariant. |
| `SleepLockProofs.MutualExclusion` | kernel/sleeplock.c:21-41 | A sleep lock is held by at most one process, and exactly when locked is set. |
| `SleepLockProofs.SleeperHasWaker` | kernel/proc.c:539-584 | While a process sleeps on a free sleep lock, some waker is in mid-scan and has not passed that process: no wakeup is lost. |
| `SleepLockProofs.FreeLockHasNoSleepers` | kernel/sleeplock.c:33-41 | A free sleep lock whose inner lock is free has no sleepers. |
| `SleepLockProofs.LookKeeps` | kernel/proc.c:570-584 | One visit of wakeup's scan keeps the invariant and loses no sleeper. |
| `SleepLockProofs.SleepKeeps` | kernel/proc.c:539-566 | Going to sleep after the inner lock is released, and coming back, keeps the invariant, because p->lock is held by then. |
| `SleepLockProofs.HandOverKeeps` | kernel/proc.c:544-552 | sleep takes p->lock before it releases the inner lock, which keeps the invariant. |
| `SleepLockProofs.ChangeWakes` | kernel/sleeplock.c:21-41 | No sleeper is lost by a step in which whoever starts to wait finds the lock taken, whoever frees it starts a scan, and a scan passes only a process it has woken or itself. |
| `SleepLockCalls.Released` | kernel/sleeplock.c:33-41 | In every run, when a process returns from releasesleep it has given up this lock and no other, and in between the lock has been free. |
| `SleepLockCalls.Acquired` | kernel/sleeplock.c:21-31 | In every run, when a process returns from acquiresleep it has this lock beside what it held, and it took it in a state in which the lock was free. |
| `SleepLockCalls.WokenByChannel` | kernel/proc.c:570-584 | In every run a sleeper becomes runnable if and only if it is killed or a wakeup of the channel it sleeps on passes it. |
| `SleepLockCalls.AcquireReturns` | kernel/sleeplock.c:21-31 | With lock and inner lock free, acquiresleep comes back with the lock in two steps. |
| `SleepLockCalls.WokenAcquires` | kernel/proc.c:555-566 | A woken process that is scheduled goes back and takes the lock if it is free. |
| `SleepLockCalls.ScanReturns` | kernel/proc.c:570-584 | wakeup's scan comes to its end, for any number of processes, when no process lock is held. |
| `SleepLockCalls.ReleaseReturns` | kernel/sleeplock.c:33-41 | releasesleep comes back when no other lock holds it up, with the lock free and nobody left asleep on it. |
| `ExitWaitTheorems.RunInv` | kernel/proc.c:256-412 | Every state of every interleaving of kfork, kexit, kwait, sleep, wakeup and scheduling keeps the invariant. |
| `ExitWaitProofs.WakeElsewhereKeeps` | kernel/proc.c:570-584 | Waking a process from a sleep that has nothing to do with wait keeps the invariant. |
| `ExitWaitTheorems.ParentsAlive` | kernel/proc.c:307-318 | Whoever is somebody's parent is neither unused nor a zombie. |
| `ExitWaitTheorems.ReapedOnce` | kernel/proc.c:367-412 | A reaped child has exited for good, was not reaped before, and is reported with its own pid and the status it exited with. |
| `ExitWaitTheorems.NeverReapedTwice` | kernel/proc.c:367-412 | Two reaps in a run never report the same pid. |
| `ExitWaitTheorems.ReapedForever` | kernel/proc.c:384-398 | What a reap reported is never reported differently later. |
| `ExitWaitTheorems.ReapedStep` | kernel/proc.c:384-398 | Only a reap adds to what was reported. |
| `ExitWaitTheorems.ReapedRecord` | kernel/proc.c:384-398 | No step takes back or changes what was reported. |
| `ExitWaitTheorems.NoMissedExit` | kernel/proc.c:323-361 | While wait_lock is free, no process sleeps in wait although a child of it is a zombie. |
| `ExitWaitCalls.ScanAnswers` | kernel/proc.c:376-410 | In every state of the invariant, a step of wait's scan answers -1 if and only if the scan is over and the process is killed or has no child, or a child that has exited was found and the copy out failed; it reaps if and only if one was found and the copy succeeded; it goes to sleep if and only if the scan is over with a child and not killed. |
| `ExitWaitCalls.WaitReturns` | kernel/proc.c:367-412 | In every run, when a process comes back from wait it has reaped a child of its own; or it was killed, or has no child; or a child of its own has exited and its status could not be copied out. |
| `ExitWaitCalls.ForkReturns` | kernel/proc.c:256-302 | In every run, when a process comes back from fork the new process can run, is its child and has the next pid; or memory ran out and the entry is free again. |
| `ExitWaitCalls.ExitReported` | kernel/proc.c:323-361 | In every run a process that has called exit never comes back from it, and what is reported of it, if anything ever is, is the status exit was called with. |
| `ExitWaitCalls.ChildKept` | kernel/proc.c:307-318 | In every run a child stays its parent's until the parent hands it over to init while exiting, or reaps it. |
| `ExitWaitCalls.WokenByExit` | kernel/proc.c:307-361 | In every run a process asleep in wait becomes runnable if and only if it is killed, a child of its own exits and passes it, or it is init and adopts. |
| `ExitWaitCalls.KilledByKill` | kernel/proc.c:590-616 | In every run a process that exists is killed after a step if and only if it was before or the step kills it; setkilled, on a process that runs, is that step too. |
| `ExitWaitProgress.WaitFinds` | kernel/proc.c:376-398 | A wait that no lock holds up finds a child that has exited, if there is one, and reaps it. |
| `ExitWaitProgress.ExitEnds` | kernel/proc.c:323-361 | An exit that no lock holds up makes the process a zombie and lets wait_lock go. |
| `ExitWaitProgress.ForkEnds` | kernel/proc.c:256-302 | A fork that has its memory and is not held up comes back with a child that can run. |
| `ExitWaitKin.ExitMarkKeeps` | kernel/proc.c:345-361 | Becoming a zombie, after the children were reparented and the parent woken, keeps the invariant. |
| `ExitWaitKin.ReapKeeps` | kernel/proc.c:384-398 | Freeing the reaped child keeps the invariant. |
| `ExitWaitKin.AdoptKeeps` | kernel/proc.c:307-318 | Handing a child over to init keeps the invariant. |
| `ExitWaitKin.ForkSetKeeps` | kernel/proc.c:292-296 | Setting the child's parent keeps the invariant, though the child's lock was dropped before. |
| `ExitWaitKin.ChangeWaits` | kernel/proc.c:323-361 | No exit is missed by a step in which nobody starts to wait and whoever gets a zombie child does not wait, or is init and about to be woken. |
| `FsFormat.MarkedBits` | kernel/fs.c:76-78 | Marking sets this one bit of the bitmap block and no other. |
| `FsFormat.ClearedBits` | kernel/fs.c:99-103 | Clearing clears this one bit and no other. |
| `FsFormat.WithWordAt` | kernel/fs.c:431-437 | Writing an entry of an indirect block changes that entry and no other. |
| `FsModel.OwnedApart` | kernel/fs.c:405-444 | Blocks reachable from all inodes, direct, indirect and through indirect blocks, are pairwise distinct and marked used. |
| `FsProofs.Conservation` | kernel/fs.c:66-106 | Free, owned and metadata blocks together are the disk. |
| `FsProofs.AllocInInode` | kernel/fs.c:411-429 | A fresh block stored in the inode keeps ownership in order. |
| `FsProofs.AllocInIndirect` | kernel/fs.c:432-438 | A fresh block stored in the indirect block keeps ownership in order. |
| `FsProofs.TruncatedKeeps` | kernel/fs.c:447-476 | After all blocks of an inode are freed and its addresses cleared, ownership is in order. |
| `FsCode.FileSys.constructor` | mkfs/mkfs.c:96-116 | A disk formatted but without files yet, just its metadata marked used and all inodes empty, is in order and owns nothing. |
| `FsCode.FileSys.FirstFree` | kernel/fs.c:66-89 | The first block whose bit is clear, or the disk size when there is none. |
| `FsCode.FileSys.Balloc` | kernel/fs.c:66-89 | The first free block, now marked and zeroed, with all other bits and data as before; 0 exactly when the disk is full. |
| `FsCode.FileSys.Bzero` | kernel/fs.c:51-61 | The block is zero and nothing else changed. |
| `FsCode.FileSys.Bfree` | kernel/fs.c:92-106 | This bit is clear and no other changed; callers are proved never to free a free block. |
| `FsCode.FileSys.AllocAddr` | kernel/fs.c:411-429 | A fresh zeroed block in an empty slot of the inode, owned from there. |
| `FsCode.FileSys.AllocEntry` | kernel/fs.c:430-439 | A fresh zeroed block in an empty entry of the indirect block, owned from there. |
| `FsCode.FileSys.Bmap` | kernel/fs.c:405-444 | The block at this place; a new one is fresh, zeroed and owned, every other mapping stays, and 0 means that the disk is full. |
| `FsCode.FileSys.BmapIndirect` | kernel/fs.c:420-441 | The same through the indirect block, which may itself be new. |
| `FsCode.FileSys.Iupdate` | kernel/fs.c:226-243 | Read back from its inode block, this inode is the one in memory; every other inode on disk reads as before, and no block beside the inode's own changed. |
| `FsInode.PutDinode` | kernel/fs.c:232-240 | The fields stored at one place of an inode block read back as that inode; the other fifteen inodes of the block read as before. |
| `FsInode.InodeReplaced` | kernel/fs.h:41-45 | With one inode of one block replaced, every inode of the disk but that one reads as before. |
| `FsInode.InodeWriteKeeps` | kernel/fs.c:226-243 | Writing an inode block changes no bit of the free map, no stored block number and no ownership. |
| `FsCode.FileSys.FreeDirect` | kernel/fs.c:455-460 | The blocks owned at direct places are free, all else as before. |
| `FsCode.FileSys.FreeEntries` | kernel/fs.c:463-468 | The blocks owned through the indirect block are free, all else as before. |
| `FsCode.FileSys.FreeIndirect` | kernel/fs.c:462-472 | Those blocks and the indirect block are free. |
| `FsCode.FileSys.Itrunc` | kernel/fs.c:447-476 | Frees exactly the blocks that the inode owned; the inode has no addresses and size 0 and keeps its type, device numbers and links, in memory and on disk; other inodes and files are as before; the blocks logged are exactly those of the free map with a bit of the file's blocks, and the inode's. |
| `FsLogged.TruncCost` | kernel/fs.c:447-476 | A truncation logs one block more than there are blocks of the free map with a bit of the file's, and so at most one more than the free map has blocks. |
| `FsTrunc.TruncOverflowsLog` | kernel/param.h:13 | On a consistent disk with ten blocks of free map, truncating a file with a block under each logs more than MAXOPBLOCKS blocks. |
| `FsTrunc.SpreadOwned` | kernel/fs.c:405-444 | The disk of that truncation has its blocks owned in order, and the file all its blocks. |
| `FsCode.FileSys.ReadChunk` | kernel/fs.c:505-517 | These bytes of the file. |
| `FsCode.FileSys.Readi` | kernel/fs.c:494-519 | Exactly the requested slice of the file's bytes up to its size, or as much of it as could be copied out. |
| `FsCode.FileSys.WriteChunk` | kernel/fs.c:540-550 | One block's share of the data, without disturbing what was written; logged is exactly what the write calls for so far, and a failed copy leaves just that block changed and unlogged. |
| `FsCode.FileSys.WriteLoop` | kernel/fs.c:539-551 | The loop stores a prefix of the data and stops early only for an unreadable source or a full disk. |
| `FsCode.FileSys.Writei` | kernel/fs.c:528-562 | The file's bytes become the old ones with the written ones spliced in at off, the size the larger of old size and end of write, and type, device numbers and links stay; other inodes and files are as before; the blocks logged are exactly the data blocks written, the fresh blocks, their bitmap blocks, the indirect block if an entry was stored in it, and the inode's; no other block changed but one whose copy failed. |
| `FsLogged.CostBound` | kernel/fs.c:521-562 | That exact set has at most two blocks for each file block the write touches, and one more or two. |
| `FsContent.WrittenContent` | kernel/fs.c:528-562 | Block writes add up to one splice of the byte sequence. |
| `FsContent.SplicedReads` | kernel/fs.c:494-562 | Reading after a write gives the written stretch and, around it, the old bytes. |
| `FsContent.SplicedTwice` | kernel/file.c:149-172 | Two adjacent writes are one write of both stretches. |
| `FsContent.MetadataContent` | kernel/fs.c:447-476 | A change to metadata blocks alone, as in truncation and iupdate, changes no file's bytes. |
| `FileCode.ChunkFits` | kernel/file.c:149-160 | One chunk logs at most MAXOPBLOCKS blocks wherever it starts. |
| `FileCode.LargestChunk` | kernel/file.c:149-156 | The bound on what a write logs is within MAXOPBLOCKS at every offset if and only if the write is no longer than a chunk. |
| `FileTight.ChunkFillsLog` | kernel/file.c:149-156 | The bound is attained: on a consistent disk with one free block under each of four bitmap blocks, a chunk appended at 9 * BSIZE + 1 is written in full and logs exactly MAXOPBLOCKS distinct blocks. |
| `FileTight.LongerOverflowsLog` | kernel/file.c:149-156 | And the chunk cannot be longer: on a consistent disk any longer append at 12 * BSIZE logs more than MAXOPBLOCKS blocks. |
| `FsTight.TightOwned` | kernel/fs.c:66-89 | The disk of these two writes, full but for one block under each bitmap block, has its blocks owned in order. |
| `FsTight.TightFilled` | kernel/fs.c:405-444 | And every file on it has all its blocks. |
| `FileCode.File.WriteSome` | kernel/file.c:158-165 | One transaction of filewrite: content spliced, offset advanced, at most MAXOPBLOCKS distinct blocks logged. |
| `FileCode.File.FileWrite` | kernel/file.c:135-179 | A long write is the splice of its whole prefix; n is returned exactly when all of it was written, every transaction fits the log, and other inodes are as before. |
| `FsDurable.FilesAfterCrash` | kernel/log.c:10-24 | Crash at any step of a run in which the file system does one operation after another: after recovery the disk holds the file system as of the operation whose commit was the last to write its header, no operation in part and none that was committed missing. |
| `FsDurable.FileAfterCrash` | kernel/log.c:10-24 | Hence every inode and every file's bytes, read from the disk after recovery, are those after a prefix of the operations: up to the one committed last. |
| `FsDurable.FilesRead` | kernel/fs.c:304-316 | Read from such a disk, every inode and every file's bytes are those of that moment. |
| `FsDurable.OperationHolds` | kernel/log.c:215-236 | If what an operation logs ends up as it left it and it changes nothing else, what a commit would make of the disk follows the file system. |
| `FsDurable.LoggedIsOperation` | kernel/fs.c:528-562 | An operation that logs every block it changes, as writei is proved to, is of that kind once each logged block is put into the log as it was left. |
| `FsDurableRun.DurableRun` | kernel/log.c:10-24 | For any two file systems in order that differ in one block there is a run in which an operation makes the one the other, commits, and the machine crashes and recovers, and which meets all that is asked of a history. |
| `FsDurableRun.ChangeSurvives` | kernel/log.c:10-24 | After recovery in that run the disk holds the other. |
| `FsDurableRun.TypeSurvives` | kernel/fs.c:226-243 | As when a formatted disk's inode is given a type: after the crash its block has the new one. |
| `DirModel.Strncmp` | kernel/string.c:60-67 | 0 exactly for strings with the same name in the first n bytes, else the difference at the first place where they differ. |
| `DirModel.Strncpy` | kernel/string.c:70-81 | The same name, padded with NULs. |
| `DirModel.LookupIsMap` | kernel/fs.c:574-598 | With distinct names a directory is a map: a lookup gives x exactly when a live entry has that name and x. |
| `DirModel.LinkedIsUpdate` | kernel/fs.c:602-629 | An entry under a new name in a dead place binds that name, changes no other lookup and keeps names distinct. |
| `DirCode.Directory.EntryIs` | kernel/fs.c:586-589 | True exactly for a live entry with this name under the 14-byte comparison. |
| `DirCode.Directory.Dirlookup` | kernel/fs.c:574-598 | The inode number bound to the name and the place of its entry, or 0. |
| `DirCode.Directory.DeadEntry` | kernel/fs.c:614-621 | The first dead entry, or the end. |
| `DirCode.Directory.PutEntry` | kernel/fs.c:623-626 | The entry is written whole or not at all, with no other inode changed. |
| `DirCode.Directory.Dirlink` | kernel/fs.c:602-629 | Success binds the name to the low 16 bits of the inode number and leaves every other name alone; failure leaves every name alone and has a reason; no other inode changes. |
| `PageModel.Pte` | kernel/riscv.h:384-389 | Frame, flags and valid bit can be read back from an entry. |
| `PageModel.EntWrite` | kernel/vm.c:97-115 | Writing one entry changes what walks find there and nowhere else, in all page tables. |
| `PageNeed.PathsAre` | kernel/vm.c:97-112 | The tables a range needs are those on the walk of some page of it. |
| `PageNeed.NodesAre` | kernel/vm.c:97-112 | The tables that wanted pages need, each counted once, however many pages share it. |
| `PageNeed.SpentMore` | kernel/vm.c:97-115 | Frames spent on tables for some pages and then for others add up to those for both, shared tables counted once. |
| `PageNeed.NeededBound` | kernel/vm.c:216-241 | The frames needed for new pages are at least one and at most three for each. |
| `PageTheorems.HardwareSeesMap` | kernel/vm.c:84-115 | The hardware's Sv39 walk of any address below MAXVA finds the entry that the map gives its page, with no superpage on the way. |
| `PageTheorems.IndexIsPX` | kernel/riscv.h:391-394 | The PX macro's bit fields are the digits of the page number that walk uses. |
| `PageTheorems.SlotsApart` | kernel/vm.c:97-115 | Distinct pages, of one table or two, have distinct leaf slots. |
| `PageTheorems.UserPagesApart` | kernel/vm.c:216-241 | User pages, of one address space or two, are in distinct frames that are no table pages. |
| `PageTheorems.CopyIsCopy` | kernel/vm.c:296-324 | After uvmcopy each mapped page has a copy with equal flags and bytes in a frame that was free before, and the parent is as it was. |
| `PageTheorems.Conserved` | kernel/kalloc.c:33-82 | Free frames and frames in use are all frames. |
| `VmCode.Vm.constructor` | kernel/kalloc.c:26-31 | After kinit every frame above the kernel is on the free list. |
| `VmCode.Vm.Freerange` | kernel/kalloc.c:33-40 | Every frame of the range is freed once. |
| `VmCode.Vm.Kfree` | kernel/kalloc.c:46-63 | The frame is first on the linked free list and in nobody's use; no other frame changed. |
| `VmCode.Vm.Kalloc` | kernel/kalloc.c:68-82 | The first free frame, or 0 exactly when there is none. |
| `VmCode.Vm.Descend` | kernel/vm.c:103-112 | The table an entry points to, or a new zeroed one linked in; no translation changes. |
| `VmCode.Vm.Walk` | kernel/vm.c:97-115 | The leaf table of the page; 0 means not mapped and, with alloc, that the free frames were fewer than the tables missing on the way; no translation of any table changes and exactly the missing tables are added. |
| `VmCode.Vm.MapPage` | kernel/vm.c:161-171 | This page is mapped to this frame and nothing else changed, if and only if there was a free frame for each missing table. |
| `VmCode.Vm.Mappages` | kernel/vm.c:145-174 | Exactly the range is mapped if and only if there was a free frame for each table missing on the walks of its pages; else the part before memory ran out. |
| `VmCode.Vm.UnmapPage` | kernel/vm.c:201-211 | This page is not mapped any more, its frame freed if asked; or it is a mapped page above user memory, whose frame kfree refuses or frees though it is in use. |
| `VmCode.Vm.Uvmunmap` | kernel/vm.c:192-212 | Exactly the range is unmapped and its user frames freed, all other translations and frames as before, if and only if the range ends below MAXVA and, with do_free, no page of it above user memory is mapped; else it panics, or has freed a frame that is in use. |
| `VmCode.InUseIsUndivided` | kernel/kalloc.c:46-63 | Once a frame that is in use or free is freed, frames are not divided into free ones and used ones any more. |
| `UvmCode.NewPage` | kernel/vm.c:226-238 | A new page with these bytes and flags in a frame that was free if and only if there were frames for it and for each missing table; else nothing but table pages added. |
| `UvmCode.Uvmdealloc` | kernel/vm.c:246-258 | Exactly the whole pages above the new size are unmapped and freed, for any sizes, if and only if none of them is a mapped page above user memory or beyond MAXVA. |
| `UvmCode.Uvmalloc` | kernel/vm.c:216-241 | Up to the trapframe: adds exactly the missing pages, zeroed, in fresh frames if and only if there were frames for them and for each missing table, counted once; else restores the user mapping and returns every data frame. Beyond it: panics if and only if there was one frame more than the pages below the trapframe need, else rolls back. |
| `UvmCode.CopyPage` | kernel/vm.c:304-318 | A mapped page gets a copy, an unmapped one none; it fails if and only if frames for the copy and its missing tables are not there. |
| `UvmCode.Uvmcopy` | kernel/vm.c:296-324 | For sizes up to the trapframe copies every mapped page if and only if there were frames for the copies and for each table missing in the child, counted once; else leaves the child without user pages and returns every data frame. Beyond it: panics if and only if there was one frame more, else rolls back. |
| `FreeCode.Freewalk` | kernel/vm.c:262-278 | Frees exactly the table and the tables below it, each once; the leaf panic is unreachable. |
| `FreeCode.Uvmfree` | kernel/vm.c:282-287 | For any size up to MAXVA, every user frame and table page of the address space goes back to the free list exactly once, other address spaces as before. |
| `ProcMemory.Uvmcreate` | kernel/vm.c:178-187 | An empty page table; or nothing changed, if and only if no frame was free. |
| `ProcMemory.ProcPagetable` | kernel/proc.c:176-206 | A page table that maps the trampoline and trapframe pages alone; or every frame used as before, if and only if fewer than three frames were free. |
| `ProcMemory.ProcFreepagetable` | kernel/proc.c:210-216 | For any size up to MAXVA, every frame of the address space is freed, and the trapframe and trampoline left to their owners. |
| `ProcMemory.BuiltFreed` | kernel/proc.c:176-216 | Freeing a page table restores the use of every frame from before it was built. |
| `ProcMemory.TrapframeFreed` | kernel/proc.c:236-252 | Shrinking a size that goes a page beyond the trapframe puts the trapframe's frame on the free list while it is in use. |
| `HeapModel.BlocksApart` | user/umalloc.c:14-23 | No two blocks overlap. |
| `HeapModel.MergeKeeps` | user/umalloc.c:33-42 | Two contiguous blocks made one still cover the same units. |
| `HeapModel.CutKeeps` | user/umalloc.c:79-81 | A block and its cut off tail still cover the same units. |
| `HeapProofs.JoinMerged` | user/umalloc.c:33-35 | Taking in the successor keeps the list ascending, with no two free blocks contiguous. |
| `HeapProofs.LinkMerged` | user/umalloc.c:38-40 | Being taken in by the predecessor keeps the whole heap in order. |
| `HeapProofs.LinkPlain` | user/umalloc.c:41-42 | Being linked behind the predecessor keeps the whole heap in order. |
| `HeapProofs.UnitsConserved` | user/umalloc.c:24-90 | All blocks together have as many units as were obtained from the system. |
| `HeapCode.Umalloc.constructor` | user/umalloc.c:21-22 | Before the first call there are no blocks. |
| `HeapCode.Umalloc.FindPlace` | user/umalloc.c:30-32 | The scan from freep ends at the one free block after which the freed block belongs. |
| `HeapCode.Umalloc.Free` | user/umalloc.c:24-44 | The block is free, coalesced with its neighbours; no unit of any other live block is written, and the units held are as before. |
| `HeapCode.Umalloc.Morecore` | user/umalloc.c:46-61 | The list gains the chunk obtained, and a free block large enough for the request. |
| `HeapCode.Umalloc.Take` | user/umalloc.c:75-84 | n units out of this free block, live from now on. |
| `HeapCode.Umalloc.Scan` | user/umalloc.c:74-89 | The scan ends; it fails if and only if no free block is large enough and the system gives none, and asks the system exactly when no free block is large enough. |
| `HeapCode.Umalloc.Malloc` | user/umalloc.c:63-90 | A block that was not live, with room for the request and less than one header more than that, apart from every other block; 0 if and only if no free block fits and the system gives none; memory grows only when no free block fits; no unit of another live block is written. |
| `VirtioProofs.Conserved` | kernel/virtio_disk.c:155-211 | Free descriptors and three for each request in flight are all eight. |
| `VirtioProofs.ChainsApart` | kernel/virtio_disk.c:199-211 | Chains of two requests share no descriptor. |
| `VirtioProofs.RingPush` | kernel/virtio_disk.c:271-277 | With 16-bit indices that wrap, a new ring entry overwrites none that is still to be taken. |
| `VirtioProofs.RingPop` | kernel/virtio_disk.c:312-323 | The wrapped index finds the oldest entry still to be taken. |
| `VirtioCode.Disk.constructor` | kernel/virtio_disk.c:144-146 | All descriptors are free and nothing is in flight. |
| `VirtioCode.Disk.AllocDesc` | kernel/virtio_disk.c:155-166 | A free descriptor is taken, or all are in use. |
| `VirtioCode.Disk.FreeDesc` | kernel/virtio_disk.c:169-182 | The descriptor is free and clear; callers are proved never to meet its panics. |
| `VirtioCode.Disk.Alloc3Desc` | kernel/virtio_disk.c:199-211 | Three distinct descriptors, or fewer than three were free and the table is exactly as before. |
| `VirtioCode.Disk.FreeChain` | kernel/virtio_disk.c:185-196 | Exactly the three descriptors of the chain are free again. |
| `VirtioCode.Disk.Submit` | kernel/virtio_disk.c:215-281 | The request is in flight under a head of its own and last in line for the device, or must wait exactly when fewer than three descriptors are free. |
| `VirtioCode.Disk.Enqueue` | kernel/virtio_disk.c:238-277 | The request is in flight with its chain described, and its head is last in line for the device. |
| `VirtioCode.Disk.Format` | kernel/virtio_disk.c:238-269 | The chain describes exactly this command, this buffer and direction, and its status byte. |
| `VirtioCode.Disk.Announce` | kernel/virtio_disk.c:271-277 | The head is last in the available ring. |
| `VirtioCode.Disk.AvailHead` | kernel/virtio_disk.c:271-277 | The wrapped index finds the head of the oldest request that the device has not taken. |
| `VirtioCode.Disk.ReadChain` | kernel/virtio_disk.c:250-269 | Following the descriptors from head to the last one gives exactly those three stretches, with their lengths and directions. |
| `VirtioCode.Disk.Finish` | kernel/virtio_disk.c:288-289 | The finished request's three descriptors are free again and it is not in flight any more. |
| `VirtioCode.Disk.UsedHead` | kernel/virtio_disk.c:313 | The wrapped index finds the head of the oldest completion, which is in flight. |
| `VirtioCode.Disk.IntrOne` | kernel/virtio_disk.c:312-323 | The oldest completion releases exactly the buffer that was submitted under that head, and its status is 0. |
| `VirtioCode.Disk.Intr` | kernel/virtio_disk.c:294-327 | Every reported completion is dealt with once, and no other request changes. |
| `VirtioCode.Disk.DeviceTake` | kernel/virtio_disk.c:238-277 | The device sees, in order of submission, command 0 or 1, the sector, and a chain of 16 bytes of command to read, 1024 bytes of buffer to write for a read and to read for a write, and 1 byte of status to write. |
| `VirtioCode.Disk.DeviceComplete` | kernel/virtio_disk.c:308-313 | A request the device has taken is completed, in any order, and its head is last in the used ring; everything in flight stays in order. |
| `Grep.Match` | user/grep.c:72-82 | True exactly when the pattern accepts the text, for all patterns and texts. |
| `Grep.Matchhere` | user/grep.c:84-96 | True exactly when a prefix of the text (all of it, for a trailing $) is in the pattern's language. |
| `Grep.Matchstar` | user/grep.c:98-106 | True exactly when some characters that c stands for and then a match of the rest begin the text. |
| `Grep.HereMany` | user/grep.c:98-106 | A starred character matches any number of characters it stands for, in the declarative meaning. |
| `ShellLex.RoundTrip` | user/sh.c:271-444 | Parsing the line that a command is printed as gives the command back, for every command with proper words and few enough arguments. |
| `ShellLex.RenderRead` | user/sh.c:271-314 | Tokens written with a space after each are read back as themselves. |
| `ShellSpacing.OneSymbol` | user/sh.c:284-305 | Each symbol alone is its own token. |
| `ShellSpacing.OneSpace` | user/sh.c:279-280 | White space alone is none. |
| `ShellSpacing.WordRead` | user/sh.c:306-310 | A word of other characters alone is one token. |
| `ShellSpacing.MuchFirst` | user/sh.c:298-304 | Two > in a row are one token, whatever follows. |
| `ShellSpacing.ToksApart` | user/sh.c:271-314 | Where two stretches meet so that no word or >> spans the seam, with white space between or not, the tokens of both together are those of the one and then of the other. |
| `ShellSpacing.SpacedRead` | user/sh.c:271-314 | Tokens written with any white space between them, and none wherever they cannot run together, are read back as themselves. |
| `ShellSpacing.SpacedRoundTrip` | user/sh.c:271-444 | Parsing a line that holds a command's tokens in any such spacing gives the command back. |
| `ShellSpacing.RoundTripNewline` | user/sh.c:135-143 | As when the line read ends in a newline. |
| `ShellProofs.LineParsed` | user/sh.c:350-364 | The tokens of a line parse to the command they were printed from, whatever may follow a line. |
| `ShellProofs.ExecParsed` | user/sh.c:405-444 | The same for a command of a pipeline, in parentheses or not, with its redirections. |
| `ShellProofs.PipeParsed` | user/sh.c:367-377 | The same for a pipeline. |
| `ShellProofs.RedirsParsed` | user/sh.c:380-402 | All redirections are taken, the first one innermost. |
| `ShellGrammar.ParsedIffPhrase` | user/sh.c:333-444 | The parser gives a command for a whole line if and only if the line is a phrase for it in the declarative grammar of lists, pipelines, blocks and redirections: nothing else is accepted, no phrase refused. |
| `ShellGrammar.LineSound` | user/sh.c:350-364 | What parseline takes off the front is a phrase for the command it gives. |
| `ShellGrammar.LineComplete` | user/sh.c:350-364 | Every phrase for a line, whatever may follow a line, is taken whole and gives its command. |
| `ShellCode.Parser.Gettoken` | user/sh.c:271-314 | The next token's kind and place, with exactly that token consumed and no character behind it. |
| `ShellCode.Parser.Peek` | user/sh.c:316-327 | Whether the next token starts with one of the symbols; consumes white space only. |
| `ShellCode.Parser.Parseredirs` | user/sh.c:380-402 | Takes every redirection, or stops at one without a file. |
| `ShellCode.Parser.Parsesimple` | user/sh.c:428-451 | What the grammar gives for words and redirections in any order, or its error. |
| `ShellCode.Parser.Parseexec` | user/sh.c:421-451 | What the grammar gives for a command of a pipeline. |
| `ShellCode.Parser.Parseblock` | user/sh.c:405-418 | What the grammar gives for a command in parentheses. |
| `ShellCode.Parser.Parsepipe` | user/sh.c:367-377 | What the grammar gives for a pipeline. |
| `ShellCode.Parser.Parseline` | user/sh.c:350-364 | What the grammar gives for a line; the recursion ends because tokens run out. |
| `ShellBuffer.Nulterminate` | user/sh.c:455-499 | A NUL behind every word of the command and no other change to the buffer. |
| `ShellBuffer.ReadBack` | user/sh.c:455-499 | After nulterminate every argument and file name reads back as exactly its token. |
| `ShellBuffer.Parsecmd` | user/sh.c:333-347 | The whole line's command, its words C strings in the buffer, if and only if the line is a phrase for that command; a command's tokens in any spacing come back as it; bad lines leave the buffer alone. |
| `PipeCode.WhenFull` | kernel/pipe.c:88 | The comparison of wrapped 32-bit counters is true exactly for a full ring. |
| `PipeCode.AllDelivered` | kernel/pipe.c:105-130 | The readers got all that was taken out of the pipe, in order, if and only if every copy out succeeded. |
| `PipeCode.PipeState.StreamDelivered` | kernel/pipe.c:76-130 | What the readers got, followed by what is in the pipe, is the written stream if and only if no copy out ever failed; then they got a beginning of it. |
| `PipeCode.PipeState.constructor` | kernel/pipe.c:22-41 | An empty pipe, open at both ends. |
| `PipeCode.PipeState.Pipeclose` | kernel/pipe.c:58-73 | One end is closed; the pipe goes exactly when both are. |
| `PipeCode.PipeState.Put` | kernel/pipe.c:95 | The byte goes behind the unread ones. |
| `PipeCode.PipeState.Get` | kernel/pipe.c:121-123 | The oldest unread byte is taken. |
| `PipeCode.PipeState.WriteBurst` | kernel/pipe.c:76-102 | Appends a stretch of the data; sleeps if and only if data is left, the reader open, the writer not killed and the ring full; fails if and only if data is left and the reader closed or the writer killed. |
| `PipeCode.PipeState.ReadBurst` | kernel/pipe.c:105-130 | Takes the oldest bytes in order, losing only one whose copy out failed; what it returns is what it adds to the stream delivered; with copies succeeding, 0 for a positive count means empty with the writer closed. |
| `PipeCode.PipeState.Pipewrite` | kernel/pipe.c:76-102 | Whatever other threads do during its sleeps, a writer's bytes enter the stream in order; -1 is returned if and only if data is left and the reader is closed or the writer killed, any other result counts the bytes. |

## Left out

- Hardware, boot and assembly code, virtio device initialisation and memory fences: the device is a step that takes heads in order and completes taken ones in any order with status 0.
- Spin locks as instructions, interrupts and the context switch: acquiring and releasing a lock is one step, switching a change of state.
- A global link count over sys_link, sys_unlink and create, and path names (namex): not inductive in the source without further assumptions.
- The bget panic for lack of buffers: methods of LogCode require an available buffer.
- LogCode.LogCache: its methods run one thread at a time, and their contracts place every state they pass through in a run of the machine, which covers the interleavings; the linked list of buffers is a sequence.
- LogCode.LogCache.RecoverFromLog: requires a header that can be followed, as write_head leaves it; no operation begins before recovery is over.
- SleepLock and ExitWait: a state machine in each case, because the property is about interleavings; that a call comes back is proved for steps that no other holder of a lock delays; fairness of the scheduler and of spin locks is not modelled.
- ExitWait: file descriptors, memory and the trap frame of fork are not part of the machine; running out of memory is a choice of the step.
- FsCode.FileSys: blocks as seen through the cache, in one thread; type, major, minor and nlink of an inode are two words; inode reference counts, iget and ialloc are left out.
- FsDurable.FileAfterCrash: that the log is given the blocks an operation logs, as it left them, is a hypothesis on the run, since file system code and log are not one program here; operations that overlap count as one operation of the history.
- FileCode.File: pipes and devices behind a file descriptor are left out; the inode lock is not modelled.
- DirCode.Directory: iget and iput are left out, so a lookup gives the inode number; that the inode is a directory is the caller's part.
- VmCode.Vm: physical addresses are frame numbers and memory is a sequence of pages of 64-bit words; virtual addresses come in whole pages, so the alignment panics do not arise.
- VmCode.Vm.Uvmunmap: what comes after a frame in use was freed is not followed; owner keeps such a frame with those who use it.
- UvmCode.Uvmalloc: requires that a table used with sizes beyond the trapframe maps trapframe and trampoline, as proc_pagetable leaves it, and permissions beyond R and U that are W, X or both.
- UvmCode.Uvmcopy: the same for the trapframe of parent and child.
- ProcMemory.ProcPagetable: the way back after a failed second mappages is not written out, since it is proved never to be taken.
- FreeCode.Uvmfree: requires that nothing is mapped above the size or above user memory, where freewalk or uvmunmap would not be right; ProcMemory.ProcFreepagetable sees to that for trapframe and trampoline. A size above MAXVA makes walk panic.
- kvmmap, copyin, copyout, copyinstr, vmfault and walkaddr: they would add only uses of Walk and Map.
- HeapCode.Umalloc: addresses count headers of 16 bytes, so memory from sbrk is taken to be aligned to a header, as it is when malloc alone calls sbrk; requests are bounded so that their size in bytes fits sbrk's int.
- VirtioCode.Disk: sleep and wakeup on descriptors are left out; a request that has to wait is tried again by its caller.
- ShellCode.Parser: the exec command, which parseexec fills in place while redirections already wrap it, is built when its words are known; panics are the result Bad.
- runcmd, getcmd and main of the shell, the read loop and main of grep.
- PipeCode.PipeState: pipealloc's files and kalloc are left out; sleeping and waking is a schedule of what other threads do in between, with piperead stated for the stretch it holds the lock.
- Test programs, printf, the console, and the other user programs.

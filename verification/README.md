# A verified model of an xv6 kernel with a priority scheduler

The repository is the xv6 teaching kernel for RISC-V with a rewritten single-CPU scheduler (32
priority levels with aging), semaphores and reader/writer locks. This project models its most
intricate parts in Dafny and proves what they promise. `dafny verify dfyconfig.toml` checks
everything.

| files | what they model |
|---|---|
| `LogFormat`, `RedoLog`, `GroupCommit`, `LogMachine` | the write-ahead log: the sequence of disk writes of a commit and of a recovery, the code that issues them, the machine of concurrent operations, and that the code refines it |
| `ReadyQueue`, `Scheduler`, `ProcTable`, `Lifecycle`, `Fairness`, `Starvation`, `StarvingRun`, `IdleRun` | the run queue threaded through the process table, the process states and the life of a process, timer ticks, how long a process can wait, and what becomes of the idle process |
| `BlockFormat`, `FreeMap`, `BlockTree`, `Truncation`, `BlockMapping`, `FileBytes`, `Inodes`, `FileWrites` | the block allocator, block addresses of inodes, reading, writing and truncating files, and the transactions of a write |
| `SharedWrites`, `CrashWrites` | writes among operations of other processes, and the file system on top of the log: what a crash during a write leaves |
| `PagePool`, `PageTree`, `PageTables`, `UserMemory`, `TableFree`, `UserCopy` | the page allocator, Sv39 page tables (section 4.4 of the RISC-V Privileged Architecture, version 20211203), user memory and copying to and from it |
| `HeapBlocks`, `Heap` | the user-space allocator (The C Programming Language, 2nd edition, section 8.7) |
| `BufferRing`, `BufferCache` | the buffer cache |
| `RwLock`, `Semaphore`, `Pipe` | three sleep/wakeup protocols |
| `ShellGrammar`, `ShellSyntax`, `ShellLexer`, `ShellParser` | the shell's command parser, and what its command lines are |
| `Matcher` | the regular expression matcher of grep |
| `Collections`, `Guards` | what several of these say about sequences and sets, and the guards explained below |

Code that works in place is a class with the source's fields and one method for each function or
loop turn; its contract ties the new state to a specification function or predicate on values, and
the theorems are about those. Concurrency is a machine whose steps are the critical sections; a
theorem about it speaks of every list of steps. Spinlocks make a section one step.

Some predicates guard their body with a quantifier over a constant-true predicate of `Guards`
(`Opened`, `Shown`, `Bared`, `Settled`). The guard changes nothing in what they say. It keeps the body
from the prover where it is not named.

## What turned out false

Each of these is proved: an input for which the promise fails, and a condition under which it holds.

- `log_write` tests its size guard before it looks for the block in the log, so in a log of any size an
  operation that has used up its allowance can panic on a block that would be absorbed
  (`GroupCommit.AbsorbingWriteCanPanic`). An operation that has not used it up never panics, on any
  block, if the log area has at least `LOGSIZE + 1` blocks (`GroupCommit.AppendFits`), and can panic
  if it has `LOGSIZE`, which is what `mkfs` gives it (`GroupCommit.SmallLogAppendCanPanic`).
- `usertrap` lets a killed process exit before `prio_on_tick`, so such a tick ages nobody. Waiting is
  bounded in the ticks that reach `prio_on_tick` (`Fairness.BoundedWaiting`), hence in timer ticks
  when no tick finds a killed process in user mode (`Starvation.BoundedTimerWaiting`). Otherwise a
  process can wait through any number of timer ticks (`Starvation.Starves`); a run from boot in which
  `initproc` forks 20 children gets there (`StarvingRun.StarvesFromBoot`).
- `malloc` passes a byte count to `sbrk(int)`. The count arrives unchanged exactly below 2^27 units
  (`Heap.SbrkExact`); the largest request records 2^28 + 1 units and asks for 16 bytes
  (`Heap.SbrkCutShort`).
- `sem_init_k` accepts a negative value. Waits are bounded by the initial value plus the signals
  exactly when it is not negative (`Semaphore.Bounded`); otherwise no wait ever blocks
  (`Semaphore.NegativeNeverBlocks`).
- Nothing stops `rw_runlock_k` by a thread that holds nothing, and then a writer gets in beside a
  reader (`RwLock.UnheldReleaseBreaksExclusion`). A read release keeps the invariant exactly if the
  thread reads (`RwLock.ReadReleaseExact`), a write release exactly if the thread writes or nobody
  does (`RwLock.WriteReleaseExact`).
- `piperead` takes a byte out before it copies it out, so the byte is lost when `copyout` fails: two
  bytes written, one failed read, and the reader gets only the second (`Pipe.LosesByte`). The contract
  of `Pipe.Pipe.ReadPass` says exactly when a byte is lost; without a loss, reads are a prefix of
  writes (`Pipe.Pipe.ReadsArePrefix`).
- `kfree` does not notice a page that is already free. It keeps a free list exactly for a page that is
  not; otherwise the links form a loop that no list fits (`PagePool.Pool.Kfree`, `PagePool.DoubleFree`).
- `brelse` and `bunpin` let go of a changed buffer that is neither written nor pinned. They keep the
  invariant of the cache exactly otherwise (`BufferCache.Cache.Release`, `BufferCache.Cache.Bunpin`),
  and `bget` changes what is seen of a block exactly when it reuses such a buffer
  (`BufferCache.RecycleExact`).
- A shell command parses back to itself exactly when no part of it has ten arguments
  (`ShellLexer.RoundTrip`).
- A comment in `schedule` says the idle process is never in the ready queue (`kernel/proc.c:878`). A tick
  in the kernel puts it there exactly when the queue has a process at its level or better
  (`Scheduler.KernelTickQueuesIdle`), as the first tick after boot does (`IdleRun.IdleQueued`).
  `schedule` runs it exactly when nothing is queued or it is the head of the best level
  (`Scheduler.DispatchIdle`), and it ages like everybody else: after 221 ticks from boot it runs
  although `initproc` is ready (`IdleRun.IdleRunsBeforeInit`).
- `uvmdealloc` is documented to accept an old size beyond the process (`kernel/vm.c:283-286`). It panics
  exactly when the new size is smaller and a page between the two rounded sizes is not mapped
  (`UserMemory.UvmDealloc`), for instance on a new address space (`UserMemory.DeallocBeyond`).

Where comments and code differ the model follows the code.

## Model

| member | source | states |
|---|---|---|
| LogFormat.CrashInCommit | kernel/log.c:178-203 | after any number of the disk writes of a commit, recovery would restore the old home blocks if the header write is not among them and the new ones if it is |
| LogFormat.CommitCompletes | kernel/log.c:193-203 | a complete commit leaves an empty log and the new contents in the home blocks |
| LogFormat.CommitPlan | kernel/log.c:178-203 | the writes of a commit are log slots, header, home blocks, header, and what the disk is at each boundary |
| LogFormat.CrashInRecovery | kernel/log.c:68-123 | a crash after any write of recovery leaves what a later recovery will restore unchanged |
| LogFormat.RecoveryCompletes | kernel/log.c:116-123 | a complete recovery empties the log and puts into each home block what the image meant for it |
| LogFormat.RecoverPlan | kernel/log.c:68-123 | the writes of recovery are the logged blocks in order and then an empty header |
| LogFormat.CrashChainKeepsView | kernel/log.c:116-123 | any number of crashed recoveries in a row keeps what will be restored |
| LogFormat.CrashAtomicity | kernel/log.c:68-203 | a crash at any write of a commit and any number of crashes in the recoveries after it: the one that completes leaves all home blocks old or all new, new exactly if the header write reached the disk |
| RedoLog.Log.InstallTrans | kernel/log.c:68-83 | copies each log slot to its home block in order, and unpins each block once unless recovering |
| RedoLog.Log.ReadHead | kernel/log.c:86-97 | the in-memory header becomes the list in the header block |
| RedoLog.Log.WriteHead | kernel/log.c:102-114 | one write, of the header block that lists the logged blocks |
| RedoLog.Log.WriteLog | kernel/log.c:178-191 | the cached contents of the logged blocks go to consecutive log slots |
| RedoLog.Log.Commit | kernel/log.c:193-203 | the writes issued are exactly those of LogFormat.CommitWrites; the home blocks become the cached contents |
| RedoLog.Log.RecoverFromLog | kernel/log.c:116-123 | the writes issued are exactly those of LogFormat.RecoverWrites; the home blocks become what the image meant |
| RedoLog.Log.LogWrite | kernel/log.c:214-235 | panics exactly on a full log or outside an operation; else the block is listed once and pinned when first listed; the list stays loggable exactly if the block lies outside the log |
| RedoLog.Log.BeginOp | kernel/log.c:126-142 | waits exactly while a commit runs or the reservation would overflow the log, else counts the operation |
| RedoLog.Log.EndOp | kernel/log.c:146-175 | the last operation commits the group, with exactly the writes of LogFormat.CommitWrites, and unpins its blocks; others only give up their reservation, and nothing else changes |
| LogMachine.BootLog | kernel/log.c:54-66 | initlog takes the machine of GroupCommit from its start through exactly the writes of recovery to a state that the log agrees with |
| LogMachine.BeginCall | kernel/log.c:126-142 | begin_op is a step Begin of that machine if it admits, a step Sleep if not |
| LogMachine.PutCall | kernel/log.c:214-235 | changing a buffer and log_write is a step Put; it panics exactly on a full log |
| LogMachine.EndCall | kernel/log.c:146-175 | end_op is a step End, for the last operation followed by each disk write of the commit in order and its end; it never finds a commit under way |
| LogMachine.EndCrash | kernel/log.c:146-203 | the disk after any number of the writes that end_op issues is that of the machine |
| LogMachine.EndThenBegin | kernel/log.c:126-175 | a begin_op after an end_op that was not the last is refused only for want of log space |
| GroupCommit.RunInv | kernel/log.c:126-235 | the invariant of the log machine in every run, crashes included |
| GroupCommit.GroupCommitAtomicity | kernel/log.c:126-235 | in every run a crash recovers exactly the writes of the durable operations, each operation wholly or not at all |
| GroupCommit.QuiescentIsDurable | kernel/log.c:146-175 | with no operation open every operation so far is durable, and reads see exactly their writes |
| GroupCommit.DurableGrows | kernel/log.c:193-203 | no step, not even a crash, takes back what is durable |
| GroupCommit.BeginAdmits | kernel/log.c:126-142 | in every run begin_op admits exactly when the reservation fits, so always when no operation is open |
| GroupCommit.CommitExcludesOperations | kernel/log.c:146-175 | a commit never runs beside an open operation |
| GroupCommit.SleepersWillBeWoken | kernel/log.c:126-175 | a process sleeps in begin_op only while its wait condition holds, and then an operation is open or a commit runs |
| GroupCommit.AppendFits | kernel/log.c:126-235 | in every run, with LOGSIZE + 1 blocks, no log_write of an operation that has used less than its allowance panics |
| GroupCommit.AbsorbingWriteCanPanic | kernel/log.c:214-235 | a run within all allowances reaches an operation that has used up its allowance and a logged block whose write panics |
| GroupCommit.SmallLogAppendCanPanic | kernel/log.c:214-235 | with at most LOGSIZE blocks an append within the allowance can panic |
| ReadyQueue.ReadyQueues.PushTail | kernel/proc.c:85-98 | the process is linked at the tail of its level; the cached best level stays right |
| ReadyQueue.ReadyQueues.Remove | kernel/proc.c:100-125 | the process is taken off its level wherever it stands; the cached best level stays right |
| ReadyQueue.ReadyQueues.PrioEnqueue | kernel/proc.c:127-139 | appended to the queue of its priority with a fresh wait count |
| ReadyQueue.ReadyQueues.PrioPickNext | kernel/proc.c:151-167 | takes the head of the best non-empty level, null exactly when all are empty |
| ReadyQueue.ReadyQueues.FixHighest | kernel/proc.c:116-124 | the cached level is again the least non-empty one, or -1 |
| ReadyQueue.ReadyQueues.PrioOnTick | kernel/proc.c:178-203 | visits every queued process once although it relinks the lists it walks: the queues become those of the one-step function Ticked |
| ReadyQueue.MidNext | kernel/proc.c:178-203 | one more visited process, seen on the whole queue |
| Scheduler.TickedValid | kernel/proc.c:178-203 | aging loses and duplicates nobody and files everybody under their own priority |
| Scheduler.DispatchPicks | kernel/proc.c:858-903 | schedule never skips: it runs the first process of the best level, whoever that is, and idle when nothing is queued; what else it changes |
| Scheduler.DispatchIdle | kernel/proc.c:872-881 | schedule runs idle exactly when nothing is queued or idle is the first process of the best level |
| Scheduler.KernelTickQueuesIdle | kernel/trap.c:166-171 | a tick in the kernel puts the running idle process into the queue exactly when the queue, woken and aged, has a process at its level or better |
| Scheduler.WokenIs | kernel/proc.c:716-733 | wakeup readies exactly the other sleepers on the channel; each level is the old one followed by its own among them; preemption is requested exactly if one outranks the running process or it was already |
| Scheduler.WokenOnIs | kernel/proc.c:716-733 | those that a level gets are in the order of the process table |
| Scheduler.DispatchInv | kernel/proc.c:858-903 | the scheduler invariant holds after schedule |
| Scheduler.StepInv | kernel/proc.c:436-758 | every step keeps, for every process other than idle: RUNNABLE exactly if queued, once and under its own priority; RUNNING exactly if current; and idle is queued at most once and never while current |
| Scheduler.StepIdle | kernel/proc.c:919-958 | no step changes which process is the idle one |
| Scheduler.BootInv | kernel/proc.c:388-412 | the invariant holds at boot |
| ProcTable.Kernel.constructor | kernel/proc.c:388-412 | the process table at boot is Scheduler.Boot: initproc queued at the default level, the idle process at the worst one on the CPU |
| ProcTable.Kernel.Schedule | kernel/proc.c:858-903 | the loop over stale entries refines the function Dispatched |
| ProcTable.Kernel.Yield | kernel/proc.c:650-661 | refines the step Yield of the machine |
| ProcTable.Kernel.Sleep | kernel/proc.c:689-712 | refines the step SleepOn |
| ProcTable.Kernel.Wakeup | kernel/proc.c:716-733 | refines Woken, which Scheduler.WokenIs describes |
| ProcTable.Kernel.KillSlot | kernel/proc.c:738-758 | refines the step Kill, which Lifecycle.KillIs describes |
| ProcTable.Kernel.AllocProc | kernel/proc.c:262-306 | takes the first UNUSED slot, null exactly when there is none |
| ProcTable.Kernel.StartChild | kernel/proc.c:436-488 | the child becomes RUNNABLE at its parent's priority |
| ProcTable.Kernel.ExitProc | kernel/proc.c:508-546 | refines the step Exit |
| ProcTable.Kernel.ShouldPreemptNow | kernel/proc.c:206-212 | true exactly when some queued level is at least as good as the current one |
| ProcTable.Kernel.UserTrapTick | kernel/trap.c:68-93 | refines the step UserTick: a killed process leaves before the queue is aged |
| ProcTable.Kernel.KernelTrapTick | kernel/trap.c:166-171 | refines the step KernelTick |
| Lifecycle.KillIs | kernel/proc.c:738-758 | the flag is set; a sleeper becomes RUNNABLE, last on the level of its unchanged priority with a fresh count, and preemption is requested exactly if it outranks a running process; nothing else changes |
| Lifecycle.KilledSleeperRuns | kernel/proc.c:738-758 | a killed sleeper runs, still killed, by the time AGING_TICKS * k + NPROC ticks have aged the queue |
| Lifecycle.KernelTickPreempts | kernel/trap.c:166-171 | a tick in the kernel preempts exactly when the queue, woken and aged, has a process at the current level or better; then the first of the best level runs and the other is queued |
| Lifecycle.UserTickPreempts | kernel/trap.c:68-93 | so does a tick in user mode, unless the process is killed; a pending request is used up |
| Lifecycle.SleepIs | kernel/proc.c:689-712 | the caller is asleep on the channel, off the CPU and out of the queue |
| Lifecycle.SleeperLeaves | kernel/proc.c:689-758 | only wakeup on its channel, kill, or a tick if the channel is that of the ticks, wakes a sleeper |
| Lifecycle.SleeperWoken | kernel/proc.c:689-733 | whoever called sleep and has slept since is readied by wakeup on that channel and by no other, whatever happened in between |
| Lifecycle.ExitIs | kernel/proc.c:508-546 | a zombie, off the CPU and out of the queue |
| Lifecycle.ZombieStays | kernel/proc.c:508-603 | a zombie never runs again: it stays one until it is reaped |
| Lifecycle.FreedIs | kernel/proc.c:311-328 | the slot is unused, not killed and on no channel; no other slot changes |
| Lifecycle.ForkIs | kernel/proc.c:436-488 | the child is ready, last on the level of its parent's priority |
| Fairness.StepRank | kernel/proc.c:85-212 | every step brings a waiting process nearer if it ages the queue, and never takes it further away |
| Fairness.LeavesByRunning | kernel/proc.c:151-167 | a queued process leaves the queue only by being dispatched |
| Fairness.BoundedWaiting | kernel/proc.c:85-212 | a process queued at level k runs by the time AGING_TICKS * k + NPROC ticks have aged the queue, whatever else happens |
| Fairness.LevelAfterTicks | kernel/proc.c:178-203 | after t aging ticks in the queue from level k the priority is max(0, k - t / AGING_TICKS) |
| Starvation.TicksSplit | kernel/trap.c:68-93 | every timer tick ages the queue or finds a killed process in user mode |
| Starvation.BoundedTimerWaiting | kernel/trap.c:68-93 | the bound in timer ticks, for runs without ticks of the second kind |
| Starvation.Starves | kernel/trap.c:68-70 | otherwise a process can stay queued through any number of timer ticks |
| StarvingRun.TickRaises | kernel/proc.c:178-203 | when only the head of the queue has waited AGING_TICKS, it alone rises one level |
| StarvingRun.StarvingReached | kernel/trap.c:68-70 | a run from boot reaches a state from which initproc can be starved |
| IdleRun.AloneTicked | kernel/proc.c:178-203 | one tick on a queue of one process raises it exactly if it has waited AGING_TICKS with this one and is not at level 0; else it counts |
| IdleRun.IdleQueued | kernel/trap.c:166-171 | one tick after boot the idle process is queued and initproc runs |
| IdleRun.IdleRunsBeforeInit | kernel/proc.c:858-903 | after 221 ticks from boot the idle process runs while initproc is RUNNABLE and queued |
| StarvingRun.StarvesFromBoot | kernel/trap.c:68-70 | for every n a run from boot has n timer ticks during all of which initproc stays queued |
| FreeMap.BlockMap.Scan | kernel/fs.c:65-88 | finds the first clear bit of a bitmap block, if any |
| FreeMap.BlockMap.Balloc | kernel/fs.c:65-88 | takes the lowest free block and zeroes it; 0 exactly when the disk is full |
| FreeMap.BlockMap.Bfree | kernel/fs.c:91-105 | clears the bit of that block only; panics exactly when it is free already |
| FreeMap.LogSet | kernel/log.c:205-235 | a write followed by log_write keeps: every block changed since begin_op has been logged |
| BlockFormat.OrBitAt | kernel/fs.c:77-78 | setting bit k of a byte changes bit k only |
| BlockFormat.ClearBitAt | kernel/fs.c:102-102 | clearing bit k of a byte changes bit k only |
| BlockTree.OneOwner | kernel/fs.c:382-421 | two places of the same or different inodes never share a block |
| BlockTree.AttachOk | kernel/fs.c:382-421 | giving a free block to an empty place keeps every block owned once |
| Truncation.FreeOne | kernel/fs.c:425-453 | the next block itrunc frees is in use and owned by that slot, so bfree does not panic |
| Inodes.FileSystem.Bmap | kernel/fs.c:382-421 | returns the block of a file block, allocating it and the indirect block if missing; 0 only on a full disk; every other file keeps its bytes; which blocks are logged |
| Inodes.FileSystem.Writei | kernel/fs.c:505-539 | the file becomes its old contents patched with the bytes written, every other file and inode is unchanged, -1 exactly on a hole or overflow, short only if the next block is missing and none is free or the next chunk cannot be read; the blocks logged, those logged before not counted, are bounded and hold every change |
| Inodes.FileSystem.Readi | kernel/fs.c:471-496 | returns exactly the bytes of the file that exist in the range, up to the fault if there is one, and changes nothing |
| Inodes.FileSystem.Itrunc | kernel/fs.c:425-453 | exactly the blocks of the inode become free, the file is empty, no other file or inode changes, no panic; logged are exactly the map blocks of the freed blocks and the inode's block |
| Truncation.FreedMapsBound | kernel/fs.c:91-105 | those map blocks are no more than the free map has |
| FileWrites.TruncOp | kernel/fs.c:425-453 | the blocks logged by a truncation hold every change; they fit the allowance of one operation exactly if at most nine are map blocks, so always below 73728 blocks |
| FileBytes.WrittenContent | kernel/fs.c:505-539 | writing bytes at an offset within the file patches its contents |
| FileBytes.WrittenTwice | kernel/fs.c:505-539 | two adjacent writes are one |
| FileWrites.ChunkFits | kernel/file.c:149-175 | the worst chunk, at any offset, logs at most MAXOPBLOCKS blocks |
| SharedWrites.WriteShared | kernel/file.c:162-172 | one transaction of a write after whatever others did to other files: the file holds exactly the bytes so far, no other file changes |
| SharedWrites.HistoryStart | kernel/file.c:149-157 | before the first transaction the file holds what it held |
| SharedWrites.HistoryOther | kernel/file.c:156-175 | an operation of another process that leaves the file alone may come between two transactions of the write |
| SharedWrites.ChangeOver | kernel/log.c:126-175 | consecutive transactions together change only what one of them logged, and the write never goes back |
| FileWrites.WriteOne | kernel/file.c:162-172 | one transaction from begin_op on: at most MAXOPBLOCKS blocks passed to log_write, none of them in the log area, and they hold every block and inode that differs; short only for a stated reason |
| FileWrites.FileWrite | kernel/file.c:149-175 | all transactions together write a prefix of the source at the offset; the file system after each transaction is consistent and holds a prefix; each transaction fits the log allowance; n is reached unless the next block is missing on a full disk, the source faults, or the range has a hole or is too large; the result is n or -1 |
| BlockFormat.WordsDetermine | kernel/fs.c:382-421 | a block is determined by its little-endian words |
| CrashWrites.OnDiskDetermines | kernel/fs.h:32-45 | two consistent file systems on the same disk have the same inodes and the same files |
| CrashWrites.NotLogged | kernel/log.c:205-235 | a block that was not logged is the same on disk before and after |
| CrashWrites.CrashInCommit | kernel/log.c:68-203 | a crash at any write of a commit, and crashes in the recoveries after it, leave the file system before the commit or the one after it |
| CrashWrites.CrashInTruncation | kernel/fs.c:425-453 | after a crash at any write of the commit of a truncation the file is as it was or empty, and every other file as it was |
| CrashWrites.DiskFollows | kernel/log.c:146-203 | without a crash the disk holds the file system at the end of each group when the group has committed |
| CrashWrites.CrashInSharedWrite | kernel/file.c:149-175 | filewrite with groups of any transactions, of the write and of others: after a crash at any write of any commit recovery leaves the consistent file system at the start or the end of that group, in which the file is rewritten with exactly the bytes written up to there |
| CrashWrites.CrashInFileWrite | kernel/file.c:149-175 | when nobody else writes: the file is rewritten with the bytes of whole transactions and the other files are unchanged |
| PagePool.Pool.constructor | kernel/kalloc.c:26-40 | every page of the range is free, once |
| PagePool.Pool.Kfree | kernel/kalloc.c:46-63 | pushes the page; panics exactly outside the range; the free list stays a list exactly if the page was not free |
| PagePool.DoubleFree | kernel/kalloc.c:46-63 | freeing a free page leaves links that no list without repetition follows |
| PagePool.Pool.Kalloc | kernel/kalloc.c:68-82 | pops the first page, 0 exactly when there is none |
| PageTree.TabPut | kernel/vm.c:95-118 | filling an empty entry gives the new page to one place of the tree and changes no other |
| PageTree.TabClear | kernel/vm.c:193-219 | clearing a leaf empties one place and changes no other |
| PageTree.WithTableFlat | kernel/vm.c:95-118 | a new table page maps nothing |
| PageTree.LeafFlat | kernel/vm.c:159-219 | writing a leaf changes the translation of one page of one address space |
| PageTree.WithLeafOk | kernel/vm.c:159-188 | the page tables stay a tree of separately owned pages when a leaf is added |
| PageTree.WithoutLeafOk | kernel/vm.c:193-219 | and when one is removed |
| PageTables.Vm.Walk | kernel/vm.c:95-118 | finds the level-0 table of a page, making tables only if asked to; no translation changes; fails exactly if fewer pages are free than tables are missing, and takes exactly that many; panics exactly beyond MAXVA |
| PageTables.MissingNext | kernel/vm.c:95-118 | the tables missing for a range of pages, counted page by page: each needs those not made for the pages before it |
| PageTables.MissingBound | kernel/vm.c:159-188 | at most two tables per page, and more pages need no fewer |
| PageTables.Vm.MapPages | kernel/vm.c:159-188 | maps consecutive pages up to the first that is mapped already, lies beyond MAXVA (both panics) or for which memory is out, that is, fewer pages are free than tables are missing on the way to the pages so far; size 0 panics; every other translation is kept; the pages change owner; the tables are those that were there and those needed |
| PageTables.Vm.MapOne | kernel/vm.c:172-187 | one page: panics exactly when it is mapped, fails exactly if fewer pages are free than tables are missing |
| PageTables.Vm.UnmapOne | kernel/vm.c:201-218 | one page: panics exactly when it is not mapped; freed exactly if asked |
| PageTables.Vm.UvmCreate | kernel/vm.c:223-232 | a new address space that maps nothing, or 0 exactly when memory is out |
| UserMemory.UvmUnmap | kernel/vm.c:193-219 | unmaps pages up to the first that is not mapped (a panic); the free list gets exactly these pages |
| UserMemory.UvmDealloc | kernel/vm.c:287-299 | unmaps exactly the pages between the two rounded sizes; panics exactly if the new size is smaller and one of them is not mapped |
| UserMemory.DeallocBeyond | kernel/vm.c:283-299 | a call with an old size beyond the pages of a new address space panics |
| UserMemory.UvmAlloc | kernel/vm.c:253-281 | maps zeroed pages between the two rounded sizes, exactly if none of them is mapped and as many pages are free as pages and missing tables are needed, which is what it takes; out of memory, it restores all translations and keeps nothing but page-table pages; it panics at the first page that is mapped already; no other page changes owner or contents |
| UserMemory.UvmCopy | kernel/vm.c:337-368 | the child gets own copies with the same flags and bytes, exactly if the parent has all the pages, the child none and enough pages are free; out of memory, the child gets no page at all and nothing but page-table pages; it panics at the first page that the parent lacks or the child has; the parent is unchanged |
| UserMemory.NoSharing | kernel/vm.c:159-188 | no user page is mapped at two places |
| UserMemory.MapNew | kernel/vm.c:264-279 | one new page with given contents; out of memory exactly if too few pages are free for it and the missing tables, and then the page goes back; a panic exactly if there is a page to allocate and one is mapped already |
| UserMemory.LeftOver | kernel/vm.c:253-281 | an address space that maps what it mapped has gained nothing but page-table pages |
| TableFree.FreeWalk | kernel/vm.c:303-319 | exactly the table pages under an entry go to the free list; panics exactly if a page is still mapped there |
| TableFree.UvmFree | kernel/vm.c:323-329 | exactly the pages of the address space go to the free list and all others are as they were; panics exactly if other pages are mapped than those below the size |
| TableFree.ProcPagetable | kernel/proc.c:332-362 | a page table with exactly trampoline and trapframe, exactly if three pages are free; else every page is where it was |
| TableFree.ProcFreePagetable | kernel/proc.c:366-372 | every page of the address space goes back to the free list, the trapframe page excepted; panics exactly if other pages are mapped than those below the size and the two on top |
| TableFree.GoneTwice | kernel/proc.c:332-372 | making and dropping an address space restores owners, translations and the set of free pages |
| UserCopy.WalkAddr | kernel/vm.c:123-141 | the page of a user address, 0 exactly if it is not mapped for the user |
| UserCopy.CopyOut | kernel/vm.c:386-419 | writes the bytes up to the first page that is not writable; every other byte of every address space is unchanged |
| UserCopy.CopyIn | kernel/vm.c:424-444 | returns the user's bytes up to the first page that is not readable |
| UserCopy.OutThenIn | kernel/vm.c:386-444 | bytes that copyin reads where copyout wrote are the bytes written |
| UserCopy.CopyOutIn | kernel/vm.c:386-444 | copyout succeeds exactly if every page of the range is writable by the user, and then copyin of the range returns the bytes |
| HeapBlocks.OneBlock | user/umalloc.c:24-90 | each unit obtained from sbrk lies in exactly one free or live block |
| HeapBlocks.Disjoint | user/umalloc.c:24-44 | two blocks never overlap |
| HeapBlocks.StopAtPlace | user/umalloc.c:30-32 | the tests of the search in free hold at exactly one block of the cycle, the last below the freed one |
| HeapBlocks.AbsorbNextOk | user/umalloc.c:33-37 | merging with the block above keeps an ordered list of separate blocks that tile the memory |
| HeapBlocks.JoinPrevOk | user/umalloc.c:38-42 | so does merging with the block below |
| HeapBlocks.InsertAfterOk | user/umalloc.c:38-42 | so does linking in a block that touches neither |
| HeapBlocks.TakeTailOk | user/umalloc.c:78-82 | so does cutting off the tail of a block |
| HeapBlocks.ObtainOk | user/umalloc.c:46-61 | so does adding new memory |
| Heap.FindPlace | user/umalloc.c:30-32 | the search ends, at the last free block below the freed one |
| Heap.Scan | user/umalloc.c:74-89 | the search ends: the first block on the way round that fits, with its predecessor, all blocks before it too small; or no block fits |
| Heap.Heap.Free | user/umalloc.c:24-44 | the block leaves the live blocks and its units lie in one free block; sizes of live blocks and the memory obtained are unchanged; the free list is an address-ordered cycle of blocks that never touch |
| Heap.Heap.MoreCore | user/umalloc.c:46-61 | the new units and no others are added; some free block now fits |
| Heap.Heap.Malloc | user/umalloc.c:63-90 | a new live block with room for the bytes asked for and less than a unit more; each of these bytes lies in this block only; sbrk is called at most once, exactly if no block fits; 0 exactly if that fails; the units recorded are the bytes asked of sbrk exactly below 2^27 units |
| Heap.UnitsFor | user/umalloc.c:69-69 | the header and as few units as hold the bytes |
| Heap.Payload | user/umalloc.c:63-90 | each byte behind the header of a live block lies in that block |
| Heap.SbrkExact | user/umalloc.c:46-70 | the byte count reaches sbrk unchanged exactly below 2^27 units |
| Heap.SbrkCutShort | user/umalloc.c:46-70 | the largest request asks for 16 bytes and records 2^28 + 1 units |
| BufferRing.Unlink | kernel/bio.c:128-129 | taking a buffer out keeps the list doubly linked |
| BufferRing.LinkFront | kernel/bio.c:130-133 | putting it in front keeps the list doubly linked |
| BufferCache.Cache.constructor | kernel/bio.c:36-53 | the list holds every buffer once |
| BufferCache.Recycle | kernel/bio.c:77-87 | reusing an unused clean buffer for a block that is not cached changes no block's contents as seen |
| BufferCache.RecycleExact | kernel/bio.c:77-87 | reusing a buffer changes what is seen exactly if its contents are not on the disk |
| BufferCache.Cache.Bget | kernel/bio.c:58-89 | the buffer of the block, or the least recently used unused one; buffers in use are never recycled; one buffer per block; what is seen of every block is unchanged; panics exactly when all are in use |
| BufferCache.Cache.Fill | kernel/bio.c:98-102 | the locked buffer holds what is seen of its block |
| BufferCache.Cache.Bread | kernel/bio.c:92-103 | a locked buffer with the last contents left in the block, or, exactly if another thread has the block locked, one more user of its buffer who waits |
| BufferCache.Cache.Modify | kernel/log.c:205-213 | changes what is seen of that block only |
| BufferCache.Cache.Bwrite | kernel/bio.c:106-112 | the disk gets what is seen of the block; panics exactly without the lock |
| BufferCache.Cache.Release | kernel/bio.c:117-122 | unlocks; nothing seen changes; the invariant stays exactly if the block is written, pinned or not valid |
| BufferCache.Cache.Unref | kernel/bio.c:124-136 | one user less; a buffer without users moves to the front of the list |
| BufferCache.Cache.Bpin | kernel/bio.c:139-144 | one reference more; nothing seen changes |
| BufferCache.Cache.Bunpin | kernel/bio.c:146-151 | one reference less; nothing seen changes; the invariant stays exactly if another pin, the lock or the disk still protects the contents |
| RwLock.StepInv | kernel/rwlock.c:33-86 | every critical section keeps the counters equal to the threads they count, and lets a thread sleep only while its own condition holds |
| RwLock.RunInv | kernel/rwlock.c:33-86 | so in every run |
| RwLock.Exclusion | kernel/rwlock.c:33-86 | never a writer together with a reader or another writer |
| RwLock.WritersFirst | kernel/rwlock.c:33-45 | a reader enters only when no writer waits |
| RwLock.ReaderAdmitted | kernel/rwlock.c:33-45 | in every run a reader that tries is admitted exactly when nobody writes and no writer waits; else it sleeps |
| RwLock.WriterAdmitted | kernel/rwlock.c:61-74 | a writer that tries is admitted exactly when nobody reads or writes; else it sleeps |
| RwLock.ReleaseWakes | kernel/rwlock.c:47-86 | a release lets go of this hold only; all sleepers wake if no reader is left, none otherwise |
| RwLock.SleepersWillBeWoken | kernel/rwlock.c:33-86 | whoever sleeps waits for a holder or for a woken writer |
| RwLock.UnheldReleaseBreaksExclusion | kernel/rwlock.c:47-59 | a release without holding lets a writer in beside a reader |
| RwLock.ReadReleaseExact | kernel/rwlock.c:47-59 | a read release keeps the invariant exactly if the thread reads |
| RwLock.WriteReleaseExact | kernel/rwlock.c:76-86 | a write release keeps it exactly if the thread writes or nobody does |
| RwLock.Lock.RLockPass | kernel/rwlock.c:34-45 | refines RLock and RAgain |
| RwLock.Lock.RUnlock | kernel/rwlock.c:47-59 | refines RUnlock, by any thread; the invariant stays exactly if the thread reads |
| RwLock.Lock.WLockPass | kernel/rwlock.c:61-74 | refines WLock and WAgain |
| RwLock.Lock.WUnlock | kernel/rwlock.c:76-86 | refines WUnlock, by any thread; the invariant stays exactly if the thread writes or nobody does |
| Semaphore.RunInv | kernel/semaphore.c:29-53 | value is initial value plus signals minus completed waits, never negative; a thread sleeps only at 0 |
| Semaphore.Bounded | kernel/semaphore.c:19-53 | completed waits never exceed initial value plus signals, in all runs, exactly if the initial value is not negative |
| Semaphore.NegativeNeverBlocks | kernel/semaphore.c:19-41 | from a negative value any number of waits complete |
| Semaphore.RunCounts | kernel/semaphore.c:29-53 | in every run the value is the initial value plus the signals of the run minus its steps that end a wait |
| Semaphore.WaitPasses | kernel/semaphore.c:29-41 | a thread that tries passes exactly when the value is not 0, and takes one |
| Semaphore.SignalLetsOneIn | kernel/semaphore.c:43-53 | a signal wakes all sleepers, and the first of them to try passes |
| Semaphore.Sem.WaitPass | kernel/semaphore.c:29-41 | refines Wait and Again; it returns exactly with one taken |
| Semaphore.Sem.Signal | kernel/semaphore.c:43-53 | refines Signal; one more, and nobody asleep |
| Pipe.FullEmpty | kernel/pipe.c:88-113 | the tests on the wrapped 32-bit counters mean full and empty |
| Pipe.Put | kernel/pipe.c:95-96 | adding a byte keeps the ring equal to the bytes written and not taken |
| Pipe.Take | kernel/pipe.c:121-123 | the byte taken is the oldest one |
| Pipe.Pipe.OneSideSleeps | kernel/pipe.c:76-130 | readers and writers never sleep at the same time |
| Pipe.Pipe.ReadsArePrefix | kernel/pipe.c:105-130 | without a failed copyout the bytes read are the first bytes written, in order |
| Pipe.Pipe.Close | kernel/pipe.c:58-74 | the page is freed exactly when both ends are closed, with nobody asleep |
| Pipe.Pipe.WritePass | kernel/pipe.c:76-103 | exactly which bytes went in; fails exactly if killed or closed, sleeps exactly if it reaches a full pipe before its end or a fault; sleeping writers mean full and open, sleeping readers empty and open |
| Pipe.Pipe.ReadPass | kernel/pipe.c:105-130 | returns exactly if there is a byte or no writer, else sleeps or fails; exactly which bytes came out, and exactly when a failed copyout loses one |
| Pipe.LosesByte | kernel/pipe.c:121-124 | two bytes written, a failed read and a good one: only the second byte is delivered |
| ShellGrammar.RtLine | user/sh.c:345-373 | the tokens of a written command parse to it |
| ShellGrammar.RtExec | user/sh.c:375-447 | so do those of a simple, parenthesised or redirected command |
| ShellGrammar.FullLine | user/sh.c:437-441 | with ten arguments somewhere the parse panics |
| ShellGrammar.PRedirsOnto | user/sh.c:375-398 | redirections accumulate around the command in order |
| ShellSyntax.SimpleExact | user/sh.c:416-447 | parseexec gives exactly the words in order inside exactly the redirections in order, wherever they stand; it panics exactly if a token is neither, a redirection lacks its file, or there are ten words |
| ShellSyntax.LineExact | user/sh.c:345-447 | the parser accepts exactly the lines of a grammar, with the command the grammar gives |
| ShellLexer.ParseExact | user/sh.c:328-447 | a string parses to a command exactly if its tokens are such a line; it panics on all others, leftovers included |
| ShellLexer.TokenIs | user/sh.c:266-309 | a token is a symbol, >> or a word, as long as can be |
| ShellLexer.LexIs | user/sh.c:266-309 | lexing loses nothing but white space |
| ShellLexer.LexSpell | user/sh.c:266-309 | spelled tokens are read back |
| ShellLexer.RoundTrip | user/sh.c:266-447 | a written command is a C string and parses to itself exactly if no part has ten arguments |
| ShellParser.Parser.GetToken | user/sh.c:266-309 | returns the kind of the next token and where it lies, and moves past it |
| ShellParser.Parser.Peek | user/sh.c:311-321 | whether the next token starts with one of the characters; only white space is skipped |
| ShellParser.Parser.ParseRedirs | user/sh.c:375-398 | agrees with the grammar, panics included |
| ShellParser.Parser.ParseExec | user/sh.c:416-447 | agrees with the grammar, which ShellSyntax.SimpleExact describes by positions |
| ShellParser.Parser.ParseBlock | user/sh.c:400-414 | agrees with the grammar |
| ShellParser.Parser.ParsePipe | user/sh.c:362-373 | agrees with the grammar |
| ShellParser.Parser.ParseLine | user/sh.c:345-360 | agrees with the grammar; the mutual recursion ends on every string |
| ShellParser.Parser.ParseCmd | user/sh.c:328-341 | the tree of the whole line, or a panic, as the grammar says |
| ShellParser.NulTerminate | user/sh.c:450-494 | a 0 at the end of each counted string of the tree and nowhere else |
| ShellParser.ParseBuffer | user/sh.c:328-343 | afterwards each argument and file name, read up to the first 0, is its token |
| Matcher.InLanguageFirst | user/grep.c:84-106 | a string is in the language of a pattern exactly if its first item takes a prefix and the rest the rest |
| Matcher.MatchHere | user/grep.c:84-96 | true exactly when the pattern matches a prefix of the text, all of it before a final $ |
| Matcher.MatchStar | user/grep.c:98-106 | true exactly when some run of fitting characters is followed by a match |
| Matcher.Match | user/grep.c:72-82 | true exactly when some substring lies in the language of the pattern where its anchors want it |

## Left out

- UART, PLIC, virtio, start-up and assembly code: the disk is an array of blocks, a context switch a change of the current process.
- More than one CPU: the repository restricts the scheduler to one.
- Directories, path names, inode allocation, link counts, exec, wait's copying of the status: they would add easy members, and an invariant of link counts does not hold over all runs.
- Interrupts in the gap between the release of p->lock and schedule in sleep and exit: both are one step here.
- The kernel's own page table: the model is about user page tables, in page units; the alignment panics are left out.
- copyinstr and uvmclear: they would repeat copyin and mappages.
- Allocation failure inside the shell parser: malloc is not checked by the source either.
- The grep buffer loop and everything else in user programs.
- Inodes.FileSystem.Writei: a copy from user memory that faults inside a block changes the cached block without logging it; here it changes nothing.
- TableFree.FreeWalk: says nothing about the page tables after a panic, nor do UvmFree and ProcFreePagetable.
- PageTables.Vm.MapPages: the flags include R, W or X, as those of every caller do; without them freewalk would take the page for a table. The same holds of MapOne.
- PageTables.Vm.UnmapOne: a page is freed only below the trapframe, as by every caller; the two pages on top belong to the kernel. The same holds of UvmUnmap.
- Heap.Heap.Malloc: sbrk returns memory above all that was recorded before; after a request of 2^27 units or more the kernel no longer guarantees that.
- CrashWrites.CrashInSharedWrite: operations of one group are taken one after the other; that interleaved ones commit together is GroupCommit's. Other processes leave the file itself alone.
- FileWrites.ChunkFits: that a chunk can be counted with ten blocks is ChunkTight; no disk on which one logs ten is given.
- Pipe.Pipe.WritePass: whether the caller is killed does not change during one stay in the critical section, as on one CPU with interrupts off.
- Semaphore.Sem.Signal: does not model overflow of the int value, nor do the counters of the reader/writer lock.
- ProcTable.Kernel.AllocProc: the page table and kernel stack of the new process are not part of this class.

# Verified models of the kernel and tools in `OperatingSystems`, and of the bundled UTF-8 library

This project models the hard cores of the repository and proves what they are for. Paths
in the table below are relative to the root of the repository.

**Write-ahead log** (`log.c` over `bio.c`). `LogDisk` has the disk as a map from block
numbers to sectors and what replaying a header does to it. `LogMachine` is the protocol as
a state machine: any number of processes, a step for each section under `log.lock`
(`begin_op` 126-141, `end_op` 146-174, the append of `log_write` 223-232), for the
unlocked test of `log_write` (218-221), for every `bwrite` of `commit` (192-202) and of
`recover_from_log` (116-122), for loads and evictions by the buffer cache, for taking and
releasing a buffer to read it, and for a crash, which loses cache and in-memory header, at
any point including recovery. `bget` panics when every buffer is pinned, being modified or
held. `LogReads` says what reads do and when they fail, `LogRuns` has the theorems about
whole runs, `LogLimits` says how large log and cache must be, and `LogDevice` is the code
itself as a class whose loops are proved to take steps of the machine. The comment at
`log.c:204-212` promises that `log_write` absorbs repeated writes; when all LOGSIZE
entries are taken the test at line 218 comes first and panics instead
(`RewriteOfFullLogPanics`), and `mkfs.c:27` makes the log one block smaller than `begin_op`
assumes (`LogFitsIff`, `Overflow`). A transaction that outgrows the log can
be written past it, over a home block (`WritesPastLog`), unless it has pinned every buffer,
so that its commit panics first: crash atomicity holds exactly for the sizes of
`CrashAtomicIff`, among them the shipped ones, 30 log blocks and 30 buffers (`Roomy`).
`param.h:11-12` makes the cache as small as LOGSIZE, so a full transaction pins every buffer
and its commit panics at its first read (`CommitPanics`). More than LOGSIZE buffers are not
enough either, because the committer and any reader hold one besides
(`ReadPanicsDuringCommit`); LOGSIZE and one for each that all processes may hold at once are
exactly enough (`CommitsGoOnIff`, `ReadsSafeIff`).

**Sleep-locks** (`sleeplock.c`, `proc.c`, `spinlock.c`). `SleepLock` has a program counter
per process and per CPU scheduler, the two spinlocks handed over inside `sleep`
(`proc.c:418-452`), `wakeup1` entry by entry, `sched` and `scheduler`, timer interrupts and
`kill`. All interleavings are runs. `Scheduler` follows a woken process until it is back at
the test of `acquiresleep`.

**Allocator** (`umalloc.c`, after section 8.7 of The C Programming Language). `FreeList`
has the heap as values and the invariant: one address-ordered ring, blocks disjoint and
exhaustive, no two free blocks adjacent. `Allocator` is `malloc`, `free` and `morecore` as
methods of a class.

**Files** (`fs.c`). `BlockBytes` has table words and bitmap bits as bytes, `FileTree` who
owns which block and what each file contains, `EmptyVolume` the volume `mkfs` begins with,
`FileSystem` the code of `balloc`, `bfree`, `bmap`, `readi`, `writei` and `itrunc`,
`WriteQuota` what one `writei` gives to `log_write`. `filewrite` (`file.c:125-146`) means to
stay within MAXOPBLOCKS blocks; at the edge of the indirect table it does so only if the
lowest free blocks lie close together (`EdgeQuota`).

**Pipe** (`pipe.c`). `Pipe` counts apart what each process writes and takes and who sleeps.
A writer that returns -1 wakes nobody: if it has filled the ring while a reader slept, the
reader sleeps on at a full ring (`KilledWriter`); otherwise nobody sleeps who could go on.

**Shell** (`sh.c`). `ShellGrammar` has the parser as functions, `ShellTokens` and
`ShellAccepts` the grammar of lines over tokens, which the parser accepts exactly,
`ShellOrder` how tokens are ordered and grouped in the tree, `ShellPrinter` a printer and its
inverse, `Shell` the code.

**Buffer cache** (`bio.c`), **address spaces** (`vm.c` of ass4: values
in `PageTables`, the frames a stretch of pages takes in `FramesNeeded`, code in
`AddressSpace`), **second-chance paging** (`vm.c` of ass3) and the
**matcher of `grep`** (`grep.c`) are classes or methods over their own invariants.

**UTF-8 and UTF-16** (`core.h`, `checked.h`, `unchecked.h`; sections 3 and 4 of RFC 3629,
sections 2.1 and 2.2 of RFC 2781, with U+FFFE and U+FFFF rejected as the code does).
`Utf8Bits` has the bits, `Utf8` one sequence and whole texts, `Utf16` the conversions and
the unchecked forms. Two things the code does against its own comments are modelled as they
are: `next` reports an invalid code point as 0, because `validate_next` stores nothing when
it fails, and `prior` can read before its start, because its test follows the read.

Some faults of the code have a witness beside their exact condition: `itrunc` leaks the
blocks under the double-indirect slot (`LargeFileWitness`, `TruncateLargeFile`), `copyuvm`
loses a frame when memory ends between a page and its table (`CopyLosesFrame`), `malloc`
asks `sbrk` for a negative count (`LargeFirstRequest`), a commit panics (`CommitPanics`),
and the paging code keeps a list entry or a page-table entry for a page that is nowhere
(`FullMemoryLost`, `SwappedPageLost`).

Several invariants are stated under a quantifier over `Key` or a predicate like it. It
changes nothing about their meaning; the verifier unfolds them only in the lemmas that
mention it.

Check it with `dafny verify dfyconfig.toml`.

## Model

| member | source | states |
|---|---|---|
| LogDisk.ReplayAt | OperatingSystems/ass4/Assignment4_RefHag/log.c:69-82 | Replaying a header writes exactly the listed home blocks, each with the contents of its own log block, and leaves every other block of the disk alone. |
| LogDisk.LogWriteInvisible | OperatingSystems/ass4/Assignment4_RefHag/log.c:176-190 | A crash after writing a log block that the on-disk header does not name recovers to the same home blocks as a crash before it. |
| LogDisk.InstallInvisible | OperatingSystems/ass4/Assignment4_RefHag/log.c:69-82 | A crash after writing any contents whatever into a home block that the header names recovers to the same home blocks as a crash before it. |
| LogDisk.ClearInvisible | OperatingSystems/ass4/Assignment4_RefHag/log.c:199-200 | Once every logged block is home, emptying the header loses nothing, and the home blocks already are what recovery would make of them. |
| LogMachine.StepGood | OperatingSystems/ass4/Assignment4_RefHag/log.c:125-233 | Every step of every process, of recovery and of a crash keeps the invariant, can panic only in the size test of `log_write` or in a read for which `bget` finds no buffer, and changes what recovery would restore only at the header write that commits, where it becomes what readers see. |
| LogMachine.Reserved | OperatingSystems/ass4/Assignment4_RefHag/log.c:125-141 | An operation about to log a block that is new to it always finds room, whatever the other operations have done between its test and its append. |
| LogMachine.LastOneOut | OperatingSystems/ass4/Assignment4_RefHag/log.c:146-174 | When the last operation ends and the commit begins, every other process is outside any operation. |
| LogMachine.CommitAlone | OperatingSystems/ass4/Assignment4_RefHag/log.c:146-202 | While a commit runs no process is inside an operation, no block is being modified and no reservation is open. |
| LogMachine.WriteLogFits | OperatingSystems/ass4/Assignment4_RefHag/log.c:176-190 | Where `write_log` has got a buffer for its log block the transaction fits in the log beside its header, also when `log_write` has let it outgrow the log: then it had pinned every buffer. |
| LogMachine.WriteHeadCommits | OperatingSystems/ass4/Assignment4_RefHag/log.c:98-113 | Once the header is on disk, recovery restores exactly what the cache shows at that moment. |
| LogMachine.CommitKeepsView | OperatingSystems/ass4/Assignment4_RefHag/log.c:192-202 | No step of a commit changes what a read through the cache sees. |
| LogReads.GotKeeps | OperatingSystems/ass4/Assignment4_RefHag/bio.c:58-106 | A `bread` through a cache of NBUF buffers, which may recycle a clean one that nobody holds, keeps the invariant, everything a reader sees, and every buffer that is held, pinned or being modified. |
| LogReads.TakenFew | OperatingSystems/ass4/Assignment4_RefHag/log.c:125-141 | In every good running state the buffers that cannot be recycled are those other processes hold to read them and at most LOGSIZE others: the reservation bounds pinned and modified buffers together. |
| LogReads.BufferAlwaysLeft | OperatingSystems/ass4/Assignment4_RefHag/bio.c:78-92 | With more buffers than LOGSIZE and those held for reading together `bget` always finds one, whatever the operations under way have pinned or are modifying; during recovery one buffer is enough. |
| LogReads.CommitStarves | OperatingSystems/ass4/Assignment4_RefHag/log.c:176-202 | While a commit runs, no buffer can be had exactly when the blocks of the transaction that are still pinned at that point, and those other processes hold, are as many as the buffers. |
| LogReads.CommitGoesOn | OperatingSystems/ass4/Assignment4_RefHag/log.c:192-202 | From every good state in which it may take a buffer the committing process can take its next step after some reads, if and only if it reads no further block, or has it cached, or the blocks still pinned and those others hold leave a buffer. |
| LogReads.RecoveryGoesOn | OperatingSystems/ass4/Assignment4_RefHag/log.c:115-122 | Recovery can take its next step after some reads if and only if there is one buffer, or two while it copies blocks home. |
| LogRuns.RunInv | OperatingSystems/ass4/Assignment4_RefHag/log.c:116-233 | The invariant holds in every state of every run from boot, with any interleaving, any number of crashes, buffers and readers, for every log of more than LOGSIZE blocks, or of at least as many blocks as the cache has buffers (as shipped, with 30 of each), or of at most one block. |
| LogRuns.CrashAtomicity | OperatingSystems/ass4/Assignment4_RefHag/log.c:69-122 | In every state of every run, also in the middle of a commit or of an earlier recovery, replaying the log found on disk gives exactly what readers saw at the last commit point: all of every committed transaction and nothing of the others. |
| LogRuns.CommitHoldsFinishedOps | OperatingSystems/ass4/Assignment4_RefHag/log.c:143-174 | At every commit point of every run no operation is outstanding and no other process is inside one, so no transaction is committed with part of an operation. |
| LogRuns.CommitIsDurable | OperatingSystems/ass4/Assignment4_RefHag/log.c:192-202 | When a commit of any run is over, a crash would lose nothing of what readers see. |
| LogRuns.CommitNeverStuck | OperatingSystems/ass4/Assignment4_RefHag/log.c:192-202 | In every state of every run a committing process that may take a buffer can go on, after some reads, if and only if it reads no further block, or has it cached, or the blocks still pinned and those others hold leave a buffer; never more than LOGSIZE are pinned. |
| LogRuns.ReadsNeverPanic | OperatingSystems/ass4/Assignment4_RefHag/bio.c:78-92 | With a buffer for each of LOGSIZE blocks and each that processes may hold at once, no read of any run, by an operation, a commit, recovery or a mere reader, panics for want of one. |
| LogRuns.RecoveryProgress | OperatingSystems/ass4/Assignment4_RefHag/log.c:115-122 | Every step of recovery, taken after the reads it needs, brings it nearer its end, keeps the invariant and keeps what the log stands for. |
| LogRuns.RecoveryRestores | OperatingSystems/ass4/Assignment4_RefHag/log.c:115-122 | With two buffers or more recovery, its own writes included, ends with the home blocks equal to what the log stood for when it began, an empty header, no operation and no commit under way. |
| LogRuns.CrashThenRecover | OperatingSystems/ass4/Assignment4_RefHag/log.c:53-122 | A crash in any state of any run followed by a complete recovery leaves on disk exactly the durable contents; two buffers are enough. |
| LogRuns.Reservation | OperatingSystems/ass4/Assignment4_RefHag/log.c:125-174 | In every running state of every run, the logged blocks and what all operations may still claim together fit in LOGSIZE, the logged blocks are distinct, a commit excludes outstanding operations, and `outstanding` counts the operations. |
| LogRuns.AdmittedIff | OperatingSystems/ass4/Assignment4_RefHag/log.c:125-141 | In every running state of every run a process that calls `begin_op` is kept waiting if and only if a commit is under way or the logged blocks and MAXOPBLOCKS for each process inside an operation, and for this one, exceed LOGSIZE. |
| LogRuns.OperationsGoOn | OperatingSystems/ass4/Assignment4_RefHag/log.c:143-233 | In every running state of every run a process inside an operation may end it, one inside `log_write` may go on, and a block may be modified exactly when it is cached, no block of the log, within the operation's MAXOPBLOCKS and in nobody else's hands. |
| LogRuns.ReadersSee | OperatingSystems/ass4/Assignment4_RefHag/log.c:125-233 | No step of any run of a running system changes what readers see, but a modification, and that changes exactly its block to exactly its data. |
| LogRuns.ReadsGoOn | OperatingSystems/ass4/Assignment4_RefHag/bio.c:58-106 | In every state of every run a read by a free hand is possible if and only if the block is cached, or a buffer is unused, or one is clean and neither held nor being modified. |
| LogRuns.PanicsOnlyWhenFull | OperatingSystems/ass4/Assignment4_RefHag/log.c:214-233 | A step of any run panics if and only if it is the size test of `log_write` on a full log or a read for which `bget` finds no buffer. In the first case, in a log of more than LOGSIZE blocks, every reservation is used up and the block is one the caller has logged before; the second takes fewer buffers than LOGSIZE and the hands of all readers together. |
| LogLimits.Overflow | OperatingSystems/ass4/Assignment4_RefHag/log.c:214-233 | For every log of 2 to LOGSIZE blocks, and a cache that can pin as many, there is a run in which two operations both pass the unlocked size test and the logged blocks leave no room for the header. |
| LogLimits.LogFitsIff | OperatingSystems/ass4/Assignment4_RefHag/log.c:214-233 | In every state of every run the transaction fits in the log beside its header if and only if the log has more than LOGSIZE blocks, or more blocks than the cache can pin, or at most one block; `mkfs.c:27` gives it exactly LOGSIZE and `param.h:12` lets the cache pin LOGSIZE. |
| LogLimits.RewriteOfFullLogPanics | OperatingSystems/ass4/Assignment4_RefHag/log.c:214-233 | However large the log, when the cache can pin LOGSIZE blocks there is a run in which three operations fill the log and writing a block that is already logged panics instead of being absorbed. |
| LogLimits.CommitPanics | OperatingSystems/ass4/Assignment4_RefHag/bio.c:78-92 | For every cache with a buffer less than one for each of LOGSIZE blocks and each hand (`param.h:11-12` makes it LOGSIZE) there is a run in which three operations and some readers take them all and the first read of the commit panics in `bget`. |
| LogLimits.ReadPanicsDuringCommit | OperatingSystems/ass4/Assignment4_RefHag/log.c:182-188 | With more than LOGSIZE buffers, but fewer than LOGSIZE and all hands, there is a run in which the committer holds the buffer of its first log block and could go on, while the read of a home block by another process panics. |
| LogLimits.CommitsGoOnIff | OperatingSystems/ass4/Assignment4_RefHag/log.c:176-202 | In every state of every run a commit that may take a buffer can go on if and only if the cache has a buffer for each of LOGSIZE blocks and each that processes may hold at once, or none, so that no commit ever begins. |
| LogLimits.ReadsSafeIff | OperatingSystems/ass4/Assignment4_RefHag/bio.c:78-92 | No read of any run panics for want of a buffer if and only if the cache has one for each of LOGSIZE blocks and each that processes may hold at once. |
| LogLimits.WritesPastLog | OperatingSystems/ass4/Assignment4_RefHag/log.c:176-190 | For every log of 2 to LOGSIZE blocks and a larger cache there is a run in which `write_log` copies the last block of a transaction to the first home block after the log: a write that commits nothing, and after which a crash restores other contents than before it. |
| LogLimits.CrashAtomicIff | OperatingSystems/ass4/Assignment4_RefHag/log.c:69-233 | Every state of every run is crash-atomic, replay restoring exactly what readers saw at the last commit point, if and only if the log has more than LOGSIZE blocks, or at least as many as the cache has buffers, or at most one. |
| LogLimits.BeginsBesideLogged | OperatingSystems/ass4/Assignment4_RefHag/log.c:125-141 | There is a run, in every log and cache that can hold a block, in which an operation begins while another, which has logged a block, is still under way. |
| LogDevice.Log.constructor | OperatingSystems/ass4/Assignment4_RefHag/log.c:53-66 | The state in which recovery begins: geometry from the superblock, a number of buffers and of hands, nothing cached or held, an empty in-memory header. |
| LogDevice.Log.BRead | OperatingSystems/ass4/Assignment4_RefHag/bio.c:95-106 | A block is fetched from the disk only when it is not cached, into an unused buffer or a clean one that neither the caller nor another process holds; it panics exactly when there is neither. |
| LogDevice.Log.BWrite | OperatingSystems/ass4/Assignment4_RefHag/bio.c:108-116 | Afterwards disk and cache agree on the block, it is clean, and one disk write has been made. |
| LogDevice.Log.LogWrite | OperatingSystems/ass4/Assignment4_RefHag/log.c:204-233 | Exactly when the log is full or no operation is outstanding it panics and changes nothing; otherwise a block already in the transaction is absorbed, another is appended at the end, and either is pinned in the cache. |
| LogDevice.Log.LogBlock | OperatingSystems/ass4/Assignment4_RefHag/log.c:182-188 | One turn of `write_log` copies the cached block to its own log slot, and a crash right after it would lose the transaction as a whole; it panics exactly when the transaction and what other processes hold take every buffer. |
| LogDevice.Log.WriteLogBlocks | OperatingSystems/ass4/Assignment4_RefHag/log.c:176-190 | When it returns all blocks of the transaction are in the log; a crash after any of its writes restores the contents before the transaction. It panics, before any write, exactly when the transaction and what other processes hold take every buffer. |
| LogDevice.Log.InstallBlock | OperatingSystems/ass4/Assignment4_RefHag/log.c:74-81 | One turn of `install_trans` brings one log block home, and a crash right after it still restores the transaction as a whole, at commit and at boot alike; it panics exactly at boot with fewer than two buffers, or at commit when the blocks still pinned and what others hold take every one. |
| LogDevice.Log.InstallTrans | OperatingSystems/ass4/Assignment4_RefHag/log.c:68-82 | When it returns every block is home; a crash after any of its writes restores the same contents as before it. It panics exactly with a transaction to install and, at boot, fewer than two buffers or, at commit, every buffer taken by it and by what others hold. |
| LogDevice.Log.WriteHeadBlock | OperatingSystems/ass4/Assignment4_RefHag/log.c:98-113 | The header block becomes the in-memory header followed by the entries the block had beyond it, in one disk write; it panics exactly when there is no buffer for the header. |
| LogDevice.Log.EraseHead | OperatingSystems/ass4/Assignment4_RefHag/log.c:199-200 | With the header emptied the home blocks on disk are the committed contents and recovery keeps them; it panics exactly when other processes hold every buffer. |
| LogDevice.Log.ReadHeader | OperatingSystems/ass4/Assignment4_RefHag/log.c:84-96 | The in-memory header becomes the list found on disk, and replay can begin. |
| LogDevice.Log.RecoverFromLog | OperatingSystems/ass4/Assignment4_RefHag/log.c:115-122 | From any state left by a crash: the home blocks become what the log stood for, the header is empty, and a further crash after any of its writes would have lost nothing. It panics, having written nothing, exactly with no buffer, or with one and a transaction to replay. |
| LogDevice.Log.CommitHead | OperatingSystems/ass4/Assignment4_RefHag/log.c:197 | The one write after which a crash restores the transaction instead of losing it; it panics exactly when the transaction and what other processes hold take every buffer. |
| LogDevice.Log.CommitBlocks | OperatingSystems/ass4/Assignment4_RefHag/log.c:195-201 | There is one write such that a crash before it loses the whole non-empty transaction and a crash after it loses nothing; at the end the disk holds what readers saw. It panics, with nothing changed, exactly when the transaction and what other processes hold take every buffer. |
| LogDevice.Log.CommitTransaction | OperatingSystems/ass4/Assignment4_RefHag/log.c:192-202 | The same for every transaction, the empty one included, which needs no buffer, and what readers see does not change. |
| SleepLock.PtExclusive | OperatingSystems/ass4/Assignment4_RefHag/spinlock.c:20-68 | At most one CPU is inside a section that holds `ptable.lock`. |
| SleepLock.LkExclusive | OperatingSystems/ass4/Assignment4_RefHag/spinlock.c:20-68 | At most one CPU is inside a section that holds the sleep-lock's inner spinlock. |
| SleepLock.RunnableIsParked | OperatingSystems/ass4/Assignment4_RefHag/proc.c:322-356 | A process the scheduler finds RUNNABLE is running on no CPU; that it is then run is `Scheduler.NeverPasses`. |
| SleepLock.SchedStructure | OperatingSystems/ass4/Assignment4_RefHag/proc.c:358-382 | `sched` passes all its own tests whenever it is reached, and leaves the process off every CPU at the point where it will resume. |
| SleepLock.StepStructure | OperatingSystems/ass4/Assignment4_RefHag/proc.c:322-497 | Every enabled step keeps the lock ownership, interrupt nesting and process states consistent, and none of the panics in `acquire`, `release`, `popcli` or `sched` is reached. |
| SleepLock.StepMoves | OperatingSystems/ass4/Assignment4_RefHag/proc.c:415-497 | A step advances only the process its CPU runs, and does to the entry of any other exactly one thing: a scan that has come to it marks it RUNNING if it is RUNNABLE, `wakeup1` and `kill` make it RUNNABLE if it sleeps; no other CPU's state changes, and `locked` and `pid` only in `acquiresleep` and `releasesleep`. |
| SleepLock.PassesOver | OperatingSystems/ass4/Assignment4_RefHag/proc.c:454-465 | `wakeup1` never steps past an entry that is asleep on its channel without making it runnable. |
| SleepLock.MovesLock | OperatingSystems/ass4/Assignment4_RefHag/sleeplock.c:22-42 | Every step keeps: one holder at most, `locked` exactly when there is one, `pid` naming it. |
| SleepLock.MovesWake | OperatingSystems/ass4/Assignment4_RefHag/proc.c:415-474 | After every step a process committed to sleeping on the lock implies that the lock is held or that a `wakeup` still has its table entry ahead. |
| SleepLock.StepInv | OperatingSystems/ass4/Assignment4_RefHag/sleeplock.c:22-42 | Every enabled step of any CPU keeps the whole protocol invariant. |
| SleepLock.RunInv | OperatingSystems/ass4/Assignment4_RefHag/sleeplock.c:22-42 | The protocol invariant holds in every state of every interleaving of any number of CPUs and processes. |
| SleepLock.NoPanic | OperatingSystems/ass4/Assignment4_RefHag/spinlock.c:20-121 | No run reaches a panic of `acquire`, `release`, `popcli` or `sched`. |
| SleepLock.MutualExclusion | OperatingSystems/ass4/Assignment4_RefHag/sleeplock.c:22-42 | In every state of every run at most one process is between `acquiresleep` and `releasesleep`, even if preempted or killed there, and the lock is marked held with its pid. |
| SleepLock.NoLostWakeup | OperatingSystems/ass4/Assignment4_RefHag/proc.c:415-474 | In every state of every run in which the inner spinlock is free, a process asleep on the lock, or past the point of no return on its way there, implies that another process holds the lock and so is still to wake it. |
| SleepLock.NoSpinDeadlock | OperatingSystems/ass4/Assignment4_RefHag/spinlock.c:20-43 | In every run a CPU that spins waits for another CPU, and that one spins itself only when the first wants the inner lock and it wants `ptable.lock`: there is no cycle of waiting. |
| Scheduler.CpuMoves | OperatingSystems/ass4/Assignment4_RefHag/proc.c:323-356 | What a CPU runs changes only by its own steps: from one table entry to the next, to a RUNNABLE process it has come to, back to the entry after it, and round again at the end of the table. |
| Scheduler.NeverPasses | OperatingSystems/ass4/Assignment4_RefHag/proc.c:334-343 | A scan never steps past an entry that is RUNNABLE: it puts that process on its CPU, marks it RUNNING and changes nothing else. |
| Scheduler.WholeRound | OperatingSystems/ass4/Assignment4_RefHag/proc.c:331-352 | In every run, a round of a CPU's scheduler, from the first entry to the end of the table, looks at every process and runs those that are RUNNABLE then, whatever happens in between. |
| Scheduler.StageStep | OperatingSystems/ass4/Assignment4_RefHag/proc.c:418-452 | From a scan's coming to a woken process until it has the inner lock again, each step of that CPU but a timer interrupt takes it one stage on, and no step of another CPU moves it. |
| Scheduler.ComesBack | OperatingSystems/ass4/Assignment4_RefHag/sleeplock.c:22-32 | In every run a woken process that a scan comes to is resumed and, after five steps of its CPU without a timer interrupt, is back at the test of `acquiresleep` with the inner lock, whatever the other CPUs do. |
| Scheduler.BackInRound | OperatingSystems/ass4/Assignment4_RefHag/sleeplock.c:22-32 | It is so before that CPU's scheduler gets to the end of its table. |
| Scheduler.WokenIsRun | OperatingSystems/ass4/Assignment4_RefHag/proc.c:323-356 | In every run, once a process has been woken no CPU gets round the table before some CPU has come to it, found it as the wakeup left it and resumed it. |
| Scheduler.StageEnabled | OperatingSystems/ass4/Assignment4_RefHag/proc.c:418-452 | On its way back a woken process waits for nothing but the inner lock: its CPU can take the next step if and only if it is not at that lock or the lock is free. |
| Scheduler.KeepsWay | OperatingSystems/ass4/Assignment4_RefHag/proc.c:418-452 | Whatever else happens in a run, timer interrupts included, a woken process goes nowhere but to the test of `acquiresleep`. |
| Scheduler.PreemptedIff | OperatingSystems/ass4/Assignment4_RefHag/trap.c:103-107 | In every run the timer may preempt a process inside the two functions exactly where its CPU holds no spinlock and spins for none; outside them a process may call either, or `kill` for any process. |
| Scheduler.CpuGoesOn | OperatingSystems/ass4/Assignment4_RefHag/spinlock.c:20-68 | In every state of every run a CPU can take a step if and only if it does not spin for a lock that is held. |
| FreeList.Link | OperatingSystems/ass4/Assignment4_RefHag/umalloc.c:33-42 | Linking a block after the one free block where it belongs keeps the address-ordered ring and the partition of memory, touches no live block and leaves no other pair of free neighbours adjacent. |
| FreeList.Join | OperatingSystems/ass4/Assignment4_RefHag/umalloc.c:33-41 | Joining a free block with the one it touches keeps ring and partition and changes no live block. |
| FreeList.FreeKeeps | OperatingSystems/ass4/Assignment4_RefHag/umalloc.c:24-44 | Freeing a live block by the stores of `free` restores the full heap invariant; all other live blocks keep place, size and contents and no unit is lost. |
| FreeList.TakeKeeps | OperatingSystems/ass4/Assignment4_RefHag/umalloc.c:76-77 | Unlinking a free block of the exact size turns it into a live block and keeps the invariant. |
| FreeList.CarveKeeps | OperatingSystems/ass4/Assignment4_RefHag/umalloc.c:78-82 | Cutting the tail end off a larger free block makes a live block of those units and keeps the invariant. |
| FreeList.GrowKeeps | OperatingSystems/ass4/Assignment4_RefHag/umalloc.c:54-58 | Fresh memory from `sbrk`, dressed up as a live block, keeps the invariant and extends the units by exactly that span. |
| FreeList.WayShrinks | OperatingSystems/ass4/Assignment4_RefHag/umalloc.c:30-32 | Following one link takes exactly that block off the way round to any other free block: every walk round the ring reaches every free block. |
| FreeList.WholeWay | OperatingSystems/ass4/Assignment4_RefHag/umalloc.c:74-88 | A walk that starts just after a free block meets every free block before it comes back to it. |
| FreeList.Place | OperatingSystems/ass4/Assignment4_RefHag/umalloc.c:30-32 | For a live block there is one and only one free block at which the loop of `free` stops. |
| FreeList.SizeOfBlocks | OperatingSystems/ass4/Assignment4_RefHag/umalloc.c:63-90 | The sizes of any set of blocks add up to the number of units that lie in them. |
| FreeList.Conservation | OperatingSystems/ass4/Assignment4_RefHag/umalloc.c:24-90 | The sizes of all blocks, free and live, add up to what `sbrk` has delivered. |
| FreeList.Layout | OperatingSystems/ass4/Assignment4_RefHag/umalloc.c:24-90 | Two different blocks never overlap and no free block ends where another begins. |
| FreeList.PayloadWrite | OperatingSystems/ass4/Assignment4_RefHag/umalloc.c:84 | A program that writes past the header of one of its own blocks breaks neither the heap invariant nor any other block. |
| Allocator.UnitsCover | OperatingSystems/ass4/Assignment4_RefHag/umalloc.c:69 | The rounded-up size covers the request if and only if the request is at most 2^32 - 8 bytes, then wastes less than one unit; beyond that the 32-bit sum wraps and the block has no usable byte. |
| Allocator.AskExact | OperatingSystems/ass4/Assignment4_RefHag/umalloc.c:54 | The byte count passed to `sbrk` is positive, and then exact, if and only if fewer than 2^28 units are asked for. |
| Allocator.UnitsBound | OperatingSystems/ass4/Assignment4_RefHag/umalloc.c:69 | Which requests round up to 2^28 units or more, exactly. |
| Allocator.GainedIs | OperatingSystems/ass4/Assignment4_RefHag/umalloc.c:51-60 | The units a request has gained are new: their number is what was asked for, or none after a refusal. |
| Allocator.FirstFitUnique | OperatingSystems/ass4/Assignment4_RefHag/umalloc.c:74-85 | First fit names one block. |
| Allocator.Heap.constructor | OperatingSystems/ass4/Assignment4_RefHag/umalloc.c:21-22 | A heap that has not been used satisfies the invariant and owns nothing. |
| Allocator.Heap.Sbrk | OperatingSystems/ass4/Assignment4_RefHag/umalloc.c:54 | Each call is one more request, answered by the kernel: granted units lie above everything delivered before and nothing below them changes; a refusal changes nothing. |
| Allocator.Heap.Store | OperatingSystems/ass4/Assignment4_RefHag/umalloc.c:84 | The program's own writes into a live block leave the heap valid and every other live block unchanged. |
| Allocator.Heap.FindPlace | OperatingSystems/ass4/Assignment4_RefHag/umalloc.c:30-32 | The loop of `free` terminates at the one free block after which the freed block belongs. |
| Allocator.Heap.Splice | OperatingSystems/ass4/Assignment4_RefHag/umalloc.c:33-43 | The four conditional stores together insert the block and join it with whichever neighbours it touches. |
| Allocator.Heap.Free | OperatingSystems/ass4/Assignment4_RefHag/umalloc.c:24-44 | The freed block leaves the live blocks, no unit is lost, every other live block is unchanged, the heap is valid again, and the next search meets the freed size first. |
| Allocator.Heap.Fresh | OperatingSystems/ass4/Assignment4_RefHag/umalloc.c:54-58 | One request is made. If the kernel grants it there is exactly one new live block of the asked size, the others unchanged, and the heap has come by exactly its units; if not, nothing happens. |
| Allocator.Heap.Morecore | OperatingSystems/ass4/Assignment4_RefHag/umalloc.c:46-61 | Below 2^28 units exactly one request is made, for the wanted units or 4096 if that is more, and null means exactly that the kernel refused it. What is granted, and nothing else, joins the free list and lies at `freep` or just after it, even when merged into its predecessor; otherwise nothing changes. |
| Allocator.Heap.Split | OperatingSystems/ass4/Assignment4_RefHag/umalloc.c:78-82 | The tail n units of the block become a block of their own and the rest keeps its place. |
| Allocator.Heap.HandOut | OperatingSystems/ass4/Assignment4_RefHag/umalloc.c:75-85 | Exactly one block, of exactly the asked units, becomes live; no unit is lost and the other live blocks are unchanged. It is the tail of the block found, and `freep` is the block before that. |
| Allocator.Heap.Init | OperatingSystems/ass4/Assignment4_RefHag/umalloc.c:70-73 | The first call makes a valid ring of the empty block alone, which has no room for anything; later calls change nothing. |
| Allocator.Heap.Search | OperatingSystems/ass4/Assignment4_RefHag/umalloc.c:74-88 | The scan always terminates and finds the first large enough free block if there is one, with no request made. Otherwise, below 2^28 units, exactly one request is made, null means exactly that it was refused, and the heap grows by exactly what it grants; from 2^28 units on the byte count would be zero or negative. |
| Allocator.Heap.Malloc | OperatingSystems/ass4/Assignment4_RefHag/umalloc.c:63-90 | The returned block was not live before and has exactly the rounded-up size; all live blocks stay as they were. If a free block fits, it is the tail of the first one on the way round, and no memory is asked for. Otherwise exactly one request is made, null is returned exactly when the kernel refuses it, and the heap grows by exactly the units wanted or 4096; only for more than 2^31 - 16 and at most 2^32 - 8 bytes is the count of `sbrk` zero or negative. Failure leaves the live blocks and all units as they were. |
| Allocator.LargeFirstRequest | OperatingSystems/ass4/Assignment4_RefHag/umalloc.c:46-61 | A program whose first request is for 2^31 bytes makes `morecore` ask `sbrk` for a negative count. |
| BlockBytes.WordStored | OperatingSystems/ass4/Assignment4_RefHag/fs.c:394-399 | Storing a 32-bit block number in four little-endian bytes changes that entry of the table and no other. |
| BlockBytes.BitStored | OperatingSystems/ass4/Assignment4_RefHag/fs.c:65-67 | Setting or clearing one bit by masking changes that bit of the bitmap block and no other. |
| FileTree.DataSlotInjective | OperatingSystems/ass4/Assignment4_RefHag/fs.c:371-443 | Different block numbers, of one file or of two, are kept in different slots across the direct, indirect and double-indirect ranges. |
| FileTree.LinkAt | OperatingSystems/ass4/Assignment4_RefHag/fs.c:383-439 | Storing a fresh block's number in an empty slot changes what that slot holds and no other slot of any file at any level. |
| FileTree.LinkKeeps | OperatingSystems/ass4/Assignment4_RefHag/fs.c:383-439 | Linking a fresh zeroed block, data or table, keeps ownership exact and changes no byte of any file. |
| FileTree.DataWrite | OperatingSystems/ass4/Assignment4_RefHag/fs.c:541-547 | Writing one data block changes those bytes of that file and nothing else. |
| FileTree.UnlinkKeeps | OperatingSystems/ass3/xv6-paging-master/fs.c:398-415 | Clearing a slot of an inode gives up exactly the blocks reached through it. |
| FileTree.BitAt | OperatingSystems/ass4/Assignment4_RefHag/fs.c:57-77 | The bitmap bit of a block is independent of the bits of all other blocks of the volume. |
| FileTree.ClaimKeeps | OperatingSystems/ass4/Assignment4_RefHag/fs.c:64-71 | Marking and zeroing a free block keeps ownership and bitmap exact and changes no slot and no byte of any file. |
| FileTree.LinkSound | OperatingSystems/ass4/Assignment4_RefHag/fs.c:383-439 | Linking the block just claimed makes the bitmap exact again for the new set of owned blocks. |
| FileTree.EntryBlocksStep | OperatingSystems/ass3/xv6-paging-master/fs.c:408-411 | Each turn of the second loop of `itrunc` meets a block no earlier turn has freed. |
| FileTree.OwnershipExact | OperatingSystems/ass3/xv6-paging-master/fs.c:52-93 | A bitmap bit is set if and only if the block is metadata or some slot of some inode holds it, and no two slots hold the same block. |
| EmptyVolume.EmptySound | OperatingSystems/ass4/Assignment4_RefHag/mkfs.c:243-257 | The volume that `mkfs` begins with, only the metadata blocks marked and every file empty, satisfies the ownership invariant. |
| EmptyVolume.LargeFile | OperatingSystems/ass4/Assignment4_RefHag/fs.c:406-439 | What `bmap` makes of the first block of a file past its single-indirect range, a table, a table in it and a data block, keeps ownership exact. |
| EmptyVolume.LargeFileWitness | OperatingSystems/ass4/Assignment4_RefHag/fs.c:445-478 | There is a sound volume of five blocks whose one file uses its double-indirect slot, the one `itrunc` does not visit. |
| FileSystem.Volume.constructor | OperatingSystems/ass4/Assignment4_RefHag/mkfs.c:243-257 | The empty volume is valid: no block is held and every file is empty. |
| FileSystem.Volume.MarkAndZero | OperatingSystems/ass4/Assignment4_RefHag/fs.c:67-70 | The stores of `balloc`: the block's bit is set and the block is zero. |
| FileSystem.Volume.ScanBitmapBlock | OperatingSystems/ass4/Assignment4_RefHag/fs.c:64-73 | The inner loop stops at the first clear bit, which is that of a free data block, and all blocks passed over are in use. |
| FileSystem.Volume.Balloc | OperatingSystems/ass4/Assignment4_RefHag/fs.c:55-77 | The lowest free block is returned, marked and zeroed, with no effect on any file; it fails only when every data block is in use. The log gets its bitmap block. |
| FileSystem.Volume.StoreSlot | OperatingSystems/ass4/Assignment4_RefHag/fs.c:385-434 | A block number goes into the inode or into the table block, whichever the slot lies in. |
| FileSystem.Volume.Fill | OperatingSystems/ass4/Assignment4_RefHag/fs.c:384-386 | A slot that holds a block is found unchanged; an empty one gets a fresh block and no other slot changes. The log gets the bitmap block, the new block and the table that takes the entry. |
| FileSystem.Volume.Attach | OperatingSystems/ass4/Assignment4_RefHag/fs.c:385-434 | A new block goes to an empty slot: ownership stays exact, no byte of any file changes, no other slot does, and a table that takes the entry is logged. |
| FileSystem.Volume.FillEntry | OperatingSystems/ass4/Assignment4_RefHag/fs.c:390-401 | The same through a table that is allocated first when missing. |
| FileSystem.Volume.Bmap | OperatingSystems/ass4/Assignment4_RefHag/fs.c:371-443 | The address is what the block's slot holds afterwards; a block that is there is found without changing anything, a missing one and its missing tables are allocated, no byte of any file changes; it fails only out of range, changing nothing, or when no block is free. New blocks are the lowest free ones and go to slots on the way only. |
| FileSystem.Volume.BmapDouble | OperatingSystems/ass4/Assignment4_RefHag/fs.c:406-439 | The same for block b of the double-indirect range, through entry b / NINDIRECT and place b % NINDIRECT. |
| FileSystem.Volume.FillTwice | OperatingSystems/ass4/Assignment4_RefHag/fs.c:412-438 | Both table levels are walked, and allocated where they are missing. |
| FileSystem.Volume.ReadChunk | OperatingSystems/ass4/Assignment4_RefHag/fs.c:512-517 | One turn of the loop moves exactly the bytes of the file in that stretch and changes nothing. |
| FileSystem.Volume.ReadBlocks | OperatingSystems/ass4/Assignment4_RefHag/fs.c:512-517 | The loop delivers exactly the asked stretch of the file, across blocks and table levels. |
| FileSystem.Volume.Readi | OperatingSystems/ass4/Assignment4_RefHag/fs.c:507-518 | -1 exactly when the offset is past the end or offset plus count wraps; otherwise the slice of the file clipped at its end, with nothing changed. Nothing is logged. |
| FileSystem.Volume.WriteChunk | OperatingSystems/ass4/Assignment4_RefHag/fs.c:541-547 | One turn writes exactly its stretch of that file; when no block is free no byte has changed and the block of the stretch is still missing. |
| FileSystem.Volume.WriteBlocks | OperatingSystems/ass4/Assignment4_RefHag/fs.c:541-547 | The loop writes exactly the source bytes at the offset, and stops early only when no block is free and one of the stretch is still missing. |
| FileSystem.Volume.WriteTurn | OperatingSystems/ass4/Assignment4_RefHag/fs.c:541-547 | One turn writes a stretch that lies in one block, or nothing when no block is free. |
| FileSystem.Volume.Grow | OperatingSystems/ass4/Assignment4_RefHag/fs.c:549-552 | The size becomes the end of the write when that is past the old size; no other size and no byte changes. |
| FileSystem.Volume.WriteSource | OperatingSystems/ass4/Assignment4_RefHag/fs.c:541-553 | Once the arguments are accepted it fails if and only if fewer blocks are free than slots on the way to the stretch are empty, and then no size has changed and a proper prefix has been written; otherwise the file is spliced with the source and all others are as before. |
| FileSystem.Volume.Writei | OperatingSystems/ass4/Assignment4_RefHag/fs.c:536-553 | -1 exactly when the offset is past the end or the write would pass the largest file. Otherwise it panics if and only if fewer blocks are free than slots on the way to the stretch, tables included, are empty; then a proper prefix of the source has been written and no size has changed. Else the file is the old contents with the source written over or past the end from the offset, all other files are as before, and a write past the single-indirect range leaves the double-indirect slot in use. What it gives to `log_write` is exactly what `WillLog` tells from the state before. |
| WriteQuota.NewBlocks | OperatingSystems/ass4/Assignment4_RefHag/fs.c:55-77 | The blocks that `balloc` has handed out over a whole write are the lowest blocks that were free before it, one for each slot that has got one. |
| WriteQuota.WroteTouched | OperatingSystems/ass4/Assignment4_RefHag/fs.c:525-554 | When a stretch of blocks has been written the log has got exactly, as told from the state before: its data blocks, the slots on the way that were empty, the tables that took an entry, and the bitmap blocks of the lowest free blocks, as many as there were empty slots. |
| WriteQuota.WroteFits | OperatingSystems/ass4/Assignment4_RefHag/fs.c:377-434 | A write that has got all its blocks found as many free as slots on the way were empty. |
| WriteQuota.StuckShort | OperatingSystems/ass4/Assignment4_RefHag/fs.c:377-434 | A write stuck at a missing block with none free had fewer free than slots were empty. |
| WriteQuota.HowMany | OperatingSystems/ass4/Assignment4_RefHag/fs.c:525-554 | The number of distinct blocks one write logs: the blocks of the stretch, the tables that are new or take an entry, the bitmap blocks of the lowest free blocks, and the inode's when the file grows. |
| WriteQuota.DistinctBlocks | OperatingSystems/ass4/Assignment4_RefHag/fs.c:377-443 | Different items of such a log are different blocks: what a slot holds is held by no other slot and is no bitmap block. |
| WriteQuota.ChunkBlocks | OperatingSystems/ass4/Assignment4_RefHag/file.c:125-146 | A write of the size `filewrite` allows itself in one operation logs at most eight blocks besides bitmap blocks, wherever it begins. |
| WriteQuota.QuotaKept | OperatingSystems/ass4/Assignment4_RefHag/file.c:125-146 | When the data blocks of the volume share at most two bitmap blocks every such write logs at most MAXOPBLOCKS distinct blocks. |
| WriteQuota.EdgeQuota | OperatingSystems/ass4/Assignment4_RefHag/file.c:125-146 | For a file that ends in the last block but one of its indirect table, one more such write logs at most MAXOPBLOCKS distinct blocks if and only if the five lowest free blocks share at most two bitmap blocks. |
| FileSystem.Volume.Bfree | OperatingSystems/ass3/xv6-paging-master/fs.c:77-93 | The bit of the block is cleared and nothing else; the panic on a free block is reached exactly when the block is not marked in use. |
| FileSystem.Volume.Unlink | OperatingSystems/ass3/xv6-paging-master/fs.c:412-414 | The slot and, for the indirect one, its entries are given up; every other slot keeps its block. |
| FileSystem.Volume.DropDirect | OperatingSystems/ass3/xv6-paging-master/fs.c:398-403 | One turn of the first loop never meets a free block and gives up exactly that slot. |
| FileSystem.Volume.FreeEntry | OperatingSystems/ass3/xv6-paging-master/fs.c:408-411 | One turn of the second loop never meets a free block. |
| FileSystem.Volume.FreeEntries | OperatingSystems/ass3/xv6-paging-master/fs.c:407-411 | Every block the table refers to is freed, each once. |
| FileSystem.Volume.DropIndirect | OperatingSystems/ass3/xv6-paging-master/fs.c:405-415 | The indirect table and everything in it are given up without a panic, and nothing else. |
| FileSystem.Volume.Itrunc | OperatingSystems/ass3/xv6-paging-master/fs.c:386-419 | Truncation never reaches the panic on a free block, leaves the file empty, gives up every block of its direct and single-indirect slots, changes no other slot and no other file, and leaves the file without any block if and only if its double-indirect slot was empty. |
| FileSystem.Volume.DropDirects | OperatingSystems/ass3/xv6-paging-master/fs.c:386-419 | The loop over the direct slots empties them all without a panic. |
| FileSystem.ReadBack | OperatingSystems/ass4/Assignment4_RefHag/fs.c:495-554 | In the contents `writei` leaves, reading at the same offset gives the bytes written, and every old byte outside is in place. |
| FileSystem.TruncationComplete | OperatingSystems/ass4/Assignment4_RefHag/fs.c:445-478 | Truncation releases all blocks of the file if and only if its double-indirect slot was empty, because `itrunc` does not visit that slot. |
| FileSystem.LargeFileHeld | OperatingSystems/ass4/Assignment4_RefHag/fs.c:406-411 | A file that reaches past its single-indirect range uses its double-indirect slot. |
| FileSystem.TruncateLargeFile | OperatingSystems/ass4/Assignment4_RefHag/fs.c:445-478 | Writing past the single-indirect range and truncating leaves blocks allocated to the empty file. |
| Regexp.ParseComplete | OperatingSystems/ass4/Assignment4_RefHag/grep.c:72-96 | The reading of a pattern as anchors and items accounts for each of its characters: printing it back gives the pattern. |
| Regexp.OneMeans | OperatingSystems/ass4/Assignment4_RefHag/grep.c:93-94 | As an item a dot is any one character, another character itself. |
| Regexp.StarMeans | OperatingSystems/ass4/Assignment4_RefHag/grep.c:98-106 | The star of a dot is any string, that of another character any number of it. |
| Regexp.InConcat | OperatingSystems/ass4/Assignment4_RefHag/grep.c:84-106 | The language of two item lists in a row is the concatenation of their languages. |
| Regexp.HereOne | OperatingSystems/ass4/Assignment4_RefHag/grep.c:93-95 | A pattern that begins with a plain character matches here exactly when the first character of the text fits and the rest matches the rest. |
| Regexp.HereStar | OperatingSystems/ass4/Assignment4_RefHag/grep.c:89-90 | A pattern that begins with c* matches here exactly when, after some number of characters that fit c, the rest matches. |
| Regexp.MatchHere | OperatingSystems/ass4/Assignment4_RefHag/grep.c:84-96 | Returns 1 if and only if some prefix of the text, all of it under a trailing $, is in the pattern's language. |
| Regexp.MatchStar | OperatingSystems/ass4/Assignment4_RefHag/grep.c:98-106 | Returns 1 if and only if after some number of fitting characters the rest of the pattern matches. |
| Regexp.Match | OperatingSystems/ass4/Assignment4_RefHag/grep.c:72-82 | Returns 1 if and only if some stretch of the text, at the ends the anchors ask for, is in the language of the pattern; it terminates on every pattern and text. |
| Utf8Bits.JoinEncode | Assignment-Client-Server/Client/include/checked.h:106-130 | Decoding the octets written for any code point up to 10FFFF gives the code point back, in its shortest form. |
| Utf8Bits.EncodeJoin | Assignment-Client-Server/Client/include/core.h:115-131 | A well-shaped sequence that is not overlong is exactly what is written for the code point it stands for. |
| Utf8Bits.PairOfEncode | Assignment-Client-Server/Client/include/core.h:52-53 | The surrogates written for a code point above FFFF are a lead and a trail, and the wrapping 32-bit offset puts them together to that code point. |
| Utf8Bits.EncodeOfPair | Assignment-Client-Server/Client/include/core.h:52-53 | Every pair of a lead and a trail surrogate stands for a code point of the supplementary planes and is what is written for it. |
| Utf8.NextExact | Assignment-Client-Server/Client/include/core.h:250-301 | One sequence is accepted as code point cp of length n if and only if cp is valid, n is the length of its encoding and that encoding stands there. |
| Utf8.GetSequence1 | Assignment-Client-Server/Client/include/core.h:137-146 | A single octet is its own code point. |
| Utf8.GetSequence2 | Assignment-Client-Server/Client/include/core.h:148-171 | The first fault among the trail octets, or the code point with the iterator on the last octet. |
| Utf8.GetSequence3 | Assignment-Client-Server/Client/include/core.h:173-205 | The same for three octets. |
| Utf8.GetSequence4 | Assignment-Client-Server/Client/include/core.h:207-248 | The same for four octets. |
| Utf8.ValidateNext | Assignment-Client-Server/Client/include/core.h:250-301 | On success the iterator is past exactly one encoded valid code point; on failure it is where it was and the error is the first of lead, trail, validity and length faults. |
| Utf8.DecodeExact | Assignment-Client-Server/Client/include/core.h:315-331 | Decoding succeeds exactly on concatenations of encodings of valid code points, and yields the only list of code points that encodes to the text. |
| Utf8.Passes | Assignment-Client-Server/Client/include/core.h:315-325 | Decoding up to one valid end goes through every earlier valid end. |
| Utf8.FindInvalid | Assignment-Client-Server/Client/include/core.h:315-325 | The result is the end of the longest prefix that is a valid text. |
| Utf8.IsValid | Assignment-Client-Server/Client/include/core.h:327-331 | True if and only if the octets are the encoding of some valid code points. |
| Utf16.NextCodePoint | Assignment-Client-Server/Client/include/checked.h:132-150 | The code point and the position past it, or the exception for the first fault with the iterator unmoved. |
| Utf16.Prior | Assignment-Client-Server/Client/include/checked.h:158-167 | The nearest octet before that is no trail octet, decoded; from the end of a sequence it is that sequence, so it undoes `next`; it runs past the front if and only if all octets before are trail octets. |
| Utf16.PriorUndoesNext | Assignment-Client-Server/Client/include/checked.h:158-167 | At a code-point boundary the nearest non-trail octet before is the start of the sequence that ends there. |
| Utf16.Distance | Assignment-Client-Server/Client/include/checked.h:188-196 | The number of code points of the text, or the exception at its first fault. |
| Utf16.RawRefines | Assignment-Client-Server/Client/include/unchecked.h:60-89 | Wherever the checked reader accepts, reading without any test gives the same code point and position. |
| Utf16.UncheckedNext | Assignment-Client-Server/Client/include/unchecked.h:60-89 | The reader without tests computes the raw reading of the octets its lead octet announces. |
| Utf16.UncheckedPrior | Assignment-Client-Server/Client/include/unchecked.h:97-103 | From the end of a sequence of a text it finds the start and code point that the checked form finds. |
| Utf16.Next16Exact | Assignment-Client-Server/Client/include/checked.h:201-223 | One step over UTF-16 succeeds with cp if and only if cp is valid and the words there are what is written for it. |
| Utf16.RoundTrip | Assignment-Client-Server/Client/src/encoder.cpp:48-58 | Converting a valid UTF-8 text to UTF-16 and back gives the text, and converting valid UTF-16 to UTF-8 and back gives the words. |
| Utf16.WriteWords | Assignment-Client-Server/Client/include/checked.h:230-235 | A code point becomes one word or a surrogate pair at the end of the output. |
| Utf16.Utf8To16 | Assignment-Client-Server/Client/include/checked.h:225-238 | Writes the UTF-16 of exactly the code points of the text, or raises the exception of its first fault. |
| Utf16.Append | Assignment-Client-Server/Client/include/checked.h:106-130 | Throws exactly on an invalid code point, writing nothing, and otherwise writes its encoding. |
| Utf16.ReadWords | Assignment-Client-Server/Client/include/checked.h:202-218 | One word or one surrogate pair is consumed; a lone surrogate is reported with the word the code reports. |
| Utf16.Utf16To8 | Assignment-Client-Server/Client/include/checked.h:198-223 | Writes the UTF-8 of exactly the code points of the UTF-16 string, or raises the exception of its first fault. |
| Utf16.UncheckedUtf8To16 | Assignment-Client-Server/Client/include/unchecked.h:144-157 | On every text it writes what the checked conversion writes. |
| Utf16.UncheckedAppend | Assignment-Client-Server/Client/include/unchecked.h:38-58 | Writes the same octets as the checked form, for every 32-bit value. |
| Utf16.UncheckedUtf16To8 | Assignment-Client-Server/Client/include/unchecked.h:129-142 | On every valid UTF-16 string it writes what the checked conversion writes. |
| Utf16.CheckLine | Assignment-Client-Server/Client/src/encoder.cpp:36-58 | On every line, valid or not, the counted length is that of the valid part and the conversion there and back never differs from it. |
| Pipe.CounterIndex | OperatingSystems/ass4/Assignment4_RefHag/pipe.c:93 | A 32-bit counter that has wrapped still indexes the ring where the unbounded count would, because 512 divides 2^32. |
| Pipe.CounterDifference | OperatingSystems/ass4/Assignment4_RefHag/pipe.c:85 | The wrapping difference of the counters is the number of bytes waiting, and the tests for empty and full are exact, also after wrapping. |
| Pipe.BalancedIs | OperatingSystems/ass4/Assignment4_RefHag/pipe.c:93-116 | A process's account is the bytes of the stream that are its own, in order. |
| Pipe.Channel.constructor | OperatingSystems/ass4/Assignment4_RefHag/pipe.c:33-36 | A new pipe is empty and both ends are open. Nobody sleeps. |
| Pipe.Channel.WaitingIs | OperatingSystems/ass4/Assignment4_RefHag/pipe.c:113-117 | What the ring and the counters show are the bytes written and not yet read, in order. |
| Pipe.Channel.Fifo | OperatingSystems/ass4/Assignment4_RefHag/pipe.c:77-121 | In every reachable state the bytes read so far followed by the bytes in the ring are the bytes written so far, and the difference of the counters is at most 512. |
| Pipe.Channel.Put | OperatingSystems/ass4/Assignment4_RefHag/pipe.c:93 | The byte joins the end of what has been written, and the account of who wrote it, and overwrites no byte still waiting. |
| Pipe.Channel.Take | OperatingSystems/ass4/Assignment4_RefHag/pipe.c:116 | The byte returned is the oldest one not yet read, and joins the account of who took it. |
| Pipe.Channel.Close | OperatingSystems/ass4/Assignment4_RefHag/pipe.c:59-75 | Closing an end wakes everyone who sleeps for its sake. |
| Pipe.Channel.Sleep | OperatingSystems/ass4/Assignment4_RefHag/pipe.c:91-111 | While a process sleeps others may do anything, but nothing in its name, and nobody is left asleep who could go on, unless a writer has gone without a wakeup. |
| Pipe.Channel.AwaitRoom | OperatingSystems/ass4/Assignment4_RefHag/pipe.c:85-92 | The loop ends with room in the ring, or at a full ring with an error exactly when no reader is left or the process has been killed, or asleep after the given wakeups; without a wakeup nothing but that has happened. |
| Pipe.Channel.AwaitData | OperatingSystems/ass4/Assignment4_RefHag/pipe.c:106-112 | The loop ends when there is something to read or nobody left to write, or at an empty ring with an error when the process has been killed, or asleep after the given wakeups. |
| Pipe.Channel.PipeWrite | OperatingSystems/ass4/Assignment4_RefHag/pipe.c:77-98 | What the call adds to the stream in its own name is exactly the caller's bytes in order, all of them on success and otherwise a proper prefix; unless it has been woken from a sleep nothing else has happened. It stops short only at a full ring, with an error only when no reader is left or the process has been killed, asleep after exactly the given wakeups; bytes that fit never make it sleep. When it returns nobody sleeps who could go on, but for readers when it fails: a failing call that was never woken leaves them asleep exactly as it found them. |
| Pipe.Channel.PipeRead | OperatingSystems/ass4/Assignment4_RefHag/pipe.c:100-121 | What the call takes from the stream in its own name is exactly what it returns, the next bytes without a gap, fewer than asked for only when the ring is empty, and none only when asked for none or when the write end is closed; unless it has been woken from a sleep nothing else has happened, and with bytes in the ring it does not sleep. It gives up or stays asleep only at an empty ring with a writer left, with an error only when it has been killed. When it returns nobody sleeps who could go on. |
| Pipe.KilledWriter | OperatingSystems/ass4/Assignment4_RefHag/pipe.c:85-92 | A writer that fills the ring while a reader sleeps and is then killed returns without a wakeup: the reader is asleep at a full ring with a writer left. |
| BufferCache.UnlinkRing | OperatingSystems/ass4/Assignment4_RefHag/bio.c:132-133 | The two stores that take a buffer out leave one ring of the others in their order. |
| BufferCache.PushRing | OperatingSystems/ass4/Assignment4_RefHag/bio.c:134-137 | The four stores that put a buffer in leave one ring with it first. |
| BufferCache.SortedMoved | OperatingSystems/ass4/Assignment4_RefHag/bio.c:118-141 | Moving a released buffer to the front keeps the list sorted by time of last release. |
| BufferCache.CountedUse | OperatingSystems/ass4/Assignment4_RefHag/bio.c:62-141 | A buffer some caller uses is referenced, a held one is locked, and only one caller holds it. |
| BufferCache.CoherentNew | OperatingSystems/ass4/Assignment4_RefHag/bio.c:81-90 | Recycling a buffer for a block nobody caches keeps at most one buffer per block and agreement with the disk. |
| BufferCache.CoherentWritten | OperatingSystems/ass4/Assignment4_RefHag/bio.c:108-116 | Writing a buffer to disk keeps every idle clean buffer equal to its disk block. |
| BufferCache.Cache.constructor | OperatingSystems/ass4/Assignment4_RefHag/bio.c:38-56 | All buffers are in the ring, none holds a block, none is referenced. |
| BufferCache.Cache.LinkAll | OperatingSystems/ass4/Assignment4_RefHag/bio.c:47-55 | The ring holds every buffer, the last one put in first. |
| BufferCache.Cache.PushFront | OperatingSystems/ass4/Assignment4_RefHag/bio.c:134-137 | The buffer is first in the list and the others keep their order. |
| BufferCache.Cache.Find | OperatingSystems/ass4/Assignment4_RefHag/bio.c:68-76 | The forward scan finds the buffer of the block if and only if there is one. |
| BufferCache.Cache.Oldest | OperatingSystems/ass4/Assignment4_RefHag/bio.c:78-91 | The backward scan finds the least recently released of the idle clean buffers, or nothing exactly when every buffer is referenced or dirty. |
| BufferCache.Cache.Bget | OperatingSystems/ass4/Assignment4_RefHag/bio.c:61-93 | A cached block is found in its one buffer; otherwise the least recently released idle clean buffer is recycled, never a referenced or dirty one; the panic is reached exactly when the block is not cached and there is none. |
| BufferCache.Cache.AcquireSleep | OperatingSystems/ass4/Assignment4_RefHag/bio.c:73 | The caller becomes the only holder of its buffer. |
| BufferCache.Cache.Fill | OperatingSystems/ass4/Assignment4_RefHag/bio.c:95-106 | The caller's buffer is valid with the cached contents, or those of its disk block when there were none, and no other buffer changes. |
| BufferCache.Cache.Store | OperatingSystems/ass4/Assignment4_RefHag/log.c:231 | The holder's change, dirty or not, keeps the cache coherent. |
| BufferCache.Cache.Bwrite | OperatingSystems/ass4/Assignment4_RefHag/bio.c:108-116 | The disk block becomes the buffer's contents, no other disk block changes, and the buffer is clean. |
| BufferCache.Cache.ReleaseSleep | OperatingSystems/ass4/Assignment4_RefHag/bio.c:126 | The holder gives up the lock and the buffer keeps its contents and reference. |
| BufferCache.Cache.Drop | OperatingSystems/ass4/Assignment4_RefHag/bio.c:128-141 | One reference goes; the last one moves the buffer to the front and leaves the order of the others. |
| BufferCache.Cache.MoveToFront | OperatingSystems/ass4/Assignment4_RefHag/bio.c:132-137 | The list is the old one with that buffer in front, still a ring through all buffers sorted by release. |
| BufferCache.Cache.CacheAgreesWithDisk | OperatingSystems/ass4/Assignment4_RefHag/bio.c:58-141 | In every state between calls a block is in at most one buffer, and an idle clean valid buffer equals its disk block. |
| SecondChance.VictimUnique | OperatingSystems/ass3/xv6-paging-master/vm.c:391-402 | There is only one page the second-chance rule can choose. |
| SecondChance.RotateLinked | OperatingSystems/ass3/xv6-paging-master/vm.c:394-401 | The six stores that move the tail to the head leave a well-formed doubly linked list in the rotated order. |
| SecondChance.PushLinked | OperatingSystems/ass3/xv6-paging-master/vm.c:266-273 | The stores of `scRecord` put the slot at the head of a well-formed list, the empty one included. |
| SecondChance.CutLinked | OperatingSystems/ass3/xv6-paging-master/vm.c:640-664 | Removing the head, the tail or a slot between leaves a well-formed list of the others in their order. |
| SecondChance.RotationKeeps | OperatingSystems/ass3/xv6-paging-master/vm.c:391-402 | Rotating and clearing bits keeps every page where it is and the list over exactly the occupied slots. |
| SecondChance.ExchangeKeepsView | OperatingSystems/ass3/xv6-paging-master/vm.c:908-939 | The exchange of a resident page with one in the swap file changes nothing the program sees at any address. |
| SecondChance.ExchangeSound | OperatingSystems/ass3/xv6-paging-master/vm.c:908-939 | After the exchange the list again holds exactly the resident pages and the swap file exactly the others, one slot each. |
| SecondChance.PagedOutSound | OperatingSystems/ass3/xv6-paging-master/vm.c:409-427 | Paging the victim out for a new page keeps all that, and every old page reads as before, even when the new page gets the frame just freed. |
| SecondChance.SwappedOutLost | OperatingSystems/ass3/xv6-paging-master/vm.c:409-432 | If `kalloc` fails after the victim has been paged out, every old page still reads as before but the list names a page that is not present. |
| SecondChance.RecordSound | OperatingSystems/ass3/xv6-paging-master/vm.c:256-274 | A new page in a free slot keeps all that and every old page reads as before. |
| SecondChance.RemoveSound | OperatingSystems/ass3/xv6-paging-master/vm.c:616-664 | Giving up a resident page keeps the invariant and every other page. |
| SecondChance.DropSound | OperatingSystems/ass3/xv6-paging-master/vm.c:729-744 | Giving up the swap slot of a page leaves its page-table entry without a slot, every other page as it was, and a state that only needs that entry cleared. |
| SecondChance.Process.constructor | OperatingSystems/ass3/xv6-paging-master/proc.c:122-137 | A new process has no page, every list slot and every swap slot unused, and satisfies the invariant. |
| SecondChance.Process.CheckAccBit | OperatingSystems/ass3/xv6-paging-master/vm.c:364-372 | The old bit is returned and only that bit is cleared. |
| SecondChance.Process.MoveTailToHead | OperatingSystems/ass3/xv6-paging-master/vm.c:394-401 | The list is rotated by one, in place. |
| SecondChance.Process.Turn | OperatingSystems/ass3/xv6-paging-master/vm.c:393-402 | One turn brings the next page from the tail to the head, returns whether it had been accessed, and tells a full circle. |
| SecondChance.Process.Rotate | OperatingSystems/ass3/xv6-paging-master/vm.c:391-402 | The loop ends, after at most as many turns as there are pages, at the first page from the tail whose bit was clear, or after a full circle. |
| SecondChance.Process.SelectVictim | OperatingSystems/ass3/xv6-paging-master/vm.c:391-402 | The page brought to the head is the first from the tail whose bit was clear, or the old head when every bit was set; cyclic order is kept, the bits of exactly the pages passed over are cleared. |
| SecondChance.Process.HasTwo | OperatingSystems/ass3/xv6-paging-master/vm.c:386-389 | The panics on an empty or single-page list are reached exactly then. |
| SecondChance.Process.Search | OperatingSystems/ass3/xv6-paging-master/vm.c:900-903 | The first slot that holds the address, or none. |
| SecondChance.Process.Record | OperatingSystems/ass3/xv6-paging-master/vm.c:256-274 | The slot holds the page and heads the list; nothing else moves. |
| SecondChance.Process.BringVictim | OperatingSystems/ass3/xv6-paging-master/vm.c:391-402 | The victim of the rule is at the head, the list otherwise in its cyclic order, the bits of exactly the pages passed over cleared; to the program that is invisible. |
| SecondChance.Process.MoveQuarter | OperatingSystems/ass3/xv6-paging-master/vm.c:917-933 | One turn of the copying loop moves a quarter page each way through a buffer. |
| SecondChance.Process.ExchangeContents | OperatingSystems/ass3/xv6-paging-master/vm.c:917-933 | After four turns frame and swap slot have changed contents completely, and no other frame or slot has changed. |
| SecondChance.Process.Exchange | OperatingSystems/ass3/xv6-paging-master/vm.c:894-941 | The faulting page has the frame and list slot of the page at the head, which has its slot of the swap file, contents included; nothing else has changed, and the program sees the same memory. |
| SecondChance.Process.ScSwap | OperatingSystems/ass3/xv6-paging-master/vm.c:865-941 | With fewer than two resident pages nothing changes; otherwise the whole state afterwards is given: the second-chance victim is brought to the head, the bits passed over are cleared, and victim and faulting page have changed places. Every address reads as before. |
| SecondChance.Process.SwapIn | OperatingSystems/ass3/xv6-paging-master/vm.c:899-941 | The faulting page is found in its swap slot and exchanged with the page at the head. |
| SecondChance.Process.PageOut | OperatingSystems/ass3/xv6-paging-master/vm.c:409-432 | The page at the head goes to the first free slot of the swap file and its list slot to the new page, which with memory has a frame of zeros; nothing else changes and every other address reads as before. Without memory the invariant is lost. |
| SecondChance.Process.SwapOut | OperatingSystems/ass3/xv6-paging-master/vm.c:375-433 | It panics, with nothing changed, exactly with fewer than two resident pages or no free swap slot; otherwise the second-chance victim is paged out in favour of the new page, and the program sees the same memory. |
| SecondChance.Process.AllocPage | OperatingSystems/ass3/xv6-paging-master/vm.c:551-583 | It panics exactly when the list is full and there are not two resident pages and a free swap slot; otherwise it succeeds exactly when `kalloc` does, and then the new page reads as zeros and every old one as before; the invariant survives unless `kalloc` fails after a page has been paged out. The whole state afterwards is given: on a full list the second-chance victim is paged out to the first free slot and the new page takes its place; otherwise the new page takes the first unused list slot, which becomes the head; a panic, and a failure of `kalloc` on a list that is not full, change nothing. |
| SecondChance.Process.RecordPage | OperatingSystems/ass3/xv6-paging-master/vm.c:574-583 | The new page takes that slot, which becomes the head of the list, and a frame of zeros that was not in use; nothing else changes. |
| SecondChance.Process.FindBefore | OperatingSystems/ass3/xv6-paging-master/vm.c:652-655 | The scan stops at the slot just before the removed one. |
| SecondChance.Process.Unlink | OperatingSystems/ass3/xv6-paging-master/vm.c:637-664 | The list loses exactly the removed slot, whether head, tail or between. |
| SecondChance.Process.FreePage | OperatingSystems/ass3/xv6-paging-master/vm.c:603-745 | A resident page, its slot and its frame are given up; a page in the swap file gives up its slot but its entry is not cleared; every other address reads as before. The invariant survives if and only if the page was not in the swap file, and clearing the entry would restore it. Nothing else changes. |
| SecondChance.FullMemoryLost | OperatingSystems/ass3/xv6-paging-master/vm.c:556-572 | For every list of two slots or more that a new process has filled, a `kalloc` that fails for a further page leaves the list naming a page that is not present. |
| SecondChance.SwappedPageLost | OperatingSystems/ass3/xv6-paging-master/vm.c:729-744 | For every such list, after a further page has taken the place of a victim, giving the victim up leaves a page-table entry that says it is in the swap file, where it is not. |
| ShellGrammar.LineWhole | OperatingSystems/ass4/Assignment4_RefHag/sh.c:265-446 | Every word and file name in the tree built from any line is a whole word of it, ended by white space, a symbol or the end of the line, and no program has ten words. |
| ShellGrammar.Characters | OperatingSystems/ass4/Assignment4_RefHag/sh.c:262-263 | White space and symbols are exactly the characters of the two tables. |
| ShellPrinter.LineShow | OperatingSystems/ass4/Assignment4_RefHag/sh.c:344-446 | The fully parenthesised text of a command is parsed back to that command wherever it stands in a line. |
| ShellPrinter.ParsePrint | OperatingSystems/ass4/Assignment4_RefHag/sh.c:327-446 | For every command tree with good words and at most 9 to a program, parsing its printed text gives the tree back and consumes the whole line. |
| ShellPrinter.Reparse | OperatingSystems/ass4/Assignment4_RefHag/sh.c:265-446 | What the parser makes of any line it accepts can be printed, and the printed text is read back as the same tree. |
| ShellTokens.TokenText | OperatingSystems/ass4/Assignment4_RefHag/sh.c:265-308 | White space alone lies between tokens; a token is `>>`, a single symbol or a whole word, as long as possible, or the end of the line. |
| ShellTokens.PeekKind | OperatingSystems/ass4/Assignment4_RefHag/sh.c:310-320 | What `peek` sees is the kind of the next token. |
| ShellTokens.LineForm | OperatingSystems/ass4/Assignment4_RefHag/sh.c:344-446 | Whatever `parseline` accepts, from any position, is a line of the grammar with fewer than ten words to a program: the tokens it has taken are, in order, those the line is written with, and its result is the tree of that line. |
| ShellAccepts.LineTake | OperatingSystems/ass4/Assignment4_RefHag/sh.c:344-446 | Wherever the tokens of a line of the grammar stand, with any white space between them and the end or a closing parenthesis after them, `parseline` takes exactly those and returns the tree of that line. |
| ShellAccepts.Accepted | OperatingSystems/ass4/Assignment4_RefHag/sh.c:327-446 | A line is accepted, with a given tree, if and only if its tokens are those of a line of the grammar with that tree and fewer than ten words to a program. |
| ShellOrder.NothingLostOrAdded | OperatingSystems/ass4/Assignment4_RefHag/sh.c:265-446 | The words and operators of an accepted line's tree, read from left to right, are the tokens of the line in their order, but for the parentheses, and with the redirections of each program after its words. |
| ShellOrder.Grouping | OperatingSystems/ass4/Assignment4_RefHag/sh.c:344-372 | On a line without parentheses, whatever its white space, `;` and `|` group to the right, `&` takes the whole pipeline before it, and `|` binds tighter than `&` and `&` tighter than `;`. |
| Shell.Parser.constructor | OperatingSystems/ass4/Assignment4_RefHag/sh.c:333 | The cursor starts at the front of the line. |
| Shell.Parser.GetToken | OperatingSystems/ass4/Assignment4_RefHag/sh.c:265-308 | The token, its span and the cursor past the following white space are those of the token function, at every position. |
| Shell.Parser.SkipWhite | OperatingSystems/ass4/Assignment4_RefHag/sh.c:272-273 | The cursor stops at the first character that is not white, or at the end. |
| Shell.Parser.WordScan | OperatingSystems/ass4/Assignment4_RefHag/sh.c:297-298 | A word extends to the next white space or symbol. |
| Shell.Parser.Peek | OperatingSystems/ass4/Assignment4_RefHag/sh.c:310-320 | White space is skipped and the next character is one of the given ones if and only if it returns 1. |
| Shell.Parser.ParseRedirs | OperatingSystems/ass4/Assignment4_RefHag/sh.c:374-397 | The redirections in front wrap the command, the first one innermost; terminates on every line. |
| Shell.Parser.ParseLine | OperatingSystems/ass4/Assignment4_RefHag/sh.c:344-359 | Command tree, cursor and panic message agree with the grammar function on every line. |
| Shell.Parser.ParseBacks | OperatingSystems/ass4/Assignment4_RefHag/sh.c:350-353 | Each ampersand wraps the command once more. |
| Shell.Parser.ParsePipe | OperatingSystems/ass4/Assignment4_RefHag/sh.c:361-372 | Agrees with the grammar function; pipes group to the right. The function is tied to the grammar by `ShellTokens.LineForm` and `ShellAccepts.LineTake`. |
| Shell.Parser.ParseBlock | OperatingSystems/ass4/Assignment4_RefHag/sh.c:399-413 | Agrees with the grammar function, both panics included. |
| Shell.Parser.ParseExec | OperatingSystems/ass4/Assignment4_RefHag/sh.c:415-446 | Agrees with the grammar function, whether a block or a program. |
| Shell.Parser.ParseArgs | OperatingSystems/ass4/Assignment4_RefHag/sh.c:429-445 | The words in order make the program, redirections between them wrap it, and the tenth word panics. |
| Shell.Parser.AddArg | OperatingSystems/ass4/Assignment4_RefHag/sh.c:436-441 | A word added to the program after redirections have wrapped it lands in that same program. |
| Shell.EndsOutside | OperatingSystems/ass4/Assignment4_RefHag/sh.c:448-493 | No end pointer of a parsed command points inside any word. |
| Shell.WordSurvives | OperatingSystems/ass4/Assignment4_RefHag/sh.c:448-493 | A word reads the same as a C string once NULs stand at the ends of all words. |
| Shell.CommandSurvives | OperatingSystems/ass4/Assignment4_RefHag/sh.c:448-493 | Every word and file name of the tree reads, as a C string, as it was recognised. |
| Shell.NulTerminate | OperatingSystems/ass4/Assignment4_RefHag/sh.c:448-493 | NULs are written at exactly the ends of the words of the tree, and no other character changes. |
| Shell.ParseCmd | OperatingSystems/ass4/Assignment4_RefHag/sh.c:327-342 | On every line: a panic with the grammar's message and the buffer unchanged exactly when the grammar rejects it, otherwise the grammar's tree, whose words read as C strings from the buffer are those recognised. |
| Shell.PrintedCommandRuns | OperatingSystems/ass4/Assignment4_RefHag/sh.c:327-493 | What is read from the buffer after parsing and terminating a printed command is that command. |
| PageTables.PteStored | OperatingSystems/ass4/Assignment4_RefHag/vm.c:74 | Storing one entry changes the lookup of that page of that process and of no other. |
| PageTables.TakeSound | OperatingSystems/ass4/Assignment4_RefHag/vm.c:44 | A frame given out by `kalloc` was in no use, and every frame still has exactly one use. |
| PageTables.GiveBackSound | OperatingSystems/ass4/Assignment4_RefHag/vm.c:244 | Giving a frame back keeps every frame in exactly one use. |
| PageTables.TableSound | OperatingSystems/ass4/Assignment4_RefHag/vm.c:44-52 | A new empty table changes no lookup and takes one frame. |
| PageTables.MapSound | OperatingSystems/ass4/Assignment4_RefHag/vm.c:69-74 | Mapping a frame in hand at a page that is not present gives the frame that one use and changes no other lookup. |
| PageTables.UnmapSound | OperatingSystems/ass4/Assignment4_RefHag/vm.c:270-276 | Freeing a present page's frame and clearing its entry leaves every frame in exactly one use and every other lookup as it was. |
| PageTables.TableFreed | OperatingSystems/ass4/Assignment4_RefHag/vm.c:291-296 | Freeing a table that maps nothing keeps every frame in one use and changes no lookup. |
| FramesNeeded.TableNext | OperatingSystems/ass4/Assignment4_RefHag/vm.c:42-52 | While pages are mapped in order, a page finds its table there unless it is the first in a table that was missing. |
| FramesNeeded.CostMore | OperatingSystems/ass4/Assignment4_RefHag/vm.c:232-248 | Every further page costs at least one frame. |
| FramesNeeded.CostFresh | OperatingSystems/ass4/Assignment4_RefHag/vm.c:325-337 | In an address space without tables n pages cost n frames and one for every 1024 pages begun. |
| FramesNeeded.OneLeft | OperatingSystems/ass4/Assignment4_RefHag/vm.c:332-336 | The frames run out between a page and its table exactly when their number is one more than a multiple of 1025. |
| AddressSpace.Machine.constructor | OperatingSystems/ass4/Assignment4_RefHag/kalloc.c:26-53 | All frames are free, no process has anything mapped, and the invariant holds. |
| AddressSpace.Machine.Kalloc | OperatingSystems/ass4/Assignment4_RefHag/vm.c:233 | A free frame, in no use and not 0, or nothing exactly when none is free. |
| AddressSpace.Machine.Kfree | OperatingSystems/ass4/Assignment4_RefHag/vm.c:244 | The frame is free again and overwritten; nothing else changes. |
| AddressSpace.Machine.Find | OperatingSystems/ass4/Assignment4_RefHag/vm.c:41-46 | Whether the table of a page is there, and that it is complete. |
| AddressSpace.Machine.Walk | OperatingSystems/ass4/Assignment4_RefHag/vm.c:32-55 | Finds the table, or makes an empty one at the cost of one frame, without changing any lookup or any page in use; it fails exactly when the table is missing and no frame is free. |
| AddressSpace.Machine.MapPage | OperatingSystems/ass4/Assignment4_RefHag/vm.c:57-80 | It panics exactly when the page is present and fails exactly when its table is missing and no frame is free, with nothing changed; otherwise exactly that page becomes present with that frame and flags, at the cost of a table if that was missing. |
| AddressSpace.Machine.UnmapPage | OperatingSystems/ass4/Assignment4_RefHag/vm.c:269-276 | Exactly that page is gone and its frame free. |
| AddressSpace.Machine.Turn | OperatingSystems/ass4/Assignment4_RefHag/vm.c:263-277 | One turn handles a present page, an absent page, or the whole stretch of a missing table. |
| AddressSpace.Machine.Deallocuvm | OperatingSystems/ass4/Assignment4_RefHag/vm.c:251-279 | Exactly the present pages from PGROUNDUP(newsz) up to oldsz are unmapped and exactly their frames freed, also when the walk jumps over missing tables; all other entries, frames and contents stay. |
| AddressSpace.Machine.AddPage | OperatingSystems/ass4/Assignment4_RefHag/vm.c:239-240 | The page maps a frame with the wanted contents and flags, and all mapped frames keep their contents; the panic and the failure are those of `mappages`. |
| AddressSpace.Machine.AddFresh | OperatingSystems/ass4/Assignment4_RefHag/vm.c:234-246 | One turn takes a frame and maps it, or changes no entry: it runs out of memory exactly with no frame, or with one and no table; the frame that could not be mapped stays in hand. |
| AddressSpace.Machine.Abandon | OperatingSystems/ass4/Assignment4_RefHag/vm.c:234-246 | After a failure no page of the stretch is left, everything else is as it was, and only page tables have been added. |
| AddressSpace.Machine.Allocuvm | OperatingSystems/ass4/Assignment4_RefHag/vm.c:219-249 | Sizes from KERNBASE on and shrinking requests change nothing. Otherwise, with n the first new page already present, it returns 0 exactly when the free frames do not pay for the pages before n (and one more if there is an n), panics exactly when they do and there is an n, and otherwise every new page maps a fresh zeroed frame, writable by the user. When it returns 0 the pages of the stretch are all gone, every other entry and frame is as before, nothing is lost if none of them was present, and only page tables have been added. |
| AddressSpace.Machine.Freevm | OperatingSystems/ass4/Assignment4_RefHag/vm.c:281-298 | The pages and tables of that process are freed and everything else is as it was. |
| AddressSpace.Machine.CopyPage | OperatingSystems/ass4/Assignment4_RefHag/vm.c:332-335 | One turn gives the copy an equal page with the same flags in a fresh frame, or changes no entry, exactly when there is no frame for it or for its table. |
| AddressSpace.Machine.Copyuvm | OperatingSystems/ass4/Assignment4_RefHag/vm.c:313-343 | With n the first page the parent lacks: it runs out of memory exactly when the free frames do not pay for the n pages before it and their tables; otherwise it panics exactly when there is such a page, and succeeds exactly when there is none, with every page equal in contents and flags and in a fresh frame, the parent and every other process untouched. A copy that runs out of memory leaves everything as it was, but loses one frame for ever exactly when the number of free frames was one more than a multiple of 1025. |
| AddressSpace.CopyLosesFrame | OperatingSystems/ass4/Assignment4_RefHag/vm.c:332-342 | On a machine of three frames, copying a process of one page fails and loses a frame. |
| AddressSpace.FramesDistinct | OperatingSystems/ass4/Assignment4_RefHag/vm.c:313-338 | No frame is mapped twice, in one address space or in two. |
| AddressSpace.UnmappedJoin | OperatingSystems/ass4/Assignment4_RefHag/vm.c:263-277 | Unmapping two adjoining stretches one after the other is unmapping the whole. |
| AddressSpace.GrowthUndone | OperatingSystems/ass4/Assignment4_RefHag/vm.c:234-246 | Shrinking back over a stretch that was grown in part leaves none of its pages and everything else as it was. |
| AddressSpace.NothingLost | OperatingSystems/ass4/Assignment4_RefHag/vm.c:234-246 | If none of the pages of the stretch was present, that restores every entry and every frame in use. |
| AddressSpace.CopyUndone | OperatingSystems/ass4/Assignment4_RefHag/vm.c:340-342 | Freeing the copy leaves every frame in the use it had before, but for the one in hand. |

## Left out

- LogMachine.StepGood: a process that needs a buffer another process holds does not wait for it: it may also use it, which adds runs and takes none away; only a modification waits. Sleep and wakeup on `&log` are the guards of `begin_op` and `end_op`.
- LogMachine.Reserved: a block an operation logs a second time does not claim space, so no claim is made that it fits; `PanicsOnlyWhenFull` says exactly when it does not.
- LogMachine.ModifyGood: that an operation logs at most MAXOPBLOCKS distinct blocks is a guard of the machine; `WriteQuota.HowMany` and `WriteQuota.EdgeQuota` say exactly when a write of `filewrite` keeps to it.
- LogLimits.ReadsSafeIff: logs of at most one block, in which nothing can be logged, are excluded, and so are those `LogLimits.CrashAtomicIff` shows to be written past; the same holds of `LogLimits.CommitsGoOnIff`.
- LogRuns.CrashAtomicity: assumes that every change of a home block goes through `log_write`; the file tags of ass4 write blocks outside the log.
- LogRuns.RecoveryRestores: a block write is one atomic step; torn sector writes are not modelled.
- LogDevice.Log.CommitTransaction: what other processes hold stays the same during one call, and is no log block, as only `log.c` reads those; `LogMachine` lets it change at every step.
- SleepLock.NoLostWakeup: one sleep-lock and a fixed set of processes; sleeping on other channels, `fork`, `exit` and `wait` are not modelled, nor is weak memory ordering.
- SleepLock.MutualExclusion: says nothing about fairness; a waiter may be overtaken for ever.
- Scheduler.ComesBack: that a CPU takes steps at all, and that no timer interrupt comes in between, is not claimed; `KeepsWay` says what holds with interrupts.
- Allocator.Heap.Malloc: when the byte count of `sbrk` is zero or negative as a signed number the call is reported as `Fault`, exactly then, and what the program then overwrites is not followed.
- Allocator.Heap.Sbrk: addresses are counted in header units; what the kernel answers to each request is a parameter of the heap, gaps included.
- FreeList.WayShrinks: the address of `base` is taken to be below the heap, as the program's layout makes it.
- FileSystem.Volume.Readi: device inodes, which call the device's own function, are not modelled.
- FileSystem.Volume.Writei: device inodes, and the copies of inodes on disk that `iupdate` keeps, are not modelled; blocks are seen as the cache and the open transaction show them. The log items name the inode's block by the inode; what `itrunc` logs is not recorded.
- FileSystem.Volume.Itrunc: does not visit the double-indirect slot, as the code of both versions does not; its contract says exactly when that leaks, and `TruncateLargeFile` is a program for which it does.
- Pipe.Channel.PipeWrite: a call that is still asleep after as many wakeups as its bound allows is reported as `Asleep`; other processes' calls are the steps of `Other`, one byte at a time. After an error nobody is woken, as in the code: `KilledWriter` shows what that leaves.
- Pipe.Channel.PipeRead: the same bound on wakeups; `pipeclose` without freeing the pipe.
- BufferCache.Cache.Bget: device number 0 is excluded, because every buffer that has never been used claims to hold block 0 of device 0; waiting for a sleep-lock is not modelled here but in `SleepLock`.
- BufferCache.Cache.ReleaseSleep: requires that the holder has written back or logged what it changed, as the callers in `log.c` and `fs.c` do.
- SecondChance.Process.AllocPage: errors of the swap file are not modelled; the rounds of `allocuvm` beyond one page are repetitions of this step.
- SecondChance.Process.FreePage: the page fault that finds an entry without a swap slot afterwards, which panics, is not a step of the model; the contract says when such an entry is left.
- SecondChance.Process.ScSwap: copying the lists on `fork` and backing them up on `exec`, the NFU and AQ policies and the creation of the swap file are left out.
- Shell.Parser.ParseRedirs: `>` and `>>` give the same node, as in the code, which opens both the same way; open flags and descriptors are not modelled.
- Shell.Parser.ParseArgs: the program node that the source shares by pointer is replaced by value inside the redirections around it.
- Shell.ParseCmd: `runcmd`, which runs the command, and running out of memory while parsing are left out.
- AddressSpace.Machine.Allocuvm: the page directory's own frame and the kernel's mappings are left out.
- AddressSpace.Machine.Deallocuvm: old sizes above KERNBASE, which no caller passes, are excluded: there the walk would meet the kernel's mappings and the end of the 32-bit addresses.
- AddressSpace.Machine.Kfree: the list pointer that `kfree` stores in the first word of a free frame is not modelled.
- AddressSpace.Machine.Copyuvm: `setupkvm` is not modelled: the copy begins with a directory that maps nothing below KERNBASE; the accessed and dirty bits are part of the flags only as stored.
- Utf16.Prior: a read before the front of the octets is reported as `Underrun` and not followed; `previous` and `advance` are left out.
- Utf16.UncheckedUtf16To8: claimed on valid UTF-16 only, which is what the unchecked form asks for.
- Regexp.Match: the reading loop of `grep` that cuts its buffer into lines is left out.
- `replace_invalid`, the iterator classes and the 32-bit conversions of the UTF-8 library are left out.
- Directories, paths, symbolic links, `exec`, drivers, boot code and the Java, Python and JavaScript parts of the repository are left out.

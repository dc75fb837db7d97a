# A verified model of xv6-riscv

This project models the parts of the xv6-riscv teaching kernel (and two of its
user programs) where correctness depends on several functions, several
processes or a whole run, and proves what those parts promise. `dafny verify
dfyconfig.toml` checks everything; each module stands for one component.

**Crash-safe storage.** `Bytes` and `Log` describe the redo log on disk: the
header block, the order of single-block writes in `commit`, and what
`recover_from_log` makes of any disk it may find. The main result is crash
atomicity: stop after any number of writes of a commit, crash any number of
times inside recovery, and the blocks outside the log are the old disk as a
whole or the new one as a whole, the new one exactly when the header was
written. `RedoLog` is the code of `log.c` on an in-memory log, shown to
send exactly those writes in that order. `Admission` covers every
interleaving of `begin_op`, `log_write` and `end_op`. `Storage` puts the buffer
cache under the log, with any number of processes, single disk writes, crashes
and recovery as steps, and shows that all of them together act like one logical
disk. `Bio` keeps the doubly linked buffer list as the code links it. `Inodes`
and `FileSystem` build files out of blocks: every inode reads and writes like a
plain byte sequence, and the free map marks exactly the blocks in use. `Space`
counts free blocks against the holes in a file, `TruncLog` what `itrunc` logs in
any state that lowest-first allocation leads to.
`OnDisk` says where all of this is on the disk, `Footprints` which parts of it a
transaction touches and why transactions on different parts can be made in
either order, though they share blocks. `CrashConsistency` joins the layers: with
any number of transactions under way at once, after any crash every file has the
contents it had after a prefix of the transactions. `Strays` says what it means to
see a state when failing writes have left bytes behind that nobody logged, `Views`
that this is what processes do see through the cache.
`CommitProgress` says for which numbers of buffers and log blocks a commit can
always go on and never panics for want of one, `Settling` that then all that is
under way can be committed.

**Memory.** `PageTable`, `Freewalk`, `Vm`, `Fork` and `UserCopy` model three-level Sv39
page tables (section 4.4 of the RISC-V Privileged Architecture, version
20211203) over one physical memory. The tables refine a finite map from page
number to entry, and an owner for every page shows that no failure path loses
or frees a page twice. `Umalloc` models the user-level allocator (section 8.7
of The C Programming Language, second edition) with an owner for every unit.

**Concurrency.** `Proc` models scheduling, `sleep`, `wakeup`, `wait`, `exit`,
`fork` and `kill` as steps of CPUs between lock operations, with timer
interrupts wherever no lock is held. `Virtqueue` models driver, rings and device
(sections 2.6 and 5.2 of VIRTIO 1.1), `VirtioDisk` the driver code against it.
`Pipe` models the ring buffer with its wrapping counters, `PipeSleep` who sleeps
on it.

**Regular expressions.** `Grep` gives a pattern the language it denotes and
proves the backtracking matcher and the line loop of `grep` against it.

State machines have a `Next` relation, an inductive invariant, and theorems
about every `Run`. Imperative code is a class whose methods are proved against
functions and predicates on values. `Params`, `Options`, `Sequences` and
`WrappedRing` hold what several modules share.

## What the code does not do

Some promises hold only under a condition; the project states the exact one.

- With the log size `mkfs` chooses, a `log_write` within its operation's budget
  can panic; it cannot exactly when the log has at least LOGSIZE + 1 blocks
  (`Admission.NewBlockNeverPanics`, `Admission.MkfsLayoutCanPanic`). A write
  that would be absorbed panics too when the log is filled to its capacity
  (`Admission.PanicsWhenFull`, `Admission.AbsorbedWritePanics`).
- Every logged block keeps a buffer, and NBUF is LOGSIZE: a log large enough that
  `log_write` never panics lets a commit run out of buffers, and no size avoids
  both (`CommitProgress.AlwaysEndsIff`, `CommitProgress.NoSizeFits`). With the log
  `mkfs` makes, a commit of a full log panics if one other process uses a block
  (`CommitProgress.AlwaysFindsIff`, `CommitProgress.OneReaderPanics`).
- A `writei` whose source cannot be read to the end may change bytes it does not
  report, without logging them; the arguments and the free map say before the
  call whether it will (`FileSystem.LeakIff`, `FileSystem.ExactIff`,
  `FileSystem.LeakExample`). Later readers see them (`Storage.AbandonedIsRead`),
  until the block leaves the cache (`Views.Evicted`).
- `itrunc` stays within its reservation on the disks the source builds, but only
  because they have few inodes for their size; a disk of 200000 blocks with 275
  inodes would let it log too much (`TruncLog.TruncFitsIff`,
  `TruncLog.BuiltSizes`).
- A pipe writer killed after storing a byte leaves a sleeping reader asleep
  (`PipeSleep.StepAwakeIff`, `PipeSleep.LostWakeup`).
- `malloc` requests above 2^31 - 32 bytes that fit no free block reach `sbrk`
  truncated (`Umalloc.Heap.Malloc`, `Umalloc.LargestRequest`,
  `Umalloc.HugeRequest`).
- From block 2^31 on a block is read from and written to another block's sector
  (`VirtioDisk.SectorsApart`).
- `grep` stops at the first line that is over 1022 characters or holds a NUL
  (`Grep.CompleteIff`).

## Model

| member | source | states |
|---|---|---|
| `Log.HeaderRoundTrip` | xv6-labs-2024/kernel/log.c:86-114 | reading the header block that `write_head` stored gives back exactly the block list, whatever the block held before |
| `Log.RecoveredLogged` | xv6-labs-2024/kernel/log.c:68-123 | recovery puts the i-th logged copy into the i-th home block |
| `Log.RecoveredOther` | xv6-labs-2024/kernel/log.c:68-123 | recovery leaves every other block outside the log as it was |
| `Log.RecoveryEmptiesLog` | xv6-labs-2024/kernel/log.c:116-123 | after recovery the header is empty, so a second recovery finds nothing to do |
| `Log.RecoveryPrefix` | xv6-labs-2024/kernel/log.c:68-123 | a crash after any number of the writes of recovery changes nothing about what the next recovery yields |
| `Log.RepeatedCrashes` | xv6-labs-2024/kernel/log.c:116-123 | any number of recoveries cut short anywhere, then a complete one, give what one complete recovery gives |
| `Log.CommitPrefixLogged` | xv6-labs-2024/kernel/log.c:178-203 | after any prefix of the writes of a commit, recovery gives a logged block its new contents exactly when the header write is in the prefix, else its old ones |
| `Log.CommitPrefixOther` | xv6-labs-2024/kernel/log.c:178-203 | after any prefix of the writes of a commit, recovery leaves a block that was not logged alone |
| `Log.CommitCompletes` | xv6-labs-2024/kernel/log.c:193-203 | a complete commit puts every logged block home, changes no other block outside the log and leaves the header empty |
| `Log.CrashAtomicAt` | xv6-labs-2024/kernel/log.c:178-203 | one block: recovery after a crash at write k gives the new disk's block when k is past the header write, the old disk's otherwise |
| `Log.CrashAtomicity` | xv6-labs-2024/kernel/log.c:68-203 | for every crash point of a commit and any further crashes inside recovery, all blocks outside the log are those of the old disk or all are those of the new one, the new one exactly when the header was written |
| `RedoLogImpl.RedoLog.constructor` | xv6-labs-2024/kernel/log.c:54-65 | at boot nothing is cached or logged and no operation runs |
| `RedoLogImpl.RedoLog.BeginOp` | xv6-labs-2024/kernel/log.c:126-142 | the caller is admitted exactly when no commit runs and the log has room for every admitted operation, else nothing changes |
| `RedoLogImpl.RedoLog.LogWrite` | xv6-labs-2024/kernel/log.c:214-235 | a block is recorded once, every later read of it sees the new contents, and of no other block |
| `RedoLogImpl.RedoLog.WriteLog` | xv6-labs-2024/kernel/log.c:178-191 | the copies of the logged buffers go to consecutive log blocks in order, and nowhere else |
| `RedoLogImpl.RedoLog.WriteHead` | xv6-labs-2024/kernel/log.c:102-114 | exactly one block is written: the header with the current list |
| `RedoLogImpl.RedoLog.ReadHead` | xv6-labs-2024/kernel/log.c:86-97 | the in-memory list becomes the one in the header block |
| `RedoLogImpl.RedoLog.InstallTrans` | xv6-labs-2024/kernel/log.c:68-83 | the logged copies are written to their home blocks in order; outside recovery exactly those blocks are unpinned |
| `RedoLogImpl.RedoLog.CommitTransaction` | xv6-labs-2024/kernel/log.c:193-203 | the writes sent to the disk are, in order, the log copies, the header, the home blocks and the empty header |
| `RedoLogImpl.RedoLog.Commit` | xv6-labs-2024/kernel/log.c:193-203 | after a commit the disk holds, outside the log, exactly what reads returned before it, and its writes are those that crash atomicity is about |
| `RedoLogImpl.RedoLog.EndOp` | xv6-labs-2024/kernel/log.c:146-175 | no read changes; the last operation out commits, others write nothing |
| `RedoLogImpl.RedoLog.RecoverFromLog` | xv6-labs-2024/kernel/log.c:116-123 | the writes sent are those of recovery, and the disk and the log end as recovery defines |
| `Admission.StepKeepsInv` | xv6-labs-2024/kernel/log.c:126-235 | every step of every process keeps: logged blocks plus unspent reservations are at most LOGSIZE, logged numbers are distinct, and a commit runs only with no operation outstanding |
| `Admission.RunInv` | xv6-labs-2024/kernel/log.c:126-235 | that invariant holds at the end of every run |
| `Admission.CommitExcludesOps` | xv6-labs-2024/kernel/log.c:146-175 | in every reachable state with a commit under way no operation is active and none can begin |
| `Admission.NewBlockNeverPanics` | xv6-labs-2024/kernel/log.c:214-224 | no reachable `log_write` of a new block within its operation's budget panics if and only if the log has at least LOGSIZE + 1 blocks |
| `Admission.MkfsLayoutCanPanic` | xv6-labs-2024/mkfs/mkfs.c:25 | with the size mkfs chooses some reachable `log_write` within budget panics |
| `Admission.PanicsWhenFull` | xv6-labs-2024/kernel/log.c:214-220 | in every reachable state, for every log size, `log_write` panics exactly when the log holds as many blocks as it ever can: the smaller of LOGSIZE and the log's size less one |
| `Admission.AbsorbedWritePanics` | xv6-labs-2024/kernel/log.c:214-235 | rewriting a logged block within budget panics exactly when the log is that full, for every log size; some run reaches it exactly when the log has at least two blocks |
| `Storage.StepKeepsInv` | xv6-labs-2024/kernel/bio.c:58-151 | every step of the cache, of an operation (changing a buffer, logging it and releasing it unlogged are steps of their own), of commit, of a crash and of recovery keeps cache, log and disk in agreement with one logical disk |
| `Storage.RunInv` | xv6-labs-2024/kernel/bio.c:58-151 | that agreement holds at the end of every run from boot |
| `Storage.RecoveryGivesDurable` | xv6-labs-2024/kernel/log.c:68-123 | in every phase the disk alone determines the durable contents through recovery |
| `Storage.CrashSafety` | xv6-labs-2024/kernel/log.c:68-235 | wherever a run stops, recovery of the disk it leaves gives exactly the durable logical disk; `DurableMovesAtCommit` notes when that moves |
| `Storage.ReadsLatest` | xv6-labs-2024/kernel/bio.c:58-103 | in every run a locked valid buffer that its holder has not changed, and that carries no abandoned change, holds the last data logged for its block |
| `Storage.BreadReturnsLatest` | xv6-labs-2024/kernel/bio.c:93-103 | in every run `bread` returns the last data logged for the block, unless a `writei` abandoned a change that is still in the buffer; without abandoned changes it always does |
| `Storage.AbandonedIsRead` | xv6-labs-2024/kernel/fs.c:522-524 | from every state in which an operation holds a block that is not in the log, a change it abandons is what any other process that takes the buffer next reads, though nobody logged it |
| `Storage.StrayFromAbandon` | xv6-labs-2024/kernel/fs.c:522-524 | in every run without an abandoned change no released buffer carries unlogged contents |
| `Storage.ScratchOnlyInOps` | xv6-labs-2024/kernel/fs.c:77-78 | in every run a changed, not yet logged buffer is held by an operation; while the log commits or recovers only the block about to be written can be such |
| `Storage.CommitCopiesLogged` | xv6-labs-2024/kernel/log.c:178-191 | in every run what `commit` copies to the log, and installs, is exactly what was last logged for the block, never a half-changed buffer |
| `Storage.PinnedOnce` | xv6-labs-2024/kernel/log.c:214-235 | a logged block not yet installed is in exactly one buffer, which carries exactly one pin, and no miss can recycle that buffer |
| `Storage.UnpinnedIsClean` | xv6-labs-2024/kernel/bio.c:116-151 | every other valid buffer that is not being changed and carries no abandoned change equals the disk |
| `Storage.UnlockedIsClean` | xv6-labs-2024/kernel/bio.c:75-88 | in every run without abandoned changes a buffer nobody has locked equals the disk unless it is pinned, so recycling one without references loses nothing |
| `Bio.Unlinked` | xv6-labs-2024/kernel/bio.c:128-129 | taking a buffer out leaves one ring of all the others in the same order |
| `Bio.Pushed` | xv6-labs-2024/kernel/bio.c:130-133 | linking a buffer in after the head gives one ring with it in front |
| `Bio.BufferCache.constructor` | xv6-labs-2024/kernel/bio.c:36-53 | all buffers and the head form one ring, all unused |
| `Bio.BufferCache.Find` | xv6-labs-2024/kernel/bio.c:65-73 | the forward scan finds the block's buffer if there is one |
| `Bio.BufferCache.FindUnused` | xv6-labs-2024/kernel/bio.c:75-88 | the backward scan finds, of the unreferenced buffers, the one whose last release to zero is earliest |
| `Bio.BufferCache.Bget` | xv6-labs-2024/kernel/bio.c:58-89 | a cached block's buffer gets one more reference and nothing else changes; otherwise the least recently released unreferenced buffer is recycled; it panics exactly when the block is not cached and every buffer is referenced; no two buffers hold one block |
| `Bio.BufferCache.Unlink` | xv6-labs-2024/kernel/bio.c:128-129 | the two link updates take exactly this buffer out of the ring |
| `Bio.BufferCache.PushFront` | xv6-labs-2024/kernel/bio.c:130-133 | the link updates put exactly this buffer in front and mark its time of release |
| `Bio.BufferCache.Brelse` | xv6-labs-2024/kernel/bio.c:116-137 | the last release moves the buffer to the front and keeps the order of all others; an earlier one only drops the count |
| `Bio.BufferCache.Bpin` | xv6-labs-2024/kernel/bio.c:139-144 | one more reference, the ring and its invariants kept |
| `Bio.BufferCache.Bunpin` | xv6-labs-2024/kernel/bio.c:146-151 | one reference less, the ring and its invariants kept |
| `Inodes.BitmapExact` | xv6-labs-2024/kernel/fs.c:65-105 | a bit of the free map is set exactly when the block is metadata or is named by exactly one inode slot |
| `Inodes.Attach` | xv6-labs-2024/kernel/fs.c:382-421 | giving a free block to an empty slot keeps every block owned by one slot and the free map exact |
| `Inodes.Detach` | xv6-labs-2024/kernel/fs.c:425-453 | taking a block from its slot and clearing its bit keeps the same, and the bit was set |
| `Inodes.WrittenContent` | xv6-labs-2024/kernel/fs.c:505-539 | bytes stored through the block map followed by the size update are a splice into the file's byte sequence |
| `FileSystem.Fs.constructor` | xv6-labs-2024/mkfs/mkfs.c:20-27 | a file system whose inodes are all empty and whose free map marks exactly the metadata satisfies the ownership and no-holes invariants |
| `FileSystem.Fs.Balloc` | xv6-labs-2024/kernel/fs.c:65-88 | the lowest free block is marked used and zeroed, with its bitmap block logged; 0 exactly when none is free, and then nothing changed |
| `FileSystem.Fs.Bmap` | xv6-labs-2024/kernel/fs.c:382-421 | returns the block of a file position, allocating it and the indirect block if missing; changes no byte of any file and keeps ownership; succeeds exactly when the free blocks cover what was missing, and then takes exactly that many; logs each bitmap block it changes |
| `FileSystem.Fs.BmapIndirect` | xv6-labs-2024/kernel/fs.c:397-418 | the same for positions behind the indirect block, which is zeroed before it is used |
| `FileSystem.Fs.WriteChunk` | xv6-labs-2024/kernel/fs.c:517-527 | one round of `writei`: exactly the bytes of one block that could be copied change, and the block is logged unless the copy failed |
| `FileSystem.Fs.WriteLoop` | xv6-labs-2024/kernel/fs.c:516-528 | the bytes stored are a prefix of the source, other files and bytes are untouched; it stops early only at a block that has no address and that the free blocks at the start did not cover, or where the source ends |
| `FileSystem.Fs.WriteFile` | xv6-labs-2024/kernel/fs.c:516-539 | the file becomes a splice of the old contents and the source at the offset; other files are unchanged; no holes; why it stopped early, as above; at most MAXOPBLOCKS new log entries for three blocks or less |
| `FileSystem.Fs.Writei` | xv6-labs-2024/kernel/fs.c:505-539 | -1 exactly for a start beyond the end, a wrapping range or one beyond MAXFILE; otherwise as above, with the count of bytes written |
| `FileSystem.Fs.Readi` | xv6-labs-2024/kernel/fs.c:471-496 | returns the slice of the file from the offset to the smaller of offset + n and the size, cut where it cannot be stored; allocates nothing and changes nothing |
| `FileSystem.Fs.Itrunc` | xv6-labs-2024/kernel/fs.c:425-453 | the file is empty and owns no block, every other file is unchanged, and exactly its blocks are free again; it logs exactly the bitmap blocks that hold their bits and the inode's block; nothing but the inode and its blocks' bits changed |
| `FileSystem.Fs.TruncDirect` | xv6-labs-2024/kernel/fs.c:432-437 | exactly the direct blocks are freed, each of them in use before, and exactly their bitmap blocks logged |
| `FileSystem.Fs.TruncIndirect` | xv6-labs-2024/kernel/fs.c:439-449 | exactly the blocks behind the indirect block and that block are freed, each in use before, and exactly their bitmap blocks logged |
| `FileSystem.Fs.Filewrite` | xv6-labs-2024/kernel/file.c:148-175 | with any transactions of other processes between its own: each of its transactions takes up the source where the full ones before it left off, at the offset and in the state others left, and is one in the sense of `Transaction`; only the last may be short, and the result is n if and only if it is not, else -1. With no one in between, the chunks together splice the source into the file, and for n > 0 the result is n if and only if the offset is within the file, the end within MAXFILE blocks, the source readable that far and the free blocks as many as the file is missing; how many transactions it made |
| `FileSystem.Fs.Transaction` | xv6-labs-2024/kernel/file.c:162-167 | one chunk between `begin_op` and `end_op` logs at most MAXOPBLOCKS blocks for any offset, leaked block included, and every data, bitmap and inode block that it changes but for that one, every new block among them; nothing but the inode, its blocks and their bits changes, it keeps the blocks it had and takes the lowest that are free; -1, a full write and a short one exactly when the arguments and the free map say so |
| `FileSystem.TallyBound` | xv6-labs-2024/kernel/file.c:149-155 | four data blocks, four bitmap blocks, the indirect block and the inode block are the worst case of a three-block write, a block that bytes leaked into counted with them |
| `FileSystem.ReadsAllocated` | xv6-labs-2024/kernel/file.c:120-124 | every position below the size has a block, so a read outside a transaction never allocates |
| `FileSystem.AllIff` | xv6-labs-2024/kernel/fs.c:505-539 | a write reports all n bytes if and only if the source is readable that far and the free blocks cover those the file is missing |
| `FileSystem.LeakIff` | xv6-labs-2024/kernel/fs.c:522-524 | how many bytes beyond the reported count reach the file, from the arguments and the state before the call alone: more than none exactly when the source ends before n, after at least one byte, inside a block, and the free blocks cover what is missing up to it |
| `FileSystem.ExactIff` | xv6-labs-2024/kernel/fs.c:522-524 | the contents afterwards are those of the reported bytes alone exactly when every byte that will leak, as computed before the call, lies past the old size or equals what was there |
| `FileSystem.LeakExample` | xv6-labs-2024/kernel/fs.c:522-524 | on a file system with mkfs's layout: a file [1, 2], a `writei` of two bytes of which only the first, 9, can be read; it reports 0 bytes and the file reads [9, 2] |
| `FileSystem.Fs.NeedAddr` | xv6-labs-2024/kernel/fs.c:388-406 | a missing direct or indirect address gets a fresh zeroed block of its own, or the disk is full and nothing changed |
| `FileSystem.Fs.NeedEntry` | xv6-labs-2024/kernel/fs.c:407-417 | the same for an entry of the indirect block, which is then logged |
| `Space.BudgetStep` | xv6-labs-2024/kernel/fs.c:382-421 | having had the blocks before it, a file gets its next block exactly when the free blocks at the start cover all that was missing, indirect block included, and nothing more is taken |
| `Space.BudgetTrans` | xv6-labs-2024/kernel/file.c:156-174 | two such ranges, the second continuing the first, perhaps in its last block, cost together what one range does |
| `TruncLog.TruncBound` | xv6-labs-2024/kernel/fs.c:425-453 | `itrunc` logs at most one block more than there are bitmap blocks with bits of the data blocks up to the highest in use |
| `TruncLog.RunLow` | xv6-labs-2024/kernel/fs.c:65-88 | in every run of allocations, each of the lowest free block, and truncations, no block in use is further up than all files together can have blocks |
| `TruncLog.SpreadRun` | xv6-labs-2024/kernel/fs.c:65-88 | where MAXOPBLOCKS bitmap blocks are within that reach, some such run gives one file a block in each of them |
| `TruncLog.TruncFitsIff` | xv6-labs-2024/kernel/fs.c:425-453 | every truncation in every such run, for a given size of disk and number of inodes, stays within MAXOPBLOCKS if and only if fewer than MAXOPBLOCKS bitmap blocks hold bits of the blocks within reach |
| `TruncLog.BuiltSizes` | xv6-labs-2024/mkfs/mkfs.c:18-27 | with the 200 inodes mkfs makes that is so on all three sizes of disk the source builds; on the largest, laid out for another number of inodes, exactly below 275 |
| `OnDisk.SameFiles` | xv6-labs-2024/kernel/fs.h:32-51 | every file, read from a disk that holds a state, has its contents in that state |
| `OnDisk.EncodedHolds` | xv6-labs-2024/kernel/fs.h:32-51 | every sound state is held by a disk: free map bits and inode words written and read back are the same |
| `Footprints.GrewConfined` | xv6-labs-2024/kernel/fs.c:505-539 | a write keeps to its inode, the blocks that inode has before or after and their bits: no other part of the file system changes and no block changes hands |
| `Footprints.ShrunkConfined` | xv6-labs-2024/kernel/fs.c:425-453 | so does a truncation |
| `Footprints.MergeSound` | xv6-labs-2024/kernel/fs.c:65-105 | the parts of one inode set taken from one sound state, the rest from another, give a sound state: the free map exact, every block owned once, no holes |
| `Footprints.Commutes` | xv6-labs-2024/kernel/log.c:126-142 | a transaction worked out from the state before others that changed only other parts can be made after them: it still leads to a sound state and logs all it changes, it keeps to its own parts, and every file has the contents that whoever changed it gave it |
| `CrashConsistency.RunInv` | xv6-labs-2024/kernel/log.c:68-235 | in every run of file-system transactions over cache, log and disk, any number of them under way at once and sharing bitmap and inode blocks, announcing what they do at once or part by part, with changes abandoned by failing writes and crashes anywhere: the durable disk holds the state after the durable transactions, the current disk the state after all that was announced, save for the parts that those under way may still change |
| `CrashConsistency.CrashPrefix` | xv6-labs-2024/kernel/log.c:68-235 | wherever such a run stops, recovery leaves a disk on which every file has the contents it had after a prefix of the transactions, those up to the last commit, and no part of one under way is in it; `PrefixMoves` notes when that prefix moves |
| `CrashConsistency.LogHasRoom` | xv6-labs-2024/kernel/log.c:126-142 | in every such run a transaction under way that logs a block it announced finds the header with room for it, and, where the log has at least LOGSIZE + 1 blocks, the log too, whatever the others log meanwhile |
| `CrashConsistency.WriteIsStep` | xv6-labs-2024/kernel/file.c:162-167 | every transaction of `filewrite`, worked out from what processes see of a state, bytes leaked earlier included, is a transaction of such a run and touches only its file; the bytes it leaks itself are committed if their block is in the log, and otherwise processes see them on top of the state it leads to |
| `CrashConsistency.TruncIsStep` | xv6-labs-2024/kernel/fs.c:425-453 | so is a truncation where the blocks in use have their bits in fewer than MAXOPBLOCKS bitmap blocks |
| `CrashConsistency.TakesFreed` | xv6-labs-2024/kernel/fs.c:65-105 | a transaction under way can go on to take the blocks that another, started after it, has just freed |
| `Strays.SeenSound` | xv6-labs-2024/kernel/fs.c:522-524 | a state is sound whenever what processes see of it is, whatever failed writes left in data blocks without logging it |
| `Strays.SeenBytes` | xv6-labs-2024/kernel/fs.c:522-524 | each file has the size it should have and the bytes it should have outside such blocks |
| `Views.ProcessesSee` | xv6-labs-2024/kernel/fs.c:522-524 | in every run in which failing writes leave only data blocks unlogged, the last state with the contents of the stray buffers on top is what is seen of it in the sense of `Strays`, and sound |
| `Views.ReadsView` | xv6-labs-2024/kernel/bio.c:93-105 | in every such run a process that has a block locked and unchanged reads exactly that, data, free map and inodes, but for the parts that transactions under way may still change |
| `Views.Evicted` | xv6-labs-2024/kernel/bio.c:74-85 | a step of `bget` that recycles a stray buffer takes its block, and no other, back to its logged contents |
| `Views.WriteStarts` | xv6-labs-2024/kernel/file.c:162-167 | so a transaction of `filewrite` worked out from what processes see can start in the run, and processes then see what it made of it |
| `Settling.Settles` | xv6-labs-2024/kernel/log.c:126-203 | from every state of every such run, with room in the log and more buffers than it holds blocks, and whoever is under way: every transaction that started can log what it announced, finish and be committed, without a crash and without anything new; the durable disk then holds the state after all of them |
| `Settling.MixedBlock` | xv6-labs-2024/kernel/fs.c:226-241 | a block shared by transactions can be rewritten so that one transaction's parts are as they should be and nothing else in it changes |
| `Settling.IdleEmpty` | xv6-labs-2024/kernel/log.c:146-175 | between operations the log is empty, in every run |
| `CommitProgress.CommitEnds` | xv6-labs-2024/kernel/log.c:178-203 | from every state of every run inside a commit, with more buffers than logged blocks, the commit can be brought to its end, whoever uses buffers at the time, and what was current is then durable |
| `CommitProgress.RecoveryEnds` | xv6-labs-2024/kernel/log.c:116-123 | from every state of every run inside recovery, recovery can be brought to its end with two buffers, or with one if nothing is to be copied |
| `CommitProgress.StuckForever` | xv6-labs-2024/kernel/bio.c:74-88 | a commit that has a block to copy while every buffer is pinned never writes its header: whatever further steps but a crash come, it is where it was |
| `CommitProgress.StuckReached` | xv6-labs-2024/kernel/log.c:214-235 | with no more buffers than the log can hold blocks, operations within their budgets reach such a commit |
| `CommitProgress.AlwaysEndsIff` | xv6-labs-2024/kernel/bio.c:58-89 | in every run within budget every commit can be brought to its end if and only if there are more buffers than the smaller of LOGSIZE and the log's size less one |
| `CommitProgress.NoSizeFits` | xv6-labs-2024/kernel/param.h:14-15 | with the source's NBUF buffers that is so exactly for the log sizes for which a `log_write` within budget can panic |
| `CommitProgress.AlwaysFindsIff` | xv6-labs-2024/kernel/bio.c:58-89 | in every run within budget, with at most h blocks besides the logged ones in use, no read of a commit finds every buffer taken and panics, if and only if there are more buffers than h plus the smaller of LOGSIZE and the log's size less one |
| `CommitProgress.OneReaderPanics` | xv6-labs-2024/kernel/bio.c:88 | with NBUF buffers and the log mkfs makes, that is so exactly for h = 0; with a log so large that `log_write` never panics, for no h |
| `CrashConsistency.BothStart` | xv6-labs-2024/kernel/log.c:126-142 | two operations on different files, each worked out from the same state and with different new blocks, can be under way together, and lead to a state with what each did to its file |
| `PageTable.PteRoundTrip` | xv6-labs-2024/kernel/riscv.h:386-390 | address and flags survive being packed into an entry |
| `PageTable.DistinctSlots` | xv6-labs-2024/kernel/vm.c:85-103 | distinct pages use distinct entries |
| `PageTable.AddedTable` | xv6-labs-2024/kernel/vm.c:93-98 | adding an empty table keeps the tree, changes no mapping and moves one page from the free list |
| `PageTable.ChangedPte` | xv6-labs-2024/kernel/vm.c:143-172 | writing one bottom entry changes the mapping of that page only |
| `PageTable.UserMapped` | xv6-labs-2024/kernel/vm.c:232-256 | mapping a page of one's own keeps user pages and their owners in agreement |
| `PageTable.UserUnmapped` | xv6-labs-2024/kernel/vm.c:177-199 | unmapping and freeing a user page keeps them in agreement |
| `Freewalk.TrimChild` | xv6-labs-2024/kernel/vm.c:278-294 | freeing the subtree of one entry and clearing the entry removes exactly that subtree |
| `Freewalk.TrimDone` | xv6-labs-2024/kernel/vm.c:278-294 | once all entries are cleared, freeing the table itself completes the subtree |
| `Vm.Memory.constructor` | xv6-labs-2024/kernel/kalloc.c:26-40 | every whole page of the range is on the free list once, and no other |
| `Vm.Memory.Kalloc` | xv6-labs-2024/kernel/kalloc.c:68-82 | takes the first free page, or 0 when there is none; no mapping changes |
| `Vm.Memory.Kfree` | xv6-labs-2024/kernel/kalloc.c:46-63 | the page goes to the front of the free list; no mapping changes |
| `Vm.Memory.AddTable` | xv6-labs-2024/kernel/vm.c:94-98 | a zeroed table is linked in under its parent |
| `Vm.Memory.Walk` | xv6-labs-2024/kernel/vm.c:85-103 | finds the bottom table of an address; with allocation it changes no mapping, and 0 means that memory ran out; without, 0 means that there is none |
| `Vm.Memory.Mappages` | xv6-labs-2024/kernel/vm.c:143-172 | adds exactly the requested pages, or on -1 a prefix of them with the free list empty |
| `Vm.Memory.Uvmunmap` | xv6-labs-2024/kernel/vm.c:177-199 | removes exactly the range and frees exactly its user pages, one each; its panics are its preconditions |
| `Vm.Memory.MapFresh` | xv6-labs-2024/kernel/vm.c:241-253 | a fresh page holds the bytes and is mapped, or nothing is mapped, the page is given back and at most one page is free |
| `Vm.Memory.Uvmdealloc` | xv6-labs-2024/kernel/vm.c:262-274 | exactly the pages above the new size are unmapped and freed |
| `Vm.Memory.GiveBack` | xv6-labs-2024/kernel/vm.c:244-253 | on failure every page mapped so far is freed and every mapping is as before |
| `Vm.RunsOut` | xv6-labs-2024/kernel/memlayout.h:40 | with less physical memory than user address space, pages mapped from 0 on end below the trapframe |
| `Vm.Memory.Uvmalloc` | xv6-labs-2024/kernel/vm.c:232-256 | zeroed user pages with the given flags up to the new size, nothing else changed; or no mapping changed, and then no more pages are free than were asked for; a size beyond the trapframe always fails |
| `Vm.Memory.AllocPage` | xv6-labs-2024/kernel/vm.c:240-253 | one page of that growth, zeroed and mapped, or everything mapped so far undone |
| `Vm.Memory.Uvmcopy` | xv6-labs-2024/kernel/vm.c:312-340 | the child has its own page for each of the parent's, with its flags and bytes; or the child is as before, and then no more pages are free than needed |
| `Vm.Memory.CopyPage` | xv6-labs-2024/kernel/vm.c:320-334 | one page of that copy |
| `Vm.Memory.FreeWalk` | xv6-labs-2024/kernel/vm.c:278-294 | frees every table of the subtree once; the leaf panic is unreachable when nothing is mapped |
| `Vm.Memory.Uvmcreate` | xv6-labs-2024/kernel/vm.c:203-212 | an empty address space made of one free page, or 0 when none is free |
| `Vm.Memory.Uvmfree` | xv6-labs-2024/kernel/vm.c:298-304 | every user page and every table of the address space is free, other address spaces are unchanged |
| `Vm.Memory.ProcPagetable` | xv6-labs-2024/kernel/proc.c:176-206 | trampoline and trapframe are mapped where and as asked, for the kernel only; on failure every page is back where it was |
| `Vm.Memory.ProcFreepagetable` | xv6-labs-2024/kernel/proc.c:210-216 | every page of the address space is free, each freed once; all others are unchanged |
| `Vm.Memory.Growproc` | xv6-labs-2024/kernel/proc.c:259-275 | for every int argument user memory stays exactly the pages below the size, and below the trapframe; growth adds zeroed writable pages, shrinking frees exactly the rest, failure changes no mapping |
| `Fork.ForkMemory` | xv6-labs-2024/kernel/proc.c:287-297 | the child has its own copy of every page of the parent, a trapframe and a trampoline, and nothing else changed; or, wherever memory ran out, every page and every mapping is back where it was |
| `UserCopy.Walkaddr` | xv6-labs-2024/kernel/vm.c:108-126 | nonzero exactly for addresses user code may read, and then the physical page |
| `UserCopy.Copyin` | xv6-labs-2024/kernel/vm.c:388-408 | returns the bytes across page boundaries; -1 exactly when some is not readable, and then those before the first such |
| `UserCopy.Copyout` | xv6-labs-2024/kernel/vm.c:358-383 | stores the bytes across page boundaries; -1 exactly when some is not writable, with those before it stored; no other byte of this or any other address space changes |
| `UserCopy.SpawnKernelOnly` | xv6-labs-2024/kernel/proc.c:188-203 | a new address space opens nothing above user memory to user code |
| `UserCopy.GrowKernelOnly` | xv6-labs-2024/kernel/vm.c:232-340 | no change of user memory opens anything above it |
| `Umalloc.HasPlace` | xv6-labs-2024/user/umalloc.c:30-32 | every allocated block has a place in the address-ordered list |
| `Umalloc.SearchStops` | xv6-labs-2024/user/umalloc.c:30-32 | the exit tests of `free`'s search succeed at that place and nowhere else, at the wrap included |
| `Umalloc.JoinDone` | xv6-labs-2024/user/umalloc.c:33-43 | joining a block with the neighbours it touches keeps the list sorted with no two free blocks adjacent, and every unit in exactly one block |
| `Umalloc.CarveDone` | xv6-labs-2024/user/umalloc.c:75-82 | taking the end of a free block, or all of it, keeps the same |
| `Umalloc.ExtendDone` | xv6-labs-2024/user/umalloc.c:54-58 | a region above all others becomes a block of its own |
| `Umalloc.Heap.constructor` | xv6-labs-2024/user/umalloc.c:21-22 | before the first call nothing is free and nothing is allocated |
| `Umalloc.Heap.FindPlace` | xv6-labs-2024/user/umalloc.c:30-32 | the search ends, from wherever it starts, at the highest free block below the block |
| `Umalloc.Heap.Free` | xv6-labs-2024/user/umalloc.c:24-44 | exactly this block stops being allocated, no unit is lost or gained, and it lies within one free block |
| `Umalloc.Heap.Morecore` | xv6-labs-2024/user/umalloc.c:46-61 | a new region of at least 4096 units is free, or nothing changed |
| `Umalloc.Heap.Sbrk` | xv6-labs-2024/user/umalloc.c:54-56 | fails and changes nothing, or gives memory above all it gave before |
| `Umalloc.Heap.Take` | xv6-labs-2024/user/umalloc.c:75-84 | the block returned was free, is now allocated with the requested size, and no other block changed |
| `Umalloc.Heap.Malloc` | xv6-labs-2024/user/umalloc.c:63-90 | a new block of at least the requested bytes, disjoint from all others; `morecore` runs once exactly if no free block is large enough before the call and the request is at most 2^31 - 32 bytes; it would be asked for the wrong amount exactly for a larger request that fits no free block; 0 only in one of these cases, and then nothing changed |
| `Umalloc.Heap.Search` | xv6-labs-2024/user/umalloc.c:74-89 | the round through the list takes a block that is large enough if there is one before it starts; otherwise it comes back to its start and asks `morecore` once, or would ask it for the wrong amount, exactly by the size of the request |
| `Umalloc.SbrkArgument` | xv6-labs-2024/user/umalloc.c:54 | the request reaches `sbrk(int)` unchanged exactly below 2^27 units |
| `Umalloc.LargestRequest` | xv6-labs-2024/user/umalloc.c:69 | that is, for at most 2^31 - 32 bytes |
| `Umalloc.HugeRequest` | xv6-labs-2024/user/umalloc.c:63-90 | a call of `malloc` for 2^32 - 1 bytes on a new heap: the amount for `sbrk` is truncated to a single unit |
| `Proc.LocksKept` | xv6-labs-2024/kernel/proc.c:444-592 | a step of one CPU that takes only free locks leaves every lock with the one CPU whose position says it holds it |
| `Proc.LockedAway` | xv6-labs-2024/kernel/proc.c:444-508 | a process that is not running and whose lock another CPU holds is on no CPU |
| `Proc.DozeWaits` | xv6-labs-2024/kernel/proc.c:397-434 | a process that found no zombie child under wait_lock may go to sleep: nothing it waits for can have happened |
| `Proc.RousedOne` | xv6-labs-2024/kernel/proc.c:578-592 | after `wakeup` has passed a slot its process is not asleep in `wait` and not on the way there |
| `Proc.AdoptWaits` | xv6-labs-2024/kernel/proc.c:330-341 | children handed to init, zombies included, leave init asleep only until the `wakeup` that follows |
| `Proc.DieWaits` | xv6-labs-2024/kernel/proc.c:368-381 | a process becomes ZOMBIE only when its parent is awake and cannot go back to sleep before it is seen |
| `Proc.ReapSafe` | xv6-labs-2024/kernel/proc.c:402-421 | the child that `wait` frees is on no CPU and past its last `swtch` |
| `Proc.StepKeepsInv` | xv6-labs-2024/kernel/proc.c:279-616 | every step of every CPU keeps the invariant; a process can be preempted wherever it holds no lock, and goes on there on any CPU |
| `Proc.RunInv` | xv6-labs-2024/kernel/proc.c:279-616 | the invariant holds at the end of every run from boot, timer interrupts in the kernel included |
| `Proc.OneCpu` | xv6-labs-2024/kernel/proc.c:444-481 | in every run, kernel preemption included, no two CPUs have the same process |
| `Proc.RunningIff` | xv6-labs-2024/kernel/proc.c:444-519 | in every run, whenever a process's lock is free, it is RUNNING exactly when some CPU has it |
| `Proc.ForkOwns` | xv6-labs-2024/kernel/proc.c:279-326 | in every run the slot a process is forking, even while it is preempted on the way, is USED, on no CPU and no other process's |
| `Proc.FreedOffCpu` | xv6-labs-2024/kernel/proc.c:390-424 | in every run `wait` never frees a process that a CPU still has |
| `Proc.NoLostExit` | xv6-labs-2024/kernel/proc.c:330-435 | in every run, with preemption anywhere and kills after the test for one, whenever wait_lock is free no process asleep in `wait` has a ZOMBIE child |
| `Virtqueue.CommandOf` | xv6-labs-2024/kernel/virtio_disk.c:238-269 | the device decodes from the descriptors of a request in flight exactly the command that was submitted |
| `Virtqueue.AvailHasRoom` | xv6-labs-2024/kernel/virtio_disk.c:271-277 | fewer than NUM entries wait in the avail ring while a descriptor is free |
| `Virtqueue.UsedHasRoom` | xv6-labs-2024/kernel/virtio_disk.c:309-324 | fewer than NUM entries wait in the used ring while the device holds a request |
| `Virtqueue.Waiting` | xv6-labs-2024/kernel/virtio_disk.c:312 | the 16-bit counters of a ring are equal exactly when nothing waits in it |
| `Virtqueue.NextUsed` | xv6-labs-2024/kernel/virtio_disk.c:312-320 | the id the handler reads is the oldest unseen completion, of a request in flight with its buffer recorded |
| `Virtqueue.StepKeepsInv` | xv6-labs-2024/kernel/virtio_disk.c:156-327 | every step of driver, device and handler keeps the invariant |
| `Virtqueue.RunInv` | xv6-labs-2024/kernel/virtio_disk.c:156-327 | the invariant holds at the end of every run |
| `Virtqueue.Partitioned` | xv6-labs-2024/kernel/virtio_disk.c:156-213 | in every run each descriptor is free or in the chain of exactly one request in flight |
| `Virtqueue.NoOverwrite` | xv6-labs-2024/kernel/virtio_disk.c:271-277 | in every run a new request overwrites no avail entry the device has yet to take, across 16-bit wrap |
| `Virtqueue.HandlerSafe` | xv6-labs-2024/kernel/virtio_disk.c:312-320 | in every run the handler finds only requests in flight, with a buffer |
| `Virtqueue.OwnRequestDone` | xv6-labs-2024/kernel/virtio_disk.c:283-289 | in every run `virtio_disk_rw` goes on only after the device carried out the very command it submitted, since it submitted it |
| `VirtioDisk.Disk.constructor` | xv6-labs-2024/kernel/virtio_disk.c:144-146 | all descriptors free and both rings empty satisfies the invariant |
| `VirtioDisk.Disk.AllocDesc` | xv6-labs-2024/kernel/virtio_disk.c:156-166 | the lowest free descriptor, or -1 when none is free |
| `VirtioDisk.Disk.Alloc3` | xv6-labs-2024/kernel/virtio_disk.c:201-213 | the three lowest free descriptors; or none taken, exactly when fewer than three are free |
| `VirtioDisk.Disk.GiveBack` | xv6-labs-2024/kernel/virtio_disk.c:207-209 | the failure path leaves the free flags as they were |
| `VirtioDisk.Disk.Publish` | xv6-labs-2024/kernel/virtio_disk.c:235-277 | the request is in the avail ring and the invariant holds |
| `VirtioDisk.Disk.Submit` | xv6-labs-2024/kernel/virtio_disk.c:215-277 | a step of the queue: the request for the block's sector, a 32-bit product, is queued, or too few descriptors are free |
| `VirtioDisk.SectorsApart` | xv6-labs-2024/kernel/virtio_disk.c:218 | two blocks share a sector exactly when they are 2^31 apart; below that the sector is the block's own |
| `VirtioDisk.Disk.Request` | xv6-labs-2024/kernel/virtio_disk.c:220-277 | the same for a sector: three lowest free descriptors form the chain, or none is taken |
| `VirtioDisk.Disk.DeviceRuns` | xv6-labs-2024/kernel/virtio_disk.c:299-310 | whatever the device does in any stretch of time keeps the invariant, moves requests only forward and leaves the driver's memory alone |
| `VirtioDisk.Disk.SeeOne` | xv6-labs-2024/kernel/virtio_disk.c:312-324 | one pass of the handler's loop: the oldest unseen completion is seen, or the status is not 0 and nothing changed |
| `VirtioDisk.Disk.Intr` | xv6-labs-2024/kernel/virtio_disk.c:294-327 | with the device finishing requests all the while: the loop ends; every request finished before is seen at its place and its buffer released, and none is left in the used ring; it panics only on a status other than 0 |
| `VirtioDisk.Disk.FreeChain` | xv6-labs-2024/kernel/virtio_disk.c:185-197 | following the chain frees exactly its three descriptors, reaching no panic |
| `VirtioDisk.Disk.Retire` | xv6-labs-2024/kernel/virtio_disk.c:288-289 | a step of the queue: the finished request is gone and its chain is free |
| `Pipe.Counters` | xv6-labs-2024/kernel/pipe.c:88-121 | though both counters wrap at 2^32 their difference tells exactly empty and full |
| `Pipe.EndOfFile` | xv6-labs-2024/kernel/pipe.c:105-130 | a read of n > 0 bytes that can be stored returns 0 exactly when the pipe is drained and its write end closed |
| `Pipe.Ring.constructor` | xv6-labs-2024/kernel/pipe.c:33-36 | an empty pipe with both ends open |
| `Pipe.Ring.Push` | xv6-labs-2024/kernel/pipe.c:95 | one byte more is written, no byte in the ring is overwritten |
| `Pipe.Ring.Pop` | xv6-labs-2024/kernel/pipe.c:123 | the oldest byte not yet taken |
| `Pipe.Ring.WriteSection` | xv6-labs-2024/kernel/pipe.c:83-98 | how many bytes are stored before the writer finishes, fails, is killed or sleeps, and which of these it is |
| `Pipe.Ring.Drain` | xv6-labs-2024/kernel/pipe.c:120-126 | the bytes delivered are the next ones in order, and one more is lost exactly when it could not be stored |
| `Pipe.Ring.ReadSection` | xv6-labs-2024/kernel/pipe.c:112-126 | sleeps exactly on an open empty pipe, unless killed; otherwise reads as above |
| `Pipe.Ring.Close` | xv6-labs-2024/kernel/pipe.c:58-74 | one end is closed, and the pipe is given back exactly when both are |
| `PipeSleep.StepKeepsInv` | xv6-labs-2024/kernel/pipe.c:58-130 | every step keeps: taken bytes are a prefix of the written ones, the ring holds the rest |
| `PipeSleep.RunInv` | xv6-labs-2024/kernel/pipe.c:58-130 | the same at the end of every run |
| `PipeSleep.StepAwakeIff` | xv6-labs-2024/kernel/pipe.c:76-130 | from a state where sleeping readers find the pipe empty and open and sleeping writers find it full and open, a step leads to such a state if and only if it is not a writer killed mid-write while a reader sleeps |
| `PipeSleep.Delivered` | xv6-labs-2024/kernel/pipe.c:105-130 | in every run the delivered bytes are a prefix of the written ones, unless a store failed |
| `PipeSleep.RunAwake` | xv6-labs-2024/kernel/pipe.c:76-130 | in every run without such a kill nobody sleeps who could go on, and a reader and a writer never sleep at once |
| `PipeSleep.LostWakeup` | xv6-labs-2024/kernel/pipe.c:84-86 | a run that ends with a reader asleep on a pipe that holds a byte |
| `Grep.HereOne` | xv6-labs-2024/user/grep.c:93-94 | a single character in front of a pattern matches one fitting character |
| `Grep.HereMany` | xv6-labs-2024/user/grep.c:99-106 | a starred character in front of a pattern matches any run of fitting characters |
| `Grep.MatchHere` | xv6-labs-2024/user/grep.c:85-96 | true exactly when some prefix of the text, all of it under a final '$', is in the language of the pattern |
| `Grep.MatchStar` | xv6-labs-2024/user/grep.c:99-106 | the same for a starred character and the rest |
| `Grep.Match` | xv6-labs-2024/user/grep.c:72-82 | true exactly when that holds at some place of the text, at its start under a leading '^' |
| `Grep.FindNewline` | xv6-labs-2024/user/grep.c:22 | the next newline before the next NUL, if any |
| `Grep.PrintLines` | xv6-labs-2024/user/grep.c:22-29 | prints the matching lines of the buffer in order and leaves a rest without a whole line |
| `Grep.Read` | xv6-labs-2024/user/grep.c:18 | any positive number of the bytes asked for and left, 0 exactly when none are |
| `Grep.Append` | xv6-labs-2024/user/grep.c:18-19 | the bytes read follow those kept in the buffer |
| `Grep.MoveDown` | xv6-labs-2024/user/grep.c:30-33 | the rest of the buffer moves to its front |
| `Grep.Run` | xv6-labs-2024/user/grep.c:11-35 | however `read` splits the input, the output is the matching lines before the first that is over 1022 characters or holds a NUL |
| `Grep.CompleteIff` | xv6-labs-2024/user/grep.c:11-35 | the output is every matching line, for every pattern, exactly when no terminated line is over 1022 characters or holds a NUL |

## Left out

- Assembly, traps, system-call plumbing, `exec`, the console, the UART and boot: hardware effects and argument passing.
- Spinlocks and sleep-locks themselves: a critical section is one step, or a program counter says which locks are held.
- Directories, path names, link counts and the inode cache (`dirlookup`, `dirlink`, `namex`, `iget`, `iput`).
- Inode types, device numbers and link counts: an inode is its size and addresses, in memory and on disk.
- FileSystem.Fs.Filewrite: a transaction of another process comes before or after each of its own as a whole; how they overlap is in `CrashConsistency`.
- CrashConsistency.RunInv: an operation makes one transaction; that a transaction under way changes only its own parts of a block, and ends when the blocks it announced are logged and as they should be, are conditions on its steps, where the kernel has locks on inodes and buffers (that they can be met from every state is `Settling.Settles`).
- TruncLog.TruncFitsIff: one `balloc` or one `itrunc` at a time; between `bfree`s of an `itrunc` nobody else allocates.
- CommitProgress.AlwaysEndsIff: says that a commit can be brought to its end, where the machine waits for a buffer; that the source panics instead of waiting is `CommitProgress.AlwaysFindsIff`.
- Storage.StepKeepsInv: a miss may recycle any unreferenced buffer, the choice of the oldest is in `Bio`; there is one device.
- VirtioDisk.Disk.Intr: the device takes its turns between passes of the loop; within one it cannot touch the entry at hand.
- RedoLogImpl.RedoLog.LogWrite: the panic for a full log is a precondition; when it can be reached is in `Admission`.
- Bio.BufferCache.Brelse: the sleep-lock is not modelled; its holder has a reference, which is the precondition.
- Vm.Memory.Kfree: the junk that `kfree` and `kalloc` write into pages is not modelled, a free page has no contents.
- Vm.Memory.Uvmalloc: a size beyond the trapframe is covered for a machine with less memory than user address space, as the source's 128 megabytes are, and pages mapped from 0 on; otherwise `mappages` would panic.
- Vm.Memory.Growproc: the same.
- The kernel page table, `uvmfirst`, `uvmclear` and `copyinstr`.
- Umalloc.Heap.Malloc: what happens after `sbrk` is asked for the wrong amount; memory from `sbrk` is above earlier memory and unit-aligned, and the `uint` size field is not bounded.
- Proc.StepKeepsInv: what processes do outside these functions is one position `Run`; an interrupt handler's `wakeup` is one step a slot; `kill` finds its process by slot, `freeproc` keeps no memory, and file descriptors and exit codes are left out.
- Fairness and termination of waiting: the results about `sleep` and `wakeup` are safety over every run.
- Virtqueue.StepKeepsInv: the driver publishes a request as one step, since the device looks at none of its writes before the index moves; memory barriers, the notification register and the data transfer itself are left out.
- Pipe.Ring.WriteSection: when `killed` becomes true and how much of user memory can be read are parameters; so is the room a reader has.
- `pipealloc`'s file table entries and reference counts of open files.
- Grep.Run: an error from `read` is the end of the input.

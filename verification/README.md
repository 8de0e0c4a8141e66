# xv6 in Dafny

A Dafny model of the parts of the xv6 teaching kernel, its `mkfs`, its user-level allocator and its shell
parser whose correctness is not visible from any one function: the crash-safe log, the buffer cache, block and
page ownership, the three-level page tables, the sleep/wakeup protocols, the virtio queue, pipes, directories
and paths, K&R `malloc`, and the recursive-descent parser.

Code that changes state step by step is modelled as classes and methods with loops, each proved against a
specification over values; the laws are lemmas about those values. Protocols between processes, CPUs or devices are state
machines: a step runs up to the next point where another party can interfere, a run is any sequence of states
linked by steps, and the theorems hold at every point of every run, for any number of processes.

| modules | what they model |
|---|---|
| `RingList`, `BufferCache` | the buffer cache of kernel/bio.c and its LRU ring |
| `Blocks`, `LogSpec`, `LogCache`, `Log`, `Reservation` | the log of kernel/log.c: what its writes mean, the code that issues them while other processes use the cache, admission |
| `PageState`, `Vm`, `UserVm`, `FreeTree`, `ProcVm`, `ProcPages`, `CopyUser`, `Bits` | physical pages, page tables and user memory: kernel/kalloc.c, kernel/vm.c, parts of kernel/proc.c |
| `Sv39` | the same page tables as the hardware walks them |
| `FsState`, `Fs`, `FsFree`, `Mkfs` | block ownership and file contents: kernel/fs.c, filewrite of kernel/file.c, mkfs/mkfs.c |
| `CrashWrite` | the file system's states as disk images, and its operations as transactions of the log |
| `Paths`, `Directory` | names, directories and path lookup: kernel/fs.c |
| `SleepLock`, `ExitWait`, `Children`, `PipeRing`, `Pipe`, `PipeCalls` | kernel/sleeplock.c; fork, exit, wait, yield and the scheduler of kernel/proc.c; kernel/pipe.c |
| `VirtioState`, `Virtio` | the disk queue of kernel/virtio_disk.c and any device that follows its rules |
| `HeapState`, `Malloc` | user/umalloc.c |
| `ShellSyntax`, `ShellGrammar`, `ShellWords`, `ShellBrief`, `Shell` | the parser of user/sh.c |
| `Failures` | runs of the modelled code in which a promise fails |
| `Basics` | shared definitions |

A kernel `panic` is either a precondition that the callers in the model meet, or a result whose condition is stated.

## Where the code does not do what it promises

Each of these has a failing input or run, and beside it the exact condition.

- **Log size.** mkfs makes a log of LOGSIZE blocks (mkfs/mkfs.c:25), one of which is the header. begin_op reserves
  against LOGSIZE, so three admitted operations may fill the log and make log_write panic
  (`Reservation.SmallLogPanics`); a fresh append panics exactly when size - 1 blocks are logged
  (`Reservation.NoPanic`).
- **Cache size.** NBUF equals LOGSIZE, and readers take buffers without a transaction. bget finds a buffer exactly when
  logged blocks and other blocks in use are together fewer than NBUF (`LogCache.UnusedExact`); with 29 logged
  blocks one reader is enough to make a commit panic (`LogCache.ReaderCrowds`).
- **growproc.** The new size is computed in 32 bits. When the sum wraps, growproc reports success and the size stays
  (`Failures.GrowWraps`); otherwise it changes by exactly `n` (`UserVm.Growproc`).
- **mkfs and the root directory.** The size is rounded to the *next* whole block. With 62 files the root directory is one
  whole block and gets a hole (`Failures.RootHole`); the image satisfies the file-system invariant if and only if
  the size was not a whole number of blocks (`Mkfs.Image.Finish`).
- **Killed pipe writer.** pipewrite returns without waking readers when its process is killed. A reader may then sleep on
  a pipe that is not empty (`Pipe.KilledWriter`); over a whole run this happens if and only if some writer gives up
  after putting bytes in, since it took the lock, while a reader sleeps (`Pipe.ReadersExact`).
- **Failed copy in writei.** The block of the first byte that cannot be copied may be changed without being logged
  (`Failures.TornWrite`); this happens exactly when that block existed, was not logged before, and a byte copied
  into it differs (`Fs.TornExact`, `Fs.FileSystem.Writei`).

## Model

| member | source | states |
|---|---|---|
| `RingList.UnlinkRing` | kernel/bio.c:128-129 | unlinking a node leaves a doubly linked ring of the other nodes, in the same order |
| `RingList.PushFrontRing` | kernel/bio.c:130-133 | linking a node after the head gives a ring with that node first |
| `BufferCache.OneBufferPerBlock` | kernel/bio.c:58-89 | in a valid cache no two buffers hold the same block of the root device |
| `BufferCache.RecycleOk` | kernel/bio.c:77-87 | giving an unused buffer to a block that is not cached keeps the cache valid: no contents are lost and no block is cached twice |
| `BufferCache.Cache.constructor` | kernel/bio.c:36-53 | a valid, empty cache whose list holds every buffer once |
| `BufferCache.Cache.FindCached` | kernel/bio.c:66-74 | the forward scan finds the block's buffer exactly when the block is cached |
| `BufferCache.Cache.FindUnused` | kernel/bio.c:76-88 | the backward scan finds, of the unused buffers, the one released longest ago, and nothing exactly when all are in use |
| `BufferCache.Cache.Bget` | kernel/bio.c:58-89 | the block's buffer with one more reference, or the least recently released unused buffer recycled; held and pinned buffers are never taken; the panic happens exactly when the block is not cached and no buffer is unused |
| `BufferCache.Cache.Fill` | kernel/bio.c:97-101 | a locked buffer holds the latest contents of its block, whether they were cached or on disk |
| `BufferCache.Cache.Modify` | kernel/bio.c:8-16 | a change by the lock holder becomes the latest contents of the block, and of no other |
| `BufferCache.Cache.Bread` | kernel/bio.c:92-103 | the caller gets the block locked, in one buffer, with the latest contents; nothing else changes |
| `BufferCache.Cache.Bwrite` | kernel/bio.c:106-112 | exactly this block's latest contents go to disk, as the next write of the trace |
| `BufferCache.Cache.MoveToHead` | kernel/bio.c:128-133 | the list is the old one with this buffer moved to the front |
| `BufferCache.Cache.Drop` | kernel/bio.c:124-136 | one reference less; at zero the buffer becomes the most recently released, otherwise the order stays |
| `BufferCache.Cache.Brelse` | kernel/bio.c:116-137 | lock and reference are given up and the cache stays valid, for a client that wrote or pinned what it changed |
| `BufferCache.Cache.Bpin` | kernel/bio.c:139-144 | one more pin, counted as a reference |
| `BufferCache.Cache.Bunpin` | kernel/bio.c:146-151 | one pin less; the list is not reordered |
| `Blocks.AfterAt` | kernel/log.c:67-123 | after a prefix of a list of block writes, a block holds the last data written to it or its old contents |
| `LogSpec.SealedOk` | kernel/log.c:177-191 | after the log and header writes the header records the transaction, the log blocks hold its data and no home block changed |
| `LogSpec.InstallPrefix` | kernel/log.c:67-83 | any prefix of the installation leaves the meaning of the disk as it was |
| `LogSpec.RecoverPrefix` | kernel/log.c:116-123 | whatever prefix of a recovery reaches the disk, its meaning stays; a complete one brings the meaning home and clears the log |
| `LogSpec.CommitPrefixMeaning` | kernel/log.c:193-203 | a commit cut after any block write means the new state exactly when the header write was among those done, else the old state |
| `LogSpec.CrashAtomicity` | kernel/log.c:67-203 | commit cut anywhere, any number of recoveries crashed anywhere, one recovery completed: home blocks are all old or all new, new exactly when the commit header was written, and no other home block changes |
| `LogSpec.StepEffect` | kernel/log.c:177-203 | one commit, crashed or not, with its recoveries has the transaction's whole effect or none |
| `LogSpec.RunIsCommitted` | kernel/log.c:67-203 | over a whole life of commits, crashes and interrupted recoveries the home blocks are what the committed transactions, in order, make of the initial disk |
| `Reservation.StepInv` | kernel/log.c:125-175 | every begin, log_write, end and commit keeps: logged blocks plus unused reservations fit LOGSIZE, logged blocks distinct, none outstanding while committing |
| `Reservation.RunInv` | kernel/log.c:125-235 | the same at every point of every interleaving |
| `Reservation.NoPanic` | kernel/log.c:147-235 | the panics of end_op and "outside of trans" are unreachable; a fresh append panics exactly when size - 1 blocks are logged, never if the log has more than LOGSIZE blocks |
| `Reservation.SmallLogPanics` | kernel/log.c:215-221 | for every log of at most LOGSIZE blocks, a run of admitted operations in which a fresh log_write panics |
| `LogCache.PinnedSurvivesRecycle` | kernel/log.c:228-231 | recycling a buffer leaves every logged block in its buffer with its contents, whatever processes use the cache |
| `LogCache.UnusedExact` | kernel/bio.c:76-88 | bget finds a buffer to recycle if and only if logged blocks plus the unlogged blocks that processes use are fewer than NBUF |
| `LogCache.ReaderCrowds` | kernel/file.c:119-123 | a cache with NBUF - 1 logged blocks and one reader in which a committing process finds no buffer |
| `LogCache.UsingStarts` | kernel/log.c:151-169 | when no operation is outstanding, a commit can begin whatever buffers other processes use |
| `LogCache.Other` | kernel/bio.c:58-137 | any critical section of bread or brelse of another process keeps the pins, the contents of all blocks, and what the committing process uses; a buffer given up for good holds nothing the disk lacks |
| `Log.Log.Yield` | kernel/log.c:177-203 | so does any sequence of them between two critical sections of the commit |
| `Log.Log.LockOwn` | kernel/sleeplock.c:21-31 | the commit gets the buffer's lock, or waits for another process that holds it |
| `Log.Log.Bread` | kernel/bio.c:92-103 | the commit gets the block locked with its latest contents, waits, or panics for lack of buffers; no block's contents change |
| `Log.Log.BeginOp` | kernel/log.c:125-142 | one turn of the loop: admitted exactly when no commit is under way and the blocks logged and MAXOPBLOCKS for each operation, this one included, fit LOGSIZE; then one more is outstanding |
| `Log.Log.LogWrite` | kernel/log.c:214-235 | a block already logged is absorbed, a fresh one appended to lh and pinned once; the reservation invariant and the pins are kept |
| `Log.Log.EndOp` | kernel/log.c:151-164 | one operation less is outstanding; the last one out, and only it, goes on to commit |
| `Log.Log.EndCommit` | kernel/log.c:166-174 | after the commit the log is as at the start |
| `Log.Log.CopyToLog` | kernel/log.c:183-190 | one block's latest cached contents go to its log block, in one disk write, or the commit stops with nothing written |
| `Log.Log.WriteLog` | kernel/log.c:177-191 | the disk writes are a prefix of the specified log writes, of the contents that log_write recorded, and all of them unless the commit stops, whatever other processes read meanwhile |
| `Log.Log.WriteHead` | kernel/log.c:99-114 | one disk write, of the header block with the new list, or the commit stops with nothing written |
| `Log.Log.ReadHead` | kernel/log.c:85-97 | the in-memory list is the one recorded on disk |
| `Log.Log.CopyHome` | kernel/log.c:74-77 | one log block goes home, in one disk write, or the commit stops with nothing written |
| `Log.Log.InstallOne` | kernel/log.c:73-82 | the same, unpinning the block unless recovering |
| `Log.Log.InstallTrans` | kernel/log.c:67-83 | the disk writes are a prefix of the specified installation, all of it unless stopped, and then nothing is pinned |
| `Log.Log.RecoverFromLog` | kernel/log.c:116-123 | the disk writes are a prefix of the specified recovery, all of it unless stopped, for a log of any recorded length |
| `Log.Log.Commit` | kernel/log.c:193-203 | with any other processes reading through the cache between its critical sections, the disk writes are a prefix of the commit writes of the transaction made of the logged blocks and their latest contents, so `CrashAtomicity` applies; all of them unless it waits for a lock or finds no buffer |
| `Log.Log.Seal` | kernel/log.c:196-198 | the same up to the commit point |
| `PageState.PopInv` | kernel/kalloc.c:69-76 | the page that leaves the free list was in no tree and in nobody's hands; the invariant and all trees are kept |
| `PageState.PushInv` | kernel/kalloc.c:56-62 | a page its caller owns joins the free list; the invariant and all trees are kept |
| `PageState.AddNodeInv` | kernel/vm.c:92-95 | hanging a new page-table page into a tree keeps the invariant and changes no translation of any tree |
| `PageState.SetLeafAt` | kernel/riscv.h:355-364 | distinct pages below MAXVA, of one tree or two, reach distinct leaf entries: writing one changes one translation only |
| `PageState.SetLeafInv` | kernel/vm.c:154 | a permitted change of one leaf entry keeps the invariant |
| `PageState.OwnInv` | kernel/vm.c:236-242 | a held page that an entry points to can become the tree's |
| `PageState.DisownInv` | kernel/vm.c:182-185 | a tree's page can go back to the kernel |
| `PageState.NewTreeInv` | kernel/vm.c:192-201 | a zeroed page as root is an empty tree and changes no other |
| `PageState.DetachInv` | kernel/vm.c:286-293 | a tree without leaf pages can be taken apart, its page-table pages becoming the caller's |
| `PageState.Conservation` | kernel/kalloc.c:33-82 | in every invariant state free pages, inner nodes, leaves and held pages partition physical memory, and the sizes add up |
| `Vm.Memory.constructor` | kernel/kalloc.c:26-31 | kinit frees exactly the whole pages from the end of the kernel to PHYSTOP |
| `Vm.Memory.Freerange` | kernel/kalloc.c:33-40 | exactly the whole pages of the range become free |
| `Vm.Memory.Kalloc` | kernel/kalloc.c:65-82 | fails exactly when no page is free; otherwise the page is the caller's alone |
| `Vm.Memory.Kfree` | kernel/kalloc.c:42-63 | a page its caller owns is free again |
| `Vm.Memory.Walk` | kernel/vm.c:69-99 | finds exactly the leaf entry of the address; allocating inner nodes changes no translation of any tree, takes exactly the page-table pages that are missing, and fails exactly when the free list is shorter than that; without `alloc` nothing changes |
| `Vm.Memory.Hang` | kernel/vm.c:92-95 | a new page-table page hangs under its parent and nothing else changes |
| `Vm.Memory.MapOne` | kernel/vm.c:149-155 | one page mapped, or no translation changed and no page free |
| `Vm.Memory.Mappages` | kernel/vm.c:134-161 | exactly the pages of the range get their entries, or a prefix of them exactly when the free list is shorter than the missing page-table pages; every other translation of every tree stays |
| `Vm.KeysToMember` | kernel/vm.c:88-96 | after mapping a range the tree has its old page-table pages and exactly those on the way to the range's pages |
| `Vm.TablesCount` | kernel/vm.c:88-96 | the page-table pages that mapping a range takes are exactly those by which the tree grows |
| `Vm.Memory.UnmapOne` | kernel/vm.c:176-187 | one page unmapped, its physical page freed if asked |
| `Vm.Memory.Uvmunmap` | kernel/vm.c:163-188 | exactly the range is unmapped, exactly its own physical pages are freed, all else stays |
| `UserVm.MapFresh` | kernel/vm.c:232-242 | a new filled page at the end of user memory, or, exactly when there are too few free pages for it and its page-table pages, every translation as before and the page given back |
| `UserVm.Uvmdealloc` | kernel/vm.c:247-263 | user pages become exactly those below the rounded new size; exactly the others are freed |
| `UserVm.Uvmalloc` | kernel/vm.c:219-245 | user pages become exactly those below the rounded new size, the new ones zeroed; it fails, with all translations as before, exactly when the free pages are fewer than these pages and the page-table pages missing for them |
| `UserVm.Growproc` | kernel/proc.c:267-285 | the size changes by `n` exactly if the sum fits 32 bits, else stays; after success or failure user pages are exactly those below the rounded size, and only pages above the smaller size are touched; it fails exactly when a growth that does not wrap finds too few free pages |
| `UserVm.ReadLeaf` | kernel/vm.c:309-315 | the entry and the physical page of a mapped user page |
| `UserVm.Uvmcopy` | kernel/vm.c:295-329 | the child gets its own copy of every user page with the same flags, or, exactly when the free pages are too few for the copies and their page-table pages, no translation more than before, every user page given back; the parent and all other trees stay |
| `FreeTree.Freewalk` | kernel/vm.c:265-283 | frees exactly the page-table pages of a subtree; the leaf panic is unreachable once leaves are unmapped |
| `FreeTree.Uvmfree` | kernel/vm.c:285-293 | gives back exactly the pages the tree owned |
| `ProcVm.Uvmcreate` | kernel/vm.c:190-201 | an empty tree made of one free page, or, exactly when there is none, nothing changed |
| `ProcVm.ProcPagetable` | kernel/proc.c:177-216 | the last three pages below MAXVA are the trampoline (R, X), the trapframe (R, W) and the shared page (R, U), and no other page is mapped; it fails exactly with fewer than three free pages, and then all is as before up to the order of the free list |
| `ProcVm.ProcFreepagetable` | kernel/proc.c:218-227 | gives back exactly the pages the tree owned, not the three it borrowed |
| `ProcVm.CreatedReturned` | kernel/proc.c:177-227 | a tree made and given back leaves physical memory as it was |
| `ProcPages.Allocproc` | kernel/proc.c:99-149 | a process gets two pages, the shared one holding its pid, and a tree of its own that maps exactly the trampoline and these two, made of free pages; it fails exactly with fewer than five free pages, and then all of memory is as before up to the order of the free list |
| `ProcPages.SharedPid` | kernel/proc.c:133-216 | the tree of a process is one the copy functions work on, and user code reads the pid at USYSCALL |
| `ProcPages.Freeproc` | kernel/proc.c:151-175 | exactly the pages of the process are freed, its trapframe before the tree that maps it, and exactly its tree goes |
| `ProcPages.MadeFreed` | kernel/proc.c:99-175 | what allocproc made and freeproc frees leaves physical memory as it was |
| `CopyUser.UserIsOpen` | kernel/proc.c:177-216 | the user-accessible pages of a process have distinct physical pages |
| `CopyUser.Walkaddr` | kernel/vm.c:101-122 | the physical page a user access reaches, 0 exactly if there is none |
| `CopyUser.Copyout` | kernel/vm.c:344-367 | succeeds exactly when every touched page is valid and user-accessible; stores exactly the bytes up to the first page that is not, and changes nothing else |
| `CopyUser.Copyin` | kernel/vm.c:369-392 | succeeds exactly when every touched page is valid and user-accessible, and returns the bytes there |
| `CopyUser.CopyRoundTrip` | kernel/vm.c:344-392 | copyin of what a complete copyout stored returns the same bytes |
| `CopyUser.CopyStr` | kernel/vm.c:413-426 | the inner loop stops at the first NUL or at the end of the page |
| `CopyUser.NoEnd` | kernel/vm.c:394-435 | no string ends within bytes without NUL or beyond a page out of reach |
| `CopyUser.Copyinstr` | kernel/vm.c:394-435 | succeeds exactly when a NUL lies within `max` bytes before any page out of reach, and returns the string |
| `CopyUser.Pageaccess` | kernel/vm.c:462-478 | bit i of the mask stored is the accessed bit of page i, and exactly these bits are cleared, every other bit of every entry being kept |
| `Sv39.HardwareView` | kernel/vm.c:58-99 | for every page of every tree the hardware's three-level walk over physical memory finds exactly the leaf entry the code maintains, or faults where there is none |
| `FsState.WordBytes` | kernel/fs.c:390-395 | block numbers lie in the indirect block as 32-bit numbers, lowest byte first |
| `FsState.HangInv` | kernel/fs.c:64-86 | a block whose bit was clear, marked, zeroed and stored in an empty slot, keeps the ownership invariant and every file's contents |
| `FsState.StoreInv` | kernel/fs.c:499-504 | writing a data block keeps the ownership invariant |
| `FsState.ResizeInv` | kernel/fs.c:508-509 | a new size keeps the invariant when all blocks below it are there |
| `Fs.FreeBlock` | kernel/fs.c:71-80 | a block with a clear bit is a data block that no inode holds |
| `Fs.FileSystem.Balloc` | kernel/fs.c:61-86 | marks and zeroes the lowest free block; panics exactly when there is none |
| `Fs.FileSystem.Bfree` | kernel/fs.c:88-103 | clears exactly this block's bit |
| `Fs.FileSystem.Iupdate` | kernel/fs.c:217-237 | what is on disk becomes what the in-memory inode says, and stays so; one block logged |
| `Fs.FileSystem.Attach` | kernel/fs.c:383-393 | a fresh block in one of the inode's own slots |
| `Fs.FileSystem.AttachEntry` | kernel/fs.c:394-401 | a fresh block in an entry of the indirect block |
| `Fs.FileSystem.BmapEntry` | kernel/fs.c:394-401 | the block of an indirect entry, allocated if missing |
| `Fs.FileSystem.Bmap` | kernel/fs.c:373-405 | the block in the slot of `bn`, across the direct/indirect boundary, allocated and logged if missing; no byte of any file and no other slot of the file changes; an existing block is returned without allocation or panic |
| `Fs.FileSystem.BmapIndirect` | kernel/fs.c:389-402 | the same for the blocks from NDIRECT on |
| `Fs.FileSystem.Readi` | kernel/fs.c:451-477 | exactly the bytes from `off` to the end of the request or of the file; never allocates or changes anything |
| `Fs.FileSystem.WriteOne` | kernel/fs.c:497-506 | one block's part is written, logging at most its data, two bitmap and the indirect block |
| `Fs.FileSystem.WriteBlocks` | kernel/fs.c:497-506 | the loop writes a prefix, no holes arise, and the number of distinct logged blocks is bounded |
| `Fs.FileSystem.Writei` | kernel/fs.c:479-517 | refused exactly for a gap, a wrap or an oversized file; otherwise exactly the bytes are written and no other byte of any file changes; panics only past the old end on a full disk; every changed block is logged if and only if the write is not torn; what is logged are the inode's block, bitmap blocks and data blocks |
| `Fs.TornExact` | kernel/fs.c:500-503 | not every changed block is logged exactly when copying fails inside a block that existed, was not logged before the call, and gets a byte that differs |
| `Fs.PastEnd` | kernel/fs.c:378-401 | a block that writei has to allocate lies past the end of the file |
| `Fs.WrittenContents` | kernel/fs.c:486-517 | a complete write gives old contents up to `off`, then the data, then the old rest; all other files keep their contents |
| `Fs.BlockPlace` | kernel/fs.c:383-402 | which number bmap goes by: one of the inode's own, or one in its indirect block |
| `Fs.ChunkBound` | kernel/file.c:148-156 | a write of at most 3072 bytes, at any offset, logs at most 10 distinct blocks on a disk of any size |
| `FsFree.StillUsed` | kernel/fs.c:97-98 | a held block not freed yet has its bit set: "freeing free block" is unreachable |
| `FsFree.EmptiedInv` | kernel/fs.c:407-437 | an inode emptied of its blocks keeps the invariant and every other file's contents |
| `FsFree.TruncDirect` | kernel/fs.c:416-421 | frees exactly the direct blocks |
| `FsFree.TruncEntries` | kernel/fs.c:423-431 | frees exactly the blocks of the indirect entries |
| `FsFree.Itrunc` | kernel/fs.c:407-437 | frees exactly the inode's blocks, direct, indirect and indirect entries; size and addresses are zero on disk and every other inode and file is as before; every changed block is logged |
| `FsFree.Iput` | kernel/fs.c:325-358 | the last reference to an inode without links makes its type, size and addresses zero on disk and frees exactly its blocks, every other inode and file being as before, all logged; otherwise only the count changes |
| `FsFree.FreedAgain` | kernel/fs.c:192-215 | after that ialloc does not panic, and returns this inode or a free one before it |
| `FsFree.Ialloc` | kernel/fs.c:192-215 | the first free inode; panics exactly when there is none; no file's contents change; its block is logged |
| `FsFree.Filewrite` | kernel/file.c:132-181 | every chunk logs at most MAXOPBLOCKS distinct blocks; succeeds exactly when all bytes can be read and the file can hold them, and then they are in the file and the offset has moved |
| `CrashWrite.ImageChanges` | kernel/fs.h:31-39 | a disk block outside the logged ones is the same in the images of both states, inode blocks included |
| `CrashWrite.ImageTells` | kernel/fs.h:8-60 | the home blocks determine every inode and the contents of every file |
| `CrashWrite.MkfsLayout` | mkfs/mkfs.c:93-104 | mkfs puts the log before the inodes and these before the bitmap, and the log can hold an operation |
| `CrashWrite.ChunkHome` | kernel/file.c:148-156 | the blocks a chunk of filewrite logs fit the log and lie outside of it |
| `CrashWrite.OperationAtomic` | kernel/log.c:67-203 | an operation whose changed blocks are logged, cut at any block write of its commit and recovered through any crashes, leaves the disk image of the state before or of the state after, after exactly when the header was written |
| `CrashWrite.WriteChanges` | kernel/fs.c:486-517 | a write that is not torn is such an operation |
| `CrashWrite.WriteAtomic` | kernel/file.c:155-174 | after a crash at any point and recovery the disk holds a state in the file-system invariant in which the file has all of the chunk or none of it, and every other file is as it was |
| `Mkfs.FirstBitsAt` | mkfs/mkfs.c:234-248 | exactly the first `n` blocks are marked |
| `Mkfs.Image.constructor` | mkfs/mkfs.c:93-115 | an image in the invariant with no files |
| `Mkfs.Image.TakeAddr` | mkfs/mkfs.c:266-275 | the next free block in an inode's own slot |
| `Mkfs.Image.TakeEntry` | mkfs/mkfs.c:276-282 | the next free block in an indirect entry |
| `Mkfs.Image.IndirectFor` | mkfs/mkfs.c:273-282 | the block behind the indirect block, both taken if missing; no file changes |
| `Mkfs.Image.BlockFor` | mkfs/mkfs.c:265-283 | the block of a file block number, taken if missing; no file changes |
| `Mkfs.Image.AppendOne` | mkfs/mkfs.c:265-291 | one piece is written and only its own slot is filled |
| `Mkfs.Image.AppendLoop` | mkfs/mkfs.c:265-291 | all pieces are written, no holes, no blocks beyond the end |
| `Mkfs.Image.Iappend` | mkfs/mkfs.c:250-294 | the file's contents get the data at their end; every other file stays |
| `Mkfs.Image.Ialloc` | mkfs/mkfs.c:220-232 | a new empty file in the next inode |
| `Mkfs.Image.Balloc` | mkfs/mkfs.c:234-248 | the bitmap block with exactly the first `used` bits |
| `Mkfs.Image.Finish` | mkfs/mkfs.c:162-170 | the finished image is in the file system's invariant if and only if the root directory's size was not a whole number of blocks |
| `Mkfs.RootRounding` | mkfs/mkfs.c:162-167 | rounding a size to the next block leaves a hole exactly when it was whole already |
| `Failures.EntryAgrees` | mkfs/mkfs.c:120-149 | the directory entries mkfs writes are what the kernel reads |
| `Failures.RootHole` | mkfs/mkfs.c:111-170 | mkfs with 62 empty files ends in an image outside the invariant |
| `Failures.TornWrite` | kernel/fs.c:497-506 | a two-byte write of which one byte can be read changes a block that no transaction holds |
| `Failures.GrowWraps` | kernel/proc.c:267-285 | a one-page process shrinking by two pages gets success and keeps its size |
| `Paths.Strncmp` | kernel/string.c:60-68 | 0 exactly for equal C strings of at most `n` bytes |
| `Paths.Strncpy` | kernel/string.c:70-81 | the same C string, padded with NULs to `n` bytes |
| `Paths.SkipSlash` | kernel/fs.c:605-606 | a leading slash does not change the components of a path |
| `Paths.TakeElem` | kernel/fs.c:609-611 | the first component ends at the first slash |
| `Paths.Skipelem` | kernel/fs.c:585-622 | takes exactly the first nonempty slash-separated component off, cut to 14 bytes; fails exactly when there is none; the rest is empty exactly for the last one |
| `Directory.MapsOne` | kernel/fs.c:519-553 | with unique names a directory says one thing of a key |
| `Directory.FindMaps` | kernel/fs.c:527-553 | with unique names the first match is the directory's value of the key |
| `Directory.FindIn` | kernel/fs.c:527-553 | what the search finds is what the directory says |
| `Directory.LinkMaps` | kernel/fs.c:569-580 | writing an entry into a vacant place changes the value of no other key |
| `Directory.LinkUnique` | kernel/fs.c:569-580 | it keeps names unique and gives the new key its value |
| `Directory.ReadEntry` | kernel/fs.c:537-539 | the inode number and name of the entry at an offset |
| `Directory.Dirlookup` | kernel/fs.c:527-553 | the value of the name's 14-byte key, 0 exactly when absent, with the offset of its entry; nothing changes |
| `Directory.FindVacant` | kernel/fs.c:569-575 | the first unused entry, or the end of the directory |
| `Directory.Dirlink` | kernel/fs.c:555-583 | fails exactly when the key is present; otherwise the directory maps the key to the 16-bit number and every other key as before, and no other file changes; every changed block is logged, at most ten; panics only when the disk is full or the directory cannot grow |
| `Directory.WalkSplit` | kernel/fs.c:628-656 | looking up a path in two parts |
| `Directory.LookupIn` | kernel/fs.c:640-655 | one component looked up in a locked directory |
| `Directory.Namex` | kernel/fs.c:624-674 | the fold of lookups over the path's components, from the root or the current directory; with `parent`, the directory reached by all but the last component, which is left in `name` |
| `Directory.WalkKept` | kernel/fs.c:555-661 | a new link leaves every path that led somewhere leading there |
| `Directory.LinkThenFind` | kernel/fs.c:555-674 | after dirlink in the directory that nameiparent found, namei of the same path finds the new inode |
| `Directory.LinkedTree` | kernel/fs.c:555-583 | a link to an existing inode keeps all directories well formed |
| `SleepLock.StepInv` | kernel/sleeplock.c:21-41 | the invariant of the sleep lock protocol is kept by every step |
| `SleepLock.StepNoLost` | kernel/proc.c:545-590 | since sleep takes p->lock before releasing the condition lock, no wakeup passes a process about to sleep |
| `SleepLock.RunInv` | kernel/sleeplock.c:21-41 | the invariant at every point of every run |
| `SleepLock.MutualExclusion` | kernel/sleeplock.c:21-41 | in every run at most one process is between acquiresleep and releasesleep, and `pid` names it |
| `SleepLock.NoLostWakeup` | kernel/proc.c:545-590 | in every run, with the inner spinlock free and the lock not held, nobody sleeps on it |
| `SleepLock.LockedIsOwned` | kernel/sleeplock.c:22-42 | in every run the lock is held exactly while some process is between taking and releasing it |
| `ExitWait.ForkInv` | kernel/proc.c:287-336 | fork's steps keep the invariant of the process table |
| `ExitWait.ExitInv` | kernel/proc.c:338-396 | exit's and reparent's steps keep it |
| `ExitWait.ExitNoLost` | kernel/proc.c:371-391 | reparent wakes init after giving it a child, and exit wakes the parent before it becomes a zombie: a sleeping parent with a zombie child has a wakeup to come |
| `ExitWait.WaitInv` | kernel/proc.c:398-445 | wait's steps keep it |
| `ExitWait.WaitNoLost` | kernel/proc.c:404-443 | wait has seen all children under wait_lock before it sleeps |
| `ExitWait.YieldInv` | kernel/proc.c:511-520 | yield's steps and other sleeps keep it |
| `ExitWait.SchedInv` | kernel/proc.c:447-482 | the schedulers' steps keep it |
| `ExitWait.StepInv` | kernel/proc.c:287-590 | every step of every process and CPU keeps it |
| `ExitWait.RunInv` | kernel/proc.c:287-590 | it holds at every point of every run |
| `ExitWait.NoLostExit` | kernel/proc.c:338-445 | whenever wait_lock is free, no process sleeps in wait while it has a zombie child |
| `ExitWait.ParentsLive` | kernel/proc.c:338-351 | every parent pointer names a process that is neither a zombie nor unused |
| `ExitWait.ReapedOffStack` | kernel/proc.c:411-432 | wait frees only a zombie whose kernel stack no CPU is on, and its slot is then unused |
| `ExitWait.RunningIsCurrent` | kernel/proc.c:447-509 | with p->lock free, p is RUNNING exactly when a CPU has it as current, and then only one |
| `Children.RunFamily` | kernel/proc.c:287-445 | who is whose child, and what wait knows of it, is kept by every step of every run |
| `Children.ForkedChild` | kernel/proc.c:327-333 | once fork has released wait_lock, the process it makes is its child |
| `Children.HasParent` | kernel/proc.c:287-351 | every process that runs, is ready, sleeps or is a zombie has a parent, but init |
| `Children.StepMoves` | kernel/proc.c:287-445 | a parent pointer changes only by fork setting it, by the parent's exit giving the child to init, or by the parent's wait freeing the zombie |
| `Children.ChildStays` | kernel/proc.c:338-445 | in every run a child stays its parent's until the parent exits or reaps it |
| `Children.LooksAtChild` | kernel/proc.c:412-417 | wait takes the lock of a child only |
| `Children.ScanEnds` | kernel/proc.c:435-443 | at the end of its scan wait knows exactly whether there is a child: it goes on to sleep only with one, and without one it can only give up |
| `Children.ExitStatus` | kernel/proc.c:356-433 | in every run the status wait copies out of a zombie is the one that this child called exit with |
| `Children.LifeCycle` | kernel/proc.c:99-590 | in every run a process changes state only along its life cycle, gets a CPU only when RUNNABLE, leaves it only after giving up RUNNING, and is freed only off its kernel stack |
| `PipeRing.SlotOf` | kernel/pipe.c:94-124 | a 32-bit counter that wraps reaches the same slot as an unbounded one |
| `PipeRing.TestsExact` | kernel/pipe.c:88-121 | the tests for full and empty are exact however often the counters wrapped |
| `PipeRing.PutOk` | kernel/pipe.c:95 | a byte put into a ring that is not full overwrites none still to be read |
| `PipeRing.GetOk` | kernel/pipe.c:123 | the byte taken is the oldest |
| `PipeRing.Ring.constructor` | kernel/pipe.c:22-56 | an empty pipe |
| `PipeRing.Ring.Put` | kernel/pipe.c:95 | the array and counters change as the specified put, which adds the byte at the end |
| `PipeRing.Ring.Get` | kernel/pipe.c:123 | the oldest byte is removed |
| `PipeRing.Ring.Fill` | kernel/pipe.c:83-98 | bytes go in, in order, until all are in, the pipe is full or one cannot be read |
| `PipeRing.Ring.Drain` | kernel/pipe.c:120-126 | bytes come out in order until enough, empty or one cannot be stored, which is then lost |
| `Pipe.StepInv` | kernel/pipe.c:58-130 | every step of readers, writers and closers on the ring and its 32-bit counters, and every step of their sleeps and wakeups, keeps the pipe's invariant |
| `Pipe.RunInv` | kernel/pipe.c:58-130 | it holds at every point of every run |
| `Pipe.Fifo` | kernel/pipe.c:76-130 | in every run, across counter wrap, the bytes taken out of the ring are a prefix of those put in, and at most 512 are under way |
| `Pipe.WritersSleepFull` | kernel/pipe.c:83-91 | with the lock free a writer sleeps, or is about to, only on a full pipe whose read end is open |
| `Pipe.ReadersExact` | kernel/pipe.c:84-119 | with the lock free readers sleep only on an empty pipe whose write end is open, at every point of a run, if and only if no writer in it gives up after putting bytes in while a reader sleeps |
| `Pipe.KilledWriter` | kernel/pipe.c:84-87 | a run after which a reader sleeps on a pipe that is not empty |
| `PipeCalls.WriteCounts` | kernel/pipe.c:76-103 | in every run, what a pipewrite has put in and what it has left make up the number of bytes of the call |
| `PipeCalls.ReadCounts` | kernel/pipe.c:105-130 | the same for piperead |
| `PipeCalls.WroteAll` | kernel/pipe.c:83-103 | a pipewrite that ends with nothing left put in exactly as many bytes as asked |
| `PipeCalls.BytesAre` | kernel/pipe.c:92-124 | in every run the bytes that went in are those written, in order, and those that came out are a prefix of them |
| `PipeCalls.EndsClosed` | kernel/pipe.c:58-74 | in every run an end that no descriptor refers to is closed, or a pipeclose is about to close it |
| `VirtioState.ChainsApart` | kernel/virtio_disk.c:187-201 | two requests share no descriptor |
| `VirtioState.AvailRoom` | kernel/virtio_disk.c:258-265 | there is a free place in the available ring: no entry is overwritten before the device has taken it |
| `VirtioState.UsedRoom` | kernel/virtio_disk.c:302-311 | the same for the used ring and the driver |
| `VirtioState.PublishInv` | kernel/virtio_disk.c:223-265 | publishing a request keeps all older ones |
| `VirtioState.TakeInv` | kernel/virtio_disk.c:258-268 | the device finds the next published request at its own index |
| `VirtioState.CompleteInv` | kernel/virtio_disk.c:282-311 | the device may complete its requests in any order |
| `VirtioState.LookInv` | kernel/virtio_disk.c:302-311 | the handler finds exactly the next reported request, with good status, and only its buffer stops being busy |
| `VirtioState.ReleaseInv` | kernel/virtio_disk.c:276-277 | releasing a chain frees exactly its three descriptors |
| `Virtio.StepInv` | kernel/virtio_disk.c:143-315 | every step of driver, handler and device keeps the queue's invariant |
| `Virtio.RunInv` | kernel/virtio_disk.c:143-315 | it holds at every point of every run |
| `Virtio.Conservation` | kernel/virtio_disk.c:143-315 | free descriptors plus three per unreleased request equal NUM |
| `Virtio.DeviceView` | kernel/virtio_disk.c:223-257 | in every run a chain under way is three descriptors long: the header that was submitted, its buffer, which the device writes for a read and reads for a write, and the status |
| `Virtio.SubmittedAt` | kernel/virtio_disk.c:203-277 | in every run a request under way is the one that was submitted, not finished since |
| `Virtio.ClearedWhenDone` | kernel/virtio_disk.c:302-311 | b->disk is cleared only for the buffer of a request the device reported |
| `Virtio.SeenExact` | kernel/virtio_disk.c:302 | the 16-bit comparison tells exactly whether an entry is left, across wrap |
| `Virtio.Disk.AllocDesc` | kernel/virtio_disk.c:143-154 | the first free descriptor, or -1 exactly when there is none |
| `Virtio.Disk.Undo` | kernel/virtio_disk.c:194-197 | a partial allocation is undone completely |
| `Virtio.Disk.Alloc3` | kernel/virtio_disk.c:187-201 | three distinct free descriptors, or none taken and fewer than three free |
| `Virtio.Disk.Send` | kernel/virtio_disk.c:226-265 | the three descriptors, the header, the record of the buffer and the ring entry are as the request says, and nothing else changes |
| `Virtio.Disk.Rw` | kernel/virtio_disk.c:203-269 | three free descriptors come to say the request, for the sector in 32 bits, in the right direction, and the next ring entry is their head; everything else stays; or nothing changes and fewer than three are free |
| `Virtio.Disk.FreeChain` | kernel/virtio_disk.c:172-185 | frees exactly the chain; no panic of free_desc is reached |
| `Virtio.Disk.Done` | kernel/virtio_disk.c:276-277 | exactly the three descriptors are free again, the buffer's record is cleared, and nothing else changes |
| `Virtio.Disk.IntrOne` | kernel/virtio_disk.c:302-311 | one turn of the handler clears the buffer of the request at the next used entry; its panic is unreachable |
| `Virtio.Disk.Intr` | kernel/virtio_disk.c:282-315 | every reported entry is looked at exactly once, across wrap; exactly the reported buffers stop being busy |
| `HeapState.Apart` | user/umalloc.c:24-90 | two blocks share no unit |
| `HeapState.InsertInv` | user/umalloc.c:24-44 | a block put back into the list keeps order and tiling; it may touch its neighbours |
| `HeapState.MergeInv` | user/umalloc.c:33-42 | merging two touching neighbours restores "no two free blocks touch" there |
| `HeapState.TakeWholeInv` | user/umalloc.c:76-77 | giving out a block that fits exactly |
| `HeapState.TakeTailInv` | user/umalloc.c:78-82 | giving out the tail of a larger block |
| `HeapState.ExtendInv` | user/umalloc.c:46-61 | new memory from sbrk |
| `HeapState.Disjoint` | user/umalloc.c:63-90 | blocks given out do not overlap, and lie in memory obtained from sbrk |
| `HeapState.DisjointFree` | user/umalloc.c:63-90 | a block given out overlaps no free block |
| `Malloc.StopsAt` | user/umalloc.c:29-32 | the exit test of free's circular search holds exactly at the block before the one freed |
| `Malloc.AllSeen` | user/umalloc.c:86-88 | once round the list means that nothing fits and sbrk was not asked yet |
| `Malloc.Heap.constructor` | user/umalloc.c:18-23 | no memory yet |
| `Malloc.Heap.Search` | user/umalloc.c:29-32 | the circular search ends, at the block before the one freed |
| `Malloc.Heap.Free` | user/umalloc.c:24-44 | the block is free memory again, merged with its neighbours, and all other blocks stay; the list is ordered with no two blocks touching |
| `Malloc.Heap.Morecore` | user/umalloc.c:46-61 | the new memory joins the free list, and a block of at least the size asked is at or right after `freep` |
| `Malloc.Heap.Begin` | user/umalloc.c:69-73 | the first call makes the list of the base header alone |
| `Malloc.Heap.Take` | user/umalloc.c:75-84 | a block of exactly the size asked leaves the free list |
| `Malloc.Heap.Malloc` | user/umalloc.c:63-90 | a fresh block of the rounded size, or 0 exactly when nothing fits and sbrk fails; sbrk is asked at most once, exactly when nothing fits |
| `ShellSyntax.LinePrinted` | user/sh.c:345-447 | the tokens of a canonically printed command are parsed back to it |
| `ShellSyntax.LexShow` | user/sh.c:266-309 | the text of a printed command lexes to its tokens, wherever it stands, and their texts are its words |
| `ShellSyntax.RoundTrip` | user/sh.c:263-447 | for every tree with at most nine legal words per command, parsing its canonical parenthesised text gives the tree back |
| `ShellBrief.AtomRead` | user/sh.c:375-447 | words with redirections, or a bracketed command with redirections, are read back, in any context that ends them |
| `ShellBrief.BriefRead` | user/sh.c:345-447 | the same round trip with only the parentheses that precedence needs: redirection, then pipe, then `&`, then `;`; pipe and `;` group to the right |
| `ShellWords.LineFrom` | user/sh.c:345-447 | the parser uses only words of the line and never builds a command with more than nine |
| `ShellWords.LexWordsOk` | user/sh.c:266-309 | the words of a line are maximal, disjoint and never adjacent |
| `ShellWords.ParsedOk` | user/sh.c:263-447 | whatever line is accepted, the tree is legal and its words are apart |
| `ShellWords.NormalForm` | user/sh.c:263-447 | every accepted line means the same as the canonical printing of its tree |
| `ShellWords.StringsKept` | user/sh.c:449-494 | after a NUL at the end of every word of the tree, each word reads as a C string as it did in the line |
| `ShellGrammar.ParseExact` | user/sh.c:328-447 | a line is accepted, as a certain tree, if and only if the grammar derives it with that tree, with at most nine words in a simple command |
| `ShellGrammar.SimpleRead` | user/sh.c:416-447 | redirections before, between and after the words all count, in their order |
| `ShellGrammar.OnwardSound` | user/sh.c:416-447 | whatever is accepted as a simple command is such a sequence of words and redirections |
| `ShellGrammar.TenthWord` | user/sh.c:440-441 | the tenth word is refused |
| `ShellGrammar.NoFile` | user/sh.c:382-384 | a redirection sign without a word is refused |
| `ShellGrammar.LateParen` | user/sh.c:434-437 | a parenthesis that opens after a word or a redirection is refused |
| `ShellGrammar.BadParens` | user/sh.c:335-411 | so are a parenthesis not closed and one too many |
| `ShellGrammar.BlankEnd` | user/sh.c:263-307 | white space at the end of the line, such as its newline, means nothing |
| `Shell.Parser.constructor` | user/sh.c:328-334 | the line is the buffer up to its first NUL |
| `Shell.Parser.Chop` | user/sh.c:276-302 | the token that starts here, and where it ends |
| `Shell.Parser.Gettoken` | user/sh.c:266-309 | takes exactly the next token off; NUL exactly at the end |
| `Shell.Parser.Peek` | user/sh.c:311-321 | whether the next token starts with one of the symbols; no token is consumed |
| `Shell.Parser.Parseline` | user/sh.c:345-360 | agrees with the grammar, including the panic; terminates by the tokens left |
| `Shell.Parser.Parsepipe` | user/sh.c:362-373 | agrees with the grammar, including the panic |
| `Shell.Parser.Parseredirs` | user/sh.c:375-398 | agrees with the grammar, including the missing file |
| `Shell.Parser.Parseblock` | user/sh.c:400-414 | agrees with the grammar; its own panic is unreachable |
| `Shell.Parser.Parseexec` | user/sh.c:416-447 | agrees with the grammar, including the panics for syntax and too many words |
| `Shell.Nulterminate` | user/sh.c:449-494 | writes a NUL at the end of each word of the tree and changes no other byte |
| `Shell.Parsecmd` | user/sh.c:328-343 | every line is parsed by the grammar or refused with its panic, leftovers included; afterwards every word of the tree is a C string in the buffer equal to its token |

## Left out

- Log.Log.Commit: other processes only read while it runs, since no operation is outstanding, and a block changed without being logged, as a torn write leaves one, is excluded; block writes are atomic and synchronous.
- Log.Log.BeginOp: one turn of the loop; waiting in sleep and being woken are not modelled here.
- BufferCache.Cache.Bread: the case that no other process holds the lock; `Log.Log.Bread` is the interleaved one.
- BufferCache.Cache.Brelse: the client must have written or pinned a change before the last reference goes, which writei's failed copy does not do.
- Vm.Memory.Mappages: remapping and misaligned unmapping are panics in the source and preconditions here.
- CopyUser.Pageaccess: negative page counts are treated as the loop does; more than 32 pages would shift out of the mask and are excluded, as are pages that begin beyond MAXVA, where walk panics.
- Fs.FileSystem.Readi: the in-memory inode is assumed locked by the caller; struct dinode's byte layout inside its block is a sequence of records here.
- Fs.FileSystem.Writei: at most one in-memory inode differs from the disk; the inode table, its reference counts over several holders, and iget's search of it are not modelled.
- Fs.ChunkBound: that a chunk can log ten blocks is not shown by a run; it takes a disk whose last free blocks lie in four bitmap blocks.
- UserVm.Uvmcopy: after a failure the new tree may keep page-table pages, which freeing it returns.
- ProcPages.Allocproc: the search for a slot and the context are left out; the pid is a parameter.
- CrashWrite.OperationAtomic: for any operation, that the logged blocks are home blocks, at most LOGSIZE, is assumed; `CrashWrite.WriteAtomic` derives it for a chunk of filewrite.
- CrashWrite.ImageTells: that bytes stay below 256 and the 16-bit inode fields in range is assumed of both states, since the model's bytes are natural numbers.
- FsFree.Iput: one holder's view; the table lock and a concurrent iget are not modelled.
- Mkfs.Image.Iappend: the data must fit the file and the image, as mkfs assumes.
- Directory.Namex: the references that namex takes and drops are left out, so a directory deleted while it is the current directory is not freed on the way.
- Directory.LinkThenFind: for inode numbers that exist; dirlink truncates larger ones to 16 bits.
- Malloc.Heap.Malloc: sizes do not overflow 32 bits, sbrk's results rise and lie above the base header, as on this machine's process layout; what sbrk answers is a parameter.
- Pipe.StepInv: wakeup's work on one process under that process's lock is one step; kill may come at any time and its flag is not recorded.
- ExitWait.StepInv: processes other than in fork, exit, wait and yield may stop and go on at any time; kill and pids are left out, wait's copyout of the status is one step with the freeing, and fork's copying of memory and files is one step.
- Shell.Parser.Parseexec: the source fills the argument array of a node already wrapped in redirections; here the words are collected first and wrapped at the end. Allocation of nodes is not modelled.
- Update in place of page contents, blocks and ring arrays by the modelled methods is on sequences and maps held in fields; aliasing of kernel pointers beyond that is not modelled.
- Memory ordering, interrupts and the inner workings of spinlocks: steps are sequentially consistent.
- kernel/sysfile.c, kernel/syscall.c, kernel/sysproc.c, kernel/trap.c: argument fetching, dispatch and link counts.
- kernel/exec.c: loading of programs, whose memory effects are those of uvmalloc and proc_freepagetable.
- kernel/uart.c, kernel/plic.c, kernel/console.c, kernel/printf.c, kernel/start.c, kernel/main.c and assembly: hardware and output.
- The virtio handshake at start-up (kernel/virtio_disk.c:76-141) and device errors: the device is assumed to follow the queue's rules and to report good status.
- runcmd and the other user programs: process plumbing over the modelled calls.

# Verified models of xv6 and of a small compiler

This project models, in Dafny, the parts of the repository where being right is hard, and proves
what they are for: the crash-safe log and the buffer cache of xv6, its file blocks, its page
tables and page allocator, its sleep locks, process table and pipes, the user-level allocator, the
matcher of grep, the parser of the shell, and the parser and code generator of the compiler of
chapter 8.

| module | models | main results |
|---|---|---|
| `RedoLog` | log.c: header, commit and recovery, one block write at a time | a crash after any write, and any number of crashed recoveries, leave the state before or after the whole transaction |
| `LogProtocol` | log.c and bio.c: any number of operations, group commit, eviction, crashes | which sizes of the log area are safe; there, every step of every run is a step of a two-version specification; write-ahead rule; reservations |
| `BufferCache` | bio.c: the doubly linked ring of buffers | the cache stands for one map from blocks to contents; recycling takes the buffer released longest ago |
| `Blocks`, `FileBlocks`, `Files` | fs.c, file.c: bitmap, direct and indirect blocks, bytes of a file | no block is shared or leaked; a file is a flat byte sequence; every chunk of a write fits a transaction; exactly when a write runs out of blocks |
| `PageTables`, `Vm` | vm.c, kalloc.c: free list and two-level tables | every page is in one place, on success and on every failure path |
| `SleepLock` | sleeplock.c with sleep and wakeup of proc.c | mutual exclusion; no lost wakeup; no deadlock of the two spinlocks |
| `ProcTable` | proc.c: fork, exit, wait, scheduler, sched, kill | who runs where; live parents; no zombie child of a sleeping parent; safe reaping |
| `Pipe` | pipe.c | a FIFO queue across counter wrap-around and over every run; exactly when a reader's wakeup is lost, and when the killed sleep |
| `Umalloc` | umalloc.c | one ordered, coalesced ring; units conserved; the free list depends on the live blocks only |
| `Grep` | grep.c | the matcher decides the language of its patterns |
| `Shell`, `Text` | sh.c: parsing and NUL-termination | round trip from trees to text and back, with the fewest parentheses; every word reads back in place |
| `Pratt`, `Text` | chapter-08 parser.zig | round trip in any spacing, for expressions and programs; no text for a tree has fewer parentheses than the one given |
| `Codegen` | chapter-08 main.zig | generated code computes the sum exactly for the trees that sums without parentheses parse to |

Concurrent code is a step system: a state, the steps that are enabled in it, and what each does;
the theorems are about every state of every run, for any number of processes, CPUs and blocks.
Code that updates a structure in place is a class whose methods carry contracts, with ghost fields
that say what the structure stands for. Loops of the source are loops. Where a source function is
one long body, its loop body or its tail is a method of its own, named in the table.

Panics are outcomes where the source can reach them (a full disk, no buffers, a page mapped twice,
malformed command lines), and are proved unreachable where the design says so (freeing a free block, freeing a page
outside the allocator, sched without the lock or with a process still running).

Where the code does less than its documentation or its use suggests, the code is kept and the
exact condition is proved:

- log_write tests the length of the list before it takes the lock and appends after, so two
  operations can both pass the test where there is room for one. In a log area of 2 to LOGSIZE
  blocks counting the header, such as the one mkfs makes, the list then outgrows the area,
  write_log writes past its end, and a crash before any commit leaves a home block that no commit
  wrote (`LogProtocol.TwoTestsOverrun`). The refinement, durability and write-ahead theorems are
  about the other areas, and durability holds in every state of every run exactly there
  (`LogProtocol.DurableIff`); step by step, everything but such an append is right
  (`LogProtocol.StepGood`).
- That area also counts the header among LOGSIZE blocks while begin_op admits LOGSIZE data blocks,
  so operations within their budgets can reach the panic of log_write
  (`LogProtocol.MkfsLogIsOneShort`); no run has an operation with budget left at the panic, or
  outgrows the area, if and only if the area is larger than LOGSIZE
  (`LogProtocol.BudgetsSafeIff`).
- The panic test of log_write also runs before absorption, so writing a listed block again can
  panic (`LogProtocol.AbsorbedWriteCanPanic`). In every run, in an area of any size, log_write
  panics exactly when the list has LOGSIZE entries or the area has no block left; in an area that
  is large enough that is exactly at LOGSIZE entries, and then every running operation has used
  its whole budget (`LogProtocol.LogWritePanicsIff`).
- A killed writer that fills a pipe returns without waking a sleeping reader
  (`Pipe.KilledWriterLosesWakeup`); a step loses a reader's wakeup exactly in that case
  (`Pipe.ReadersKeptIff`).
- A process killed between its test of `killed` and its sleep on a pipe sleeps on
  (`Pipe.KilledReaderSleeps`); a sleeping process has been killed if and only if the kill fell
  there (`Pipe.KilledSleepsIff`).
- The size arithmetic of malloc is right exactly up to 0x7ffffff0 bytes
  (`Umalloc.SizesRightIff`).
- The code generator overwrites x1 while it computes a right operand that is itself a sum
  (`Codegen.LeftForgotten`), so the text 1+(2+3) leaves 7 in x0 (`Codegen.ParenthesesGoWrong`).
  What any sum leaves there is `Codegen.ComputesLeft`; a sum is compiled right for every choice
  of the literals in its text exactly when every right operand is a literal
  (`Codegen.CompiledRightIff`).

## Model

| member | source | states |
|---|---|---|
| RedoLog.HeaderRoundTrip | projects/xv6/log.c:86-113 | a header written over any header block reads back as the list of block numbers that was written |
| RedoLog.LogDataStep | projects/xv6/log.c:178-190 | while the log is empty, writing any log data block changes what the disk stands for in no way |
| RedoLog.CommitStep | projects/xv6/log.c:102-113 | the header write alone turns a disk that stands for the old contents into one that stands for the new |
| RedoLog.InstallStep | projects/xv6/log.c:70-82 | installing any committed block keeps what the disk stands for |
| RedoLog.ClearStep | projects/xv6/log.c:192-202 | clearing the header after every block is installed keeps what the disk stands for, now in the home blocks |
| RedoLog.RecoverPrefix | projects/xv6/log.c:116-122 | recovery cut short after any number of writes keeps what the disk stands for |
| RedoLog.RecoverReaches | projects/xv6/log.c:116-122 | a finished recovery leaves the log empty and the meaning in the home blocks, and doing it again changes nothing |
| RedoLog.CrashedRecoveriesKeepMeaning | projects/xv6/log.c:116-122 | any number of recoveries, each cut short anywhere, keep what the disk stands for |
| RedoLog.CommitMeaning | projects/xv6/log.c:192-202 | after any prefix of the writes of a commit the disk stands for the old contents up to the header write and for the new contents from it on |
| RedoLog.CrashAtomicity | projects/xv6/log.c:69-122 | a crash after any write of a commit, any crashed recoveries, and one finished recovery leave every home block old or every home block new, decided only by whether the header write happened |
| RedoLog.EmptyLogIsHome | projects/xv6/log.c:69-122 | with an empty log, the home blocks are what the disk stands for |
| RedoLog.Log.Bread | projects/xv6/bio.c:97-106 | a block read through the cache is the cached one, or the one on disk, which is then cached |
| RedoLog.Log.Bwrite | projects/xv6/bio.c:110-116 | a block write is one disk write, and cache and disk agree on the block |
| RedoLog.Log.WriteLog | projects/xv6/log.c:178-190 | writes exactly the pinned contents of the listed blocks, in order, to the log area and leaves the header alone |
| RedoLog.Log.LogOne | projects/xv6/log.c:183-188 | one turn of that loop writes one log block |
| RedoLog.Log.ReadBoth | projects/xv6/log.c:184-185 | the two reads of that turn find the pinned contents |
| RedoLog.Log.WriteHead | projects/xv6/log.c:102-113 | is one disk write, of a header that holds the in-memory list |
| RedoLog.Log.ReadHead | projects/xv6/log.c:86-96 | the in-memory list becomes the list in the header on disk |
| RedoLog.Log.InstallTrans | projects/xv6/log.c:70-82 | writes the logged contents to the listed home blocks, in order, and leaves the header alone |
| RedoLog.Log.InstallOne | projects/xv6/log.c:75-80 | one turn of that loop writes one home block and makes its buffer clean |
| RedoLog.Log.Commit | projects/xv6/log.c:192-202 | performs exactly the writes of the commit specification, so every crash in it is covered; ends with an empty log, a clean cache and the new contents at home |
| RedoLog.Log.LogTransaction | projects/xv6/log.c:195-197 | the part of commit up to the commit point |
| RedoLog.Log.InstallAndClear | projects/xv6/log.c:198-200 | the part of commit after it |
| RedoLog.Log.RecoverFromLog | projects/xv6/log.c:116-122 | performs exactly the writes of the recovery specification and leaves a clean cache |
| LogProtocol.StepGood | projects/xv6/log.c:126-233 | an enabled step of the whole system keeps the invariant and is a step of the two-version specification, if and only if it is not an append without room in the log area |
| LogProtocol.BeginOpGood | projects/xv6/log.c:126-141 | admitting an operation when its budget fits keeps the invariant |
| LogProtocol.LogTestGood | projects/xv6/log.c:218-221 | the test of log_write, which is made without the lock, changes nothing that readers see |
| LogProtocol.LogWriteGood | projects/xv6/log.c:223-232 | the locked part of log_write lists the block once, pins its buffer and keeps the invariant, if and only if the block is listed or the area has room; having passed the test does not say so |
| LogProtocol.EndOpGood | projects/xv6/log.c:146-174 | ending an operation keeps the invariant, and starts a commit only when it was the last |
| LogProtocol.EvictGood | projects/xv6/bio.c:81-91 | recycling an unreferenced clean buffer loses no contents |
| LogProtocol.CommitPointGood | projects/xv6/log.c:192-202 | the header write makes the current contents durable |
| LogProtocol.CrashGood | projects/xv6/log.c:116-122 | a crash in any state falls back to the durable contents |
| LogProtocol.RunInv | projects/xv6/log.c:126-233 | in an area without data blocks or with LOGSIZE of them, the invariant holds in every state of every run |
| LogProtocol.RunRefines | projects/xv6/log.c:126-233 | in such an area, along every run, with any number of processes, evictions and crashes, a commit makes current contents durable, a crash falls back to them, and no other step but a change of data changes either |
| LogProtocol.RunDurable | projects/xv6/log.c:69-122 | in such an area, stopping any run anywhere and recovering, with any number of cut-short recoveries, gives the home blocks of the last commit point |
| LogProtocol.RunBase | projects/xv6/log.c:126-233 | in an area of any size, in every state of every run: the reservation, an exclusive commit, a header that names home blocks, and whoever has passed the test of log_write can append |
| LogProtocol.CommitIsQuiescent | projects/xv6/log.c:146-174 | a commit point is reached only with no operation running, and then what readers see is what is durable |
| LogProtocol.DirtyAreListed | projects/xv6/log.c:214-233 | in a safe area, outside installation the dirty buffers are exactly the listed blocks, and none of them can be recycled |
| LogProtocol.PinnedUntilCommit | projects/xv6/bio.c:81-116 | in a safe area, from its log_write to the header write of its transaction a block stays listed and dirty, and no home block changes on disk |
| LogProtocol.ReservationHolds | projects/xv6/log.c:126-174 | what is logged plus all unspent budgets never exceeds LOGSIZE, and a commit excludes running operations, so end_op's panic is unreachable |
| LogProtocol.LogWritePanicsIff | projects/xv6/log.c:214-221 | in every run, log_write of any running operation panics exactly when the list has LOGSIZE entries or the area has no block left; with budget left only the latter can be; at LOGSIZE entries every running operation has used its whole budget |
| LogProtocol.MkfsLogIsOneShort | projects/xv6/mkfs.c:25 | in a log area of at most LOGSIZE blocks, as mkfs makes it, a run within all budgets reaches that panic |
| LogProtocol.BudgetsSafeIff | projects/xv6/log.c:126-145 | the area is larger than LOGSIZE if and only if no run has an operation with budget left at that panic and none outgrows the area |
| LogProtocol.TwoTestsOverrun | projects/xv6/log.c:178-233 | in an area of 2 to LOGSIZE blocks a run without a commit in which two operations test before either appends, the list outgrows the area, write_log writes a home block, and recovery after a crash does not give the durable contents |
| LogProtocol.DurableIff | projects/xv6/log.c:69-233 | recovery gives the durable contents from every state of every run if and only if the area has no data blocks or LOGSIZE of them, which is exactly when no run outgrows it |
| LogProtocol.AbsorbedWriteCanPanic | projects/xv6/log.c:218-230 | a run in which the panic meets an operation that writes a listed block again, however large the area |
| BufferCache.Cache.constructor | projects/xv6/bio.c:39-56 | the list is a ring of all buffers, none valid, none referenced |
| BufferCache.Cache.Push | projects/xv6/bio.c:134-137 | the four pointer writes put a buffer first on the ring |
| BufferCache.Cache.Unlink | projects/xv6/bio.c:132-133 | the two pointer writes take a buffer off the ring |
| BufferCache.UnlinkOk | projects/xv6/bio.c:132-133 | unlinking any node of a well-linked ring leaves the ring without it well linked |
| BufferCache.PushOk | projects/xv6/bio.c:134-137 | linking a node in after the head leaves the ring with it in front well linked |
| BufferCache.Cache.Find | projects/xv6/bio.c:69-76 | the forward search finds the buffer of a block, or shows there is none |
| BufferCache.Cache.Oldest | projects/xv6/bio.c:81-91 | the backward search finds, of the unreferenced clean buffers, the one whose last release was longest ago, or shows there is none |
| BufferCache.Cache.Bget | projects/xv6/bio.c:62-93 | finds the buffer or recycles that oldest one; fails only when neither exists; no block changes contents; no block of a real device gets two buffers |
| BufferCache.Cache.Bread | projects/xv6/bio.c:97-106 | the process that gets the buffer's lock finds in it the latest contents of its block, and no block changes contents |
| BufferCache.Cache.Modify | projects/xv6/bio.c:108-116 | the holder's change is from then on the contents of that block, and of no other |
| BufferCache.Cache.MarkDirty | projects/xv6/log.c:231 | pinning a buffer changes no contents |
| BufferCache.Cache.Bwrite | projects/xv6/bio.c:110-116 | the disk gets the buffer's data, the buffer is clean, and no block changes contents |
| BufferCache.Cache.Unlock | projects/xv6/bio.c:121-126 | a buffer that is dirty or like the disk may be released; every unlocked valid clean buffer equals the disk |
| BufferCache.Cache.Unref | projects/xv6/bio.c:128-141 | the last reference moves the buffer to the front of the ring, which stays ordered by time of last release |
| BufferCache.RecycleValue | projects/xv6/bio.c:81-91 | giving a clean unlocked buffer to another block changes the contents of no block |
| BufferCache.MoveOrdered | projects/xv6/bio.c:130-138 | moving a node to the front with a new stamp keeps the order by stamps and loses no node |
| Blocks.WordPut | projects/xv6/fs.c:389-394 | a word stored in a block reads back, and every other word is as it was |
| Blocks.BitWith | projects/xv6/fs.c:66-68 | setting or clearing a bit of a byte changes that bit only |
| Blocks.InUseMark | projects/xv6/fs.c:57-95 | marking a block's bit in its bitmap block changes the mark of that block only |
| FileBlocks.NoSharing | projects/xv6/fs.c:362-400 | no block is in two slots of the inodes, a block in a slot is a data block in use, and a data block in use is in some slot |
| FileBlocks.AllocLoose | projects/xv6/fs.c:57-78 | taking a block whose bit is clear takes a data block that no slot names |
| FileBlocks.FreeLoose | projects/xv6/fs.c:82-95 | clearing the bit of a block that no slot names keeps bitmap and slots in step |
| FileBlocks.PlaceAddr | projects/xv6/fs.c:378-388 | storing a fresh block in an empty address keeps ownership, the file's other blocks and all other inodes |
| FileBlocks.PlaceWord | projects/xv6/fs.c:389-394 | storing a fresh block in an empty word of the indirect block does the same |
| FileBlocks.OthersContents | projects/xv6/fs.c:362-400 | a change to one inode's blocks leaves every other inode and its contents as they were |
| FileBlocks.WriteByte | projects/xv6/fs.c:498-504 | writing into one block of a file changes exactly the bytes written |
| FileBlocks.DropIndexOwned | projects/xv6/fs.c:421-431 | taking the indirect block out of an inode makes it and exactly what it names free to be freed |
| FileBlocks.Reclaimed | projects/xv6/fs.c:408-435 | when an inode ends with no block, every block it had is free |
| Files.FileSystem.Balloc | projects/xv6/fs.c:57-78 | takes and zeroes the lowest numbered free block, or shows the disk is full; logs its bitmap block and itself |
| Files.FileSystem.Take | projects/xv6/fs.c:66-73 | marks and zeroes the block found |
| Files.FileSystem.Bfree | projects/xv6/fs.c:82-95 | clears the bit of a block in use, and panics exactly when it is clear |
| Files.FileSystem.Bmap | projects/xv6/fs.c:373-400 | gives the address of a block of the file, allocating it and the indirect block where missing, and no other block; keeps all other files and what had an address; changes only blocks that it logs, and bounds them; panics exactly out of range, or when fewer blocks are free than the none, one or two that are missing |
| Files.FileSystem.BmapIndirect | projects/xv6/fs.c:383-397 | the indirect half of that |
| Files.FileSystem.FillAddr | projects/xv6/fs.c:379-388 | allocates the block of an empty address |
| Files.FileSystem.FillWord | projects/xv6/fs.c:391-394 | allocates the block of an empty word |
| Files.FileSystem.Itrunc | projects/xv6/fs.c:408-435 | frees exactly the inode's blocks, each once and none that is free; the file is empty; every other file is as it was; logs exactly the bitmap blocks of its blocks and the inode's block, which fit a transaction on a disk of at most nine bitmap blocks |
| Files.FileSystem.DropAddrs | projects/xv6/fs.c:414-419 | frees the direct blocks in order |
| Files.FileSystem.DropRest | projects/xv6/fs.c:421-431 | then the indirect block and what it names |
| Files.FileSystem.DropAddr | projects/xv6/fs.c:415-418 | frees one direct block |
| Files.FileSystem.DropIndex | projects/xv6/fs.c:421-431 | frees the indirect block and what it names |
| Files.FileSystem.FreeWords | projects/xv6/fs.c:424-427 | frees each block named by the indirect block once |
| Files.FileSystem.SetEmpty | projects/xv6/fs.c:433-434 | records the emptied inode on disk |
| Files.TruncFits | projects/xv6/fs.c:408-435 | on a disk of at most nine bitmap blocks a truncation logs at most MAXOPBLOCKS blocks |
| Files.FileSystem.Iupdate | projects/xv6/fs.c:221-234 | the inode on disk becomes the inode in memory |
| Files.FileSystem.Readi | projects/xv6/fs.c:453-476 | returns exactly the bytes of the file from the offset, clipped to its size, changing nothing; fails exactly beyond the end or when the sum wraps |
| Files.FileSystem.ReadBlock | projects/xv6/fs.c:470-473 | one turn of that loop |
| Files.FileSystem.Writei | projects/xv6/fs.c:482-511 | replaces exactly the bytes written, growing the file if need be; other files are as they were; the inode on disk agrees with memory; fails exactly for a hole, a wrapped sum or too large a file; panics exactly when fewer blocks are free than the range lacks, the indirect block counted once, and else takes exactly those |
| Files.FileSystem.WriteBytes | projects/xv6/fs.c:498-504 | the loop of that |
| Files.FileSystem.WriteSome | projects/xv6/fs.c:498-504 | one turn of the loop, with what it has logged so far |
| Files.FileSystem.WriteBlock | projects/xv6/fs.c:499-503 | writes the bytes that fall in one block |
| Files.FileSystem.PutBytes | projects/xv6/fs.c:501-502 | into the block found or allocated for them |
| Files.FileSystem.Finish | projects/xv6/fs.c:506-509 | records the new size |
| Files.SpliceReads | projects/xv6/fs.c:453-511 | what a write puts in a file is what a read of that range returns, and the rest of the file is as it was |
| Files.ChunkFits | projects/xv6/file.c:127-133 | for every offset, a chunk of a write logs at most MAXOPBLOCKS blocks |
| Files.ChargeStep | projects/xv6/file.c:127-133 | the account of what a write has logged: data, bitmap and indirect blocks |
| Files.SpentStep | projects/xv6/fs.c:498-504 | the account of the free blocks that a write has taken, block by block |
| Files.FileSystem.FileWrite | projects/xv6/file.c:133-153 | each transaction that ends logs at most MAXOPBLOCKS distinct blocks, there is one for every three blocks' worth of bytes begun, and every block changed is in one of them; the file holds what was written so far; fails only for a hole or too large a file, and then writes less than all |
| Files.FileSystem.WriteNext | projects/xv6/file.c:135-151 | one turn of that loop, with what is written and accounted for so far |
| Files.FileSystem.WriteChunk | projects/xv6/file.c:136-151 | one transaction of it, recorded with the blocks it logged, which are all it changed |
| PageTables.OnePlace | projects/xv6/vm.c:36-80 | no page is at two places of the free list, the directories and the user halves of the tables, and no directory is at any of them |
| PageTables.PopInv | projects/xv6/kalloc.c:83-95 | taking the head of the free list keeps every page in one place |
| PageTables.PushInv | projects/xv6/kalloc.c:60-77 | so does putting a page back |
| PageTables.HangInv | projects/xv6/vm.c:45-52 | so does hanging a new page table in a directory |
| PageTables.MapInv | projects/xv6/vm.c:69-73 | so does mapping a page below KERNBASE |
| PageTables.UnmapInv | projects/xv6/vm.c:269-276 | so does unmapping one |
| PageTables.KeptLookup | projects/xv6/vm.c:222-298 | an operation on one address space leaves the translations and pages of every other as they were |
| PageTables.GoneRestores | projects/xv6/vm.c:119-136 | taking apart a new address space gives back exactly the pages taken for it |
| Vm.Memory.Kalloc | projects/xv6/kalloc.c:83-95 | gives the page at the head of the free list, or 0 exactly when there is none |
| Vm.Memory.Kfree | projects/xv6/kalloc.c:60-77 | puts a page at the head of the free list, and panics exactly for a page outside the allocator |
| Vm.Memory.FreeOne | projects/xv6/kalloc.c:60-77 | a page that nothing points to goes on the free list, and no other page changes |
| Vm.Memory.FreeRange | projects/xv6/kalloc.c:47-53 | exactly the pages that lie whole in the range become free |
| Vm.Memory.Walkpgdir | projects/xv6/vm.c:36-55 | finds the page table of an address, or makes an empty one; no translation changes; without memory nothing changes |
| Vm.Memory.Hang | projects/xv6/vm.c:48-52 | empties a page and hangs it in the directory |
| Vm.Memory.MapPage | projects/xv6/vm.c:69-73 | maps one page and changes no other translation; panics exactly when something is mapped there |
| Vm.Memory.SetPte | projects/xv6/vm.c:71-73 | fills one entry |
| Vm.Memory.Mappages | projects/xv6/vm.c:61-80 | maps exactly the pages that hold the addresses, to consecutive pages; panics exactly at the first of them that is mapped already; on failure or panic a prefix is mapped; nothing else changes but new page tables |
| Vm.Memory.MapNext | projects/xv6/vm.c:68-78 | one turn of that loop |
| Vm.KernelViewIs | projects/xv6/vm.c:105-115 | the rows of the kernel's table map all of physical memory at KERNBASE, its text read-only, and the devices at their own addresses |
| Vm.KmapApart | projects/xv6/vm.c:105-115 | the rows do not overlap, so mapping them never finds a page mapped |
| Vm.Memory.Setupkvm | projects/xv6/vm.c:119-136 | a new address space has exactly the kernel's part; on failure every page is free again and no page in use has changed |
| Vm.Memory.MapRow | projects/xv6/vm.c:129-134 | maps one row |
| Vm.Memory.Allocuvm | projects/xv6/vm.c:222-249 | adds zeroed pages exactly up to the new size; panics only, and never succeeds, where a page of the range is mapped already; on failure every added page is given back and, where none was mapped before, every translation and page in use is as it was |
| Vm.Memory.GrowTo | projects/xv6/vm.c:232-248 | the loop of that |
| Vm.Memory.GrowOne | projects/xv6/vm.c:233-247 | one turn of it, with both failure paths |
| Vm.Memory.AddPage | projects/xv6/vm.c:233-247 | allocates, fills and maps one page, with both failures and the panic |
| Vm.Memory.Shrink | projects/xv6/vm.c:235-246 | the way out on failure |
| Vm.Ungrown | projects/xv6/vm.c:235-246 | after a failed growth only page tables are left over |
| Vm.Memory.Deallocuvm | projects/xv6/vm.c:256-279 | frees exactly the pages mapped between the two sizes, though it skips whole absent tables; other translations and pages are as they were |
| Vm.FreesAbsent | projects/xv6/vm.c:266-268 | skipping an absent table skips no page |
| Vm.Memory.FreeEntry | projects/xv6/vm.c:266-276 | frees the page that one entry maps |
| Vm.Memory.Release | projects/xv6/vm.c:270-275 | gives back a page and clears its entry; kfree does not panic |
| Vm.Memory.Freevm | projects/xv6/vm.c:284-298 | every page of the address space is free, every free page still is, and no other page in use has changed |
| Vm.Memory.TakeApart | projects/xv6/vm.c:291-296 | frees each page table once |
| Vm.Memory.Copyuvm | projects/xv6/vm.c:316-345 | the copy maps a distinct page with equal bytes and permissions for each page; the original is unchanged; when memory runs out every page is free again; panics only, and never succeeds, where a page below the size is not mapped |
| Vm.Memory.CopyAll | projects/xv6/vm.c:325-339 | the loop of that |
| Vm.Memory.CopyPage | projects/xv6/vm.c:326-338 | copies one page, and panics exactly when it is not mapped |
| Vm.Memory.CopyTo | projects/xv6/vm.c:332-338 | gives the new address space that copy, or gives the page back |
| SleepLock.StepInv | projects/xv6/sleeplock.c:23-53 | every step of every process keeps the invariant of lock holders, sleepers and wakers |
| SleepLock.RunInv | projects/xv6/sleeplock.c:23-53 | it holds in every state of every run |
| SleepLock.MutualExclusion | projects/xv6/sleeplock.c:23-42 | in every run at most one process has the sleep lock, and then `locked` is set |
| SleepLock.NoLostWakeup | projects/xv6/proc.c:418-474 | in every run, while the lock is free, a process that is asleep on it or bound to sleep will still be reached by the wakeup scan of the process that freed it |
| SleepLock.FreeMeansAwake | projects/xv6/proc.c:418-474 | when neither lock is held, nobody sleeps on the sleep lock |
| SleepLock.HoldingIsRight | projects/xv6/sleeplock.c:45-53 | holdingsleep answers exactly whether the caller has the lock |
| SleepLock.SchedHoldsOneLock | projects/xv6/proc.c:366-376 | sleep enters sched with the process table lock and without the other spinlock |
| SleepLock.NoDeadlock | projects/xv6/proc.c:418-474 | while any process has something to do, some step can be taken |
| ProcTable.StepInv | projects/xv6/proc.c:74-497 | every step of a scheduler, a process, a fork without the lock, or an interrupt keeps the invariant |
| ProcTable.RunInv | projects/xv6/proc.c:74-497 | it holds in every state of every run |
| ProcTable.RunningIsCurrent | projects/xv6/proc.c:323-382 | whenever the lock is free, a process is RUNNING exactly when it is the current process of a CPU, and then of only one |
| ProcTable.ParentsLive | projects/xv6/proc.c:228-268 | no parent pointer ever names a slot that is unused or a zombie |
| ProcTable.WaitMissesNoChild | projects/xv6/proc.c:252-312 | no process asleep in wait has a zombie child |
| ProcTable.ReapIsSafe | projects/xv6/proc.c:287-300 | wait frees a kernel stack that is there, once every CPU has left the process |
| ProcTable.SchedIsSafe | projects/xv6/proc.c:265-382 | sched is entered with the lock held and by a process no longer RUNNING, and a scheduler never resumes a zombie, so the panic after sched in exit is unreachable |
| ProcTable.EmbryoHasOneForker | projects/xv6/proc.c:74-222 | a slot being built without the lock belongs to exactly one fork under way |
| Pipe.Pipe.WriteSome | projects/xv6/pipe.c:84-97 | a segment of a write stores the next bytes in order until all are stored or 512 are in flight, and how many that is; gives up exactly when full with no reader or a killed writer |
| Pipe.Pipe.Store | projects/xv6/pipe.c:93 | a byte stored goes to the end of the queue, also when the counter wraps |
| Pipe.Pipe.ReadSome | projects/xv6/pipe.c:106-120 | a segment of a read takes the oldest bytes in order; a read of a positive length returns nothing only when the pipe is empty with no writer left |
| Pipe.Pipe.Fetch | projects/xv6/pipe.c:116 | a byte taken is the oldest one |
| Pipe.Pipe.Close | projects/xv6/pipe.c:60-75 | closes one end and frees the pipe when both are closed |
| Pipe.FullIs | projects/xv6/pipe.c:85 | the test for a full pipe is right on counters that have wrapped |
| Pipe.ReadersKeptIff | projects/xv6/pipe.c:84-97 | a step leaves a reader waiting without reason exactly when a write fills the pipe and its writer gives up while a reader sleeps |
| Pipe.WritersKept | projects/xv6/pipe.c:60-121 | every step keeps the queue, the reasons of waiting writers and that one process at most is bound to sleep, and only appends to what is stored and taken |
| Pipe.NoLostWakeup | projects/xv6/pipe.c:60-121 | in every run the bytes taken are a prefix of the bytes stored and at most 512 are in flight; no wakeup of a writer is lost, and none of a reader up to the first such write |
| Pipe.EnabledSteps | projects/xv6/pipe.c:60-121 | every run goes on with any enabled step |
| Pipe.KilledWriterLosesWakeup | projects/xv6/pipe.c:85-89 | such a run exists: a reader sleeps, the writer is killed, writes 513 bytes and gives up; the reader sleeps on with 512 bytes to read |
| Pipe.KilledSleepsIff | projects/xv6/pipe.c:84-112 | in every run a process that sleeps tested and then went to sleep with nothing but kills in between, and it has been killed if and only if one of them was its own |
| Pipe.BoundSince | projects/xv6/pipe.c:84-112 | the same of a process that is bound to sleep |
| Pipe.KilledReaderSleeps | projects/xv6/proc.c:418-497 | such a run exists: a reader tests, is killed, and sleeps |
| Umalloc.StopsIff | projects/xv6/umalloc.c:30-32 | the loop of free stops at exactly one place of the ring: the freed block's own |
| Umalloc.FreeApart | projects/xv6/umalloc.c:33-42 | inserting a block that touches no free block keeps ring, partition and order |
| Umalloc.FreeJoinsNext | projects/xv6/umalloc.c:33-35 | so does merging it with the next free block |
| Umalloc.FreeJoinsPrevious | projects/xv6/umalloc.c:38-40 | so does merging it into the one before |
| Umalloc.TakeWhole | projects/xv6/umalloc.c:76-77 | so does taking a whole block |
| Umalloc.TakeTail | projects/xv6/umalloc.c:78-82 | so does taking the end of one |
| Umalloc.FreeUnitsAreRing | projects/xv6/umalloc.c:25-90 | the units that are owned and not live are exactly those of the ring |
| Umalloc.FreeListUnique | projects/xv6/umalloc.c:25-90 | two heaps with the same units and the same live blocks have the same free list, whatever calls led to them |
| Umalloc.SizesRightIff | projects/xv6/umalloc.c:52-69 | the size arithmetic gives a block large enough and asks sbrk for as much exactly up to 0x7ffffff0 bytes |
| Umalloc.Allocator.Find | projects/xv6/umalloc.c:30-32 | terminates at the position of the freed block |
| Umalloc.Allocator.Free | projects/xv6/umalloc.c:25-44 | the block is free, merged with both neighbours; no other block changes; units are conserved |
| Umalloc.Allocator.JoinNext | projects/xv6/umalloc.c:33-37 | the first half of that |
| Umalloc.Allocator.JoinPrevious | projects/xv6/umalloc.c:38-43 | the second half |
| Umalloc.Allocator.MoreCore | projects/xv6/umalloc.c:47-61 | the units of the new region are added and free; without memory nothing changes |
| Umalloc.Allocator.Malloc | projects/xv6/umalloc.c:64-90 | gives a new live block of the right size, apart from all others, and null exactly when nothing fits and sbrk fails; asks sbrk at most once; terminates |
| Umalloc.Allocator.FirstCall | projects/xv6/umalloc.c:70-73 | makes the empty ring |
| Umalloc.Allocator.Take | projects/xv6/umalloc.c:75-84 | takes the block found or the end of it |
| Umalloc.Allocator.Grow | projects/xv6/umalloc.c:86-88 | goes on from the new memory, which fits |
| Grep.Match | projects/xv6/grep.c:73-82 | true exactly when some stretch of the text is in the language of the pattern, from its start for ^ and to its end for $ |
| Grep.MatchHere | projects/xv6/grep.c:85-96 | true exactly when some stretch that begins here is |
| Grep.MatchStar | projects/xv6/grep.c:99-106 | true exactly when one is after a run of the starred character |
| Grep.HereOne | projects/xv6/grep.c:93-94 | how the language unfolds at a single character |
| Grep.HereStar | projects/xv6/grep.c:89-90 | how it unfolds at a starred one |
| Grep.HereEnd | projects/xv6/grep.c:91-92 | what a final $ means |
| Shell.Parser.GetToken | projects/xv6/sh.c:266-308 | the token that the specification gives, and where to go on |
| Shell.Parser.Peek | projects/xv6/sh.c:311-320 | whether the next character is among those given, past white space |
| Shell.Parser.Parse | projects/xv6/sh.c:328-342 | the command of the line, or the panic, that the grammar gives; terminates on every line |
| Shell.Parser.DoLine | projects/xv6/sh.c:345-359 | lists and background commands |
| Shell.Parser.DoAnds | projects/xv6/sh.c:350-353 | the ampersands after a command |
| Shell.Parser.DoPipe | projects/xv6/sh.c:362-372 | pipelines |
| Shell.Parser.DoRedirs | projects/xv6/sh.c:375-397 | redirections in order |
| Shell.Parser.DoBlock | projects/xv6/sh.c:400-413 | commands in parentheses |
| Shell.Parser.DoExec | projects/xv6/sh.c:416-446 | simple commands |
| Shell.Parser.DoArgs | projects/xv6/sh.c:429-445 | their words, fewer than MAXARGS, with redirections between them |
| Shell.LineOk | projects/xv6/sh.c:266-446 | every word of a parsed command is a maximal run of word characters of the line |
| Shell.EndIsBreak | projects/xv6/sh.c:450-493 | the end of a word never lies inside a word |
| Shell.Nulterminate | projects/xv6/sh.c:450-493 | writes a NUL at the end of every word and nowhere else |
| Shell.WordsReadBack | projects/xv6/sh.c:450-493 | afterwards the string at each word's start is that word |
| Shell.ParseInPlace | projects/xv6/sh.c:328-342 | parsing and terminating in place gives the command of the line with every word readable |
| Shell.LinePrint | projects/xv6/sh.c:345-413 | the text of a tree, in its place in a line, parses to the tree and nothing more |
| Shell.RoundTrip | projects/xv6/sh.c:328-446 | for every tree with legal words and fewer than MAXARGS words to a command, parsing its text gives the tree back |
| Shell.PrintOpens | projects/xv6/sh.c:345-413 | that text has exactly the parentheses that the places of its commands need |
| Shell.ParseLineOpens | projects/xv6/sh.c:345-413 | whatever parses to a tree has at least those |
| Shell.FewestParens | projects/xv6/sh.c:328-446 | no line that parses to a tree has fewer parentheses than that text |
| Pratt.Lexer.Next | chapter-08/src/parser.zig:102-247 | the next token of the text, nonempty, past which the lexer moves |
| Pratt.Lexer.Peek | chapter-08/src/parser.zig:95-100 | the same token without moving |
| Pratt.Scan | chapter-08/src/parser.zig:107-235 | a token begins where it should and is not empty |
| Pratt.Lex | chapter-08/src/parser.zig:102-247 | tokens lie within the text at or after the position |
| Pratt.Parser.ParseExpression | chapter-08/src/parser.zig:368-378 | the expression, or the error, that the grammar gives, and where it ends; terminates on every text |
| Pratt.Parser.ParsePrefix | chapter-08/src/parser.zig:380-402 | operands and parentheses |
| Pratt.Parser.ParseInfix | chapter-08/src/parser.zig:404-433 | an operator and its right operand |
| Pratt.Parser.ParseStatement | chapter-08/src/parser.zig:335-362 | a var statement |
| Pratt.Parser.ParseBody | chapter-08/src/parser.zig:320-333 | all statements up to the end of the text |
| Pratt.ParseLexemes | chapter-08/src/parser.zig:284-378 | the tokens of an expression, in their place in any text, parse to the expression and the parser leaves off where they end |
| Pratt.RoundTrip | chapter-08/src/parser.zig:368-472 | for every expression over names, numbers and the four operators, any text whose tokens are those of the expression parses to the same left-associative tree, whatever stands between the tokens |
| Pratt.ProgramRoundTrip | chapter-08/src/parser.zig:320-362 | so for every program of var statements |
| Pratt.SpellLexes | chapter-08/src/parser.zig:102-247 | a text made of tokens, with a gap of its own in front of each and none running into the next, has those tokens |
| Pratt.SpellRoundTrip | chapter-08/src/parser.zig:102-472 | from an expression to any such text and back |
| Pratt.SpellProgram | chapter-08/src/parser.zig:102-362 | from a program to any such text and back |
| Pratt.ExpressionOpens | chapter-08/src/parser.zig:368-433 | whatever parses to an expression has at least as many parentheses as the tokens given for it |
| Pratt.FewestParens | chapter-08/src/parser.zig:368-433 | no text that parses to an expression has fewer parentheses than one with those tokens |
| Codegen.Assembler.AsmExpression | chapter-08/src/main.zig:29-41 | appends the text of the code of the expression; operators other than + get none |
| Codegen.Assembler.AsmAdd | chapter-08/src/main.zig:17-27 | appends the text of the code of a sum |
| Codegen.Assembler.AsmNumber | chapter-08/src/main.zig:6-15 | appends the text of the code of a literal |
| Codegen.Assembler.AsmStatements | chapter-08/src/main.zig:43-67 | appends the code of the statements in order |
| Codegen.Assembler.Assemble | chapter-08/src/main.zig:52-74 | the text of the whole program |
| Codegen.LeftLeaningComputes | chapter-08/src/main.zig:6-41 | the code of a left-leaning sum leaves the sum modulo 2^64 in x0, whatever the registers held |
| Codegen.LeftForgotten | chapter-08/src/main.zig:17-27 | with a sum on the right, the result does not depend on the left operand |
| Codegen.CompiledRightIff | chapter-08/src/main.zig:17-41 | a sum that program text can hold is compiled right for every choice of literals that text can hold exactly when every right operand is a literal |
| Codegen.ComputesLeft | chapter-08/src/main.zig:6-41 | what the code of any sum leaves in x0 and x1, from any register state: operands left of a sum count for nothing, and what that sum kept in x1 counts twice |
| Codegen.ParenthesesGoWrong | chapter-08/src/main.zig:17-27 | text with the tokens of 1+(2+3), in any spacing, parses to a sum of 6 whose code leaves 7 in x0 |
| Codegen.NestedText | chapter-08/src/parser.zig:102-247 | 1+(2+3) is such a text |
| Codegen.SumParses | chapter-08/src/parser.zig:368-433 | a sum of literals without parentheses, in any spacing, parses to the left-leaning tree |
| Codegen.ProgramComputes | chapter-08/src/main.zig:52-74 | parsing any text of a program of such sums and running its code leaves the last sum modulo 2^64 in x0, from any register state |

## Left out

- Umalloc.Allocator.Malloc: requests above 0x7ffffff0 bytes are excluded, because there the size arithmetic wraps, as `Umalloc.SizesRightIff` states.
- Vm.Memory.Allocuvm: when memory runs out and a page of the range was mapped before, the way out frees that page too, and the contract says only that every page is still in one place.
- Vm.Memory.Deallocuvm: the old size may not exceed KERNBASE, as no process size does; beyond it the source would free pages of the kernel.
- Vm.Memory.Copyuvm: nor may the size to be copied.
- Vm.Memory.CopyAll: nor here.
- Files.FileSystem.Writei: the contents of inodes of devices are their drivers' business; the call of the driver is an outcome of its own.
- Files.FileSystem.FileWrite: that the panic happens exactly when blocks run out is stated for each transaction, in `Files.FileSystem.Writei`, and not summed over them.
- Files: an operation runs alone; the inode lock and the log make it so for one inode, but allocations of operations running at the same time are not interleaved.
- BufferCache.Cache.Bwrite: buffers of device 0, the boot disk, are excluded, because every buffer starts out naming its block 0; the file system is on device 1.
- BufferCache.Cache.Bread: waiting for a buffer's sleep lock is a precondition; the lock itself is `SleepLock`.
- Shell.Parser.DoArgs: redirections met between words are collected and wrapped around the finished command, where the source wraps the same command object before it is filled; the resulting tree is the same.
- Pratt.Parser.ParseExpression: trees are values, so the stability of pointers into the growing node list is not modelled.
- Codegen.Assembler.AsmExpression: identifiers in an expression are undefined behaviour in the source and excluded; the range of an immediate operand of mov is not modelled.
- ProcTable.RunInv: kill names a slot, not a pid, and pids are not modelled; nor are open files, the current directory and page tables of a process.
- ProcTable.SchedIsSafe: the two other checks of sched, on the nesting of interrupt disabling and on interrupts being off, are not modelled.
- SleepLock.RunInv: one sleep lock is followed; other users of the process table lock are one environment that may take it and wake any process.
- Bit-level packing of page table entries, the TLB, and the bytes of directory and table pages.
- The on-disk encoding of inodes; iupdate stores the inode as a value, in the block that the source computes.
- Directories, path names, inode allocation and reference counts, link counts.
- Spinlocks inside: acquire and release are single steps; interrupts are steps that wake.
- The disk driver: a block read or write is one step.
- growproc, exec, traps, system call glue, device drivers, boot code.
- The line buffering of grep, and running parsed commands in the shell.
- Other chapters of the compiler book; mkfs beyond the size of its log; tests and tools.

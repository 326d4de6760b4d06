# OS/161: a verified model of the kernel's hard parts

A Dafny model of five parts of the kernel, with proofs of the properties that make them work:

* **SFS**, the on-disk filesystem: block map with holes and an indirect block, unaligned I/O, truncation, the root
  directory, link and reference counts, the inode cache, sync, unmount and mount;
* **threads**: run queues, context switch, wait channels and migration between CPUs, with the semaphores, locks and
  condition variables built on them, and the thread list underneath;
* **the kernel heap**: the subpage allocator of `kmalloc.c`, with its free lists threaded through memory;
* **processes**: the pid table, the fork / `_exit` / `waitpid` protocol, and the argument vector on a new stack;
* **cats and mice**, the synchronization problem, against the checker that comes with it.

`dafny verify dfyconfig.toml` checks the whole project.

## How the model is built

**SFS.** A mounted volume is an object (`SfsState.Sfs`) with a disk, a free map, a vnode table and dirty flags, updated
in place by methods that follow the C functions. Beside it stand two specification values: the snapshot `fs` (disk,
free-map bits, loaded inodes) and the owner map `own`, which says for every allocated block what it is for: an
inode, an inode's indirect block, or one numbered data block of one inode. `VolInv` ties the two together: a bit is set
exactly for reserved and owned blocks, and each inode's pointers are exactly the blocks it owns. `FsInv` adds the
directory: unique names, and link counts equal to the number of slots naming a file. `Sound` is both for a mounted
volume. What `mksfs` writes is sound once mounted, and every operation takes a sound volume to a sound volume, on all
its error paths too, so the statements about `VolInv` and `FsInv` hold after any sequence of operations. A file as its
users see it is `View` (type, links, size and 143 blocks, holes as zeros) or `Content` (73216 bytes). Block numbers and
sizes are 32-bit as in the source: `Pos`, `NewSize`, `BlockLen` and `NewLen` say what a 64-bit offset or length becomes.

**Threads, synchronization, processes, cats and mice.** These are protocols. Each is a state machine with one step per
region under a spinlock, for any number of CPUs, threads, processes or creatures. For processes the regions are those
under the global lock and the parts of `sys_fork` that run without it, which may fall between finding the parent and
signalling it in `sys__exit`. An invariant is proved for every step, and the theorems are about every state of every
run. Where a thread is, is decided by the list it is on, not by `t_state`. Threads, semaphores and locks have a second
machine as their users see them, without queues, spinlocks and counters, and a proof that every step of the first is
one of it or none (`Scheduler.RefinesScheduler`, `Semaphores.RefinesAtomic`, `Monitors.RefinesMonitor`). The migration
code appears twice: region by region in the machine, with the other CPUs interfering, and as the loops it consists of
(`Migration.Queues`), on its own.

**Heap.** `Kmalloc.Allocator` holds the pageref table, the in-use words, the list heads and the memory in which the
free lists live. Each method is one region between acquisitions of the spinlock, or a whole call made of such regions.
`alloc_kpages` is a parameter: any aligned pages that are not out already, or none. `HeapRun` is the heap under any
number of threads: a machine whose steps are the very relations the region methods establish, the calls of
`alloc_kpages` and `free_kpages` between them, and stores into allocated memory.

Nine promises that one would expect of the source do not hold. The model keeps the code as it is, proves exactly when
the promise is kept, and shows the failure:

* Truncation to a length inside the range of the indirect block leaves one block too many (`SfsTruncate.SurvivorsExact`,
  `SfsTruncate.OneBlockTooMany`; on a newly formatted volume, `SfsCapacity.OneBlockTooManyShown`).
* Truncation does not clear the tail of the last kept block, and a later write makes it readable (`SfsFile.TailIsZero`,
  `SfsFile.TailStays`, `SfsFile.OldByteReturns`; on a newly formatted volume, `SfsCapacity.TailStaysShown`).
* A write past the end of a file that fails before it moves a byte still changes the size (`SfsFile.NothingWrote`,
  `SfsFile.WritePastLimit`).
* The size keeps the low 32 bits of the end of a write, so a write at 4 gigabytes or more can shrink a file
  (`SfsFile.SizeIsMax`, `SfsFile.HugeWriteShrinks`); from offset 2^41 on, the block number wraps around and the bytes land
  at the start of the file (`SfsFile.WriteLands`).
* Truncation to a length that does not fit in 32 bits sets a size that has nothing to do with the blocks kept
  (`SfsTruncate.SizeFollows`, `SfsFile.HugeTruncateKeeps`).
* A zombie's parent slot can become empty: a failing fork frees a pid that, after reuse, another process took for its
  parent's (`Processes.ZombiesHaveParents`, `ProcessOrphan.OrphanedZombie`).
* For the same reason the parent that `sys__exit` found can be destroyed before `sys__exit` signals it
  (`Processes.ParentStays`, `Processes.ParentCanGo`, `ProcessOrphan.LostParent`).
* An exit code of more than 30 bits does not come back from its status (`Processes.StatusRoundTrip`).
* Cats and mice can all be asleep for good: a broadcast misses a creature that has decided to sleep and is not asleep yet
  (`CatMouseWaits.StuckIsAllAsleep`, `CatMouseWaits.SleeperHasCompany`, `CatMouseStuck.EverybodySleeps`).

## Model

| member | source | states |
|---|---|---|
| Bitmaps.Bitmap.constructor | kern/lib/bitmap.c:57-90 | all bits clear, and the spare bits of the last word marked in use |
| Bitmaps.Bitmap.Alloc | kern/lib/bitmap.c:99-121 | sets the lowest clear bit and no other; fails exactly when every bit is set |
| Bitmaps.Bitmap.Mark | kern/lib/bitmap.c:135-145 | a clear bit becomes set and no other bit of the map changes |
| Bitmaps.Bitmap.Unmark | kern/lib/bitmap.c:148-158 | a set bit becomes clear and no other bit of the map changes |
| Bitmaps.Bitmap.IsSet | kern/lib/bitmap.c:162-169 | the word and mask arithmetic reads the bit asked for |
| Uios.Uio.constructor | kern/lib/uio.c:153-165 | one kernel buffer, all of it still to be transferred |
| Uios.Uio.Move | kern/lib/uio.c:42-120 | over any list of buffers, moves the first min(n, residue) bytes of the region in order, accounts for each in offset and residue, and leaves the rest of the region alone |
| Uios.Uio.MoveZeros | kern/lib/uio.c:123-146 | delivers exactly min(n, residue) zero bytes, chunk by chunk |
| SfsLayout.DecodeEncode | kern/include/kern/sfs.h:80-87 | an inode written to its block and read back is the same inode |
| SfsLayout.PointersPut | kern/fs/sfs/sfs_vnode.c:254-281 | the pointers of an indirect block written and read back are the same |
| SfsOnDisk.InodeBytes | kern/include/kern/sfs.h:80-87 | which bytes of an inode block hold the size, type, link count, each direct pointer and the indirect pointer |
| SfsOnDisk.PointerBytes | kern/include/kern/sfs.h:80-87 | block k of a file is at direct pointer k, or at word k - 15 of the indirect block, or a hole |
| SfsOnDisk.EntryBytes | kern/include/kern/sfs.h:92-95 | which bytes of a directory entry hold the inode number and the name, with zeros to its end |
| SfsOnDisk.SlotBytes | kern/include/kern/sfs.h:92-95 | slot s of a directory is its 64 bytes from 64 s on |
| SfsOnDisk.SuperBytes | kern/include/kern/sfs.h:70-75 | a superblock is accepted exactly for the magic number in bytes 0-3 and the number of blocks in bytes 4-7 |
| SfsOnDisk.MapBytes | kern/include/kern/sfs.h:45-60 | the bit of block b is bit b mod 8, from the low end, of byte b / 8 from block 2 on |
| SfsState.WriteBlock | kern/fs/sfs/sfs_io.c:99-107 | one block changes; the saved free map and the superblock stay what they were |
| SfsState.Balloc | kern/fs/sfs/sfs_vnode.c:91-107 | hands out the lowest free block, cleared; fails exactly when no block is free |
| SfsState.Bfree | kern/fs/sfs/sfs_vnode.c:114-118 | a block in use becomes free, and the map is marked dirty |
| SfsSteps.StepKeepsInv | kern/fs/sfs/sfs_vnode.c:146-290 | a step on one inode's blocks that keeps the map and that inode right keeps the whole volume right, and no other file can tell |
| SfsSteps.AddDirectStep | kern/fs/sfs/sfs_vnode.c:169-187 | giving a hole among the direct blocks a cleared block keeps the invariant and is invisible to every file |
| SfsSteps.AddIndirectStep | kern/fs/sfs/sfs_vnode.c:232-252 | giving an inode a cleared indirect block keeps the invariant and is invisible to every file |
| SfsSteps.AddSlotStep | kern/fs/sfs/sfs_vnode.c:263-281 | the same for a block entered in the indirect block |
| SfsBmap.Bmap | kern/fs/sfs/sfs_vnode.c:146-290 | returns the block's pointer, allocating only when asked; EFBIG exactly past the last block, ENOSPC exactly when the volume has fewer free blocks than the hole needs, also half-way; no file changes in any case |
| SfsContent.FlatInjective | kern/fs/sfs/sfs_vnode.c:448-542 | the flat contents determine every block |
| SfsIo.PartialIo | kern/fs/sfs/sfs_vnode.c:308-376 | a transfer inside one block: read delivers that slice, write overlays exactly that slice, failure moves nothing |
| SfsIo.RwBlock | kern/fs/sfs/sfs_io.c:47-87 | one whole sector moves between the device and the caller's buffers |
| SfsIo.BlockIo | kern/fs/sfs/sfs_vnode.c:383-441 | a whole-block transfer at the device, with the caller's offset and residue restored and advanced by one block |
| SfsIo.WholeBlocks | kern/fs/sfs/sfs_vnode.c:504-514 | the loop over whole blocks transfers all of them in order, or stops at a block boundary |
| SfsIo.Io | kern/fs/sfs/sfs_vnode.c:448-542 | refines a flat byte array at any alignment and any offset: a write overlays exactly the bytes that moved and sets the size from their end, a read returns what lies below the size with holes as zeros; every byte is accounted for and no other file changes; nothing moves exactly when the request is empty or its first block is past the limit or a hole without room |
| SfsFile.Write | kern/fs/sfs/sfs_vnode.c:986-998 | the same for a regular file of a sound volume: it stays sound and the directory is untouched |
| SfsFile.ReadAfterWrite | kern/fs/sfs/sfs_vnode.c:448-542 | reading a range back after writing it returns the bytes written |
| SfsFile.ReadElsewhere | kern/fs/sfs/sfs_vnode.c:448-542 | reading a range a write did not touch returns what it returned before |
| SfsFile.NothingWrote | kern/fs/sfs/sfs_vnode.c:528-535 | a write that moved nothing leaves the contents alone, and the size alone if and only if it started at or below the old end or 32 bits make it start there |
| SfsFile.WritePastLimit | kern/fs/sfs/sfs_vnode.c:528-535 | the other case: a write at or past the largest size, below 4 gigabytes, moves nothing and yet makes the file that long |
| SfsFile.SizeIsMax | kern/fs/sfs/sfs_vnode.c:528-535 | after a write the size is the larger of the old one and its end if and only if it started below 2^32 |
| SfsFile.HugeWriteShrinks | kern/fs/sfs/sfs_vnode.c:528-535 | the other case: a write at 2^32 or above, below 2^41, moves nothing and sets the size to the low 32 bits of its offset |
| SfsFile.WriteLands | kern/fs/sfs/sfs_vnode.c:308-441 | bytes that moved are found where the write was aimed if and only if that was below 2^41, and otherwise at the offset modulo 2^41 |
| SfsFile.RunRefinesFlat | kern/fs/sfs/sfs_vnode.c:144-1473 | however writes, truncations, creations, links, removals, renames, loads, reclaims, syncs and remounts interleave, each file is the flat file its own writes and truncations make, for as long as it exists |
| SfsFile.RunReads | kern/fs/sfs/sfs_vnode.c:144-1473 | a read after any such run returns the flat file's bytes from the offset up to what was asked for, the size or the last byte a file can have, whichever comes first; EFBIG exactly when that last byte comes first |
| SfsFile.BlocksAccountedFor | kern/fs/sfs/sfs_vnode.c:89-290 | a bit is set if and only if its block is an inode, indirect or data block of a file reached from a directory slot or the vnode table, and no block is so twice: no leak, no double use, none used while free |
| SfsFile.LiveIsReachable | kern/fs/sfs/sfs_vnode.c:889-960 | the inodes that own blocks are exactly the root, the loaded ones and those with a name |
| SfsCapacity.FileBlocks | kern/include/kern/sfs.h:80-87 | no file takes more than 145 blocks |
| SfsCapacity.FreeAtLeast | kern/fs/sfs/sfs_vnode.c:89-118 | capacity: a volume has at least as many free blocks as are left without the reserved ones and 145 for each file |
| SfsTruncate.PruneLoop | kern/fs/sfs/sfs_vnode.c:1186-1199 | frees each dropped block of the indirect block once, reports whether any pointer is left and whether any was dropped |
| SfsTruncate.Truncate | kern/fs/sfs/sfs_vnode.c:1128-1225 | for any signed length: drops exactly the blocks past the kept ones, keeps the contents of the others, frees the indirect block exactly when it holds no pointer and is looked at, sets the size, and touches no other file |
| SfsTruncate.SurvivorsExact | kern/fs/sfs/sfs_vnode.c:1158-1199 | of a truncated file exactly the blocks below the new length in blocks survive if and only if it ends outside the indirect range or the next block was a hole |
| SfsTruncate.OneBlockTooMany | kern/fs/sfs/sfs_vnode.c:1186-1199 | the other case: the block right after the new end keeps its pointer and contents and stays with the file |
| SfsCapacity.OneBlockTooManyShown | kern/fs/sfs/sfs_vnode.c:1186-1199 | an instance from an empty disk: format, mount, create, write block 20, truncate to 20 blocks, and block 20 is still there |
| SfsTruncate.SizeFollows | kern/fs/sfs/sfs_vnode.c:1142-1143 | the number of blocks kept is that of the new size if and only if the length modulo 2^41 is below 2^32, and not negative but for one byte past a block boundary |
| SfsFile.HugeTruncateKeeps | kern/fs/sfs/sfs_vnode.c:1142-1221 | the other case: a truncation to 2^32 or more drops nothing, and sets the size to the low 32 bits of the length |
| SfsTruncate.TruncateToZero | kern/fs/sfs/sfs_vnode.c:1128-1225 | after truncation to 0 the inode owns no block but its own |
| SfsFile.TruncateFile | kern/fs/sfs/sfs_vnode.c:1128-1225 | truncation of a regular file keeps the volume sound and the directory untouched |
| SfsFile.TruncatedContent | kern/fs/sfs/sfs_vnode.c:1128-1225 | on the flat contents truncation keeps or zeroes whole blocks |
| SfsFile.TailIsZero | kern/fs/sfs/sfs_vnode.c:1142-1165 | truncation leaves only zeros past the new size, whatever the file held, if and only if the length is, up to multiples of 2^41, a whole number of blocks below the indirect range, or sets at least the largest size |
| SfsFile.TailStays | kern/fs/sfs/sfs_vnode.c:1142-1165 | after any other truncation the byte at the new size is the one that was there before |
| SfsFile.CleanTail | kern/fs/sfs/sfs_vnode.c:1142-1165 | after a truncation to such a length every byte of the file past the new size is zero |
| SfsFile.OldByteReturns | kern/fs/sfs/sfs_vnode.c:1142-1165 | truncate to any other length, write further on, read at the old end: the old byte comes back where a hole should be |
| SfsCapacity.TailStaysShown | kern/fs/sfs/sfs_vnode.c:1142-1165 | an instance from an empty disk: a file of ones truncated to one byte still holds its second byte |
| SfsCapacity.WithBlock | kern/fs/sfs/sfs_vnode.c:448-542 | on a newly formatted volume of 1000 blocks, creating a file and writing any one of its 143 blocks succeeds and the block is there |
| SfsDirSpec.DecodeEncodeSlot | kern/include/kern/sfs.h:92-95 | a directory entry written to its 64 bytes and read back, C string included, is the same entry |
| SfsDirSpec.DirSlotsWrite | kern/fs/sfs/sfs_vnode.c:588-615 | writing the bytes of one slot, or of the next one, changes exactly that slot of the directory |
| SfsDirSpec.LinksBounded | kern/fs/sfs/sfs_vnode.c:645-783 | link counts never exceed the 1144 slots a directory can have plus the root's own, so they fit in 16 bits |
| SfsDirSpec.NamesPlace | kern/fs/sfs/sfs_vnode.c:697-734 | entering an absent name in a free slot or at the end adds exactly that name to the directory and keeps names unique |
| SfsDirSpec.NamesErase | kern/fs/sfs/sfs_vnode.c:741-751 | clearing a slot removes exactly its name |
| SfsDir.NEntries | kern/fs/sfs/sfs_vnode.c:624-637 | the size of the directory is a whole number of slots, and this is it |
| SfsDir.ReadDir | kern/fs/sfs/sfs_vnode.c:554-580 | reading an existing slot neither fails nor comes up short, and returns the slot |
| SfsDir.WriteDir | kern/fs/sfs/sfs_vnode.c:588-615 | rewrites one slot or none; cannot fail on a slot in use; EFBIG exactly beyond the last possible slot, ENOSPC exactly when the slot is in a hole the volume has no room for |
| SfsDir.FindName | kern/fs/sfs/sfs_vnode.c:647-689 | finds a name exactly when a slot holds it, a second match is impossible, and a free slot is reported if there is one |
| SfsDir.DirLink | kern/fs/sfs/sfs_vnode.c:697-734 | enters the name, or changes no slot; each error exactly when the directory and the free blocks before the call call for it |
| SfsDir.DirUnlink | kern/fs/sfs/sfs_vnode.c:741-751 | clears the slot, and cannot fail |
| SfsDirSteps.DirAddName | kern/fs/sfs/sfs_vnode.c:1336-1345 | a name entered together with the count of links raised keeps every link count equal to the number of slots naming the file |
| SfsDirSteps.DirDropName | kern/fs/sfs/sfs_vnode.c:1372-1379 | the same for a name cleared and the count lowered |
| SfsVnode.IncRef | kern/vfs/vnode.c:82-91 | one more reference, nothing else changes |
| SfsVnode.FindVnode | kern/fs/sfs/sfs_vnode.c:1660-1684 | the search of the vnode table finds an inode exactly when it is loaded, and the check that each loaded inode is in an allocated block holds |
| SfsVnode.LoadVnode | kern/fs/sfs/sfs_vnode.c:1651-1757 | one vnode per inode: a loaded one gains a reference, another is read from its block; none of the panics and assertions can fire |
| SfsVnode.GetVnode | kern/fs/sfs/sfs_vnode.c:1651-1757 | loading any existing file of a sound volume succeeds and no file looks different |
| SfsVnode.SyncInode | kern/fs/sfs/sfs_vnode.c:69-80 | afterwards the disk block holds the in-memory inode, and no file looks different |
| SfsVnode.Reclaim | kern/fs/sfs/sfs_vnode.c:889-960 | with the last reference the inode leaves memory; without links the file and all its blocks are freed, otherwise it keeps its inode and contents on disk; EBUSY only drops a reference |
| SfsVnode.DecRef | kern/vfs/vnode.c:99-121 | the same from the caller's side: a removed file lives until the last reference goes |
| SfsFile.ReclaimThenLoad | kern/fs/sfs/sfs_vnode.c:889-960 | an inode that left memory with its last reference is the same when it is loaded again |
| SfsVnode.MakeObj | kern/fs/sfs/sfs_vnode.c:794-814 | a new regular file of size 0 with no blocks, no links, no name and one reference, all others as before; fails only on a full volume, changing nothing |
| SfsNames.LookOnce | kern/fs/sfs/sfs_vnode.c:759-783 | ENOENT exactly for a name not in the directory; otherwise loads the file of that name, whose link count is never zero |
| SfsNames.LinkCounted | kern/fs/sfs/sfs_vnode.c:1336-1345 | directory and link count change together or not at all; when each error occurs |
| SfsNames.UnlinkCounted | kern/fs/sfs/sfs_vnode.c:1372-1379 | the name goes and the count, which was positive, drops by one; cannot fail |
| SfsNames.Link | kern/fs/sfs/sfs_vnode.c:1326-1349 | the directory gains exactly that name or stays the same; no file changes its data; each error exactly when the state before the call calls for it |
| SfsNames.Remove | kern/fs/sfs/sfs_vnode.c:1356-1386 | the directory loses exactly that name; the file goes exactly when this was its last link and nobody has it loaded; all other files keep their data |
| SfsNames.Rename | kern/fs/sfs/sfs_vnode.c:1396-1473 | the directory has the new name in place of the old, or is unchanged; no file goes or changes its data; each error exactly when the state before the call calls for it |
| SfsNames.Creat | kern/fs/sfs/sfs_vnode.c:1253-1317 | opens the named file or makes a new one of size 0 with no blocks and one link under that name; a failure leaves no file, no name and no inode block behind; each error exactly when the state before the call calls for it, also when several apply |
| SfsFile.NewFileReadsEmpty | kern/fs/sfs/sfs_vnode.c:1253-1317 | any read of a file just made delivers nothing and succeeds, and every byte it may get to have is zero |
| SfsFile.NamedIsNames | kern/fs/sfs/sfs_vnode.c:645-689 | with unique names, the slots naming an inode are as many as its names |
| SfsFile.LinkCountExact | kern/fs/sfs/sfs_vnode.c:645-783 | in every sound volume a file has exactly as many links as names, and the root its own besides |
| SfsMake.AllocBit | user/sbin/mksfs/mksfs.c:107-114 | a clear bit becomes set and no other bit of the buffer changes |
| SfsMake.MarkBits | user/sbin/mksfs/mksfs.c:118-138 | exactly the superblock, the root inode, the map's own blocks and the bits past the last block are marked, none of them twice |
| SfsMake.Format | user/sbin/mksfs/mksfs.c:69-144 | refused exactly for a name or disk too large; otherwise the disk holds the volume name, a root directory with one link, and an empty volume that satisfies the whole invariant |
| SfsMake.FormatAndMount | kern/fs/sfs/sfs_fs.c:255-366 | a new volume mounts as a sound one with no names and nothing in use but the root inode: the start of every run |
| SfsFs.MapWrite | kern/fs/sfs/sfs_fs.c:70-102 | the free map on disk becomes the one in memory, for every volume size, and no file changes |
| SfsFs.MapRead | kern/fs/sfs/sfs_fs.c:70-102 | the free map in memory becomes exactly the one on disk |
| SfsFs.Sync | kern/fs/sfs/sfs_fs.c:111-180 | afterwards every loaded inode and the free map agree with the disk, and no file looks different |
| SfsFs.SavedDisk | kern/fs/sfs/sfs_fs.c:111-180 | durability: what is read back from a saved disk alone is the same volume, with the same owners, inodes, sizes and contents |
| SfsFs.Unmount | kern/fs/sfs/sfs_fs.c:208-237 | refused exactly while an inode is loaded; otherwise the disk alone is the volume |
| SfsFs.Mount | kern/fs/sfs/sfs_fs.c:255-366 | ENXIO exactly for a wrong sector size, EINVAL exactly for a wrong magic number, otherwise the volume on the device, as long as its superblock says, with nothing loaded |
| SfsFs.Remount | kern/fs/sfs/sfs_fs.c:111-366 | sync, unmount and mount give back a sound volume with nothing loaded and the same free map, names, inodes, sizes, links and contents |
| ThreadList.List.Splice | kern/thread/threadlist.c:107-140 | pointer surgery between two neighbours inserts the node at that place of the list |
| ThreadList.List.Unlink | kern/thread/threadlist.c:147-157 | pointer surgery takes exactly that node out of the list |
| ThreadList.List.AddHead | kern/thread/threadlist.c:163-170 | the node becomes the first; a node with null links cannot be on the list already |
| ThreadList.List.AddTail | kern/thread/threadlist.c:173-180 | the node becomes the last |
| ThreadList.List.RemHead | kern/thread/threadlist.c:183-198 | takes the first node; null exactly for the empty list |
| ThreadList.List.RemTail | kern/thread/threadlist.c:201-216 | takes the last node; null exactly for the empty list |
| ThreadList.List.Remove | kern/thread/threadlist.c:235-240 | takes out the node, wherever it is |
| ThreadList.List.InsertAfter | kern/thread/threadlist.c:219-224 | the node comes right after the one named |
| ThreadList.List.InsertBefore | kern/thread/threadlist.c:227-232 | the node comes right before the one named |
| Threads.InitInv | kern/thread/thread.c:347-407 | the booted state satisfies the scheduling invariant |
| ThreadProofs.StepKeeps | kern/thread/thread.c:436-1091 | every region of fork, switch, exit, idle, wakeup, exorcise and migration, by any CPU, keeps the scheduling invariant |
| ThreadProofs.RunInv | kern/thread/thread.c:436-1091 | the invariant holds in every state of every run |
| ThreadProofs.NeverTwice | kern/thread/thread.c:548-719 | no thread is ever current on two CPUs, and a current thread's t_cpu is its CPU |
| ThreadProofs.ResumedIsSaved | kern/thread/thread.c:548-719 | a CPU resumes only a thread whose context has been saved, or the very thread it never left |
| ThreadProofs.ExorciseIsSafe | kern/thread/thread.c:273-282 | a thread that is freed is current on no CPU |
| ThreadProofs.ThreadsConserved | kern/thread/thread.c:436-1091 | threads come into being by fork alone and go by exorcise alone |
| ThreadProofs.OnePlace | kern/thread/thread.c:436-1091 | a thread is either executing on a CPU or on exactly one list, never lost and never twice |
| ThreadProofs.StepFrame | kern/thread/thread.c:856-958 | a thread changes CPU only when its own CPU's migration sends it, and never while it is current anywhere |
| ThreadProofs.RemovalsSucceed | kern/thread/thread.c:883-941 | whatever the other CPUs do, the removals inside migration never find an empty list |
| ThreadProofs.NoLostWakeup | kern/thread/thread.c:436-465 | an idle CPU with a thread to run has an interrupt on the way |
| Scheduler.RefinesScheduler | kern/thread/thread.c:436-1091 | every step of every run is one of a scheduler that knows only running, ready, sleeping on w and dead: sleep(w), yield, exit, dispatch, fork, wakeup and exorcise move exactly the thread they say, and nothing else moves any |
| Scheduler.AtOnePlace | kern/thread/thread.c:436-1091 | each thread is at exactly one such place |
| Scheduler.ChannelIsFifo | kern/thread/thread.c:596-610 | a wait channel holds exactly the threads that went to sleep on it and were not woken, in the order in which they did |
| Scheduler.SleeperStays | kern/thread/thread.c:596-610 | a thread that sleeps joins the tail of its channel and stays until a wakeup finds it at the head |
| Scheduler.LongestSleeperWakes | kern/thread/thread.c:1033-1091 | a wakeup makes the thread ready that has slept longest, and leaves all others where they are |
| Scheduler.TransitEnds | kern/thread/thread.c:436-465 | a woken or new thread is on its way until it is put at the tail of the run queue of its own t_cpu |
| Scheduler.ReadThenEnqueue | kern/thread/thread.c:436-465 | once its t_cpu has been read, only the lock of that run queue can keep it waiting |
| Scheduler.SwitchReleases | kern/thread/thread.c:548-660 | a CPU that holds its run queue lock can run a thread or go idle, and lets go of the lock with that step and no other |
| Scheduler.UnidleLooks | kern/thread/thread.c:629-645 | an idle CPU goes back to looking for a thread when it is interrupted |
| Scheduler.RunQueueInOrder | kern/thread/thread.c:436-660 | a run queue is served in order: in at the tail, the CPU runs the one at the head, migration takes from the tail |
| Scheduler.ForkedOnOwnCpu | kern/thread/thread.c:476-540 | a new thread starts on the CPU of the thread that forked it |
| MigrationRun.DecidesByShare | kern/thread/thread.c:856-881 | whatever other CPUs do, migration decides by the queue lengths it counted: below the rounded-up share of their sum nothing, else exactly the surplus is to be sent |
| MigrationRun.AllSent | kern/thread/thread.c:881-941 | when nothing is left to send, every thread taken has gone to another CPU, but for the current one |
| MigrationRun.OthersWereFull | kern/thread/thread.c:890-941 | when it gives up with some left, it has seen a full share on every other queue |
| MigrationRun.MigrationEnds | kern/thread/thread.c:856-958 | each step of a migration brings it closer to its end, and no step of another CPU delays it |
| Migration.Queues.Count | kern/thread/thread.c:865-874 | the counting loop gives the length of the own queue and the total over all |
| Migration.Queues.Take | kern/thread/thread.c:881-888 | the victims are the last threads of the own queue, in order |
| Migration.Queues.Spread | kern/thread/thread.c:890-941 | every victim but curthread finds a queue with room |
| Migration.Queues.PutBack | kern/thread/thread.c:948-954 | what is left returns to the own queue |
| Migration.Queues.ConsiderMigration | kern/thread/thread.c:856-958 | with less than the total divided by the number of CPUs nothing happens; else the queue keeps exactly its first share of threads, rounded up, and curthread if it was to go, no other queue is pushed above one share, and every thread is on exactly one queue, that of its t_cpu |
| Threads.ShareIs | kern/thread/thread.c:876-876 | a share is the total divided by the number of CPUs, rounded up: enough for all and one less is not |
| Semaphores.StepKeeps | kern/thread/synch.c:91-144 | every step of P and V keeps the semaphore's invariant |
| Semaphores.RunInv | kern/thread/synch.c:91-144 | the invariant holds in every state of every run |
| Semaphores.NoLostWakeup | kern/thread/synch.c:91-144 | with sleepers queued the count never exceeds the woken threads plus a V in progress, so a free semaphore with sleepers has a woken thread about to take it |
| Semaphores.CountIs | kern/thread/synch.c:91-144 | the count is the first one plus the V's of the run so far minus the P's that got through |
| Semaphores.RefinesAtomic | kern/thread/synch.c:91-144 | every step of every run is one of an atomic semaphore: P ends only by taking one from a positive count, V gives one, and nothing else inside can be told |
| Semaphores.WokenInOrder | kern/thread/synch.c:91-144 | sleepers are woken in the order in which they went to sleep, one by each V that finds any |
| Semaphores.WokenWasAsleep | kern/thread/synch.c:91-144 | the woken threads counted on are those that a V took off the channel and that have not got through since |
| Locks.StepKeeps | kern/thread/synch.c:202-376 | every step of acquire, release, wait, signal and broadcast keeps the invariant |
| Locks.MutualExclusion | kern/thread/synch.c:202-253 | at most one thread is between acquire and release, and lk_holder names it |
| Locks.FreeLockIsTaken | kern/thread/synch.c:202-253 | a free lock with sleepers has a woken contender or a release about to wake one |
| Locks.WaitersAreVisible | kern/thread/synch.c:314-376 | at a signal or broadcast no thread is between taking the channel and sleeping on it; the wakeup reaches the first or all of those asleep on it and leaves every other thread where it is |
| Monitors.RefinesMonitor | kern/thread/synch.c:202-376 | every step of every run is one of an atomic monitor: the lock is taken only when free, cv_wait gives it up and waits in one step, a signal moves one waiter and a broadcast all, and nothing else inside can be told |
| Monitors.LockWakesInOrder | kern/thread/synch.c:202-253 | lock_release wakes threads in the order in which they went to sleep |
| Monitors.CvWakesInOrder | kern/thread/synch.c:314-376 | signals and broadcasts wake the waiters of a condition variable in the order in which they went to sleep |
| Monitors.ContenderWasWoken | kern/thread/synch.c:202-253 | the contenders a free lock counts on are threads that a release woke and that have not got the lock since |
| PageRefs.AllocPageref | kern/vm/kmalloc.c:146-167 | marks the first entry not in use and no other; fails exactly when all are in use |
| PageRefs.FreePageref | kern/vm/kmalloc.c:171-182 | clears exactly that entry |
| PageRefs.Unlink | kern/vm/kmalloc.c:354-375 | takes exactly that entry out of a singly linked list, touching only one link |
| Kheap.LiveApart | kern/vm/kmalloc.c:397-596 | live blocks do not overlap and are aligned |
| Kheap.LiveNotFree | kern/vm/kmalloc.c:397-596 | no live block is on a free list |
| KheapSteps.PopKeeps | kern/vm/kmalloc.c:424-449 | taking the first block of a free list keeps the heap's invariant |
| KheapSteps.PushKeeps | kern/vm/kmalloc.c:555-574 | putting a live block on its page's free list keeps it |
| KheapSteps.StoreKeeps | kern/vm/kmalloc.c:397-596 | whatever the owner of a live block stores in it, every free list and page stays intact |
| KheapSteps.EnteredKeeps | kern/vm/kmalloc.c:480-505 | entering a fresh page with all its blocks threaded keeps it |
| KheapSteps.AllFree | kern/vm/kmalloc.c:576-584 | a page with as many free blocks as it has room for has every block free, by counting |
| KheapSteps.SomeLive | kern/vm/kmalloc.c:576-587 | a page with fewer has a live block |
| Kmalloc.Allocator.constructor | kern/vm/kmalloc.c:138-142 | the empty heap is valid |
| Kmalloc.BlockTypeFor | kern/vm/kmalloc.c:379-393 | the smallest of 16, 32, 64, 128, 256, 512, 1024 and 2048 that fits |
| Kmalloc.Allocator.TryAlloc | kern/vm/kmalloc.c:412-451 | makes a free block of the type live, or no page of that type has one |
| Kmalloc.Allocator.ThreadPage | kern/vm/kmalloc.c:489-496 | the loop leaves a free list through all blocks of the page, last first, and touches nothing outside it |
| Kmalloc.Allocator.AddPage | kern/vm/kmalloc.c:469-508 | enters the page and takes a block from it; fails exactly when every pageref is in use |
| Kmalloc.Allocator.FindPage | kern/vm/kmalloc.c:529-546 | finds the entry whose page holds the address |
| Kmalloc.Allocator.SubpageFree | kern/vm/kmalloc.c:513-596 | exactly that block stops being live, and its page is given up exactly when no other live block is in it |
| Kmalloc.Allocator.SubpageKmalloc | kern/vm/kmalloc.c:397-509 | a call on its own: exactly one new live block of the smallest type that fits; null only without a free block of that type and without a page or an entry for one, and then nothing changed |
| Kmalloc.Allocator.Alloc | kern/vm/kmalloc.c:602-619 | the same for small sizes; large ones get whole fresh pages, as many as it takes and not one more |
| Kmalloc.Allocator.Free | kern/vm/kmalloc.c:622-633 | a call on its own: undoes exactly one allocation; a page returns to the supplier exactly when its last live block is freed |
| Kmalloc.Allocator.Store | kern/vm/kmalloc.c:602-619 | a block belongs to its owner: any word may be stored in it without harm to the heap |
| Kmalloc.BlockApartFromBig | kern/vm/kmalloc.c:602-619 | a small block and a large allocation never overlap |
| Kmalloc.BigsApart | kern/vm/kmalloc.c:602-619 | two large allocations never overlap |
| HeapRun.StepKeeps | kern/vm/kmalloc.c:397-633 | every region of kmalloc and kfree, every call of the page supplier and every store into allocated memory, by any thread, keeps the invariant |
| HeapRun.RunInv | kern/vm/kmalloc.c:397-633 | the invariant holds in every state of every run |
| HeapRun.AllocationsApart | kern/vm/kmalloc.c:397-633 | in every run, no two allocations overlap, small or large, and small ones are aligned |
| HeapRun.FreeIsNotUsed | kern/vm/kmalloc.c:397-633 | in every run, no block in use is on a free list |
| HeapRun.PagesAccounted | kern/vm/kmalloc.c:397-633 | in every run, the pages between supplier and heap are those threads hold, each held by one thread, and a page went back once for each time it was supplied, but for the last time if it is still out |
| HeapRun.LastBlockFreesPage | kern/vm/kmalloc.c:555-596 | a thread has to return a heap page exactly when it freed the last block in use there |
| HeapRun.BlockIsNew | kern/vm/kmalloc.c:397-509 | whatever other threads did since a thread asked, the block it gets is new, large enough, less than twice that unless it is 16 bytes, and changes nobody else's |
| HeapRun.BigIsNew | kern/vm/kmalloc.c:602-619 | a large allocation is a new one of whole pages, as many as it takes and not one more |
| HeapRun.BlockUndisturbed | kern/vm/kmalloc.c:397-633 | until it is freed, a block keeps its size, and no step but a store into it changes its contents |
| ProcTable.LeastFreeInRange | kern/proc/proc.c:438-461 | while the limit is not reached, the least free pid is a valid one |
| ProcTable.ProcList.constructor | kern/proc/proc.c:222-251 | the empty table is valid |
| ProcTable.ProcList.Add | kern/proc/proc.c:449-461 | the new process gets the least free pid, within range, and no other entry changes |
| ProcTable.ProcList.Destroy | kern/proc/proc.c:129-216 | exactly that pid becomes free, the count follows, and the menu is signalled exactly when the last process goes |
| ProcTable.ProcList.Cleanup | kern/proc/proc.c:486-494 | exactly the exited children go, although the bound of the loop moves while it runs, and the menu is signalled exactly when the last process goes |
| Processes.StepKeeps | kern/syscall/proc_syscalls.c:26-247 | every region of fork, exit and waitpid, under the lock or not, keeps the process invariant |
| Processes.ZombieStep | kern/syscall/proc_syscalls.c:26-247 | a step leaves every zombie with a live parent slot if and only if it is neither a failing fork whose child's pid a zombie names as parent nor the end of an exit whose parent is gone |
| Processes.ZombiesHaveParents | kern/syscall/proc_syscalls.c:26-247 | throughout a run every zombie has a live parent slot if and only if no fork fails whose child's pid is the parent's of a zombie, or of a process in sys__exit that finishes later in the run |
| ProcessOrphan.OrphanedZombie | kern/syscall/proc_syscalls.c:189-247 | a run from boot of forks, exits and one wait that ends with such a zombie |
| Processes.ParentStep | kern/syscall/proc_syscalls.c:26-88 | between finding its parent and signalling it, a step leaves the pointer valid if and only if it is not the failing fork of that parent |
| Processes.ParentStays | kern/syscall/proc_syscalls.c:26-88 | in every run the parent sys__exit found is there to be signalled if and only if no such fork failed in between |
| Processes.GrownParentStays | kern/syscall/proc_syscalls.c:26-88 | a parent whose own fork was complete always is |
| Processes.ParentCanGo | kern/syscall/proc_syscalls.c:26-247 | when sys__exit has just found the parent, some continuation of the run loses it if and only if it is a process that sys_fork is still making |
| ProcessOrphan.LostParent | kern/syscall/proc_syscalls.c:26-247 | a run from boot after which sys__exit is to signal a destroyed parent |
| Processes.PointersValid | kern/syscall/proc_syscalls.c:108-247 | the child pointer held across cv_wait, and by fork's last read of the pid, is still that child; nobody sleeps waiting for an exited child |
| Processes.ReapedOnce | kern/syscall/proc_syscalls.c:108-185 | no exit status is collected twice, and pids in use are in range |
| Processes.StatusRoundTrip | kern/include/kern/wait.h:44-76 | a status says that the process exited, and gives back its exit code if and only if that fits in 30 bits |
| ProcessStatus.StatusIsExitCode | kern/syscall/proc_syscalls.c:26-185 | every status that waitpid hands out is that of an earlier _exit by that very process, with the code it gave |
| ProcessStatus.ReapsOwnChild | kern/syscall/proc_syscalls.c:160-170 | waitpid hands it to the parent that waited for that process, which is then gone |
| ProcessStatus.ExitIsFinal | kern/syscall/proc_syscalls.c:26-88 | no process that called _exit ever lives again, under whatever pid |
| ProcessStatus.ZombieGoes | kern/syscall/proc_syscalls.c:26-185 | a zombie goes only when its parent collects its status, or exits |
| Argv.CopyOutStr | kern/syscall/proc_syscalls.c:399-414 | the string and its null land at the address, nothing else changes; EFAULT exactly outside the stack, else ENAMETOOLONG exactly when it is too long |
| Argv.CopyOutWord | kern/syscall/proc_syscalls.c:418-432 | the word can be read back at the address, and nothing else changes; EFAULT exactly outside the stack |
| Argv.RoomIs | kern/syscall/proc_syscalls.c:398-400 | the stack space of an argument is its length with the terminator, rounded up to a word and no more |
| Argv.ExecvStrings | kern/syscall/proc_syscalls.c:397-415 | all strings are in place, aligned and apart, last argument highest; succeeds exactly when each fits and all fit on the stack |
| Argv.RunprogramStrings | kern/syscall/runprogram.c:142-151 | the same with the first argument highest |
| Argv.PushPointers | kern/syscall/proc_syscalls.c:417-432 | the pointers, null last, are in place below the strings; EFAULT exactly when they do not fit on the stack |
| Argv.Execv | kern/syscall/proc_syscalls.c:391-445 | argv reads back as the arguments, argv[argc] is null, regions are disjoint, pointers 4-aligned, sp 8-aligned and not above argv; succeeds exactly when every argument is short enough and all of it fits on the stack, and the error says which |
| Argv.Runprogram | kern/syscall/runprogram.c:136-166 | the same layout contract although the strings are copied in the other order |
| Argv.ArgvReadsBack | kern/syscall/proc_syscalls.c:391-445 | memory laid out for one argument list is laid out for no other list, of any length |
| CatMouse.StepKeeps | kern/synchprobs/catmouse_synch.c:109-228 | every step of a cat or a mouse keeps the invariant, for any number of creatures and bowls |
| CatMouse.ChecksAlwaysPass | kern/synchprobs/catmouse.c:260-396 | no panic or assertion of cat_eat and mouse_eat is reachable |
| CatMouse.NeverTogether | kern/synchprobs/catmouse_synch.c:109-228 | cats and mice never eat at once, and no bowl has two eaters |
| CatMouse.LockOrder | kern/synchprobs/catmouse_synch.c:109-228 | a bowl's lock is never taken while holding the shared one |
| CatMouseWaits.TakesTurns | kern/synchprobs/catmouse_synch.c:109-228 | when the last of a kind leaves while others sleep, none of its kind is let in again before one of the other kind has been |
| CatMouseWaits.LeavingWakes | kern/synchprobs/catmouse_synch.c:132-228 | whose turn it is after one leaves, and that nobody of the kind to be woken is then asleep |
| CatMouseWaits.ArrivalTakesTurn | kern/synchprobs/catmouse_synch.c:109-190 | whoever comes when it is nobody's turn makes it the turn of their kind, and nobody else who comes changes it |
| CatMouseWaits.StuckIsAllAsleep | kern/synchprobs/catmouse_synch.c:109-228 | in every state of every run, no step is possible if and only if all creatures are asleep: the locks alone never block |
| CatMouseWaits.SleeperHasCompany | kern/synchprobs/catmouse_synch.c:109-228 | as long as no broadcast missed a creature about to sleep, whenever one is asleep another is in the middle of a visit |
| CatMouseWaits.SomebodyWasMissed | kern/synchprobs/catmouse_synch.c:109-228 | if all are ever asleep, some broadcast missed a creature about to sleep |
| CatMouseWaits.AllAsleepIsLostWakeup | kern/synchprobs/catmouse_synch.c:109-228 | if all are asleep, it is the turn of one of the sleepers and the condition it waits for holds |
| CatMouseStuck.EverybodySleeps | kern/synchprobs/catmouse_synch.c:109-228 | a run from the start of one cat, one mouse and two bowls that ends with both asleep and no step possible |

## Left out

- Device failures: reads and writes of blocks succeed; the retry loop for EIO and the paths behind it are not modelled.
- SfsIo.RwBlock: has no error return, since the device does not fail here.
- ENOMEM: allocating in-memory structures (vnodes, arrays, processes, threads) succeeds.
- Volumes of more than 2^23 blocks, whose block numbers times 512 do not fit in 32 bits.
- Lengths of truncation within 511 of 2^63, where the rounding in the source overflows.
- Uios.Uio.Move: a request beyond the residue is covered when the buffers end with the residue, as every caller sets them up; user-space faults are left out.
- Uios.Uio.MoveZeros: the same.
- SfsNames.Rename: needs the old name not to be a name of the root, which the source asserts.
- SfsFs.Mount: a superblock claiming more blocks than the device has is only warned about in the source and is left out.
- ProcTable.ProcList.Add: needs room in the table, which fork checks; process creation from the menu does not check it, and the source then stores past the end of the table.
- Kmalloc.Allocator.Free: needs a live pointer, since the source deliberately does not check for double frees.
- Kmalloc.Allocator.Alloc: a call without interference; calls of several threads are the subject of HeapRun.
- PageRefs.AllocPageref: the words of the in-use map are sequences of 32 booleans, not masks of an integer.
- The errors of `waitpid` for options, unknown pids and other people's children, which change nothing.
- Fork's limit check and its creation of a process are one step, and so is an exit that finds no parent.
- Concurrency inside SFS: every operation holds the one big lock, so operations are sequential here.
- Spinlocks and interrupt levels (spl): a region under a spinlock is one step, so the lock word, its holder and the nesting counters behind it do not appear.
- The superblock's dirty flag, which nothing sets; volume names; `sfs_stat`, `sfs_open`, `sfs_close`, `sfs_fsync`, `sfs_lookup` and the other short vnode operations.
- Path names and the VFS name table: operations start from vnodes.
- Address spaces, the page supplier, the TLB and its shootdown, ELF loading, copying with faults, context-switch assembly, device drivers and the console.
- Fairness: which of several creatures, threads or contenders for a lock goes first, which this code leaves open.
- The command line of `mksfs` and the other user programs, which only call the system calls modelled here.
- The containers `array.c` and `queue.c`, which appear as sequences, and `bswap.c`: disk words are big-endian, like the machine.

# Verified models of Pintos

Dafny models of the hard parts of this Pintos kernel and of the scheduling notebook beside it,
with proofs of what they promise. `dafny verify dfyconfig.toml` checks the whole project.

**Buffer cache** (`devices/block.c`). `BufferCache` is a state machine over the single lock,
semaphore, copy and device operations of any number of threads; a run is any sequence of their
steps. `BufferCacheSafety` proves the locking discipline, `BufferCacheLinearizable` that every run
is linearizable to the plain disk, `BufferCacheClock` that the clock gives each entry its second
chance, `BufferCacheProgress` that with at most 64 threads no permit is ever missing, eviction ends
within 128 moves of the hand and nothing deadlocks, `BufferCacheReturn` that a call on its own
returns, `BufferCacheStarvation` that the bound of 64 is exact, and `BufferCacheWaiting`, which adds
the waiting path, that beyond it an ASSERT fails.

**Files** (`filesys/inode.c`, `filesys/free-map.c`). `InodeLayout` and `InodeTree` describe the
pointer tree in sectors, `InodeFile` and `InodeGrowth` the bytes of a file, and `Inode.FileSystem`
has the operations, with the exact condition under which each ASSERT fails. `InodeInstall`
has what `install_sector` does word by word, `InodeCreate` and `InodeReuse` what becomes of a new
file in a sector with old pointer words, `InodeTags` that nothing else touches the type and magic
words, and `InodeRemoval` what closing a removed file gives back.

**Threads** (`threads/synch.c`, `threads/thread.c`, `userprog/process.c`). `Synch` is the state
machine of scheduler, semaphores, locks and condition variables with interrupts between all steps;
`SynchSafety` has what every run keeps, `SynchCalls` what each operation has done when it returns,
and `SynchOrder` that all lists serve first come, first. `WaitProtocol` is the machine of parents,
children and their shared `wait_status` records, and `WaitRef` that of one record under its own
lock; `WaitSafety` is about the records, `WaitCodes` and `WaitOutcomes` about what waits report.

**Memory** (`threads/malloc.c`, `threads/palloc.c`, `lib/kernel/bitmap.c`). `Malloc.Allocator` hands
out blocks by address; `MallocHeap` has its invariant. `Bitmap.BitArray` keeps the page map packed
in 32-bit words and is proved against the plain sequence of bits.

**Algorithms**. `LinkedList` (natural merge sort in place on a doubly linked list), `HeapSort`,
`HashTable`, and `Division` (64-bit division from a 64/32-bit one).

**Layouts and round trips**. `ArgvStack` (the argument vector of a new process), `Ustar` (archive
headers, the "ustar Interchange Format" of pax in SUSv3), `PathResolution`.

**Scheduling simulator** (`schedlab/scheduling.ipynb`). `Scheduler.Machine` runs any workload;
`ScheduleModel` keeps every thread's account and the order of events, and `ScheduleHistory` says
what its log has to tell of each thread and of the queue.

Code that computes is modelled by functions, code that updates state by classes and methods with
loops; the concurrent protocols are state machines whose theorems are proved by induction over
runs. Times, addresses and counts are mathematical integers; 32- and 64-bit wrap-around is written
out in `Division`, in the page count of `malloc` and in the size field of ustar headers. Results of
code outside the models (the success of an allocation in `rehash`, the bytes of the directories a
path meets, the bursts of a simulated task) are parameters. Signed arithmetic in `lib/arithmetic.c`
is taken to wrap around; C leaves `-(int64_t) q_abs` at INT64_MIN / 1 and
`d * sdiv64 (n, d)` at INT64_MIN / -1 undefined.

## Where code and text differ

The models follow the code.

- `inode_write_at` says growth is not implemented; the code extends the file first, also when
  writing is denied or there are no bytes to write. `InodeGrowth.DeniedWriteLeavesFile` and
  `InodeGrowth.EmptyWriteLeavesFile` say exactly when such a write leaves the bytes alone, and when
  the free map and the pointers too; `InodeGrowth.DeniedWriteGrows`, `InodeGrowth.EmptyWriteGrows`
  and `InodeGrowth.EmptyWriteTakesSectors` are inputs on which it does not.
- `can_allocate` is meant as a test but keeps the first sector it takes, so a growing write needs
  one free sector more than it uses; `Inode.FileSystem.CanAllocate` and `InodeGrowth.WriteSucceeds`
  count it.
- `inode_create` leaves the pointer words of the new inode as they are, and neither the free map
  nor `inode_close` clears them. `Inode.FileSystem.Create` says exactly which old words do no harm,
  and `InodeRemoval.RecreateExact` what that means for the sector of a removed file: the new one is
  a file of its own if and only if it has at least as many blocks. `Inode.CreateRemoveCreate` is the
  run for any two sizes, `Inode.ThirteenBlocks` one that goes well and one that does not.
- `inode_close` says it frees the blocks of a removed inode; `clear_data` never releases the index
  sectors. `InodeRemoval.RemovalFreesAll` says exactly when everything is given back and
  `InodeRemoval.NeededIsIndex` how many sectors a larger file loses.
- `get_subdir_from_path` returns a directory or null; the ASSERT of `get_dir_from_path` fails
  instead when the front of the path leads to a file, exactly as `PathResolution.GetSubdir` says.
- `get_inode_from_path` notes that a file in the middle of a path ends the walk; the code opens it
  like a directory and looks the next part up in its bytes. `PathResolution.FilesEndWalksExactly`
  says for which trees the note is true. On the part ".." the lookup fails an ASSERT there, exactly
  as `PathResolution.PanicsExactly` says. `PathResolution.PathsThroughFile` has a path for each.
- The loops of `get_subdir_from_path` look at a character before they test that there is one, so
  they read the byte before the copy, exactly when `PathResolution.FrontOf` says: for "", "/" and
  "a", for example. What they read makes no difference.
- `process_execute` takes lines of up to 4095 characters; `ArgvStack.LinesFitExactly` says that
  lines of up to 1360 always fit the stack page, and that there are longer ones of every length on
  which `load_stack` runs below it.
- The waiting path for more than 64 cache users comes back to `check_buffer_presence` without the
  lock that its ASSERT asks for; `BufferCacheWaiting.AssertsHoldExactly` says that no run fails an
  ASSERT if and only if at most 64 threads use the cache.
- `malloc` promises a block of at least the requested size; with 32-bit sizes that holds exactly up
  to 2^32 - 12 bytes.
- `calloc` says it makes sure that the size fits; its test misses many products that do not.
  `Malloc.CallocCatches` says which it catches and `Malloc.CallocSafeExactly` for which factors it
  catches all; `Malloc.CallocCutShort` is one that it misses.
- The remainder routines return 32 bits, so they are right for every dividend exactly when the
  divisor is at most 2^32, or of size at most 2^31 for the signed one; the signed quotient is right
  except for INT64_MIN / -1.

## Model

| member | source | states |
|---|---|---|
| BufferCacheSafety.AlwaysInv | pintos/src/devices/block.c:143-398 | every state of every interleaving of any number of threads keeps the cache invariant: lock ownership by program point, distinct sectors, clean slots equal to the device |
| BufferCacheSafety.NeverPanics | pintos/src/devices/block.c:87-398 | in the cache without its waiting path, at which a thread stops here, no run fails an ASSERT, releases a lock not held, takes one already held or follows a freed entry, and no sector is ever in two slots |
| BufferCacheSafety.LockedSlotUntouched | pintos/src/devices/block.c:188-213 | a slot whose sector_lock one thread holds is neither changed nor freed by any action of another |
| BufferCacheSafety.NobodyWaitsOnFreedEntry | pintos/src/devices/block.c:143-157 | while one thread frees an entry, no other waits for its lock, is about to ask for it, or holds buffer_cache_lock |
| BufferCacheSafety.EvictsUnused | pintos/src/devices/block.c:188-213 | the clock frees only the entry under the hand, locked by the evicting thread, with use bit 0 and contents already on the device |
| BufferCacheClock.SecondChance | pintos/src/devices/block.c:188-213 | a clock that has locked the entry under its hand goes on to free it if and only if no access has found or filled that slot since the clock last went past it |
| BufferCacheClock.FreesUnfound | pintos/src/devices/block.c:188-213 | so an entry that an eviction frees has not been used since |
| BufferCacheClock.AlwaysTells | pintos/src/devices/block.c:87-213 | in every run the use bit tells whether the slot has been used since, but in the hands of a thread that is about to set it or of a clock about to go on |
| BufferCacheSafety.StepGuarantee | pintos/src/devices/block.c:87-398 | each step changes only what its program point entitles it to: slots whose locks it has, and shared fields only under buffer_cache_lock |
| BufferCacheSafety.StepOwn | pintos/src/devices/block.c:87-398 | after its own step a thread holds exactly the locks its next program point needs |
| BufferCacheSafety.StepKeepsInv | pintos/src/devices/block.c:87-398 | the whole invariant survives any step of any thread |
| BufferCacheLinearizable.Linearizable | pintos/src/devices/block.c:231-398 | for every device, thread count and run: the trace has, thread by thread and in order, exactly the calls made, the commits are a legal history of the plain disk, each call commits exactly once between invocation and return, and cache over device stands for the disk those commits give |
| BufferCacheLinearizable.InvokedAreCalls | pintos/src/devices/block.c:231-398 | the requests in a thread's Invoke events are those with which it called while all its earlier calls had returned |
| BufferCacheLinearizable.RepresentsUnique | pintos/src/devices/block.c:143-157 | the logical disk that cache and device stand for is unique |
| BufferCacheLinearizable.StepLinear | pintos/src/devices/block.c:87-398 | every step keeps the correspondence with the plain disk |
| BufferCacheLinearizable.HitLinear | pintos/src/devices/block.c:231-262 | every step of a buffered access but the copy leaves the logical disk alone |
| BufferCacheLinearizable.CopyLinear | pintos/src/devices/block.c:215-256 | the copy reads or patches the logical disk, and that is the commit of the call |
| BufferCacheLinearizable.MissLinear | pintos/src/devices/block.c:265-288 | looking for a slot after a miss leaves the logical disk alone |
| BufferCacheLinearizable.ClockLinear | pintos/src/devices/block.c:188-213 | evicting with write-back leaves the logical disk alone, whatever the use and dirty bits |
| BufferCacheLinearizable.InstallLinear | pintos/src/devices/block.c:289-311 | filling a slot from the device adds nothing to and takes nothing from the logical disk, and the access then commits |
| BufferCacheLinearizable.SyncedLinear | pintos/src/devices/block.c:173-183 | when the scan of a flush ends the device itself equals the logical disk, whoever else is using the cache |
| BufferCacheProgress.AlwaysPermits | pintos/src/devices/block.c:87-103 | permits plus threads inside the cache are 64 in every state of every run |
| BufferCacheProgress.NeverStarved | pintos/src/devices/block.c:239-253 | with at most 64 threads sema_try_down never fails, so the waiting path is never entered |
| BufferCacheStarvation.StarvationExactlyBeyond64 | pintos/src/devices/block.c:239-288 | no run starves a thread if and only if at most 64 threads use the cache |
| BufferCacheStarvation.Overcrowd | pintos/src/devices/block.c:273-288 | for every larger number of threads there is a run in which thread 64 finds no permit |
| BufferCacheWaiting.AssertsHoldExactly | pintos/src/devices/block.c:87-398 | with the waiting path added: no run of any interleaving fails an ASSERT if and only if at most 64 threads use the cache |
| BufferCacheWaiting.SameRun | pintos/src/devices/block.c:239-288 | as long as nobody misses a permit the waiting path adds nothing to a run |
| BufferCacheWaiting.FewNeverFail | pintos/src/devices/block.c:239-288 | with at most 64 threads no run fails an ASSERT |
| BufferCacheWaiting.ManyFail | pintos/src/devices/block.c:239-252 | for every larger number there is a run in which a thread sleeps, is signalled, looks its sector up again and fails the ASSERT of check_buffer_presence |
| BufferCacheProgress.SomeSlotFree | pintos/src/devices/block.c:185-213 | with at most 64 threads some slot is empty or has its lock free |
| BufferCacheProgress.AlwaysClockEnds | pintos/src/devices/block.c:188-213 | a running clock search always has a slot ahead of it at which it will stop |
| BufferCacheProgress.EvictionBounded | pintos/src/devices/block.c:188-213 | the search ends within 128 moves of the hand from any hand position and any use bits, whatever the others do |
| BufferCacheProgress.NoDeadlock | pintos/src/devices/block.c:87-398 | whenever a thread is inside a call, some thread inside a call can move on |
| BufferCacheReturn.ReturnsAlone | pintos/src/devices/block.c:87-398 | in every run with at most 64 threads, a thread whose call is the only one going on comes back from it within 784 of its own steps |
| BufferCacheReturn.StepDrops | pintos/src/devices/block.c:87-398 | each of these steps brings it nearer to the end of the call |
| InodeLayout.PtrOfsInjective | pintos/src/filesys/inode.c:79-113 | two pointers of one sector stand at different offsets |
| InodeFile.BlockPtrExactly | pintos/src/filesys/inode.c:272-314 | where the pointer to each block stands: which word of the inode or of which index sector |
| Storage.DecodeEncode | pintos/src/filesys/inode.c:79-113 | a 32-bit word is read back as written |
| InodeTree.StoreKeepsTree | pintos/src/filesys/inode.c:150-206 | storing a spare sector at a place changes that pointer and no other in any file, and data, index and inode sectors stay distinct, allocated and nonzero |
| InodeTree.KeptTree | pintos/src/filesys/inode.c:150-206 | writes that keep the index words keep the tree |
| Inode.FileSystem.GetSector | pintos/src/filesys/inode.c:121-127 | takes the lowest free sector and zeroes it, or nothing exactly when none is free |
| Inode.FileSystem.CanAllocate | pintos/src/filesys/inode.c:129-148 | true exactly when that many sectors are free; the first stays marked, no used sector changes |
| Inode.FileSystem.ReleaseButFirst | pintos/src/filesys/inode.c:129-148 | the release loops leave exactly the first sector marked |
| FreeMap.FreeExists | pintos/src/filesys/free-map.c:40-59 | the scan finds a sector exactly when one is free |
| FreeMap.FirstFreeIsLowest | pintos/src/filesys/free-map.c:40-59 | that sector is the one bitmap_scan finds |
| FreeMap.FreshCount | pintos/src/filesys/free-map.c:24-33 | after free_map_init all sectors but two are free |
| Inode.FileSystem.constructor | pintos/src/filesys/free-map.c:24-33 | a disk with any contents and no files yet is a valid file system with all but two sectors free |
| Inode.FileSystem.Allocate | pintos/src/filesys/free-map.c:40-59 | marks the lowest free sector and leaves its contents, or finds none exactly when none is free |
| FreeMap.FreeCountMark | pintos/src/filesys/free-map.c:40-70 | marking and releasing change the number of free sectors by one |
| Inode.FileSystem.EnsureIndex | pintos/src/filesys/inode.c:168-206 | looks an index sector up and installs it if absent, as the word-by-word function says, whatever the disk holds |
| Inode.FileSystem.EnsurePath | pintos/src/filesys/inode.c:168-206 | all index sectors on the way to a block, in the same way |
| Inode.FileSystem.InstallSector | pintos/src/filesys/inode.c:150-206 | is the word-by-word function on every disk, with or without a tree |
| InodeInstall.PutIndexGrows | pintos/src/filesys/inode.c:168-206 | in the tree of all files an index sector is taken exactly if it is absent, and none is left exactly when the free map is out |
| InodeInstall.PutPathGrows | pintos/src/filesys/inode.c:168-206 | both index levels, counted exactly |
| InodeInstall.InstallInTree | pintos/src/filesys/inode.c:168-206 | block i becomes a fresh zero sector, every other pointer of every file is kept, the tree stays one; panics exactly when the free sectors are fewer than data plus missing index |
| InodeFile.InstallGrows | pintos/src/filesys/inode.c:150-206 | data sector, index sectors and block pointer together add exactly the missing places |
| Inode.FileSystem.AddBlock | pintos/src/filesys/inode.c:208-232 | one round of the extension loop, with its exact cost |
| Inode.FileSystem.AddBlocks | pintos/src/filesys/inode.c:208-232 | the extension loop: panics exactly when the maximum or the free map is exceeded, else takes exactly the sectors needed |
| Inode.FileSystem.Extend | pintos/src/filesys/inode.c:208-232 | cnt more zero blocks, or none; when each of panic, failure and success happens, and the sectors each takes |
| Inode.FileSystem.ExtendAndSet | pintos/src/filesys/inode.c:236-256 | the two branches that extend and then set the length |
| Inode.FileSystem.ExtendToBytes | pintos/src/filesys/inode.c:234-257 | the content is zero-padded to the new length or left alone, no other file changes, and the free map loses exactly data, index and the sector can_allocate keeps, also when it fails |
| InodeGrowth.GrownFile | pintos/src/filesys/inode.c:208-257 | growing and then setting the length pads the file with zeros |
| Inode.FileSystem.NextChunk | pintos/src/filesys/inode.c:272-301 | where a transfer loop ends and how far one chunk reaches |
| Inode.FileSystem.ReadChunk | pintos/src/filesys/inode.c:514-545 | one chunk is that slice of the file |
| InodeGrowth.ChunkRead | pintos/src/filesys/inode.c:272-301 | the bytes at the located sector and offset are the file bytes at that position |
| Inode.FileSystem.ReadAt | pintos/src/filesys/inode.c:514-545 | the bytes from min(offset, length) to min(offset + size, length), and the exact condition under which the loop fails the ASSERT of byte_to_sector |
| InodeGrowth.ChunkWritten | pintos/src/filesys/inode.c:612-650 | a chunk overwrites exactly its bytes of the file and nothing of any other file |
| Inode.FileSystem.WriteInside | pintos/src/filesys/inode.c:624-650 | the write loop overwrites exactly what lies inside the file |
| Inode.FileSystem.WriteAt | pintos/src/filesys/inode.c:612-650 | panic condition, count, content, type words, sectors spent and other files for every write; the count is 0 when denied, the whole buffer when the file can grow, and otherwise just what lies inside the file |
| InodeGrowth.WriteExactly | pintos/src/filesys/inode.c:612-646 | byte by byte: the length after a write, which bytes are the buffer's, which the old ones and which zero, with the exact condition for growing |
| InodeRemoval.WriteCost | pintos/src/filesys/inode.c:208-256 | in closed form the sectors a write takes out of the free map and exactly when it fails an ASSERT |
| InodeGrowth.WriteComposes | pintos/src/filesys/inode.c:612-650 | a write is an extension followed by overwriting |
| InodeGrowth.WriteSucceeds | pintos/src/filesys/inode.c:612-650 | with room and enough free sectors the file becomes the old bytes zero-padded and overwritten, of length max(old, offset + size), and reads back as the buffer |
| InodeGrowth.DeniedWriteLeavesFile | pintos/src/filesys/inode.c:618-623 | a denied write that does not panic leaves the bytes alone if and only if it would not or cannot extend the file, and bytes, free map and pointers if and only if it ends inside a nonempty file or the free map is empty and would be asked |
| InodeGrowth.EmptyWriteLeavesFile | pintos/src/filesys/inode.c:234-243 | an empty write leaves the bytes alone if and only if the offset is not beyond the end or the extension cannot be satisfied, and bytes, free map and pointers if and only if moreover the file is not empty or the free map is |
| InodeGrowth.EmptyWriteGrows | pintos/src/filesys/inode.c:234-243 | with two free sectors an empty write at position 1 succeeds and makes an empty file one byte long |
| InodeGrowth.EmptyWriteTakesSectors | pintos/src/filesys/inode.c:234-243 | one at position 0 takes two sectors for a file that stays empty |
| InodeGrowth.DeniedWriteGrows | pintos/src/filesys/inode.c:618-623 | a denied write of one byte makes an empty file one byte long and reports 0 |
| Inode.FileSystem.Create | pintos/src/filesys/inode.c:322-338 | for any old words of the sector, and beyond twelve blocks for any old index sectors of nobody else: the inode is well formed if and only if the old pointers that are not set anew are zero, the new file is a file of its own if and only if moreover an old first pointer leads to no sector in other use, it then reads as zeros, no other file changes; exact conditions of panic and failure and exact number of sectors taken, with index sectors used again; the new inode has the type asked for and the magic, and no other changes type |
| InodeTags.HeaderTags | pintos/src/filesys/inode.c:322-335 | the type and magic words that the three stores leave |
| InodeTags.InstallTags | pintos/src/filesys/inode.c:168-206 | install_sector leaves the type and magic words of all inodes alone |
| InodeTags.ChunkTags | pintos/src/filesys/inode.c:622-643 | so does a write into a block |
| Inode.FileSystem.LayDirect | pintos/src/filesys/inode.c:259-266 | the direct blocks are fresh zero sectors, all other words of the inode and all other sectors in use stay; panics exactly when too few are free |
| Inode.FileSystem.LayBeyond | pintos/src/filesys/inode.c:259-266 | its rounds beyond the direct blocks, through old index sectors where there are any; panics exactly when the index is full or the sectors do not suffice |
| Inode.FileSystem.ExtendStart | pintos/src/filesys/inode.c:259-266 | the loop for every length: what the new inode is, exactly, and what it costs |
| InodeCreate.CreatedExactly | pintos/src/filesys/inode.c:322-338 | up to twelve blocks, both equivalences from the sectors that the loop leaves behind, for any old words |
| InodeCreate.LaidOthers | pintos/src/filesys/inode.c:322-338 | whatever the old words, no other file is touched |
| InodeCreate.LaidTree | pintos/src/filesys/inode.c:322-338 | with words that fit the sectors of the new file are nobody else's |
| InodeCreate.FirstPointerFits | pintos/src/filesys/inode.c:322-338 | and an old first pointer that leads elsewhere breaks that |
| InodeReuse.InstallShadow | pintos/src/filesys/inode.c:168-206 | install_sector does the same to the disk and to its shadow, in which old block pointers are zero, and sets one pointer more |
| InodeReuse.RebuildNext | pintos/src/filesys/inode.c:259-266 | one round of the loop: its exact cost, the file grows by a zero block in the shadow, disk and shadow stay related, no other file changes |
| InodeReuse.RebuildStart | pintos/src/filesys/inode.c:259-266 | after the direct blocks the shadow is a tree of all files and the new one |
| InodeReuse.BlocksAfter | pintos/src/filesys/inode.c:259-266 | block pointers set anew are those of the shadow, all others the old ones |
| InodeReuse.RebuildEnds | pintos/src/filesys/inode.c:322-338 | beyond twelve blocks, both equivalences for any old block pointers |
| InodeReuse.RegrowFresh | pintos/src/filesys/inode.c:168-206 | without old index sectors the cost is that of a growing file |
| Inode.CreateRemoveCreate | pintos/src/filesys/filesys.c:49-67 | create a file of any size on an empty disk, remove it, create one of any other size: the same sector comes back, the inode is well formed if and only if the old file had at most max(1, n) blocks, the file is one of its own if and only if it had at most n, and the index sectors of the first one are lost |
| Inode.ThirteenBlocks | pintos/src/filesys/filesys.c:49-67 | 13 blocks after 13 are a file, 13 after 20 are not, and removing the 20 loses a sector |
| Inode.FileSystem.Release | pintos/src/filesys/free-map.c:62-70 | releases one sector; panics exactly when it is not in use |
| Inode.FileSystem.ClearData | pintos/src/filesys/inode.c:465-482 | releases exactly the blocks below a pointer that are there, each once and none twice, and reports a hole exactly when the file ends inside |
| Inode.FileSystem.ClearWord | pintos/src/filesys/inode.c:474-480 | one round of its loop, down through the next level |
| Inode.FileSystem.ClearIndex | pintos/src/filesys/inode.c:474-481 | that loop, which stops at the first hole without missing a block |
| Inode.FileSystem.ClearDirect | pintos/src/filesys/inode.c:460-464 | the loop over the direct pointers releases just the direct blocks that are there |
| Inode.FileSystem.ReleaseFile | pintos/src/filesys/inode.c:459-484 | all releases of a removed file: the inode sector and every block |
| Inode.FileSystem.CloseRemoved | pintos/src/filesys/inode.c:436-485 | closing a removed file never fails the ASSERT of a double release, gives back exactly the inode sector and the blocks, and keeps all other files and the tree |
| InodeRemoval.InstalledPrefix | pintos/src/filesys/inode.c:460-482 | pointers are nonzero exactly for the blocks before the end of the file, so stopping at the first zero misses none |
| InodeRemoval.NextStillUsed | pintos/src/filesys/inode.c:460-482 | the next block to release has not been released yet |
| InodeRemoval.OthersStay | pintos/src/filesys/inode.c:457-484 | after the releases the remaining files are still a valid file system |
| InodeRemoval.IndexStaysMarked | pintos/src/filesys/inode.c:465-482 | of the sectors of a removed file exactly the index sectors stay marked |
| InodeRemoval.RemovalFreesAll | pintos/src/filesys/inode.c:430-484 | removal gives back every sector of a file if and only if the file fits the direct pointers |
| InodeRemoval.NeededIsIndex | pintos/src/filesys/inode.c:168-232 | growing to n blocks takes n sectors and a closed-form number of index sectors, the ones removal keeps |
| InodeRemoval.RemovedFits | pintos/src/filesys/inode.c:457-485 | the pointers that closing leaves fit a new file of n blocks if and only if the old one had at most max(1, n) |
| InodeRemoval.RemovedBones | pintos/src/filesys/inode.c:457-485 | after closing, the sector can be handed out again and leads to the index sectors of the old file, still marked and nobody else's |
| InodeRemoval.RegrowIsIndex | pintos/src/filesys/inode.c:168-206 | the new file takes only the index sectors beyond those |
| InodeRemoval.RecreateExact | pintos/src/filesys/filesys.c:49-67 | a file of n blocks created in the sector of a removed one is a file of its own if and only if the removed one had at most n blocks, for every n |
| LinkedList.Relink | pintos/src/lib/kernel/list.c:189-204 | the six pointer writes, read and written in the source's order, give each touched element its new neighbours and keep the rest |
| LinkedList.Splice | pintos/src/lib/kernel/list.c:168-204 | the list is well linked again with the range at its new place, all other elements in order |
| LinkedList.SplicedLinked | pintos/src/lib/kernel/list.c:189-204 | the six pointer writes leave a well-linked list in the new order |
| LinkedList.FindEndOfRun | pintos/src/lib/kernel/list.c:358-372 | the maximal nondecreasing run |
| ListOrder.MoveStable | pintos/src/lib/kernel/list.c:380-399 | moving an element in front of larger ones is stable |
| ListOrder.StableTrans | pintos/src/lib/kernel/list.c:405-440 | stable rearrangements compose |
| ListOrder.MergeMoves | pintos/src/lib/kernel/list.c:380-399 | the merge invariant survives a move |
| ListOrder.DescentsJoin | pintos/src/lib/kernel/list.c:405-440 | descents add up over adjacent ranges |
| ListOrder.NoDescentsIsSorted | pintos/src/lib/kernel/list.c:358-372 | for a strict weak order a range without descents is sorted |
| LinkedList.InplaceMerge | pintos/src/lib/kernel/list.c:380-399 | two adjacent sorted ranges become one sorted range, stably |
| LinkedList.SortPass | pintos/src/lib/kernel/list.c:405-440 | one pass halves the number of runs, rounding up, and counts them |
| LinkedList.ListSort | pintos/src/lib/kernel/list.c:405-440 | a well-linked list of the same nodes, sorted and stable, for every strict weak order; it terminates |
| SynchPlaces.AlwaysPlaced | pintos/src/threads/thread.c:234-263 | ready list, wait lists and the processor always agree with every thread's status |
| SynchPlaces.ExactlyOnePlace | pintos/src/threads/thread.h:79-84 | in every run a thread that has not exited is in exactly one place, and one that has is in none |
| SynchPlaces.PlaceMeansStatus | pintos/src/threads/thread.c:526-597 | running, ready and blocked mean being on the processor, the ready list or the wait list of the semaphore wanted |
| SynchSafety.AlwaysInv | pintos/src/threads/synch.c:60-341 | semaphores, locks and condition variables keep their invariant in every run |
| SynchSafety.SemaphoreAccounting | pintos/src/threads/synch.c:60-121 | the value is always the value at sema_init plus the sema_ups carried out in the run minus the sema_downs and tries that have returned with a unit, counted over the steps of the run |
| SynchSafety.CountsAreSteps | pintos/src/threads/synch.c:60-121 | the history fields of a semaphore are those counts |
| SynchSafety.MutualExclusion | pintos/src/threads/synch.c:192-239 | a lock has at most one owner, its holder names no other thread, its semaphore is then 0 |
| SynchSafety.AssertsHold | pintos/src/threads/synch.c:192-341 | in every run: whoever sema_up unblocks is blocked, cond_wait releases a lock it holds and takes one it does not hold and nobody does, cond_broadcast holds the lock at every signal |
| SynchSafety.NoLostWakeup | pintos/src/threads/synch.c:60-121 | a sleeper beside a positive value implies a woken thread that is ready or running |
| SynchSafety.AlwaysDying | pintos/src/threads/thread.c:298-334 | in every run a thread that has exited is inside no operation |
| SynchSafety.NoWakeupWithoutSignal | pintos/src/threads/synch.c:290-341 | while a signal has not taken a thread's private semaphore off the queue, no sema_down of it has returned in the run |
| SynchCalls.CallDoes | pintos/src/threads/synch.c:60-341 | for every call of every run, when it returns, whatever happened meanwhile: its thread has raised and lowered exactly the semaphores it is to and holds exactly the locks it is to; cond_signal has taken the first waiter, cond_broadcast all of them, and cond_wait holds its lock again and has been signalled |
| SynchCalls.SleepersRaised | pintos/src/threads/synch.c:314-341 | each semaphore queued when a broadcast begins, and the first one when a signal does, is raised before the call returns |
| SynchCalls.CallEnds | pintos/src/threads/synch.c:60-341 | a thread is still inside a call exactly as long as it has made fewer steps there, sleeping apart, than the call takes |
| SynchCalls.AlwaysBalance | pintos/src/threads/synch.c:60-341 | at every moment inside a call what has been done and what its program point still owes make up what the call is to do |
| SynchCalls.OtherAction | pintos/src/threads/synch.c:60-341 | no other thread or interrupt moves a thread on, takes its locks or changes the queue of a condition whose lock it holds |
| SynchOrder.WaitersInOrder | pintos/src/threads/synch.c:60-121 | in every run the wait list of a semaphore is the threads that went to sleep on it, in that order, but for as many in front as sema_ups found somebody asleep |
| SynchOrder.QueueInOrder | pintos/src/threads/synch.c:290-341 | the same for the queue of a condition, with calls of cond_wait and signals |
| SynchOrder.ReadyInOrder | pintos/src/threads/thread.c:234-263 | in every run the ready list is the threads that became ready, in that order, but for those that left first |
| SynchOrder.IdleOnlyWhenNoneReady | pintos/src/threads/thread.c:526-533 | the processor falls idle only when no thread is ready |
| WaitSafety.AlwaysInv | pintos/src/threads/thread.c:188-220 | every interleaving of create, wait, exit and kill keeps families, reference counts and codes consistent |
| WaitSafety.StepInv | pintos/src/threads/thread.c:617-645 | each single step of the protocol does |
| WaitSafety.NeverMisused | pintos/src/threads/thread.c:617-629 | no freed wait_status is touched and none is freed twice |
| WaitSafety.CountIsReferences | pintos/src/threads/thread.c:617-629 | the count is the number of sides still referring to the record, which is freed exactly when neither does and nobody is about to free it |
| WaitSafety.ListedIsReferenced | pintos/src/threads/thread.c:312-323 | between calls the count is (on its parent's list) plus (not yet released by the thread) |
| WaitSafety.BothDoneFreed | pintos/src/threads/thread.c:312-323 | once parent and child are gone the record is freed: nothing leaks |
| WaitRef.NeverMisused | pintos/src/threads/thread.c:617-629 | lock, change, unlock and free as separate steps: in every interleaving neither the record nor its lock is touched after the free, which happens exactly when both sides are done, once |
| WaitRef.StepInv | pintos/src/threads/thread.c:617-629 | each of those steps keeps lock, count and stages consistent |
| WaitRef.Refines | pintos/src/threads/thread.c:617-629 | each of them is one step or none of the machine in which the locked change is a single step |
| WaitCodes.AlwaysCodes | pintos/src/userprog/process.c:189-210 | the trace of exits and waits stays consistent with the records |
| WaitCodes.WaitReportsFinalCode | pintos/src/userprog/process.c:189-210 | a wait reports to the parent, after the child's exit, the code the child left with in the run: the argument of its exit call, -1 if it was killed, 0 if it returned |
| WaitCodes.AlwaysLeft | pintos/src/userprog/process.c:189-210 | a thread is leaving in exactly those runs in which it has called exit, was killed or returned, and its record has that code |
| WaitCodes.WaitReportsOnce | pintos/src/userprog/process.c:189-210 | no child is reported twice |
| WaitCodes.SecondWaitRefused | pintos/src/userprog/process.c:189-210 | a second wait, or one for a thread that is not a child, returns -1 at once and changes nothing else |
| WaitOutcomes.RefusedExactly | pintos/src/userprog/process.c:189-210 | process_wait is refused if and only if the thread is not a child of the caller or has been waited for; otherwise the caller goes to wait |
| WaitOutcomes.RefusedOnlyThen | pintos/src/userprog/process.c:189-210 | every refusal in a trace answered such a wait |
| WaitOutcomes.WaitAnswered | pintos/src/userprog/process.c:201-210 | any other wait returns with a report, and the code in it is the one the child left with |
| WaitOutcomes.AlwaysAccounted | pintos/src/threads/thread.c:632-645 | in every run a parent that is not leaving has each child on its list, is creating it or waiting for it, or has waited for it |
| WaitOutcomes.CallsEnd | pintos/src/userprog/process.c:189-210 | creating, leaving, and waiting for a child that has exited come to an end within 3 steps of the thread for each of its children and 5 more |
| Bits.AndBit | pintos/src/lib/kernel/bitmap.c:170-179 | bit k of a bitwise and, defined by halving, is the conjunction of the bits |
| Bits.OrBit | pintos/src/lib/kernel/bitmap.c:157-166 | likewise for or |
| Bits.XorBit | pintos/src/lib/kernel/bitmap.c:185-194 | likewise for exclusive or |
| Bits.NotBit | pintos/src/lib/kernel/bitmap.c:170-179 | the complement of a word inverts each of its bits |
| Bits.ShiftedBit | pintos/src/lib/kernel/bitmap.c:43-47 | 1 shifted by j has bit j and no other |
| Bits.LowMaskBit | pintos/src/lib/kernel/bitmap.c:66-70 | (1 << n) - 1 has exactly the first n bits |
| Bits.TestMask | pintos/src/lib/kernel/bitmap.c:198-202 | the mask test is the bit |
| Bitmap.MarkBit | pintos/src/lib/kernel/bitmap.c:157-166 | the or sets that bit of the word and keeps the other 31 |
| Bitmap.ResetBit | pintos/src/lib/kernel/bitmap.c:170-179 | the and with the complement clears that bit and keeps the others |
| Bitmap.FlipBit | pintos/src/lib/kernel/bitmap.c:185-194 | the exclusive or inverts that bit and keeps the others |
| Bitmap.UnpackedUpdate | pintos/src/lib/kernel/bitmap.c:36-47 | a change of bit i mod 32 of word i / 32 is a change of bit i of the map and of no other |
| Bitmap.MaskedWord | pintos/src/lib/kernel/bitmap.c:66-70 | the mask of the last word keeps its first bits and clears the rest |
| Bitmap.LastMasked | pintos/src/lib/kernel/bitmap.c:341-352 | masking the last word loses no bit of the map |
| Bitmap.BitArray.constructor | pintos/src/lib/kernel/bitmap.c:79-94 | all bits clear, whatever the words held |
| Bitmap.BitArray.Mark | pintos/src/lib/kernel/bitmap.c:157-166 | sets one bit of the map and no other |
| Bitmap.BitArray.Reset | pintos/src/lib/kernel/bitmap.c:170-179 | clears one bit and no other |
| Bitmap.BitArray.Flip | pintos/src/lib/kernel/bitmap.c:185-194 | inverts one bit and no other |
| Bitmap.BitArray.Test | pintos/src/lib/kernel/bitmap.c:198-202 | the bit itself |
| Bitmap.BitArray.SetMultiple | pintos/src/lib/kernel/bitmap.c:217-228 | sets the range and nothing else |
| Bitmap.BitArray.Contains | pintos/src/lib/kernel/bitmap.c:250-263 | true exactly when not all bits have the other value |
| Bitmap.BitArray.Scan | pintos/src/lib/kernel/bitmap.c:295-310 | the lowest group of bits with the value, and none only if there is none |
| Bitmap.BitArray.ScanAndFlip | pintos/src/lib/kernel/bitmap.c:319-326 | that group, inverted, and nothing else changed |
| Bitmap.BitArray.Read | pintos/src/lib/kernel/bitmap.c:341-352 | the map has the bits of whatever the read left in the words, the unused bits are clear also after a short read, and success is that the read was complete |
| MallocLayout.BlockToArena | pintos/src/threads/malloc.c:266-294 | block_to_arena undoes arena_to_block, its alignment check holds and the index is recovered |
| MallocLayout.BlockInPage | pintos/src/threads/malloc.c:284-294 | every block lies behind the header and inside the page |
| MallocLayout.ArenaFull | pintos/src/threads/malloc.c:76-85 | an arena has as many blocks as fit behind its header |
| MallocLayout.BlocksApart | pintos/src/threads/malloc.c:284-294 | two blocks of one size overlap only if they are the same |
| Malloc.InitDescs | pintos/src/threads/malloc.c:71-85 | seven descriptors, 16 to 1024 bytes, with the blocks that fit a page |
| Malloc.Allocator.constructor | pintos/src/threads/malloc.c:71-85 | the invariant holds at the start |
| Malloc.Allocator.GetPages | pintos/src/threads/palloc.c:70-101 | the lowest run of free pages of the word-packed map; null exactly when none was asked for or there is none |
| Malloc.Allocator.FreePages | pintos/src/threads/palloc.c:117-142 | gives back exactly those pages, which were in use |
| Malloc.Allocator.FindDesc | pintos/src/threads/malloc.c:100-104 | the smallest sufficient descriptor |
| Malloc.Allocator.NewArena | pintos/src/threads/malloc.c:124-146 | one free page cut into blocks, all on the free list |
| Malloc.Allocator.TakeBlock | pintos/src/threads/malloc.c:148-152 | the first free block, which was not in use |
| Malloc.Allocator.Malloc | pintos/src/threads/malloc.c:89-154 | a block disjoint from all in use, at least the requested size if and only if size + 12 does not exceed 2^32; null exactly when nothing was asked or there is no room; foreign pages untouched |
| Malloc.PageCountRoom | pintos/src/threads/malloc.c:107-119 | the pages requested hold the block if and only if size is at most 2^32 - 12 |
| Malloc.PageCountExactly | pintos/src/threads/malloc.c:109-112 | the fewest pages that hold header and request, and what the wrapped sums give |
| Malloc.WrappedRequest | pintos/src/threads/malloc.c:107-119 | a request of 2^32 - 1 bytes asks for one page |
| Malloc.CallocCatches | pintos/src/threads/malloc.c:158-177 | a product that does not fit is refused exactly when its low 32 bits are less than a factor; one that fits is asked for unless a factor is larger |
| Malloc.CallocSafeExactly | pintos/src/threads/malloc.c:158-177 | for a factor up to 2^31 every product is refused or asked for in full if and only if the factor is at most 2 |
| Malloc.CallocCutShort | pintos/src/threads/malloc.c:158-177 | 65600 times 65600 is asked for as 8392704 |
| Malloc.Allocator.Calloc | pintos/src/threads/malloc.c:158-177 | a new block apart from all in use, at least a times b bytes if and only if that is at most 2^32 - 12; null exactly when the product is refused or 0 or malloc has no room |
| Malloc.Allocator.ArenaOf | pintos/src/threads/malloc.c:266-282 | the assertions of block_to_arena hold for every block in use |
| Malloc.Allocator.PurgeBlocks | pintos/src/threads/malloc.c:241-251 | takes exactly the blocks of that arena off the list |
| Malloc.Allocator.Free | pintos/src/threads/malloc.c:218-264 | the block is no longer in use, every other one still is, the invariant holds and foreign pages are untouched |
| MallocHeap.LiveDisjoint | pintos/src/threads/malloc.c:87-154 | blocks in use never overlap and are not null |
| MallocHeap.LiveInArena | pintos/src/threads/malloc.c:266-282 | a block lies within the pages of its own arena |
| MallocHeap.FreeCountExact | pintos/src/threads/malloc.c:148-152 | free_cnt is the number of the arena's blocks on the free list, and every other block is in use |
| MallocHeap.FreeListsClean | pintos/src/threads/malloc.c:241-253 | no free list refers to a page that was given back |
| MallocHeap.NothingLeft | pintos/src/threads/malloc.c:218-262 | when every block has been given back no arena is left |
| MallocHeap.TakenSteady | pintos/src/threads/malloc.c:148-152 | taking a block keeps the invariant |
| MallocHeap.GivenSteady | pintos/src/threads/malloc.c:236-242 | putting a block back keeps the invariant |
| MallocHeap.CutSteady | pintos/src/threads/malloc.c:137-146 | cutting a page into blocks keeps the invariant |
| MallocHeap.ReleasedSteady | pintos/src/threads/malloc.c:241-253 | giving an arena back keeps the invariant |
| MallocHeap.BigTakenSteady | pintos/src/threads/malloc.c:107-119 | taking a multi-page block keeps the invariant |
| MallocHeap.BigGivenSteady | pintos/src/threads/malloc.c:257-262 | giving a multi-page block back keeps the invariant |
| Division.Divl | pintos/src/lib/arithmetic.c:25-37 | traps exactly when the quotient does not exist or does not fit 32 bits |
| Division.Nlz | pintos/src/lib/arithmetic.c:41-73 | the shift that brings the highest set bit to bit 31 |
| Division.SmallDivisor | pintos/src/lib/arithmetic.c:82-111 | division by a 32-bit divisor, one base-2^32 digit at a time |
| Division.DigitFits | pintos/src/lib/arithmetic.c:97-105 | that division never traps |
| Division.Estimate | pintos/src/lib/arithmetic.c:115-124 | the estimate is the quotient or one too large |
| Division.Normalised | pintos/src/lib/arithmetic.c:121-123 | the shifted divisor fits 64 bits and its top 32 bits are full |
| Division.Udiv64 | pintos/src/lib/arithmetic.c:77-127 | floor division for all 64-bit n and nonzero d; traps only for d = 0 |
| Division.Umod64 | pintos/src/lib/arithmetic.c:131-135 | the remainder modulo 2^32 |
| Division.UmodRightExactly | pintos/src/lib/arithmetic.c:131-135 | it is the remainder for every dividend if and only if the divisor is at most 2^32 |
| Division.Sdiv64 | pintos/src/lib/arithmetic.c:139-146 | truncates toward zero if and only if not INT64_MIN / -1, which gives INT64_MIN |
| Division.Smod64 | pintos/src/lib/arithmetic.c:150-154 | the truncated remainder modulo 2^32 as a signed number |
| Division.SmodRightExactly | pintos/src/lib/arithmetic.c:150-154 | it is the remainder for every dividend if and only if the divisor is of size at most 2^31 |
| Division.TruncatedBounds | pintos/src/lib/arithmetic.c:137-154 | that remainder is smaller than the divisor and has the dividend's sign |
| Division.RemainderCanBeLost | pintos/src/lib/arithmetic.c:131-154 | 2^32 mod 2^33 comes out as 0, and 2^31 mod 2^32, signed, as -2^31 |
| HeapSort.DoSwap | pintos/src/lib/stdlib.c:66-79 | exchanges two elements |
| HeapSort.Heapify | pintos/src/lib/stdlib.c:96-123 | restores the heap order from i on, rearranging only the first cnt elements, and terminates |
| HeapOrder.SiftStep | pintos/src/lib/stdlib.c:103-121 | one step down keeps the order everywhere but at the moved element |
| HeapOrder.RootLargest | pintos/src/lib/stdlib.c:146-151 | the root of a heap is its largest element |
| HeapSort.Settle | pintos/src/lib/stdlib.c:146-151 | moving the root behind the heap settles one more place |
| HeapSort.Sort | pintos/src/lib/stdlib.c:131-152 | a sorted permutation, for every array and every total preorder |
| HeapSort.BinarySearch | pintos/src/lib/stdlib.c:184-207 | an equal element if and only if the sorted array has one |
| Bits.MaskIsMod | pintos/src/lib/kernel/hash.c:305-310 | masking with a power of 2 less one is the remainder |
| Bits.LowBitOff | pintos/src/lib/kernel/hash.c:328-333 | turning off the lowest 1 bit keeps the highest |
| Bits.PowerTest | pintos/src/lib/kernel/hash.c:335-340 | is_power_of_2 is right |
| HashTable.IndexIsMod | pintos/src/lib/kernel/hash.c:305-310 | the bucket is the hash value modulo the bucket count |
| HashTable.BestBuckets | pintos/src/lib/kernel/hash.c:364-372 | the largest power of 2 not above elem_cnt / 2, at least 4 |
| HashTable.BestCountRatio | pintos/src/lib/kernel/hash.c:342-345 | then elem_cnt < 4 * bucket_cnt, and at least two elements per bucket beyond 4 buckets |
| HashTable.SearchOne | pintos/src/lib/kernel/hash.c:312-326 | equal elements share a bucket |
| HashTable.Hash.constructor | pintos/src/lib/kernel/hash.c:24-42 | an empty table |
| HashTable.Hash.Find | pintos/src/lib/kernel/hash.c:131-135 | an equal element if and only if the set has one |
| HashTable.Hash.MoveAll | pintos/src/lib/kernel/hash.c:387-410 | rehashing loses and duplicates nothing, and every element is where its hash says |
| HashTable.Hash.Rehash | pintos/src/lib/kernel/hash.c:351-413 | same elements; the best bucket count, or the old one if there is no memory |
| HashTable.Hash.Insert | pintos/src/lib/kernel/hash.c:98-110 | adds the element unless an equal one is there, which is returned |
| HashTable.Hash.Replace | pintos/src/lib/kernel/hash.c:114-127 | the new element takes the place of the equal one |
| HashTable.Hash.Delete | pintos/src/lib/kernel/hash.c:144-154 | removes and returns the equal element, if any |
| ArgvTokens.PackedWord | pintos/src/userprog/process.c:112-124 | each word stands null-terminated at its place in the packed form |
| ArgvStack.PushWords | pintos/src/userprog/process.c:112-124 | pushing backwards leaves the words of the line packed in order |
| ArgvStack.StartTest | pintos/src/userprog/process.c:133-143 | going down through the words exactly their first characters pass the test |
| ArgvStack.PushPointers | pintos/src/userprog/process.c:131-143 | a pointer to every word, in order |
| ArgvStack.LaidFinds | pintos/src/userprog/process.c:125-147 | a stack laid out like this reads back as those words |
| ArgvStack.LoadStack | pintos/src/userprog/process.c:96-147 | for every line and a page of any size that holds it: argc is the number of words, argv[k] points to word k, argv[argc] is null, the argc cell is 16-byte aligned, exactly the computed number of bytes is pushed and nothing below is touched |
| ArgvStack.LineBounds | pintos/src/userprog/process.c:112-124 | how long the packed words of a line can be and how many there can be |
| ArgvStack.LinesFitExactly | pintos/src/userprog/process.c:96-147 | all lines of n characters fit a page if and only if n is at most 1360 |
| OctalText.FormatOctal | pintos/src/lib/stdio.c:470-547 | prints a number in octal with leading zeros, cut to the buffer |
| OctalText.PrintedFits | pintos/src/lib/stdio.c:45-52 | a number of that many digits fills its field and the null byte |
| OctalText.ParseOctal | pintos/src/lib/ustar.c:129-162 | the value of the digits before a space or null byte, refused when empty, unterminated or above 32 bits |
| OctalText.FieldRoundTrip | pintos/src/lib/ustar.c:129-162 | a printed number is read back |
| UstarLayout.FieldsDetermine | pintos/src/lib/ustar.c:10-33 | the fields cover the header: equal fields, equal headers |
| UstarLayout.CalculateChksum | pintos/src/lib/ustar.c:36-54 | the byte sum with spaces in the checksum field |
| UstarLayout.SumIgnores | pintos/src/lib/ustar.c:36-54 | the checksum does not depend on its own field |
| UstarLayout.StripPrefixes | pintos/src/lib/ustar.c:65-73 | removes every leading "/", "./" and "../" |
| UstarLayout.StripSafe | pintos/src/lib/ustar.c:56-73 | a stripped name is not empty, has no such prefix, is not "..", and is the end of the given name or "." |
| UstarLayout.StripIdempotent | pintos/src/lib/ustar.c:65-73 | stripping twice is stripping once |
| Ustar.Put | pintos/src/lib/ustar.c:99-112 | writes one field and no byte outside it |
| Ustar.MakeHeader | pintos/src/lib/ustar.c:82-118 | fails exactly for stripped names over 99 characters, else every field of the header is as specified, checksum included |
| Ustar.HeaderText | pintos/src/lib/ustar.c:99-118 | some fields byte by byte: permissions, owner, type, magic, version and names |
| Ustar.ParseHeader | pintos/src/lib/ustar.c:181-227 | which of the end mark, an entry or one of the refusals a header means |
| Ustar.ParseSound | pintos/src/lib/ustar.c:181-227 | an accepted header has the magic and its own checksum, a stripped name of 1 to 99 characters without a listed prefix, one of the two types and a size from 0 to INT_MAX, 0 for directories |
| Ustar.AcceptedExactly | pintos/src/lib/ustar.c:190-227 | byte by byte which headers are accepted, which one is the end of the archive, and which name, type and size an accepted one gives |
| Ustar.RoundTrip | pintos/src/lib/ustar.c:82-227 | parsing undoes making: stripped name, type and size; 0 for directories; a negative size is refused |
| PathResolution.GetNextPart | pintos/src/filesys/directory.c:323-344 | the next part of a path, that there is none, or that it is too long |
| PathResolution.GetLastPart | pintos/src/filesys/directory.c:348-359 | the last part, unless some part is too long; the buffer as it was when there is none |
| PathResolution.GetInode | pintos/src/filesys/directory.c:368-441 | what a path leads to; fails an ASSERT exactly when the walk does |
| PathResolution.ResolveExactly | pintos/src/filesys/directory.c:368-441 | a path leads to x if and only if the lookups from the root, for an absolute path, or from the working directory, for any other, pass through inodes none of which is to be removed and end at x; "/" alone always leads to the root |
| PathResolution.PathPanicsExactly | pintos/src/filesys/directory.c:368-441 | the same for the paths that fail the ASSERT of dir_lookup |
| PathResolution.NameAlone | pintos/src/filesys/directory.c:395-399 | a name alone is looked up in the working directory, and behind a separator in the root |
| PathResolution.OtherOriginIgnored | pintos/src/filesys/directory.c:395-399 | a relative path means the same whatever the root is and an absolute one whatever the working directory is |
| PathResolution.PanicsExactly | pintos/src/filesys/directory.c:142-163 | a walk fails the ASSERT of dir_lookup if and only if it comes to an inode without ".." and that is the next part |
| PathResolution.NoPathPanics | pintos/src/filesys/directory.c:142-163 | no path fails it if and only if every inode that a path from the root or the working directory comes to has an entry "..", files included |
| PathResolution.PathAlong | pintos/src/filesys/directory.c:323-344 | every sequence of parts is that of a path from either origin |
| PathResolution.FilesEndWalksExactly | pintos/src/filesys/directory.c:424-440 | a file in the middle ends every walk if and only if no file that stays has bytes in which some name is found and leads to an inode that stays |
| PathResolution.StrictSame | pintos/src/filesys/directory.c:424-440 | in such a tree the walk is the one that stops at files |
| PathResolution.Lookup | pintos/src/filesys/directory.c:101-122 | the loop over the 20-byte entries of an inode finds the sector of the first one in use with that name |
| PathResolution.NamedIsEntry | pintos/src/filesys/directory.c:101-122 | which bytes make an entry in use with that name |
| PathResolution.LookupLowest | pintos/src/filesys/directory.c:101-122 | none if and only if no entry in use has the name, else that of the lowest |
| PathResolution.PathsThroughFile | pintos/src/filesys/directory.c:424-454 | a tree with a file f in which f/x resolves through its bytes, the directory of f/x fails an ASSERT and f/.. fails another |
| PathResolution.WalkSplit | pintos/src/filesys/directory.c:401-440 | walking along parts is walking along all but the last and one lookup |
| PathResolution.FrontAndLast | pintos/src/filesys/directory.c:457-475 | the parts of a path are the parts of its front and its last word |
| PathResolution.FrontSplits | pintos/src/filesys/directory.c:457-475 | a path with parts is its front, its last word and separators |
| PathResolution.FrontOfNone | pintos/src/filesys/directory.c:457-475 | a path without parts has an empty front, so that its directory is the working directory, also for "/" |
| PathResolution.FrontOf | pintos/src/filesys/directory.c:457-475 | the two backward loops leave the path up to its last part, for every path, and read the byte before the copy if and only if that is empty |
| PathResolution.GetSubdir | pintos/src/filesys/directory.c:443-475 | what the front of the path leads to; fails an ASSERT exactly when the walk does or that is not a directory |
| PathResolution.ResolveSplit | pintos/src/filesys/directory.c:457-475 | resolving a path is resolving its front and looking its last part up there |
| PathResolution.ParentAndName | pintos/src/filesys/directory.c:368-475 | get_subdir_from_path and get_last_part lead where the path leads, in the failing cases too, with the exact condition of the failing ASSERT |
| ScheduleModel.StreamOk | schedlab/scheduling.ipynb:71-86 | the task stream is the tasks in order of arrival, those that arrive together in the given order |
| ScheduleModel.InsertStable | schedlab/scheduling.ipynb:71-86 | placing a task keeps the order of those that arrive together |
| Scheduler.RunThread | schedlab/scheduling.ipynb:137-173 | never beyond quantum, burst or task; positive while anything is left; each status exactly when it applies |
| ScheduleHistory.RunTold | schedlab/scheduling.ipynb:356-358 | the front of the queue runs for the least of quantum, rest of its burst and rest of its task |
| ScheduleHistory.BlockTold | schedlab/scheduling.ipynb:227-233 | at the end of a burst a thread waits from then on for just the I/O time of its task |
| ScheduleHistory.RequeueTold | schedlab/scheduling.ipynb:361-362 | a thread that is cut short joins the queue at the back |
| ScheduleHistory.EnterTold | schedlab/scheduling.ipynb:235-242 | a thread arrives once, at its task's time, and joins the queue at the back |
| ScheduleHistory.WakeTold | schedlab/scheduling.ipynb:244-251 | a thread wakes up at the end of its wait and joins the queue at the back |
| ScheduleHistory.StopFaithful | schedlab/scheduling.ipynb:347-364 | at the end the whole log is that of such a queue and of complete lives |
| ScheduleModel.EnterGood | schedlab/scheduling.ipynb:235-242 | an arrival keeps every account |
| ScheduleModel.WakeGood | schedlab/scheduling.ipynb:244-251 | a wakeup keeps every account |
| ScheduleModel.DequeueGood | schedlab/scheduling.ipynb:323-326 | the time in the queue is charged to the thread |
| ScheduleModel.AdvanceGood | schedlab/scheduling.ipynb:268-276 | a run is charged to its thread and to no other |
| ScheduleModel.BlockGood | schedlab/scheduling.ipynb:227-233 | an I/O wait is charged in full |
| ScheduleModel.RestGood | schedlab/scheduling.ipynb:254-266 | idling is charged to nobody |
| ScheduleModel.PromptStep | schedlab/scheduling.ipynb:195-281 | no step makes an event fall before the end of an earlier idle period |
| ScheduleModel.RestPrompt | schedlab/scheduling.ipynb:254-266 | idling up to the next event oversleeps none |
| ScheduleModel.AllAddsUp | schedlab/scheduling.ipynb:347-364 | at the end each finish minus arrival is total plus queue time plus I/O waits |
| ScheduleLog.ContiguousAppend | schedlab/scheduling.ipynb:195-281 | runs and idle periods follow one another without gap or overlap |
| Scheduler.Machine.constructor | schedlab/scheduling.ipynb:202-212 | the accounts hold at the start |
| Scheduler.Machine.Arrivals | schedlab/scheduling.ipynb:235-252 | afterwards nothing due is left waiting, and no run time or thread is lost |
| Scheduler.Machine.NextStart | schedlab/scheduling.ipynb:217-225 | the earliest coming arrival or wakeup, which is later than now, or none exactly when nothing is pending |
| Scheduler.Machine.IdleUntil | schedlab/scheduling.ipynb:254-266 | idling ends at that event and no later, with a thread in the queue |
| Scheduler.Machine.Turn | schedlab/scheduling.ipynb:352-362 | first in, first out: the thread at the front runs now, the others keep their places before any newcomer; time in the task or the number of pending threads moves, and the log stays that of a queue and of threads as below |
| Scheduler.Machine.PutBack | schedlab/scheduling.ipynb:359-362 | a thread at the end of its burst waits for the I/O its task asks for, one that is cut short goes to the back of the queue behind all that came during its run, and a finished one goes |
| Scheduler.Machine.Schedule | schedlab/scheduling.ipynb:347-364 | for every workload and quantum the loop terminates, every task has run exactly its total, all times add up, idling oversleeps nothing and happens only with an empty queue, and the log is that of a first-in first-out queue in which every thread has a complete life |

## Left out

- Buffer cache: one device only, since the cache is keyed by sector alone; failure of `malloc` for a new entry; that every call returns under a fair scheduler (the theorems give deadlock freedom, a bounded eviction search and the return of a call on its own).
- Buffer cache locks: acquiring a lock and recording its holder are one step here; the locks themselves are proved in `SynchSafety`.
- BufferCacheSafety.NeverPanics: says nothing about the waiting path after a failed `sema_try_down`, at which a thread stops in `BufferCache`; `BufferCacheWaiting.AssertsHoldExactly` does.
- Inode.FileSystem.Create: a new file of more than twelve blocks in a sector whose indirect words do not lead to index sectors of nobody else, such as a sector of arbitrary data, where the code stores into whatever sectors they name; up to twelve blocks, and in the sector of a removed file, every case is covered.
- Inodes: operations run one at a time; open counts and reopening, so closing is that of the last opener; the free map's own file; the free map is a sequence of bits here, which `Bitmap.BitArray` packs; the `_no_buffer` variants; offsets beyond the index as signed 32-bit values; the kernel stack, of which the array in `can_allocate` takes 4 bytes for each sector asked for, so that asking for about a thousand at once overruns it.
- Synch: priority donation, the multi-level feedback scheduler and alarms, which `thread.c` does not implement; the interrupt controller, context switch and idle loop, which are single steps.
- Wait protocol: `WaitProtocol` takes the locked change of a count as one step, which `WaitRef` takes apart for one record; the initial thread, which has no `wait_status` and is only a parent here; loading of executables; failure of page allocation in `thread_create`.
- LinkedList.Splice: within one list only, as `list_sort` uses it; `list_reverse`, `list_unique` and `list_insert_ordered` would only add easy members.
- Malloc: operations run one at a time, since each takes its descriptor's lock; `realloc` and the contents of blocks; the user pool, and the split of memory between the pools.
- Bitmap: `bitmap_count`, `bitmap_any`, `bitmap_none` and `bitmap_dump`; the single-instruction updates of words by several threads at once.
- HeapSort: elements are whole values, not runs of bytes, and `do_swap` exchanges them at once.
- HashTable: buckets are sequences, so the pointers of their lists are not modelled here; `hash_apply`, `hash_clear` and iteration.
- ArgvStack.LoadStack: what is overwritten below the page by a line that does not fit it; `ArgvStack.LinesFitExactly` says for which lengths there is one.
- Ustar: the messages printed for a refused name.
- PathResolution: reference counts and directory locks; `dir_add` and `dir_remove`; paths longer than PATH_MAX, which overrun the copy in `get_subdir_from_path`; what a part that is too long leaves in the caller's buffer.
- Scheduler: the queue length and weight recorded in log entries, and printing; SRTFQueue and TwoLevelFeedbackQueue, whose bodies are empty.
- Device drivers, the syscall dispatcher, user pointer checks, page directories, fsutil and the test programs.

# dmaos, verified

This project models the storage engine, the name space, the system calls on files, the memory manager, the scheduler, the
virtqueue drivers and the image builder of dmaos, a 32-bit RISC-V operating system, and proves what they promise.
`dafny verify dfyconfig.toml` checks all of it. Nothing was executed.

## What is modelled

- **Storage** (`Codec`, `Layout`, `Forest`, `Contents`, `Volume`, `Runs`). A disk is a sequence of 1024-byte blocks and is
  only ever changed by writing whole blocks, as in the kernel; inode records, index tables and the bitmap are decoded
  from bytes. The invariant is a ghost *forest*: a bijection between the index tables and data blocks of all inodes and
  the blocks they live in. Every entry of every inode and table is what the forest says, and the bitmap marks exactly
  the metadata and the forest. `Runs.Run` then says that any sequence of operations acts on files as byte sequences.
- **Image builder** (`Mkfs`, `Images`). The one-pass writer keeps up to three tables in memory; a *view* is the disk with
  those tables and the bitmap laid over it, and the storage invariant holds of the view after every block. `Images.Build`
  covers whole host trees: an image is made exactly if the tree fits, and `Images.Open` says what the kernel finds on it.
- **Names** (`Directory`, `Items`, `Entries`, `Namespace`, `Paths`, `Tree`, `Mounts`). Directories are finite maps stored in
  files. The inodes of a device are *items*: unused, a file's bytes, or a directory's names; they form a tree if the dots
  are right, every inode in use has exactly one name, and the chain of ".." from every directory ends at the root. The walk
  of a path over two devices joined at a mount point agrees with the lexical normal form that `chdir` keeps.
- **System calls** (`World`, `Replay`, `Tables`, `Kernel`, `Files`, `Changes`, `Syscalls`, `Run`, `Boot`). `World` says
  what each call does to what programs see: items, open files, descriptors, current directories. `Kernels.Kernel` has the
  real tables: an inode cache whose slots are read once and then live on what the kernel leaves in them, open files,
  descriptors, reference counts, and two volumes. Every call on the real tables is proved to have exactly the effect and
  the answer that `World` gives it; and what `World` gives is described again in other terms by the next part. `held`
  and `loose` are ghost: the references that the running code has. Device 0 is never in a `modifies` clause.
- **What programs can rely on** (`Descriptors`, `Places`, `Lives`). What each call answers and when, and what later reads,
  writes and walks then find, said of the calls alone: what was written, cut, opened, made, removed or left. No call of one
  process touches the descriptors or the place of another.
- **Memory** (`Ram`, `Memory`), **processes** (`Scheduler`) and **devices** (`InputRing`, `BlockDevice`).
- **The whole** (`Computer`, `Session`). Files, memory and scheduler each have a view of the process table; one state
  machine says what every event does to all of them, and they agree after every event. `Session.Session` goes from two host
  trees to the answers of any calls, `Session.RunComputer` to those of any events.

A PANIC halts the machine: it is a result (`Panic`, `Halt`, `Stop`, `None`, `null`, or `ok == false`) after which nothing
more is claimed, except the reason for it. The reasons are a full disk, a full inode cache, full memory, no process slot, and
at the start a bad superblock or no "home". Values the kernel takes from a device (delay, status, interleaving, keys) are
parameters.

## Where the code does not do what one would expect

- The superblock that the builder writes declares 64 inodes, but the image has room for 32. `Hazards.ShippedScan` says
  exactly when `ialloc` does not notice: as long as one of the inodes 1 to 31 is unused. `Hazards.ShippedOverrun`,
  `Hazards.ShippedClaim` and `Hazards.ShippedMarks` say what it takes and damages otherwise; runs and sessions end there,
  with the answer `Beyond`. `Mkfs.ImageConsistentIff` and `Images.Build` say exactly when an image is consistent. All other
  results take a volume with the records that fit before the bitmap (`Superblock.Fitting`), whatever number is declared.
- A file that is removed while open can still be written; `Runs.WriteKeepsUnusedEmpty` and `Hazards.ReuseIff` say exactly
  when that leaks blocks. Removing it and reading it are covered whoever has it open.
- `fs_rm` accepts the dots; what it lets through keeps the tree exactly if the name is not one of them (`Items.RemoveIff`).
- A directory can be opened for writing; `Entries.CutKeepsTreeIff`, `Entries.ClearKeepsTreeIff` and
  `Entries.WriteKeepsTreeIff` say exactly when the tree survives, `Syscalls.TruncateDirectory` and
  `Syscalls.ClearDirectory` the same of the calls. Runs end at such a call, with counts and blocks still right; `Run.RunOn`
  goes on from there with calls on descriptors.
- Removing the current directory of a process makes its path lead nowhere; `Replay.LossAgree` says that this is the only way.
- A failed spawn loses one inode reference and up to three files (`Syscalls.Spawn`), and a number of pages that
  `Memory.Machine.SpawnNotFound` gives; `Computers.Computer.RunEvents` says that over any run nothing else is lost.
- The keyboard driver reads an event after it has handed the buffer back. `InputRing.PollReadsOldest` and
  `InputRing.PollReadsLater` give the number of buffers that the device may take meanwhile, and show that it is tight.
- Deeper than 32 levels of directories `cwd_path` stops following the current directory (`Tree.TooDeep`).

## Model

| member | source | states |
|---|---|---|
| Codec.WordsRoundTrip | kernel/fs.c:680-687 | an index table written to a block as little-endian words is read back unchanged |
| Codec.BitsRoundTrip | kernel/fs.c:606-616 | the bitmap, eight bits to a byte, is read back unchanged after a block write |
| Codec.InodesRoundTrip | kernel/fs.c:593-604 | the eight inode records of a block are read back unchanged, so rewriting one keeps the other seven |
| Layout.HomeInjective | kernel/fs.c:107-175 | no two blocks or tables of a file are recorded in the same entry |
| Layout.PresentGrow | kernel/fs.c:654-733 | mapping one more block needs its chain of tables and nothing else |
| Layout.RemainsStep | kernel/fs.c:785-880 | one turn of the truncation loop removes the block, and its second-level table with the last block of it |
| Layout.LastOfMeaning | kernel/fs.c:840-852 | a second-level table is freed exactly when no other block of it remains |
| Layout.SuperRoundTrip | shared/fs_shared.h:34-41 | the kernel reads from block 1 the superblock that the builder writes there |
| Forests.LinkInInode | kernel/fs.c:660-667 | storing a fresh zeroed block in an empty inode entry keeps the ownership invariant, with that block added |
| Forests.LinkInTable | kernel/fs.c:680-687 | the same for an empty entry of an index table |
| Forests.UnlinkInInode | kernel/fs.c:796-802 | clearing an inode entry and its bitmap bit removes exactly that block from the forest |
| Forests.UnlinkInTable | kernel/fs.c:803-852 | the same for an entry of an index table |
| Contents.BmapFinds | kernel/fs.c:107-175 | `bmap` returns the address of every mapped block and panics exactly on the unmapped ones |
| Contents.BmapInjective | kernel/fs.c:107-175 | no two blocks of any files share an address, and none is metadata |
| Contents.WroteFile | kernel/fs.c:735-771 | writing through the block map overwrites exactly that range of the file's bytes |
| Contents.WroteOther | kernel/fs.c:735-771 | and changes no byte of any other file |
| Volumes.Volume.Balloc | kernel/fs.c:606-624 | takes the first free block, zeroes it and marks it; panics exactly if none is free |
| Volumes.Volume.Bfree | kernel/fs.c:773-783 | clears the bit of a block in use; freeing a free block is a panic |
| Volumes.Volume.Iupdate | kernel/fs.c:593-604 | replaces one inode record and no other |
| Volumes.Volume.BmapAlloc | kernel/fs.c:654-733 | returns the mapped address or maps the block with the tables it needs; all other mappings stay, and it agrees with `bmap` |
| Volumes.Volume.EnsureDeepLeaf | kernel/fs.c:693-729 | the double-indirect case: root, second-level table and block are created as needed and nothing else moves |
| Volumes.Volume.Readi | kernel/fs.c:180-216 | never panics; returns exactly the requested slice clamped to the size, or -1 for a bad offset or a wrapping sum |
| Volumes.Volume.WriteChunk | kernel/fs.c:752-764 | one turn of the write loop replaces that part of one block of the file |
| Volumes.Volume.Writei | kernel/fs.c:735-771 | replaces exactly `[off, off+n)`, extends the size as needed, leaves every other file's bytes and record alone, and panics only on a full disk |
| Volumes.Volume.DropDeepLeaf | kernel/fs.c:817-855 | frees a double-indirect block, and its table exactly if it became empty |
| Volumes.Volume.Itrunc | kernel/fs.c:785-880 | keeps the prefix, frees exactly the blocks and tables that the shorter file does not need, never frees a free block, keeps all other files |
| Volumes.Volume.Ialloc | kernel/fs.c:626-652 | claims the first unused record from 1 on and changes no other record; otherwise none of the records that lie before the bitmap is unused, nothing has changed, and the scan goes on past them exactly if the superblock declares more; no file changes and the invariant stays if the record was empty |
| Volumes.Volume.Discard | kernel/fs.c:1258-1261 | the end of `fs_rm`: the file is empty, its record unused, every other file as before |
| Runs.Claim | kernel/fs.c:626-652 | claims the first unused file of the sequence from 1 on; it stops exactly if that file still owns blocks, and then no ownership fits the disk any more, or if there is none and the superblock declares more records |
| Runs.Do | kernel/fs.c:626-880 | each operation changes the files as plain byte sequence operations would, or stops for a reason that is given |
| Runs.Run | kernel/fs.c:626-880 | so does any sequence of operations; the ownership invariant holds at its end; it stops only on a full disk, at a create that finds an unused record that owns blocks, or at one that finds no record where more are declared |
| Runs.BytesAreLast | kernel/fs.c:626-880 | after any sequence of operations every position of every file has what was last put there, and no file is longer than that |
| Runs.AppendThenTruncate | kernel/fs.c:735-880 | appending and truncating back restores the bitmap bit for bit, the block map and the file |
| Runs.WriteKeepsUnusedEmpty | kernel/fs.c:735-771 | a write keeps unused records free of blocks exactly if the inode is in use or nothing is written |
| Hazards.ForestUnique | kernel/fs.c:107-175 | disk and records determine who owns which block: the ghost forest is not a choice |
| Hazards.ReuseIff | kernel/fs.c:626-652 | claiming a record keeps the disk consistent if and only if the record had size 0 |
| Hazards.Orphan | kernel/fs.c:626-652 | otherwise no ownership fits the new state: the old first block is marked and owned by nobody |
| Hazards.ShippedLayout | tools/mkfs.c:366-373 | of the 64 inodes of the shipped layout exactly those below 32 lie before the bitmap, 32 to 39 lie in it, and the rest in data blocks 7 to 9 |
| Hazards.PatchedRecord | kernel/fs.c:634-637 | the block that `ialloc` writes back decodes to the old records with the claimed one replaced |
| Hazards.ClaimKeepsBlockIff | kernel/fs.c:629-638 | on any layout a claim leaves a block alone if and only if the record is not in it, and so the bitmap |
| Hazards.ShippedClaim | kernel/fs.c:629-638 | on the shipped layout a claim leaves everything from the bitmap on as it was if and only if the inode number is below 32; 32 to 39 change the bitmap, 40 to 63 a data block |
| Hazards.ShippedMarks | kernel/fs.c:629-638 | exactly which marks a claim of inode 32 + k loses: those of blocks 1024k to 1024k + 1023, of which two are set instead; all others stay |
| Hazards.Record32InUse | kernel/fs.c:629-633 | inode 32 starts at the mark of block 0 and is therefore never taken for unused |
| Hazards.Claim33 | kernel/fs.c:629-638 | with blocks 1024 to 1039 free and those up to 2047 in use, claiming inode 33 frees the mark of a block in use |
| Hazards.ShippedScan | kernel/fs.c:629-648 | the scan of the 64 declared records finds the same record as one of the 32 that fit if and only if one of numbers 1 to 31 is unused; and it leaves the same disk if and only if that is so or nothing looks unused anywhere |
| Hazards.ShippedIalloc | kernel/fs.c:626-652 | on the shipped layout `ialloc` of the model takes the record that the scan of all 64 takes and writes the same records, unless none of numbers 1 to 31 is unused |
| Hazards.ShippedOverrun | kernel/fs.c:629-648 | otherwise, on every image whose marks are those of the builder and cover at most 1024 blocks, the scan takes inode 33, which lies in the bitmap |
| Mkfs.NeedGrows | tools/mkfs.c:198-258 | the blocks that a file and its tables take grow with the file |
| Mkfs.Builder.Balloc | tools/mkfs.c:25-33 | hands out blocks in order and marks them; fails exactly when the image is full |
| Mkfs.Builder.PutBlock | tools/mkfs.c:198-258 | one turn of the loop: seen with the buffered tables in place, the block is appended to the file and the invariant holds; it fails exactly if the block and the tables it is the first to need do not fit |
| Mkfs.Builder.PutDeepLeaf | tools/mkfs.c:216-253 | crossing into a new second-level table flushes the old one, and no block is lost |
| Mkfs.Builder.Flush | tools/mkfs.c:261-278 | after the final flush the disk is exactly what the view showed |
| Mkfs.Builder.AddFile | tools/mkfs.c:142-278 | the new inode holds exactly the host file's bytes, every other file is unchanged; fails exactly if there is no inode or the file and its tables do not fit |
| Mkfs.Builder.AddDirectory | tools/mkfs.c:85-97 | claims the next inode for a directory without touching any file; fails exactly if there is none |
| Mkfs.Builder.WriteDirectory | tools/mkfs.c:409-437 | stores a directory's entries in at most 12 direct blocks, every other file is unchanged; fails exactly if they do not fit |
| Mkfs.Builder.Finish | tools/mkfs.c:439-455 | the image holds the superblock, the first 32 inode records and the bitmap, which marks exactly the blocks handed out; every file is as it was |
| Mkfs.FirstBlockIs | tools/mkfs.c:366-378 | block 1 of every image declares 64 inodes, of which the first 32 fit |
| Mkfs.Mount | tools/mkfs.c:439-455 | a finished image on which no inode from 32 on has contents is a valid volume with the builder's records and bytes, and 64 inodes declared |
| Mkfs.ImageConsistentIff | tools/mkfs.c:439-455 | an image is consistent if and only if no inode from 32 on has contents |
| Mkfs.LostBlock | tools/mkfs.c:439-455 | the blocks of such an inode are marked but belong to no record of the image |
| Images.EntryReads | tools/mkfs.c:103-112 | an entry copied with `strcpy` reads as its name, whatever was behind the terminating zero |
| Images.AddEntry | tools/mkfs.c:114-136 | the entry goes to the directory found by its inode number and to no other; it is refused exactly at 64 entries |
| Images.AddHost | tools/mkfs.c:318-345 | a file or directory that the traversal comes across is added to the tree as planned; fails exactly for want of an inode number below 64, for its name, its size, a full directory or want of blocks |
| Images.AddHosts | tools/mkfs.c:309-347 | so is everything that the traversal comes across, up to 62 things; the test for a full directory never fires |
| Images.WriteDirs | tools/mkfs.c:409-437 | every directory gets the blocks that its entries need; fails exactly if they need more than are left |
| Images.PlannedTree | tools/mkfs.c:309-347 | what is put in is a tree, whatever the number of inodes |
| Images.PlannedHas | tools/mkfs.c:318-345 | each thing that was put in is in its directory under its name, a file with its bytes |
| Images.Build | tools/mkfs.c:349-455 | from any host tree an image is made if and only if it fits (62 things, names, sizes, blocks), with exactly those names and contents in the builder's records; it is consistent if and only if everything after the first 30 things is an empty file |
| Images.FewEntries | tools/mkfs.c:127-131 | no directory has more names than inode numbers were given out |
| Images.BufNeedIs | tools/mkfs.c:409-437 | the blocks of all directories, counted in the order in which they are written |
| Images.SmallIff | tools/mkfs.c:439-455 | the names among the first 32 records are a tree if and only if there are at most 30 things |
| Images.Open | tools/mkfs.c:366-455 | on a consistent image the kernel finds a sound volume with the first 30 things and a superblock that declares 64 inodes; its names are a tree if and only if there were at most 30 |
| Images.FullImage | kernel/fs.c:629-648 | on an image of 30 things in at most 1024 blocks, the first create takes inode 33, in the bitmap |
| Ram.WalkIsTranslation | kernel/page.c:45-65 | the two-level table walk computes the ghost translation map, for every process and virtual page |
| Ram.AddTable | kernel/page.c:55-59 | a new second-level table changes no translation and has one owner |
| Ram.SetEntry | kernel/page.c:61-64 | writing a second-level entry is a point update of the translation |
| Ram.AddUser | kernel/page.c:61-64 | mapping a reserved page gives it exactly one owner |
| Ram.DropUser | kernel/kernel.c:536-544 | unmapping frees the page that was mapped and no other |
| Ram.DropProcess | kernel/process.c:216-246 | freeing all pages of a process leaves the pages and translations of all others intact |
| Memory.Machine.constructor | kernel/page.c:8-10 | at the start nothing is in use, nothing is owned and there is no process |
| Memory.Machine.AllocPages | kernel/page.c:11-30 | first fit: the lowest run of free pages, zeroed and marked; fails exactly if there is no run |
| Memory.Machine.FreePages | kernel/page.c:32-43 | clears exactly the marks of that run; refuses addresses outside RAM |
| Memory.Machine.EnsureTable | kernel/page.c:54-59 | finds or creates the second-level table; no other page changes owner, and no user page its contents |
| Memory.Machine.MapPage | kernel/page.c:45-65 | refines a point update of the translation map and keeps every page singly owned; no user page changes its contents |
| Memory.Machine.Grow | kernel/kernel.c:555-566 | the heap loop maps exactly the pages up to the new end, zeroed, for the user to read and write, and changes no other user page |
| Memory.Machine.Shrink | kernel/kernel.c:530-547 | the shrinking loop unmaps and frees exactly the pages above the new end, never outside RAM |
| Memory.Machine.Sbrk | kernel/kernel.c:519-578 | moves the heap end and maps exactly its pages, new ones zeroed and with the user's rights, or returns -1 and changes nothing; translations and memory contents of other processes are untouched, and the own contents when growing |
| Memory.Machine.HeapFits | kernel/kernel.c:519-578 | by counting physical pages, no heap reaches the device pages |
| Memory.CountUser | kernel/page.c:8-30 | a process with n consecutive user pages owns n different physical pages |
| Memory.UserFits | kernel/page.c:8-30 | so its user area is at most as long as RAM |
| Memory.Machine.GrowThenShrink | kernel/kernel.c:519-578 | growing by k and shrinking by k restores every translation, for every k; only full memory stops it |
| Memory.Machine.MapKernel | kernel/process.c:75-80 | the kernel and all of RAM are mapped to themselves; nobody owns a page of it and user space stays empty |
| Memory.Machine.MapDevices | kernel/process.c:82-85 | the three device pages are mapped to themselves |
| Memory.Machine.NewSpace | kernel/process.c:75-86 | a new address space maps the kernel, RAM and the devices to themselves; it has a first-level table, the second-level tables of kernel and devices, and no other page |
| Memory.Machine.MapImage | kernel/process.c:99-117 | the image occupies exactly its pages from the user base on, byte for byte and zeros behind it, with the user's rights; no other user page changes |
| Memory.Machine.CreateProcess | kernel/process.c:75-176 | a new process has the bytes of its image, an empty heap behind it, and disturbs neither translations nor memory of another |
| Memory.LoadedByte | kernel/process.c:99-117 | what the process reads at the user base plus i, by the walk of its page tables, is byte i of the image |
| Memory.Machine.SweepTables | kernel/process.c:219-242 | the sweep frees each user page and second-level table of the process exactly once |
| Memory.Machine.FreeProcessPages | kernel/process.c:202-246 | frees exactly the pages that the process owns; the memory of all others stays |
| Memory.Machine.Lifetime | kernel/process.c:25-246 | creation, any sbrk calls and reaping restore the allocation map and all translations, and leave the memory of all others alone; only full memory stops it |
| Memory.Machine.SpawnNotFound | kernel/process.c:91-95 | a spawn of a missing program leaves exactly the second-level tables of kernel and devices in use and owned by nobody, and how many that is; everything else is as before, and the invariant holds with those pages set aside |
| Memory.LostCount | kernel/process.c:75-95 | that number, from where the kernel starts and where RAM ends |
| Memory.Machine.RunOps | kernel/process.c:25-246 | any interleaving of creations, failed spawns, heap changes and ends of the processes keeps every page singly owned and kernel and devices mapped in every address space; the pages lost are a fixed number for each failed spawn; once no process is left, exactly those and the pages reserved before are in use |
| Memory.Machine.NobodyLeft | kernel/process.c:202-246 | without processes nothing is in use but what is reserved |
| Scheduler.PickFirst | kernel/process.c:290-299 | the scan picks the runnable process that is cyclically nearest to the current pid |
| Scheduler.IdleOnlyAlone | kernel/process.c:290-304 | the idle process is picked if and only if no other is runnable |
| Scheduler.DoValid | kernel/process.c:290-403 | yield, exit, spawn and reap keep the process table well formed |
| Scheduler.YieldSelects | kernel/process.c:290-321 | a switch changes the current process alone: to the first behind it that can run, or to the idle process exactly if none can |
| Scheduler.ExitLeaves | kernel/process.c:195-200 | the current process has exited, another one runs, and no other slot changes |
| Scheduler.SpawnTakes | kernel/process.c:27-39 | the first unused slot can run, with its number plus one as pid, and no other slot changes |
| Scheduler.ReapFrees | kernel/process.c:395-398 | the slot is unused and its pid nobody's, and no other slot changes |
| Scheduler.ExitedStays | kernel/process.c:290-403 | over any run until its slot is freed, no switch selects a process that has exited, and it can be found by its pid and freed |
| Scheduler.ExitIsFinal | kernel/process.c:195-200 | so a process never runs again after its exit |
| Scheduler.SwitchApproaches | kernel/process.c:290-321 | a switch selects a given runnable process or comes strictly closer to it |
| Scheduler.SelectedInTime | kernel/process.c:290-321 | within as many switches as its distance it is selected, whatever happens in between |
| Scheduler.BoundedWaiting | kernel/process.c:290-321 | a process that stays runnable is selected within PROCS_MAX switches in every run |
| Scheduler.Kernel.constructor | kernel/process.c:17-21 | the idle process has slot 0 and pid 0, every other slot is unused |
| Scheduler.Kernel.Yield | kernel/process.c:290-321 | the loop computes the specified choice |
| Scheduler.Kernel.Exit | kernel/process.c:195-200 | exit and the yield after it are one step of the table (`Scheduler.ExitLeaves`) |
| Scheduler.Kernel.Spawn | kernel/process.c:25-39 | takes the first unused slot; fails exactly if there is none |
| Scheduler.Kernel.TryReap | kernel/process.c:386-402 | one look of `wait_process`: frees the first slot with the pid if its process has exited, tells that there is none, or that it still runs |
| InputRing.InitInv | kernel/virtio.c:322-331 | the initial rings offer each of the 16 buffers once |
| InputRing.SeeInv | kernel/virtio.c:322-357 | the device taking an offered buffer keeps the protocol invariant |
| InputRing.CompleteInv | kernel/virtio.c:334-357 | so does completing any buffer in flight, in any order; no pending entry is overwritten |
| InputRing.HandBackInv | kernel/virtio.c:340-349 | so does the driver's hand-back; the entry it writes is never one the device has yet to see, and it takes the oldest event |
| InputRing.Partition | kernel/virtio.c:334-357 | avail index minus last used index is 16 modulo 2^16, and each buffer is in exactly one of three places |
| InputRing.DevicesInv | kernel/virtio.c:334-357 | any sequence of device steps keeps the invariant |
| InputRing.PollReadsOldest | kernel/virtio.c:344-353 | a poll reads the oldest event if the device takes fewer buffers meanwhile than are on offer |
| InputRing.PollReadsLater | kernel/virtio.c:344-353 | and from every state that many takes and a completion make it read another event |
| InputRing.ReportsTell | kernel/virtio.c:350-356 | two events are reported alike exactly if neither is of a key, or both are releases, or both not, of the same key |
| InputRing.HeldIsDown | kernel/virtio.c:350-356 | a program that follows the reports knows of every key whether it is down |
| InputRing.Keyboard.constructor | kernel/virtio.c:286-332 | the rings as set up meet the invariant |
| InputRing.Keyboard.PollEvent | kernel/virtio.c:334-357 | takes one event exactly if one is pending and reports the key of the oldest one under that bound |
| InputRing.Keyboard.Run | kernel/virtio.c:334-357 | for every interleaving, across index wrap, the invariant holds, and if no buffer is taken inside a poll the keys come out in device order; a program that saw all reports then knows which keys are down |
| BlockDevice.Kick | kernel/virtio.c:165-188 | the descriptors form the request that the device expects, with exactly one entry outstanding |
| BlockDevice.Await | kernel/virtio.c:190-192 | the busy-wait ends after any delay with the request served once |
| BlockDevice.Answer | kernel/virtio.c:152-204 | after the answer the three indices agree again, and the medium was read or written as asked |
| BlockDevice.Driver.constructor | kernel/virtio.c:214-253 | with cleared queues nothing is outstanding on either drive |
| BlockDevice.Driver.ReadWrite | kernel/virtio.c:152-204 | refines one access to a map from sectors to bytes; each panic has its exact condition, with the capacity cut to 32 bits, and the other drive is unchanged |
| BlockDevice.Driver.Run | kernel/virtio.c:152-212 | so does any run of requests to both drives, of any length across the 16-bit wrap |
| BlockDevice.LastWriteWins | kernel/virtio.c:152-204 | over any requests every sector holds what was written to it last, every read answers that, and the drives do not touch each other |
| BlockDevice.TwoHalves | kernel/fs.c:587-591 | writing both sectors of a block writes the block and nothing else |
| BlockDevice.Driver.ReadBlock | kernel/fs.c:30-33 | reads the block; block numbers 2^31 apart name the same sectors |
| BlockDevice.Driver.WriteBlock | kernel/fs.c:587-591 | a point update of the sequence of blocks |
| Paths.NormalForm | kernel/fs.c:522-585 | the result is rooted, has at most 32 components, none empty or dots, and at most 255 characters for a rooted base |
| Paths.Idempotent | kernel/fs.c:522-585 | normalising a normal form, as base or as path, changes nothing |
| Paths.Canonical | kernel/fs.c:522-585 | within the limits it is the canonical path of an unbounded stack, with components cut to 127 characters |
| Paths.JoinTokens | kernel/fs.c:524-535 | the join has the components of the base, unless the path is absolute, and those of the path |
| Paths.Join | kernel/fs.c:524-535 | the bounded copies compute the specified join |
| Paths.Split | kernel/fs.c:537-575 | the character loops apply each component to the stack |
| Paths.WritePath | kernel/fs.c:577-584 | bounded concatenation cuts the whole text |
| Paths.NormalizePath | kernel/fs.c:522-585 | the routine computes the specified text, cut to the size of its buffer |
| Paths.Skipto | kernel/fs.c:253-274 | delivers the next component cut to 29 characters and the start of the one after it, or the end |
| Tree.UpUndoesDown | kernel/fs.c:305-345 | from a directory entered by a name, ".." leads back, out of the mounted root too |
| Tree.WalkAgrees | kernel/fs.c:279-352 | wherever a walk ends, the canonical path leads there from the root |
| Tree.ChdirAgrees | kernel/kernel.c:420-442 | one `chdir` within the limits keeps the text leading to the inode |
| Tree.WalkGrows | kernel/fs.c:279-352 | a walk goes where it went before when directories and entries are added |
| Tree.WalkShrinks | kernel/fs.c:279-352 | a walk that does not end in what a removal took away goes where it went before |
| Tree.TooDeep | kernel/fs.c:559-563 | at depth 32, entering a subdirectory always breaks it |
| Directory.EntryRoundTrip | kernel/fs.c:902-904 | an entry of 32 bytes is read back unchanged |
| Directory.FindIsLookup | kernel/fs.c:231-247 | the first live entry of a name is the map's value |
| Directory.LinkListing | kernel/fs.c:891-905 | a new name in a free or an appended entry adds exactly that name |
| Directory.ClearListing | kernel/fs.c:1249-1251 | clearing an entry removes exactly its name |
| Directory.Dirlookup | kernel/fs.c:221-248 | finds the name if and only if the map has it, with its inode and the offset of its entry |
| Directory.Dirlink | kernel/fs.c:882-909 | refuses an existing name, else the map gains the name, names stay unique, the size a multiple of 32, and no other file changes |
| Directory.ClearEntry | kernel/fs.c:1249-1256 | the map loses that name only |
| Directory.IsDirEmpty | kernel/fs.c:1199-1215 | true if and only if there are no names but the dots |
| Items.AddedTree | kernel/fs.c:950-963 | a new file, or a new directory with its dots, under a new name keeps the tree: dots in order, every inode in use named once, every directory below the root |
| Items.RemovedTree | kernel/fs.c:1231-1261 | so does removing an ordinary name and the file or empty directory it leads to |
| Items.RemoveIff | kernel/fs.c:1231-1261 | what `fs_rm` lets through keeps the tree if and only if the name is not one of the dots |
| Items.RemoveUndoesAdd | kernel/fs.c:1231-1261 | removing what was just added restores every item but for a free entry more |
| Items.FewerNamesIff | kernel/fs.c:785-880 | a directory that loses entries leaves a tree if and only if it loses none |
| Entries.CutKeepsTreeIff | kernel/fs.c:1118-1138 | truncating a directory keeps the tree if and only if all entries that go are free |
| Entries.EmptyingBreaksTree | kernel/fs.c:1118-1138 | truncating a directory to nothing never does |
| Entries.ClearKeepsTreeIff | kernel/fs.c:1047-1075 | writing zeros over an entry of a directory keeps the tree if and only if the entry is free |
| Entries.WriteKeepsTreeIff | kernel/fs.c:1047-1075 | all writes to an inode in use keep the tree if and only if it is not a directory |
| Namespace.TypeIs | kernel/fs.c:593-604 | the type in a record says whether the view has nothing, a file or a directory there |
| Namespace.FewNames | kernel/fs.c:882-909 | a directory of a tree has at most as many names as there are inodes, so that `dirlink` never finds it too long |
| Namespace.LookupIn | kernel/fs.c:221-248 | finds the inode of a name and the place of its entry, or nothing exactly if there is no such name |
| Namespace.Claim | kernel/fs.c:626-652 | the first unused item becomes an empty file or directory; none exactly if there is none, and whether the scan then goes on |
| Namespace.LinkIn | kernel/fs.c:882-909 | a new name is added to the directory and nothing else changes; it fails only for want of blocks |
| Namespace.PutDot | kernel/fs.c:1167-1186 | the entry of a dot is added to the new directory |
| Namespace.Unlink | kernel/fs.c:1249-1256 | exactly that name goes |
| Namespace.Drop | kernel/fs.c:1258-1261 | the item becomes unused and nothing else changes |
| Namespace.Write | kernel/fs.c:735-771 | on any inode the volume stays valid, the count or refusal is exact, and exactly the bytes of that inode change, for a directory with the names that they then say |
| Namespace.Truncate | kernel/fs.c:785-880 | on any inode the volume stays valid and exactly its bytes are cut, for a directory with the names that are left |
| Mounts.IsTreeJoined | kernel/fs.c:383-395 | the trees of both devices joined at the mount point are a tree for walks |
| Mounts.AddedGrows | kernel/fs.c:950-963 | creating on device 1 makes the joined tree grow by that entry |
| Mounts.RemovedShrinks | kernel/fs.c:1217-1266 | removing on device 1 takes one entry, and an empty directory, off the joined tree |
| Replay.StepTrees | kernel/kernel.c:322-578 | every call of every process keeps both devices trees, and device 0 as it was; calls that may not have the answer `Untold` and end a run (see `Run.Run`) |
| Replay.StepGood | kernel/kernel.c:322-578 | and keeps what holds between calls: each process has a current directory, a slot not in use has nothing |
| Replay.RemoveGoodIff | kernel/fs.c:1217-1266 | a successful `rm` keeps that if and only if the last component is not one of the dots |
| Replay.LossAgree | kernel/fs.c:1217-1266 | after a removal all paths lead to their current directories if and only if nobody was in what was removed |
| Replay.StepAgree | kernel/kernel.c:322-578 | every other call keeps the path of every process leading to its current directory, within the limits of the path buffer |
| Replay.Replay | kernel/kernel.c:322-578 | over any run there are as many answers as calls, device 0 stays, and what holds between calls holds at the end |
| Replay.ReplayAgree | kernel/kernel.c:322-578 | over any run of calls that remove nobody's directory and stay within the limits, every path keeps leading to its current directory |
| Replay.WriteThenRead | kernel/fs.c:1014-1075 | what a write put at an offset, a read from there returns |
| Descriptors.ReadGives | kernel/fs.c:1014-1045 | every error of a read exactly when it is due; a read moves the offset of its descriptor and does nothing else |
| Descriptors.ReadBytes | kernel/fs.c:180-216 | a read of a file answers the bytes from the offset on, as many as asked for and there are |
| Descriptors.ReadElse | kernel/fs.c:180-216 | the same for a directory; a removed inode cannot be read |
| Descriptors.ReadOn | kernel/fs.c:1014-1045 | reading n and then m bytes is reading n + m bytes |
| Descriptors.WriteAnswers | kernel/fs.c:1047-1075 | every answer of a write exactly when it is due |
| Descriptors.WriteBytes | kernel/fs.c:735-771 | a write replaces the bytes at the offset and no other, moves the offset behind them, and changes nothing else |
| Descriptors.TruncateAnswers | kernel/fs.c:1118-1138 | every answer of a truncation exactly when it is due |
| Descriptors.TruncateBytes | kernel/fs.c:1118-1138 | a file cut to n is as long as the smaller of n and its length, byte for byte as before, and nothing else changes |
| Descriptors.TruncateReads | kernel/fs.c:1118-1138 | whoever reads it then: before n as before, at n nothing, behind n a failure |
| Descriptors.CloseFrees | kernel/fs.c:1077-1089 | a closed descriptor is not open, its file entry is free, and every other descriptor is as it was |
| Descriptors.OpenGives | kernel/fs.c:975-1012 | every answer of an open exactly when it is due; the descriptor is the first free one, for what the path leads to, with exactly the modes asked for; a file is emptied exactly if asked for, also if then no descriptor is left; no other item changes |
| Descriptors.OpenConsole | kernel/fs.c:976-984 | the same for the console |
| Descriptors.CreateRefused | kernel/fs.c:935-948 | an open with creation is refused exactly without a parent directory, or with one on device 0 |
| Descriptors.CreateOld | kernel/fs.c:950-973 | an open with creation of a name that is there |
| Descriptors.CreateNew | kernel/fs.c:950-973 | an open with creation of a new name: the first unused inode becomes an empty file of that name, and no other item changes; it fails exactly without an inode or a descriptor |
| Descriptors.OpenThenRead | kernel/fs.c:975-1045 | the first read after an open answers the first bytes of the file, and nothing if it was to be emptied or appended to |
| Descriptors.OpenThenAppend | kernel/fs.c:975-1075 | the first write after an open to append leaves the old bytes followed by the new ones |
| Descriptors.CreateThenRead | kernel/fs.c:935-1045 | a file that was created reads as empty |
| Places.GoalIs | kernel/fs.c:279-352 | a path leads where the trail of its components through the directories ends, from the root or the current directory, into the mounted device and out of it; and nowhere exactly if there is no such trail |
| Places.TokensAre | kernel/fs.c:253-277 | the components of a path: three laws that leave no other choice |
| Places.ChdirMoves | kernel/kernel.c:420-442 | succeeds exactly if the path leads to a directory; then the process is there, every relative path leads where it led from there, and nothing else changes |
| Places.ChdirThen | kernel/kernel.c:420-442 | walking on after a chdir is walking the longer path before it |
| Places.ChdirText | kernel/kernel.c:432-440 | within the limits the new text leads there too, whoever walks it |
| Places.PlaceRefused | kernel/fs.c:1140-1160 | `mkdir` and `rm` do nothing without a parent directory on device 1, and say why |
| Places.MkdirAnswers | kernel/fs.c:1140-1197 | `mkdir` succeeds exactly if the name is new and an inode unused; every other answer exactly when it is due |
| Places.MkdirMakes | kernel/fs.c:1140-1197 | then the path leads to a new directory with nothing but its dots, and nothing else changes |
| Places.CreateMakes | kernel/fs.c:950-963 | a file that was created is where the path leads |
| Places.CreateOpensGoal | kernel/fs.c:950-973 | an open with creation opens what the path leads to, if and only if the path does not lead out of the root of device 1 |
| Places.RemoveAnswers | kernel/fs.c:1217-1266 | `rm` succeeds exactly if the name is there, is no dot, and leads to a file or a directory with only its dots; every other answer exactly when it is due |
| Places.RemoveTakes | kernel/fs.c:1231-1261 | then the path leads nowhere; exactly that name is gone and exactly that inode unused |
| Lives.ProgramIs | kernel/process.c:328-358 | the program is the first word of the first 127 characters |
| Lives.SpawnAnswers | kernel/process.c:25-95 | every answer of a spawn exactly when it is due |
| Lives.SpawnMakes | kernel/process.c:41-72 | every path leads the new process where it leads its parent; it has keyboard and screen, or nothing, and nobody else sees a change |
| Lives.SpawnFails | kernel/process.c:91-95 | a failed spawn changes nothing for anybody; exactly three open files and a reference are lost, or the reference alone |
| Lives.ReapTakes | kernel/process.c:202-215 | reaping closes exactly the files of the process and takes nothing of anybody else |
| Lives.Private | kernel/kernel.c:322-578 | no call of one process changes a descriptor, an offset or the place of another that it does not reap |
| Lives.StepTidy | kernel/kernel.c:322-578 | every call keeps one open file for each descriptor, and device 0 unwritable |
| Lives.ReplayTidy | kernel/kernel.c:322-578 | so does any run |
| Tables.AfterIget | kernel/fs.c:38-62 | one more reference and one more holder: counts, uniqueness of slots and coherence stay, and programs see no difference |
| Tables.AfterIput | kernel/fs.c:67-75 | the same with one less |
| Tables.AfterLoad | kernel/fs.c:80-101 | reading the record into the slot of an inode keeps the cache coherent |
| Tables.AfterUpdate | kernel/fs.c:593-604 | when the record in a slot is written to the disk, every other slot still agrees with its own record: nothing has to be read again |
| Tables.AfterNew | kernel/fs.c:634-647 | when `ialloc` claims an inode, its slot gets the new record, be it a free one or that of a removed file that is still open: counts, uniqueness and coherence stay |
| Tables.AfterLast | kernel/file.c:50-64 | a file's last reference hands its inode's reference to the running code |
| Tables.AfterCwd | kernel/kernel.c:432-440 | a current directory changes hands with the running code |
| Tables.FullCount | kernel/fs.c:38-62 | a cache without a free slot takes 50 different inodes that open files, processes, failed spawns or the running code refer to |
| Kernels.Kernel.constructor | kernel/fs.c:365-396 | the tables as set up hold nothing |
| Kernels.Kernel.FullNeeds | kernel/fs.c:38-62 | the cache can be full only if open files, current directories, failed spawns and the running code refer to at least 50 different inodes |
| Kernels.Kernel.Iget | kernel/fs.c:38-62 | one reference more to the one slot of the inode; fails exactly if no slot is free |
| Kernels.Kernel.Iput | kernel/fs.c:67-75 | one reference less; the panic is unreachable |
| Kernels.Kernel.Ilock | kernel/fs.c:80-101 | reads the record only if the slot has none, and the slot then agrees with the disk |
| Kernels.Kernel.LookupSlot | kernel/fs.c:221-248 | nets one reference to the inode of the name, or none exactly if there is no such name; stops only if 50 inodes are referred to before |
| Kernels.Kernel.Follow | kernel/fs.c:305-345 | the entry of one component, out of the mounted root and into the mounted tree: nets one reference to where the step of the specification leads |
| Kernels.Kernel.Advance | kernel/fs.c:305-345 | one component: exchanges the reference for one to where the step leads, or releases it exactly if it leads nowhere |
| Kernels.Kernel.Namex | kernel/fs.c:279-352 | nets exactly one reference, to the inode or parent directory that the walk specifies, and none exactly if there is none; stops only if 48 inodes are referred to before |
| Files.CloseFile | kernel/file.c:50-64 | a file's last reference releases its inode; the panic is unreachable |
| Files.AllocFd | kernel/fs.c:911-933 | the first free file and descriptor with the right inode, modes and offset, or the reference is released and the error is exact |
| Files.Close | kernel/fs.c:1077-1089 | closes exactly an open descriptor and says so; every reference is conserved |
| Changes.Store | kernel/fs.c:593-604 | after the record of a slot was written, the slot alone is set and the whole cache agrees with the disk |
| Changes.TruncateSlot | kernel/fs.c:785-880 | cuts any inode through its slot: exactly its bytes are cut; cache, counts and blocks stay right |
| Changes.WriteSlot | kernel/fs.c:735-771 | overwrites any inode through its slot, with the exact count or refusal: exactly its bytes change; cache, counts and blocks stay right |
| Changes.Ialloc | kernel/fs.c:626-652 | claims the first unused inode and nets one reference to a slot with its record; without one it says whether the scan goes on past the records |
| Changes.Make | kernel/fs.c:950-963 | a new file or directory under a new name, as specified; fails exactly without a free inode, halts only with 50 inodes referred to or without a block |
| Syscalls.Open | kernel/fs.c:975-1012 | new state and answer are exactly those of `World.Open`, which `Descriptors.OpenGives` and `Descriptors.OpenThenRead` describe; references conserved in every case; halts only if 48 inodes are referred to before |
| Syscalls.Create | kernel/fs.c:935-973 | the same for opening with creation (`Descriptors.CreateOld`, `Descriptors.CreateNew`), which a full disk may halt too |
| Syscalls.Mkdir | kernel/fs.c:1140-1197 | the same for a new directory (`Places.MkdirMakes`) |
| Syscalls.Remove | kernel/fs.c:1217-1266 | the same for removal (`Places.RemoveAnswers`, `Places.RemoveTakes`), whoever else has the target open; afterwards the invariant holds if and only if the name was not one of the dots |
| Syscalls.Read | kernel/fs.c:1014-1045 | returns the bytes at the offset and moves it, or the exact error; of a directory the bytes of its entries; a read of nothing or less is refused by `World.Step` |
| Syscalls.Write | kernel/fs.c:1047-1075 | new state and answer are exactly the specified ones for a file; for a directory or a removed inode exactly its bytes change, the answer is the count, and counts, cache and blocks stay right |
| Syscalls.Truncate | kernel/fs.c:1118-1138 | the same for truncation (`Descriptors.TruncateBytes`); it never halts |
| Syscalls.TruncateDirectory | kernel/fs.c:1118-1138 | truncating an open directory leaves a tree if and only if all entries that go are free |
| Syscalls.ClearDirectory | kernel/fs.c:1047-1075 | writing an entry of zeros to an open directory leaves a tree if and only if the entry was free |
| Syscalls.ChangeDir | kernel/kernel.c:420-442 | inode and text change together as `World.Chdir` says (`Places.ChdirMoves`, `Places.ChdirText`), or neither, with the exact error |
| Syscalls.Spawn | kernel/process.c:25-122 | success hands on the current directory, opens three console files or none, and reads exactly the program's bytes; failure loses exactly one reference to the directory and those files |
| Syscalls.ProgramOf | kernel/process.c:328-358 | the loops over the command line find its first word |
| Syscalls.ReadProgram | kernel/process.c:98-117 | reading the program page by page gives its bytes |
| Syscalls.SpawnLine | kernel/process.c:327-367 | `spawn_process`: -1 for an empty command line, otherwise the spawn of its first word; halts without memory |
| Syscalls.Reap | kernel/process.c:202-215 | a reaped process gives up all it holds and nothing else changes hands |
| Run.Do | kernel/kernel.c:322-578 | each call of each process does what is specified, and says so; a call after which names may not be a tree any more is told apart exactly |
| Run.Run | kernel/kernel.c:322-578 | answers and final state of any run of calls by any processes are those of the specification; every inode count is the number of files and processes holding it and of what failed spawns lost, every file count likewise; device 0 is unchanged; a run ends early only at a call before which 47 different inodes are referred to, at a spawn without a process slot or memory, for want of a block, at a create or mkdir when no record is unused and more are declared, or at a call that writes to or cuts a directory, writes to a removed inode or removes a dot |
| Run.RunOn | kernel/kernel.c:322-578 | also from the states that such a call leaves, any run of calls on descriptors and of reaps keeps all counts right and device 0 unchanged; only a write without a block ends it |
| Boot.FsInit | kernel/fs.c:365-396 | panics exactly if a superblock does not start with the magic number or device 0 has no "home"; the invariant holds if and only if that is a directory |
| Boot.CreateProcess | kernel/process.c:25-72 | a process without a program to look up: as specified; halts only without a process slot or memory, or with 50 inodes referred to before |
| Boot.StartProcesses | kernel/process.c:17-21 | idle process and shell start exactly if there is memory, at the root, and every path leads to its directory |
| Boot.InitialTidy | kernel/process.c:41-58 | at the start the shell has keyboard and screen and nobody has anything else |
| Session.PowerOn | kernel/kernel.c:732-768 | the kernel comes up on two built images of at most 30 things each if and only if both fit, the first has a directory "home" and there is memory; programs then see exactly the two trees |
| Session.Disk | tools/mkfs.c:349-455 | what the builder makes of a host tree of at most 30 things, as the kernel finds it: exactly that tree, described by block 1 |
| Session.Session | kernel/kernel.c:732-768 | from any two host trees of at most 30 things, the answers to any calls and the final state are those of the specification, with the endings that `Run.Run` has; as the images declare 64 inodes, a session ends at the first create or mkdir that finds all 31 in use, where the code goes on into the bitmap; descriptors and open files then are one to one |
| Computers.SameSlot | kernel/process.c:27-39 | if the views of the process table agree, the file part and the scheduler find the same free slot |
| Computers.NextValid | kernel/kernel.c:322-578 | after every event the file part, the scheduler and memory agree which processes exist, and the current one can run |
| Computers.WaitAnswers | kernel/process.c:374-403 | what one turn of `wait_process` answers, exactly: success for a process that has exited or has gone, failure for one that never was, none yet for one that runs |
| Computers.ExitThenWait | kernel/process.c:195-403 | whatever happens after a process exits, the next to wait for it has success at once |
| Computers.SbrkMoves | kernel/kernel.c:519-578 | `sbrk` answers the old end and moves it, exactly if the new one is in range; the next call starts from there, and no other heap changes |
| Computers.SpawnStarts | kernel/process.c:175-181 | a new process can run, and its heap is empty and starts at the first page behind its program |
| Computers.SpawnStartsNot | kernel/process.c:91-95 | a spawn that finds no program starts nothing and is counted once |
| Computers.Replay | kernel/kernel.c:322-578 | so they do after any events |
| Computers.Computer.DoSpawn | kernel/process.c:327-367 | files, scheduler slot and pages of the new process, with its heap behind its program; or the exact loss of a failure; halts only when something is used up |
| Computers.Computer.DoWait | kernel/process.c:374-403 | one turn of the loop: only a process that has exited is reaped, and it gives up files, pages and slot together |
| Computers.Computer.DoBrk | kernel/kernel.c:519-578 | moves the heap end of the current process, or refuses |
| Computers.Computer.Do | kernel/kernel.c:322-578 | each event of the current process on all parts is the step of one state machine |
| Computers.Computer.RunEvents | kernel/kernel.c:322-578 | so is any run of events; besides the pages of the drivers exactly those of failed spawns are set aside; it ends early only if something is used up or where `Run.Run` does |
| Computers.Start | kernel/kernel.c:760-769 | idle process and shell start, the shell's program is in its memory, and the shell runs first; fails only without memory |
| Session.RunComputer | kernel/kernel.c:732-769 | from two host trees, the shell's program and any memory that drivers left: whatever the processes then do is a run of that state machine |

## Left out

- Run.Run: after a call that writes to or cuts a directory, or removes a dot, names may lead to inode numbers that do not exist, and what the calls on paths then do is not modelled; `Run.RunOn` covers the calls on descriptors.
- Run.Run: `chdir` with a relative path from a path of 255 characters is not made and says `Skipped`, for the reason given at `Syscalls.ChangeDir`.
- Run.Run: that the disk is full is said of the disk, not of what programs see; the number of blocks of a file is in `Layout.Present`.
- Run.Run: what happens after `ialloc` took a record in the bitmap or in a data block is said only of that claim (`Hazards.ShippedClaim`, `Hazards.ShippedMarks`).
- Syscalls.ChangeDir: takes an absolute path or a current path of at most 254 characters, because the code joins the texts in a buffer of 256 without terminating a longer one.
- Syscalls.Spawn: the arguments of the program, which are copied over the end of its image, are not modelled. A process slot left behind by a failed spawn is taken to hold nothing, which is how the next spawn treats it.
- Syscalls.Reap: does not ask whether the process has exited, since the state of a process belongs to `Scheduler`; `Computers.Computer.DoWait` reaps only after asking.
- Memory.Machine.CreateProcess: the bytes are those before the arguments are copied over the end of the image.
- Paths.Join: takes an absolute path or a base of at most 254 characters, for the same reason as `Syscalls.ChangeDir`.
- Paths.NormalizePath: the same, and a buffer of at least 2 characters, because the code writes the root and a terminating zero into a shorter one.
- Memory.Machine.AllocPages: takes at most as many pages as there are, because beyond that the loop bound of the code wraps around and it reads behind its table.
- Images.Build: what `readdir` finds is a sequence of files and directories, each after its parent; paths longer than the builder's 256-byte buffers are not modelled.
- Session.Session: takes host trees of at most 30 things, because only then are the names on the image a tree (`Images.SmallIff`).
- Session.PowerOn: counts a "home" that is not a directory as a failure, although the code goes on (`Boot.FsInit`).
- BlockDevice.Driver.ReadWrite: a failed request leaves the medium as it was, since the machine then halts.
- Computers.Computer.RunEvents: a volume is the sequence of blocks that `BlockDevice.Driver.ReadBlock` and `BlockDevice.Driver.WriteBlock` are proved to read and write; the driver's queues are not part of the state. A read of the keyboard is one event with the keys as a parameter.
- Volumes.Volume.Iupdate: writes zeros in the unused bytes of the block's other records, which nobody reads; `Hazards.Patched` is byte for byte.
- `fs_lseek`, `fs_stat`, `fs_get_file_name`, `fs_get_file_size`: thin readers and setters on top of the walk and the tables.
- Register setup of the devices, the framebuffer, traps, context switch assembly, user programs.
- Validation of user pointers, and a write of a negative number of bytes; a system call's strings and buffers are taken as values.

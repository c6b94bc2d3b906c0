# xv6: a verified model

A Dafny model of the parts of this xv6 (RISC-V) repository that are hard to get
right: the on-disk file system and `mkfs`, virtual memory with `fork`'s and
`exec`'s address spaces, the sleep/wakeup and exit/wait protocols, the buffer
cache and the virtio disk driver, pipes, link counts, the user heap, the shell
parser and `grep`.

`dafny verify dfyconfig.toml` checks the project. Code that changes things in
place is written as classes and loops proved against functions of the state;
concurrent protocols are state machines whose steps are the code between two
points where another hart can interfere, and their theorems hold in every state
of every run.

## How it fits together

- File system. `FsLayout` (bitmap bits, pointer words), `FsBlocks` (who owns a
  block, which byte a file has), `FsEffects` and `FsSaved` (what a write changes in
  the buffers and on the disk), `FsNeeds` (blocks missing against blocks free),
  `FsPieces` (writes in pieces), `FileSystem` (balloc, bfree, bmap, itrunc, readi,
  writei, filewrite), `DirFormat` and `Directory` (a directory is a finite map of
  names), `Mkfs` and `MkfsRoot` (the image and its root directory).
- Runs of the file system. `FsNodes` is a file system of byte sequences and maps of
  names; `FsSnap`, `FsViews`, `FsMeans` and `FsRuns` prove that every run of read,
  write, truncate, ialloc, iput, lookup, link and unlink calls, from every image, is a
  run of it. `FsPanic` is a run that panics.
- Memory. `Riscv` (Sv39 arithmetic, section 4.4 of the RISC-V Privileged
  Architecture, version 20211203), `PageTable` (trees as values), `Kalloc`, `Vm`,
  `FreeWalk`, `UserSpace` (the shape of an address space), `UserVm`, `ProcVm`,
  `UserCopy`, `ExecArgs`, `Exec`, `ExecImage` (what exec puts into memory, by the headers
  and the file alone), `ProcRuns` (any number of processes that fork, grow, exec and
  exit in any order).
- Processes. `SleepLock` (no lost wakeup), `Interrupts` (push_off and pop_off on each
  hart below it), `ExitWait` (fork, exit and wait) and `ExitWaitCalls` (what each call
  does, from call to return).
- Disk. `Bcache` (the protocol), `BcacheWrites` (what bwrite leaves and later readers
  find) and `BcacheList` (the linked list); `Virtio` (driver and device, sections 2.6
  and 5.2 of VIRTIO 1.1), `VirtioDriver` (the driver code, step for step),
  `VirtioTransfer` (one request, one transfer), `VirtioSleep` (the callers and their
  sleeps) and `VirtioCalls` (from call to return).
- The rest. `Pipe` and `PipeCalls` (call by call); `Links`, `LinkOverflow` and
  `LinkCalls` (nlink and the directory tree), `LinkDisk` (that tree and the bytes of its
  directories); `Heap` (umalloc) and `HeapGrant` (its use of sbrk); `ShellGrammar`,
  `Shell` and `ShellTrees` (trees written out and parsed back); `Grep`. `Common` holds
  what several of these share.

## What the code does that one might not expect

- A file can have holes only if `mkfs` made one: the root directory ends in a hole
  exactly when its entries fill their blocks (`Mkfs.RootHole`). A read allocates the
  blocks missing under it. It is short exactly when these are more than the free ones,
  and stops at the first it cannot have (`FileSystem.FileSystem.Readi`). A search of
  a directory then panics: exactly when the blocks missing up to the slot of the name,
  or up to the end for a name that is not there, are more than the free ones
  (`Directory.Dirlookup`; likewise `Link`, `Unlink` and `Isdirempty`).
  `FsPanic.LookupPanics` is a run to that panic from every such image.
- A `writei` whose source faults counts the blocks before the one it faults in, leaves
  the bytes copied into that one in the cached buffer, and releases it unwritten. Reads
  see those bytes until the buffer is taken for another block, and the old bytes after
  that (`FsRuns.StrayLost`). What is seen and what is on the disk come apart exactly
  when one of those bytes is not what was there before (`FsNodes.StrayExactly`);
  without such writes a read sees what was written. In the cache itself, a reader
  sees the disk exactly when nobody left the buffer changed (`Bcache.ReadsDisk`,
  `Bcache.UnsavedExample`).
- A `filewrite` that would pass the largest file size writes its whole leading pieces
  and moves the offset, yet returns -1.
- `growproc` asked to shrink below zero does nothing and returns 0.
- The second failure branch of `proc_pagetable` cannot be taken: trampoline and
  trapframe share their tables.
- At boot every buffer stands for block 0 of device 0. A block can have two buffers
  exactly when it is that one (`Bcache.DoubledExactly`), and even then at most one of
  them is in use (`Bcache.OneBufferOneHolder`).
- A pipe writer that is killed part-way returns without waking readers, so a reader
  can stay asleep on a pipe that holds bytes (`Pipe.LostExample`). A kill does this
  exactly when the writer has stored bytes it has not announced and a reader sleeps
  (`Pipe.KillStrands`), and nothing else does (`Pipe.StrandedExactly`).
- `grep` stops at the first line of 1024 bytes or more, newline included: no line from
  there on is written (`Grep.WholeFilter`, `Grep.LongLineHides`).
- `nlink` is a 16-bit short. It equals the number of names exactly while that is below
  32768 (`Links.NlinkCounts`), and that many names can be reached
  (`LinkOverflow.NamesReached`). From there unlink panics (`LinkOverflow.PanicReached`),
  and with 65536 names the count is 0 and the inode is freed under its names
  (`LinkOverflow.FreedUnderNames`).
- A `malloc` of more than 0x7fffffe0 bytes that finds no block asks `sbrk` for a
  negative count, or for 0 or 16 bytes. `sbrk` then shrinks the process or gives next to
  nothing, and `morecore` puts on the list a block that is not there
  (`HeapGrant.AskedExactly`, `HeapGrant.Sbrk`).
- `nulterminate` writes NUL over the character after each word. When a symbol follows
  a word with no space, as in `a;b`, that is the symbol (`Shell.SymbolsOverwritten`,
  `Shell.SemicolonOverwritten`).

## Model

| member | source | states |
|---|---|---|
| FsLayout.MarkUsedAt | kernel/fs/xv6fs/fs.c:90-113 | setting the bit of block b in its bitmap byte makes b used and changes the answer for no other block, across all bitmap blocks |
| FsLayout.MarkFreeAt | kernel/fs/xv6fs/fs.c:116-130 | clearing the bit of block b makes b free and changes the answer for no other block |
| FsLayout.PutWordAt | kernel/fs/xv6fs/fs.c:399-412 | a 32-bit little-endian pointer stored in an indirect block reads back, and every other word of the block is unchanged |
| FsBlocks.OwnedMeans | kernel/fs/xv6fs/fs.c:380-456 | the ownership invariant means: every nonzero pointer (direct, indirect, or inside an indirect block) is a data block marked used, no two places hold the same block, and every used data block is held somewhere |
| FsBlocks.PlacedOwned | kernel/fs/xv6fs/fs.c:380-419 | giving a free, zeroed block to an empty slot keeps ownership, changes that slot only, and changes no byte of any file |
| FsBlocks.PatchBytes | kernel/fs/xv6fs/fs.c:500-534 | overwriting part of a mapped block changes exactly those bytes of exactly that file and no pointer |
| FsBlocks.ClearedOwned | kernel/fs/xv6fs/fs.c:423-456 | dropping all blocks of one inode from bitmap and inode keeps ownership and every byte of every other file |
| FileSystem.FileSystem.Balloc | kernel/fs/xv6fs/fs.c:90-113 | the lowest free block, marked used and zeroed, with every block below it in use; 0 exactly when the bitmap is full, and then nothing changes |
| FileSystem.FileSystem.Recycle | kernel/fs/xv6fs/bio.c:76-88 | the buffer of a block is taken for another: that block reads as on the disk from then on, no pointer and no other byte changes |
| FileSystem.FileSystem.Bfree | kernel/fs/xv6fs/fs.c:116-130 | clears the bit of a block in use; that the block is in use, where the source panics, is what every caller proves |
| FileSystem.FileSystem.Bmap | kernel/fs/xv6fs/fs.c:380-419 | the address the inode now maps the file block to; an existing mapping is returned with no change; ownership and all file contents are kept; 0 exactly when the blocks missing, the indirect one included, are more than the free ones; otherwise exactly those slots were filled |
| FileSystem.FileSystem.BmapDirect | kernel/fs/xv6fs/fs.c:386-393 | the same for a direct slot |
| FileSystem.FileSystem.IndirectOf | kernel/fs/xv6fs/fs.c:397-404 | the indirect block of the file, allocated when missing, with no byte of any file changed and one free block fewer; 0 only on a full disk |
| FileSystem.FileSystem.WordOf | kernel/fs/xv6fs/fs.c:405-415 | the block named in the indirect block, allocated when missing; 0 only on a full disk, with no change |
| FileSystem.FileSystem.BmapIndirect | kernel/fs/xv6fs/fs.c:395-416 | both together: the address the inode now maps the block to; 0 exactly when the free blocks are too few for both |
| FileSystem.FileSystem.FreeOne | kernel/fs/xv6fs/fs.c:435-451 | frees one data block and changes no data block |
| FileSystem.FileSystem.FreeDirect | kernel/fs/xv6fs/fs.c:435-440 | frees exactly the direct blocks of the file and zeroes their slots |
| FileSystem.FileSystem.FreeIndirect | kernel/fs/xv6fs/fs.c:442-452 | frees exactly the blocks named in the indirect block and then that block |
| FileSystem.FileSystem.Itrunc | kernel/fs/xv6fs/fs.c:423-456 | the file becomes empty, exactly its own blocks become free, all other contents are unchanged and ownership holds; "freeing free block" is unreachable |
| FileSystem.FileSystem.ReadChunk | kernel/fs/xv6fs/fs.c:477-489 | one block of a read: the next bytes of the content up to the end of the block; nothing exactly when the block is missing and cannot be had |
| FileSystem.FileSystem.ReadLoop | kernel/fs/xv6fs/fs.c:477-489 | the whole loop: where it stops and why, exactly, as for readi |
| FileSystem.FileSystem.Readi | kernel/fs/xv6fs/fs.c:464-498 | 0 for an offset past the end or a range past 2^32; otherwise the bytes are the content at the offset, and they are as many as asked for or reach the end of the file: all of them, or -1 for a destination that faults, exactly when the missing blocks on the way are no more than the free ones, and then just those are added; otherwise the count is short and ends at the first block that cannot be had; a hole-free file is not changed |
| FileSystem.FileSystem.WriteChunk | kernel/fs/xv6fs/fs.c:512-522 | one block of a write: the bytes copied so far are in the content, and every other byte of every file is unchanged; it counts exactly when the block can be had and all of the chunk can be copied in; otherwise exactly how much it left behind |
| FileSystem.FileSystem.WriteLoop | kernel/fs/xv6fs/fs.c:511-523 | the whole loop: with the blocks it needs, exactly the whole chunks before the fault count and all bytes up to it are in the buffers; without, it stops at the first block that cannot be had |
| FileSystem.FileSystem.Writei | kernel/fs/xv6fs/fs.c:500-534 | -1 exactly on a bad range, with no change; otherwise the count is fixed by offset, length, where the source faults and the blocks missing and free before the call; the bytes that reached the buffers are spliced into what reads see, exactly the blocks of the bytes counted go to the disk, the size grows to cover the bytes counted, other files are unchanged and a hole-free file stays hole-free |
| FileSystem.FileSystem.Filewrite | kernel/fs/file.c:128-167 | the pieces of at most 3072 bytes have together the content and offset of one write; how far they get is fixed before the call: up to the largest size, the piece and block where the source faults, or the first block that cannot be had |
| FileSystem.FileSystem.WritePiece | kernel/fs/file.c:143-158 | one piece: complete, or cut short by the source or the disk exactly where the whole write is |
| FileSystem.FileSystem.Clear | kernel/fs/xv6fs/fs.c:218-219 | ialloc clears a dinode that truncation or mkfs left clear: nothing changes |
| FsNeeds.NeedsOn | kernel/fs/xv6fs/fs.c:380-419 | blocks drawn so far and blocks still missing are together what was missing at the start, so the rest can be had now exactly when all could be had then |
| FsNeeds.TransferTurn | kernel/fs/xv6fs/fs.c:477-523 | one turn of a read or write loop: the next block is drawn, or the transfer stops and could not have been supplied from the start |
| FsNeeds.StopsAt | kernel/fs/xv6fs/fs.c:477-523 | where a transfer runs out of blocks is one number, found from the state before it |
| FsNeeds.FaultCounts | kernel/fs/xv6fs/fs.c:511-523 | a copy that faults inside a chunk counts exactly the bytes of the blocks before it |
| FsNeeds.HoleFreeFits | kernel/fs/xv6fs/fs.c:464-498 | a range without holes needs no block |
| FsPieces.PieceTurn | kernel/fs/file.c:143-158 | a piece that is complete takes the blocks the whole needs so far; one that is not stops the whole, for the same reason and at the same byte |
| FsPieces.PiecedTurn | kernel/fs/file.c:128-167 | and what it wrote, in the buffers and on the disk, continues what the pieces before it wrote |
| FsPieces.PiecesCountMeans | kernel/fs/file.c:128-167 | what counts of a write in pieces: the pieces below the largest size, or up to the block, or the piece, the fault lies in |
| FsEffects.WroteJoin | kernel/fs/file.c:128-167 | two writes end to end are one write of the concatenation |
| FsEffects.Readable | kernel/fs/xv6fs/fs.c:472-475 | how much a read may deliver: nothing past the end or past 2^32, otherwise all asked for or up to the end |
| FsEffects.WholeMeans | kernel/fs/xv6fs/fs.c:511-523 | what counts of a write whose source faults: all before the block the fault lies in |
| FsSaved.GrownSaved | kernel/fs/xv6fs/fs.c:380-419 | a block newly given to a file changes nothing that any file has on the disk: it was written as it was zeroed |
| FsSaved.ChunkSaved | kernel/fs/xv6fs/fs.c:512-522 | a chunk copied in and written takes its whole block to the disk, unsaved bytes of earlier faults included, and nothing else |
| FsSaved.ChunkStray | kernel/fs/xv6fs/fs.c:517-520 | a chunk whose copy faults is released unwritten: the disk has what it had, for every file |
| FsSaved.ResavedJoin | kernel/fs/xv6fs/fs.c:511-523 | what is on the disk after two writes end to end is what one write of both leaves there |
| FsSaved.RecycledSaved | kernel/fs/xv6fs/bio.c:76-88 | when the buffer of a block is recycled, reads of that block find what the disk has; ownership holds and nothing else changes |
| Mkfs.BitmapBlock | mkfs/mkfs.c:235-250 | the free map block has exactly the first `used` bits set |
| Mkfs.Image.constructor | mkfs/mkfs.c:109-116 | the blank image owns no block and every file is empty |
| Mkfs.Image.Ialloc | mkfs/mkfs.c:221-233 | inode numbers are handed out in order and no content changes |
| Mkfs.Image.Take | mkfs/mkfs.c:269-283 | the next block of the counter goes to one empty slot and no file content changes; refused only when the disk is used up |
| Mkfs.Image.WordFor | mkfs/mkfs.c:278-283 | the block named in the indirect block, taken from the counter when absent |
| Mkfs.Image.BlockFor | mkfs/mkfs.c:267-284 | the block of a file block, direct or indirect; refused only when the disk is used up |
| Mkfs.Image.AppendChunk | mkfs/mkfs.c:266-292 | one turn appends a nonempty prefix of the data, or the disk or the file is full |
| Mkfs.Image.Iappend | mkfs/mkfs.c:253-295 | the file content is extended by exactly the data and no other file changes; fails only when the disk is used up or the file would pass its largest size |
| Mkfs.AddFile | mkfs/mkfs.c:151-159 | one host file: the next inode holds its bytes, the root gains exactly its entry, and no other file changes |
| Mkfs.Populate | mkfs/mkfs.c:118-162 | the root directory lists the names in order and every file has its bytes |
| Mkfs.RootHole | mkfs/mkfs.c:164-169 | rounding the root directory up leaves it hole-free exactly when its entries did not fill their last block |
| Mkfs.Finished | mkfs/mkfs.c:164-171 | rounding up the root and writing the bitmap give an image in which ownership holds and contents are those asked for |
| Mkfs.Build | mkfs/mkfs.c:109-171 | for any list of files: the image has exactly those files and names, ownership holds, exactly the first `used` blocks are marked, and it is hole-free exactly when (files + 2) % 64 is not 0; fails only for a file too big or a disk used up |
| MkfsRoot.RootIsDir | mkfs/mkfs.c:118-171 | the root directory of an image is a finite map, the one asked for, exactly when no two names agree in their first 14 bytes |
| MkfsRoot.RootSlot | mkfs/mkfs.c:118-162 | slot by slot: an entry for each name with its inode number, free slots after them |
| FsNodes.StrayExactly | kernel/fs/xv6fs/fs.c:500-534 | a write leaves what reads see and what the disk has apart exactly when it is in range, has the blocks it needs, and a byte it copies into the block where the source faults is not the byte that was there: offset, source, bytes available and the old content decide |
| FsNodes.Plain | kernel/fs/xv6fs/fs.c:464-534 | over every run in which no source faults, files are plain byte sequences: seen and saved agree throughout and recycling a buffer changes nothing |
| FsNodes.Durable | kernel/fs/xv6fs/fs.c:464-534 | over every run, a write counted in full stays, seen and on the disk, until the file is written or truncated again, whatever buffers are recycled |
| FsNodes.ReadAfterWrite | kernel/fs/xv6fs/fs.c:464-534 | and any later read, of any range, delivers the bytes written wherever it overlaps the write |
| FsNodes.Unnoticed | kernel/fs/xv6fs/fs.c:423-670 | no call on one file or directory changes another |
| FsNodes.Mkdir | kernel/fs/sysfile.c:275-381 | ialloc and the three links of mkdir, none refused: the new directory binds "." and "..", its parent binds it, and nothing else changes |
| FsNodes.ReadWhole | kernel/fs/xv6fs/fs.c:464-498 | over every run, a read whose blocks are there or can be had delivers all the bytes asked for, or all up to the end of the file, and 0 past it |
| FsViews.WrittenView | kernel/fs/xv6fs/fs.c:500-534 | writei on blocks is the write step on what is seen and saved of the file |
| FsViews.RecycledView | kernel/fs/xv6fs/bio.c:76-88 | recycling a buffer makes at most one block of one file read as on the disk |
| FsViews.PeekedView | kernel/fs/xv6fs/fs.c:464-498 | filling holes on a read changes nothing seen or saved |
| FsMeans.SolidMeans | kernel/fs/xv6fs/fs.c:380-419 | without holes only a write, or a name to be added, can want a block |
| FsMeans.ScanLess | kernel/fs/xv6fs/fs.c:546-670 | who can read all the entries of a directory can read those up to a name |
| FsRuns.CallMake | kernel/fs/xv6fs/fs.c:207-240 | ialloc: a free inode becomes an empty file or directory and nothing else changes |
| FsRuns.CallDrop | kernel/fs/fs.c:283-303 | iput of an inode without links: it is truncated and free, whether file or directory |
| FsRuns.Call | kernel/fs/xv6fs/fs.c:207-670 | any read of a file or directory, write, truncate, ialloc, iput, lookup, link, unlink or recycling of a buffer takes its step on all files and directories at once and keeps ownership; each short count, each panic and each refused name happens exactly when the blocks missing and free before the call say so |
| FsRuns.Run | kernel/fs/xv6fs/fs.c:207-670 | any sequence of them does so, call by call, up to the first panic, with what each found read off the state before it; without holes there is no panic and no short read |
| FsRuns.RunFromImage | mkfs/mkfs.c:109-171 | the same for every run from an image mkfs built, beginning with the files it packed, the root directory as the map of their names, and the inodes after them free |
| FsRuns.StrayLost | kernel/fs/xv6fs/fs.c:511-523 | a concrete loss: of two bytes one is copied in before the source faults, a read sees it, and after the buffer is recycled a read sees the old byte |
| FsPanic.OneUnstuffed | kernel/fs/xv6fs/fs.c:90-113 | eight files of the largest size do not fit on the disk |
| FsPanic.Swell | kernel/fs/xv6fs/fs.c:500-534 | a file written on from its end reaches the largest size or fills the disk, and no other file or block of one changes |
| FsPanic.LookupPanics | kernel/fs/xv6fs/fs.c:558-561 | from every image of 64k - 2 files with different names, a run that fills the disk and then panics at the lookup of a name that is not there |
| DirFormat.EntryRead | kernel/fs/xv6fs/fs.c:628-629 | an entry gives back its inode number and its name, cut to 14 bytes |
| DirFormat.SpliceSlot | kernel/fs/xv6fs/fs.c:628-632 | an entry written over one slot, or one past the end, changes that slot alone |
| DirFormat.LinkSlot | kernel/fs/xv6fs/fs.c:593-639 | a new name in a free or fresh slot adds exactly that binding and names stay unique |
| DirFormat.ClearSlot | kernel/fs/xv6fs/fs.c:641-670 | clearing a slot removes exactly the binding it held |
| DirFormat.AllLive | kernel/fs/xv6fs/fs.c:618-632 | a directory without a free slot has as many names as slots |
| DirFormat.EmptyMeans | kernel/fs/xv6fs/fs.c:350-362 | with "." and ".." in the first two slots, no slot in use from the third on means: the directory binds "." and ".." and nothing else |
| Directory.NameCmp | kernel/fs/xv6fs/fs.c:538-543 | two 14-byte name fields compare equal exactly when they are the same string up to the first NUL |
| Directory.ReadEntry | kernel/fs/xv6fs/fs.c:558-561 | the k-th entry, a hole being filled on the way; unreadable exactly when the blocks missing up to it were more than the free ones when the search began |
| Directory.Dirlookup | kernel/fs/xv6fs/fs.c:546-591 | the inode number the directory binds the name to, 0 exactly when it binds none; it panics exactly when the blocks missing up to the slot of the name, or to the end if there is none, are more than the free ones; without holes nothing changes |
| Directory.FreeSlot | kernel/fs/xv6fs/fs.c:618-626 | the first slot not in use, or the slot past the end; it panics exactly when the blocks missing up to there cannot be had |
| Directory.PutElsewhere | kernel/fs/xv6fs/fs.c:628-632 | writing a slot leaves every other file as it reads and as it is on the disk |
| Directory.PutSlot | kernel/fs/xv6fs/fs.c:628-632 | writes one slot; refused exactly when the file is at its largest size or its block is missing and cannot be had, and then nothing changes |
| Directory.Link | kernel/fs/xv6fs/fs.c:593-639 | adds one binding; a panic exactly when the search for the name lacks a block; otherwise -1, with the directory unchanged, exactly when the name is taken or there is no room; the second search never panics |
| Directory.RoomyMeans | kernel/fs/xv6fs/fs.c:618-632 | no room means: as many names as slots, and these are all 17152 or one more would need a block too many |
| Directory.ClearNamed | kernel/fs/xv6fs/fs.c:651-667 | one turn of unlink: the slot is cleared if it is spelled so; unreadable exactly when the blocks up to it could not be had |
| Directory.Unlink | kernel/fs/xv6fs/fs.c:641-670 | removes exactly the binding of the name and leaves other files alone; it panics exactly when reading all entries lacks a block, and then the name is gone exactly when the entries up to it could be read |
| Directory.Isdirempty | kernel/fs/xv6fs/fs.c:350-362 | true exactly when no slot from the third on is in use; it panics exactly when the blocks up to the first such slot, or the end, cannot be had |
| Heap.FreeListMeans | user/umalloc.c:24-43 | on every valid heap the free list is circular, in address order, and no two free blocks touch |
| Heap.Conserved | user/umalloc.c:24-90 | blocks, free or live, never overlap, and free plus live units are exactly the units obtained from sbrk |
| Heap.FreeKeeps | user/umalloc.c:24-43 | joining a block with its lower and upper neighbour keeps list, tiling and separation, and frees exactly its units |
| Heap.TakeWhole | user/umalloc.c:75-77 | a block of the exact size leaves the list |
| Heap.TakeTail | user/umalloc.c:78-83 | the tail of a bigger block becomes live and its front stays free |
| Heap.Heap.constructor | user/umalloc.c:70-73 | an empty heap |
| Heap.Heap.FindPlace | user/umalloc.c:30-33 | the walk from freep ends at the free block the given block belongs after |
| Heap.Heap.Free | user/umalloc.c:24-43 | the block is live no more, exactly its units are free, every other live block keeps its header, the circle stays ordered and coalesced, and freep is the block below |
| Heap.Heap.Morecore | user/umalloc.c:46-60 | as many units as asked for, but at least 4096, of fresh memory join the free list; null exactly when sbrk refuses, with nothing changed |
| Heap.Heap.Take | user/umalloc.c:74-86 | the units taken leave the free list and are exactly those of the new live block |
| Heap.Heap.Search | user/umalloc.c:74-90 | the loop of malloc |
| Heap.Heap.Malloc | user/umalloc.c:63-90 | terminates; a result is a new block, apart from all others, of just the units the request needs: the end of the first block big enough, going round from freep; sbrk is asked at most once, and null returned, only when no block is big enough |
| Heap.Run | user/umalloc.c:24-90 | every sequence of malloc and free of live pointers keeps the heap valid, and the live blocks are the pointers out |
| HeapGrant.AskedExactly | user/umalloc.c:46-54 | the byte count reaches the `int` parameter of sbrk as it is exactly for requests of 0x7fffffe0 bytes or less; above, it arrives negative, 0 or 16 |
| HeapGrant.Sbrk | kernel/sysproc.c:38-49 | the memory morecore puts on the list is the process's exactly for those requests; above, sbrk shrinks the process or adds 16 bytes at most, and refuses only for want of those |
| SleepLock.StepKeeps | kernel/sleeplock.c:21-52 | each atomic step of acquiresleep, releasesleep, sleep, wakeup, the scheduler and the spinlocks keeps the invariant |
| SleepLock.RunInv | kernel/proc.c:444-582 | the invariant holds in every state of every interleaving, for any number of processes and locks |
| SleepLock.NoLostWakeup | kernel/sleeplock.c:21-41 | in every state of every run a sleep lock has one holder at most, and while its spinlock is free and it is unlocked nobody sleeps on it or is between releasing the spinlock and sleeping |
| SleepLock.HoldingSleep | kernel/sleeplock.c:43-52 | holdingsleep answers true exactly for the process that holds the lock |
| SleepLock.AcquireReturns | kernel/sleeplock.c:21-31 | over every run, whoever returns from acquiresleep has the lock: it is locked and its pid is the caller |
| SleepLock.SleepsNotSpins | kernel/sleeplock.c:24-28 | a process that finds the lock taken has been off the CPU, without the spinlock, before it tests the lock again |
| SleepLock.ReleaseReturns | kernel/sleeplock.c:33-41 | whoever returns from releasesleep no longer has it, and it has been unlocked since the call |
| Interrupts.WorldKeeps | kernel/spinlock.c:21-110 | every step of the sleep-lock code keeps noff equal to the number of spinlocks held, with interrupts off while it is positive |
| Interrupts.WorldRun | kernel/spinlock.c:21-110 | so it is in every state of every interleaving |
| Interrupts.NeverPanics | kernel/proc.c:482-500 | no release, pop_off or sched of these operations ever panics |
| Interrupts.SchedEntered | kernel/proc.c:482-500 | sched is entered holding p->lock and no other spinlock, with noff 1, interrupts off and the state changed |
| Interrupts.NoSelfAcquire | kernel/spinlock.c:21-41 | acquire never finds that its caller holds the lock |
| Interrupts.InterruptsRestored | kernel/spinlock.c:87-110 | acquiresleep and releasesleep return with interrupts as they were called, through any number of sleeps on any CPU |
| Riscv.RoundUp | kernel/riscv.h:339-342 | PGROUNDUP in 64 bits is the next page boundary unless it wraps |
| Riscv.Entry | kernel/riscv.h:345-356 | an entry made of a page and flags is valid and gives back both |
| Riscv.NoUser | kernel/vm.c:336-345 | clearing PTE_U leaves page, validity and every other flag |
| Riscv.EntryFlags | kernel/riscv.h:345-356 | the leaf and user bits of an entry are those of its permissions |
| Riscv.PackBits | kernel/riscv.h:351-356 | on 64-bit words PTE2PA undoes PA2PTE and PTE_FLAGS returns the flags |
| Riscv.PxInjective | kernel/riscv.h:358-367 | below MAXVA the three nine-bit indices determine the page |
| Riscv.PxDigits | kernel/riscv.h:358-367 | the three indices are the digits of the page number in base 512, the highest level first |
| PageTable.DescendFinds | kernel/vm.c:84-102 | following the entries of a well-formed tree ends at the table the map has for the page, or nowhere when it has none |
| PageTable.DistinctSlots | kernel/vm.c:84-102 | two different pages below MAXVA never reach the same leaf slot, and the slot reached holds the entry the map gives the page |
| PageTable.LeafSet | kernel/vm.c:141-191 | writing the leaf slot of one page changes the translation of that page and of no other |
| PageTable.TreeGrown | kernel/vm.c:92-98 | hanging a fresh zeroed page below an empty slot keeps the tree well formed |
| PageTable.LeavesGrown | kernel/vm.c:92-98 | and changes no translation |
| Kalloc.Kmem.constructor | kernel/kalloc.c:26-40 | freerange puts every whole page from end to PHYSTOP on the free list, once |
| Kalloc.Kmem.Kfree | kernel/kalloc.c:46-63 | a page in use goes back: the list holds exactly the free pages, each once |
| Kalloc.Kmem.Kalloc | kernel/kalloc.c:68-82 | a page that was free and now is not, all other pages unchanged; null exactly when the list is empty |
| Kalloc.Popped | kernel/kalloc.c:68-82 | taking the head leaves the linked list of the other free pages |
| Kalloc.Pushed | kernel/kalloc.c:46-63 | pushing a page that is not free gives the list with that page first |
| Vm.Down | kernel/vm.c:89-100 | one level of walk: the table below, allocated if asked; no translation changes |
| Vm.Walk | kernel/vm.c:84-102 | the table holding the leaf entry of va, null exactly when there is none and none was allocated; no translation changes; how many pages it can take |
| Vm.MapOne | kernel/vm.c:152-162 | one turn of mappages sets one translation or fails with none changed |
| Vm.Mappages | kernel/vm.c:141-164 | success maps exactly the range, failure (free list empty) exactly a prefix of it; every other translation and page is unchanged |
| Vm.UnmapOne | kernel/vm.c:178-190 | one turn of uvmunmap clears one translation and frees its page if asked |
| Vm.Uvmunmap | kernel/vm.c:169-191 | removes exactly its range, frees exactly the pages it mapped to, and leaves every other translation and page |
| FreeWalk.Freewalk | kernel/vm.c:270-286 | every table of the tree becomes free, each once, and nothing else changes; its panic is unreachable when no leaf is mapped |
| UserSpace.RoomBelow | kernel/memlayout.h:49-69 | since every user page occupies its own page of the 128 MB of RAM, a user image always ends far below the trapframe |
| UserVm.GrowOne | kernel/vm.c:234-246 | one fresh page with given bytes and flags is mapped next, or nothing is |
| UserVm.Uvmdealloc | kernel/vm.c:254-266 | the pages above the new size, and no others, go back to the free list; a larger size changes nothing |
| UserVm.Uvmalloc | kernel/vm.c:224-248 | for any 64-bit size: maps zeroed pages up to it with the asked flags, or undoes everything and leaves mappings and user pages as before; when it can fail |
| UserVm.Growproc | kernel/proc.c:261-277 | for any int: growth adds zeroed writable pages or fails without effect, shrinking always succeeds, shrinking below zero does nothing; user mappings stay exactly [0, PGROUNDUP(sz)) plus trapframe and trampoline |
| UserVm.Uvmcopy | kernel/vm.c:304-332 | the child gets the flags and bytes of every parent page in pages of its own; on failure it has none; the parent is untouched either way |
| UserVm.Bystander | kernel/vm.c:224-332 | an address space whose pages are not touched keeps its mappings, bytes and pages |
| ProcVm.Uvmfree | kernel/vm.c:290-296 | all user pages and all tables go back, and nothing else changes |
| ProcVm.Uvmcreate | kernel/vm.c:195-204 | an empty tree in one page; null exactly when no page is free |
| ProcVm.ProcPagetable | kernel/proc.c:178-208 | an address space with only trampoline and trapframe, or nothing taken at all; the failure branch of the second mapping is dead |
| ProcVm.ProcFreepagetable | kernel/proc.c:212-218 | exactly the pages of the space go back; trapframe and trampoline pages are untouched |
| ProcVm.Allocproc | kernel/proc.c:110-150 | memory side: a trapframe page and an address space, or nothing taken |
| ProcVm.Freeproc | kernel/proc.c:155-174 | memory side: exactly what allocproc and growth took goes back |
| UserCopy.Walkaddr | kernel/vm.c:107-125 | the physical page, 0 exactly where user mode has no access, addresses past MAXVA included |
| UserCopy.Copyin | kernel/vm.c:375-395 | succeeds exactly when every byte lies on an accessible user page and then yields exactly those bytes; otherwise stops at the first page that is not |
| UserCopy.PutBytes | kernel/vm.c:350-370 | bytes stored within one page change exactly those addresses |
| UserCopy.Copyout | kernel/vm.c:350-370 | succeeds exactly when every byte is accessible and then writes exactly those bytes; on failure a prefix up to the first page that is not; nothing else changes |
| UserCopy.Scan | kernel/vm.c:416-429 | the bytes of one page up to the first NUL |
| UserCopy.TakePage | kernel/vm.c:407-432 | one page of copyinstr |
| UserCopy.Copyinstr | kernel/vm.c:401-438 | succeeds exactly when a NUL occurs within max bytes on accessible pages, and yields the string up to it |
| ExecArgs.WordNumber | kernel/fs/exec.c:104-110 | a pointer stored as eight bytes reads back |
| ExecArgs.PutStack | kernel/fs/exec.c:98-110 | copyout into the stack page cannot fail |
| ExecArgs.PushStrings | kernel/fs/exec.c:90-101 | every argument string is on the stack, 16-byte aligned, at the address recorded for it; fails exactly when there are too many or they do not fit a page |
| ExecArgs.PushArgs | kernel/fs/exec.c:90-110 | and the array of their addresses, null-terminated, lies below them at the final sp |
| Exec.Flags2perm | kernel/fs/exec.c:15-23 | write and execute permission exactly as the ELF flags ask |
| Exec.LoadPage | kernel/fs/exec.c:151-162 | one page of a segment is stored at its address |
| Exec.Loadseg | kernel/fs/exec.c:146-165 | succeeds exactly when the file has the bytes and then they are the bytes at va; its panic is unreachable |
| Exec.LoadSegment | kernel/fs/exec.c:65-70 | grows the image and loads one segment, or fails for the reasons stated |
| Exec.LoadOne | kernel/fs/exec.c:54-71 | the same with the checks for overflow and alignment |
| Exec.LoadAll | kernel/fs/exec.c:54-71 | after all headers the image is byte for byte what the segments describe, with the page permissions they give |
| Exec.Uvmclear | kernel/vm.c:336-345 | user mode loses one page; no byte changes |
| Exec.AddStack | kernel/fs/exec.c:78-88 | an inaccessible guard page and a writable stack page above the image |
| Exec.BuildImage | kernel/fs/exec.c:25-110 | the complete new image, or every page it took given back |
| Exec.Exec | kernel/fs/exec.c:25-140 | on any ELF contents: fails with no effect at all, for a bad header, arguments that do not fit, or want of memory; or the process runs exactly the described image with argv on its stack, and all its old pages are given back |
| ExecImage.GoodMeans | kernel/fs/exec.c:54-71 | exec accepts exactly the headers that can be read and whose segments do not wrap, start on a page, are no longer in the file than in memory, and are in the file, the first ending above address 0 |
| ExecImage.SegsJoin | kernel/fs/exec.c:54-71 | the segments are those of the headers to be loaded, in their order |
| ExecImage.SegsOne | kernel/fs/exec.c:57-58 | a header gives a segment exactly if it is to be loaded |
| ExecImage.SizeMeans | kernel/fs/exec.c:65-68 | the image ends where the segment that reaches highest does |
| ExecImage.ProgramInMemory | kernel/fs/exec.c:54-71 | once exec has succeeded, every byte a segment covers is the byte of the file at its place, of the last segment that covers it, and every other byte of the image is zero |
| ExecImage.PermBits | kernel/fs/exec.c:15-23 | bit 2 of the page flags is the write bit of the ELF flags and bit 3 their execute bit; bits 0, 1 and 4 are set |
| ExecImage.PermsInMemory | kernel/fs/exec.c:54-71 | every page has those flags, for the first segment that reaches it |
| ExecImage.TotalMeans | kernel/fs/exec.c:90-107 | the stack the arguments take, string by string, each rounded to 16 bytes |
| ExecImage.ArgInMemory | kernel/fs/exec.c:90-110 | each argument string is in memory with its NUL, at a multiple of 16 packed below the one before, and its address is in the array at sp |
| ExecImage.ArrayInMemory | kernel/fs/exec.c:103-110 | the array is ended by a null and packed below the strings, sp a multiple of 16 |
| ProcRuns.MovedAccounted | kernel/proc.c:261-277 | a process that takes free pages or gives pages back disturbs no other, and all pages stay accounted for |
| ProcRuns.Grow | kernel/proc.c:261-277 | growproc on a process of the table: it holds more or fewer pages, and no other page changed hands |
| ProcRuns.ExecIn | kernel/fs/exec.c:25-140 | exec in a process of the table: its old pages for the new, or nothing |
| ProcRuns.Start | kernel/proc.c:110-150 | a new process holds a trapframe page and an empty address space, or nothing was taken |
| ProcRuns.Fork | kernel/proc.c:281-328 | a child with the bytes and flags of every parent page in pages of its own, or nothing taken |
| ProcRuns.Exit | kernel/proc.c:155-174 | freeproc gives back exactly what the process held |
| ProcRuns.Step | kernel/proc.c:110-328 | one call of one process keeps every page free as before, or in the hands of exactly one process |
| ProcRuns.Run | kernel/proc.c:110-328 | so does any interleaving of fork, exit, growing, shrinking and exec of any number of processes |
| ProcRuns.Lifetimes | kernel/proc.c:110-328 | and when all have exited, the free pages are exactly those free at the start and every other page is unchanged |
| Virtio.SafeAlways | kernel/virtio_disk.c:155-326 | in no admitted state can a step panic or follow a stray descriptor |
| Virtio.StepKeeps | kernel/virtio_disk.c:155-326 | each step of driver, interrupt handler and device keeps the ring invariant |
| Virtio.RunInv | kernel/virtio_disk.c:155-326 | it holds in every state of every interleaving |
| Virtio.RunSafe | kernel/virtio_disk.c:155-326 | no step of any run panics, finds a bad status, or follows anything but a chain of three descriptors in use |
| Virtio.ExactlyOnce | kernel/virtio_disk.c:214-326 | every request on a buffer takes effect exactly once, as made and in order, and completes exactly once, with out-of-order completion and 16-bit wraparound |
| Virtio.NoOverrun | kernel/virtio_disk.c:258-320 | no avail or used slot is overwritten before it is consumed, and comparing the 16-bit indices decides exactly whether entries are left |
| Virtio.OwnBuffer | kernel/virtio_disk.c:234-276 | the device, following descriptors alone, moves exactly the block of the request to or from exactly its buffer |
| Virtio.DescriptorsConserved | kernel/virtio_disk.c:155-212 | free descriptors plus three per request in flight are always 8 |
| Virtio.NoThree | kernel/virtio_disk.c:198-212 | three chains never fit, so at most two requests are in flight |
| VirtioDriver.Disk.AllocDesc | kernel/virtio_disk.c:155-165 | the lowest free descriptor, one fewer free after it; -1 exactly when none is free |
| VirtioDriver.Disk.FreeDesc | kernel/virtio_disk.c:168-181 | one more descriptor is free, and cleared; that it was in use, where the source panics, is what every caller proves |
| VirtioDriver.Disk.FreeChain | kernel/virtio_disk.c:184-196 | frees exactly the three descriptors of the chain |
| VirtioDriver.Disk.Alloc3 | kernel/virtio_disk.c:200-212 | three different free descriptors, or, when no three are free, none taken |
| VirtioDriver.Disk.Fill | kernel/virtio_disk.c:234-271 | formatting the chain and the ring slot is exactly the step Prepare, of which VirtioTransfer.Transfers says what comes of it |
| VirtioDriver.Disk.Start | kernel/virtio_disk.c:214-280 | virtio_disk_rw up to the wait is exactly Prepare then Publish and keeps the invariant; it waits only when descriptors are short |
| VirtioDriver.Disk.End | kernel/virtio_disk.c:282-291 | its end is exactly the step Finish |
| VirtioDriver.Disk.Turn | kernel/virtio_disk.c:308-322 | one turn of the interrupt loop is exactly the step Intr |
| VirtioDriver.Disk.Device | kernel/virtio_disk.c:293-326 | the device, at work during the handler, keeps the invariant |
| VirtioDriver.Disk.Interrupt | kernel/virtio_disk.c:293-326 | with the device posting entries all the while, the loop consumes every entry of the used ring, those added meanwhile included, one safe step each |
| VirtioTransfer.Performs | kernel/virtio_disk.c:234-271 | the chain leads the device to the buffer and the operation of its request |
| VirtioTransfer.Once | kernel/virtio_disk.c:214-326 | from the step that makes a request on, the device performs it at most once, and has when its stage says so |
| VirtioTransfer.Transfers | kernel/virtio_disk.c:214-326 | over every run, between the step that makes a request and the one that ends it the device performs it exactly once: for a write the bytes the buffer held at the call go to its block, for a read the bytes of the block come to the buffer, and nothing else changes; no other step touches the bytes of the buffer |
| VirtioSleep.WorldKeeps | kernel/virtio_disk.c:214-326 | every step of the callers, the interrupt handler, the device and kill is safe and leaves no sleeper whose wait is over |
| VirtioSleep.WorldRun | kernel/virtio_disk.c:214-326 | so it is in every state of every interleaving |
| VirtioSleep.NoSleeperLeft | kernel/virtio_disk.c:226-326 | who sleeps on disk.free[0] finds no three descriptors free, and two requests under way whose ends wake it; who sleeps on a buffer has a request that is not done |
| VirtioCalls.RwReturns | kernel/virtio_disk.c:214-326 | over every run of any number of callers, with all their sleeps: virtio_disk_rw returns after exactly one transfer of its buffer, in the direction asked for, of the bytes held at the call or of the block |
| ExitWait.StepKeeps | kernel/proc.c:281-435 | each step of fork, reparent, exit, wait, sleep and wakeup keeps the invariant |
| ExitWait.RunInv | kernel/proc.c:281-435 | it holds in every state of every interleaving |
| ExitWait.NoLostExit | kernel/proc.c:348-435 | whenever wait_lock is free, no process asleep in wait or on the way there has a zombie child |
| ExitWait.ParentAlive | kernel/proc.c:281-345 | every process past fork, other than init, has a parent that is neither unused nor a zombie |
| ExitWait.ReapedByParent | kernel/proc.c:390-435 | a zombie is freed only by its current parent, in wait, when its own thread has left its stack |
| ExitWait.FreedOnce | kernel/proc.c:390-435 | a freed slot is not freed again before it has been allocated anew |
| ExitWaitCalls.Counted | kernel/proc.c:401-426 | over every run, the scan of wait remembers exactly whether a child has been seen |
| ExitWaitCalls.WaitReturns | kernel/proc.c:390-435 | a wait that leaves its scan by itself has just freed a zombie child, changing no other process, or the process has no child |
| ExitWaitCalls.WaitSleeps | kernel/proc.c:427-434 | it goes to sleep only with a child to wait for and none of its children a zombie |
| ExitWaitCalls.WaitDecides | kernel/proc.c:427-434 | at the end of the table it sleeps exactly if there is a child, and returns exactly if there is none |
| ExitWaitCalls.KilledReturns | kernel/proc.c:427-431 | a killed process leaves wait only when none of its children is a zombie |
| ExitWaitCalls.ForkReturns | kernel/proc.c:281-328 | fork returns with the new process running and its parent the caller, or fails with the slot free again |
| ExitWaitCalls.ExitLeaves | kernel/proc.c:331-375 | when an exiting process is about to become a zombie, its children are init's and every other process has the parent it had |
| Bcache.Hit | kernel/fs/xv6fs/bio.c:67-75 | the first loop of bget finds a buffer of the block exactly when there is one |
| Bcache.Victim | kernel/fs/xv6fs/bio.c:76-88 | the second finds an unused buffer exactly when there is one |
| Bcache.StepKeeps | kernel/fs/xv6fs/bio.c:59-138 | each step of bget, bread, bwrite and brelse keeps the invariant |
| Bcache.RunInv | kernel/fs/xv6fs/bio.c:59-138 | it holds in every state of every interleaving |
| Bcache.HitFirst | kernel/fs/xv6fs/bio.c:66-74 | a hit is the first buffer of its block in the list, and no other buffer of the block is in use |
| Bcache.LeftExactly | kernel/fs/xv6fs/bio.c:106-138 | whether a buffer was left changed and unwritten is decided by its last fill, bwrite or dirty release |
| Bcache.ReadsDisk | kernel/fs/xv6fs/bio.c:92-113 | on every device, what a holder sees after bread and before its own change is the block on the disk exactly when no release has left the buffer changed and unwritten since its last fill or bwrite |
| Bcache.DisciplinedReadsDisk | kernel/fs/xv6fs/bio.c:92-138 | so it is the block on the disk wherever holders write before they release |
| Bcache.UnsavedExample | kernel/fs/xv6fs/bio.c:92-138 | and a run where it is not: a changed buffer released unwritten is found changed again |
| Bcache.OneBufferOneHolder | kernel/fs/xv6fs/bio.c:59-90 | at most one buffer per block is in use, on every device, and at most one holder per buffer |
| Bcache.DoubledExactly | kernel/fs/xv6fs/bio.c:37-54 | a block can have two buffers at all exactly when it is block 0 of device 0 |
| Bcache.NeverRecycled | kernel/fs/xv6fs/bio.c:79-88 | a buffer somebody refers to keeps its block, and only its holder changes its bytes or that block on the disk |
| Bcache.OldestRecycled | kernel/fs/xv6fs/bio.c:77-88 | a miss recycles the unused buffer whose last release is the oldest |
| Bcache.LeastRecentlyUsed | kernel/fs/xv6fs/bio.c:76-88 | by the calls alone: since any release of the buffer that a miss recycles, every other unused buffer has been released |
| Bcache.NoUnderflow | kernel/fs/xv6fs/bio.c:117-138 | reference counts never run below the threads that rely on them |
| BcacheWrites.Works | kernel/fs/xv6fs/bio.c:92-138 | from bget to brelse a thread is at work on a buffer of the block it asked for, whose bytes are those it last put there or found |
| BcacheWrites.BwriteSaves | kernel/fs/xv6fs/bio.c:106-113 | over every run: after bwrite the disk has, under the block asked for, the bytes of the last change by the caller, or what its bread found; no other block and no buffer has changed |
| BcacheWrites.ReadAfterBwrite | kernel/fs/xv6fs/bio.c:92-138 | until somebody changes or writes the block again, whoever has it by bread sees those bytes, whatever buffers were recycled |
| BcacheList.Unlinked | kernel/fs/xv6fs/bio.c:129-130 | taking a node out of the doubly linked circle leaves the circle of the others |
| BcacheList.Inserted | kernel/fs/xv6fs/bio.c:131-134 | putting a node after the head gives the circle with that node first |
| BcacheList.Cache.constructor | kernel/fs/xv6fs/bio.c:37-54 | binit links every buffer in, the last one first |
| BcacheList.Cache.PushFront | kernel/fs/xv6fs/bio.c:131-134 | the four assignments that insert after the head |
| BcacheList.Cache.Unlink | kernel/fs/xv6fs/bio.c:129-130 | the two that take out |
| BcacheList.Cache.FindCached | kernel/fs/xv6fs/bio.c:67-75 | the walk along next returns what Hit says |
| BcacheList.Cache.FindUnused | kernel/fs/xv6fs/bio.c:76-88 | the walk along prev returns what Victim says |
| BcacheList.Cache.Bget | kernel/fs/xv6fs/bio.c:59-90 | a hit gains a reference, a miss recycles the victim; the list stays a permutation of all buffers |
| BcacheList.Cache.Brelse | kernel/fs/xv6fs/bio.c:117-138 | a reference goes; the last one moves the buffer to the front; the list stays a permutation of all buffers |
| Pipe.Tests | kernel/fs/pipe.c:80-133 | the tests for full and empty on the wrapping 32-bit counters are exact |
| Pipe.StoreRing | kernel/fs/pipe.c:95-99 | a byte stored behind the last keeps the ring holding the outstanding bytes |
| Pipe.TakeRing | kernel/fs/pipe.c:123-126 | so does a byte taken |
| Pipe.StepKeeps | kernel/fs/pipe.c:61-133 | each step of pipewrite, piperead, pipeclose and of a kill that wakes a sleeper keeps the invariant |
| Pipe.RunInv | kernel/fs/pipe.c:61-133 | it holds in every state of every interleaving |
| Pipe.BytesInOrder | kernel/fs/pipe.c:79-133 | the bytes consumed are a prefix of the bytes stored and at most 512 are outstanding, however often the counters wrap |
| Pipe.SleepersHaveCause | kernel/fs/pipe.c:79-133 | while the lock is free a sleeping writer means a full pipe open for reading, a sleeping reader a pipe open for writing |
| Pipe.StrandedExactly | kernel/fs/pipe.c:79-133 | while the lock is free a sleeping reader finds bytes in the pipe exactly when it has slept, and the pipe has held bytes, since a writer was killed with bytes stored and not announced |
| Pipe.KillStrands | kernel/fs/pipe.c:87-90 | a killed writer leaves a reader so exactly when the reader sleeps and the writer had bytes unannounced, or it was so left before |
| Pipe.LostExample | kernel/fs/pipe.c:87-90 | a run that leaves a reader asleep on a pipe with one byte in it |
| PipeCalls.PipewriteStores | kernel/fs/pipe.c:79-107 | over every run, what one pipewrite puts in are, in order, the first of the bytes it was given: all of them, unless nobody reads, a byte cannot be copied in or the thread is killed |
| PipeCalls.StoredByWriters | kernel/fs/pipe.c:79-107 | nothing else puts bytes in |
| PipeCalls.TurnsMove | kernel/fs/pipe.c:79-133 | no turn of either loop keeps the lock for nothing: it moves a byte, lets go of the lock, or finds something to read or nobody to write; a writer on a full pipe wakes the readers and sleeps |
| PipeCalls.PipereadDelivers | kernel/fs/pipe.c:109-133 | one piperead delivers the bytes taken out last, in order, at most as many as asked for: that many unless the pipe is then empty, copying out fails or the thread is killed waiting; none of some asked for only when no writer is left |
| Grep.Matchhere | user/grep.c:84-95 | matches at the start of the text exactly when the declarative meaning of the pattern does |
| Grep.Matchstar | user/grep.c:98-105 | the same for c* followed by a pattern |
| Grep.Match | user/grep.c:71-81 | true exactly when the pattern (literals, ., c*, leading ^, trailing $) matches somewhere in the text |
| Grep.LinesJoin | user/grep.c:10-34 | the lines of the input do not depend on where it is cut |
| Grep.FindNl | user/grep.c:21 | the first newline of the buffered bytes, if any |
| Grep.TryLine | user/grep.c:22-27 | one line is written, newline included, exactly when it matches |
| Grep.TryLines | user/grep.c:20-28 | the buffered lines are filtered in order and the unfinished line is left |
| Grep.Fill | user/grep.c:17-19 | read puts the bytes behind those kept and the NUL behind them |
| Grep.Slide | user/grep.c:29-32 | memmove brings the unfinished line to the front |
| Grep.Turn | user/grep.c:17-32 | one read: what is written is the filter of the lines it finishes, and the buffer keeps the unfinished line of all the input so far |
| Grep.Grep | user/grep.c:10-34 | however read cuts the input, the output is the filter of the lines before the first one that does not fit the buffer |
| Grep.WholeFilter | user/grep.c:10-34 | that is the filter of all lines exactly when no matching line lies at or after a line of 1024 bytes or more |
| Grep.LongLineHides | user/grep.c:10-34 | a concrete input for which it is not |
| Grep.LinesWhole | user/grep.c:10-34 | the lines and what is left over are the input, in order, each line with one newline, at its end |
| ShellGrammar.LineSound | user/sh.c:347-449 | what the descent accepts is a line of the grammar and its tokens are those consumed |
| ShellGrammar.LineComplete | user/sh.c:347-449 | every line of the grammar is accepted, and exactly its tokens are consumed |
| ShellGrammar.ParsesGrammar | user/sh.c:330-449 | the descent takes in all tokens exactly when they are those of a grammar line, and finds that line |
| ShellGrammar.Unambiguous | user/sh.c:330-449 | no two lines of the grammar have the same tokens |
| Shell.SkipWs | user/sh.c:274-276 | the next position that is not white space |
| Shell.Gettoken | user/sh.c:268-311 | the first token of the rest, its exact text and the position after it; terminates at the end of the line |
| Shell.Peek | user/sh.c:313-323 | whether the next token begins with one of the given symbols; consumes only white space |
| Shell.Parseredirs | user/sh.c:377-400 | the redirections in order, or a syntax error exactly when a file name is missing |
| Shell.Parsesimple | user/sh.c:418-449 | words and redirections up to a symbol, at most 9 arguments, as the grammar has it |
| Shell.Parseexec | user/sh.c:418-449 | a simple command or a block |
| Shell.Parseblock | user/sh.c:402-416 | a parenthesised line with its redirections |
| Shell.Parsepipe | user/sh.c:364-375 | a pipeline, nested to the right |
| Shell.Parseamps | user/sh.c:352-356 | one background node for each & |
| Shell.Parseline | user/sh.c:347-362 | a list, nested to the right |
| Shell.Nulterminate | user/sh.c:452-496 | exactly the characters after the words of the tree become NUL |
| Shell.NulterminateBoth | user/sh.c:478-488 | the same for the two halves of a pipe or list |
| Shell.LexWords | user/sh.c:268-311 | a word token is a maximal run of characters that are neither white space nor symbols |
| Shell.LineWords | user/sh.c:330-449 | every string of the tree is a word token of the line |
| Shell.LineCovered | user/sh.c:330-449 | every word token of the line is a string of the tree |
| Shell.LexEnds | user/sh.c:268-311 | wherever a run of word characters ends, a word token ends |
| Shell.EndsExactly | user/sh.c:330-496 | the strings of the tree end exactly where runs of word characters of the line do |
| Shell.SymbolsOverwritten | user/sh.c:452-496 | a symbol of the line is overwritten by NUL exactly when it comes right after a word character |
| Shell.SemicolonOverwritten | user/sh.c:452-496 | as the semicolon of "a;b" is, and that of "a ;b" is not |
| Shell.OneTree | user/sh.c:330-449 | the grammar gives no token sequence two trees |
| Shell.Parsetree | user/sh.c:330-343 | for every line: the one tree the grammar gives its tokens, or a syntax error exactly when it gives none |
| Shell.Parsecmd | user/sh.c:330-345 | after nulterminate every argument and file string is exactly its token; the position after each run of word characters holds NUL, a symbol there included, and every other character is unchanged |
| ShellTrees.WrapMeans | user/sh.c:377-400 | < opens descriptor 0 for reading, > descriptor 1 for writing, created and emptied, >> descriptor 1 for writing, created |
| ShellTrees.WrapLast | user/sh.c:377-400 | of several redirections the last is the outermost |
| ShellTrees.ArgsJoin | user/sh.c:418-449 | arguments and redirections come in the order of the line |
| ShellTrees.EveryTree | user/sh.c:330-449 | every tree with such redirections and at most nine words a command, written out by precedence with parentheses where needed, is the tree of that line, and no other tree is |
| ShellTrees.LineMade | user/sh.c:330-449 | and the grammar gives no other trees |
| ShellTrees.LexExactly | user/sh.c:265-311 | the tokens of a line are exactly those it is laid out as: symbols, two > together, and runs of other characters, with white space before, between and after |
| ShellTrees.WrittenLine | user/sh.c:330-449 | so a line that writes a tree out, however it is spaced, has that tree |
| Links.InitInv | kernel/fs/sysfile.c:139-381 | the root directory with its files, each with one link, satisfies the invariant |
| Links.StepKeeps | kernel/fs/sysfile.c:139-381 | each step of sys_link, sys_unlink, create and iput, error paths included, keeps it, but for the release of an inode that has names |
| Links.ReleaseExactly | kernel/fs/sysfile.c:139-381 | iput, which looks at nlink alone, keeps it exactly when no name of the inode is left or about to be entered |
| Links.RunInv | kernel/fs/sysfile.c:139-381 | it holds in every state of every run that has released no inode with names |
| Links.FewNamesSane | kernel/fs/sysfile.c:139-381 | as no run has in which every inode has fewer than 65536 names |
| Links.NlinkCounts | kernel/fs/sysfile.c:139-381 | nlink is the number of entries other than "." naming the inode in linked directories, plus names being entered, exactly when that is below 32768; always it is that number as a 16-bit short |
| Links.UnlinkPanics | kernel/fs/sysfile.c:203-272 | sys_unlink finds a count below 1, and panics, exactly when the number of names modulo 65536 is 0 or at least 32768 |
| Links.UpToRoot | kernel/fs/sysfile.c:274-381 | following ".." from a linked directory reaches the root in as many steps as its depth |
| Links.Tree | kernel/fs/sysfile.c:139-381 | the linked directories form a tree rooted at the root inode: one entry each, in the directory its ".." names |
| LinkOverflow.NamesReached | kernel/fs/sysfile.c:139-201 | from any image with a file and two or more spare inodes, a run of mkdir and link calls gives the file any number of names the new directories have room for |
| LinkOverflow.PanicReached | kernel/fs/sysfile.c:203-272 | with two directories, 32768 names: the count is -32768 and sys_unlink of any of them panics |
| LinkOverflow.FreedUnderNames | kernel/fs/sysfile.c:139-272 | with four, 65536 names: the count is 0, iput may release the inode, and the invariant is lost |
| LinkCalls.Files.Enter | kernel/fs/sysfile.c:170-180 | one more name of the inode, which dropping the entry would take back; or -1 with no change when the name is there or cannot be written |
| LinkCalls.Files.SysLink | kernel/fs/sysfile.c:139-201 | one more counted name, in that directory and for that inode, and no other inode changed, exactly when all its tests pass; otherwise the state is as before, the count given back |
| LinkCalls.Files.SysUnlink | kernel/fs/sysfile.c:203-272 | the name is gone and uncounted, and no other inode changed, exactly for a plain name of a file or empty directory; otherwise no change |
| LinkCalls.Files.Fill | kernel/fs/sysfile.c:300-340 | the new inode with count 1, a directory with "." and ".." |
| LinkCalls.Files.CreateNew | kernel/fs/sysfile.c:301-381 | the new inode with its name and counts, or the inode given up with count 0 and the tree unchanged |
| LinkCalls.Files.Create | kernel/fs/sysfile.c:274-381 | both cases: when it succeeds, exactly how the state changes, and that the invariant holds either way |
| LinkDisk.SysLink | kernel/fs/sysfile.c:139-201 | the tree of names is what the bytes of its directories say, before and after; success exactly for a file on this disk, a name not there and room for it, read off those bytes; a panic exactly when the search for the name lacks a block |
| LinkDisk.SysUnlink | kernel/fs/sysfile.c:203-272 | the same for unlink: the name goes from bytes and tree alike, exactly for a plain name of a file or an empty directory; a panic exactly when the blocks missing under its searches of the two directories are together more than the free ones |
| LinkDisk.UnlinkDir | kernel/fs/sysfile.c:237-255 | its part for a directory |
| LinkDisk.NoHolesCanUnlink | kernel/fs/sysfile.c:203-272 | where no directory has a hole it never panics |
| LinkDisk.Find | kernel/fs/xv6fs/fs.c:546-591 | what the bytes bind the name to is what the tree binds it to |
| LinkDisk.IsEmpty | kernel/fs/xv6fs/fs.c:350-362 | the scan of the bytes answers whether the tree has only "." and ".." there |
| LinkDisk.ClearName | kernel/fs/xv6fs/fs.c:641-670 | clearing the entry keeps bytes and tree alike |

## Left out

- Mkfs.Build: takes fewer than 198 files, since mkfs does not check its 200-entry inode table; and it stops where mkfs, which does not check its block counter either, would write past the disk.
- FileSystem.FileSystem.Filewrite: offset and length below 2^31; it covers the inode branch, not the device branch or the test of `writable`.
- FileSystem.FileSystem.Bmap: asks for a block number below MAXFILE, past which the source panics.
- Heap.Heap.Malloc: sbrk gives memory above all earlier memory; a request above MOSTBYTES that finds no block is not followed past its call of sbrk, which HeapGrant.Sbrk describes.
- Exec.Exec: asks that argv not have exactly 32 entries, since the 32-entry `ustack` has no room for the terminator then (sys_exec passes at most 31), and that each string be shorter than a page, as sys_exec sees to; the ELF and program headers are given decoded, and the copying of the program name is not modelled.
- Links.RunInv: the directories operated on are linked ones, and no inode with names is released; Links.ReleaseExactly says when a release keeps the invariant, and Links.FewNamesSane that runs with fewer than 65536 names to an inode release none.
- LinkCalls.Files.SysLink: whether the path is found, on this disk, and whether the directory has room are given answers; LinkDisk.SysLink takes the room and the name from the bytes of the directory, and whether the two inodes are on one disk stays given.
- LinkCalls.Files.SysUnlink: asks for the count to be at least 1 where the source panics otherwise; Links.UnlinkPanics says exactly when.
- BcacheList.Cache.Bget: asks for a hit or an unused buffer, without which the source panics.
- Bcache.RunInv: runs without bpin and bunpin, which nothing in the repository calls.
- VirtioDriver.Disk.Start: sleeping for free descriptors is one return of the call; VirtioSleep.NoSleeperLeft is about the sleep, with going to sleep and letting go of vdisk_lock as one step, as `SleepLock` justifies.
- Shell.Parsesimple: parseexec reaches its exec node through an alias while redirections wrap it; here the node is wrapped when its argument list is complete.
- ProcRuns.Run: the trapframe is a page a process holds; the registers in it are not modelled.
- FsRuns.Run: one call at a time, as the code keeps the inode locked; which inodes have lost their last link is given.
- ExitWait.RunInv: taking and dropping a lock around code that touches only what it guards is one step.
- FileSystem.FileSystem.Writei: the inode table is a sequence; writing dinodes back to their blocks is not modelled.
- Inode reference counts, iget and iput, the inode cache, mounting and the superblock: the code does not keep `ref` equal to the number of holders.
- The dentry pages that dirlookup allocates and nobody frees: page conservation is stated for address spaces.
- Path lookup: link, unlink and create get the directories and names it finds.
- pipealloc, the file-layer path to pipes, the numbers pipe calls return (PipeCalls has the bytes and the cases), sys_open, sys_read and the file table.
- kvmmake, uvmfirst, proc_mapstacks and start-up; concurrency inside the page allocator and the VM code, which run under locks.
- Traps, CSRs, PLIC, UART, console, virtio initialisation, assembly: hardware plumbing.
- kill by pid, the scheduler's choice of process, timer interrupts, open files and cwd in fork and exit.
- Crash recovery: there is no log code.
- runcmd and the commands of the shell, printf, and the user programs other than sh, grep and umalloc: I/O or short loops.

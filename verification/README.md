# A verified model of the YAFFS2 core

YAFFS2 keeps a file system on NAND flash as a log. Each block of flash is a row of pages that can be
written once; a page holds a chunk of a file or an object header, with tags that say which object and
which chunk it is. Blocks get increasing sequence numbers as they are taken into use. Whatever happens
to a file -- writing, cutting, extending, renaming, deleting -- only appends records. A garbage collector
moves the live records of a block to the end of the log and erases the block. All tables in RAM are
rebuilt at mount time, by scanning the log backwards or from a checkpoint.

This project models that core in Dafny and proves the properties it rests on:

| file | what it is about |
|---|---|
| `records.dfy`, `scan.dfy` | records; the backward scan equals a forward replay of the log |
| `flash.dfy`, `device.dfy` | a running device: files, log, garbage collection, and the invariant that ties RAM to flash |
| `recovery.dfy` | mounting: for every run, what the scan rebuilds of what RAM had, and what exactly it cannot |
| `names.dfy` | crash-atomic creation, deletion and renaming, also over an existing object, while garbage is collected |
| `filedata.dfy` | cache, chunk splitting, reading, writing and resizing refine a flat byte array |
| `bitmap.dfy`, `accounting.dfy`, `collection.dfy` | block states, counters, chunk bitmap, oldest dirty sequence, both scanners |
| `checkpoint.dfy` | the checkpoint stream over scattered blocks, and what is restored from it |
| `tnodes.dfy`, `tnodestream.dfy`, `packed.dfy` | the look-up tree of a file, its checkpoint records, its bit-packed leaves |
| `hanging.dfy` | every object is rooted after a mount |
| `qsort.dfy` | the in-place three-way quicksort |
| `nameval.dfy` | the packed name/value store as a finite map |
| `words.dfy`, `ecc.dfy`, `packedtags.dfy`, `tagscompat.dfy` | words as bits, the error-correcting codes, the packed tags |
| `crypto.dfy` | encrypted chunks, where page and tags share a cipher block |

Objects that the code updates in place are classes whose methods are proved against functions of their
state; loops are loops. The laws about those functions are lemmas. Pointers to tnodes and directory
parents are numbers in maps, with 0 for the null pointer. Calls into the flash driver and the memory
allocator that may fail are modelled as failing as a parameter says or when a counter runs out; clocks,
random numbers and thresholds that only steer choices are arbitrary choices.

What was found on the way, each stated as a lemma or in a contract:

- A header moved by the garbage collector in the middle of a write records the old size, so a crash
  before the file is flushed can lose chunks written earlier. Which ones, exactly, is `Remount.Lost`
  in `Remount.Mount`; the run that does it is `Remount.UnflushedWriteLost`. Such a chunk can come back at
  a later mount (`Remount.LostComesBack`).
- A failed write of a whole chunk drops newer cached data of that chunk: exactly when, and what the file
  holds then, is in `FileData.Store.WriteDataToFile`; the run is `FileData.FailedWriteLosesData`.
- A mount that finishes a replacement cut short by a crash does not keep collections off until the target's
  deletion is recorded. One that moved the header of the renamed object before that would bring the target
  back beside it (`Names.CollectedMarkIsLost`).
- If the newest block was taken for written but all its chunks turn out blank, allocation goes on in a
  block counted as erased. That is the only case in which the counters go wrong
  (`Accounting.Accounts.Yaffs2Scan`); the mount that does it is `Accounting.StrandedMount`.
- A name/value record that ends where the buffer ends is not found as long as it does. It comes back when
  an earlier name is deleted, unless it has been overwritten (`NameVal.Store.Del`,
  `NameVal.LostNameComesBack`). A replacement by a longer value in that state passes the space check and is
  written behind the buffer (`NameVal.Store.Set`, `NameVal.ReplacementOverruns`).
- A name/value record that leaves fewer than four bytes zeroes what lies behind the buffer
  (`NameVal.OverrunHappens`).
- A checkpoint may take all erased blocks: the reserve is compared with a count that the blocks taken leave
  only when the stream is closed. And a checkpoint whose last page has found no block is taken for complete
  (`Checkpoint.Checkpointer.WriteCheckpointData`; the run is `Checkpoint.LastPageMissing`).
- A tnode into which a record of a checkpoint is read is lost if the reading fails
  (`TnodeStream.LoadTnode`).
- One flipped bit can turn a legal sequence number into that of erased flash; such a chunk's tags are
  not repaired (`PackedTags.RecoverTags`, `PackedTags.MayLookErased`).
- A flipped low bit inside the code of the yaffs1 tags makes the check spoil a good bit; a flipped high
  one is reported as beyond repair (`TagsCompat.CheckFlipped`).
- The two-bit serial numbers of yaffs1 chunks pick the newer of two only for certain distances
  (`Accounting.Accounts.NewestOfTwo`).

## Model

| member | source | states |
|---|---|---|
| `Replay.ScanIsForwardReplay` | yaffs_yaffs2.c:1049-1515 | for every log, and every object that is a plain file in it (its headers say so, and no header shadows it or names it as a directory), the backward scan gives exactly the chunk map, size, name and newest header that replaying the log forward gives; in the replay a data record sets an entry, a shrink or deletion header drops those at or beyond its size, and the last header those beyond its file size |
| `Replay.StepKeepsSum` | yaffs_yaffs2.c:1049-1515 | the invariant behind it: taking one record from the replayed part of the log to the scanned part leaves the sum of both unchanged |
| `Replay.ScanMeets` | yaffs_yaffs2.c:1147-1190 | every object with a record in the log is in the scanned table |
| `FlashSteps.AppendedData` | yaffs_guts.c:2722-2848 | a data record at the end of the log keeps every file recoverable; the new copy takes the entry |
| `FlashSteps.AppendedHeader` | yaffs_guts.c:2996-3168 | a header at the end of the log keeps every file recoverable; it may cut only what its file no longer holds |
| `FlashSteps.ErasedFile` | yaffs_guts.c:1875-1948 | a block with nothing live on it and no shrink flag may be erased: every stale record its headers cut is gone already or goes with it |
| `FlashSteps.MarkerCoversAll` | yaffs_yaffs2.c:808-891 | a hole marker that is the newest record of its file covers everything from its size on |
| `LogDevice.Device.constructor` | yaffs_guts.c:1819-1854 | a formatted device satisfies the invariant that ties RAM to what a scan would find |
| `LogDevice.Device.FindBlockForAllocation` | yaffs_guts.c:1950-1996 | an erased block becomes the one written to, and its sequence number is above all others; none is found if and only if there is none |
| `LogDevice.Device.WriteNew` | yaffs_guts.c:386-486 | a record goes to the next page of the log, or is turned down without any change: for want of a page, or for lack of space if it may not use the reserve |
| `LogDevice.Device.DeleteChunk` | yaffs_guts.c:2869-2931 | the page is live no more; the block is erased exactly if nothing in it is live then, no shrink header keeps it and it is full or being collected; no file changes and RAM stays recoverable |
| `LogDevice.Device.BlockNotDisqualifiedFromGC` | yaffs_yaffs2.c:120-136 | a block with a shrink header is passed if and only if no older block has discarded pages, so what the header cuts is gone; any other block is passed |
| `LogDevice.Device.FindRefreshBlock` | yaffs_yaffs2.c:143-198 | the oldest full block, if there is one; nothing before it has been discarded, so a shrink header in it has done its work although the test may refuse it |
| `LogDevice.Device.CopyChunk` | yaffs_guts.c:2199-2303 | a live chunk or header is written again, after everything else on flash, a header with its marks cleared and the present size, and its owner uses the copy; no file changes; it fails only for want of a page |
| `LogDevice.Device.GarbageCollectBlock` | yaffs_guts.c:2099-2369 | a pass leaves every file with the same bytes in every chunk and the same header contents, though copied headers lose their shrink mark, and keeps the scan invariant. Between the place where it started and the place it got to no page of the block is live any more; it gets past all of them, or past as many as its quota of five, or fails, and that only for want of room; a pass over the whole block erases it, as any pass does with a block with nothing live |
| `LogDevice.Device.CheckGarbageCollection` | yaffs_guts.c:2541-2629 | the same before a write, for one or two blocks picked: a block is collected unless none may be, with the progress of one pass; the block is one that passes the disqualification test, now or when it was remembered, or the oldest full one, which is taken without the test when a refresh is due |
| `LogDevice.Device.CollectOnce` | yaffs_guts.c:2541-2629 | one choice and one pass: nothing is collected only if the block chosen may not be, or if a refresh is due and no block is full; else the pass makes the progress stated for it, from where an unfinished one stopped |
| `LogDevice.Device.PutChunk` | yaffs_guts.c:2722-2848 | a new copy of a chunk takes the entry of its file; it fails only for want of a page, or of space if it may not use the reserve |
| `LogDevice.Device.WriteChunkDataToObject` | yaffs_guts.c:2933-2991 | one chunk of one file has the new bytes, nothing else changes; it fails only for want of a page, or of space if it may not use the reserve |
| `LogDevice.Device.UpdateObjectHeader` | yaffs_guts.c:2996-3168 | the newest header of the file says its present size; with the shrink mark, nothing stale beyond comes back; it fails only for want of a page, or of space if it may not use the reserve |
| `LogDevice.Device.DoWriteDataToFile` | yaffs_guts.c:3529-3703 | the chunks reached hold the new bytes, all others what they held; the size follows |
| `LogDevice.Device.PruneResizedChunks` | yaffs_guts.c:3716-3755 | exactly the chunks at or beyond the new size are dropped |
| `LogDevice.Device.ResizeDown` | yaffs_guts.c:3758-3786 | the file is cut to the new size, its last partial chunk written again |
| `LogDevice.Device.HandleHole` | yaffs_yaffs2.c:808-897 | a hole is filled or marked; chunks before it stay, and nothing stale shows in it |
| `LogDevice.Device.WriteDataToFile` | yaffs_guts.c:3705-3710 | a write, with a hole before it if it starts past the end: what each chunk holds, and the new size; the invariant is kept. It stops early only for want of a page or of space. If the hole could not be marked no other file has changed and the invariant holds but for the file itself |
| `LogDevice.Device.ResizeFile` | yaffs_guts.c:3789-3826 | a truncation or extension: what each chunk holds, the new size, and that a header records it; the invariant is kept. It fails only for want of a page or of space; no other file has changed then and the invariant holds but for the file itself |
| `LogDevice.Device.FlushFile` | yaffs_guts.c:3848-3875 | the newest header records the size; no file changes; it fails only if there is something to write and no room for it |
| `LogDevice.Device.ChangeObjectName` | yaffs_guts.c:1692-1747 | a rename appends one header and keeps the invariant; it is refused, and nothing changes, if there is a file of that name, unless it is forced; it fails otherwise only for want of room, and then all files are as they were |
| `LogDevice.Device.MknodFile` | yaffs_guts.c:1551-1644 | a new empty file appears, others stay; it fails only for want of room; on a blank device with room it takes the first chunk |
| `LogDevice.Device.Bury` | yaffs_guts.c:4002-4031 | once the deletion header is written, dropping the file's headers keeps its stale chunks from coming back |
| `LogDevice.Device.DeleteFile` | yaffs_guts.c:3934-3967 | the file is gone, all others stay, and a scan will not find it; it fails only for want of room, and then all others stay too, and the invariant holds but for the file itself |
| `Recovery.IndexBlocks` | yaffs_yaffs2.c:941-1014 | the index lists every block that holds something, once |
| `Recovery.ScanBackwards` | yaffs_yaffs2.c:912-1540 | reading the pages newest first gives the table that the record-level scan gives for the whole log in write order, of which there is one |
| `Remount.NothingLater` | yaffs_yaffs2.c:1147-1515 | after the copy RAM knows, the log does not rewrite the chunk, and cuts it exactly when the newest header is later and records a size at or before the chunk |
| `Remount.StaleIsCut` | yaffs_yaffs2.c:808-891 | every stale record of a chunk RAM does not hold is cut by a later header still on flash |
| `Remount.EntriesRebuilt` | yaffs_yaffs2.c:1147-1515 | for every file, flushed or not: the scan finds exactly the chunks RAM holds but for the lost ones, each at the same place, and no others below the size in RAM |
| `Remount.LostIsCut` | yaffs_yaffs2.c:1147-1515 | every copy of a lost chunk precedes the newest header, which cuts it |
| `Remount.SizeRebuilt` | yaffs_yaffs2.c:1160-1183 | for every file the scan finds the size the newest header records, or the end of the data written after it if that lies further |
| `Remount.SyncedLosesNothing` | yaffs_guts.c:3848-3875 | a file whose header is up to date has no lost chunk, and its size is found |
| `Remount.GoneNotRebuilt` | yaffs_guts.c:4193-4222 | a deleted file is not found, or is found under deleted and stripped |
| `Remount.Mount` | yaffs_yaffs2.c:912-1540 | after any run of creations, writes, truncations, hole extensions, renames, deletions, flushes, collections and erasures, a mount finds exactly the files of RAM under their names. Of each file, flushed or not, it finds a chunk if and only if not both: the newest header was written after it, and records a size at or before its start; a file whose header is up to date comes back whole |
| `Remount.MovedHeaderLoses` | yaffs_guts.c:2244-2274 | when a collection moves the header of a file in the middle of a write, a chunk the file holds is lost to a mount exactly if it starts at or beyond the size from before the write |
| `Remount.UnflushedWriteLost` | yaffs_guts.c:2541-2629 | the failing run on a device: a file is made and two chunks are written to it; between them the refresh of the oldest block moves its header; RAM holds both chunks, a mount finds the second only |
| `Remount.MountAgain` | yaffs_yaffs2.c:912-1540 | from flash alone, after every file has been flushed, a mount builds a device with the same files in which the invariant holds again, so that all that is proved of a running device holds over any number of mounts |
| `Remount.LostComesBack` | yaffs_yaffs2.c:1276-1360 | a lost chunk is left out by one mount and found again by the next, with its data from before the crash, if and only if the header written in between, not a cutting one, records a size beyond its start |
| `Remount.ErasedIsDisposable` | yaffs_guts.c:1875-1948 | a block that the device erases is one that the log of names can do without: its records are no newest headers but of deleted objects, and what is left before them brings none of those back |
| `Names.NameScan` | yaffs_yaffs2.c:1276-1515 | an object that no mark after its newest header shadows gets the name, parent and kind of that header from a scan |
| `Names.NoOtherName` | yaffs_yaffs2.c:1276-1515 | shadowed or not, an object that ends with a header has that of its newest one |
| `Names.ShadowScan` | yaffs_yaffs2.c:1365-1395 | an object shadowed by the newest header of another, with nothing of its own after it, ends stripped under unlinked |
| `Names.LogShows` | yaffs_yaffs2.c:1049-1515 | a log that records the objects of RAM, also between the two headers of a replacement, makes a scan show exactly these objects |
| `Names.HeaderKeeps` | yaffs_guts.c:2996-3168 | a header that names an object, for the first time or again, takes the log to the tree with that object so named |
| `Names.ShadowKeeps` | yaffs_guts.c:1791-1812 | the header that renames over a target takes the log to the tree with the renamed object in its place and without the target |
| `Names.WriteKeeps` | yaffs_guts.c:2996-3168 | every header that an operation writes, the target's own deletion and an outright deletion among them, takes the log from recording the tree before it to recording the tree after it |
| `Names.RepeatKeeps` | yaffs_guts.c:2256-2278 | a header that says what is known already, as one does that a collection copies with its marks cleared, changes nothing, also between the two headers of a replacement |
| `Names.EraseKeeps` | yaffs_guts.c:1875-1948 | erasing a block none of whose records is the newest header of an object in use leaves the log as good as it was, also between the two headers of a replacement |
| `Names.Tree.constructor` | yaffs_guts.c:5088-5114 | an empty device satisfies the invariant |
| `Names.Tree.Mounted` | yaffs_guts.c:4193-4222 | from any state that a crash may leave, and nothing but what is on flash, a mount gives a tree with the invariant and the names the scan shows, the target of a replacement cut short deleted for good; every state of flash on the way can be mounted again with the same names |
| `Names.Tree.StripDeletedObjects` | yaffs_guts.c:4193-4222 | what is found under unlinked is deleted, and the names shown do not change on the way |
| `Names.CollectedMarkIsLost` | yaffs_guts.c:2256-2278 | a collection that copies the header of the renamed object between the two headers of a replacement would bring the target back, if and only if it has a header left |
| `Names.Tree.FindObjectByName` | yaffs_guts.c:4532-4588 | the object of that name in the directory, if and only if there is one |
| `Names.Tree.IsNonEmptyDirectory` | yaffs_guts.c:3969-3973 | whether any object has that directory as its parent |
| `Names.Tree.Reclaim` | yaffs_guts.c:2869-2931 | erasing blocks whose chunks have all been discarded changes nothing that a scan shows, at no state on the way |
| `Names.Tree.CheckGarbageCollection` | yaffs_guts.c:2541-2629 | nor does collecting garbage: headers and data written again, blocks erased; while a target is being replaced it is switched off |
| `Names.Tree.UpdateObjectHeader` | yaffs_guts.c:2996-3168 | collection, the header, the discarding of the old one: the tree that a scan shows changes at most once on the way |
| `Names.Tree.UpdateParent` | yaffs_guts.c:4420-4441 | the header of the changed directory may go to the log without changing what a scan shows |
| `Names.Tree.ChangeObjectName` | yaffs_guts.c:1692-1747 | the object moves in RAM and one header records it; refused if another object has the name |
| `Names.Tree.ReplaceTarget` | yaffs_guts.c:1791-1812 | renaming over an object: one record decides, before it the old tree shows, from it on the new, whatever is erased on the way |
| `Names.Tree.RenameObject` | yaffs_guts.c:1749-1815 | a rename succeeds if and only if the new name is not too long, the old one exists and the new one does not belong to a directory with something in it; an object that has the new name is replaced. It is crash-atomic: in whatever state a crash leaves flash during the rename, between any two page writes or block erasures and with garbage being collected, the scan shows exactly the old tree or exactly the new one, in which the target name belongs to the renamed object alone, and never the old one after the new; a refused rename changes nothing |
| `Names.Tree.MknodObject` | yaffs_guts.c:1551-1644 | creation succeeds if and only if the name is free, and is crash-atomic in the same sense |
| `Names.Tree.WriteChunk` | yaffs_guts.c:2933-2991 | writing file data, with the collections it sets off, never changes the tree that a scan shows |
| `Names.Tree.UnlinkObject` | yaffs_guts.c:4033-4118 | deletion succeeds if and only if the object is no directory with something in it, and is crash-atomic in the same sense |
| `Offsets.Shifts` | yaffs_guts.c:161-176 | the shift and the odd factor of the chunk size |
| `Offsets.AddrToChunk` | yaffs_guts.c:106-130 | shift, divide and mask give quotient and remainder by the chunk size |
| `FileData.Store.FlushFilesChunkCache` | yaffs_guts.c:3201-3250 | dirty entries go to NAND lowest chunk first; every read sees what it saw |
| `FileData.Store.GrabChunkCache` | yaffs_guts.c:3301-3350 | a slot is freed, flushing its file if it is dirty; every read sees what it saw |
| `FileData.Store.UseChunkCache` | yaffs_guts.c:3372-3393 | use counters only; at most one entry per chunk stays true |
| `FileData.Store.ReadPiece` | yaffs_guts.c:3437-3527 | one piece of a read, through the cache or past it, is what the file holds there |
| `FileData.Store.WriteCached` | yaffs_guts.c:3594-3645 | a part of a chunk written through the cache shows, and nothing else changes; it fails if and only if the chunk is not dirty in the cache already and the device refuses the space for it |
| `FileData.Store.WriteUncached` | yaffs_guts.c:3646-3670 | the same without a cache |
| `FileData.Store.WriteWhole` | yaffs_guts.c:3672-3684 | a whole chunk goes to NAND and its cache entry is dropped, even when the write failed |
| `FileData.Store.DoWriteDataToFile` | yaffs_guts.c:3529-3703 | what every chunk reads as afterwards, including the chunk a failed write may lose |
| `FileData.Store.ReadDataFromFile` | yaffs_guts.c:3437-3527 | reading gives the bytes of the flat array and zeros past its end, and changes no file |
| `FileData.Store.WriteDataToFile` | yaffs_guts.c:3705-3710 | writing gives the flat array with the bytes written and the gap zero, if and only if no chunk was lost; it stops before the end only if the device refused a write meanwhile, so on a device that refuses none all bytes are written, for every offset and length. A chunk is lost exactly when it was to be written whole, that failed, and the cache held a dirty entry for it that differs from NAND; then that one chunk goes back to what NAND held of it when the write began, and every other byte is as it should be |
| `FileData.Store.PruneResizedChunks` | yaffs_guts.c:3716-3755 | exactly the chunks that start at or past the new size go |
| `FileData.Store.ResizeDown` | yaffs_guts.c:3758-3786 | NAND is cut at the new size, byte by byte |
| `FileData.Store.HandleHole` | yaffs_yaffs2.c:808-897 | a hole reads as zeros whether filled or marked |
| `FileData.Store.ResizeFile` | yaffs_guts.c:3789-3826 | the flat array is cut or padded with zeros; other files stay |
| `FileData.Store.FlushFile` | yaffs_guts.c:3848-3875 | contents stay, and NAND alone has all of them |
| `FileData.PatchedIsFlat` | yaffs_guts.c:3529-3703 | without a lost chunk the patched chunks are the flat write |
| `FileData.LostIsFlat` | yaffs_guts.c:2957-2959 | with a lost chunk the patched chunks are the flat write if and only if NAND held what the cache held |
| `FileData.FailedWriteLosesData` | yaffs_guts.c:3672-3684 | the failing run through the write call: a byte is written and stays in the cache, then a write of the whole chunk finds no space, and the byte is gone |
| `Bitmap.ChunkBitmap.SetChunkBit` | yaffs_bitmap.c:59-66 | the page joins the set of its block, other blocks keep theirs |
| `Bitmap.ChunkBitmap.ClearChunkBit` | yaffs_bitmap.c:50-57 | the page leaves the set of its block, other blocks keep theirs |
| `Bitmap.ChunkBitmap.ClearChunkBits` | yaffs_bitmap.c:43-48 | the set of one block is emptied |
| `Bitmap.ChunkBitmap.CheckChunkBit` | yaffs_bitmap.c:68-74 | whether the page is in the set |
| `Bitmap.ChunkBitmap.StillSomeChunkBits` | yaffs_bitmap.c:76-86 | whether the set is not empty |
| `Bitmap.ChunkBitmap.CountChunkBits` | yaffs_bitmap.c:88-104 | bytes and bits counted in loops give the size of the set |
| `Accounting.Accounts.CountFreeChunks` | yaffs_guts.c:5454-5479 | the sum over all blocks, which the invariant makes the running counter |
| `Accounting.Accounts.FindBlockForAllocation` | yaffs_guts.c:1950-1996 | an erased block is taken and the counters agree; it fails only if none is erased |
| `Accounting.Accounts.AllocateChunk` | yaffs_guts.c:2016-2068 | a page that was free is given out and counted, the next one of the block being filled; none is given if and only if no block is being filled and none may be taken; nothing else changes |
| `Accounting.Accounts.SkipRestOfBlock` | yaffs_guts.c:2087-2096 | the block counts as full, its free pages stay counted |
| `Accounting.Accounts.CheckpointErase` | yaffs_checkptrw.c:29-59 | each checkpoint block becomes erased if the driver erases it, else bad, and is counted as such; all others stay |
| `Accounting.Accounts.ClearOldestDirtySequence` | yaffs_yaffs2.c:90-100 | a block that goes out of use is no longer the oldest dirty one |
| `Accounting.Accounts.UpdateOldestDirtySequence` | yaffs_yaffs2.c:107-118 | the number becomes the lesser of itself and that of the block; if it was that of the oldest block with discarded pages, it is so again once the block has its newly discarded page |
| `Accounting.Accounts.CalcOldestDirtySequence` | yaffs_yaffs2.c:44-72 | the remembered number is that of the oldest block with discarded pages, and the remembered block, if one is full, is such a block with that number |
| `Accounting.Accounts.BlockBecameDirty` | yaffs_guts.c:1875-1948 | a block with no page in use becomes erased if it is healthy and the driver erases it, else it is retired; all counters agree |
| `Accounting.Accounts.DeleteChunk` | yaffs_guts.c:2869-2931 | one page leaves use; when it was the last one its block is erased or retired by the same rule; all counters agree |
| `Accounting.Accounts.SoftDeleteChunk` | yaffs_guts.c:1016-1030 | a page of a deleted file counts as free while it stays in use |
| `Accounting.Accounts.DropSoftChunk` | yaffs_guts.c:2207-2232 | when its block is collected the page is forgotten without being counted twice, and the block goes with the last one by the same rule |
| `Accounting.Accounts.BlockNotDisqualifiedFromGC` | yaffs_yaffs2.c:120-136 | exactness: a shrink-header block is accepted if and only if some full block has discarded pages and none of those is older |
| `Accounting.Accounts.FindRefreshBlock` | yaffs_yaffs2.c:143-198 | the oldest full block is picked, once per refresh period |
| `Accounting.Accounts.GarbageCollectBlock` | yaffs_guts.c:2099-2369 | however the pass ends the counters agree and clean-ups never exceed the pages of a block; no page between the place where it started and the place it got to is in use any more, it gets past its quota or the end unless allocation failed, and a block left with nothing in use is erased or retired |
| `Accounting.Accounts.EndOfBlock` | yaffs_yaffs2.c:1500-1513 | a scanned block gets its state, and is erased or retired if nothing in it is in use |
| `Accounting.Accounts.SortBlocks` | yaffs_yaffs2.c:1036-1037 | the blocks to scan in order of sequence number |
| `Accounting.Accounts.Yaffs2Scan` | yaffs_yaffs2.c:912-1540 | whatever the chunks hold, which pages are in use and the state of every block are given by the kinds of the chunks and what the driver says; the counters agree with the blocks after the scan and no block is left to be filled up, if and only if the newest block is not a blank one that the driver took for written; in that case allocation is left to go on in a block that counts as erased |
| `Accounting.Accounts.Yaffs1Scan` | yaffs_yaffs1.c:58-420 | the counters agree after the forward scan, every block has the state its chunks and the driver give it, and the chunks in use are exactly those kept of all chunks found: when two claim one place, the later found is kept if it counts one more, else the earlier |
| `Accounting.Accounts.PlacedKeys` | yaffs_guts.c:2768-2837 | a place is held after the scan if and only if a chunk that claims it was found, and what is held there claims it |
| `Accounting.Accounts.NewestOfTwo` | yaffs_guts.c:2768-2837 | of two chunks that claim one place, found anywhere among the others, the scan keeps the one written later if and only if it was written right after the other, give or take four writes, or is found first and is not three writes ahead, give or take four |
| `Accounting.Accounts.NewerHeaderKept` | yaffs_yaffs1.c:246-261 | when the two-bit serial rule picks the newer of two, exactly |
| `Accounting.StrandedMount` | yaffs_yaffs2.c:1077-1119 | the failing mount: a device whose one block is blank though the driver did not know it is scanned, and the next chunk taken; the block is full then and counts as erased all the same |
| `Checkpoint.Checkpointer.FindNextErasedBlock` | yaffs_checkptrw.c:62-88 | the first erased block from the cursor on |
| `Checkpoint.Checkpointer.CheckpointErase` | yaffs_checkptrw.c:29-59 | each block of the last checkpoint becomes erased if the driver erases it, else bad, and is counted as such; no other block or its contents change |
| `Checkpoint.Checkpointer.FlushBuffer` | yaffs_checkptrw.c:188-238 | the buffer becomes the next page of the stream, in the block last used or a newly taken one; it fails only if that is full and no block is erased, and changes nothing then |
| `Checkpoint.Checkpointer.CheckpointWrite` | yaffs_checkptrw.c:241-274 | the bytes are appended to the stream across pages and blocks until a flush fails for want of a block; if that is on the last byte of a record it does not show, and of the next record one byte goes behind the page waiting in the buffer |
| `Checkpoint.Checkpointer.WriteBlockInfo` | yaffs_yaffs2.c:313-340 | the block states streamed are those each had at the moment its byte was taken, while flushes turn erased blocks into checkpoint blocks |
| `Checkpoint.Checkpointer.OpenForWriting` | yaffs_checkptrw.c:126-178 | the stream starts empty, if and only if a block is erased beyond the reserve; each block of the last checkpoint is erased or found bad as the driver says, and no other block is touched |
| `Checkpoint.Checkpointer.CloseForWriting` | yaffs_checkptrw.c:351-388 | after the last page the blocks used come out of the free and erased counts; the stream is complete in them, or it does not fit and no block is left that is erased, which is not asked about |
| `Checkpoint.Checkpointer.FindNextCheckpointBlock` | yaffs_checkptrw.c:90-123 | from the hint of the last page, the next block of the stream is found |
| `Checkpoint.Checkpointer.LoadPage` | yaffs_checkptrw.c:297-340 | the page read is the next one that was written |
| `Checkpoint.Checkpointer.CheckpointRead` | yaffs_checkptrw.c:276-349 | the bytes read are those written at that place, with the same running sums, across any scatter of blocks |
| `Checkpoint.Checkpointer.CloseForReading` | yaffs_checkptrw.c:351-388 | exactly the blocks read are marked, as far as the restored copy has them erased, and leave the counts |
| `Checkpoint.Checkpointer.WriteCheckpointData` | yaffs_yaffs2.c:667-708 | NAND then holds a complete checkpoint of the device as it is if and only if a block was erased beyond the reserve at first and the stream fits in all blocks erased once the last checkpoint is, so the reserve is not kept; it is taken for complete if and only if the stream is at most one page longer than that. Blocks that hold anything else are not touched |
| `Checkpoint.LastPageMissing` | yaffs_yaffs2.c:667-708 | the failing run: two erased blocks of one page each, a stream that needs three pages; the checkpoint is taken for complete and its last page is nowhere |
| `Checkpoint.Checkpointer.ReadCheckpointSum` | yaffs_yaffs2.c:647-664 | the sum of what was read equals the one that was written |
| `Checkpoint.Checkpointer.ReadCheckpointData` | yaffs_yaffs2.c:710-757 | block information, counters and all records come back exactly |
| `Checkpoint.Checkpointer.SaveAndRestore` | yaffs_yaffs2.c:771-806 | after losing RAM: the block information comes back byte for byte but for the states of blocks that were erased or held the last checkpoint, of which exactly those that hold the stream say so; chunk bitmap, counters and object records come back, and the counters agree with the restored blocks. It succeeds if and only if the checkpoint can be written completely, by the size of its stream, and takes no more blocks than the reader allows for; blocks that hold anything else are not touched |
| `Checkpoint.CompositeSum` | yaffs_checkptrw.c:180-186 | the low byte is the xor, and above it stands the sum, up to what a word holds |
| `Checkpoint.WordBack` | yaffs_yaffs2.c:283-310 | four-byte words come back as written |
| `Hanging.ObjectTable.IsHanging` | yaffs_guts.c:4270-4296 | an object hangs if and only if it is not a top directory, not directly under one, and has no way of at most 101 directory links to the root |
| `Hanging.ObjectTable.FixHangingObjects` | yaffs_guts.c:4248-4306 | for any parent graph, with cycles and non-directory parents: the objects are taken in turn, and each is moved to lost+found if and only if it hangs as the others are by then; one with a way of at most 101 links is not moved. Afterwards every object is a top directory, directly under unlinked or deleted, or reaches the root; no rooted object loses its root |
| `Hanging.MoveKeepsRooted` | yaffs_guts.c:4487-4530 | moving one object to lost+found takes the root from nobody |
| `Tnodes.TallEnough` | yaffs_guts.c:759-767 | the tree is tall enough if and only if nothing of the chunk number is left above its top |
| `Tnodes.FileStructure.constructor` | yaffs_guts.c:1439-1507 | a fresh file has one blank level-0 tnode and no entries |
| `Tnodes.FileStructure.FindLevel0Tnode` | yaffs_guts.c:743-784 | the walk down finds the tnode of a chunk if and only if the tree has one |
| `Tnodes.FileStructure.Grow` | yaffs_guts.c:823-842 | a taller tree has the same entries, also when tnodes run out half-way, which they do exactly when there are fewer than levels to add |
| `Tnodes.FileStructure.StepDown` | yaffs_guts.c:844-880 | one level down: what is missing is added, a passed tnode takes its place |
| `Tnodes.FileStructure.AddOrFindLevel0Tnode` | yaffs_guts.c:797-891 | the requested tnode becomes reachable if and only if as many tnodes are to spare as the tree lacks for it: one for each level it must grow by and one for each place empty on the way down; just as many are used. No entry outside it changes, and none at all when allocation fails part-way; the height is the least that serves; tnodes of other files stay, and none comes loose |
| `Tnodes.FileStructure.PruneWorker` | yaffs_guts.c:1134-1176 | a tnode stays if and only if it is on the left edge or some entry below it is not zero; no entry changes; those that go are freed |
| `Tnodes.FileStructure.PruneFileStructure` | yaffs_guts.c:1178-1217 | every entry is kept, the left spine stands, and the height is the least that some entry needs; what leaves the tree is to spare again |
| `TnodeStream.CheckpointTnodeWorker` | yaffs_yaffs2.c:454-482 | the level-0 tnodes below a tnode are written left to right, each after its first chunk number |
| `TnodeStream.WriteCheckpointTnodes` | yaffs_yaffs2.c:484-500 | all of them, then the end marker |
| `TnodeStream.LoadTnode` | yaffs_yaffs2.c:515-528 | one record is put into the tree if and only if the stream has it, its chunk number is not too large and there are tnodes enough for it and for the way to it; a tnode that was made for it comes loose if not |
| `TnodeStream.ReadCheckpointTnodes` | yaffs_yaffs2.c:502-540 | for any stream: reading fails only if tnodes run out, the stream breaks off or a chunk number is too large, and tnodes do not run out if those to spare would make the tree into one that has all the recorded places, with one left over; else each chunk has the entry of its last record. A tnode is lost if it fails while one is being read |
| `TnodeStream.ParseFlat` | yaffs_yaffs2.c:484-540 | what was written parses back to the same records, whatever follows |
| `TnodeStream.RecsRebuild` | yaffs_yaffs2.c:454-540 | the records of a tree, put into an empty one, give every chunk its entry |
| `TnodeStream.SaveAndRestoreTnodes` | yaffs_yaffs2.c:454-540 | a saved tree read into a fresh file gives the same chunk map; it does so whenever there are as many tnodes to spare as the saved tree has |
| `PackedLevel0.LoadLevel0Tnode` | yaffs_guts.c:676-704 | for every even width from 16 to 30: the entry at the position becomes the value without its group bits; the other fifteen stay, also across two words |
| `PackedLevel0.GetChunkGroupBase` | yaffs_guts.c:706-733 | reading gives the bits of the entry, moved up by the group bits |
| `PackedLevel0.RoundedDown` | yaffs_guts.c:687-731 | as numbers: shifting out and in again rounds down to the chunk group |
| `PackedLevel0.StoreThenFetch` | yaffs_guts.c:676-733 | a stored chunk number that fits comes back rounded down to its group, any other position reads as before |
| `Qsort.InsertionSort` | yaffs_qsort.c:92-98 | the range is sorted and rearranged, nothing outside changes |
| `Qsort.Med3` | yaffs_qsort.c:71-76 | the index of a median of three |
| `Qsort.Partition` | yaffs_qsort.c:111-138 | the five-zone split around the pivot, a rearrangement of the range |
| `Qsort.VecSwap` | yaffs_qsort.c:45-66 | two blocks are exchanged, nothing else changes |
| `Qsort.Gather` | yaffs_qsort.c:147-151 | the two block swaps bring equal elements between the lesser and the greater ones |
| `Qsort.Round` | yaffs_qsort.c:90-163 | one round, with the recursion on the left part, puts a beginning of the range in final place |
| `Qsort.QSort` | yaffs_qsort.c:83-163 | for every total preorder the range ends sorted and a permutation of what it was, and the algorithm terminates |
| `NameVal.Store.constructor` | yaffs_nameval.c:33-71 | a zeroed buffer is the empty map |
| `NameVal.Store.StrNCmp` | yaffs_nameval.c:41-41 | comparing up to the record size decides whether the names are equal |
| `NameVal.Store.Find` | yaffs_nameval.c:33-55 | position and size of the record with the name, if and only if there is one |
| `NameVal.Store.Used` | yaffs_nameval.c:57-71 | where the records end |
| `NameVal.Store.Del` | yaffs_nameval.c:73-86 | the name goes, all others keep their values and order, the freed bytes are zero; the map is the old one without the name unless a name went while a record ended at the end of the buffer: that record then comes back as the last one, with its value |
| `NameVal.Store.Append` | yaffs_nameval.c:116-123 | the record, and the four bytes of padding the name copy leaves behind it, wherever it starts |
| `NameVal.Store.Set` | yaffs_nameval.c:88-125 | map update with both flags and the space check; a record that leaves a byte free is stored; one that fits exactly is written and not seen until an earlier name is deleted; one is written past the end of the buffer if and only if it replaces a shorter value while a record ends at the end of the buffer. The bytes behind the buffer afterwards are given in every case, with an if-and-only-if for their staying as they were |
| `NameVal.LostNameComesBack` | yaffs_nameval.c:73-86 | a run: a name that is not found is found, with its value, after another one has been deleted |
| `NameVal.ReplacementOverruns` | yaffs_nameval.c:105-123 | a run: a replacement passes the space check and its last eight bytes and the padding land behind the buffer |
| `NameVal.PaddingBeyond` | yaffs_nameval.c:116-123 | of a record that fits only zeros reach beyond the buffer, as many as it falls short of leaving four bytes |
| `NameVal.OverrunHappens` | yaffs_nameval.c:116-123 | a concrete record that leaves one byte free, and the three bytes behind the buffer it destroys |
| `NameVal.Store.Get` | yaffs_nameval.c:127-157 | lookup: the value, or the two errors |
| `NameVal.Store.List` | yaffs_nameval.c:159-191 | the names in order, as far as they fit |
| `NameVal.ListIsPrefix` | yaffs_nameval.c:169-182 | the listing is whole names from the start, and all of them if and only if a byte to spare is left |
| `NameVal.AsMapWithout` | yaffs_nameval.c:73-86 | removing a record removes just its name from the map |
| `NameVal.AsMapAppend` | yaffs_nameval.c:116-123 | appending a record with a new name updates the map at that name |
| `Parity.TableIsParities` | yaffs_ecc.c:36-69 | all 256 entries of the column parity table are the parities of the byte and of its six halves |
| `Ecc.FlippedColumns` | yaffs_ecc.c:107-110 | one flipped bit changes the column parity by the signature of its bit number |
| `Ecc.FlippedLines` | yaffs_ecc.c:112-116 | and the line parities by the number of its byte |
| `Ecc.ECCCalculate` | yaffs_ecc.c:95-161 | the loops compute the code of the block: each bit of the three bytes is the inverse of the parity of the data bits it covers |
| `Ecc.ErasedCode` | yaffs_ecc.c:95-161 | the code of a block of ones is three bytes of ones |
| `Ecc.ECCCorrect` | yaffs_ecc.c:166-242 | what is repaired, replaced or reported for any two codes |
| `Ecc.CountBits` | yaffs_ecc.c:72-92 | the shifting loop counts the set bits |
| `Ecc.JudgeOneFlip` | yaffs_ecc.c:95-242 | the difference of codes after one flipped data bit names that bit |
| `Ecc.JudgeTwoFlips` | yaffs_ecc.c:95-242 | after two flipped data bits it names nothing and is reported |
| `Ecc.JudgeCodeFlip` | yaffs_ecc.c:226-236 | a flipped bit of the stored code is known as one |
| `Ecc.CheckBlock` | yaffs_ecc.c:95-242 | for all 256-byte blocks: one wrong data bit is repaired, one wrong code bit leaves the data, two wrong data bits give -1 and change nothing; a block of ones with a code of ones, as erased flash reads, is right as it is |
| `Ecc.ECCCalculateOther` | yaffs_ecc.c:248-273 | the loop computes the code of n bytes: each of its bits is the parity of the data bits it covers |
| `Ecc.ECCCorrectOther` | yaffs_ecc.c:275-323 | what is repaired, replaced or reported for any two codes |
| `Ecc.JudgeOtherOneFlip` | yaffs_ecc.c:248-323 | one flipped data bit of any n bytes is named |
| `Ecc.JudgeOtherTwoFlips` | yaffs_ecc.c:248-323 | two flipped data bits are reported |
| `Ecc.JudgeOtherCodeFlip` | yaffs_ecc.c:311-317 | a flipped bit in any of the three stored parities is known as one |
| `Ecc.CheckBytes` | yaffs_ecc.c:248-323 | the guarantees of CheckBlock for any number of bytes |
| `PackedTags.PackTags2TagsPart` | yaffs_packedtags2.c:65-97 | every bit of the packed words |
| `PackedTags.UnpackUndoesPack` | yaffs_packedtags2.c:65-156 | for all tags in range, with and without extra header information, unpacking gives the tags packed |
| `PackedTags.PackedTags2.constructor` | yaffs_packedtags2.c:100-108 | the packed bytes and their code |
| `PackedTags.PackedTags2.UnpackTags2` | yaffs_packedtags2.c:159-197 | what comes out after none, one or two wrong bits, and for bytes that look erased |
| `PackedTags.RecoverTags` | yaffs_packedtags2.c:65-197 | tags in range are recovered from any one flipped bit if and only if the flip does not make the sequence number that of erased flash |
| `PackedTags.MayLookErased` | yaffs_packedtags2.c:164-165 | a sequence number in use for which that can happen |
| `TagsCompat.CalcTagsECC` | yaffs_tagscompat.c:65-86 | the loop stores the code that belongs to the other bits: bit by bit the parity of the numbers of the bits that are set |
| `TagsCompat.CheckECCOnTags` | yaffs_tagscompat.c:88-115 | what the difference of codes leads to |
| `TagsCompat.FlippedSyndrome` | yaffs_tagscompat.c:75-82 | a flipped bit changes the code by its number |
| `TagsCompat.CheckFlipped` | yaffs_tagscompat.c:65-115 | one flipped bit is repaired and reported so if and only if it lies outside the code field; what happens inside it |
| `Crypto.InitializeTweakBytes` | yaffs_crypto.c:37-44 | the loop writes the bytes of the number |
| `Crypto.TweaksDiffer` | yaffs_crypto.c:37-44 | two ints with the same tweak bytes are equal |
| `Crypto.UsesDiffer` | yaffs_mtdif2.c:85-88 | no two (chunk, page or tags) uses whose tweaks are ints share tweak bytes |
| `Crypto.AESXtsEncrypt` | yaffs_crypto.c:121-140 | in place, page and tags become the splice of two encipherings: the page deciphers block by block, and so do the tags once the bytes they borrow are put back |
| `Crypto.AESXtsDecrypt` | yaffs_crypto.c:142-161 | in place, the steps in reverse order |
| `Crypto.UnspliceUndoesSplice` | yaffs_crypto.c:121-161 | for any invertible cipher deciphering restores page and tags though they share a block |
| `Crypto.WriteThenRead` | yaffs_mtdif2.c:78-89 | what reaches flash is the page enciphered under the tweak of the chunk's page and the tags under that of its tags; read back, the chunk is as it was, unless its sequence number is that of erased flash; the caller's data is untouched |

## Left out

- The VFS, MTD and mount-option layers (`yaffs_vfs_glue.c`, `yaffs_mtdif.c`, `yaffs_mtdif1.c`), locking, temporary buffers, statistics, traces, object attributes, times and symlink aliases.
- AES, SHA-1, HMAC, key derivation and the key descriptor block: the cipher is any invertible length-preserving one.
- Hard links, files kept open after unlinking (except as objects under unlinked in the naming model), lazy loading of header details, and extended attributes' place in the header chunk.
- Block retirement and write retries on a bad page are not in the log device of `device.dfy`; retirement is in `accounting.dfy`.
- Crashes in the middle of a truncation or with dirty cache entries: the code promises no clean state there. Crashes at every state of flash are modelled for the naming operations.
- Directory headers and shadow marks do not occur on the flash of `device.dfy`; `names.dfy` has them in a log of its own, in which a block may be erased when `Names.Disposable` holds, and `Remount.ErasedIsDisposable` shows that of the blocks the device erases.
- The dirtiness thresholds, background urgency and the length of the refresh period, which choose the block to collect and whether to collect at all, are parameters of the collection, for every value of which it is proved.
- What the driver answers to an erasure is a parameter: in `accounting.dfy` a function of the block and its sequence number, in `checkpoint.dfy` a set of blocks. The writes a device refuses in `filedata.dfy` are a set of numbers of requests.
- The object, hash-bucket and tnode allocators: allocation is fresh or fails.
- The reserved-space arithmetic for checkpoint blocks is a parameter of the allocation check.
- The object records of a checkpoint are bytes in the stream; their fields are not modelled, and tnode records are modelled in a word stream of their own, the sixteen entries standing for the tnode's packed words.
- Names.Tree.RenameObject: the target has no dirty cache and no hard links, and the renamed object is not the directory it is moved into.
- LogDevice.Device.CheckGarbageCollection: where two blocks are collected one after the other, the progress of each is the one stated for CollectOnce; for both together only what is kept is stated.
- Names.Tree.UpdateObjectHeader: the header is taken to find a page; `device.dfy` has the failures.
- LogDevice.Device.GarbageCollectBlock: cleaning up deleted objects after the pass is modelled in the accounting model only.
- LogDevice.Device.WriteDataToFile: what each chunk holds is given by a function of the chunk number; the bytes within a chunk are the subject of `filedata.dfy`. When the marker of a hole cannot be written for want of a page the model stops; the code writes on all the same.
- Replay.ScanIsForwardReplay: an object that some header shadows, or names as its directory, is not covered; names of such objects are the subject of `names.dfy`.
- LogDevice.Device.ResizeFile: when the header cannot be written, what the file itself holds then is not stated; nor is it for WriteDataToFile when the hole cannot be marked.
- LogDevice.Device.ChangeObjectName: names of subdirectories are not known on this device; `names.dfy` has them.
- Remount.MountAgain: with files that were not flushed the mounted state is the one of `Remount.Mount`. The invariant need not hold in it, since a lost chunk may come back (`Remount.LostComesBack`); runs that go on from there are not followed.
- Remount.Mount: sizes and sequence numbers are below 2^31, as the scanner's int arithmetic needs, and bad tags do not occur.
- Names.Tree.Mounted: no collection falls due during the mount; `Names.CollectedMarkIsLost` says what one could do. Hard links and lost+found are not part of it.
- FileData.Store.WriteDataToFile: a chunk that fails to be written after an unaligned beginning may have been flushed by then to make room in the cache, so the condition over the state before the call goes one way there; for aligned writes it goes both ways. A file is below 2^31 bytes, tnode allocation succeeds, and the locked flag of a cache entry, which guards against concurrent eviction, is not modelled.
- Accounting.Accounts.Yaffs2Scan: the sequence numbers that the driver reports for the blocks to be scanned differ from each other.
- Accounting.Accounts.Yaffs1Scan: a header whose type is not that of the object found before, which has the object deleted, does not occur; neither does a failing allocation.
- Checkpoint.Checkpointer.CloseForWriting: closing is modelled after a successful opening only.
- Checkpoint.Checkpointer.CheckpointWrite: the object records, which the code writes one by one, are one record here.
- Checkpoint.Checkpointer.ReadCheckpointData: the checkpoint is complete; reading one whose last page is missing is not modelled. The stream fits the reader's limit on checkpoint blocks, which the writer does not check.
- Checkpoint.Checkpointer.CheckpointErase: a block that cannot be erased is assumed not to read as a checkpoint block afterwards.
- Hanging.ObjectTable.FixHangingObjects: on a read-only device the code does nothing; the model starts after that check.
- Tnodes.FileStructure.FindLevel0Tnode: the check for an insane level is left out, since the invariant keeps levels between 0 and 6.
- PackedLevel0.LoadLevel0Tnode: widths are even and at most 30; a width of 32 would shift by 32, which C leaves undefined.
- NameVal.Store.Set: what later calls do once a record has been written behind the buffer is not modelled; the store can only be read then. The buffer lies in memory that is at least as long again, so that the bytes reached exist.
- NameVal.Store.Del: the overlapping `memcpy` is taken to copy upwards byte by byte; bytes of a name are not zero and the buffer is larger than an int.
- PackedTags.UnpackUndoesPack: fields of the tags that the packing never carries (serial number, deletion and bad-block flags) are left out of the tags.
- TagsCompat.CheckFlipped: the bit-fields of the tags are laid out from the low bit up, as on a little-endian machine.
- Crypto.AESXtsEncrypt: the tags are at most one cipher block, as the code needs: with longer ones, as the tags' own code would make them, the number of bytes it borrows from the page is negative. Page buffers as written and as read have the same size.

# Pokedex file system and map, in Dafny

A verification project for the two concurrent cores of a Pokémon-themed system: the OSADA file system
server with the client loops that talk to it, and the map process that hands out Pokémon to trainers.

**The file server.** `Fs` (Osada.dfy) is a store as a value: the bitmap, the FAT, the 2048-slot file
table, the data region and one lock a slot. Every request is a function on it (Requests.dfy). What each
answers and leaves behind is said in terms of table, files, blocks and locks (Effects), and what all of
them keep over all runs is proved in Invariant, Holding, Isolation, Lookup and RoundTrip. Blank gives an
image for the runs to start from, and Stale a run from it.
`FsOsada` (Server.dfy) is the server as it is written: arrays updated in place, loops that walk and relink
chains, and a byte image written by memcpy. Each of its methods is proved to do to memory and image exactly
what the function of its request says, and to leave the image such that loading it again gives the same
store. Client.dfy puts the client's two loops on top of it.

**The map.** Arena.dfy is a state machine with one event for each thing a thread does under its lock; a
semaphore post is an event of its own, so every interleaving of handshakes, planner, assigner and detector
is a run. ArenaInvariant and Service prove what every run keeps and how long a trainer waits. `Mapa`
(MapServer.dfy), with the deadlock thread in Detector, DetectorRound and Battle, is the code as it is
written, over trainers that are objects changed in place; each method's effect is proved to be an event or
a run of events. Deadlock.dfy is the reduction, once as it is written and once with the flag lowered for
each trainer as its comments intend. Rounds puts rounds of the detector between events of the other threads,
and Scenes builds runs from an empty map to the states in which the detector errs. Starving and Granting say
what the matrices mean for the map: who is deadlocked is never served, who is not can be. Walk.dfy is the trainer's
way to a nest, seen from both programs.

What the domain is:

- One request runs at a time: most of the server's semaphores are commented out, so nothing is said of
  races inside a request. On the map the mutexes make the events atomic; `devolverPokemons`, which runs
  without a mutex in the planner and in handshakes, is taken as one event too.
- Sizes and ends of writes stay below 2^31 (`div` takes an int), a read starts inside the file, images are
  smaller than 4 GiB, and state bytes on an image are 0, 1 or 2.
- The kernel asks for writes, truncations, opens and unlinks of regular files only, for new entries in live
  directories only, and never moves a directory into itself; the server does not look.
- `lastmod` is a 32-bit field of its own. Where `time_t` has 64 bits, `time((time_t *)&...lastmod)` writes
  into `first_block` (pokeServidor/pokeServ.c:632).
- Times, the results of recv and of a peek at a closed connection, and who wins a battle are parameters.
- A trainer asks to catch at a nest it has asked the way to. At most 100 are blocked, as the matrices are
  declared, and there are at most 99 nests: the array of 100 ends with a NULL.
- An int that overflows is taken in two's complement, and so is abs of the least int; the lemmas about the
  distance say exactly when neither happens.

Where the code does other than its comments say, the code is modelled, and the condition under which both
agree is proved: the flag of the reduction (Deadlock.Snapshot.WrittenIsMeantWhen), deleted slots that hide
live entries (Lookup.RenamedIsClear), the deadlock list after a report of one (Rounds.ClearUnlessOne, Rounds.RoundMayHang).

Verify the whole project with `dafny verify dfyconfig.toml`.

## Model

| member | source | states |
|---|---|---|
| `Bitmap.MaskIsShift` | pokeServidor/pokeServ.c:1239-1241 | the mask of a bit is 1 shifted left by 7 - pos % 8 |
| `Bitmap.SetOneBit` | pokeServidor/pokeServ.c:1213-1224 | setting bit 7 - pos % 8 of byte pos / 8 turns on exactly the bit at pos of the packed array |
| `Bitmap.ClearOneBit` | pokeServidor/pokeServ.c:1226-1237 | clearing it turns off exactly the bit at pos |
| `Bitmap.SetBitmap` | pokeServidor/pokeServ.c:1213-1224 | whatever the bit was, afterwards it is on and all others are as they were |
| `Bitmap.CleanBitmap` | pokeServidor/pokeServ.c:1226-1237 | whatever the bit was, afterwards it is off and all others are as they were |
| `Bitmap.FreeBlocks` | pokeServidor/pokeServ.c:32-40 | counts exactly the clear data bits |
| `Bitmap.FreeBitBitmap` | pokeServidor/pokeServ.c:1258-1270 | gives the lowest free data block, or -1 if and only if there is none |
| `Ownership.Conservation` | pokeServidor/pokeServ.c:32-40 | clear bits and the lengths of pairwise disjoint chains that say exactly which bits are set add up to all data bits |
| `Fat.LinkedIsAcyclic` | pokeServidor/pokeServ.c:1646-1651 | a chain that runs in range to its end mark never visits a block twice |
| `Fat.ChainOfLinked` | pokeServidor/pokeServ.c:1646-1651 | following links from the first block collects exactly that chain, so the walk ends |
| `Fat.LastBlock` | pokeServidor/pokeServ.c:1038-1042 | the walk to the end mark finds the last block and the one before it |
| `Fat.Follow` | pokeServidor/pokeServ.c:916-921 | that many steps from the first block lead to the chain's block of that number |
| `Store.AllocIsSound` | pokeServidor/pokeServ.c:1036-1074 | linking the lowest free block behind the last one keeps chains complete, disjoint and exactly marked, and costs one free block |
| `Store.FreeLastIsSound` | pokeServidor/pokeServ.c:1077-1106 | unlinking the last block keeps the same and gives one free block back |
| `Store.BlockConservation` | pokeServidor/pokeServ.c:32-40 | free blocks and the chain lengths of live regular files add up to data_blocks |
| `Truncate.ResizedAllOrNothing` | pokeServidor/pokeServ.c:983-1122 | a resize either answers -EFBIG and changes nothing, exactly when too few blocks are free, or leaves the size asked for, the blocks that size needs, the old chain or the new one a prefix of the other, and every other chain as it was |
| `Truncate.AllocNAdds` | pokeServidor/pokeServ.c:1036-1074 | growing by m and then by n blocks is growing by m + n |
| `Contents.PokeStores` | pokeServidor/pokeServ.c:927-974 | byte k of the buffer lands at offset off + k of the chain |
| `Contents.PokeKeeps` | pokeServidor/pokeServ.c:927-974 | a byte of the image outside those places keeps its value |
| `Contents.PokeJoins` | pokeServidor/pokeServ.c:936-974 | storing two buffers end to end is storing their concatenation |
| `Contents.PokeIsFlatUpdate` | pokeServidor/pokeServ.c:927-974 | read back, the file is the old bytes with the buffer at off |
| `Contents.PokeElsewhere` | pokeServidor/pokeServ.c:927-974 | a chain that shares no block reads as before |
| `Files.ResizedKeepsBytes` | pokeServidor/pokeServ.c:983-1122 | every byte below both sizes and every byte of every other file survives a resize |
| `Files.RoomForWrite` | pokeServidor/pokeServ.c:940-963 | after the resize a write asks for, the chain is long enough, so the allocation inside the copying loop has nothing to do |
| `Files.WrittenRefinesFlatFile` | pokeServidor/pokeServ.c:894-981 | a write is a flat-array update of its file, or -EFBIG and nothing, exactly when the blocks are not there; no other file changes |
| `Files.FirstPiece` | pokeServidor/pokeServ.c:922-935 | the first chunk of a write lies in the block of the offset |
| `Files.NextPiece` | pokeServidor/pokeServ.c:936-974 | each further chunk lies in the next block of the chain, which is there |
| `Slots.NewFileKeeps` | pokeServidor/pokeServ.c:841-856 | a new file is empty, costs one block and touches no other file |
| `Slots.DropFileKeeps` | pokeServidor/pokeServ.c:1159-1169 | a deleted file gives back exactly its blocks and touches no other file |
| `Names.StoredNameMatches` | pokeServidor/pokeServ.c:837-851 | a stored name matches exactly the names that agree with it on the first 17 bytes |
| `Names.PathParts` | pokeServidor/pokeServ.c:784-788 | a path is its folder, a slash and a last component without slash |
| `Names.Search` | pokeServidor/pokeServ.c:836-848 | finds the lowest slot with that folder, name and kind |
| `Names.FindSlot` | pokeServidor/pokeServ.c:215-244 | computes is_parent, component by component |
| `Namespace.ComponentsOfPath` | pokeServidor/pokeServ.c:219-231 | splitting off last components and splitting from the left give the same components |
| `Namespace.FirstAnyIsFirstLive` | pokeServidor/pokeServ.c:223-242 | while nothing deleted hides anything live, a search blind to states stops at a live entry exactly when that is the first live one of its folder and name |
| `Namespace.LookupIsLiveWalk` | pokeServidor/pokeServ.c:215-244 | is_parent returns live slot i if and only if walking down over live entries leads there, when nothing deleted hides anything live |
| `Tree.EnterKeepsForest` | pokeServidor/pokeServ.c:435-441 | a new entry in a live folder, under a name unused by its kind, keeps live parents, no cycles and unique names |
| `Tree.LeaveKeepsForest` | pokeServidor/pokeServ.c:500-512 | so does removing an entry nothing live lies in |
| `Tree.MoveKeepsForest` | pokeServidor/pokeServ.c:616-632 | so does a move, if and only if the new folder is not inside what is moved |
| `Tree.EnterKeepsUnshadowed` | pokeServidor/pokeServ.c:406-441 | an entry in the lowest deleted slot stands behind no deleted one, so nothing live becomes hidden |
| `Tree.LeaveKeepsUnshadowed` | pokeServidor/pokeServ.c:512 | deleting an entry hides nothing live if and only if no later live entry has its folder and name |
| `Tree.MoveKeepsUnshadowed` | pokeServidor/pokeServ.c:616-632 | a move hides nothing if and only if no deleted slot below it carries the new folder and name |
| `Requests.FreeSlot` | pokeServidor/pokeServ.c:816-826 | the lowest deleted slot, if any |
| `Requests.FileSlotIsLowest` | pokeServidor/pokeServ.c:729-748 | the lowest regular slot with the path's folder and last component, and only if that folder was found |
| `Requests.WroteUnfold` | pokeServidor/pokeServ.c:899-911 | which case of a write happens when |
| `Invariant.CreatedKeeps` | pokeServidor/pokeServ.c:778-873 | create keeps the store well formed, the tree a forest, at most one writer and then no reader on any slot, only regular files held, and every held file in its slot with its name and first block |
| `Invariant.MadeDirKeeps` | pokeServidor/pokeServ.c:367-449 | mkdir keeps the store well formed, the tree a forest, at most one writer and then no reader on any slot, only regular files held, and every held file in its slot with its name and first block |
| `Invariant.RemovedDirKeeps` | pokeServidor/pokeServ.c:451-520 | rmdir keeps the store well formed, the tree a forest, at most one writer and then no reader on any slot, only regular files held, and every held file in its slot with its name and first block |
| `Invariant.RenamedKeeps` | pokeServidor/pokeServ.c:522-642 | rename, when the target is not inside its source, keeps the store well formed, the tree a forest, at most one writer and then no reader on any slot, only regular files held, and every held file in its slot with its name and first block |
| `Invariant.UnlinkedKeeps` | pokeServidor/pokeServ.c:1130-1182 | unlink keeps the store well formed, the tree a forest, at most one writer and then no reader on any slot, only regular files held, and every held file in its slot with its name and first block |
| `Invariant.CutKeeps` | pokeServidor/pokeServ.c:983-1122 | ftruncate keeps the store well formed, the tree a forest, at most one writer and then no reader on any slot, only regular files held, and every held file in its slot with its name and first block |
| `Invariant.WroteKeeps` | pokeServidor/pokeServ.c:894-981 | write keeps the store well formed, the tree a forest, at most one writer and then no reader on any slot, only regular files held, and every held file in its slot with its name and first block |
| `Invariant.OpenedToRead` | pokeServidor/pokeServ.c:752-755 | open for reading keeps the store well formed, the tree a forest, at most one writer and then no reader on any slot, only regular files held, and every held file in its slot with its name and first block |
| `Invariant.OpenedToWrite` | pokeServidor/pokeServ.c:756-767 | open for writing, with or without truncation, keeps the store well formed, the tree a forest, at most one writer and then no reader on any slot, only regular files held, and every held file in its slot with its name and first block |
| `Invariant.ReleasedKeeps` | pokeServidor/pokeServ.c:644-701 | release keeps the store well formed, the tree a forest, at most one writer and then no reader on any slot, only regular files held, and every held file in its slot with its name and first block |
| `Invariant.DatedKeeps` | pokeServidor/pokeServ.c:1184-1211 | utimens keeps the store well formed, the tree a forest, at most one writer and then no reader on any slot, only regular files held, and every held file in its slot with its name and first block |
| `Invariant.EveryStepKeeps` | pokeServidor/pokeServ.c:1394-1635 | every admissible request keeps all of that, and whoever holds a file goes on holding it unless the request releases that very slot |
| `Invariant.EveryStepOnLocks` | pokeServidor/pokeServ.c:644-767 | what each request does to the locks: an open takes the one of the slot its path leads to, as reader or writer, if it is free for that; a release gives that one back; nothing else changes a lock |
| `Holding.LedgerOfRun` | pokeServidor/pokeServ.c:644-776 | over every run: as many hold a slot as did, and opens that got its lock, less releases that named it |
| `Holding.HeldOverRun` | pokeServidor/pokeServ.c:644-776 | as long as fewer have given a slot back than hold or have taken it, it stays held: a regular file with the name, folder and first block it had, whoever else opens and closes it |
| `Holding.FewReleases` | pokeServidor/pokeServ.c:644-776 | a run with fewer releases of the slot than it has holders is such a run |
| `Holding.SameFolderSameSlot` | pokeServidor/pokeServ.c:661-682 | while a file is held, its path leads open and release to its slot if and only if it still leads to the same folder |
| `Holding.ReleaseReaches` | pokeServidor/pokeServ.c:683-693 | a release takes one holder from a held slot if its path leads there, and none if it does not |
| `Holding.ReleaseUnlocksOpened` | pokeServidor/pokeServ.c:644-776 | a file opened, any run in which fewer have given it back than have taken it, then a release by the same path: the slot was still held and the same file, and one holder fewer has it if the path still leads to the same folder, as many if not |
| `Holding.OpenedIsHeld` | pokeServidor/pokeServ.c:752-776 | a successful open leaves the slot of its path held, with the entry it had |
| `Holding.FailedOpenKeepsLock` | pokeServidor/pokeServ.c:757-763 | an open that fails leaves a lock behind if and only if it asked for truncation, found a regular file nobody held, and is_parent leads its path to nothing live |
| `Invariant.EveryRunKeeps` | pokeServidor/pokeServ.c:1636-1663 | after every run: acyclic complete chains of exactly the audited length, disjoint, exactly marked; administrative bits unchanged; blocks conserved |
| `Isolation.EveryStepIsolates` | pokeServidor/pokeServ.c:1394-1635 | a request leaves every regular file but the one it names in place, byte for byte |
| `Isolation.UntouchedIsKept` | pokeServidor/pokeServ.c:1394-1635 | a file that no request of a run names is there afterwards, byte for byte |
| `RoundTrip.EnteredIsFound` | pokeServidor/pokeServ.c:215-244 | a new entry in the lowest deleted slot is what its path leads to, if and only if no live entry in a lower slot has its folder and name |
| `RoundTrip.CreatedIsFound` | pokeServidor/pokeServ.c:778-873 | a successful create makes an empty file, found under its path if and only if no directory of that name stands in a lower slot |
| `RoundTrip.MadeDirIsFound` | pokeServidor/pokeServ.c:367-449 | the same for mkdir, with regular files in the way |
| `RoundTrip.RenamedIsFound` | pokeServidor/pokeServ.c:522-642 | after a successful rename the new path leads to the moved entry, if and only if no deleted slot before it carries the new folder and name |
| `RoundTrip.WrittenIsRead` | pokeServidor/pokeServ.c:45-981 | a read of the place a write went to brings the bytes written |
| `RoundTrip.DeletedStillFound` | pokeServidor/pokeServ.c:215-244 | deleting an entry changes no lookup |
| `RoundTrip.UnlinkedIsGone` | pokeServidor/pokeServ.c:1130-1182 | after an unlink its path leads to nothing live, exactly its blocks are free again, all other files are as they were |
| `RoundTrip.CreateThenUnlink` | pokeServidor/pokeServ.c:778-1182 | a successful create, when no directory of that name stands in a lower slot, and then an unlink of the same path, which succeeds: free blocks and all files are as they were |
| `Effects.BlocksForIsLeast` | pokeServidor/pokeServ.c:1003-1020 | the blocks of a size are the least number, and at least one, that hold it |
| `Effects.CreateAnswers` | pokeServidor/pokeServ.c:787-840 | create answers 0 if and only if its name fits, its folder is the root or found, a deleted slot and a free block are there and no live regular file has that folder and name; which error it answers otherwise, in the order of its checks; a failed create changes nothing |
| `Effects.CreateMakes` | pokeServidor/pokeServ.c:841-872 | a create that succeeds fills the lowest deleted slot with an empty dated file of that folder and name, on the lowest free block, and changes nothing else |
| `Effects.MkdirAnswers` | pokeServidor/pokeServ.c:378-433 | mkdir the same, with directories in the way and no block needed |
| `Effects.MkdirMakes` | pokeServidor/pokeServ.c:435-448 | a mkdir that succeeds fills the lowest deleted slot with a dated directory and changes nothing else |
| `Effects.RmdirRemoves` | pokeServidor/pokeServ.c:464-519 | rmdir answers 0 if and only if the directory is there with nothing live in it, and then deletes that entry alone; -ENOTEMPTY if something live lies in it, -ENOENT if it is not there, and then nothing changes |
| `Effects.RemovedIsGone` | pokeServidor/pokeServ.c:482-512 | after an rmdir that succeeds no live directory has that folder and name |
| `Effects.RenameAnswers` | pokeServidor/pokeServ.c:541-618 | which answer rename gives, in the order of its checks; a failed one changes nothing |
| `Effects.RenameMoves` | pokeServidor/pokeServ.c:619-630 | a rename that succeeds gives the entry its new folder, name and date, and changes nothing else |
| `Effects.UnlinkAnswers` | pokeServidor/pokeServ.c:1145-1157 | unlink answers by what is_parent finds and its lock; a failed one changes nothing |
| `Effects.UnlinkFrees` | pokeServidor/pokeServ.c:1159-1169 | an unlink that succeeds clears exactly the bits of the file's chain and deletes its entry, and changes nothing else |
| `Effects.FtruncateAnswers` | pokeServidor/pokeServ.c:992-1035 | ftruncate answers -ENOENT if its path leads to nothing live, -EFBIG if and only if the blocks to be added are not free, else 0; a failed one changes nothing |
| `Effects.FtruncateCuts` | pokeServidor/pokeServ.c:1036-1110 | an ftruncate that succeeds, growing or shrinking, leaves the size asked for, the blocks it needs, every byte below both sizes, the free blocks less those added, and all else as it was |
| `Effects.OpenAnswers` | pokeServidor/pokeServ.c:720-776 | open answers by the file its path names and that file's lock, and a truncating one by what is_parent finds |
| `Effects.OpenTakesLockOnly` | pokeServidor/pokeServ.c:752-767 | unless it truncates, an open changes at most locks |
| `Effects.OpenEmpties` | pokeServidor/pokeServ.c:759-763 | a truncating open that succeeds leaves the file empty, with one block, the others free again, and all other files as they were |
| `Effects.ReleaseAnswers` | pokeServidor/pokeServ.c:661-700 | release answers -ENOENT or 0, and then the file its path names has one holder fewer; nothing else changes |
| `Effects.UtimensDates` | pokeServidor/pokeServ.c:1196-1209 | utimens dates the entry is_parent finds, if that is live, and changes nothing else |
| `Effects.WriteAnswers` | pokeServidor/pokeServ.c:899-911 | write answers -ENOENT if its path leads to nothing live, -EFBIG if and only if the blocks to be added are not free, else the bytes written; a failed one changes nothing |
| `Effects.WriteUpdates` | pokeServidor/pokeServ.c:905-980 | a write that succeeds is a flat update of its file, which has the blocks its size asks for; no other entry, lock or file changes |
| `Image.LayoutIsExact` | pokeServidor/pokeServ.c:1298-1325 | header, bitmap, table, FAT and data regions lie apart inside the image if and only if the FAT starts right behind the table and fits; every 32-bit byte offset is right if and only if the image is below 4 GiB |
| `Image.GetPutFile` | pokeServidor/pokeServ.c:1303-1304 | a record read from its 32 bytes is the one written |
| `Image.GetPutTable` | pokeServidor/pokeServ.c:1303-1304 | so is the whole table |
| `Image.GetPutFat` | pokeServidor/pokeServ.c:1311-1313 | so is the FAT |
| `Image.GetPutBitmap` | pokeServidor/pokeServ.c:1306-1309 | so is the bitmap |
| `Image.PutGetTable` | pokeServidor/pokeServ.c:1303-1304 | a table region of valid records is what writing back the table read from it gives |
| `Image.ReloadIsExact` | pokeServidor/pokeServ.c:1298-1325 | loading an image that repeats the memory gives that memory |
| `Image.LoadedAgrees` | pokeServidor/pokeServ.c:1298-1325 | right after loading, the image repeats the memory |
| `Image.ChunkInData` | pokeServidor/pokeServ.c:928-929 | a store inside a data block touches no other region |
| `Blank.BlankIsWellFormed` | pokeServidor/pokeServ.c:1283-1325 | for every layout there is an image the server may load, on which all data blocks are free |
| `Blank.EmptyIsGood` | pokeServidor/pokeServ.c:1636-1663 | a store without entries and marks is in order |
| `Server.FsOsada.constructor` | pokeServidor/pokeServ.c:1273-1325 | loading a well formed image gives a valid server whose model is that image |
| `Server.FsOsada.Create` | pokeServidor/pokeServ.c:778-873 | creates in place, on memory and image, as the specification of the request says |
| `Server.FsOsada.Mkdir` | pokeServidor/pokeServ.c:367-449 | likewise |
| `Server.FsOsada.Rmdir` | pokeServidor/pokeServ.c:451-520 | likewise |
| `Server.FsOsada.Rename` | pokeServidor/pokeServ.c:522-642 | likewise |
| `Server.FsOsada.Unlink` | pokeServidor/pokeServ.c:1130-1182 | likewise |
| `Server.FsOsada.Ftruncate` | pokeServidor/pokeServ.c:983-1122 | likewise; the failing exit inside the loop is dead |
| `Server.FsOsada.Write` | pokeServidor/pokeServ.c:894-981 | likewise; the allocation inside the copying loop is dead |
| `Server.FsOsada.Open` | pokeServidor/pokeServ.c:702-776 | likewise |
| `Server.FsOsada.Release` | pokeServidor/pokeServ.c:644-701 | likewise |
| `Server.FsOsada.Utimens` | pokeServidor/pokeServ.c:1184-1211 | likewise |
| `Server.FsOsada.ResizeSlot` | pokeServidor/pokeServ.c:1003-1112 | memory and image end up as the all-or-nothing resize says |
| `Server.FsOsada.AppendBlock` | pokeServidor/pokeServ.c:1036-1074 | one round of the growing loop; no free block is found only when there is none, which cannot happen here |
| `Server.FsOsada.DropBlock` | pokeServidor/pokeServ.c:1077-1106 | one round of the shrinking loop; the guard for a single block never fails here |
| `Server.FsOsada.StoreBytes` | pokeServidor/pokeServ.c:913-974 | the copying loop stores exactly the buffer along the chain |
| `Server.FsOsada.CleanChain` | pokeServidor/pokeServ.c:1163-1169 | the freeing loop clears exactly the bits of the chain |
| `Server.FsOsada.Serve` | pokeServidor/pokeServ.c:1394-1635 | a run of requests leaves the model, the answers and an image that reloads to the same store |
| `Server.FsOsada.ReloadGivesModel` | pokeServidor/pokeServ.c:1298-1325 | at any moment, loading the image as main does gives the model, with all locks free |
| `Server.FsOsada.CheckState` | pokeServidor/pokeServ.c:1636-1663 | reports exactly the slots whose chain is not as long as their size asks for; none if and only if all sizes are right |
| `Server.FsOsada.SendPieces` | pokeServidor/pokeServ.c:94-143 | the packets sent are at most 256 bytes each, only the last is marked last, and together they are the bytes asked for; the break in the loop never fires |
| `Server.FsOsada.Read` | pokeServidor/pokeServ.c:45-144 | the same from the request on, cut at the file's end; an error is one reply |
| `Stream.Reassemble` | pokeCliente/pokeClient.c:42-65 | the client's loop takes replies up to the first final one and joins their bytes |
| `Stream.CompleteIsTakenWhole` | pokeCliente/pokeClient.c:42-65 | of a complete stream it takes every packet and ends with exactly the bytes |
| `Client.ReadFile` | pokeCliente/pokeClient.c:42-65 | read through server and client: the file's bytes from offset, cut at its end, or -ENOENT |
| `Split.ResizeTwice` | pokeServidor/pokeServ.c:983-1122 | with a write between, resizing twice is resizing once |
| `Split.WritesJoin` | pokeServidor/pokeServ.c:894-981 | a write followed by one that starts where it ends leaves the very store that one write of both leaves |
| `Client.NextPart` | pokeCliente/pokeClient.c:471-511 | what one more part does on top of the parts before it |
| `Client.WriteFile` | pokeCliente/pokeClient.c:462-514 | the split write ends; it leaves exactly the store of one whole write if that finds its blocks, and otherwise exactly the parts before the failing one |
| `Lookup.EveryStepOnTable` | pokeServidor/pokeServ.c:1394-1635 | what each request does to the table: one that answers 0 changes exactly the entry it is about, a failed create, mkdir, rmdir, unlink or rename changes none, all others at most sizes and dates |
| `Lookup.FreshStepKeepsClear` | pokeServidor/pokeServ.c:406-631 | requests that use new names keep every live entry findable |
| `Lookup.RenamedIsClear` | pokeServidor/pokeServ.c:616-631 | after a successful rename nothing live is hidden if and only if no deleted slot below the moved one carries the target's folder and name |
| `Lookup.MovedIsFound` | pokeServidor/pokeServ.c:616-631 | the moved entry is what its new name leads to, under exactly that condition |
| `Stale.StaleIsReached` | pokeServidor/pokeServ.c:778-1182 | create /a, create /b, unlink /a, from any formatted image with two data blocks or more: an admissible run of new names that leaves the name of /a in the deleted slot 0 |
| `Stale.StaleNameHides` | pokeServidor/pokeServ.c:616-631 | there, with everything live in view, mv /b /a succeeds and the live file can no longer be found under its path |
| `Stale.StaleOpenKeepsLock` | pokeServidor/pokeServ.c:756-767 | after that, an open of /a for truncation fails and has taken the lock of the hidden file |
| `Lookup.LookupAfterEveryRun` | pokeServidor/pokeServ.c:215-244 | after every run of requests that use new names, is_parent is the walk over live entries |
| `Nests.GetPokeNestFromID` | mapa/mapa.c:144-152 | the only nest of that identifier, or -1 if there is none |
| `Nests.ReturnAllConserves` | mapa/mapa.c:153-165 | giving back loses nothing and puts nothing into a wrong queue |
| `Nests.ReturnAllIsExact` | mapa/mapa.c:153-165 | each queue gets exactly the Pokémon of its kind, at its end, in the order of the list |
| `Nests.HandOut` | mapa/mapa.c:592-594 | handing out the front of a queue takes exactly that one |
| `ArenaInvariant.PlacedStep` | mapa/mapa.c:266-299 | every event leaves each connected trainer in exactly one place |
| `ArenaInvariant.KindsStep` | mapa/mapa.c:153-165 | every event leaves each queue pure and each goal a nest there is |
| `ArenaInvariant.CountedStep` | mapa/mapa.c:579-613 | every event keeps the planner's semaphore equal to its list and the assigner's no smaller than its own, counting posts under way and tokens in hand |
| `ArenaInvariant.CountStep` | mapa/mapa.c:498-613 | no event makes a Pokémon, loses one or doubles one |
| `ArenaInvariant.EveryRunKeeps` | mapa/mapa.c:498-733 | over every interleaving: trainers in one place, queues pure, the planner never removes from an empty list, no wakeup lost, every Pokémon as often as before |
| `Service.FirstIsInLine` | mapa/mapa.c:589-592 | the first blocked trainer whose nest is not empty has nobody before it that asks for the same nest |
| `Service.AssignerGoesOn` | mapa/mapa.c:579-611 | while somebody is blocked the assigner has its token, can take it or a post is under way |
| `Service.PlannerGoesOn` | mapa/mapa.c:698-706 | the same for the planner and the ready list |
| `Service.SettledInTime` | mapa/mapa.c:579-613 | over every run with more than k services, the first blocked trainer with a stocked nest, at index k, has been served or has left |
| `MapServer.Mapa.constructor` | mapa/mapa.c:770-778 | a map starts with empty lists and both semaphores at zero |
| `MapServer.Mapa.Connect` | mapa/mapa.c:708-717 | a new trainer, at 1,1 and without goal, is shaking hands |
| `MapServer.Mapa.FinishHandshake` | mapa/mapa.c:266-281 | it is added to the ready list; the post is still to come |
| `MapServer.Mapa.FailHandshake` | mapa/mapa.c:721-724 | it is gone, with what it held |
| `MapServer.Mapa.ReturnPokemons` | mapa/mapa.c:153-165 | the loop leaves the queues as giving all back says, and the trainer with nothing |
| `MapServer.Mapa.PostPlanner` | mapa/mapa.c:281 | the post that follows an addition to the ready list |
| `MapServer.Mapa.PostAssigner` | mapa/mapa.c:298 | the post that follows an addition to the blocked list |
| `MapServer.Mapa.WaitPlanner` | mapa/mapa.c:700 | the planner gets past its semaphore |
| `MapServer.Mapa.WaitAssigner` | mapa/mapa.c:586 | the assigner gets past its semaphore |
| `MapServer.Mapa.DetectDisconnected` | mapa/mapa.c:547-560 | exactly those whose connection is closed leave the blocked list; the others keep their order |
| `MapServer.Mapa.Grant` | mapa/mapa.c:592-604 | the front of the queue goes to the first blocked trainer, which is told and becomes ready |
| `MapServer.Mapa.Rotate` | mapa/mapa.c:606-609 | the first blocked trainer goes to the end and the assigner posts for itself |
| `MapServer.Mapa.Assign` | mapa/mapa.c:586-611 | a round of the assigner is a run of departures and one service |
| `MapServer.Mapa.PickFirst` | mapa/mapa.c:618-620 | round robin takes the first ready trainer; there is one |
| `Walk.NearestOfAll` | mapa/mapa.c:656-665 | with all distances below 999 the one taken is the least |
| `MapServer.Mapa.FindNearest` | mapa/mapa.c:656-665 | the search finds the leftmost of the least measured distance below 999, or index 0 if there is none below; the same of the true distances when all are below 2^31 |
| `MapServer.Mapa.DistancesAreWays` | mapa/mapa.c:300-314 | the measured distances are the true ones if and only if all of those are below 2^31 |
| `MapServer.Mapa.PickNearest` | mapa/mapa.c:655-667 | shortest distance takes that one out, nearest by the true distances when all are below 2^31; the list is not empty |
| `MapServer.Mapa.MoveRunner` | mapa/mapa.c:315-333 | one step on the map's copy of the position, and the acknowledgement |
| `MapServer.Mapa.SendCoordinates` | mapa/mapa.c:334-352 | an existing nest becomes the goal and its place is sent; any other sends the trainer away |
| `MapServer.Mapa.BlockRunner` | mapa/mapa.c:353-362 | the trainer is added to the blocked list; the post is still to come |
| `MapServer.Mapa.Answer` | mapa/mapa.c:629-647 | letter by letter, on the fields: a move moves the trainer and is acknowledged; an existing nest becomes the goal and its place is sent; a catch adds the trainer to the blocked list with the post to come; another nest, the medal or the end of the connection takes it off every list with its Pokémon at the ends of their queues; anything else does nothing |
| `MapServer.Mapa.TurnRR` | mapa/mapa.c:616-650 | a turn uses its messages up to the first that ends it, at most quantum; the trainer goes to the end of the ready list if and only if none of them ended the turn, to the end of the blocked list if and only if the last one is a catch, and leaves, all given back, if and only if the last one says so; its record and what it was sent are those the messages make one by one |
| `MapServer.Mapa.TurnSRDF` | mapa/mapa.c:669-696 | a turn lasts to the first message that ends it or asks for coordinates; the same of lists, record and what was sent; the trainer is ready again if and only if the last one asked for a nest there is |
| `MapServer.StepsAreObeyed` | mapa/mapa.c:629-637 | a turn of nothing but letters of a walk moves the map's copy along it, with one acknowledgement each |
| `Walk.GapIsExact` | mapa/mapa.c:306-307 | abs of the unsigned difference, in an int, is the true distance if and only if that is below 2^31 |
| `Walk.Distance` | mapa/mapa.c:300-314 | the int the code returns for the distance to the goal, -1 without one |
| `Walk.DistanceIsExact` | mapa/mapa.c:306-313 | that int is |dx| + |dy| if and only if the sum is below 2^31, and then neither abs overflows |
| `Walk.FarLooksNear` | mapa/mapa.c:300-314 | a goal at (2^31 - 1, 2^31 - 1), seen from 1,1, measures -4 |
| `Walk.PathLength` | entrenador/entrenador.c:340-371 | a walk sends |dx| + |dy| letters |
| `Walk.PathArrives` | entrenador/entrenador.c:340-371 | they lead to the nest |
| `Walk.PathShortens` | entrenador/entrenador.c:342-369 | after k letters exactly the rest is left to go, and the trainer never leaves the rectangle |
| `Walk.MapFollows` | mapa/mapa.c:315-333 | after each acknowledged letter the map has the trainer where the trainer thinks it is |
| `Walk.DistanceIsWayLeft` | mapa/mapa.c:300-314 | the distance the map measures is the number of letters still to come, if and only if those are fewer than 2^31 |
| `Walk.Player.TakeCoordinates` | entrenador/entrenador.c:320-335 | reads back any two coordinates from -99 to 999 |
| `Walk.Player.GoToNest` | entrenador/entrenador.c:340-371 | sends exactly the letters of the walk and arrives, unless SIGTERM is seen first, and then a beginning of them |
| `Walk.CoordinatesArrive` | mapa/mapa.c:343-344 | the six bytes give back both coordinates if and only if each is from -99 to 999 |
| `Deadlock.Snapshot.LargestIsUnique` | mapa/mapa.c:456-473 | there is only one marking that leaves the largest stuck set |
| `Deadlock.Snapshot.OrderStaysWithin` | mapa/mapa.c:456-473 | no completion order gets anybody of a stuck set done |
| `Deadlock.Snapshot.OrderToTheEnd` | mapa/mapa.c:456-473 | every completion order can be gone on with until the rest is stuck |
| `Deadlock.Snapshot.MarkedMeansServable` | mapa/mapa.c:456-473 | as meant, a holder is marked if and only if some completion order serves it |
| `Deadlock.Snapshot.WrittenWithinMeant` | mapa/mapa.c:456-473 | as written, nobody is marked that is not as meant: every truly deadlocked holder is reported |
| `Deadlock.Snapshot.WrittenIsMeantWhen` | mapa/mapa.c:456-473 | both mark the same if and only if, from the first holder that waits on, every holder asks for more than those before that one leave |
| `Deadlock.Snapshot.NoReportNoDeadlock` | mapa/mapa.c:475-496 | no report means all holders can be served in list order |
| `Deadlock.FalseAlarm` | mapa/mapa.c:456-473 | two trainers that can both be served and are both reported |
| `Scenes.FalseAlarmIsReached` | mapa/mapa.c:456-496 | a run from an empty map to that state: the detector reports both trainers, each could be served, and every battle round ends with one of the two disconnected |
| `Starving.StarvedForEver` | mapa/mapa.c:579-613 | trainers that want only what their own group holds: over every run in which none of the group departs, whatever else happens, each stays blocked, goes on wanting what it wants and gets nothing |
| `Starving.StuckIsStarved` | mapa/mapa.c:376-473 | when only blocked trainers hold anything, the unmarked ones of a stuck set are such a group |
| `Granting.ServableAreServed` | mapa/mapa.c:579-706 | from any state there is a run in which nobody gives up waiting, whoever was not blocked stays, and every holder that the reduction as meant marks gets its Pokémon |
| `Granting.MarkedIffServed` | mapa/mapa.c:438-473 | when only blocked trainers hold anything: the reduction as meant marks a holder if and only if some run without a blocked trainer giving up gets it off the blocked list |
| `Granting.UnreportedAreServed` | mapa/mapa.c:475-496 | one run without anybody giving up serves every blocked holder that the detector as written does not report |
| `Deadlock.Initialise` | mapa/mapa.c:444-455 | work is what is available, and exactly those that hold nothing are done |
| `Deadlock.DetectMeant` | mapa/mapa.c:438-473 | with the flag lowered for each trainer, in any scan order: the largest stuck set is left, in at most one pass more than there are holders |
| `Deadlock.DetectAsWritten` | mapa/mapa.c:438-473 | exactly those before the first holder that waits are marked, in at most two passes |
| `Detector.CountHoldings` | mapa/mapa.c:394-400 | one row of matAsignados counts the holdings nest by nest, modulo the char it is kept in |
| `Detector.FillStructures` | mapa/mapa.c:376-404 | the matrices say who asks for what, who holds how many and how many queue |
| `Detector.FewIsExact` | mapa/mapa.c:387-404 | with fewer than 128 of each the matrices are exact and holders are those that hold something |
| `DetectorRound.EntriesAreExactWhen` | mapa/mapa.c:108-110 | an entry is the true count if and only if that is below 128 |
| `DetectorRound.FewForEver` | mapa/mapa.c:387-404 | a map that starts with fewer than 128 Pokémon in all stays exact over every run |
| `DetectorRound.ReportedFight` | mapa/mapa.c:477-490 | whoever is reported is blocked, holds something and is reported once |
| `DetectorRound.ReportedEnough` | mapa/mapa.c:475-496 | whoever is not reported can be served in some order; if nobody is, in list order |
| `DetectorRound.Report` | mapa/mapa.c:475-496 | in battle mode exactly the unfinished are named and told "D", once each; the flag says whether there are any |
| `DetectorRound.CheckDeadlock` | mapa/mapa.c:562-577 | a round of the detector with any connected names left on its list from earlier rounds. The reported and the names left over fight, the last come first. It is stuck if and only if there are two or more of them and the loser of the last battle is not blocked, and then trainers have only sorted what they hold; otherwise nothing happens, one name is kept, or, after sorting, one blocked trainer leaves and the list is empty |
| `Battle.SortDown` | mapa/mapa.c:369-374 | the list sorted so that the greater key comes first, nothing added or lost |
| `Battle.Champion` | mapa/mapa.c:507-508 | the strongest Pokémon the trainer holds |
| `Battle.Fight` | mapa/mapa.c:506-530 | the loser goes back to the front, the winner leaves and is told "R" |
| `Battle.Kill` | mapa/mapa.c:533-543 | the last one is told "K", leaves the blocked list and gives everything back |
| `Battle.Turn` | mapa/mapa.c:504-544 | one turn of the loop: a battle, in which trainers sort what they hold; if one name is left it leaves the blocked list with all it holds given back, or the search for it among the blocked never ends, if and only if it is not blocked |
| `Battle.Round` | mapa/mapa.c:504-544 | the same, with what everybody has been told so far |
| `Battle.Tournament` | mapa/mapa.c:498-546 | n names on the list, repeated or not, n at least 2: n - 1 battles however they end, one "R" for each won, "K" for the loser of the last, an empty list; on the map, sorting and then the one departure of that loser, which gives back what it held; stuck instead, after sorting, if and only if it is not blocked. n below 2: nothing happens |
| `Battle.HeardOnce` | mapa/mapa.c:498-546 | when all names differ, the one killed has heard "K" and every other exactly one "R" |
| `Battle.AnyoneCanLose` | mapa/mapa.c:504-530 | whoever stands on the list can be the one that loses the last battle |
| `Rounds.ClearUnlessOne` | mapa/mapa.c:475-546 | over any sequence of rounds and events of other threads from an empty list: it is empty before every round and at the end if and only if no round reports exactly one trainer |
| `Rounds.VictimGivesBack` | mapa/mapa.c:533-543 | the dead one's Pokémon are in the queues of their nests, behind those that waited there; all others hold what they held and want what they wanted; nothing else of the map has changed |
| `Rounds.RoundGivesBack` | mapa/mapa.c:498-577 | a round that ends changes nothing on the map, or one of the names or the reported has died in just that way |
| `Rounds.RoundMayHang` | mapa/mapa.c:498-577 | in whatever order they fight, the battles of a round can end so that it never ends, if and only if more than one trainer is blocked, somebody is reported and some name left over is not blocked |
| `Rounds.ClearNeverHangs` | mapa/mapa.c:498-577 | while no round has reported exactly one trainer, none can hang |
| `Rounds.ReportedAloneTwice` | mapa/mapa.c:504-544 | a trainer left over and again reported alone meets itself and is disconnected |
| `Rounds.HoldingsStay` | mapa/mapa.c:507-508 | over any event, whoever holds something and stays connected goes on holding something, so a name left over still has something to fight with |
| `Rounds.AfterIsGood` | mapa/mapa.c:498-577 | rounds too keep trainers placed, queues pure, semaphores counted and every Pokémon as often as before |
| `Scenes.OnlyHolderIsReported` | mapa/mapa.c:456-496 | if of the blocked trainers only one holds anything, and where it wants to catch nothing is left, it is reported alone |
| `Scenes.OneIsReported` | mapa/mapa.c:475-546 | a run from an empty map to a state in which exactly one trainer is reported; the round leaves it on the list, and a second round, with nothing in between, disconnects it |
| `Scenes.HangIsReached` | mapa/mapa.c:498-577 | a run from an empty map and two rounds: the first leaves a name, its trainer then catches what another gives back and is blocked no more; in the second, in whatever order they fight, the battles can end so that the round is stuck |

## Left out

- Sockets, framing and FUSE: packets arrive whole and in order.
- mmap, msync and fopen: the image is one byte array that memcpy writes to.
- Interleavings inside one file system request; open and release are the only requests whose effect lasts beyond them.
- readdir, getattr, statfs and the dummy truncate: lookups without effect.
- What new blocks of a grown file contain: the code does not clear them.
- Drawing, logging, configuration and signals of the map; medals, lives and menus of the trainer.
- pkmn_battle: who loses is arbitrary. list_sort: any sort that puts the greater key first.
- A name left on the deadlock list whose trainer has disconnected since: its structure has been freed, and what the next round finds there is not modelled. Rounds are modelled for names still connected, blocked or not.
- Detector.FewIsExact: says nothing of maps with 128 or more Pokémon of one kind with one trainer or in one queue, where a signed char overflows; DetectorRound.EntriesAreExactWhen gives the exact limit.
- Walk.Distance: a goal that is no nest, where the source reads past its array, cannot occur on a map whose goals are nests, which every event keeps.
- Client.ReadFile: transport errors of send and recv.

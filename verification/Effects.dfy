/** What each request answers and what it leaves behind, said of the table, the files and the locks. */
module Effects {
  import opened Words
  import opened Osada
  import opened Names
  import opened Namespace
  import opened Truncate
  import opened Files
  import opened Slots
  import opened Requests
  import opened Invariant
  import opened Holding
  import opened Isolation
  import Bitmap
  import Contents
  import Fat
  import Tree

  /** Some entry of this folder has this name. */
  ghost predicate Exists(t: Table, folder: int, name: seq<byte>, filter: Filter) {
    exists i :: 0 <= i < |t| && Matches(t[i], folder, name, filter)
  }

  lemma FoundIffExists(t: Table, folder: int, name: seq<byte>, filter: Filter)
    ensures First(t, folder, name, filter) < |t| <==> Exists(t, folder, name, filter)
  {
  }

  ghost predicate AllUsed(t: Table) {
    forall i :: 0 <= i < |t| ==> !t[i].state.Deleted?
  }

  lemma FreeUnlessAllUsed(t: Table)
    ensures FreeSlot(t) == |t| <==> AllUsed(t)
  {
  }

  /** A size is made of the least number of blocks that hold it, and of one if it is 0. */
  lemma BlocksForIsLeast(size: nat)
    ensures BlocksFor(size) >= 1 && size <= BLOCK_SIZE * BlocksFor(size)
    ensures forall n: nat :: n >= 1 && size <= BLOCK_SIZE * n ==> BlocksFor(size) <= n
  {
  }

  /** A name that fits is stored as it is. */
  lemma StoredNameReads(name: seq<byte>)
    requires NUL !in name && |name| <= FILENAME_LENGTH
    ensures UpToNul(StrNCpy(name)) == name
  {
    StoredNameMatches(name, name);
  }

  // create and mkdir.

  /** What stands in a slot of the table. */
  ghost predicate Reads(e: OsadaFile, state: FileState, name: seq<byte>, folder: int, size: int, lastmod: u32) {
    e.state == state && UpToNul(e.fname) == name && e.parentDirectory == folder && e.fileSize == size && e.lastmod == lastmod
  }

  /** create answers with the first of these that applies, in the order of its checks. */
  lemma CreateAnswers(fs: Fs, path: seq<byte>, now: u32)
    requires Good(fs) && IsPath(path) && Admissible(fs, Create(path, now))
    ensures var name, folder := NameOf(path), FolderOf(fs.table, path);
      var (r, answer) := Step(fs, Create(path, now));
      && answer == (if |name| > FILENAME_LENGTH then -ENAMETOOLONG
                    else if folder != ROOT && folder == |fs.table| then -ENOENT
                    else if AllUsed(fs.table) then -ENOSPC
                    else if Exists(fs.table, folder, name, Only(Regular)) then -EEXIST
                    else if fs.FreeBlocks() == 0 then -ENOSPC
                    else 0)
      && (answer != 0 ==> r == fs)
  {
    hide Good, NewFile, Fs.FreeBlocks, FolderOf, NameOf, IsPath;
    FoundIffExists(fs.table, FolderOf(fs.table, path), NameOf(path), Only(Regular));
    FreeUnlessAllUsed(fs.table);
  }

  /** A create that succeeds makes an empty file of one block, the lowest that is free, in the lowest deleted slot. */
  lemma CreateMakes(fs: Fs, path: seq<byte>, now: u32)
    requires Good(fs) && IsPath(path) && Admissible(fs, Create(path, now)) && Step(fs, Create(path, now)).1 == 0
    ensures var r, slot := Step(fs, Create(path, now)).0, FreeSlot(fs.table);
      && Good(r) && slot < |fs.table| && r.table == fs.table[slot := r.table[slot]]
      && Reads(r.table[slot], Regular, NameOf(path), FolderOf(fs.table, path), 0, now)
      && r.IsRegular(slot) && FileContent(r, slot) == []
      && OthersKeep(fs, r, slot)
    ensures var r, block := Step(fs, Create(path, now)).0, Bitmap.FirstFree(fs.DataBits());
      && block >= 0 && r.table[FreeSlot(fs.table)].firstBlock == block
      && r.DataBits() == fs.DataBits()[block := true] && r.fat == fs.fat[block := Fat.END]
      && r.FreeBlocks() == fs.FreeBlocks() - 1 && r.locks == fs.locks && r.geo == fs.geo && r.data == fs.data
  {
    PathParts(path);
    StoredNameReads(NameOf(path));
    EveryStepKeeps(fs, Create(path, now));
    var name, folder, slot := NameOf(path), FolderOf(fs.table, path), FreeSlot(fs.table);
    assert Step(fs, Create(path, now)).0 == NewFile(fs, slot, StrNCpy(name), folder, now);
    hide Step, Good, Admissible;
    NewFileFrame(fs, slot, StrNCpy(name), folder, now);
    NewFileKeeps(fs, slot, StrNCpy(name), folder, now);
    NewFileShape(fs, slot, StrNCpy(name), folder, now);
  }

  /** mkdir the same, with directories in the way and no block to find. */
  lemma MkdirAnswers(fs: Fs, path: seq<byte>, now: u32)
    requires Good(fs) && IsPath(path) && Admissible(fs, Mkdir(path, now))
    ensures var name, folder := NameOf(path), FolderOf(fs.table, path);
      var (r, answer) := Step(fs, Mkdir(path, now));
      && answer == (if |name| > FILENAME_LENGTH then -ENAMETOOLONG
                    else if folder != ROOT && folder == |fs.table| then -ENOENT
                    else if AllUsed(fs.table) then -ENOSPC
                    else if Exists(fs.table, folder, name, Only(Directory)) then -EEXIST
                    else 0)
      && (answer != 0 ==> r == fs)
  {
    hide Good, Fs.FreeBlocks, FolderOf, NameOf, IsPath;
    FoundIffExists(fs.table, FolderOf(fs.table, path), NameOf(path), Only(Directory));
    FreeUnlessAllUsed(fs.table);
  }

  /** A mkdir that succeeds changes the table in its lowest deleted slot, and nothing else. */
  lemma MkdirMakes(fs: Fs, path: seq<byte>, now: u32)
    requires Good(fs) && IsPath(path) && Admissible(fs, Mkdir(path, now)) && Step(fs, Mkdir(path, now)).1 == 0
    ensures var r, slot := Step(fs, Mkdir(path, now)).0, FreeSlot(fs.table);
      && slot < |fs.table| && r == fs.(table := fs.table[slot := r.table[slot]])
      && Reads(r.table[slot], Directory, NameOf(path), FolderOf(fs.table, path), 0, now) && r.table[slot].firstBlock == Fat.END
  {
    PathParts(path);
    StoredNameReads(NameOf(path));
    hide Good, StrNCpy, UpToNul, FolderOf, NameOf, IsPath, First;
  }

  // rmdir.

  /** The lowest live directory with the path's folder and name. */
  ghost predicate IsItsDirectory(t: Table, path: seq<byte>, d: int)
    requires IsPath(path)
  {
    && 0 <= d < |t| && Matches(t[d], FolderOf(t, path), NameOf(path), Only(Directory))
    && forall j :: 0 <= j < d ==> !Matches(t[j], FolderOf(t, path), NameOf(path), Only(Directory))
  }

  ghost predicate Childless(t: Table, d: int) {
    forall j :: IsLiveSlot(t, j) ==> t[j].parentDirectory != d
  }

  /** Nothing lies in a folder that is not there. */
  lemma NothingInNoFolder(fs: Fs, path: seq<byte>, d: int)
    requires Good(fs) && IsPath(path) && FolderOf(fs.table, path) == |fs.table|
    ensures !IsItsDirectory(fs.table, path, d)
  {
    hide WellFormed, FolderOf, NameOf;
  }

  lemma HasChildIff(t: Table, d: int)
    ensures HasLiveChild(t, d) <==> !Childless(t, d)
  {
  }

  /**
   rmdir answers 0 if and only if the directory is there and nothing live lies in it; then it is deleted
   and nothing else changes. It answers -ENOTEMPTY if something live lies in it, -ENOENT if it is not there.
   */
  lemma RmdirRemoves(fs: Fs, path: seq<byte>, d: int)
    requires Good(fs) && IsPath(path) && Admissible(fs, Rmdir(path))
    ensures IsItsDirectory(fs.table, path, d) && Childless(fs.table, d) ==>
      Step(fs, Rmdir(path)) == (fs.(table := fs.table[d := fs.table[d].(state := Deleted)]), 0)
    ensures IsItsDirectory(fs.table, path, d) && !Childless(fs.table, d) ==> Step(fs, Rmdir(path)) == (fs, -ENOTEMPTY)
    ensures (forall i :: !IsItsDirectory(fs.table, path, i)) ==> Step(fs, Rmdir(path)) == (fs, -ENOENT)
  {
    var slot := First(fs.table, FolderOf(fs.table, path), NameOf(path), Only(Directory));
    HasChildIff(fs.table, d);
    if FolderOf(fs.table, path) == |fs.table| {
      NothingInNoFolder(fs, path, d);
    } else if slot < |fs.table| {
      assert IsItsDirectory(fs.table, path, slot);
    }
    hide Good, FolderOf, NameOf, IsPath, HasLiveChild, Childless;
  }

  /** After an rmdir that succeeds no live directory has that folder and name. */
  lemma RemovedIsGone(fs: Fs, path: seq<byte>)
    requires Good(fs) && IsPath(path) && Admissible(fs, Rmdir(path)) && Step(fs, Rmdir(path)).1 == 0
    ensures !Exists(Step(fs, Rmdir(path)).0.table, FolderOf(fs.table, path), NameOf(path), Only(Directory))
  {
    hide WellFormed, SlotsSafe, ParentsLive, Rooted, FolderOf, NameOf, IsPath, HasLiveChild;
  }

  // rename.

  /** rename answers with the first of these that applies, in the order of its checks. */
  lemma RenameAnswers(fs: Fs, path: seq<byte>, to: seq<byte>, now: u32)
    requires Good(fs) && IsPath(path) && IsPath(to) && Admissible(fs, Rename(path, to, now))
    ensures var slot, folder, name := IsParent(fs.table, path), FolderOf(fs.table, to), NameOf(to);
      var (r, answer) := Step(fs, Rename(path, to, now));
      && answer == (if |name| > FILENAME_LENGTH then -ENAMETOOLONG
                    else if !IsLiveSlot(fs.table, slot) then -ENOENT
                    else if folder != ROOT && !IsLiveSlot(fs.table, folder) then -ENOENT
                    else if Exists(fs.table, folder, name, Live) then -EEXIST
                    else if fs.locks[slot].Held() then -EBUSY
                    else 0)
      && (answer != 0 ==> r == fs)
  {
    hide Good, FolderOf, NameOf, IsParent, IsPath, Tree.Moved;
    FoundIffExists(fs.table, FolderOf(fs.table, to), NameOf(to), Live);
  }

  /** A rename that succeeds gives the entry its new folder and name, dates it, and changes nothing else. */
  lemma RenameMoves(fs: Fs, path: seq<byte>, to: seq<byte>, now: u32)
    requires Good(fs) && IsPath(path) && IsPath(to) && Admissible(fs, Rename(path, to, now)) && Step(fs, Rename(path, to, now)).1 == 0
    ensures var r, slot := Step(fs, Rename(path, to, now)).0, IsParent(fs.table, path);
      && slot < |fs.table| && r == fs.(table := fs.table[slot := r.table[slot]])
      && Reads(r.table[slot], fs.table[slot].state, NameOf(to), FolderOf(fs.table, to), fs.table[slot].fileSize, now)
      && r.table[slot].firstBlock == fs.table[slot].firstBlock
  {
    PathParts(to);
    StoredNameReads(NameOf(to));
    hide Good, FolderOf, NameOf, IsParent, IsPath, StrNCpy, UpToNul, First, Tree.Inside;
  }

  // unlink and utimens.

  /** unlink answers -ENOENT, -EBUSY or 0, by what is_parent finds and its lock. */
  lemma UnlinkAnswers(fs: Fs, path: seq<byte>)
    requires Good(fs) && IsPath(path) && Admissible(fs, Unlink(path))
    ensures var slot := IsParent(fs.table, path);
      var (r, answer) := Step(fs, Unlink(path));
      && answer == (if !IsLiveSlot(fs.table, slot) then -ENOENT else if fs.locks[slot].Held() then -EBUSY else 0)
      && (answer != 0 ==> r == fs)
  {
    hide Good, IsParent, IsPath, DropFile;
  }

  /** An unlink that succeeds deletes the entry and frees its blocks, and changes nothing else. */
  lemma UnlinkFrees(fs: Fs, path: seq<byte>)
    requires Good(fs) && IsPath(path) && Admissible(fs, Unlink(path)) && Step(fs, Unlink(path)).1 == 0
    ensures var r, slot := Step(fs, Unlink(path)).0, IsParent(fs.table, path);
      && Good(r) && slot < |fs.table| && r == fs.(bits := r.bits, table := fs.table[slot := fs.table[slot].(state := Deleted)])
      && (forall b :: 0 <= b < fs.geo.dataBlocks ==> (r.DataBits()[b] <==> fs.DataBits()[b] && b !in fs.Blocks(slot)))
      && r.FreeBlocks() == fs.FreeBlocks() + |fs.Blocks(slot)| && OthersKeep(fs, r, slot)
  {
    EveryStepKeeps(fs, Unlink(path));
    var slot := IsParent(fs.table, path);
    assert Step(fs, Unlink(path)).0 == DropFile(fs, slot);
    assert fs.IsRegular(slot);
    hide Step, Good, Admissible, IsParent;
    DropFileKeeps(fs, slot);
    DropFileBits(fs, slot);
  }

  /** utimens sets the date of what is_parent finds, if that is live, and changes nothing else. */
  lemma UtimensDates(fs: Fs, path: seq<byte>, lastmod: u32)
    requires Good(fs) && IsPath(path) && Admissible(fs, Utimens(path, lastmod))
    ensures var slot := IsParent(fs.table, path);
      Step(fs, Utimens(path, lastmod)) ==
        if !IsLiveSlot(fs.table, slot) then (fs, -ENOENT)
        else (fs.(table := fs.table[slot := fs.table[slot].(lastmod := lastmod)]), 0)
  {
    hide Good, IsParent, IsPath;
  }

  // ftruncate.

  /** ftruncate fails, changing nothing, if its path leads to nothing live or the blocks to be added are not free. */
  lemma FtruncateAnswers(fs: Fs, path: seq<byte>, size: u32)
    requires Good(fs) && IsPath(path) && Admissible(fs, Ftruncate(path, size))
    ensures var slot := IsParent(fs.table, path);
      var (r, answer) := Step(fs, Ftruncate(path, size));
      && answer == (if !IsLiveSlot(fs.table, slot) then -ENOENT
                    else if BlocksFor(size) - BlocksFor(fs.table[slot].fileSize) > fs.FreeBlocks() then -EFBIG
                    else 0)
      && (answer != 0 ==> r == fs)
  {
    var slot := IsParent(fs.table, path);
    if Leads(fs, path) {
      ResizedAllOrNothing(fs, slot, size);
    }
    hide WellFormed, IsParent, IsPath, Resized, Fs.FreeBlocks, BlocksFor, OnlySizeOf, Fs.Blocks, OnePrefix, Good;
  }

  /**
   A file of size `size` in slot i: the blocks it needs, the first bytes it had, free blocks taken or
   given back; nothing else of the table, the locks, the data region or other files has changed.
   */
  ghost predicate IsCut(fs: Fs, r: Fs, i: int, size: u32)
    requires Good(fs) && Good(r) && fs.IsRegular(i)
  {
    && r.IsRegular(i) && |r.Blocks(i)| == BlocksFor(size)
    && r == fs.(bits := r.bits, fat := r.fat, locks := r.locks, table := fs.table[i := fs.table[i].(fileSize := size)])
    && (var n := Min(size, fs.table[i].fileSize); |FileContent(r, i)| == size && FileContent(r, i)[..n] == FileContent(fs, i)[..n])
    && r.FreeBlocks() == fs.FreeBlocks() + |fs.Blocks(i)| - |r.Blocks(i)|
    && OthersKeep(fs, r, i)
  }

  lemma ResizedIsCut(fs: Fs, i: int, size: u32)
    requires Good(fs) && fs.IsRegular(i) && Growth(fs, i, size) <= fs.FreeBlocks()
    requires Good(Resized(fs, i, size).0)
    ensures IsCut(fs, Resized(fs, i, size).0, i, size)
  {
    GrowthBound(fs, i, size);
    ResizedAllOrNothing(fs, i, size);
    ResizedKeepsBytes(fs, i, size);
    hide WellFormed, Good, Resized, Growth, FileContent, OthersKeep, BlocksFor, Fs.FreeBlocks, Fs.Blocks, Fs.Chains;
  }

  /** An ftruncate that succeeds leaves the file with the size asked for, whether it grows or shrinks. */
  lemma FtruncateCuts(fs: Fs, path: seq<byte>, size: u32)
    requires Good(fs) && IsPath(path) && Admissible(fs, Ftruncate(path, size)) && Step(fs, Ftruncate(path, size)).1 == 0
    ensures var r, slot := Step(fs, Ftruncate(path, size)).0, IsParent(fs.table, path);
      Good(r) && fs.IsRegular(slot) && IsCut(fs, r, slot, size) && r.locks == fs.locks
  {
    hide Good, WellFormed, IsCut, IsParent, IsPath, Resized;
    EveryStepKeeps(fs, Ftruncate(path, size));
    FtruncateAnswers(fs, path, size);
    EveryStepOnLocks(fs, Ftruncate(path, size));
    var slot := IsParent(fs.table, path);
    assert fs.IsRegular(slot) && Step(fs, Ftruncate(path, size)) == Resized(fs, slot, size);
    hide Step, Admissible;
    ResizedIsCut(fs, slot, size);
  }

  // open and release.

  /** open answers -ENOENT, -EBUSY or 0, by the file its path names and that file's lock. */
  lemma OpenAnswers(fs: Fs, path: seq<byte>, flags: int)
    requires Good(fs) && IsPath(path) && Admissible(fs, Open(path, flags))
    ensures var slot := FileSlot(fs.table, path);
      Step(fs, Open(path, flags)).1 ==
        if slot == |fs.table| then -ENOENT
        else if (if flags == 0 then fs.locks[slot].writer else fs.locks[slot].Held()) then -EBUSY
        else if flags == 2 && !IsLiveSlot(fs.table, IsParent(fs.table, path)) then -ENOENT
        else 0
  {
    hide Good, WellFormed, IsParent, FileSlot, IsPath, Resized, FolderOf, NameOf, SameFiles;
    var slot := FileSlot(fs.table, path);
    if flags == 2 && slot < |fs.table| && Leads(fs, path) {
      WithLockKeeps(fs, slot, RwLock(0, true));
      CutToNothing(WithLock(fs, slot, RwLock(0, true)), IsParent(fs.table, path));
    }
  }

  /** Unless it truncates, an open changes at most locks: every file is as it was. */
  lemma OpenTakesLockOnly(fs: Fs, path: seq<byte>, flags: int)
    requires Good(fs) && IsPath(path) && Admissible(fs, Open(path, flags)) && (flags != 2 || Step(fs, Open(path, flags)).1 != 0)
    ensures var r := Step(fs, Open(path, flags)).0;
      Good(r) && r == fs.(locks := r.locks) && OthersKeep(fs, r, -1)
  {
    hide Good, WellFormed, IsParent, FileSlot, IsPath, Resized, OthersKeep, SameFiles, FolderOf, NameOf;
    EveryStepKeeps(fs, Open(path, flags));
    var r, slot := Step(fs, Open(path, flags)).0, FileSlot(fs.table, path);
    if flags == 2 && slot < |fs.table| && Leads(fs, path) {
      WithLockKeeps(fs, slot, RwLock(0, true));
      CutToNothing(WithLock(fs, slot, RwLock(0, true)), IsParent(fs.table, path));
    }
    assert r == fs.(locks := r.locks);
    hide Step, Admissible, Opened;
    SameLocksApart(fs, r);
    AllOthersKeep(fs, r, -1);
  }

  lemma SameLocksApart(fs: Fs, r: Fs)
    requires r == fs.(locks := r.locks) && |r.locks| == |fs.locks|
    ensures SameFiles(fs, r)
  {
  }

  /** Locks do not matter to files. */
  lemma SameButLocks(fs: Fs, g: Fs, i: int)
    requires Good(fs) && Good(g) && fs.IsRegular(i) && g == fs.(locks := g.locks)
    ensures g.IsRegular(i) && g.Blocks(i) == fs.Blocks(i) && g.FreeBlocks() == fs.FreeBlocks()
    ensures FileContent(g, i) == FileContent(fs, i) && OthersKeep(fs, g, i)
  {
    hide Good, WellFormed, Fat.Chain, Bitmap.FreeCount, FileContent, OthersKeep;
    ContentElsewhere(fs, g, i);
    assert SameFiles(fs, g);
    AllOthersKeep(fs, g, i);
  }

  lemma CutAfterLock(fs: Fs, g: Fs, r: Fs, i: int, size: u32)
    requires Good(fs) && Good(g) && Good(r) && fs.IsRegular(i) && g == fs.(locks := g.locks) && g.IsRegular(i) && IsCut(g, r, i, size)
    ensures IsCut(fs, r, i, size)
  {
    hide Good, WellFormed, Fs.Blocks, Fs.FreeBlocks, OthersKeep, FileContent, BlocksFor;
    SameButLocks(fs, g, i);
    OthersKeepTrans(fs, g, r, i);
  }

  lemma OpenIsCut(fs: Fs, path: seq<byte>) returns (g: Fs)
    requires Good(fs) && IsPath(path) && Admissible(fs, Open(path, 2)) && Step(fs, Open(path, 2)).1 == 0
    ensures Good(g) && g == fs.(locks := g.locks) && fs.IsRegular(IsParent(fs.table, path))
    ensures Step(fs, Open(path, 2)) == Resized(g, IsParent(fs.table, path), 0)
  {
    hide Good, WellFormed, IsParent, FileSlot, IsPath, Resized, Forest, SlotsSafe, FolderOf, NameOf;
    OpenAnswers(fs, path, 2);
    var lockSlot := FileSlot(fs.table, path);
    g := WithLock(fs, lockSlot, RwLock(0, true));
    LockFrame(fs, lockSlot, RwLock(0, true));
    StepKeepsGood(fs, g);
    hide StepKeeps;
  }

  /** An open for truncation that succeeds leaves the file empty, with one block; all other files are as they were. */
  lemma OpenEmpties(fs: Fs, path: seq<byte>)
    requires Good(fs) && IsPath(path) && Admissible(fs, Open(path, 2)) && Step(fs, Open(path, 2)).1 == 0
    ensures var r, slot := Step(fs, Open(path, 2)).0, IsParent(fs.table, path);
      && Good(r) && fs.IsRegular(slot) && IsCut(fs, r, slot, 0)
      && FileContent(r, slot) == [] && |r.Blocks(slot)| == 1
  {
    EveryStepKeeps(fs, Open(path, 2));
    var g := OpenIsCut(fs, path);
    var slot := IsParent(fs.table, path);
    hide Step, Good, Admissible, WellFormed, IsParent;
    CutToNothing(g, slot);
    var r := Resized(g, slot, 0).0;
    hide Resized;
    ResizedIsCut(g, slot, 0);
    CutAfterLock(fs, g, r, slot, 0);
  }

  /** A release answers -ENOENT or 0; it changes at most the lock of the file its path names. */
  lemma ReleaseAnswers(fs: Fs, path: seq<byte>)
    requires Good(fs) && IsPath(path) && Admissible(fs, Release(path))
    ensures var slot := FileSlot(fs.table, path);
      var (r, answer) := Step(fs, Release(path));
      && (slot == |fs.table| ==> r == fs && answer == -ENOENT)
      && (slot < |fs.table| ==>
            && answer == 0 && |r.locks| == |fs.locks| && r == fs.(locks := fs.locks[slot := r.locks[slot]])
            && Holders(r.locks[slot]) == Holders(fs.locks[slot]) - 1)
  {
    hide Good, WellFormed, FileSlot, IsPath;
  }

  // write.

  /** write fails, changing nothing, if its path leads to nothing live or the blocks to be added are not free. */
  lemma WriteAnswers(fs: Fs, path: seq<byte>, off: u32, buf: seq<byte>)
    requires Good(fs) && IsPath(path) && Admissible(fs, Write(path, off, buf))
    ensures var slot := IsParent(fs.table, path);
      var (r, answer) := Step(fs, Write(path, off, buf));
      && answer == (if !IsLiveSlot(fs.table, slot) then -ENOENT
                    else if BlocksFor(Max(fs.table[slot].fileSize, off + |buf|)) - BlocksFor(fs.table[slot].fileSize) > fs.FreeBlocks() then -EFBIG
                    else |buf|)
      && (answer < 0 ==> r == fs)
  {
    hide Good, WellFormed, IsParent, IsPath, Written, Fs.FreeBlocks, BlocksFor, FileContent, Contents.FlatUpdate, OthersKeep;
    if Leads(fs, path) {
      WrittenRefinesFlatFile(fs, IsParent(fs.table, path), off, buf);
    }
  }

  /**
   A write that succeeds is a flat update of the file, which has the blocks its size asks for; nothing else
   of the table, no lock and no other file has changed.
   */
  lemma WriteUpdates(fs: Fs, path: seq<byte>, off: u32, buf: seq<byte>)
    requires Good(fs) && IsPath(path) && Admissible(fs, Write(path, off, buf)) && Step(fs, Write(path, off, buf)).1 >= 0
    ensures var r, slot := Step(fs, Write(path, off, buf)).0, IsParent(fs.table, path);
      && Good(r) && fs.IsRegular(slot) && r.IsRegular(slot)
      && Contents.FlatUpdate(FileContent(fs, slot), FileContent(r, slot), off, buf) && OthersKeep(fs, r, slot)
      && |r.Blocks(slot)| == BlocksFor(r.table[slot].fileSize)
      && r.FreeBlocks() == fs.FreeBlocks() + |fs.Blocks(slot)| - |r.Blocks(slot)|
      && r.table == fs.table[slot := fs.table[slot].(fileSize := r.table[slot].fileSize)]
      && r.locks == fs.locks && r.geo == fs.geo
  {
    hide Good, WellFormed, IsParent, IsPath, Written, Fs.FreeBlocks, Fs.Blocks, BlocksFor, FileContent, Contents.FlatUpdate, OthersKeep;
    EveryStepKeeps(fs, Write(path, off, buf));
    WriteAnswers(fs, path, off, buf);
    EveryStepOnLocks(fs, Write(path, off, buf));
    var slot := IsParent(fs.table, path);
    assert fs.IsRegular(slot) && Step(fs, Write(path, off, buf)) == Written(fs, slot, off, buf);
    hide Step, Admissible;
    WrittenRefinesFlatFile(fs, slot, off, buf);
    WrittenTable(fs, slot, off, buf);
  }

  lemma WrittenTable(fs: Fs, i: int, off: nat, buf: seq<byte>)
    requires Good(fs) && fs.IsRegular(i) && off + |buf| < 0x8000_0000 && Affordable(fs, i, off, |buf|)
    ensures var r := Written(fs, i, off, buf).0;
      && r.IsRegular(i) && |r.Blocks(i)| == BlocksFor(r.table[i].fileSize) && r.Shape()
      && r.FreeBlocks() == fs.FreeBlocks() + |fs.Blocks(i)| - |r.Blocks(i)|
      && r.table == fs.table[i := fs.table[i].(fileSize := r.table[i].fileSize)] && r.geo == fs.geo
  {
    var size := SizeFor(fs, i, off + |buf|);
    RoomForWrite(fs, i, off + |buf|);
    WrittenUnfold(fs, i, off, buf);
    ResizedAllOrNothing(fs, i, size);
    GrowthBound(fs, i, size);
    var g := Resized(fs, i, size).0;
    hide Good, WellFormed, Resized, Written, Room, Fs.FreeBlocks, Fs.Blocks, BlocksFor, Growth, Stored;
    StoredIsWellFormed(g, i, off, buf);
    StoredRest(g, i, off, buf);
  }

  lemma StoredRest(fs: Fs, i: int, off: nat, buf: seq<byte>)
    requires Room(fs, i, off + |buf|)
    ensures Stored(fs, i, off, buf) == fs.(data := Stored(fs, i, off, buf).data)
  {
    hide WellFormed;
  }
}

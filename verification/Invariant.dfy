/** What every request keeps, and what therefore holds after every run of requests. */
module Invariant {
  import opened Words
  import opened Osada
  import opened Names
  import opened Namespace
  import opened Ownership
  import opened Store
  import opened Truncate
  import opened Files
  import opened Slots
  import opened Requests
  import Tree
  import Fat
  import Contents

  /**
   Slot by slot: no writer beside another holder, only regular files are held, and the size of a
   regular file fits an int.
   */
  ghost predicate SlotsSafe(fs: Fs) {
    && |fs.locks| == |fs.table|
    && forall i :: 0 <= i < |fs.table| ==>
         && (fs.locks[i].writer ==> fs.locks[i].readers == 0) && (fs.locks[i].Held() ==> fs.table[i].state.Regular?)
         && (fs.table[i].state.Regular? ==> fs.table[i].fileSize < 0x8000_0000)
  }

  /** What every request keeps. */
  ghost predicate Good(fs: Fs): (good: bool)
    ensures good ==> WellFormed(fs) && fs.Shape() && |fs.table| == |fs.locks| == MAX_FILES
  {
    WellFormed(fs) && Forest(fs.table) && SlotsSafe(fs)
  }

  /** The layout and the bits of the administrative blocks never change. */
  ghost predicate AdminKept(fs: Fs, r: Fs) {
    && r.geo == fs.geo
    && |r.bits| == |fs.bits|
    && forall p :: 0 <= p < fs.geo.DataOffset() && p < |fs.bits| ==> r.bits[p] == fs.bits[p]
  }

  /** Whoever holds a file keeps it: its entry stays, but for its size and date, and so do its holders' claims. */
  ghost predicate HeldKept(fs: Fs, r: Fs) {
    forall i :: 0 <= i < |fs.locks| && i < |fs.table| && i < |r.table| && fs.locks[i].Held() ==>
      && r.table[i].state == fs.table[i].state
      && r.table[i].fname == fs.table[i].fname
      && r.table[i].parentDirectory == fs.table[i].parentDirectory
      && r.table[i].firstBlock == fs.table[i].firstBlock
  }

  ghost predicate StepKeeps(fs: Fs, r: Fs) {
    Good(r) && AdminKept(fs, r) && HeldKept(fs, r)
  }

  lemma SameKeeps(fs: Fs)
    requires Good(fs)
    ensures StepKeeps(fs, fs)
  {
    hide WellFormed, Forest;
  }

  /** Changes to entries that leave files, locks of files and the tree in order. */
  lemma TableChangeKeeps(fs: Fs, r: Fs)
    requires Good(fs) && SameFiles(fs, r) && Forest(r.table) && SlotsSafe(r)
    requires HeldKept(fs, r)
    ensures StepKeeps(fs, r)
  {
    SameFilesKeep(fs, r);
    hide WellFormed, Forest, SlotsSafe, HeldKept;
  }

  /** What FirstFrom misses, nothing matches. */
  lemma NoSuchEntry(t: Table, folder: int, name: seq<byte>, filter: Filter, e: OsadaFile)
    requires First(t, folder, name, filter) == |t| && Names.Truncated(name) == name && NUL !in name
    requires e.fname == StrNCpy(name) && e.parentDirectory == folder
    ensures forall j :: 0 <= j < |t| && Passes(t[j], filter) ==> !SameKey(t[j], e)
  {
    StoredNameMatches(name, name);
    forall j | 0 <= j < |t| && Passes(t[j], filter)
      ensures !SameKey(t[j], e)
    {
      assert !Matches(t[j], folder, name, filter);
    }
  }

  /** A slot whose new state is not held keeps the locks safe if nobody held it before. */
  lemma NewFileFrame(fs: Fs, i: int, fname: Fname, parent: u16, now: u32)
    requires Good(fs) && 0 <= i < MAX_FILES && fs.table[i].state.Deleted? && fs.FreeBlocks() > 0
    ensures var r := NewFile(fs, i, fname, parent, now);
      && SlotsSafe(r) && AdminKept(fs, r) && HeldKept(fs, r)
      && r.table == fs.table[i := r.table[i]]
      && r.table[i].state.Regular? && r.table[i].fname == fname && r.table[i].parentDirectory == parent
  {
    NewFileShape(fs, i, fname, parent, now);
    hide Sound, Sized, Forest, Fs.Blocks;
  }

  lemma CreatedKeeps(fs: Fs, path: seq<byte>, now: u32)
    requires Good(fs) && IsPath(path) && FolderExists(fs, path)
    ensures StepKeeps(fs, Created(fs, path, now).0)
  {
    if Created(fs, path, now).1 == 0 {
      var slot, folder, name := FreeSlot(fs.table), FolderOf(fs.table, path), NameOf(path);
      PathParts(path);
      var r := NewFile(fs, slot, StrNCpy(name), folder, now);
      assert Created(fs, path, now).0 == r;
      NewFileFrame(fs, slot, StrNCpy(name), folder, now);
      NewFileKeeps(fs, slot, StrNCpy(name), folder, now);
      hide WellFormed, SlotsSafe, HeldKept, AdminKept, NewFile, Created, Fs.FreeBlocks, Fs.Blocks;
      NoSuchEntry(fs.table, folder, name, Only(Regular), r.table[slot]);
      Tree.EnterKeepsForest(fs.table, slot, r.table[slot]);
    } else {
      CreateFails(fs, path, now);
      SameKeeps(fs);
    }
  }

  lemma CreateFails(fs: Fs, path: seq<byte>, now: u32)
    requires WellFormed(fs) && IsPath(path)
    ensures Created(fs, path, now).1 != 0 ==> Created(fs, path, now).0 == fs
  {
    hide WellFormed, NewFile, Fs.FreeBlocks;
  }

  /** Putting another entry into a slot that no regular file has, and that nobody holds. */
  lemma EntryFrame(fs: Fs, i: int, e: OsadaFile)
    requires Good(fs) && 0 <= i < |fs.table| && !fs.table[i].state.Regular? && !e.state.Regular?
    ensures var r := fs.(table := fs.table[i := e]);
      SameFiles(fs, r) && SlotsSafe(r) && HeldKept(fs, r)
  {
    hide WellFormed, Forest;
  }

  lemma MadeDirKeeps(fs: Fs, path: seq<byte>, now: u32)
    requires Good(fs) && IsPath(path) && FolderExists(fs, path)
    ensures StepKeeps(fs, MadeDir(fs, path, now).0)
  {
    var (r, err) := MadeDir(fs, path, now);
    hide WellFormed, Fs.Blocks, SlotsSafe, HeldKept, AdminKept, SameFiles;
    if err == 0 {
      var slot, folder, name := FreeSlot(fs.table), FolderOf(fs.table, path), NameOf(path);
      PathParts(path);
      var e := OsadaFile(Directory, StrNCpy(name), folder, 0, now, Fat.END);
      NoSuchEntry(fs.table, folder, name, Only(Directory), e);
      EntryFrame(fs, slot, e);
      Tree.EnterKeepsForest(fs.table, slot, e);
      hide Forest;
      TableChangeKeeps(fs, r);
    } else {
      SameKeeps(fs);
    }
  }

  lemma RemovedDirKeeps(fs: Fs, path: seq<byte>)
    requires Good(fs) && IsPath(path)
    ensures StepKeeps(fs, RemovedDir(fs, path).0)
  {
    var (r, err) := RemovedDir(fs, path);
    hide WellFormed, Fs.Blocks, SlotsSafe, HeldKept, AdminKept, SameFiles;
    if err == 0 {
      var slot := First(fs.table, FolderOf(fs.table, path), NameOf(path), Only(Directory));
      EntryFrame(fs, slot, fs.table[slot].(state := Deleted));
      assert Tree.MayLeave(fs.table, slot);
      Tree.LeaveKeepsForest(fs.table, slot);
      hide Forest;
      TableChangeKeeps(fs, r);
    } else {
      SameKeeps(fs);
    }
  }

  /** Under what a search missed there is no live entry of that name. */
  lemma MayMoveThere(fs: Fs, slot: int, folder: u16, name: seq<byte>)
    requires fs.IsLive(slot) && IsFolder(fs.table, folder) && NUL !in name && Names.Truncated(name) == name
    requires First(fs.table, folder, name, Live) == |fs.table|
    ensures Tree.MayMove(fs.table, slot, StrNCpy(name), folder)
  {
    var e := fs.table[slot].(fname := StrNCpy(name), parentDirectory := folder);
    NoSuchEntry(fs.table, folder, name, Live, e);
    forall j | IsLiveSlot(fs.table, j)
      ensures !(fs.table[j].parentDirectory == folder && UpToNul(fs.table[j].fname) == UpToNul(StrNCpy(name)))
    {
      assert Passes(fs.table[j], Live) && !SameKey(fs.table[j], e);
    }
  }

  /** Moving an entry that nobody holds. */
  lemma MoveFrame(fs: Fs, i: int, fname: Fname, folder: u16, now: u32)
    requires Good(fs) && 0 <= i < |fs.table| && !fs.locks[i].Held()
    ensures var r := fs.(table := Tree.Moved(fs.table, i, fname, folder, now));
      SameFiles(fs, r) && SlotsSafe(r) && HeldKept(fs, r)
  {
    hide WellFormed, Forest;
  }

  lemma MovedKeeps(fs: Fs, slot: nat, name: seq<byte>, folder: u16, now: u32)
    requires Good(fs) && fs.IsLive(slot) && |fs.table| == |fs.locks| && !fs.locks[slot].Held() && IsFolder(fs.table, folder)
    requires NUL !in name && Names.Truncated(name) == name && First(fs.table, folder, name, Live) == |fs.table|
    requires !Tree.Inside(fs.table, folder, slot)
    ensures StepKeeps(fs, fs.(table := Tree.Moved(fs.table, slot, StrNCpy(name), folder, now)))
  {
    hide WellFormed, Fs.Blocks, SlotsSafe, HeldKept, AdminKept, SameFiles, Tree.Inside;
    MayMoveThere(fs, slot, folder, name);
    MoveFrame(fs, slot, StrNCpy(name), folder, now);
    hide Tree.MayMove, Forest, IsFolder, First, StrNCpy;
    Tree.MoveKeepsForest(fs.table, slot, StrNCpy(name), folder, now);
    TableChangeKeeps(fs, fs.(table := Tree.Moved(fs.table, slot, StrNCpy(name), folder, now)));
  }

  lemma RenamedKeeps(fs: Fs, path: seq<byte>, to: seq<byte>, now: u32)
    requires Good(fs) && IsPath(path) && IsPath(to) && FolderExists(fs, to)
    requires !Tree.Inside(fs.table, FolderOf(fs.table, to), IsParent(fs.table, path))
    ensures StepKeeps(fs, Renamed(fs, path, to, now).0)
  {
    var (r, err) := Renamed(fs, path, to, now);
    hide WellFormed, Fs.Blocks, SlotsSafe, StepKeeps, Forest, Tree.Inside, FolderOf, IsParent;
    SizesOfStore(fs);
    if err == 0 {
      PathParts(to);
      MovedKeeps(fs, IsParent(fs.table, path), NameOf(to), FolderOf(fs.table, to), now);
    } else {
      SameKeeps(fs);
    }
  }

  lemma DropFileShapeOnly(fs: Fs, i: int)
    requires WellFormed(fs) && fs.IsRegular(i)
    ensures DropFile(fs, i) == fs.(bits := DropFile(fs, i).bits, table := Tree.Without(fs.table, i))
  {
    hide Sized, AllLinked, Owned;
  }

  lemma DropFileAdmin(fs: Fs, i: int)
    requires WellFormed(fs) && fs.IsRegular(i)
    ensures AdminKept(fs, DropFile(fs, i))
  {
    assert Fat.Linked(fs.fat, fs.Blocks(i));
    hide AllLinked, Owned, Sized, Fs.Chains, Fs.Blocks, Fat.Chain, Cleared;
    assert forall k :: 0 <= k < |fs.Blocks(i)| ==> fs.Blocks(i)[k] < |fs.fat|;
    hide Fat.Linked;
    ClearedIsClearAll(fs.bits, fs.geo.DataOffset(), fs.geo.dataBlocks, fs.Blocks(i));
  }

  lemma DropFileFrame(fs: Fs, i: int)
    requires Good(fs) && fs.IsRegular(i) && !fs.locks[i].Held()
    ensures var r := DropFile(fs, i);
      && SlotsSafe(r) && AdminKept(fs, r) && HeldKept(fs, r)
      && r.table == Tree.Without(fs.table, i)
  {
    hide WellFormed, Forest, Fs.Blocks, Cleared;
    DropFileAdmin(fs, i);
    DropFileShapeOnly(fs, i);
  }

  lemma UnlinkedKeeps(fs: Fs, path: seq<byte>)
    requires Good(fs) && IsPath(path) && LeadsToFile(fs, path)
    ensures StepKeeps(fs, Unlinked(fs, path).0)
  {
    var (r, err) := Unlinked(fs, path);
    hide WellFormed, Fs.Blocks, SlotsSafe, HeldKept, AdminKept, DropFile;
    if err == 0 {
      var slot := IsParent(fs.table, path);
      DropFileFrame(fs, slot);
      DropFileKeeps(fs, slot);
      Tree.FileMayLeave(fs.table, slot);
      hide Tree.MayLeave, Forest;
      Tree.LeaveKeepsForest(fs.table, slot);
    } else {
      SameKeeps(fs);
    }
  }

  /** Sizes, dates and first blocks are nothing to the tree. */
  ghost predicate SameTree(t: Table, t': Table) {
    && |t| == |t'|
    && forall j :: 0 <= j < |t| ==>
         t'[j].state == t[j].state && t'[j].fname == t[j].fname && t'[j].parentDirectory == t[j].parentDirectory
  }

  lemma SameTreeKeepsForest(t: Table, t': Table)
    requires Forest(t) && SameTree(t, t')
    ensures Forest(t')
  {
    assert forall j :: IsLiveSlot(t', j) <==> IsLiveSlot(t, j);
    assert forall j :: IsDir(t', j) <==> IsDir(t, j);
    forall x | IsLiveSlot(t', x)
      ensures exists n: nat :: ReachesRoot(t', x, n)
    {
      var n: nat :| ReachesRoot(t, x, n);
      SameParents(t, t', x, n);
    }
  }

  lemma {:induction false} SameParents(t: Table, t': Table, x: int, n: nat)
    requires SameTree(t, t') && ReachesRoot(t, x, n)
    ensures ReachesRoot(t', x, n)
    decreases n
  {
    if t[x].parentDirectory != ROOT {
      SameParents(t, t', t[x].parentDirectory, n - 1);
    }
  }

  lemma SizeFrame(fs: Fs, r: Fs, i: int, size: u32)
    requires Good(fs) && OnlySizeOf(fs, r, i, size) && size < 0x8000_0000
    ensures SlotsSafe(r) && AdminKept(fs, r) && HeldKept(fs, r) && SameTree(fs.table, r.table)
  {
    hide WellFormed, Forest, Fs.Chains, Fs.Blocks;
  }

  lemma ResizedStep(fs: Fs, i: int, size: u32)
    requires Good(fs) && fs.IsRegular(i) && size < 0x8000_0000
    ensures StepKeeps(fs, Resized(fs, i, size).0)
  {
    ResizedAllOrNothing(fs, i, size);
    hide WellFormed, Fs.Blocks, Fs.FreeBlocks, Growth, Resized, OnlySizeOf;
    hide SlotsSafe, HeldKept, AdminKept, Forest, SameTree;
    var r := Resized(fs, i, size).0;
    if Growth(fs, i, size) > fs.FreeBlocks() {
      SameKeeps(fs);
    } else {
      SizeFrame(fs, r, i, size);
      SameTreeKeepsForest(fs.table, r.table);
    }
  }

  lemma CutKeeps(fs: Fs, path: seq<byte>, size: u32)
    requires Good(fs) && IsPath(path) && LeadsToFile(fs, path) && size < 0x8000_0000
    ensures StepKeeps(fs, Cut(fs, path, size).0)
  {
    hide WellFormed, Forest, SlotsSafe, StepKeeps, Resized;
    if Leads(fs, path) {
      ResizedStep(fs, IsParent(fs.table, path), size);
    } else {
      SameKeeps(fs);
    }
  }

  lemma StoredFrame(fs: Fs, g: Fs, i: int, off: nat, buf: seq<byte>)
    requires Room(g, i, off + |buf|) && StepKeeps(fs, g)
    ensures StepKeeps(fs, Stored(g, i, off, buf))
  {
    StoredIsWellFormed(g, i, off, buf);
    StoredUnfold(g, i, off, buf);
    hide WellFormed, Forest, Fs.Chains, Fs.Blocks, Contents.Poke, Room;
  }

  lemma SizeFits(fs: Fs, i: int, end: nat)
    requires Good(fs) && fs.IsRegular(i) && end < 0x8000_0000
    ensures fs.table[i].fileSize < 0x8000_0000 && SizeFor(fs, i, end) < 0x8000_0000
  {
    hide WellFormed, Forest;
  }

  lemma WroteKeeps(fs: Fs, path: seq<byte>, off: u32, buf: seq<byte>)
    requires Good(fs) && IsPath(path) && LeadsToFile(fs, path) && off + |buf| < 0x8000_0000
    ensures StepKeeps(fs, Wrote(fs, path, off, buf).0)
  {
    hide WellFormed, Forest, SlotsSafe, StepKeeps, Resized, Written, SizeFor, Room, Stored;
    if Leads(fs, path) {
      var i := IsParent(fs.table, path);
      SizeFits(fs, i, off + |buf|);
      ResizedStep(fs, i, SizeFor(fs, i, off + |buf|));
      WrittenUnfold(fs, i, off, buf);
      var (g, e) := Resized(fs, i, SizeFor(fs, i, off + |buf|));
      if e == 0 {
        StoredFrame(fs, g, i, off, buf);
      }
    } else {
      SameKeeps(fs);
    }
  }

  /** Taking or giving back a lock of a regular file. */
  lemma LockFrame(fs: Fs, i: nat, lock: RwLock)
    requires Good(fs) && fs.IsRegular(i) && i < |fs.locks| && (lock.writer ==> lock.readers == 0)
    ensures StepKeeps(fs, WithLock(fs, i, lock))
  {
    var r := WithLock(fs, i, lock);
    LockOnly(fs, i, lock);
    hide WellFormed, Forest, SameFiles, SlotsSafe, HeldKept, StepKeeps;
    TableChangeKeeps(fs, r);
  }

  lemma LockOnly(fs: Fs, i: nat, lock: RwLock)
    requires Good(fs) && fs.IsRegular(i) && i < |fs.locks| && (lock.writer ==> lock.readers == 0)
    ensures var r := WithLock(fs, i, lock); SameFiles(fs, r) && r.table == fs.table && SlotsSafe(r) && HeldKept(fs, r)
  {
    hide WellFormed, Forest;
  }

  lemma StepKeepsTrans(fs: Fs, g: Fs, r: Fs)
    requires StepKeeps(fs, g) && StepKeeps(g, r) && |g.table| == |fs.table| && |g.locks| == |fs.locks|
    requires forall i :: 0 <= i < |fs.locks| && fs.locks[i].Held() ==> g.locks[i].Held()
    ensures StepKeeps(fs, r)
  {
    hide Good;
  }

  /** An open for reading takes a read lock, if it succeeds. */
  lemma OpenedToRead(fs: Fs, path: seq<byte>)
    requires Good(fs) && IsPath(path) && LeadsToFile(fs, path)
    ensures StepKeeps(fs, Opened(fs, path, 0).0)
  {
    hide WellFormed, Forest, SlotsSafe, StepKeeps, FileSlot;
    var slot := FileSlot(fs.table, path);
    SizesOfStore(fs);
    if slot < MAX_FILES && !fs.locks[slot].writer {
      LockFrame(fs, slot, RwLock(fs.locks[slot].readers + 1, false));
    } else {
      SameKeeps(fs);
    }
  }

  lemma SizesOfStore(fs: Fs)
    requires WellFormed(fs)
    ensures fs.Shape() && |fs.table| == |fs.locks| == MAX_FILES
  {
  }

  /** Any other open takes the write lock, if it succeeds, and may cut the file to nothing. */
  lemma OpenedToWrite(fs: Fs, path: seq<byte>, flags: int)
    requires Good(fs) && IsPath(path) && LeadsToFile(fs, path) && flags != 0
    ensures StepKeeps(fs, Opened(fs, path, flags).0)
  {
    hide WellFormed, Forest, StepKeeps, FileSlot, Cut, SameFiles, SlotsSafe;
    var slot := FileSlot(fs.table, path);
    SizesOfStore(fs);
    if slot < MAX_FILES && !fs.locks[slot].Held() {
      var g := WithLock(fs, slot, RwLock(0, true));
      WithLockKeeps(fs, slot, RwLock(0, true));
      LockFrame(fs, slot, RwLock(0, true));
      if flags == 2 {
        StepKeepsGood(fs, g);
        CutKeeps(g, path, 0);
        StepKeepsTrans(fs, g, Cut(g, path, 0).0);
      }
    } else {
      SameKeeps(fs);
    }
  }

  lemma StepKeepsGood(fs: Fs, r: Fs)
    requires StepKeeps(fs, r)
    ensures Good(r)
  {
    hide Good;
  }

  lemma ReleasedKeeps(fs: Fs, path: seq<byte>)
    requires Good(fs) && IsPath(path) && |fs.locks| == MAX_FILES
    requires FileSlot(fs.table, path) < MAX_FILES ==> fs.locks[FileSlot(fs.table, path)].Held()
    ensures StepKeeps(fs, Released(fs, path).0)
  {
    hide WellFormed, Forest, SlotsSafe, StepKeeps, FileSlot;
    var slot := FileSlot(fs.table, path);
    SizesOfStore(fs);
    if slot == MAX_FILES {
      SameKeeps(fs);
    } else {
      LockFrame(fs, slot, Unlocked(fs.locks[slot]));
    }
  }

  lemma DateFrame(fs: Fs, i: int, lastmod: u32)
    requires Good(fs) && 0 <= i < |fs.table|
    ensures var r := fs.(table := fs.table[i := fs.table[i].(lastmod := lastmod)]);
      SameFiles(fs, r) && SlotsSafe(r) && HeldKept(fs, r) && SameTree(fs.table, r.table)
  {
    hide WellFormed, Forest;
  }

  lemma DatedKeeps(fs: Fs, path: seq<byte>, lastmod: u32)
    requires Good(fs) && IsPath(path)
    ensures StepKeeps(fs, Dated(fs, path, lastmod).0)
  {
    hide WellFormed, Forest, StepKeeps, SameFiles, SlotsSafe, HeldKept, SameTree;
    var slot := IsParent(fs.table, path);
    if Leads(fs, path) {
      DateFrame(fs, slot, lastmod);
      SameTreeKeepsForest(fs.table, Dated(fs, path, lastmod).0.table);
      TableChangeKeeps(fs, Dated(fs, path, lastmod).0);
    } else {
      SameKeeps(fs);
    }
  }

  // The locks, one request at a time.

  /** What an open makes of the lock of the slot it names. */
  ghost function LockAfterOpen(lock: RwLock, flags: int): RwLock {
    if flags == 0 then if lock.writer then lock else RwLock(lock.readers + 1, false)
    else if lock.Held() then lock else RwLock(0, true)
  }

  /** Only open and release touch a lock, and only that of the slot they name. */
  ghost predicate LocksOf(fs: Fs, req: Request, locks: seq<RwLock>)
    requires IsPath(req.path) && |fs.locks| == MAX_FILES
  {
    var slot := FileSlot(fs.table, req.path);
    match req
    case Open(path, flags) =>
      locks == if slot < MAX_FILES then fs.locks[slot := LockAfterOpen(fs.locks[slot], flags)] else fs.locks
    case Release(path) =>
      if slot < MAX_FILES then fs.locks[slot].Held() && locks == fs.locks[slot := Unlocked(fs.locks[slot])] else locks == fs.locks
    case _ => locks == fs.locks
  }

  lemma CutKeepsLocks(fs: Fs, path: seq<byte>, size: u32)
    requires WellFormed(fs) && IsPath(path) && LeadsToFile(fs, path)
    ensures Cut(fs, path, size).0.locks == fs.locks
  {
    hide WellFormed, Resized, IsParent, Growth, Fs.FreeBlocks, Fs.Chains, Fs.Blocks;
    if Leads(fs, path) {
      ResizedAllOrNothing(fs, IsParent(fs.table, path), size);
    }
  }

  lemma WriteKeepsLocks(fs: Fs, path: seq<byte>, off: u32, buf: seq<byte>)
    requires WellFormed(fs) && IsPath(path) && LeadsToFile(fs, path) && off + |buf| < 0x8000_0000
    ensures Wrote(fs, path, off, buf).0.locks == fs.locks
  {
    hide WellFormed, Cut, IsParent, Stored, Room, Written;
    WroteUnfold(fs, path, off, buf);
    CutKeepsLocks(fs, path, off + |buf|);
    if Leads(fs, path) {
      var slot := IsParent(fs.table, path);
      var (g, e) := if fs.table[slot].fileSize < off + |buf| then Cut(fs, path, off + |buf|) else (fs, 0);
      if e == 0 {
        StoredOnlyData(g, slot, off, buf);
      }
    }
  }

  lemma OpenOnLocks(fs: Fs, path: seq<byte>, flags: int)
    requires Good(fs) && IsPath(path) && LeadsToFile(fs, path)
    ensures |fs.locks| == MAX_FILES && LocksOf(fs, Open(path, flags), Opened(fs, path, flags).0.locks)
  {
    hide WellFormed, Forest, SlotsSafe, FileSlot, Cut, SameFiles, IsParent;
    SizesOfStore(fs);
    var slot := FileSlot(fs.table, path);
    if slot < MAX_FILES && flags == 2 && !fs.locks[slot].Held() {
      WithLockKeeps(fs, slot, RwLock(0, true));
      CutKeepsLocks(WithLock(fs, slot, RwLock(0, true)), path, 0);
    } else {
      assert slot < MAX_FILES ==> fs.locks[slot := fs.locks[slot]] == fs.locks;
    }
  }

  lemma CreateKeepsLocks(fs: Fs, path: seq<byte>, now: u32)
    requires WellFormed(fs) && IsPath(path)
    ensures Created(fs, path, now).0.locks == fs.locks
  {
    hide Sound, Sized, NewFile, Fs.FreeBlocks, FolderOf, First, FreeSlot;
    SizesOfStore(fs);
    if Created(fs, path, now).1 == 0 {
      LocksOfNew(fs, FreeSlot(fs.table), StrNCpy(NameOf(path)), FolderOf(fs.table, path), now);
    } else {
      CreateFails(fs, path, now);
    }
  }

  lemma UnlinkKeepsLocks(fs: Fs, path: seq<byte>)
    requires WellFormed(fs) && IsPath(path) && LeadsToFile(fs, path)
    ensures Unlinked(fs, path).0.locks == fs.locks
  {
    hide Sound, Sized, DropFile, IsParent;
    if Unlinked(fs, path).1 == 0 {
      DropFileKeepsLocks(fs, IsParent(fs.table, path));
    }
  }

  /** Names and dates have nothing to do with locks. */
  lemma TableKeepsLocks(fs: Fs, path: seq<byte>, to: seq<byte>, now: u32)
    requires WellFormed(fs) && IsPath(path)
    ensures MadeDir(fs, path, now).0.locks == fs.locks && RemovedDir(fs, path).0.locks == fs.locks
    ensures Dated(fs, path, now).0.locks == fs.locks
    ensures IsPath(to) ==> Renamed(fs, path, to, now).0.locks == fs.locks
  {
    hide WellFormed, IsParent, FolderOf, First, FreeSlot, NameOf, HasLiveChild;
  }

  lemma ReleaseOnLocks(fs: Fs, path: seq<byte>)
    requires WellFormed(fs) && IsPath(path) && |fs.locks| == MAX_FILES
    requires FileSlot(fs.table, path) < MAX_FILES ==> fs.locks[FileSlot(fs.table, path)].Held()
    ensures LocksOf(fs, Release(path), Released(fs, path).0.locks)
  {
    hide WellFormed, FileSlot;
    SizesOfStore(fs);
  }

  /** What each request does to the locks. */
  lemma EveryStepOnLocks(fs: Fs, req: Request)
    requires Good(fs) && Admissible(fs, req)
    ensures |fs.locks| == MAX_FILES && LocksOf(fs, req, Step(fs, req).0.locks)
  {
    SizesOfStore(fs);
    hide WellFormed, Forest, SlotsSafe, FileSlot, IsParent, FolderOf, First, FreeSlot;
    hide Created, Unlinked, Wrote, Opened, Cut, MadeDir, RemovedDir, Renamed, Released, Dated;
    match req
    case Mkdir(path, now) => TableKeepsLocks(fs, path, path, now);
    case Rmdir(path) => TableKeepsLocks(fs, path, path, 0);
    case Rename(path, to, now) => TableKeepsLocks(fs, path, to, now);
    case Utimens(path, lastmod) => TableKeepsLocks(fs, path, path, lastmod);
    case Release(path) => ReleaseOnLocks(fs, path);
    case Create(path, now) => CreateKeepsLocks(fs, path, now);
    case Unlink(path) => UnlinkKeepsLocks(fs, path);
    case Ftruncate(path, size) => CutKeepsLocks(fs, path, size);
    case Write(path, offset, buf) => WriteKeepsLocks(fs, path, offset, buf);
    case Open(path, flags) => OpenOnLocks(fs, path, flags);
  }

  lemma LocksOfNew(fs: Fs, i: nat, fname: Fname, parent: u16, now: u32)
    requires Sound(fs) && i < MAX_FILES && fs.FreeBlocks() > 0
    ensures NewFile(fs, i, fname, parent, now).locks == fs.locks && |NewFile(fs, i, fname, parent, now).table| == |fs.table|
  {
  }

  lemma DropFileKeepsLocks(fs: Fs, i: int)
    requires Sound(fs) && fs.IsRegular(i)
    ensures DropFile(fs, i).locks == fs.locks
  {
  }

  /** Whoever holds a slot goes on holding it, unless the request releases that very slot. */
  ghost predicate HoldersStay(fs: Fs, req: Request, r: Fs)
    requires IsPath(req.path)
  {
    && |r.locks| == |fs.locks|
    && forall i :: 0 <= i < |fs.locks| && fs.locks[i].Held() && !(req.Release? && FileSlot(fs.table, req.path) == i) ==>
         r.locks[i].Held()
  }

  lemma HoldersStayAfter(fs: Fs, req: Request)
    requires Good(fs) && Admissible(fs, req)
    ensures HoldersStay(fs, req, Step(fs, req).0)
  {
    hide WellFormed, Forest, SlotsSafe, Admissible, Step, FileSlot;
    EveryStepOnLocks(fs, req);
  }

  /** Every request keeps the store well formed, the tree a forest, the locks safe and held files in place. */
  lemma EveryStepKeeps(fs: Fs, req: Request)
    requires Good(fs) && Admissible(fs, req)
    ensures StepKeeps(fs, Step(fs, req).0)
    ensures Good(Step(fs, req).0) && HoldersStay(fs, req, Step(fs, req).0)
  {
    HoldersStayAfter(fs, req);
    hide HoldersStay;
    hide WellFormed, Forest, StepKeeps, SlotsSafe, Created, MadeDir, RemovedDir, Renamed;
    hide Unlinked, Cut, Wrote, Opened, Released, Dated;
    match req {
    case Create(path, now) => CreatedKeeps(fs, path, now);
    case Mkdir(path, now) => MadeDirKeeps(fs, path, now);
    case Rmdir(path) => RemovedDirKeeps(fs, path);
    case Rename(path, to, now) => RenamedKeeps(fs, path, to, now);
    case Unlink(path) => UnlinkedKeeps(fs, path);
    case Ftruncate(path, size) => CutKeeps(fs, path, size);
    case Write(path, offset, buf) => WroteKeeps(fs, path, offset, buf);
    case Open(path, flags) =>
      if flags == 0 {
        OpenedToRead(fs, path);
      } else {
        OpenedToWrite(fs, path, flags);
      }
    case Release(path) =>
      SizesOfStore(fs);
      ReleasedKeeps(fs, path);
    case Utimens(path, lastmod) => DatedKeeps(fs, path, lastmod);
    }
    StepKeepsGood(fs, Step(fs, req).0);
  }

  /** Each request of the run is admissible in the state the earlier ones leave. */
  ghost predicate AdmissibleRun(fs: Fs, reqs: seq<Request>)
    requires Good(fs)
    decreases |reqs|
  {
    |reqs| > 0 ==>
      && Admissible(fs, reqs[0])
      && (EveryStepKeeps(fs, reqs[0]); AdmissibleRun(Step(fs, reqs[0]).0, reqs[1..]))
  }

  ghost function Run(fs: Fs, reqs: seq<Request>): Fs
    requires Good(fs) && AdmissibleRun(fs, reqs)
    decreases |reqs|
  {
    if |reqs| == 0 then fs
    else
      EveryStepKeeps(fs, reqs[0]);
      Run(Step(fs, reqs[0]).0, reqs[1..])
  }

  /** The return codes of a run. */
  ghost function Answers(fs: Fs, reqs: seq<Request>): seq<int>
    requires Good(fs) && AdmissibleRun(fs, reqs)
    decreases |reqs|
  {
    if |reqs| == 0 then []
    else
      EveryStepKeeps(fs, reqs[0]);
      [Step(fs, reqs[0]).1] + Answers(Step(fs, reqs[0]).0, reqs[1..])
  }

  /**
   After every run of requests each live regular file has an acyclic, complete chain of exactly the
   blocks its size asks for, no block is in two chains, a data bit is set exactly for the blocks
   in use, free and used blocks add up, and the administrative bits are what they were.
   */
  lemma {:induction false} EveryRunKeeps(fs: Fs, reqs: seq<Request>)
    requires Good(fs) && AdmissibleRun(fs, reqs)
    ensures var r := Run(fs, reqs);
      && Good(r)
      && AdminKept(fs, r)
      && r.FreeBlocks() + Total(r.Chains()) == r.geo.dataBlocks
    decreases |reqs|
  {
    RunUnfold(fs, reqs);
    hide *;
    if |reqs| == 0 {
      GoodIsConserved(fs);
    } else {
      EveryStepKeeps(fs, reqs[0]);
      var g := Step(fs, reqs[0]).0;
      StepAdminKept(fs, g);
      EveryRunKeeps(g, reqs[1..]);
      AdminKeptTrans(fs, g, Run(g, reqs[1..]));
    }
  }

  lemma RunUnfold(fs: Fs, reqs: seq<Request>)
    requires Good(fs) && AdmissibleRun(fs, reqs)
    ensures |reqs| == 0 ==> Run(fs, reqs) == fs && Answers(fs, reqs) == []
    ensures |reqs| > 0 ==>
      && Admissible(fs, reqs[0])
      && Good(Step(fs, reqs[0]).0)
      && AdmissibleRun(Step(fs, reqs[0]).0, reqs[1..])
      && Run(fs, reqs) == Run(Step(fs, reqs[0]).0, reqs[1..])
      && Answers(fs, reqs) == [Step(fs, reqs[0]).1] + Answers(Step(fs, reqs[0]).0, reqs[1..])
  {
    hide Good, Admissible, Step;
    if |reqs| > 0 {
      EveryStepKeeps(fs, reqs[0]);
    }
  }

  lemma GoodIsConserved(fs: Fs)
    requires Good(fs)
    ensures AdminKept(fs, fs) && fs.FreeBlocks() + Total(fs.Chains()) == fs.geo.dataBlocks
  {
    BlockConservation(fs);
  }

  lemma StepAdminKept(fs: Fs, r: Fs)
    requires StepKeeps(fs, r)
    ensures AdminKept(fs, r)
  {
    hide Good, HeldKept, AdminKept;
  }

  lemma AdminKeptTrans(fs: Fs, g: Fs, r: Fs)
    requires AdminKept(fs, g) && AdminKept(g, r)
    ensures AdminKept(fs, r)
  {
  }
}

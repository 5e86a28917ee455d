/** The requests a client may send, and what each does to the store when it runs alone. */
module Requests {
  import opened Words
  import opened Osada
  import opened Names
  import opened Namespace
  import opened Store
  import opened Truncate
  import opened Files
  import opened Slots
  import Tree
  import Fat
  import Ownership

  datatype Request =
    | Create(path: seq<byte>, now: u32)
    | Mkdir(path: seq<byte>, now: u32)
    | Rmdir(path: seq<byte>)
    | Rename(path: seq<byte>, to: seq<byte>, now: u32)
    | Unlink(path: seq<byte>)
    | Ftruncate(path: seq<byte>, size: u32)
    | Write(path: seq<byte>, offset: u32, buf: seq<byte>)
    | Open(path: seq<byte>, flags: int)
    | Release(path: seq<byte>)
    | Utimens(path: seq<byte>, lastmod: u32)

  /** The slot of the directory a path lies in: the root, or what is_parent finds. */
  function FolderOf(t: seq<OsadaFile>, path: seq<byte>): (i: nat)
    requires IsPath(path)
    ensures i == ROOT || i <= |t|
  {
    PathParts(path);
    if DirName(path) == [] then ROOT else IsParent(t, DirName(path))
  }

  function NameOf(path: seq<byte>): seq<byte>
    requires IsPath(path)
  {
    PathParts(path);
    BaseName(path)
  }

  /** The lowest deleted slot, or |t|. */
  function FreeSlotFrom(t: seq<OsadaFile>, k: nat): (i: nat)
    requires k <= |t|
    ensures k <= i <= |t|
    ensures i < |t| ==> t[i].state.Deleted?
    ensures forall j :: k <= j < i ==> !t[j].state.Deleted?
    decreases |t| - k
  {
    if k == |t| || t[k].state.Deleted? then k else FreeSlotFrom(t, k + 1)
  }

  function FreeSlot(t: seq<OsadaFile>): (i: nat)
    ensures i <= |t|
    ensures i < |t| ==> t[i].state.Deleted?
    ensures forall j :: 0 <= j < i ==> !t[j].state.Deleted?
  {
    FreeSlotFrom(t, 0)
  }

  /** Does is_parent lead this path to a live entry? */
  ghost predicate Leads(fs: Fs, path: seq<byte>)
    requires IsPath(path)
  {
    fs.IsLive(IsParent(fs.table, path))
  }

  ghost predicate HasLiveChild(t: seq<OsadaFile>, i: int) {
    exists j :: IsLiveSlot(t, j) && t[j].parentDirectory == i
  }

  ghost function Created(fs: Fs, path: seq<byte>, now: u32): (Fs, int)
    requires WellFormed(fs) && IsPath(path)
  {
    var name, folder, slot := NameOf(path), FolderOf(fs.table, path), FreeSlot(fs.table);
    if |name| > FILENAME_LENGTH then (fs, -ENAMETOOLONG)
    else if folder == MAX_FILES then (fs, -ENOENT)
    else if slot == MAX_FILES then (fs, -ENOSPC)
    else if First(fs.table, folder, name, Only(Regular)) < MAX_FILES then (fs, -EEXIST)
    else if fs.FreeBlocks() == 0 then (fs, -ENOSPC)
    else (NewFile(fs, slot, StrNCpy(name), folder, now), 0)
  }

  ghost function MadeDir(fs: Fs, path: seq<byte>, now: u32): (Fs, int)
    requires WellFormed(fs) && IsPath(path)
  {
    var name, folder, slot := NameOf(path), FolderOf(fs.table, path), FreeSlot(fs.table);
    if |name| > FILENAME_LENGTH then (fs, -ENAMETOOLONG)
    else if folder == MAX_FILES then (fs, -ENOENT)
    else if slot == MAX_FILES then (fs, -ENOSPC)
    else if First(fs.table, folder, name, Only(Directory)) < MAX_FILES then (fs, -EEXIST)
    else (fs.(table := fs.table[slot := OsadaFile(Directory, StrNCpy(name), folder, 0, now, Fat.END)]), 0)
  }

  ghost function RemovedDir(fs: Fs, path: seq<byte>): (Fs, int)
    requires WellFormed(fs) && IsPath(path)
  {
    var folder := FolderOf(fs.table, path);
    var slot := First(fs.table, folder, NameOf(path), Only(Directory));
    if folder == MAX_FILES || slot == MAX_FILES then (fs, -ENOENT)
    else if HasLiveChild(fs.table, slot) then (fs, -ENOTEMPTY)
    else (fs.(table := Tree.Without(fs.table, slot)), 0)
  }

  ghost function Renamed(fs: Fs, path: seq<byte>, to: seq<byte>, now: u32): (Fs, int)
    requires WellFormed(fs) && IsPath(path) && IsPath(to)
  {
    var slot, folder, name := IsParent(fs.table, path), FolderOf(fs.table, to), NameOf(to);
    if |name| > FILENAME_LENGTH then (fs, -ENAMETOOLONG)
    else if !fs.IsLive(slot) then (fs, -ENOENT)
    else if folder != ROOT && !fs.IsLive(folder) then (fs, -ENOENT)
    else if First(fs.table, folder, name, Live) < MAX_FILES then (fs, -EEXIST)
    else if fs.locks[slot].Held() then (fs, -EBUSY)
    else (fs.(table := Tree.Moved(fs.table, slot, StrNCpy(name), folder, now)), 0)
  }

  ghost function Unlinked(fs: Fs, path: seq<byte>): (Fs, int)
    requires WellFormed(fs) && IsPath(path) && (Leads(fs, path) ==> fs.IsRegular(IsParent(fs.table, path)))
  {
    var slot := IsParent(fs.table, path);
    if !fs.IsLive(slot) then (fs, -ENOENT)
    else if fs.locks[slot].Held() then (fs, -EBUSY)
    else (DropFile(fs, slot), 0)
  }

  ghost function Cut(fs: Fs, path: seq<byte>, size: u32): (Fs, int)
    requires WellFormed(fs) && IsPath(path) && (Leads(fs, path) ==> fs.IsRegular(IsParent(fs.table, path)))
  {
    var slot := IsParent(fs.table, path);
    if !fs.IsLive(slot) then (fs, -ENOENT) else Resized(fs, slot, size)
  }

  ghost function Wrote(fs: Fs, path: seq<byte>, off: u32, buf: seq<byte>): (Fs, int)
    requires WellFormed(fs) && IsPath(path) && (Leads(fs, path) ==> fs.IsRegular(IsParent(fs.table, path)))
    requires off + |buf| < 0x8000_0000
  {
    var slot := IsParent(fs.table, path);
    if !fs.IsLive(slot) then (fs, -ENOENT) else Written(fs, slot, off, buf)
  }

  /** The regular file a path names, for open and release; |t| if there is none. */
  function FileSlot(t: seq<OsadaFile>, path: seq<byte>): (i: nat)
    requires IsPath(path)
    ensures i <= |t|
    ensures i < |t| ==> t[i].state.Regular?
  {
    var folder := FolderOf(t, path);
    if folder == MAX_FILES then |t| else First(t, folder, NameOf(path), Only(Regular))
  }

  /** It is the lowest regular slot with the path's folder and last component. */
  lemma FileSlotIsLowest(t: seq<OsadaFile>, path: seq<byte>)
    requires IsPath(path) && |t| == MAX_FILES
    ensures var i, folder := FileSlot(t, path), FolderOf(t, path);
      && (i < |t| ==> folder != MAX_FILES && Matches(t[i], folder, NameOf(path), Only(Regular)))
      && (folder != MAX_FILES ==> forall j :: 0 <= j < i ==> !Matches(t[j], folder, NameOf(path), Only(Regular)))
  {
    hide FolderOf, NameOf, Matches;
  }

  ghost function WithLock(fs: Fs, i: nat, lock: RwLock): Fs
    requires i < |fs.locks|
  {
    fs.(locks := fs.locks[i := lock])
  }

  lemma WithLockKeeps(fs: Fs, i: nat, lock: RwLock)
    requires WellFormed(fs) && i < |fs.locks|
    ensures var g := WithLock(fs, i, lock);
      WellFormed(g) && SameFiles(fs, g) && g.table == fs.table && |g.locks| == |fs.locks| == MAX_FILES
    ensures forall j :: WithLock(fs, i, lock).IsRegular(j) <==> fs.IsRegular(j)
  {
    SameFilesKeep(fs, WithLock(fs, i, lock));
    hide Sized, AllLinked, Ownership.Owned;
  }

  ghost function Opened(fs: Fs, path: seq<byte>, flags: int): (Fs, int)
    requires WellFormed(fs) && IsPath(path) && (Leads(fs, path) ==> fs.IsRegular(IsParent(fs.table, path)))
  {
    var slot := FileSlot(fs.table, path);
    if slot == MAX_FILES then (fs, -ENOENT)
    else if flags == 0 then
      var lock := fs.locks[slot];
      if lock.writer then (fs, -EBUSY) else (WithLock(fs, slot, RwLock(lock.readers + 1, false)), 0)
    else if fs.locks[slot].Held() then (fs, -EBUSY)
    else
      WithLockKeeps(fs, slot, RwLock(0, true));
      var g := WithLock(fs, slot, RwLock(0, true));
      if flags == 2 then Cut(g, path, 0) else (g, 0)
  }

  /** pthread_rwlock_unlock by one of the holders. */
  function Unlocked(lock: RwLock): RwLock
    requires lock.Held()
  {
    if lock.writer then RwLock(lock.readers, false) else RwLock(lock.readers - 1, false)
  }

  ghost function Released(fs: Fs, path: seq<byte>): (Fs, int)
    requires WellFormed(fs) && IsPath(path)
    requires FileSlot(fs.table, path) < MAX_FILES ==> fs.locks[FileSlot(fs.table, path)].Held()
  {
    var slot := FileSlot(fs.table, path);
    if slot == MAX_FILES then (fs, -ENOENT) else (WithLock(fs, slot, Unlocked(fs.locks[slot])), 0)
  }

  ghost function Dated(fs: Fs, path: seq<byte>, lastmod: u32): (Fs, int)
    requires WellFormed(fs) && IsPath(path)
  {
    var slot := IsParent(fs.table, path);
    if !fs.IsLive(slot) then (fs, -ENOENT)
    else (fs.(table := fs.table[slot := fs.table[slot].(lastmod := lastmod)]), 0)
  }

  /**
   What the kernel's file system layer sees to before the server is asked: paths are absolute, only
   regular files are opened, written, cut or unlinked, entries are made in and moved to directories
   and never moved into themselves, the root is neither renamed nor unlinked, sizes fit an int, and
   whoever releases a file holds it.
   */
  ghost predicate Admissible(fs: Fs, req: Request)
    requires fs.Shape()
  {
    && IsPath(req.path)
    && match req
       case Create(path, _) => FolderExists(fs, path)
       case Mkdir(path, _) => FolderExists(fs, path)
       case Rmdir(_) => true
       case Rename(path, to, _) =>
         && path != [SLASH] && IsPath(to) && FolderExists(fs, to)
         && !Tree.Inside(fs.table, FolderOf(fs.table, to), IsParent(fs.table, path))
       case Unlink(path) => path != [SLASH] && LeadsToFile(fs, path)
       case Ftruncate(path, size) => LeadsToFile(fs, path) && size < 0x8000_0000
       case Write(path, offset, buf) => LeadsToFile(fs, path) && offset + |buf| < 0x8000_0000
       case Open(path, _) => LeadsToFile(fs, path) && NameOf(path) != []
       case Release(path) =>
         NameOf(path) != [] &&
         (FileSlot(fs.table, path) < MAX_FILES ==> fs.locks[FileSlot(fs.table, path)].Held())
       case Utimens(_, _) => true
  }

  ghost predicate FolderExists(fs: Fs, path: seq<byte>)
    requires IsPath(path)
  {
    FolderOf(fs.table, path) < MAX_FILES ==> IsDir(fs.table, FolderOf(fs.table, path))
  }

  ghost predicate LeadsToFile(fs: Fs, path: seq<byte>)
    requires IsPath(path)
  {
    Leads(fs, path) ==> fs.IsRegular(IsParent(fs.table, path))
  }

  ghost function Step(fs: Fs, req: Request): (Fs, int)
    requires WellFormed(fs) && Admissible(fs, req)
  {
    hide WellFormed, IsPath, FolderExists, LeadsToFile;
    match req
    case Create(path, now) => Created(fs, path, now)
    case Mkdir(path, now) => MadeDir(fs, path, now)
    case Rmdir(path) => RemovedDir(fs, path)
    case Rename(path, to, now) => Renamed(fs, path, to, now)
    case Unlink(path) => Unlinked(fs, path)
    case Ftruncate(path, size) => Cut(fs, path, size)
    case Write(path, offset, buf) => Wrote(fs, path, offset, buf)
    case Open(path, flags) => Opened(fs, path, flags)
    case Release(path) => Released(fs, path)
    case Utimens(path, lastmod) => Dated(fs, path, lastmod)
  }

  /** A write, case by case as osada_write goes. */
  lemma WroteUnfold(fs: Fs, path: seq<byte>, off: u32, buf: seq<byte>)
    requires WellFormed(fs) && IsPath(path) && LeadsToFile(fs, path) && off + |buf| < 0x8000_0000
    ensures !Leads(fs, path) ==> Wrote(fs, path, off, buf) == (fs, -ENOENT)
    ensures Leads(fs, path) ==>
      var slot := IsParent(fs.table, path);
      && fs.IsRegular(slot)
      && var (g, e) := if fs.table[slot].fileSize < off + |buf| then Cut(fs, path, off + |buf|) else (fs, 0);
      if e != 0 then Wrote(fs, path, off, buf) == (g, e)
      else Room(g, slot, off + |buf|) && Wrote(fs, path, off, buf) == (Stored(g, slot, off, buf), |buf|)
  {
    if Leads(fs, path) {
      var slot := IsParent(fs.table, path);
      WrittenUnfold(fs, slot, off, buf);
      ResizedUnfold(fs, slot, SizeFor(fs, slot, off + |buf|));
      hide WellFormed, Resized, Stored, Room, Written, Reblocked, SetSize, Growth;
    }
  }
}

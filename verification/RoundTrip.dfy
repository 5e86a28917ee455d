/** What is made can be looked up and taken away again. */
module RoundTrip {
  import opened Words
  import opened Osada
  import opened Names
  import opened Namespace
  import opened Tree
  import opened Truncate
  import opened Files
  import opened Slots
  import opened Requests
  import opened Invariant
  import opened Isolation
  import Lookup
  import opened Store

  lemma {:induction false} AboveIsNearer(t: Table, x: int, a: int, m: nat, n: nat)
    requires ReachesRoot(t, x, n) && MeetsAbove(t, x, a, m) && |t| <= ROOT
    ensures ReachesRoot(t, a, n)
    decreases m
  {
    if x != a {
      AboveIsNearer(t, t[x].parentDirectory, a, m - 1, n - 1);
      ReachesRootLonger(t, a, n - 1, n);
    }
  }

  /** Nothing that reaches the root lies above its own folder. */
  lemma {:induction false} NotInItsFolder(t: Table, f: int, n: nat)
    requires ReachesRoot(t, f, n) && t[f].parentDirectory != ROOT && |t| <= ROOT
    ensures !Inside(t, t[f].parentDirectory, f)
    decreases n
  {
    var p := t[f].parentDirectory;
    if Inside(t, p, f) {
      var m: nat :| MeetsAbove(t, p, f, m);
      AboveIsNearer(t, p, f, m, n - 1);
      NotInItsFolder(t, f, n - 1);
    }
  }

  lemma {:induction false} InsideOneMore(t: Table, d: int, f: int, m: nat)
    requires MeetsAbove(t, d, f, m) && 0 <= f < |t| && t[f].parentDirectory != ROOT && 0 <= t[f].parentDirectory < |t|
    ensures MeetsAbove(t, d, t[f].parentDirectory, m + 1)
    decreases m
  {
    if d == f {
      assert MeetsAbove(t, t[f].parentDirectory, t[f].parentDirectory, m);
    } else {
      InsideOneMore(t, t[d].parentDirectory, f, m - 1);
    }
  }

  /** The same search, one entry changed that it would neither have found nor finds now. */
  lemma SameFirstBut(t: Table, slot: nat, e: OsadaFile, dir: int, name: seq<byte>)
    requires slot < |t| && First(t, dir, name, Any) != slot && e.parentDirectory != dir
    ensures First(t[slot := e], dir, name, Any) == First(t, dir, name, Any) || First(t, dir, name, Any) == |t|
  {
    var f := First(t, dir, name, Any);
    var t' := t[slot := e];
    assert forall j :: 0 <= j < f ==> !Matches(t'[j], dir, name, Any);
    if f < |t| {
      assert Matches(t'[f], dir, name, Any);
    }
  }

  /** An entry that changes, not above the folder it is put into, does not get into the way of a path to that folder. */
  lemma {:induction false} PathStays(t: Table, slot: nat, e: OsadaFile, path: seq<byte>)
    requires Forest(t) && slot < |t| && !Inside(t, e.parentDirectory, slot) && IsPath(path)
    requires IsLiveSlot(t, IsParent(t, path)) && Inside(t, e.parentDirectory, IsParent(t, path))
    ensures IsParent(t[slot := e], path) == IsParent(t, path)
    decreases |path|
  {
    hide First, DirName, BaseName;
    PathParts(path);
    var f, d := IsParent(t, path), e.parentDirectory;
    var m: nat :| MeetsAbove(t, d, f, m);
    if DirName(path) == [] {
      SameFirstBut(t, slot, e, ROOT, BaseName(path));
    } else {
      var p := IsParent(t, DirName(path));
      assert t[f].parentDirectory == p;
      var n: nat :| ReachesRoot(t, f, n);
      NotInItsFolder(t, f, n);
      InsideOneMore(t, d, f, m);
      PathStays(t, slot, e, DirName(path));
      SameFirstBut(t, slot, e, p, BaseName(path));
    }
  }

  /** Whatever lies above something live is live. */
  lemma {:induction false} LiveAbove(t: Table, x: int, a: int, m: nat)
    requires Forest(t) && IsLiveSlot(t, x) && MeetsAbove(t, x, a, m)
    ensures IsLiveSlot(t, a)
    decreases m
  {
    if x != a {
      LiveAbove(t, t[x].parentDirectory, a, m - 1);
    }
  }

  lemma DeletedIsNotAbove(t: Table, d: int, slot: int)
    requires Forest(t) && IsFolder(t, d) && 0 <= slot < |t| && t[slot].state.Deleted?
    ensures !Inside(t, d, slot)
  {
    if Inside(t, d, slot) {
      var m: nat :| MeetsAbove(t, d, slot, m);
      LiveAbove(t, d, slot, m);
    }
  }

  /**
   An entry put into the lowest deleted slot under a new path is what that path leads to, if and only
   if no live entry in a lower slot has its folder and name.
   */
  lemma EnteredIsFound(t: Table, path: seq<byte>, e: OsadaFile)
    requires Forest(t) && IsPath(path) && FreeSlot(t) < |t| && |NameOf(path)| <= FILENAME_LENGTH
    requires IsFolder(t, FolderOf(t, path)) && e.parentDirectory == FolderOf(t, path) && e.fname == StrNCpy(NameOf(path))
    ensures IsParent(t[FreeSlot(t) := e], path) == FreeSlot(t) <==>
      First(t, FolderOf(t, path), NameOf(path), Live) >= FreeSlot(t)
  {
    hide FreeSlot, DirName, BaseName, Forest;
    PathParts(path);
    var folder, name, slot := FolderOf(t, path), NameOf(path), FreeSlot(t);
    var t' := t[slot := e];
    StoredNameMatches(name, name);
    DeletedIsNotAbove(t, folder, slot);
    if DirName(path) != [] {
      FolderIsLive(t, folder);
      assert MeetsAbove(t, folder, folder, 0);
      PathStays(t, slot, e, DirName(path));
    }
    assert IsParent(t', path) == First(t', folder, name, Any);
    assert forall j :: 0 <= j < slot ==> (Matches(t'[j], folder, name, Any) <==> Matches(t[j], folder, name, Live));
    assert Matches(t'[slot], folder, name, Any);
  }

  lemma FolderIsLive(t: Table, folder: int)
    requires Forest(t) && IsFolder(t, folder) && folder <= |t|
    ensures IsLiveSlot(t, folder)
  {
  }

  /**
   A create that succeeds makes an empty regular file in the lowest deleted slot; its path leads there
   if and only if no live directory of that name stands in a lower slot.
   */
  lemma CreatedIsFound(fs: Fs, path: seq<byte>, now: u32)
    requires Good(fs) && IsPath(path) && FolderExists(fs, path) && Created(fs, path, now).1 == 0
    ensures var r, slot := Created(fs, path, now).0, FreeSlot(fs.table);
      && WellFormed(r) && r.IsRegular(slot) && FileContent(r, slot) == []
      && (IsParent(r.table, path) == slot <==> First(fs.table, FolderOf(fs.table, path), NameOf(path), Only(Directory)) >= slot)
  {
    hide WellFormed, Forest, SlotsSafe, FileContent, NewFile, Fs.FreeBlocks, IsParent, FreeSlot, First;
    SizesOfStore(fs);
    var slot, folder, name := FreeSlot(fs.table), FolderOf(fs.table, path), NameOf(path);
    var r := Created(fs, path, now).0;
    NewFileKeeps(fs, slot, StrNCpy(name), folder, now);
    NewFileFrame(fs, slot, StrNCpy(name), folder, now);
    EnteredIsFound(fs.table, path, r.table[slot]);
    OnlyDirectories(fs.table, folder, name, slot);
  }

  lemma OnlyDirectories(t: Table, folder: int, name: seq<byte>, slot: nat)
    requires First(t, folder, name, Only(Regular)) >= slot && slot <= |t|
    ensures First(t, folder, name, Live) >= slot <==> First(t, folder, name, Only(Directory)) >= slot
  {
    var i, j := First(t, folder, name, Live), First(t, folder, name, Only(Directory));
    assert i < slot ==> !Matches(t[i], folder, name, Only(Regular)) && Matches(t[i], folder, name, Only(Directory));
    assert j < slot ==> Matches(t[j], folder, name, Live);
  }

  /** The same for a directory, with regular files in the way. */
  lemma MadeDirIsFound(fs: Fs, path: seq<byte>, now: u32)
    requires Good(fs) && IsPath(path) && FolderExists(fs, path) && MadeDir(fs, path, now).1 == 0
    ensures var r, slot := MadeDir(fs, path, now).0, FreeSlot(fs.table);
      && IsDir(r.table, slot)
      && (IsParent(r.table, path) == slot <==> First(fs.table, FolderOf(fs.table, path), NameOf(path), Only(Regular)) >= slot)
  {
    hide WellFormed, Forest, SlotsSafe, Fs.FreeBlocks, IsParent, FreeSlot, First;
    SizesOfStore(fs);
    var slot, folder, name := FreeSlot(fs.table), FolderOf(fs.table, path), NameOf(path);
    EnteredIsFound(fs.table, path, MadeDir(fs, path, now).0.table[slot]);
    OnlyFiles(fs.table, folder, name, slot);
  }

  lemma OnlyFiles(t: Table, folder: int, name: seq<byte>, slot: nat)
    requires First(t, folder, name, Only(Directory)) >= slot && slot <= |t|
    ensures First(t, folder, name, Live) >= slot <==> First(t, folder, name, Only(Regular)) >= slot
  {
    var i, j := First(t, folder, name, Live), First(t, folder, name, Only(Regular));
    assert i < slot ==> !Matches(t[i], folder, name, Only(Directory)) && Matches(t[i], folder, name, Only(Regular));
    assert j < slot ==> Matches(t[j], folder, name, Live);
  }

  /**
   After a rename that succeeds the new path leads to the moved entry, if and only if no deleted slot
   before it carries the new folder and name.
   */
  lemma RenamedIsFound(fs: Fs, path: seq<byte>, to: seq<byte>, now: u32)
    requires Good(fs) && Admissible(fs, Rename(path, to, now)) && Renamed(fs, path, to, now).1 == 0
    ensures var slot := IsParent(fs.table, path);
      IsParent(Renamed(fs, path, to, now).0.table, to) == slot <==> Lookup.NoStaleName(fs.table, slot, to)
  {
    hide WellFormed, SlotsSafe, IsParent, First, Inside, DirName, BaseName, MayMove, Moved, Forest;
    SizesOfStore(fs);
    PathParts(to);
    var t, slot, folder, name := fs.table, IsParent(fs.table, path), FolderOf(fs.table, to), NameOf(to);
    MayMoveThere(fs, slot, folder, name);
    MovedIsPlaced(t, slot, name, folder, now, to);
    Lookup.MovedIsFound(t, slot, name, folder, now);
  }

  /** The folder of the new path is still found, so the path leads to what a search of that folder finds. */
  lemma MovedIsPlaced(t: Table, i: nat, name: seq<byte>, folder: u16, now: u32, to: seq<byte>)
    requires Forest(t) && i < |t| && IsPath(to) && folder == FolderOf(t, to) && IsFolder(t, folder) && !Inside(t, folder, i)
    ensures var t' := Moved(t, i, StrNCpy(name), folder, now);
      IsParent(t', to) == First(t', folder, NameOf(to), Any)
  {
    hide First, DirName, BaseName, Forest, Inside;
    PathParts(to);
    var t' := Moved(t, i, StrNCpy(name), folder, now);
    if DirName(to) != [] {
      FolderIsLive(t, folder);
      InsideItself(t, folder);
      PathStays(t, i, t'[i], DirName(to));
    }
  }

  lemma InsideItself(t: Table, d: int)
    requires 0 <= d < |t|
    ensures Inside(t, d, d)
  {
    assert MeetsAbove(t, d, d, 0);
  }

  /** What was written is what a read of the same place brings. */
  lemma WrittenIsRead(fs: Fs, i: int, off: nat, buf: seq<byte>)
    requires WellFormed(fs) && fs.IsRegular(i) && off + |buf| < 0x8000_0000 && Affordable(fs, i, off, |buf|)
    requires off <= fs.table[i].fileSize || |buf| > 0
    ensures var r := Written(fs, i, off, buf).0;
      WellFormed(r) && r.IsRegular(i) && MayReadFrom(r, i, off) && ReadBytes(r, i, |buf|, off) == buf
  {
    hide WellFormed, Written, FileContent, OthersKeep, Affordable, Fs.IsRegular;
    WrittenRefinesFlatFile(fs, i, off, buf);
    var r := Written(fs, i, off, buf).0;
    assert |FileContent(r, i)| == r.table[i].fileSize;
  }

  /** Lookups do not see states: a deleted entry is still what its path leads to. */
  lemma {:induction false} DeletedStillFound(t: Table, i: int, path: seq<byte>)
    requires 0 <= i < |t| && IsPath(path)
    ensures IsParent(Without(t, i), path) == IsParent(t, path)
    decreases |path|
  {
    hide DirName, BaseName;
    PathParts(path);
    if DirName(path) == [] {
      AnyIgnoresState(t, i, ROOT, BaseName(path));
    } else {
      DeletedStillFound(t, i, DirName(path));
      AnyIgnoresState(t, i, IsParent(t, DirName(path)), BaseName(path));
    }
  }

  lemma AnyIgnoresState(t: Table, i: int, dir: int, name: seq<byte>)
    requires 0 <= i < |t|
    ensures First(Without(t, i), dir, name, Any) == First(t, dir, name, Any)
  {
    var t' := Without(t, i);
    assert forall j :: 0 <= j < |t| ==> (Matches(t'[j], dir, name, Any) <==> Matches(t[j], dir, name, Any));
    var a, b := First(t', dir, name, Any), First(t, dir, name, Any);
  }

  /** After an unlink that succeeds the path leads to nothing live, its blocks are free, all other files are as they were. */
  lemma UnlinkedIsGone(fs: Fs, path: seq<byte>)
    requires Good(fs) && IsPath(path) && LeadsToFile(fs, path) && Unlinked(fs, path).1 == 0
    ensures var r, slot := Unlinked(fs, path).0, IsParent(fs.table, path);
      && WellFormed(r) && !Leads(r, path) && fs.IsRegular(slot)
      && r.FreeBlocks() == fs.FreeBlocks() + |fs.Blocks(slot)|
      && OthersKeep(fs, r, slot)
  {
    hide WellFormed, Forest, SlotsSafe, DropFile, OthersKeep, Fs.FreeBlocks, Fs.Blocks, IsParent;
    var slot := IsParent(fs.table, path);
    DropFileKeeps(fs, slot);
    DropFileFrame(fs, slot);
    DeletedStillFound(fs.table, slot, path);
  }

  /** A file created and at once unlinked leaves as many free blocks as there were, and every file as it was. */
  lemma CreateThenUnlink(fs: Fs, path: seq<byte>, now: u32)
    requires Good(fs) && IsPath(path) && FolderExists(fs, path) && Created(fs, path, now).1 == 0
    requires First(fs.table, FolderOf(fs.table, path), NameOf(path), Only(Directory)) >= FreeSlot(fs.table)
    ensures var r := Created(fs, path, now).0;
      && Good(r) && LeadsToFile(r, path) && Unlinked(r, path).1 == 0
      && WellFormed(Unlinked(r, path).0)
      && Unlinked(r, path).0.FreeBlocks() == fs.FreeBlocks()
      && OthersKeep(fs, Unlinked(r, path).0, -1)
  {
    hide WellFormed, Forest, SlotsSafe, FileContent, NewFile, DropFile, OthersKeep;
    hide Fs.FreeBlocks, Fs.Blocks, IsParent, FreeSlot, First, Unlinked;
    SizesOfStore(fs);
    var r, slot := Created(fs, path, now).0, FreeSlot(fs.table);
    CreatedIsFound(fs, path, now);
    CreatedKeeps(fs, path, now);
    StepKeepsGood(fs, r);
    CreatedSlot(fs, path, now);
    UnlinkSucceeds(r, path);
    UnlinkedIsGone(r, path);
    var u := Unlinked(r, path).0;
    OthersKeepTrans(fs, r, u, slot);
    FreeSlotIsNobodys(fs, u, slot);
  }

  lemma UnlinkSucceeds(fs: Fs, path: seq<byte>)
    requires Good(fs) && IsPath(path) && LeadsToFile(fs, path) && Leads(fs, path)
    requires |fs.locks| == |fs.table| && !fs.locks[IsParent(fs.table, path)].Held()
    ensures Unlinked(fs, path).1 == 0
  {
    hide WellFormed, Forest, SlotsSafe, DropFile;
  }

  /** The new file has one block, nobody holds it, and the slot was nobody's. */
  lemma CreatedSlot(fs: Fs, path: seq<byte>, now: u32)
    requires Good(fs) && IsPath(path) && FolderExists(fs, path) && Created(fs, path, now).1 == 0
    ensures var r, slot := Created(fs, path, now).0, FreeSlot(fs.table);
      && !fs.IsRegular(slot) && WellFormed(r) && OthersKeep(fs, r, slot)
      && |r.locks| == |r.table| && slot < |r.locks| && !r.locks[slot].Held()
      && |r.Blocks(slot)| == 1 && r.FreeBlocks() == fs.FreeBlocks() - 1
  {
    SizesOfStore(fs);
    hide Forest, FileContent, OthersKeep, Fs.FreeBlocks, IsParent, First, Fs.Blocks, Sound, Sized, FreeSlot, NewFile;
    var slot, folder, name := FreeSlot(fs.table), FolderOf(fs.table, path), NameOf(path);
    NewFileKeeps(fs, slot, StrNCpy(name), folder, now);
    NewFileIsSound(fs, slot, StrNCpy(name), folder, now);
    LocksOfNew(fs, slot, StrNCpy(name), folder, now);
  }
}

/** No request touches the bytes of a file it does not name. */
module Isolation {
  import opened Words
  import opened Osada
  import opened Names
  import opened Namespace
  import opened Store
  import opened Truncate
  import opened Files
  import opened Slots
  import opened Requests
  import opened Invariant

  /** The file whose bytes a request may change; -1 if there is none. */
  ghost function Touched(fs: Fs, req: Request): int
    requires IsPath(req.path)
  {
    match req
    case Unlink(path) => IsParent(fs.table, path)
    case Ftruncate(path, _) => IsParent(fs.table, path)
    case Write(path, _, _) => IsParent(fs.table, path)
    case Open(path, flags) => if flags == 2 then IsParent(fs.table, path) else -1
    case _ => -1
  }

  lemma NothingTouched(fs: Fs, i: int)
    requires WellFormed(fs)
    ensures OthersKeep(fs, fs, i)
  {
    hide WellFormed;
  }

  /** Whoever keeps all files keeps all but one. */
  lemma AllOthersKeep(fs: Fs, r: Fs, i: int)
    requires WellFormed(fs) && SameFiles(fs, r)
    ensures WellFormed(r) && OthersKeep(fs, r, i)
  {
    SameFilesKeep(fs, r);
    hide WellFormed, FileContent;
  }

  lemma DirectorySameFiles(fs: Fs, path: seq<byte>, now: u32)
    requires Good(fs) && IsPath(path) && FolderExists(fs, path)
    ensures SameFiles(fs, MadeDir(fs, path, now).0)
  {
    hide WellFormed, Forest, SlotsSafe, HeldKept, Fs.Blocks;
    SizesOfStore(fs);
    if MadeDir(fs, path, now).1 == 0 {
      var slot := FreeSlot(fs.table);
      EntryFrame(fs, slot, MadeDir(fs, path, now).0.table[slot]);
    }
  }

  lemma RemovedSameFiles(fs: Fs, path: seq<byte>)
    requires Good(fs) && IsPath(path)
    ensures SameFiles(fs, RemovedDir(fs, path).0)
  {
    hide WellFormed, Forest, SlotsSafe, HeldKept, Fs.Blocks, SameFiles, FolderOf, NameOf, HasLiveChild, IsPath;
    NothingChanged(fs);
    SizesOfStore(fs);
    if RemovedDir(fs, path).1 == 0 {
      var slot := First(fs.table, FolderOf(fs.table, path), NameOf(path), Only(Directory));
      EntryFrame(fs, slot, fs.table[slot].(state := Deleted));
    }
  }

  lemma RenamedSameFiles(fs: Fs, path: seq<byte>, to: seq<byte>, now: u32)
    requires Good(fs) && IsPath(path) && IsPath(to)
    ensures SameFiles(fs, Renamed(fs, path, to, now).0)
  {
    hide WellFormed, Forest, SlotsSafe, HeldKept, Fs.Blocks;
    SizesOfStore(fs);
    if Renamed(fs, path, to, now).1 == 0 {
      MoveFrame(fs, IsParent(fs.table, path), StrNCpy(NameOf(to)), FolderOf(fs.table, to), now);
    }
  }

  lemma OpenedSameFiles(fs: Fs, path: seq<byte>, flags: int)
    requires Good(fs) && IsPath(path) && LeadsToFile(fs, path) && flags != 2
    ensures SameFiles(fs, Opened(fs, path, flags).0)
  {
    hide WellFormed, Forest, SlotsSafe, SameFiles, FileSlot;
    SizesOfStore(fs);
    NothingChanged(fs);
    var slot := FileSlot(fs.table, path);
    if slot < MAX_FILES {
      WithLockKeeps(fs, slot, RwLock(fs.locks[slot].readers + 1, false));
      WithLockKeeps(fs, slot, RwLock(0, true));
    }
  }

  lemma ReleasedSameFiles(fs: Fs, path: seq<byte>)
    requires Good(fs) && IsPath(path)
    requires FileSlot(fs.table, path) < MAX_FILES ==> fs.locks[FileSlot(fs.table, path)].Held()
    ensures SameFiles(fs, Released(fs, path).0)
  {
    hide WellFormed, Forest, SlotsSafe, SameFiles, FileSlot;
    SizesOfStore(fs);
    NothingChanged(fs);
    var slot := FileSlot(fs.table, path);
    if slot < MAX_FILES {
      WithLockKeeps(fs, slot, Unlocked(fs.locks[slot]));
    }
  }

  lemma NothingChanged(fs: Fs)
    ensures SameFiles(fs, fs)
  {
  }

  lemma DatedSameFiles(fs: Fs, path: seq<byte>, lastmod: u32)
    requires Good(fs) && IsPath(path)
    ensures SameFiles(fs, Dated(fs, path, lastmod).0)
  {
    hide WellFormed, Forest, SlotsSafe, HeldKept, SameTree, SameFiles;
    SizesOfStore(fs);
    NothingChanged(fs);
    if Leads(fs, path) {
      DateFrame(fs, IsParent(fs.table, path), lastmod);
    }
  }

  lemma CreateTouchesNothing(fs: Fs, path: seq<byte>, now: u32)
    requires Good(fs) && IsPath(path) && FolderExists(fs, path)
    ensures WellFormed(Created(fs, path, now).0) && OthersKeep(fs, Created(fs, path, now).0, -1)
  {
    hide WellFormed, Forest, SlotsSafe, FileContent, NewFile, Fs.FreeBlocks, OthersKeep;
    SizesOfStore(fs);
    NothingTouched(fs, -1);
    if Created(fs, path, now).1 == 0 {
      var slot := FreeSlot(fs.table);
      NewFileKeeps(fs, slot, StrNCpy(NameOf(path)), FolderOf(fs.table, path), now);
      FreeSlotIsNobodys(fs, Created(fs, path, now).0, slot);
    } else {
      CreateFails(fs, path, now);
    }
  }

  lemma FreeSlotIsNobodys(fs: Fs, r: Fs, i: int)
    requires WellFormed(fs) && WellFormed(r) && !fs.IsRegular(i) && OthersKeep(fs, r, i)
    ensures OthersKeep(fs, r, -1)
  {
    hide WellFormed, FileContent;
  }

  lemma UnlinkTouchesOne(fs: Fs, path: seq<byte>)
    requires Good(fs) && IsPath(path) && LeadsToFile(fs, path)
    ensures WellFormed(Unlinked(fs, path).0) && OthersKeep(fs, Unlinked(fs, path).0, IsParent(fs.table, path))
  {
    hide WellFormed, Forest, SlotsSafe, DropFile, OthersKeep;
    var slot := IsParent(fs.table, path);
    NothingTouched(fs, slot);
    if Leads(fs, path) {
      DropFileKeeps(fs, slot);
    }
  }

  lemma CutTouchesOne(fs: Fs, path: seq<byte>, size: u32)
    requires WellFormed(fs) && IsPath(path) && LeadsToFile(fs, path)
    ensures WellFormed(Cut(fs, path, size).0) && OthersKeep(fs, Cut(fs, path, size).0, IsParent(fs.table, path))
  {
    hide WellFormed, OthersKeep, Resized, FileContent;
    var slot := IsParent(fs.table, path);
    NothingTouched(fs, slot);
    SizesOfStore(fs);
    if Leads(fs, path) {
      ResizedAllOrNothing(fs, slot, size);
      if Growth(fs, slot, size) <= fs.FreeBlocks() {
        ResizedKeepsBytes(fs, slot, size);
      }
    }
  }

  lemma WriteTouchesOne(fs: Fs, path: seq<byte>, offset: u32, buf: seq<byte>)
    requires WellFormed(fs) && IsPath(path) && LeadsToFile(fs, path) && offset + |buf| < 0x8000_0000
    ensures WellFormed(Wrote(fs, path, offset, buf).0) && OthersKeep(fs, Wrote(fs, path, offset, buf).0, IsParent(fs.table, path))
  {
    hide WellFormed, OthersKeep, Written, FileContent, Affordable, Contents.FlatUpdate;
    var slot := IsParent(fs.table, path);
    NothingTouched(fs, slot);
    if Leads(fs, path) {
      WrittenRefinesFlatFile(fs, slot, offset, buf);
    }
  }

  lemma OpenTouchesOne(fs: Fs, path: seq<byte>)
    requires Good(fs) && Admissible(fs, Open(path, 2))
    ensures WellFormed(Opened(fs, path, 2).0) && OthersKeep(fs, Opened(fs, path, 2).0, IsParent(fs.table, path))
  {
    hide WellFormed, OthersKeep, Cut, Forest, SlotsSafe, SameFiles;
    var slot, target := FileSlot(fs.table, path), IsParent(fs.table, path);
    NothingTouched(fs, target);
    SizesOfStore(fs);
    if slot < MAX_FILES && !fs.locks[slot].Held() {
      var g := WithLock(fs, slot, RwLock(0, true));
      WithLockKeeps(fs, slot, RwLock(0, true));
      AllOthersKeep(fs, g, target);
      CutTouchesOne(g, path, 0);
      OthersKeepTrans(fs, g, Cut(g, path, 0).0, target);
    }
  }

  /** Each request leaves every other regular file in place, with every byte it had. */
  lemma EveryStepIsolates(fs: Fs, req: Request)
    requires Good(fs) && Admissible(fs, req)
    ensures Good(Step(fs, req).0) && OthersKeep(fs, Step(fs, req).0, Touched(fs, req))
  {
    EveryStepKeeps(fs, req);
    hide WellFormed, Forest, SlotsSafe, OthersKeep, SameFiles, Created, Unlinked, Cut, Wrote, Opened;
    match req
    case Create(path, now) => CreateTouchesNothing(fs, path, now);
    case Unlink(path) => UnlinkTouchesOne(fs, path);
    case Ftruncate(path, size) => CutTouchesOne(fs, path, size);
    case Write(path, offset, buf) => WriteTouchesOne(fs, path, offset, buf);
    case Open(path, flags) =>
      if flags == 2 {
        OpenTouchesOne(fs, path);
      } else {
        OpenedSameFiles(fs, path, flags);
        AllOthersKeep(fs, Step(fs, req).0, -1);
      }
    case Mkdir(path, now) =>
      DirectorySameFiles(fs, path, now);
      AllOthersKeep(fs, Step(fs, req).0, -1);
    case Rmdir(path) =>
      RemovedSameFiles(fs, path);
      AllOthersKeep(fs, Step(fs, req).0, -1);
    case Rename(path, to, now) =>
      RenamedSameFiles(fs, path, to, now);
      AllOthersKeep(fs, Step(fs, req).0, -1);
    case Release(path) =>
      ReleasedSameFiles(fs, path);
      AllOthersKeep(fs, Step(fs, req).0, -1);
    case Utimens(path, lastmod) =>
      DatedSameFiles(fs, path, lastmod);
      AllOthersKeep(fs, Step(fs, req).0, -1);
  }

  /** No request of the run names slot i for its bytes. */
  ghost predicate Untouched(fs: Fs, reqs: seq<Request>, i: int)
    requires Good(fs) && AdmissibleRun(fs, reqs)
    decreases |reqs|
  {
    |reqs| > 0 ==>
      && Touched(fs, reqs[0]) != i
      && (EveryStepKeeps(fs, reqs[0]); Untouched(Step(fs, reqs[0]).0, reqs[1..], i))
  }

  /** A file that no request of a run names is there afterwards, byte for byte. */
  lemma {:induction false} UntouchedIsKept(fs: Fs, reqs: seq<Request>, i: int)
    requires Good(fs) && AdmissibleRun(fs, reqs) && Untouched(fs, reqs, i) && fs.IsRegular(i)
    ensures var r := Run(fs, reqs);
      Good(r) && r.IsRegular(i) && FileContent(r, i) == FileContent(fs, i)
    decreases |reqs|
  {
    RunUnfold(fs, reqs);
    if |reqs| > 0 {
      EveryStepIsolates(fs, reqs[0]);
      hide WellFormed, Forest, SlotsSafe, Step, Run, AdmissibleRun, Admissible, FileContent;
      UntouchedIsKept(Step(fs, reqs[0]).0, reqs[1..], i);
    }
  }
}

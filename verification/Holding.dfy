/** A file that is open stays what it is until the last of those that hold it releases it. */
module Holding {
  import opened Words
  import opened Osada
  import opened Names
  import opened Namespace
  import opened Truncate
  import opened Slots
  import opened Requests
  import opened Invariant

  // The ledger of a slot.

  ghost function Holders(lock: RwLock): nat {
    lock.readers + if lock.writer then 1 else 0
  }

  /** The request is an open that gets the lock of slot i. */
  ghost predicate Takes(fs: Fs, req: Request, i: int)
    requires IsPath(req.path)
  {
    && req.Open? && FileSlot(fs.table, req.path) == i && 0 <= i < |fs.locks|
    && if req.flags == 0 then !fs.locks[i].writer else !fs.locks[i].Held()
  }

  ghost predicate Gives(fs: Fs, req: Request, i: int)
    requires IsPath(req.path)
  {
    req.Release? && FileSlot(fs.table, req.path) == i
  }

  ghost function Change(fs: Fs, req: Request, i: int): int
    requires IsPath(req.path)
  {
    if Takes(fs, req, i) then 1 else if Gives(fs, req, i) then -1 else 0
  }

  lemma StepOnLedger(fs: Fs, req: Request, i: int)
    requires Good(fs) && Admissible(fs, req) && 0 <= i < MAX_FILES
    ensures var r := Step(fs, req).0;
      |fs.locks| == |r.locks| == MAX_FILES && Good(r) && Holders(r.locks[i]) == Holders(fs.locks[i]) + Change(fs, req, i)
  {
    hide WellFormed, Forest, Step, FileSlot, Admissible, StepKeeps, HoldersStay;
    LocksAreSafe(fs, i);
    EveryStepKeeps(fs, req);
    EveryStepOnLocks(fs, req);
    hide Good;
  }

  lemma LocksAreSafe(fs: Fs, i: int)
    requires Good(fs) && 0 <= i < MAX_FILES
    ensures fs.locks[i].writer ==> fs.locks[i].readers == 0
  {
    hide WellFormed, Forest;
  }

  /** Opens that got the lock of slot i, less releases that named it. */
  ghost function Balance(fs: Fs, reqs: seq<Request>, i: int): int
    requires Good(fs) && AdmissibleRun(fs, reqs)
    decreases |reqs|
  {
    if |reqs| == 0 then 0 else
      EveryStepKeeps(fs, reqs[0]);
      Change(fs, reqs[0], i) + Balance(Step(fs, reqs[0]).0, reqs[1..], i)
  }

  /** Over every run: as many hold a slot as did, and as have taken it, less those that have given it back. */
  lemma {:induction false} LedgerOfRun(fs: Fs, reqs: seq<Request>, i: int)
    requires Good(fs) && AdmissibleRun(fs, reqs) && 0 <= i < MAX_FILES
    ensures Good(Run(fs, reqs)) && Holders(Run(fs, reqs).locks[i]) == Holders(fs.locks[i]) + Balance(fs, reqs, i)
    decreases |reqs|
  {
    RunUnfold(fs, reqs);
    if |reqs| > 0 {
      StepOnLedger(fs, reqs[0], i);
      hide Good, Step, Run, AdmissibleRun, Admissible, Change, Holders;
      LedgerOfRun(Step(fs, reqs[0]).0, reqs[1..], i);
    }
  }

  /** Counting from `open`, those that have given the slot back are at every point fewer than those that have taken it. */
  ghost predicate Ahead(fs: Fs, reqs: seq<Request>, i: int, open: int)
    requires Good(fs) && AdmissibleRun(fs, reqs)
    decreases |reqs|
  {
    open > 0 && (|reqs| > 0 ==>
      (EveryStepKeeps(fs, reqs[0]); Ahead(Step(fs, reqs[0]).0, reqs[1..], i, open + Change(fs, reqs[0], i))))
  }

  /** The slot has the entry it had, but for size and date. */
  ghost predicate SameEntry(t: Table, t': Table, i: int) {
    && 0 <= i < |t| == |t'|
    && t'[i].state == t[i].state && t'[i].fname == t[i].fname
    && t'[i].parentDirectory == t[i].parentDirectory && t'[i].firstBlock == t[i].firstBlock
  }

  /** Whatever the request, a slot that is held has the same entry after it. */
  lemma StepKeepsEntry(fs: Fs, req: Request, i: int)
    requires Good(fs) && Admissible(fs, req) && 0 <= i < MAX_FILES && fs.locks[i].Held()
    ensures Good(Step(fs, req).0) && SameEntry(fs.table, Step(fs, req).0.table, i)
  {
    hide Forest, WellFormed, Step, Admissible, FileSlot, SlotsSafe;
    EveryStepKeeps(fs, req);
  }

  /**
   As long as fewer have given a slot back than hold or have taken it, it is held, and is a regular file
   with the name, the folder and the first block it had, whoever else opens and closes it.
   */
  lemma {:induction false} HeldOverRun(fs: Fs, reqs: seq<Request>, i: int, open: int)
    requires Good(fs) && AdmissibleRun(fs, reqs) && 0 <= i < MAX_FILES
    requires Ahead(fs, reqs, i, open) && open <= Holders(fs.locks[i])
    ensures var r := Run(fs, reqs);
      Good(r) && r.locks[i].Held() && r.IsRegular(i) && SameEntry(fs.table, r.table, i)
    decreases |reqs|
  {
    RunUnfold(fs, reqs);
    HeldIsRegular(fs, i);
    if |reqs| > 0 {
      StepOnLedger(fs, reqs[0], i);
      StepKeepsEntry(fs, reqs[0], i);
      var g := Step(fs, reqs[0]).0;
      hide Good, Step, Run, AdmissibleRun, Admissible, Change, Holders;
      HeldOverRun(g, reqs[1..], i, open + Change(fs, reqs[0], i));
    }
  }

  /** How many releases of the run name slot i. */
  ghost function Releases(fs: Fs, reqs: seq<Request>, i: int): nat
    requires Good(fs) && AdmissibleRun(fs, reqs)
    decreases |reqs|
  {
    if |reqs| == 0 then 0 else
      EveryStepKeeps(fs, reqs[0]);
      (if Gives(fs, reqs[0], i) then 1 else 0) + Releases(Step(fs, reqs[0]).0, reqs[1..], i)
  }

  /** Fewer releases than holders at the start are enough. */
  lemma {:induction false} FewReleases(fs: Fs, reqs: seq<Request>, i: int, open: int)
    requires Good(fs) && AdmissibleRun(fs, reqs) && Releases(fs, reqs, i) < open
    ensures Ahead(fs, reqs, i, open)
    decreases |reqs|
  {
    hide Good, Step, Admissible, FileSlot, Run, Answers, AdmissibleRun, Takes, Gives;
    RunUnfold(fs, reqs);
    if |reqs| > 0 {
      AskedByPath(fs, reqs[0]);
      FewReleases(Step(fs, reqs[0]).0, reqs[1..], i, open + Change(fs, reqs[0], i));
    }
  }

  lemma AskedByPath(fs: Fs, req: Request)
    requires fs.Shape() && Admissible(fs, req)
    ensures IsPath(req.path)
  {
  }

  lemma HeldIsRegular(fs: Fs, i: int)
    requires Good(fs) && 0 <= i < |fs.locks| && fs.locks[i].Held()
    ensures fs.IsRegular(i) && |fs.table| == MAX_FILES
  {
    hide WellFormed, Forest;
    SizesOfStore(fs);
  }

  /** A file's path leads open and release to its slot as long as, and only as long as, it leads to the same folder. */
  lemma SameFolderSameSlot(t: Table, t': Table, path: seq<byte>)
    requires IsPath(path) && Forest(t) && Forest(t') && FileSlot(t, path) < |t| && SameEntry(t, t', FileSlot(t, path))
    ensures FileSlot(t', path) == FileSlot(t, path) <==> FolderOf(t', path) == FolderOf(t, path)
  {
    hide FolderOf, NameOf, FileSlot;
    FileSlotIsLowest(t, path);
    FileSlotIsLowest(t', path);
    var i, j := FileSlot(t, path), FileSlot(t', path);
    if FolderOf(t', path) == FolderOf(t, path) {
      assert Matches(t'[i], FolderOf(t', path), NameOf(path), Only(Regular));
      assert SameKey(t'[j], t'[i]);
    }
  }

  /** Whoever releases a file holds it. */
  ghost predicate MayRelease(fs: Fs, path: seq<byte>) {
    IsPath(path) && |fs.locks| == MAX_FILES &&
      (FileSlot(fs.table, path) < MAX_FILES ==> fs.locks[FileSlot(fs.table, path)].Held())
  }

  /** A release takes one holder from a held slot if its path leads there, and none if it does not. */
  lemma ReleaseReaches(fs: Fs, path: seq<byte>, i: int)
    requires MayRelease(fs, path) && WellFormed(fs) && 0 <= i < |fs.locks| && fs.locks[i].Held()
    ensures i < |Released(fs, path).0.locks|
    ensures Holders(Released(fs, path).0.locks[i]) == Holders(fs.locks[i]) - if FileSlot(fs.table, path) == i then 1 else 0
  {
    hide WellFormed, FileSlot;
    SizesOfStore(fs);
  }

  /**
   A file opened and later released by the same path, whoever else has opened and released it in between:
   the slot is still held and the same file, and the release takes one holder from it if the path still
   leads to the same folder, and none if it does not.
   */
  lemma ReleaseUnlocksOpened(fs: Fs, path: seq<byte>, flags: int, g: Fs, reqs: seq<Request>)
    requires Good(fs) && Admissible(fs, Open(path, flags)) && Opened(fs, path, flags) == (g, 0)
    requires Good(g) && AdmissibleRun(g, reqs) && FileSlot(fs.table, path) < |g.locks|
    requires Ahead(g, reqs, FileSlot(fs.table, path), Holders(g.locks[FileSlot(fs.table, path)]))
    ensures var slot, r := FileSlot(fs.table, path), Run(g, reqs);
      && Good(r) && slot < |r.locks| && r.locks[slot].Held() && SameEntry(fs.table, r.table, slot)
      && (MayRelease(r, path) ==>
            && slot < |Released(r, path).0.locks|
            && Holders(Released(r, path).0.locks[slot])
            == Holders(r.locks[slot]) - if FolderOf(r.table, path) == FolderOf(fs.table, path) then 1 else 0)
  {
    hide *;
    Forests(fs, fs, path, flags);
    var slot := FileSlot(fs.table, path);
    OpenedIsHeld(fs, path, flags);
    HeldOverRun(g, reqs, slot, Holders(g.locks[slot]));
    var r := Run(g, reqs);
    SameEntryTrans(fs.table, g.table, r.table, slot);
    Forests(fs, r, path, flags);
    SameFolderSameSlot(fs.table, r.table, path);
    if MayRelease(r, path) {
      ReleaseReaches(r, path, slot);
    }
  }

  lemma Forests(fs: Fs, r: Fs, path: seq<byte>, flags: int)
    requires Good(fs) && Good(r) && Admissible(fs, Open(path, flags))
    ensures IsPath(path) && Forest(fs.table) && Forest(r.table) && |fs.table| == |r.table| == |r.locks| == MAX_FILES
    ensures WellFormed(r)
  {
    hide WellFormed, Forest, SlotsSafe;
    SizesOfStore(fs);
    SizesOfStore(r);
  }

  lemma SameEntryTrans(t: Table, u: Table, v: Table, i: int)
    requires SameEntry(t, u, i) && SameEntry(u, v, i)
    ensures SameEntry(t, v, i)
  {
  }

  /** An open that succeeds leaves its slot held, with the entry it had. */
  lemma OpenedIsHeld(fs: Fs, path: seq<byte>, flags: int)
    requires Good(fs) && Admissible(fs, Open(path, flags)) && Opened(fs, path, flags).1 == 0
    ensures var slot, g := FileSlot(fs.table, path), Opened(fs, path, flags).0;
      && slot < MAX_FILES == |g.locks| && Good(g) && g.locks[slot].Held() && SameEntry(fs.table, g.table, slot)
  {
    hide WellFormed, Forest, FileSlot, Cut, SameFiles, IsParent, SlotsSafe;
    SizesOfStore(fs);
    EveryStepKeeps(fs, Open(path, flags));
    EveryStepOnLocks(fs, Open(path, flags));
    OpenedEntries(fs, path, flags);
    SizesOfStore(Opened(fs, path, flags).0);
  }

  lemma OpenedEntries(fs: Fs, path: seq<byte>, flags: int)
    requires Good(fs) && IsPath(path) && LeadsToFile(fs, path)
    ensures forall i :: 0 <= i < |fs.table| ==> SameEntry(fs.table, Opened(fs, path, flags).0.table, i)
  {
    hide WellFormed, Forest, FileSlot, SameFiles, IsParent, SlotsSafe, Resized, Growth, Fs.FreeBlocks, Fs.Chains, Fs.Blocks;
    SizesOfStore(fs);
    var slot := FileSlot(fs.table, path);
    if slot < MAX_FILES && flags == 2 && !fs.locks[slot].Held() {
      var g := WithLock(fs, slot, RwLock(0, true));
      WithLockKeeps(fs, slot, RwLock(0, true));
      if Leads(g, path) {
        ResizedAllOrNothing(g, IsParent(g.table, path), 0);
      }
    }
  }

  /**
   An open that fails leaves a lock behind if and only if it asked for truncation, found a regular file
   nobody held, and the lookup blind to states found something else under its path.
   */
  lemma FailedOpenKeepsLock(fs: Fs, path: seq<byte>, flags: int)
    requires Good(fs) && Admissible(fs, Open(path, flags))
    ensures Opened(fs, path, flags).1 != 0 && Opened(fs, path, flags).0.locks != fs.locks <==>
      var slot := FileSlot(fs.table, path);
      flags == 2 && slot < MAX_FILES && !fs.locks[slot].Held() && !Leads(fs, path)
  {
    hide WellFormed, Forest, FileSlot, SameFiles, IsParent, SlotsSafe, Resized;
    SizesOfStore(fs);
    var slot := FileSlot(fs.table, path);
    if slot < MAX_FILES && flags == 2 && !fs.locks[slot].Held() {
      var g := WithLock(fs, slot, RwLock(0, true));
      WithLockKeeps(fs, slot, RwLock(0, true));
      CutKeepsLocks(g, path, 0);
      assert g.locks[slot] != fs.locks[slot];
      if Leads(g, path) {
        CutToNothing(g, IsParent(g.table, path));
      }
    }
  }

  /** A cut to nothing always finds its blocks. */
  lemma CutToNothing(fs: Fs, i: int)
    requires WellFormed(fs) && fs.IsRegular(i)
    ensures Resized(fs, i, 0).1 == 0
  {
    ResizedUnfold(fs, i, 0);
    GrowthUnfold(fs, i, 0);
    hide WellFormed, Resized, Growth, Reblocked, SetSize, Fs.Blocks;
  }
}

/** When, over whole runs, looking a path up means walking down the live tree. */
module Lookup {
  import opened Words
  import opened Osada
  import opened Names
  import opened Namespace
  import opened Tree
  import opened Truncate
  import opened Slots
  import opened Requests
  import opened Invariant
  import opened Store
  import Files
  import Client

  /** Nothing deleted hides anything live, and no two live entries share a name. */
  ghost predicate Clear(t: Table) {
    Unshadowed(t) && UniqueNames(t)
  }

  /** No entry of either kind has the name a create or mkdir asks for. */
  ghost predicate NewName(t: Table, path: seq<byte>)
    requires IsPath(path)
  {
    First(t, FolderOf(t, path), NameOf(path), Live) == |t|
  }

  /** No deleted slot below slot i carries the directory and name of this path. */
  ghost predicate NoStaleName(t: Table, i: int, path: seq<byte>)
    requires IsPath(path)
  {
    forall j :: 0 <= j < i && j < |t| && t[j].state.Deleted? ==>
      !(t[j].parentDirectory == FolderOf(t, path) && UpToNul(t[j].fname) == UpToNul(StrNCpy(NameOf(path))))
  }

  /** What else a request must meet for lookups to go on meaning the live tree. */
  ghost predicate Fresh(fs: Fs, req: Request)
    requires fs.Shape() && Admissible(fs, req)
  {
    match req
    case Create(path, _) => NewName(fs.table, path)
    case Mkdir(path, _) => NewName(fs.table, path)
    case Rename(path, to, _) => NoStaleName(fs.table, IsParent(fs.table, path), to)
    case _ => true
  }

  lemma SameTreeKeepsClear(t: Table, t': Table)
    requires SameTree(t, t')
    ensures Clear(t') <==> Clear(t)
  {
    assert forall j :: IsLiveSlot(t', j) <==> IsLiveSlot(t, j);
    assert forall i, j :: 0 <= i < |t| && 0 <= j < |t| ==> (SameKey(t'[i], t'[j]) <==> SameKey(t[i], t[j]));
  }

  lemma EnterKeepsClear(t: Table, e: OsadaFile, folder: int, name: seq<byte>)
    requires Clear(t) && FreeSlot(t) < |t| && !e.state.Deleted?
    requires e.fname == StrNCpy(name) && e.parentDirectory == folder
    requires NUL !in name && |name| <= FILENAME_LENGTH && First(t, folder, name, Live) == |t|
    ensures Clear(t[FreeSlot(t) := e])
  {
    NoSuchEntry(t, folder, name, Live, e);
    forall j | IsLiveSlot(t, j)
      ensures !SameKey(t[j], e)
    {
      assert Passes(t[j], Live);
    }
    EnterKeepsUnshadowed(t, FreeSlot(t), e);
    EnterKeepsUniqueNames(t, FreeSlot(t), e);
  }

  lemma LeaveKeepsClear(t: Table, i: int)
    requires Clear(t) && IsLiveSlot(t, i)
    ensures Clear(Without(t, i))
  {
    LeaveKeepsUnshadowed(t, i);
    LeaveKeepsUniqueNames(t, i);
  }

  /** What a step does to the table, request by request; `answer` is what the client is told. */
  ghost predicate TableStep(fs: Fs, req: Request, answer: int, t': Table)
    requires fs.Shape() && Admissible(fs, req)
  {
    var t := fs.table;
    match req
    case Create(path, _) => if answer == 0 then Entered(t, t', path, Regular) else t' == t
    case Mkdir(path, _) => if answer == 0 then Entered(t, t', path, Directory) else t' == t
    case Rmdir(path) => if answer == 0 then Left(t, t', First(t, FolderOf(t, path), NameOf(path), Only(Directory))) else t' == t
    case Unlink(path) => if answer == 0 then Left(t, t', IsParent(t, path)) else t' == t
    case Rename(path, to, now) =>
      if answer == 0 then
        && MayMove(t, IsParent(t, path), StrNCpy(NameOf(to)), FolderOf(t, to))
        && t' == Moved(t, IsParent(t, path), StrNCpy(NameOf(to)), FolderOf(t, to), now)
      else t' == t
    case _ => SameTree(t, t')
  }

  /** The live entry in slot i is deleted. */
  ghost predicate Left(t: Table, t': Table, i: int) {
    IsLiveSlot(t, i) && t' == Without(t, i)
  }

  ghost predicate Entered(t: Table, t': Table, path: seq<byte>, state: FileState)
    requires IsPath(path)
  {
    && FreeSlot(t) < |t| == |t'|
    && |NameOf(path)| <= FILENAME_LENGTH
    && t' == t[FreeSlot(t) := t'[FreeSlot(t)]]
    && var e := t'[FreeSlot(t)];
    e.state == state && e.fname == StrNCpy(NameOf(path)) && e.parentDirectory == FolderOf(t, path)
  }

  lemma ResizedTable(fs: Fs, i: int, size: u32)
    requires WellFormed(fs) && fs.IsRegular(i)
    ensures SameTree(fs.table, Resized(fs, i, size).0.table)
  {
    hide WellFormed, Resized, Fs.Blocks, Fs.FreeBlocks, Fs.Chains, Growth;
    ResizedAllOrNothing(fs, i, size);
  }

  lemma CreatedTable(fs: Fs, path: seq<byte>, now: u32)
    requires Good(fs) && IsPath(path)
    ensures var (r, answer) := Created(fs, path, now);
      if answer == 0 then Entered(fs.table, r.table, path, Regular) else r.table == fs.table
  {
    hide WellFormed, Forest, SlotsSafe, Fs.FreeBlocks, FolderOf, First, FreeSlot, NewFile;
    SizesOfStore(fs);
    if Created(fs, path, now).1 == 0 {
      NewFileFrame(fs, FreeSlot(fs.table), StrNCpy(NameOf(path)), FolderOf(fs.table, path), now);
    } else {
      CreateFails(fs, path, now);
    }
  }

  /** One step changes the table in that way. */
  lemma EveryStepOnTable(fs: Fs, req: Request)
    requires Good(fs) && Admissible(fs, req)
    ensures TableStep(fs, req, Step(fs, req).1, Step(fs, req).0.table)
  {
    hide WellFormed, Forest, SlotsSafe, IsParent, FolderOf, First, FreeSlot, Resized;
    hide Files.Written, Created, FileSlot, MayMove, HasLiveChild, DropFile;
    SizesOfStore(fs);
    match req
    case Create(path, now) =>
      CreatedTable(fs, path, now);
    case Mkdir(path, now) =>
    case Rmdir(path) =>
    case Rename(path, to, now) =>
      if Renamed(fs, path, to, now).1 == 0 {
        PathParts(to);
        MayMoveThere(fs, IsParent(fs.table, path), FolderOf(fs.table, to), NameOf(to));
      }
    case Unlink(path) =>
      if Unlinked(fs, path).1 == 0 {
        DropFileUnfoldTable(fs, IsParent(fs.table, path));
      }
    case Ftruncate(path, size) =>
      if Leads(fs, path) {
        ResizedTable(fs, IsParent(fs.table, path), size);
      }
    case Write(path, off, buf) =>
      if Leads(fs, path) {
        Client.WrittenSameTree(fs, IsParent(fs.table, path), off, buf);
      }
    case Open(path, flags) =>
      OpenedTable(fs, path, flags);
    case Release(path) =>
    case Utimens(path, lastmod) =>
  }

  lemma DropFileUnfoldTable(fs: Fs, i: int)
    requires Good(fs) && fs.IsRegular(i)
    ensures DropFile(fs, i).table == Without(fs.table, i) && IsLiveSlot(fs.table, i)
  {
    hide Sized, Sound, Forest;
  }

  lemma OpenedTable(fs: Fs, path: seq<byte>, flags: int)
    requires Good(fs) && IsPath(path) && LeadsToFile(fs, path)
    ensures SameTree(fs.table, Opened(fs, path, flags).0.table)
  {
    hide WellFormed, Forest, SlotsSafe, IsParent, FileSlot, Resized;
    SizesOfStore(fs);
    var slot := FileSlot(fs.table, path);
    if slot < |fs.locks| {
      var g := WithLock(fs, slot, RwLock(0, true));
      WithLockKeeps(fs, slot, RwLock(0, true));
      if Leads(g, path) {
        ResizedTable(g, IsParent(g.table, path), 0);
      }
    }
  }

  lemma GoodParts(fs: Fs)
    requires Good(fs)
    ensures WellFormed(fs) && Forest(fs.table) && SlotsSafe(fs) && fs.Shape() && |fs.table| == MAX_FILES
  {
    hide Forest, SlotsSafe;
    SizesOfStore(fs);
  }

  /** A fresh request keeps everything live in view. */
  lemma FreshStepKeepsClear(fs: Fs, req: Request)
    requires Good(fs) && Admissible(fs, req) && Fresh(fs, req) && Clear(fs.table)
    ensures Clear(Step(fs, req).0.table)
  {
    hide Good, Forest, Step, IsParent, FolderOf, First, FreeSlot, MayMove, SameTree, Unshadowed, UniqueNames;
    GoodParts(fs);
    EveryStepOnTable(fs, req);
    var t, t' := fs.table, Step(fs, req).0.table;
    if t' != t {
      match req
      case Create(path, _) =>
        PathParts(path);
        EnterKeepsClear(t, t'[FreeSlot(t)], FolderOf(t, path), NameOf(path));
      case Mkdir(path, _) =>
        PathParts(path);
        EnterKeepsClear(t, t'[FreeSlot(t)], FolderOf(t, path), NameOf(path));
      case Rename(path, to, now) =>
        MoveIsClear(t, IsParent(t, path), to, now);
      case Rmdir(path) =>
        LeaveKeepsClear(t, First(t, FolderOf(t, path), NameOf(path), Only(Directory)));
      case Unlink(path) =>
        LeaveKeepsClear(t, IsParent(t, path));
      case _ =>
        SameTreeKeepsClear(t, t');
    }
  }

  /** A rename keeps everything live in view exactly when no stale entry below it carries the new name. */
  lemma MoveIsClear(t: Table, i: int, to: seq<byte>, now: u32)
    requires Clear(t) && IsPath(to) && FolderOf(t, to) < 0x1_0000
    requires MayMove(t, i, StrNCpy(NameOf(to)), FolderOf(t, to))
    ensures Clear(Moved(t, i, StrNCpy(NameOf(to)), FolderOf(t, to), now)) <==> NoStaleName(t, i, to)
  {
    MoveKeepsUnshadowed(t, i, StrNCpy(NameOf(to)), FolderOf(t, to), now);
    MoveKeepsUniqueNames(t, i, StrNCpy(NameOf(to)), FolderOf(t, to), now);
  }

  lemma RenamedIsClear(fs: Fs, path: seq<byte>, to: seq<byte>, now: u32)
    requires Good(fs) && Clear(fs.table) && IsPath(path) && IsPath(to) && FolderExists(fs, to)
    requires Renamed(fs, path, to, now).1 == 0
    ensures Clear(Renamed(fs, path, to, now).0.table) <==> NoStaleName(fs.table, IsParent(fs.table, path), to)
  {
    hide WellFormed, Forest, SlotsSafe, IsParent, FolderOf, First, MayMove, NoStaleName, Clear;
    SizesOfStore(fs);
    PathParts(to);
    MayMoveThere(fs, IsParent(fs.table, path), FolderOf(fs.table, to), NameOf(to));
    MoveIsClear(fs.table, IsParent(fs.table, path), to, now);
  }

  /** After a rename, the entry is what a search of its folder finds exactly when no deleted slot stands before it. */
  lemma MovedIsFound(t: Table, i: int, name: seq<byte>, folder: u16, now: u32)
    requires NUL !in name && |name| <= FILENAME_LENGTH && MayMove(t, i, StrNCpy(name), folder)
    ensures First(Moved(t, i, StrNCpy(name), folder, now), folder, name, Any) == i
       <==> forall j :: 0 <= j < i && t[j].state.Deleted? ==>
              !(t[j].parentDirectory == folder && UpToNul(t[j].fname) == UpToNul(StrNCpy(name)))
  {
    var t' := Moved(t, i, StrNCpy(name), folder, now);
    StoredNameMatches(name, name);
    assert Matches(t'[i], folder, name, Any);
    forall j | 0 <= j < i
      ensures Matches(t'[j], folder, name, Any)
         <==> t[j].state.Deleted? && t[j].parentDirectory == folder && UpToNul(t[j].fname) == UpToNul(StrNCpy(name))
    {
      assert IsLiveSlot(t, j) <==> !t[j].state.Deleted?;
    }
  }

  // Whole runs.

  ghost predicate FreshRun(fs: Fs, reqs: seq<Request>)
    requires Good(fs) && AdmissibleRun(fs, reqs)
    decreases |reqs|
  {
    |reqs| > 0 ==>
      && Fresh(fs, reqs[0])
      && (EveryStepKeeps(fs, reqs[0]); FreshRun(Step(fs, reqs[0]).0, reqs[1..]))
  }

  /**
   After any run of fresh requests the server's lookup of any path gives a live slot exactly when
   the walk down the live tree does, and the same one.
   */
  lemma {:induction false} LookupAfterEveryRun(fs: Fs, reqs: seq<Request>, path: seq<byte>, i: int)
    requires Good(fs) && Clear(fs.table) && AdmissibleRun(fs, reqs) && FreshRun(fs, reqs) && IsPath(path)
    ensures Clear(Run(fs, reqs).table)
    ensures var t := Run(fs, reqs).table;
      (IsLiveSlot(t, i) && IsParent(t, path) == i) <==> (0 <= i < |t| && LiveWalk(t, ROOT, Components(path)) == i)
    decreases |reqs|
  {
    hide Good, Clear, Step, Admissible, Fresh, IsParent, LiveWalk, Components;
    GoodParts(fs);
    RunUnfold(fs, reqs);
    if |reqs| == 0 {
      GoodAndClear(fs);
      LookupIsLiveWalk(fs.table, path, i);
    } else {
      EveryStepKeeps(fs, reqs[0]);
      FreshStepKeepsClear(fs, reqs[0]);
      LookupAfterEveryRun(Step(fs, reqs[0]).0, reqs[1..], path, i);
    }
  }

  lemma GoodAndClear(fs: Fs)
    requires Good(fs) && Clear(fs.table)
    ensures |fs.table| == MAX_FILES && ParentsLive(fs.table) && Unshadowed(fs.table)
  {
  }
}

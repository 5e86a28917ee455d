/** rm /a; mv /b /a: from a freshly formatted image to a live file that its path no longer leads to. */
module Stale {
  import opened Words
  import opened Osada
  import opened Names
  import opened Namespace
  import opened Truncate
  import opened Slots
  import opened Requests
  import opened Invariant
  import opened Lookup
  import opened Holding
  import opened Image
  import opened Blank
  import Bitmap
  import Tree

  const A: byte := 0x61
  const B: byte := 0x62

  /** What a used slot of the root holds: an entry with a one-letter name. */
  datatype Used = Used(state: FileState, letter: byte)

  ghost predicate Holds(e: OsadaFile, u: Used) {
    e.state == u.state && e.fname == StrNCpy([u.letter]) && e.parentDirectory == ROOT
  }

  /** A store in order and unlocked, with `free` free blocks or more and these entries in its first slots. */
  ghost predicate Stage(fs: Fs, free: nat, used: seq<Used>) {
    && Good(fs) && Clear(fs.table) && fs.FreeBlocks() >= free
    && |fs.table| == |fs.locks| == MAX_FILES && |used| <= MAX_FILES
    && (forall i :: 0 <= i < MAX_FILES ==> !fs.locks[i].Held())
    && (forall i :: 0 <= i < |used| ==> Holds(fs.table[i], used[i]))
    && (forall i :: |used| <= i < MAX_FILES ==> fs.table[i].state.Deleted? && UpToNul(fs.table[i].fname) == [])
  }

  predicate IsLetter(c: byte) {
    c != SLASH && c != NUL
  }

  lemma OneLetter(t: Table, c: byte)
    requires IsLetter(c)
    ensures IsPath([SLASH, c]) && NameOf([SLASH, c]) == [c]
    ensures FolderOf(t, [SLASH, c]) == ROOT && IsParent(t, [SLASH, c]) == First(t, ROOT, [c], Any)
    ensures Components([SLASH, c]) == [[c]]
  {
    var p := [SLASH, c];
    assert p[0] == SLASH && p[1] == c;
    assert LastSlash(p) == 0 by {
      assert p[..1] == [SLASH];
    }
    ComponentsOfPath(p);
  }

  /** One-letter names are told apart, and from the empty ones. */
  lemma LettersDiffer(e: OsadaFile, u: Used, c: byte)
    requires IsLetter(c) && IsLetter(u.letter) && Holds(e, u)
    ensures SameName(e.fname, [c]) <==> u.letter == c
  {
    StoredNameMatches([u.letter], [c]);
  }

  lemma Matching(fs: Fs, free: nat, used: seq<Used>, c: byte, filter: Filter)
    requires Stage(fs, free, used) && IsLetter(c) && forall i :: 0 <= i < |used| ==> IsLetter(used[i].letter)
    ensures forall i :: 0 <= i < MAX_FILES ==>
      (Matches(fs.table[i], ROOT, [c], filter) <==> i < |used| && used[i].letter == c && Passes(fs.table[i], filter))
  {
    hide Good, Clear, StrNCpy, UpToNul, Fs.FreeBlocks;
    forall i | 0 <= i < MAX_FILES
      ensures Matches(fs.table[i], ROOT, [c], filter) <==> i < |used| && used[i].letter == c && Passes(fs.table[i], filter)
    {
      if i < |used| {
        LettersDiffer(fs.table[i], used[i], c);
      }
    }
  }

  lemma CreatesNext(fs: Fs, free: nat, used: seq<Used>, c: byte, now: u32)
    requires Stage(fs, free, used) && free > 0 && |used| < MAX_FILES && IsLetter(c)
    requires forall i :: 0 <= i < |used| ==> used[i].state.Regular? && IsLetter(used[i].letter) && used[i].letter != c
    ensures fs.Shape() && Admissible(fs, Create([SLASH, c], now)) && Fresh(fs, Create([SLASH, c], now))
    ensures WellFormed(fs) && Step(fs, Create([SLASH, c], now)) == (NewFile(fs, |used|, StrNCpy([c]), ROOT, now), 0)
  {
    var n := |used|;
    GoodParts(fs);
    OneLetter(fs.table, c);
    Matching(fs, free, used, c, Live);
    Matching(fs, free, used, c, Only(Regular));
    hide StrNCpy, UpToNul, Clear, WellFormed, Forest, SlotsSafe, Fs.FreeBlocks, Matches, FolderOf, IsParent, NameOf, Fs.Shape, NewFile;
    assert FreeSlot(fs.table) == n by {
      assert forall i :: 0 <= i < n ==> Holds(fs.table[i], used[i]);
    }
  }

  /** A new file goes to the next slot. */
  lemma CreateNext(fs: Fs, free: nat, used: seq<Used>, c: byte, now: u32)
    requires Stage(fs, free, used) && free > 0 && |used| < MAX_FILES && IsLetter(c)
    requires forall i :: 0 <= i < |used| ==> used[i].state.Regular? && IsLetter(used[i].letter) && used[i].letter != c
    ensures fs.Shape() && Admissible(fs, Create([SLASH, c], now)) && Fresh(fs, Create([SLASH, c], now))
    ensures Stage(Step(fs, Create([SLASH, c], now)).0, free - 1, used + [Used(Regular, c)])
  {
    var req, n := Create([SLASH, c], now), |used|;
    GoodParts(fs);
    CreatesNext(fs, free, used, c, now);
    NewFileFrame(fs, n, StrNCpy([c]), ROOT, now);
    NewFileKeeps(fs, n, StrNCpy([c]), ROOT, now);
    LocksOfNew(fs, n, StrNCpy([c]), ROOT, now);
    EveryStepKeeps(fs, req);
    FreshStepKeepsClear(fs, req);
    hide NewFile, Step, Good, Stage, StrNCpy, Clear, Fs.FreeBlocks, Fs.Shape, Admissible, Fresh, StepKeeps, HoldersStay;
    MoreUsed(fs, Step(fs, req).0, free, used, Used(Regular, c));
  }

  lemma MoreUsed(fs: Fs, r: Fs, free: nat, used: seq<Used>, u: Used)
    requires Stage(fs, free, used) && |used| < MAX_FILES && free > 0
    requires Good(r) && Clear(r.table) && r.FreeBlocks() == fs.FreeBlocks() - 1 && r.locks == fs.locks
    requires |r.table| == |fs.table| && r.table == fs.table[|used| := r.table[|used|]] && Holds(r.table[|used|], u)
    ensures Stage(r, free - 1, used + [u])
  {
    hide Good, Clear, Fs.FreeBlocks, UpToNul, Holds;
  }

  /** Deleting the first file leaves its name in its slot. */
  lemma UnlinkFirst(fs: Fs, free: nat, used: seq<Used>)
    requires Stage(fs, free, used) && |used| > 0 && used[0].state.Regular?
    requires forall i :: 0 <= i < |used| ==> IsLetter(used[i].letter)
    ensures fs.Shape() && IsLetter(used[0].letter)
    ensures var req := Unlink([SLASH, used[0].letter]);
      && Admissible(fs, req) && Fresh(fs, req)
      && Stage(Step(fs, req).0, free, used[0 := used[0].(state := Deleted)])
  {
    var c := used[0].letter;
    var req := Unlink([SLASH, c]);
    GoodParts(fs);
    OneLetter(fs.table, c);
    Matching(fs, free, used, c, Any);
    hide StrNCpy, UpToNul, Clear, WellFormed, Forest, SlotsSafe, Fs.FreeBlocks, Matches, FolderOf, NameOf, Fs.Shape;
    assert IsParent(fs.table, [SLASH, c]) == 0;
    hide IsParent;
    DropFileUnfoldTable(fs, 0);
    DropFileKeeps(fs, 0);
    DropFileKeepsLocks(fs, 0);
    EveryStepKeeps(fs, req);
    FreshStepKeepsClear(fs, req);
    hide DropFile;
    assert Step(fs, req).0 == DropFile(fs, 0);
  }

  /** A run with one more request in front. */
  lemma Before(fs: Fs, req: Request, reqs: seq<Request>)
    requires Good(fs) && Admissible(fs, req) && Fresh(fs, req)
    requires Good(Step(fs, req).0) && AdmissibleRun(Step(fs, req).0, reqs) && FreshRun(Step(fs, req).0, reqs)
    ensures AdmissibleRun(fs, [req] + reqs) && FreshRun(fs, [req] + reqs)
    ensures Run(fs, [req] + reqs) == Run(Step(fs, req).0, reqs)
  {
    hide Good, Admissible, Fresh, Step;
    assert ([req] + reqs)[1..] == reqs;
  }

  lemma BlankNames(g: Geometry)
    requires g.WellLaid() && WholeImage(BlankImage(g)) && HeaderOf(BlankImage(g)) == g
    ensures forall i :: 0 <= i < MAX_FILES ==> UpToNul(Load(BlankImage(g)).table[i].fname) == []
  {
    hide HeaderOf, GetFat, Bitmap.Bits, GetBitmap;
    BlankTable(g);
    var t := TablePart(BlankImage(g), g);
    forall i | 0 <= i < MAX_FILES
      ensures UpToNul(Load(BlankImage(g)).table[i].fname) == []
    {
      hide TablePart, BlankImage;
      assert Load(BlankImage(g)).table[i].fname[0] == t[FILE_RECORD * i + 1];
    }
  }

  lemma BlankTable(g: Geometry)
    requires g.WellLaid()
    ensures var t := TablePart(BlankImage(g), g); forall k :: 0 <= k < |t| ==> t[k] == 0
  {
  }

  lemma BlankIsStage(g: Geometry)
    requires g.WellLaid() && g.dataBlocks >= 2
    ensures WholeImage(BlankImage(g)) && Stage(Load(BlankImage(g)), 2, [])
  {
    BlankLoads(g);
    BlankNames(g);
    hide BlankImage, Load, WellFormed, Forest, SlotsSafe;
    var fs := Load(BlankImage(g));
    EmptyIsGood(fs);
    GoodParts(fs);
    assert Clear(fs.table);
  }

  /** create /a, create /b, unlink /a */
  function Requested(now: u32): seq<Request> {
    [Create([SLASH, A], now)] + AfterA(now)
  }

  function AfterA(now: u32): seq<Request> {
    [Create([SLASH, B], now)] + [Unlink([SLASH, A])]
  }

  lemma FromBoth(fs: Fs, now: u32)
    requires Stage(fs, 0, [Used(Regular, A), Used(Regular, B)])
    ensures AdmissibleRun(fs, [Unlink([SLASH, A])]) && FreshRun(fs, [Unlink([SLASH, A])])
    ensures Stage(Run(fs, [Unlink([SLASH, A])]), 0, [Used(Deleted, A), Used(Regular, B)])
  {
    var used, req := [Used(Regular, A), Used(Regular, B)], Unlink([SLASH, A]);
    StageIsGood(fs, 0, used);
    UnlinkFirst(fs, 0, used);
    assert used[0 := Used(Deleted, A)] == [Used(Deleted, A), Used(Regular, B)];
    hide Good, Step, Admissible, Fresh, Clear, AdmissibleRun, FreshRun, Run, Stage;
    StageIsGood(Step(fs, req).0, 0, [Used(Deleted, A), Used(Regular, B)]);
    NoMore(Step(fs, req).0);
    Before(fs, req, []);
    assert [req] + [] == [req];
  }

  lemma FromOne(fs: Fs, now: u32)
    requires Stage(fs, 1, [Used(Regular, A)])
    ensures AdmissibleRun(fs, AfterA(now)) && FreshRun(fs, AfterA(now))
    ensures Stage(Run(fs, AfterA(now)), 0, [Used(Deleted, A), Used(Regular, B)])
  {
    var used, req := [Used(Regular, A)], Create([SLASH, B], now);
    StageIsGood(fs, 1, used);
    CreateNext(fs, 1, used, B, now);
    assert used + [Used(Regular, B)] == [Used(Regular, A), Used(Regular, B)];
    hide Good, Step, Admissible, Fresh, Clear, AdmissibleRun, FreshRun, Run, Stage;
    FromBoth(Step(fs, req).0, now);
    Before(fs, req, [Unlink([SLASH, A])]);
  }

  /** From any image just formatted with two blocks of data or more, three fresh requests lead to the stale name. */
  lemma StaleIsReached(g: Geometry, now: u32)
    requires g.WellLaid() && g.dataBlocks >= 2
    ensures WholeImage(BlankImage(g)) && Good(Load(BlankImage(g))) && Clear(Load(BlankImage(g)).table)
    ensures AdmissibleRun(Load(BlankImage(g)), Requested(now)) && FreshRun(Load(BlankImage(g)), Requested(now))
    ensures Stage(Run(Load(BlankImage(g)), Requested(now)), 0, [Used(Deleted, A), Used(Regular, B)])
  {
    var req := Create([SLASH, A], now);
    BlankIsStage(g);
    hide BlankImage, Load;
    var fs := Load(BlankImage(g));
    StageIsGood(fs, 2, []);
    CreateNext(fs, 2, [], A, now);
    assert [] + [Used(Regular, A)] == [Used(Regular, A)];
    hide Good, Step, Admissible, Fresh, Clear, AdmissibleRun, FreshRun, Run, Stage;
    FromOne(Step(fs, req).0, now);
    Before(fs, req, AfterA(now));
  }

  lemma StageIsGood(fs: Fs, free: nat, used: seq<Used>)
    requires Stage(fs, free, used)
    ensures Good(fs) && fs.Shape() && Clear(fs.table)
  {
    GoodParts(fs);
  }

  lemma NoMore(fs: Fs)
    requires Good(fs)
    ensures AdmissibleRun(fs, []) && FreshRun(fs, []) && Run(fs, []) == fs
  {
  }

  lemma RenameSucceeds(fs: Fs, now: u32)
    requires Stage(fs, 0, [Used(Deleted, A), Used(Regular, B)])
    ensures IsPath([SLASH, A]) && IsPath([SLASH, B]) && fs.Shape() && Good(fs) && Clear(fs.table)
    ensures Admissible(fs, Rename([SLASH, B], [SLASH, A], now))
    ensures Step(fs, Rename([SLASH, B], [SLASH, A], now))
         == (fs.(table := Tree.Moved(fs.table, 1, StrNCpy([A]), ROOT, now)), 0)
  {
    var used := [Used(Deleted, A), Used(Regular, B)];
    GoodParts(fs);
    OneLetter(fs.table, A);
    OneLetter(fs.table, B);
    Matching(fs, 0, used, B, Any);
    Matching(fs, 0, used, A, Live);
    hide StrNCpy, UpToNul, Clear, WellFormed, Forest, SlotsSafe, Fs.FreeBlocks, FolderOf, NameOf, Fs.Shape, Matches;
    assert First(fs.table, ROOT, [B], Any) == 1 by {
      assert used[1].letter == B && used[0].letter == A;
    }
    assert IsParent(fs.table, [SLASH, B]) == 1;
  }

  /**
   Then rename /b to /a. The request is admissible and succeeds, and everything was in view before it;
   after it the live file in slot 1 is hidden: is_parent leads its path to slot 0, which is deleted.
   */
  lemma StaleNameHides(fs: Fs, now: u32)
    requires Stage(fs, 0, [Used(Deleted, A), Used(Regular, B)])
    ensures IsPath([SLASH, A]) && fs.Shape() && Good(fs) && Clear(fs.table)
    ensures Admissible(fs, Rename([SLASH, B], [SLASH, A], now)) && Step(fs, Rename([SLASH, B], [SLASH, A], now)).1 == 0
    ensures var t := Step(fs, Rename([SLASH, B], [SLASH, A], now)).0.table;
      && IsLiveSlot(t, 1) && LiveWalk(t, ROOT, Components([SLASH, A])) == 1
      && IsParent(t, [SLASH, A]) == 0 && !IsLiveSlot(t, 0)
  {
    RenameSucceeds(fs, now);
    var t := Tree.Moved(fs.table, 1, StrNCpy([A]), ROOT, now);
    OneLetter(t, A);
    StoredNameMatches([A], [A]);
    LettersDiffer(fs.table[0], Used(Deleted, A), A);
    assert Holds(fs.table[0], [Used(Deleted, A), Used(Regular, B)][0]);
    hide Step, Good, Admissible, Stage, StrNCpy, UpToNul, Clear, Fs.Shape, IsParent, Components;
    assert Matches(t[0], ROOT, [A], Any) && Matches(t[1], ROOT, [A], Live);
    assert First(t, ROOT, [A], Live) == 1;
    LiveWalkSnoc(t, ROOT, [], [A]);
    assert [] + [[A]] == [[A]];
  }

  /** Then open /a for truncation: nothing is cut and an error comes back, but the lock of the hidden file is taken. */
  lemma StaleOpenKeepsLock(fs: Fs, now: u32)
    requires Stage(fs, 0, [Used(Deleted, A), Used(Regular, B)])
    ensures IsPath([SLASH, A]) && fs.Shape() && Good(fs) && Admissible(fs, Rename([SLASH, B], [SLASH, A], now))
    ensures var r := Step(fs, Rename([SLASH, B], [SLASH, A], now)).0;
      && Good(r) && r.Shape() && Admissible(r, Open([SLASH, A], 2))
      && Opened(r, [SLASH, A], 2).1 != 0 && Opened(r, [SLASH, A], 2).0.locks != r.locks
  {
    RenameSucceeds(fs, now);
    StaleNameHides(fs, now);
    EveryStepKeeps(fs, Rename([SLASH, B], [SLASH, A], now));
    var r := Step(fs, Rename([SLASH, B], [SLASH, A], now)).0;
    OneLetter(r.table, A);
    StaleSlot(fs, r.table, now);
    hide Step, Good, Stage, Clear, StrNCpy, UpToNul, IsParent, FileSlot, Components, LiveWalk, Opened;
    FailedOpenKeepsLock(r, [SLASH, A], 2);
  }

  lemma StaleSlot(fs: Fs, t: Table, now: u32)
    requires Stage(fs, 0, [Used(Deleted, A), Used(Regular, B)]) && t == Tree.Moved(fs.table, 1, StrNCpy([A]), ROOT, now)
    ensures IsPath([SLASH, A]) && FileSlot(t, [SLASH, A]) == 1 && !fs.locks[1].Held()
  {
    OneLetter(t, A);
    StoredNameMatches([A], [A]);
    hide Good, StrNCpy, UpToNul, Clear, FolderOf, NameOf, IsParent;
    assert Holds(fs.table[0], [Used(Deleted, A), Used(Regular, B)][0]);
    assert Matches(t[1], ROOT, [A], Only(Regular)) && !Matches(t[0], ROOT, [A], Only(Regular));
    assert First(t, ROOT, [A], Only(Regular)) == 1;
  }
}

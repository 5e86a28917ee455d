/** What entering, removing and moving an entry do to the tree. */
module Tree {
  import opened Words
  import opened Osada
  import opened Names
  import opened Namespace

  /** No two live entries at all share directory and name. */
  ghost predicate UniqueNames(t: Table) {
    forall i, j :: 0 <= i < j < |t| && IsLiveSlot(t, i) && IsLiveSlot(t, j) ==> !SameKey(t[i], t[j])
  }

  /** e may enter slot i: the slot is free, e is live and lies in the root or in a live directory. */
  ghost predicate MayEnter(t: Table, i: int, e: OsadaFile) {
    0 <= i < |t| && t[i].state.Deleted? && !e.state.Deleted? && IsFolder(t, e.parentDirectory)
  }

  /** The live entry in slot i may go: nothing live lies in it. */
  ghost predicate MayLeave(t: Table, i: int) {
    IsLiveSlot(t, i) && forall j :: IsLiveSlot(t, j) ==> t[j].parentDirectory != i
  }

  function Without(t: Table, i: int): Table
    requires 0 <= i < |t|
  {
    t[i := t[i].(state := Deleted)]
  }

  function Moved(t: Table, i: int, fname: Fname, parent: u16, now: u32): Table
    requires 0 <= i < |t|
  {
    t[i := t[i].(fname := fname, parentDirectory := parent, lastmod := now)]
  }

  /** Changing a slot that no live path goes through keeps those paths. */
  lemma {:induction false} PathAvoids(t: Table, t': Table, i: int, x: int, n: nat)
    requires |t'| == |t| == MAX_FILES && ParentsLive(t) && IsLiveSlot(t, x) && ReachesRoot(t, x, n)
    requires forall j :: 0 <= j < |t| && j != i ==> t'[j] == t[j]
    requires x != i && forall j :: IsLiveSlot(t, j) && j != i ==> t[j].parentDirectory != i
    ensures ReachesRoot(t', x, n)
    decreases n
  {
    if t[x].parentDirectory != ROOT {
      PathAvoids(t, t', i, t[x].parentDirectory, n - 1);
    }
  }

  lemma EnterKeepsForest(t: Table, i: int, e: OsadaFile)
    requires Forest(t) && MayEnter(t, i, e)
    requires forall j :: IsLiveSlot(t, j) && t[j].state == e.state ==> !SameKey(t[j], e)
    ensures Forest(t[i := e])
  {
    var t' := t[i := e];
    assert forall j :: IsLiveSlot(t', j) <==> j == i || IsLiveSlot(t, j);
    assert forall j :: IsDir(t, j) ==> IsDir(t', j);
    forall x | IsLiveSlot(t', x)
      ensures exists n: nat :: ReachesRoot(t', x, n)
    {
      var y := if x == i then e.parentDirectory else x;
      if y != ROOT {
        assert IsLiveSlot(t, y);
        var n: nat :| ReachesRoot(t, y, n);
        PathAvoids(t, t', i, y, n);
        assert ReachesRoot(t', x, if x == i then n + 1 else n);
      } else {
        assert ReachesRoot(t', x, 0);
      }
    }
  }

  lemma LeaveKeepsForest(t: Table, i: int)
    requires Forest(t) && MayLeave(t, i)
    ensures Forest(Without(t, i))
  {
    var t' := Without(t, i);
    assert forall j :: IsLiveSlot(t', j) <==> j != i && IsLiveSlot(t, j);
    forall x | IsLiveSlot(t', x)
      ensures exists n: nat :: ReachesRoot(t', x, n)
    {
      var n: nat :| ReachesRoot(t, x, n);
      PathAvoids(t, t', i, x, n);
    }
  }

  /** Nothing lies in a regular file, so it may always go. */
  lemma FileMayLeave(t: Table, i: int)
    requires Forest(t) && 0 <= i < |t| && t[i].state.Regular?
    ensures MayLeave(t, i)
  {
  }

  /** Going up n parents or fewer from x meets slot a. */
  ghost predicate MeetsAbove(t: Table, x: int, a: int, n: nat)
    decreases n
  {
    0 <= x < |t| && (x == a || (n > 0 && t[x].parentDirectory != ROOT && MeetsAbove(t, t[x].parentDirectory, a, n - 1)))
  }

  /** Folder d is slot a or lies somewhere below it. */
  ghost predicate Inside(t: Table, d: int, a: int) {
    exists n: nat :: MeetsAbove(t, d, a, n)
  }

  /** A path to the root that does not meet i survives the move of i. */
  lemma {:induction false} PathBesideMove(t: Table, t': Table, i: int, x: int, n: nat)
    requires |t'| == |t| == MAX_FILES && ReachesRoot(t, x, n) && !Inside(t, x, i)
    requires forall j :: 0 <= j < |t| && j != i ==> t'[j] == t[j]
    ensures ReachesRoot(t', x, n)
    decreases n
  {
    assert !MeetsAbove(t, x, i, 0);
    if t[x].parentDirectory != ROOT {
      forall m: nat
        ensures !MeetsAbove(t, t[x].parentDirectory, i, m)
      {
        assert !MeetsAbove(t, x, i, m + 1);
      }
      PathBesideMove(t, t', i, t[x].parentDirectory, n - 1);
    }
  }

  /** A path that meets i reaches it after the move too, and goes on from where i now lies. */
  lemma {:induction false} PathThroughMove(t: Table, t': Table, i: int, x: int, m: nat, n: nat)
    requires |t'| == |t| && MeetsAbove(t, x, i, m) && ReachesRoot(t', i, n)
    requires forall j :: 0 <= j < |t| && j != i ==> t'[j] == t[j]
    ensures ReachesRoot(t', x, n + m)
    decreases m
  {
    if x == i {
      ReachesRootLonger(t', i, n, n + m);
    } else {
      PathThroughMove(t, t', i, t[x].parentDirectory, m - 1, n);
    }
  }

  lemma {:induction false} ReachesRootLonger(t: Table, x: int, n: nat, m: nat)
    requires ReachesRoot(t, x, n) && n <= m
    ensures ReachesRoot(t, x, m)
    decreases n
  {
    if t[x].parentDirectory != ROOT {
      ReachesRootLonger(t, t[x].parentDirectory, n - 1, m - 1);
    }
  }

  /** Whatever lay on the way from the new folder up to i now goes round in a circle. */
  lemma {:induction false} MovedIntoItself(t: Table, t': Table, i: int, x: int, m: nat, n: nat)
    requires |t'| == |t| == MAX_FILES && MeetsAbove(t, x, i, m)
    requires 0 <= i < |t| && Inside(t, t'[i].parentDirectory, i)
    requires forall j :: 0 <= j < |t| && j != i ==> t'[j] == t[j]
    ensures !ReachesRoot(t', x, n)
    decreases n
  {
    if n > 0 && t'[x].parentDirectory != ROOT {
      var up := t'[x].parentDirectory;
      if x == i {
        var k: nat :| MeetsAbove(t, up, i, k);
        MovedIntoItself(t, t', i, up, k, n - 1);
      } else {
        MovedIntoItself(t, t', i, up, m - 1, n - 1);
      }
    }
  }

  /** The live entry in slot i may move: its new folder exists and holds no live entry of the new name. */
  ghost predicate MayMove(t: Table, i: int, fname: Fname, parent: u16) {
    && IsLiveSlot(t, i)
    && IsFolder(t, parent)
    && forall j :: IsLiveSlot(t, j) ==> !(t[j].parentDirectory == parent && UpToNul(t[j].fname) == UpToNul(fname))
  }

  lemma MoveKeepsRooted(t: Table, i: int, fname: Fname, parent: u16, now: u32)
    requires Forest(t) && MayMove(t, i, fname, parent) && !Inside(t, parent, i)
    ensures Rooted(Moved(t, i, fname, parent, now))
  {
    var t' := Moved(t, i, fname, parent, now);
    assert exists n: nat :: ReachesRoot(t', i, n) by {
      if parent == ROOT {
        assert ReachesRoot(t', i, 0);
      } else {
        assert IsLiveSlot(t, parent);
        var n: nat :| ReachesRoot(t, parent, n);
        PathBesideMove(t, t', i, parent, n);
        assert ReachesRoot(t', i, n + 1);
      }
    }
    var k: nat :| ReachesRoot(t', i, k);
    forall x | IsLiveSlot(t', x)
      ensures exists n: nat :: ReachesRoot(t', x, n)
    {
      assert IsLiveSlot(t, x);
      if Inside(t, x, i) {
        var m: nat :| MeetsAbove(t, x, i, m);
        PathThroughMove(t, t', i, x, m, k);
      } else {
        var n: nat :| ReachesRoot(t, x, n);
        PathBesideMove(t, t', i, x, n);
      }
    }
  }

  /** A move keeps the tree a forest exactly when the new folder is not inside what is moved. */
  lemma MoveKeepsForest(t: Table, i: int, fname: Fname, parent: u16, now: u32)
    requires Forest(t) && MayMove(t, i, fname, parent)
    ensures Forest(Moved(t, i, fname, parent, now)) <==> !Inside(t, parent, i)
  {
    var t' := Moved(t, i, fname, parent, now);
    assert forall j :: IsLiveSlot(t', j) <==> IsLiveSlot(t, j);
    assert forall j :: IsDir(t', j) <==> IsDir(t, j);
    if Inside(t, parent, i) {
      forall n: nat
        ensures !ReachesRoot(t', i, n)
      {
        MovedIntoItself(t, t', i, i, 0, n);
      }
      assert !Rooted(t');
    } else {
      MoveKeepsRooted(t, i, fname, parent, now);
      hide Rooted, Inside;
    }
  }

  // Shadows: when does the lookup keep finding what is live?

  /** Taking the lowest free slot never puts an entry behind a deleted one. */
  lemma EnterKeepsUnshadowed(t: Table, i: int, e: OsadaFile)
    requires Unshadowed(t) && 0 <= i < |t| && t[i].state.Deleted? && !e.state.Deleted?
    requires forall j :: 0 <= j < i ==> !t[j].state.Deleted?
    ensures Unshadowed(t[i := e])
  {
  }

  /** Names stay unique exactly when the new one was free. */
  lemma EnterKeepsUniqueNames(t: Table, i: int, e: OsadaFile)
    requires UniqueNames(t) && 0 <= i < |t| && t[i].state.Deleted? && !e.state.Deleted?
    ensures UniqueNames(t[i := e]) <==> forall j :: IsLiveSlot(t, j) ==> !SameKey(t[j], e)
  {
    var t' := t[i := e];
    assert forall j :: IsLiveSlot(t', j) <==> j == i || IsLiveSlot(t, j);
    if UniqueNames(t') {
      forall j | IsLiveSlot(t, j)
        ensures !SameKey(t[j], e)
      {
        assert IsLiveSlot(t', j) && IsLiveSlot(t', i);
        assert if j < i then !SameKey(t'[j], t'[i]) else !SameKey(t'[i], t'[j]);
      }
    }
  }

  /** Deleting an entry shadows nothing exactly when no later live entry has its key. */
  lemma LeaveKeepsUnshadowed(t: Table, i: int)
    requires Unshadowed(t) && IsLiveSlot(t, i)
    ensures Unshadowed(Without(t, i)) <==> forall j :: i < j < |t| && IsLiveSlot(t, j) ==> !SameKey(t[j], t[i])
  {
    var t' := Without(t, i);
    assert forall j :: IsLiveSlot(t', j) <==> j != i && IsLiveSlot(t, j);
    if Unshadowed(t') {
      forall j | i < j < |t| && IsLiveSlot(t, j)
        ensures !SameKey(t[j], t[i])
      {
        assert !SameKey(t'[j], t'[i]);
      }
    }
    forall x, j | 0 <= j < x < |t'| && j != i && IsLiveSlot(t', x) && t'[j].state.Deleted?
      ensures !SameKey(t'[x], t'[j])
    {
      assert !SameKey(t[x], t[j]);
    }
  }

  lemma LeaveKeepsUniqueNames(t: Table, i: int)
    requires UniqueNames(t) && IsLiveSlot(t, i)
    ensures UniqueNames(Without(t, i))
  {
    var t' := Without(t, i);
    assert forall j :: IsLiveSlot(t', j) ==> IsLiveSlot(t, j) && t'[j] == t[j];
  }

  /** A move shadows nothing exactly when no deleted slot below i carries the target's key. */
  lemma MoveKeepsUnshadowed(t: Table, i: int, fname: Fname, parent: u16, now: u32)
    requires Unshadowed(t) && IsLiveSlot(t, i)
    ensures Unshadowed(Moved(t, i, fname, parent, now)) <==>
      forall j :: 0 <= j < i && t[j].state.Deleted? ==>
        !(t[j].parentDirectory == parent && UpToNul(t[j].fname) == UpToNul(fname))
  {
    var t' := Moved(t, i, fname, parent, now);
    assert forall j :: IsLiveSlot(t', j) <==> IsLiveSlot(t, j);
    if Unshadowed(t') {
      forall j | 0 <= j < i && t[j].state.Deleted?
        ensures !(t[j].parentDirectory == parent && UpToNul(t[j].fname) == UpToNul(fname))
      {
        assert IsLiveSlot(t', i) && !SameKey(t'[i], t'[j]);
      }
    }
    forall x, j | 0 <= j < x < |t'| && x != i && IsLiveSlot(t', x) && t'[j].state.Deleted?
      ensures !SameKey(t'[x], t'[j])
    {
      assert !SameKey(t[x], t[j]);
    }
  }

  lemma MoveKeepsUniqueNames(t: Table, i: int, fname: Fname, parent: u16, now: u32)
    requires UniqueNames(t) && MayMove(t, i, fname, parent)
    ensures UniqueNames(Moved(t, i, fname, parent, now))
  {
    var t' := Moved(t, i, fname, parent, now);
    assert forall j :: IsLiveSlot(t', j) <==> IsLiveSlot(t, j);
  }
}

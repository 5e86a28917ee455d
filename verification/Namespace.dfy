/** The tree of directories: what lookups mean, and what keeps them meaning that. */
module Namespace {
  import opened Words
  import opened Osada
  import opened Names

  type Table = seq<OsadaFile>

  ghost predicate IsLiveSlot(t: Table, i: int) {
    0 <= i < |t| && !t[i].state.Deleted?
  }

  ghost predicate IsDir(t: Table, i: int) {
    0 <= i < |t| && t[i].state.Directory?
  }

  ghost predicate IsFolder(t: Table, i: int) {
    i == ROOT || IsDir(t, i)
  }

  ghost predicate SameKey(e: OsadaFile, f: OsadaFile) {
    e.parentDirectory == f.parentDirectory && UpToNul(e.fname) == UpToNul(f.fname)
  }

  /** Every live entry lies in the root or in a live directory. */
  ghost predicate ParentsLive(t: Table) {
    forall i :: IsLiveSlot(t, i) ==> IsFolder(t, t[i].parentDirectory)
  }

  /** Slot i reaches the root in at most n + 1 steps up. */
  ghost predicate ReachesRoot(t: Table, i: int, n: nat)
    decreases n
  {
    0 <= i < |t| && (t[i].parentDirectory == ROOT || (n > 0 && ReachesRoot(t, t[i].parentDirectory, n - 1)))
  }

  /** Parent links of live entries form no cycle. */
  ghost predicate Rooted(t: Table) {
    forall i :: IsLiveSlot(t, i) ==> exists n: nat :: ReachesRoot(t, i, n)
  }

  /** No two live entries of one kind share directory and name. */
  ghost predicate UniqueKinds(t: Table) {
    forall i, j :: 0 <= i < j < |t| && IsLiveSlot(t, i) && t[i].state == t[j].state ==> !SameKey(t[i], t[j])
  }

  ghost predicate Forest(t: Table) {
    |t| == MAX_FILES && ParentsLive(t) && Rooted(t) && UniqueKinds(t)
  }

  /** No deleted slot stands before a live one with the same directory and name. */
  ghost predicate Unshadowed(t: Table) {
    forall i, j :: 0 <= j < i < |t| && IsLiveSlot(t, i) && t[j].state.Deleted? ==> !SameKey(t[i], t[j])
  }

  // The reference lookup: split the path from the left, walk down over live entries.

  function FirstSlash(s: seq<byte>): (k: nat)
    ensures k <= |s| && SLASH !in s[..k] && (k < |s| ==> s[k] == SLASH)
  {
    if |s| == 0 || s[0] == SLASH then 0 else
      var k := 1 + FirstSlash(s[1..]);
      assert s[..k] == [s[0]] + s[1..][..k - 1];
      k
  }

  function Split(s: seq<byte>): (cs: seq<seq<byte>>)
    ensures |cs| > 0
    decreases |s|
  {
    var k := FirstSlash(s);
    if k == |s| then [s] else [s[..k]] + Split(s[k + 1..])
  }

  function Components(path: seq<byte>): seq<seq<byte>>
    requires IsPath(path)
  {
    Split(path[1..])
  }

  function LiveWalk(t: Table, dir: int, cs: seq<seq<byte>>): (i: int)
    ensures |cs| > 0 ==> 0 <= i <= |t|
    decreases |cs|
  {
    if |cs| == 0 then dir
    else
      var i := First(t, dir, cs[0], Live);
      if i == |t| then |t| else LiveWalk(t, i, cs[1..])
  }

  lemma {:induction false} FirstSlashUnique(s: seq<byte>, k: nat)
    requires k <= |s| && SLASH !in s[..k] && (k < |s| ==> s[k] == SLASH)
    ensures FirstSlash(s) == k
    decreases k
  {
    if k > 0 {
      assert s[0] == s[..k][0];
      assert s[1..][..k - 1] == s[..k][1..];
      FirstSlashUnique(s[1..], k - 1);
    }
  }

  lemma {:induction false} SplitAtLast(a: seq<byte>, b: seq<byte>)
    requires SLASH !in b
    ensures Split(a + [SLASH] + b) == Split(a) + [b]
    decreases |a|
  {
    var s := a + [SLASH] + b;
    var k := FirstSlash(a);
    assert s[..k] == a[..k];
    FirstSlashUnique(s, k);
    if k == |a| {
      assert s[k + 1..] == b && a[..k] == a;
      FirstSlashUnique(b, |b|);
      assert Split(s) == [a] + [b];
    } else {
      assert s[k + 1..] == a[k + 1..] + [SLASH] + b;
      SplitAtLast(a[k + 1..], b);
      assert [a[..k]] + (Split(a[k + 1..]) + [b]) == ([a[..k]] + Split(a[k + 1..])) + [b];
    }
  }

  /** Splitting from the left and splitting off the last component agree. */
  lemma ComponentsOfPath(path: seq<byte>)
    requires IsPath(path)
    ensures SLASH in path && (DirName(path) == [] || IsPath(DirName(path)))
    ensures Components(path)
         == (if DirName(path) == [] then [] else Components(DirName(path))) + [BaseName(path)]
  {
    PathParts(path);
    var d, b := DirName(path), BaseName(path);
    if d == [] {
      assert path[1..] == b;
      FirstSlashUnique(b, |b|);
    } else {
      assert path[1..] == d[1..] + [SLASH] + b;
      SplitAtLast(d[1..], b);
    }
  }

  lemma {:induction false} LiveWalkSnoc(t: Table, dir: int, cs: seq<seq<byte>>, c: seq<byte>)
    ensures LiveWalk(t, dir, cs + [c])
         == (var i := LiveWalk(t, dir, cs); if i == |t| && |cs| > 0 then |t| else First(t, i, c, Live))
    decreases |cs|
  {
    if |cs| > 0 {
      var i := First(t, dir, cs[0], Live);
      assert (cs + [c])[1..] == cs[1..] + [c];
      if i < |t| {
        LiveWalkSnoc(t, i, cs[1..], c);
        if |cs| == 1 {
          assert cs[1..] == [];
        }
      }
    } else {
      assert cs + [c] == [c];
      assert [c][1..] == [];
    }
  }

  /** A live entry is the first of its key among live ones, or one of its key stands before it. */
  lemma FirstAnyIsFirstLive(t: Table, dir: int, name: seq<byte>, i: int)
    requires Unshadowed(t)
    ensures (IsLiveSlot(t, i) && First(t, dir, name, Any) == i) <==> (i < |t| && First(t, dir, name, Live) == i)
  {
    var a, l := First(t, dir, name, Any), First(t, dir, name, Live);
    if l < |t| {
      forall j | 0 <= j < l && t[j].state.Deleted?
        ensures !Matches(t[j], dir, name, Any)
      {
        assert !SameKey(t[l], t[j]);
      }
    }
  }

  lemma NothingLiveIn(t: Table, p: nat, name: seq<byte>)
    requires |t| == MAX_FILES && ParentsLive(t) && p <= |t| && !IsLiveSlot(t, p)
    ensures !IsLiveSlot(t, First(t, p, name, Any))
  {
  }

  /**
   The server's lookup, which ignores states, finds a live entry exactly when the walk down over
   live entries does, and then both find the same one.
   */
  lemma {:induction false} LookupIsLiveWalk(t: Table, path: seq<byte>, i: int)
    requires |t| == MAX_FILES && ParentsLive(t) && Unshadowed(t) && IsPath(path)
    ensures (IsLiveSlot(t, i) && IsParent(t, path) == i)
       <==> (0 <= i < |t| && LiveWalk(t, ROOT, Components(path)) == i)
    decreases |path|
  {
    ComponentsOfPath(path);
    var d, b := DirName(path), BaseName(path);
    if d == [] {
      LiveWalkSnoc(t, ROOT, [], b);
      FirstAnyIsFirstLive(t, ROOT, b, i);
    } else {
      LiveWalkSnoc(t, ROOT, Components(d), b);
      var p, w := IsParent(t, d), LiveWalk(t, ROOT, Components(d));
      LookupIsLiveWalk(t, d, p);
      LookupIsLiveWalk(t, d, w);
      if IsLiveSlot(t, p) {
        FirstAnyIsFirstLive(t, p, b, i);
      } else {
        NothingLiveIn(t, p, b);
      }
    }
  }
}

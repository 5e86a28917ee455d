/** C strings, paths and the searches of the file table. */
module Names {
  import opened Words
  import opened Osada

  const NUL: byte := 0
  const SLASH: byte := 0x2F

  /** The characters of a buffer before its first NUL. */
  function UpToNul(s: seq<byte>): (r: seq<byte>)
    ensures |r| <= |s| && NUL !in r
  {
    if |s| == 0 || s[0] == NUL then [] else [s[0]] + UpToNul(s[1..])
  }

  function Truncated(name: seq<byte>): (r: seq<byte>)
    ensures |r| <= FILENAME_LENGTH
  {
    if |name| <= FILENAME_LENGTH then name else name[..FILENAME_LENGTH]
  }

  /** strncpy into a name field: cut at the field's length, padded with NULs. */
  function StrNCpy(name: seq<byte>): Fname {
    seq(FILENAME_LENGTH, k => if 0 <= k < |name| then name[k] else NUL)
  }

  /** strncmp(fname, name, OSADA_FILENAME_LENGTH) == 0, for a name without NULs. */
  predicate SameName(fname: Fname, name: seq<byte>) {
    UpToNul(fname) == Truncated(name)
  }

  lemma {:induction false} UpToNulOfPadded(s: seq<byte>, n: nat)
    requires n <= |s| && NUL !in s[..n] && forall k :: n <= k < |s| ==> s[k] == NUL
    ensures UpToNul(s) == s[..n]
    decreases n
  {
    if n > 0 {
      assert s[0] == s[..n][0];
      assert s[1..][..n - 1] == s[..n][1..];
      UpToNulOfPadded(s[1..], n - 1);
    }
  }

  /** A name stored by strncpy is found again by strncmp under that name and no other. */
  lemma StoredNameMatches(name: seq<byte>, other: seq<byte>)
    requires NUL !in name
    ensures SameName(StrNCpy(name), other) <==> Truncated(name) == Truncated(other)
  {
    var f := StrNCpy(name);
    var n := |Truncated(name)|;
    assert f[..n] == Truncated(name);
    UpToNulOfPadded(f, n);
  }

  // Paths: "/a/b/c". strrchr splits off the last component.

  ghost predicate IsPath(path: seq<byte>) {
    |path| > 0 && path[0] == SLASH && NUL !in path
  }

  /** strrchr(path, '/') */
  function LastSlash(path: seq<byte>): (k: nat)
    requires SLASH in path
    ensures k < |path| && path[k] == SLASH && SLASH !in path[k + 1..]
  {
    var n := |path| - 1;
    if path[n] == SLASH then n
    else
      assert path == path[..n] + [path[n]];
      var k := LastSlash(path[..n]);
      assert path[k + 1..] == path[..n][k + 1..] + [path[n]];
      k
  }

  function DirName(path: seq<byte>): seq<byte>
    requires SLASH in path
  {
    path[..LastSlash(path)]
  }

  function BaseName(path: seq<byte>): seq<byte>
    requires SLASH in path
  {
    path[LastSlash(path) + 1..]
  }

  lemma PathParts(path: seq<byte>)
    requires IsPath(path)
    ensures SLASH in path && path == DirName(path) + [SLASH] + BaseName(path)
    ensures NUL !in BaseName(path) && SLASH !in BaseName(path)
    ensures DirName(path) == [] || IsPath(DirName(path))
  {
    assert path[0] in path;
    var k := LastSlash(path);
    assert forall c :: c in path[..k] || c in path[k + 1..] ==> c in path;
  }

  /** Which entries a search stops at. */
  datatype Filter = Any | Live | Only(state: FileState)

  predicate Passes(e: OsadaFile, filter: Filter) {
    match filter
    case Any => true
    case Live => !e.state.Deleted?
    case Only(state) => e.state == state
  }

  predicate Matches(e: OsadaFile, parent: int, name: seq<byte>, filter: Filter) {
    SameName(e.fname, name) && e.parentDirectory == parent && Passes(e, filter)
  }

  /** The lowest slot from k on with this name in this directory, or |table|. */
  function FirstFrom(table: seq<OsadaFile>, parent: int, name: seq<byte>, filter: Filter, k: nat): (i: nat)
    requires k <= |table|
    ensures k <= i <= |table|
    ensures i < |table| ==> Matches(table[i], parent, name, filter)
    ensures forall j :: k <= j < i ==> !Matches(table[j], parent, name, filter)
    decreases |table| - k
  {
    if k == |table| || Matches(table[k], parent, name, filter) then k
    else FirstFrom(table, parent, name, filter, k + 1)
  }

  function First(table: seq<OsadaFile>, parent: int, name: seq<byte>, filter: Filter): (i: nat)
    ensures i <= |table|
    ensures i < |table| ==> Matches(table[i], parent, name, filter)
    ensures forall j :: 0 <= j < i ==> !Matches(table[j], parent, name, filter)
  {
    FirstFrom(table, parent, name, filter, 0)
  }

  /** The search loops of the server. */
  method Search(table: array<OsadaFile>, parent: int, name: seq<byte>, filter: Filter) returns (i: nat)
    ensures i == First(table[..], parent, name, filter)
  {
    i := 0;
    while i < table.Length && !Matches(table[i], parent, name, filter)
      invariant i <= table.Length
      invariant forall j :: 0 <= j < i ==> !Matches(table[..][j], parent, name, filter)
    {
      i := i + 1;
    }
  }

  /** is_parent: the slot of a path, found component by component; states are not looked at. */
  function IsParent(table: seq<OsadaFile>, path: seq<byte>): (i: nat)
    requires IsPath(path)
    ensures i <= |table|
    decreases |path|
  {
    PathParts(path);
    if DirName(path) == [] then
      First(table, ROOT, BaseName(path), Any)
    else
      var parent := IsParent(table, DirName(path));
      if parent == |table| then |table| else First(table, parent, BaseName(path), Any)
  }

  method FindSlot(table: array<OsadaFile>, path: seq<byte>) returns (i: nat)
    requires IsPath(path)
    ensures i == IsParent(table[..], path)
    decreases |path|
  {
    PathParts(path);
    if DirName(path) == [] {
      i := Search(table, ROOT, BaseName(path), Any);
    } else {
      var parent := FindSlot(table, DirName(path));
      if parent == table.Length {
        return table.Length;
      }
      i := Search(table, parent, BaseName(path), Any);
    }
  }
}

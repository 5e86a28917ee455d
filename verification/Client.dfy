/** The two loops of the client: a read put together from packets, a write sent in parts. */
module Client {
  import opened Words
  import opened Osada
  import opened Names
  import opened Namespace
  import opened Store
  import opened Truncate
  import opened Files
  import opened Requests
  import opened Invariant
  import opened Stream
  import opened Server
  import opened Contents
  import opened Split

  /** The most bytes one write request carries: its pathto field. */
  const PART_MAX := 256

  /** osada_read of the client against the server: what the caller's buffer holds afterwards. */
  method ReadFile(server: FsOsada, path: seq<byte>, size: nat, offset: nat) returns (r: int, buf: seq<byte>)
    requires server.Valid() && IsPath(path) && offset + size < 0x1_0000_0000
    requires MayReadFrom(server.Model(), IsParent(server.Model().table, path), offset)
    ensures var fs, i := server.Model(), IsParent(server.Model().table, path);
      if !fs.IsRegular(i) then r == -ENOENT
      else buf == ReadBytes(fs, i, size, offset) && r == |buf|
  {
    hide WellFormed, FsOsada.Synced, Forest, SlotsSafe, IsParent, ReadBytes;
    hide Complete, Joined, FsOsada.Model, MayReadFrom;
    var n, sent := server.Read(path, size, offset);
    ghost var fs, i := server.Model(), IsParent(server.Model().table, path);
    if fs.IsRegular(i) {
      CompleteHasFinal(sent, ReadBytes(fs, i, size, offset));
    } else {
      assert Final(sent[0]);
    }
    var used;
    r, buf, used := Reassemble(sent);
    if fs.IsRegular(i) {
      CompleteIsTakenWhole(sent, ReadBytes(fs, i, size, offset), used);
    }
  }

  lemma {:induction false} SameSlot(t: Table, t': Table, path: seq<byte>)
    requires SameTree(t, t') && IsPath(path)
    ensures IsParent(t', path) == IsParent(t, path)
    decreases |path|
  {
    PathParts(path);
    if DirName(path) == [] {
      SameFirst(t, t', ROOT, BaseName(path), Any);
    } else {
      SameSlot(t, t', DirName(path));
      SameFirst(t, t', IsParent(t, DirName(path)), BaseName(path), Any);
    }
  }

  lemma SameFirst(t: Table, t': Table, dir: int, name: seq<byte>, filter: Filter)
    requires SameTree(t, t')
    ensures First(t', dir, name, filter) == First(t, dir, name, filter)
  {
    var i, j := First(t, dir, name, filter), First(t', dir, name, filter);
    assert forall k :: 0 <= k < |t| ==> (Matches(t'[k], dir, name, filter) <==> Matches(t[k], dir, name, filter));
  }

  /** A write changes no more of the table than one size. */
  lemma WrittenSameTree(fs: Fs, i: int, off: nat, buf: seq<byte>)
    requires WellFormed(fs) && fs.IsRegular(i) && off + |buf| < 0x8000_0000
    ensures SameTree(fs.table, Written(fs, i, off, buf).0.table)
  {
    hide WellFormed, Resized, Room, Stored, Written, Fs.Blocks, Fs.FreeBlocks, Fs.Chains, Growth;
    WrittenUnfold(fs, i, off, buf);
    var size := SizeFor(fs, i, off + |buf|);
    ResizedAllOrNothing(fs, i, size);
    var g := Resized(fs, i, size).0;
    if Resized(fs, i, size).1 == 0 {
      StoredOnlyData(g, i, off, buf);
    }
  }

  /** The parts up to k are stored and the next one does not find its blocks. */
  ghost predicate StoppedAt(fs: Fs, w: Fs, i: int, off: nat, buf: seq<byte>, k: nat)
    requires WellFormed(fs) && fs.IsRegular(i) && off + |buf| < 0x8000_0000
  {
    && k <= |buf| && k % PART_MAX == 0
    && !Affordable(fs, i, off, Min(k + PART_MAX, |buf|))
    && AfterParts(fs, w, i, off, buf, k)
  }

  /** The store once the first k bytes went out in parts: what one write of them leaves. */
  ghost predicate AfterParts(fs: Fs, w: Fs, i: int, off: nat, buf: seq<byte>, k: nat)
    requires WellFormed(fs) && fs.IsRegular(i) && off + |buf| < 0x8000_0000
  {
    && k <= |buf|
    && if k == 0 then w == fs
       else Affordable(fs, i, off, k) && Written(fs, i, off, buf[..k]) == (w, k)
  }

  /** One more part on top of the parts before it. */
  lemma NextPart(fs: Fs, w: Fs, i: int, off: nat, buf: seq<byte>, k: nat, n: nat)
    requires WellFormed(fs) && fs.IsRegular(i) && off + |buf| < 0x8000_0000
    requires AfterParts(fs, w, i, off, buf, k) && k + n <= |buf| && (n > 0 || k == 0)
    ensures WellFormed(w) && w.IsRegular(i)
    ensures var (x, e) := Written(w, i, off + k, buf[k..k + n]);
      if Affordable(fs, i, off, k + n) then e == n && (k + n > 0 ==> AfterParts(fs, x, i, off, buf, k + n))
      else e == -EFBIG && x == w
    ensures k + n == 0 ==> Written(w, i, off + k, buf[k..k + n]) == Written(fs, i, off, buf[..0])
  {
    hide WellFormed, Written, FileContent, FlatUpdate, OthersKeep, Affordable;
    if k == 0 {
      assert buf[0..n] == buf[..n];
      WrittenRefinesFlatFile(fs, i, off, buf[..n]);
    } else {
      WritesJoin(fs, i, off, buf[..k], buf[k..k + n]);
      assert buf[..k] + buf[k..k + n] == buf[..k + n];
    }
  }

  /** Where the writing loop stands after `writed` bytes. */
  ghost predicate Sending(fs: Fs, w: Fs, i: int, off: nat, buf: seq<byte>, writed: nat, first: bool)
    requires WellFormed(fs) && fs.IsRegular(i) && off + |buf| < 0x8000_0000
  {
    && writed <= |buf|
    && (writed % PART_MAX == 0 || writed == |buf|)
    && SameTree(fs.table, w.table)
    && if first then writed == 0 && w == fs
       else if |buf| == 0 then Written(fs, i, off, buf) == (w, 0)
       else writed > 0 && AfterParts(fs, w, i, off, buf, writed)
  }

  /** What one turn of the writing loop does. */
  lemma SendingGoesOn(fs: Fs, w: Fs, path: seq<byte>, i: int, off: u32, buf: seq<byte>, writed: nat, first: bool, n: nat)
    requires WellFormed(fs) && fs.IsRegular(i) && off + |buf| < 0x8000_0000 && IsPath(path) && IsParent(fs.table, path) == i
    requires Sending(fs, w, i, off, buf, writed, first) && (first || writed < |buf|)
    requires n == Min(|buf| - writed, PART_MAX)
    ensures WellFormed(w) && w.IsRegular(i) && LeadsToFile(w, path)
    ensures var part := buf[writed..writed + n];
      var (x, e) := Wrote(w, path, off + writed, part);
      if Affordable(fs, i, off, writed + n) then
        e == n && Sending(fs, x, i, off, buf, writed + n, false)
      else
        e == -EFBIG && x == w && StoppedAt(fs, w, i, off, buf, writed) && !Affordable(fs, i, off, |buf|)
  {
    hide WellFormed, Written, FileContent, FlatUpdate, OthersKeep, Affordable, IsParent, SameTree;
    if Affordable(fs, i, off, |buf|) {
      AffordLess(fs, i, off, writed + n, |buf|);
    }
    NextPart(fs, w, i, off, buf, writed, n);
    SameSlot(fs.table, w.table, path);
    WrittenSameTree(w, i, off + writed, buf[writed..writed + n]);
    SameTreeTrans(fs.table, w.table, Written(w, i, off + writed, buf[writed..writed + n]).0.table);
    if |buf| == 0 {
      assert buf[..0] == buf;
    }
  }

  lemma AffordLess(fs: Fs, i: int, off: nat, m: nat, n: nat)
    requires WellFormed(fs) && fs.IsRegular(i) && m <= n && off + n < 0x8000_0000 && Affordable(fs, i, off, n)
    ensures Affordable(fs, i, off, m)
  {
    hide WellFormed, Growth, Fs.FreeBlocks;
    GrowthSplits(fs, i, SizeFor(fs, i, off + m), SizeFor(fs, i, off + n));
  }

  lemma NotThere(fs: Fs, path: seq<byte>, off: u32, buf: seq<byte>)
    requires WellFormed(fs) && IsPath(path) && LeadsToFile(fs, path) && off + |buf| < 0x8000_0000
    ensures !fs.IsLive(IsParent(fs.table, path)) ==> Wrote(fs, path, off, buf) == (fs, -ENOENT)
  {
    hide WellFormed, Written, IsParent;
  }

  lemma SameTreeTrans(t: Table, u: Table, v: Table)
    requires SameTree(t, u) && SameTree(u, v)
    ensures SameTree(t, v)
  {
  }

  /**
   osada_write of the client against the server. If the whole write finds its blocks, the parts leave
   the very store one write leaves; otherwise exactly the parts before the failing one are stored.
   */
  method WriteFile(server: FsOsada, path: seq<byte>, buf: seq<byte>, offset: u32) returns (r: int)
    requires server.Valid() && Admissible(server.Model(), Request.Write(path, offset, buf))
    modifies server.bitmap, server.fat, server.fileTable, server.pokedex
    ensures server.Valid()
    ensures var fs, i := old(server.Model()), IsParent(old(server.Model()).table, path);
      if !fs.IsLive(i) then
        r == -ENOENT && server.Model() == fs
      else if Affordable(fs, i, offset, |buf|) then
        (server.Model(), r) == Written(fs, i, offset, buf) && r == |buf|
      else
        r == -EFBIG && exists k :: StoppedAt(fs, server.Model(), i, offset, buf, k)
  {
    hide WellFormed, FsOsada.Synced, FsOsada.Model, Forest, SlotsSafe, Written, Affordable;
    hide Sending, AfterParts, Wrote, IsParent, SameTree, StoppedAt;
    ghost var fs := server.Model();
    ghost var i := IsParent(fs.table, path);
    SendingStarts(fs, i, offset, buf);
    var writed := 0;
    var first := true;
    while first || writed < |buf|
      invariant writed <= |buf| && server.Valid()
      invariant if fs.IsLive(i) then Sending(fs, server.Model(), i, offset, buf, writed, first)
                else first && writed == 0 && server.Model() == fs
      decreases |buf| - writed, first
    {
      var n := if |buf| - writed < PART_MAX then |buf| - writed else PART_MAX;
      if fs.IsLive(i) {
        SendingGoesOn(fs, server.Model(), path, i, offset, buf, writed, first, n);
      } else {
        NotThere(fs, path, offset, buf[0..n]);
      }
      r := server.Write(path, offset + writed, buf[writed..writed + n]);
      if r < 0 {
        return r;
      }
      writed := writed + r;
      first := false;
    }
    r := writed;
    SendingEnds(fs, server.Model(), i, offset, buf, writed);
  }

  lemma SendingStarts(fs: Fs, i: int, off: nat, buf: seq<byte>)
    requires WellFormed(fs) && (fs.IsLive(i) ==> fs.IsRegular(i)) && off + |buf| < 0x8000_0000
    ensures fs.IsLive(i) ==> Sending(fs, fs, i, off, buf, 0, true)
  {
  }

  lemma SendingEnds(fs: Fs, w: Fs, i: int, off: nat, buf: seq<byte>, writed: nat)
    requires WellFormed(fs) && fs.IsRegular(i) && off + |buf| < 0x8000_0000
    requires Sending(fs, w, i, off, buf, writed, false) && writed >= |buf|
    ensures writed == |buf| && Written(fs, i, off, buf) == (w, |buf|) && Affordable(fs, i, off, |buf|)
  {
    hide WellFormed, Written, Affordable, FileContent, FlatUpdate, OthersKeep;
    assert buf[..|buf|] == buf;
    WrittenRefinesFlatFile(fs, i, off, buf);
  }
}

/** A slot of the file table is taken by a new file or directory, or given up. */
module Slots {
  import opened Words
  import opened Bitmap
  import opened Ownership
  import opened Osada
  import opened Store
  import opened Truncate
  import opened Contents
  import opened Files
  import Fat

  /** Entry e is put in slot i and block b is taken as the end of a chain. */
  ghost function Placed(fs: Fs, i: nat, e: OsadaFile, b: u32): (r: Fs)
    requires fs.Shape() && i < MAX_FILES && b < |fs.fat|
    ensures r.Shape()
  {
    fs.(
      bits := fs.bits[fs.geo.DataOffset() + b := true],
      fat := fs.fat[b := Fat.END],
      table := fs.table[i := e])
  }

  /** A new, empty regular file in slot i; it owns one block from the start. */
  ghost function NewFile(fs: Fs, i: nat, fname: Fname, parent: u16, now: u32): Fs
    requires Sound(fs) && i < MAX_FILES && fs.FreeBlocks() > 0
  {
    FreeCountPositive(fs.DataBits());
    var b := FirstFree(fs.DataBits());
    Placed(fs, i, OsadaFile(Regular, fname, parent, 0, now, b), b)
  }

  /** `bits` with the blocks of s freed, one after the other. */
  ghost function Cleared(bits: seq<bool>, skip: nat, s: seq<u32>): (r: seq<bool>)
    requires forall k :: 0 <= k < |s| ==> skip + s[k] < |bits|
    ensures |r| == |bits|
  {
    if |s| == 0 then bits
    else Cleared(bits, skip, s[..|s| - 1])[skip + s[|s| - 1] := false]
  }

  lemma {:induction false} ClearedIsClearAll(bits: seq<bool>, skip: nat, n: nat, s: seq<u32>)
    requires skip + n <= |bits| && forall k :: 0 <= k < |s| ==> s[k] < n
    ensures Cleared(bits, skip, s)[skip..skip + n] == ClearAll(bits[skip..skip + n], s)
    ensures forall p :: 0 <= p < skip ==> Cleared(bits, skip, s)[p] == bits[p]
  {
    if |s| > 0 {
      var k := |s| - 1;
      assert s == s[..k] + [s[k]];
      ClearedIsClearAll(bits, skip, n, s[..k]);
    }
  }

  /** The file in slot i is deleted and its blocks are freed; the links stay as they were. */
  ghost function DropFile(fs: Fs, i: int): Fs
    requires Sound(fs) && fs.IsRegular(i)
  {
    fs.(
      bits := Cleared(fs.bits, fs.geo.DataOffset(), fs.Blocks(i)),
      table := fs.table[i := fs.table[i].(state := Deleted)])
  }

  lemma SingleBlock(fat: seq<u32>, b: u32)
    requires b < |fat| <= Fat.END
    ensures Fat.Linked(fat[b := Fat.END], [b]) && Fat.Chain(fat[b := Fat.END], b) == [b]
  {
    Fat.ChainOfLinked(fat[b := Fat.END], [b]);
  }

  lemma NewFileShape(fs: Fs, i: int, fname: Fname, parent: u16, now: u32)
    requires Sound(fs) && 0 <= i < MAX_FILES && fs.table[i].state.Deleted? && fs.FreeBlocks() > 0
    ensures 0 <= FirstFree(fs.DataBits()) < |fs.DataBits()| == |fs.fat| <= Fat.END
    ensures !fs.DataBits()[FirstFree(fs.DataBits())]
    ensures var r := NewFile(fs, i, fname, parent, now);
      var b := FirstFree(fs.DataBits());
      && r.Shape()
      && r.DataBits() == fs.DataBits()[b := true]
      && r.fat == fs.fat[b := Fat.END]
      && r.Blocks(i) == Fat.Chain(r.fat, b)
      && forall j :: 0 <= j < |fs.table| && j != i ==> r.table[j] == fs.table[j]
  {
    FreeCountPositive(fs.DataBits());
    hide AllLinked, Owned, Fat.Chain;
  }

  lemma NewFileRelinks(fs: Fs, r: Fs, i: int, b: u32)
    requires AllLinked(fs) && |r.table| == |fs.table| && |r.fat| == |fs.fat|
    requires b < |fs.fat| && r.fat == fs.fat[b := Fat.END]
    requires forall j :: 0 <= j < |fs.table| && j != i ==> r.table[j] == fs.table[j]
    requires forall j :: 0 <= j < |fs.table| ==> b !in fs.Blocks(j)
    ensures Relinked(fs, r, i, [b])
  {
    hide AllLinked, Fat.Chain;
  }

  lemma FreedSlotOwnsNothing(fs: Fs, i: int)
    requires 0 <= i < |fs.table| && !fs.table[i].state.Regular?
    ensures fs.Chains()[i] == []
  {
  }

  lemma NewFileIsSound(fs: Fs, i: int, fname: Fname, parent: u16, now: u32)
    requires Sound(fs) && 0 <= i < MAX_FILES && fs.table[i].state.Deleted? && fs.FreeBlocks() > 0
    ensures var r := NewFile(fs, i, fname, parent, now);
      && Sound(r)
      && r.FreeBlocks() == fs.FreeBlocks() - 1
      && r.Chains() == fs.Chains()[i := r.Blocks(i)]
      && |r.Blocks(i)| == 1
  {
    NewFileShape(fs, i, fname, parent, now);
    SoundUnfold(fs);
    FreedSlotOwnsNothing(fs, i);
    var b := FirstFree(fs.DataBits());
    var r := NewFile(fs, i, fname, parent, now);
    assert |r.table| == |fs.table| && r.FreeBlocks() == FreeCount(r.DataBits()) && fs.FreeBlocks() == FreeCount(fs.DataBits());
    hide *;
    SingleBlock(fs.fat, b);
    FreeIsNobodys(fs, b);
    NewFileRelinks(fs, r, i, b);
    ChainsElsewhere(fs, r, i, [b]);
    FreeCountTake(fs.DataBits(), b);
    Gain(fs.Chains(), fs.DataBits(), i, b);
    assert [] + [b as u32] == [b as u32];
    SoundFold(r, fs.Chains()[i := [b]], fs.DataBits()[b := true]);
  }

  lemma DropFileBits(fs: Fs, i: int)
    requires Sound(fs) && fs.IsRegular(i)
    ensures DropFile(fs, i).Shape()
    ensures DropFile(fs, i).DataBits() == ClearAll(fs.DataBits(), fs.Blocks(i))
  {
    assert Fat.Linked(fs.fat, fs.Blocks(i));
    hide AllLinked, Owned, Fs.Chains, Fs.Blocks, Fat.Chain, Cleared, ClearAll;
    assert forall k :: 0 <= k < |fs.Blocks(i)| ==> fs.Blocks(i)[k] < |fs.fat|;
    hide Fat.Linked;
    ClearedIsClearAll(fs.bits, fs.geo.DataOffset(), fs.geo.dataBlocks, fs.Blocks(i));
  }

  lemma DropFileShape(fs: Fs, i: int)
    requires Sound(fs) && fs.IsRegular(i)
    ensures var r := DropFile(fs, i);
      && r.Blocks(i) == []
      && !r.IsRegular(i)
      && Relinked(fs, r, i, [])
    ensures fs.Chains()[i] == fs.Blocks(i) && 0 <= i < |fs.Chains()|
  {
    hide AllLinked, Owned, Fat.Chain, Cleared, Fs.DataBits;
  }

  lemma DropFileIsSound(fs: Fs, i: int)
    requires Sound(fs) && fs.IsRegular(i)
    ensures var r := DropFile(fs, i);
      && Sound(r)
      && r.FreeBlocks() == fs.FreeBlocks() + |fs.Blocks(i)|
      && r.Chains() == fs.Chains()[i := []]
  {
    DropFileBits(fs, i);
    DropFileShape(fs, i);
    SoundUnfold(fs);
    var r := DropFile(fs, i);
    assert 0 <= i < |fs.table| && r.geo == fs.geo;
    hide *;
    ChainsElsewhere(fs, r, i, []);
    LoseAll(fs.Chains(), fs.DataBits(), i);
    SoundFold(r, fs.Chains()[i := []], ClearAll(fs.DataBits(), fs.Blocks(i)));
    BlockConservation(fs);
    BlockConservation(r);
    TotalUpdate(fs.Chains(), i, []);
  }

  /** Slot i changed hands; every other file kept its entry, its chain and its bytes. */
  lemma OneSlotChanged(fs: Fs, r: Fs, i: int)
    requires WellFormed(fs) && Sound(r) && 0 <= i < |fs.table| && |r.table| == |fs.table|
    requires forall j :: 0 <= j < |fs.table| && j != i ==> r.table[j] == fs.table[j]
    requires r.data == fs.data && r.Chains() == fs.Chains()[i := r.Blocks(i)]
    requires SizedAt(r, i)
    ensures WellFormed(r) && OthersKeep(fs, r, i)
  {
    hide Sound, WellFormed, SizedAt, Fs.Blocks, FileContent;
    forall j | 0 <= j < |r.table|
      ensures SizedAt(r, j)
    {
      if j != i {
        SizedElsewhere(fs, r, j);
      }
    }
    SizedFold(r);
    forall j | fs.IsRegular(j) && j != i
      ensures r.IsRegular(j) && FileContent(r, j) == FileContent(fs, j)
    {
      SameChain(fs, r, j);
      ContentElsewhere(fs, r, j);
    }
  }

  lemma SameChain(fs: Fs, r: Fs, j: int)
    requires 0 <= j < |fs.table| == |r.table| && r.Chains()[j] == fs.Chains()[j]
    ensures r.Blocks(j) == fs.Blocks(j)
  {
    hide Fs.Blocks;
    assert r.Chains()[j] == r.Blocks(j) && fs.Chains()[j] == fs.Blocks(j);
  }

  /** A new file is empty and costs one block; the others keep their bytes. */
  lemma NewFileKeeps(fs: Fs, i: int, fname: Fname, parent: u16, now: u32)
    requires WellFormed(fs) && 0 <= i < MAX_FILES && fs.table[i].state.Deleted? && fs.FreeBlocks() > 0
    ensures var r := NewFile(fs, i, fname, parent, now);
      && WellFormed(r)
      && r.IsRegular(i)
      && FileContent(r, i) == []
      && OthersKeep(fs, r, i)
      && r.FreeBlocks() == fs.FreeBlocks() - 1
  {
    NewFileIsSound(fs, i, fname, parent, now);
    NewFileShape(fs, i, fname, parent, now);
    var r := NewFile(fs, i, fname, parent, now);
    hide Sound, Fs.Blocks, FileContent, OthersKeep, Fs.FreeBlocks, Fs.DataBits, Fs.Chains;
    assert SizedAt(r, i);
    OneSlotChanged(fs, r, i);
  }

  /** Deleting a file gives its blocks back; the others keep their bytes. */
  lemma DropFileKeeps(fs: Fs, i: int)
    requires WellFormed(fs) && fs.IsRegular(i)
    ensures var r := DropFile(fs, i);
      && WellFormed(r)
      && OthersKeep(fs, r, i)
      && r.FreeBlocks() == fs.FreeBlocks() + |fs.Blocks(i)|
  {
    DropFileIsSound(fs, i);
    DropFileShape(fs, i);
    var r := DropFile(fs, i);
    hide Sound, Fs.Blocks, FileContent, OthersKeep, Fs.FreeBlocks, Fs.DataBits, Fs.Chains, Cleared;
    OneSlotChanged(fs, r, i);
  }

  /** What directories, names, dates and locks do: no regular file's chain or size is touched. */
  ghost predicate SameFiles(fs: Fs, r: Fs) {
    && r.geo == fs.geo && r.bits == fs.bits && r.fat == fs.fat && r.data == fs.data
    && |r.table| == |fs.table| && |r.locks| == |fs.locks|
    && (forall j :: 0 <= j < |fs.table| ==>
        && (r.IsRegular(j) <==> fs.IsRegular(j))
        && (fs.IsRegular(j) ==>
            r.table[j].firstBlock == fs.table[j].firstBlock && r.table[j].fileSize == fs.table[j].fileSize))
  }

  lemma SameFilesKeep(fs: Fs, r: Fs)
    requires WellFormed(fs) && SameFiles(fs, r)
    ensures WellFormed(r) && r.FreeBlocks() == fs.FreeBlocks()
    ensures OthersKeep(fs, r, -1)
  {
    SameFilesShape(fs, r);
    SoundElsewhere(fs, r);
    hide Sound, Fs.Blocks, FileContent, BlocksFor;
    forall j | fs.IsRegular(j)
      ensures r.IsRegular(j) && FileContent(r, j) == FileContent(fs, j)
    {
      ContentElsewhere(fs, r, j);
    }
  }

  lemma SameFilesShape(fs: Fs, r: Fs)
    requires Sound(fs) && SameFiles(fs, r)
    ensures r.Shape()
  {
    hide AllLinked, Owned;
  }

  lemma NewFileUnfold(fs: Fs, i: nat, fname: Fname, parent: u16, now: u32)
    requires Sound(fs) && i < MAX_FILES
    ensures fs.Shape() && -1 <= FirstFree(fs.DataBits()) < |fs.fat|
    ensures FirstFree(fs.DataBits()) == -1 <==> fs.FreeBlocks() == 0
    ensures fs.FreeBlocks() > 0 ==>
      NewFile(fs, i, fname, parent, now)
      == Placed(fs, i, OsadaFile(Regular, fname, parent, 0, now, FirstFree(fs.DataBits())), FirstFree(fs.DataBits()))
  {
    FreeCountPositive(fs.DataBits());
    hide AllLinked, Owned, Placed, FreeCount;
  }

  lemma DropFileUnfold(fs: Fs, i: int)
    requires Sound(fs) && fs.IsRegular(i)
    ensures fs.Shape() && 0 <= i < |fs.table|
    ensures Fat.Linked(fs.fat, fs.Blocks(i)) && fs.Blocks(i) == Fat.Chain(fs.fat, fs.table[i].firstBlock)
    ensures forall k :: 0 <= k < |fs.Blocks(i)| ==>
      fs.Blocks(i)[k] < |fs.fat| && 0 <= fs.geo.DataOffset() + fs.Blocks(i)[k] < |fs.bits|
    ensures DropFile(fs, i) == fs.(
      bits := Cleared(fs.bits, fs.geo.DataOffset(), fs.Blocks(i)),
      table := fs.table[i := fs.table[i].(state := Deleted)])
  {
    assert Fat.Linked(fs.fat, fs.Blocks(i));
    hide Owned, Cleared, Fat.Chain;
  }
}

/** osada_ftruncate: one file changes size, block by block. */
module Truncate {
  import opened Words
  import opened Bitmap
  import opened Ownership
  import opened Osada
  import opened Store
  import Fat

  ghost predicate WellFormed(fs: Fs) {
    Sound(fs) && Sized(fs)
  }

  /** n blocks appended, one after the other. */
  ghost function AllocN(fs: Fs, i: int, n: nat): (r: Fs)
    requires Sound(fs) && fs.IsRegular(i) && n <= fs.FreeBlocks()
    ensures Sound(r) && r.IsRegular(i) && r.FreeBlocks() == fs.FreeBlocks() - n
  {
    if n == 0 then
      fs
    else
      var p := AllocN(fs, i, n - 1);
      AllocIsSound(p, i);
      Alloc(p, i)
  }

  /** n blocks cut off, the last one first. */
  ghost function FreeN(fs: Fs, i: int, n: nat): (r: Fs)
    requires Sound(fs) && fs.IsRegular(i) && n < |fs.Blocks(i)|
    ensures Sound(r) && r.IsRegular(i) && r.FreeBlocks() == fs.FreeBlocks() + n
    ensures |r.Blocks(i)| == |fs.Blocks(i)| - n
  {
    if n == 0 then
      fs
    else
      var p := FreeN(fs, i, n - 1);
      FreeLastIsSound(p, i);
      FreeLastOnly(p, i);
      FreeLast(p, i)
  }

  /** How a store may differ once the file in slot i has gained or lost blocks. */
  ghost predicate OnlyBlocksOf(fs: Fs, fs': Fs, i: int) {
    && fs' == fs.(bits := fs'.bits, fat := fs'.fat)
    && 0 <= i < |fs.table|
    && fs'.Chains() == fs.Chains()[i := fs'.Blocks(i)]
    && |fs'.bits| == |fs.bits|
    && (forall p :: 0 <= p < fs.geo.DataOffset() && p < |fs.bits| ==> fs'.bits[p] == fs.bits[p])
  }

  lemma OnlyBlocksRefl(fs: Fs, i: int)
    requires fs.IsRegular(i)
    ensures OnlyBlocksOf(fs, fs, i)
  {
    assert fs.Chains()[i] == fs.Blocks(i);
  }

  lemma OnlyBlocksTrans(fs: Fs, p: Fs, q: Fs, i: int)
    requires OnlyBlocksOf(fs, p, i) && OnlyBlocksOf(p, q, i)
    ensures OnlyBlocksOf(fs, q, i)
  {
    hide Fat.Chain;
  }

  lemma AllocOnly(fs: Fs, i: int)
    requires Sound(fs) && fs.IsRegular(i) && fs.FreeBlocks() > 0
    ensures FirstFree(fs.DataBits()) >= 0
    ensures OnlyBlocksOf(fs, Alloc(fs, i), i)
    ensures Alloc(fs, i).Blocks(i) == fs.Blocks(i) + [FirstFree(fs.DataBits())]
  {
    hide Fat.Chain, Fat.Linked, Owned, FreeCount, FirstFree;
    AllocChains(fs, i);
    assert Alloc(fs, i).Chains()[i] == Alloc(fs, i).Blocks(i);
  }

  lemma FreeLastOnly(fs: Fs, i: int)
    requires Sound(fs) && fs.IsRegular(i) && |fs.Blocks(i)| >= 2
    ensures OnlyBlocksOf(fs, FreeLast(fs, i), i)
    ensures FreeLast(fs, i).Blocks(i) == fs.Blocks(i)[..|fs.Blocks(i)| - 1]
  {
    hide Fat.Chain, Owned, FreeCount, FirstFree;
    FreeLastChains(fs, i);
    assert FreeLast(fs, i).Chains()[i] == FreeLast(fs, i).Blocks(i);
  }

  lemma PrefixTrans(a: seq<u32>, b: seq<u32>, c: seq<u32>)
    requires a <= b && b <= c
    ensures a <= c
  {
  }

  lemma AllocNUnfold(fs: Fs, i: int, n: nat)
    requires Sound(fs) && fs.IsRegular(i) && n <= fs.FreeBlocks()
    ensures AllocN(fs, i, n) == if n == 0 then fs else Alloc(AllocN(fs, i, n - 1), i)
  {
    hide Sound, Alloc;
  }

  lemma FreeNUnfold(fs: Fs, i: int, n: nat)
    requires Sound(fs) && fs.IsRegular(i) && n < |fs.Blocks(i)|
    ensures FreeN(fs, i, n) == if n == 0 then fs else FreeLast(FreeN(fs, i, n - 1), i)
  {
    hide Sound, FreeLast;
  }

  /** Appending n blocks lengthens this file's chain by n at its end and touches no other file. */
  lemma {:induction false} AllocNOnly(fs: Fs, i: int, n: nat)
    requires Sound(fs) && fs.IsRegular(i) && n <= fs.FreeBlocks()
    ensures OnlyBlocksOf(fs, AllocN(fs, i, n), i)
    ensures fs.Blocks(i) <= AllocN(fs, i, n).Blocks(i)
    ensures |AllocN(fs, i, n).Blocks(i)| == |fs.Blocks(i)| + n
  {
    hide *;
    AllocNUnfold(fs, i, n);
    if n == 0 {
      OnlyBlocksRefl(fs, i);
    } else {
      var p := AllocN(fs, i, n - 1);
      AllocNOnly(fs, i, n - 1);
      AllocOnly(p, i);
      OnlyBlocksTrans(fs, p, Alloc(p, i), i);
      PrefixTrans(fs.Blocks(i), p.Blocks(i), Alloc(p, i).Blocks(i));
    }
  }

  /** Cutting n blocks off leaves the first ones of this file's chain and touches no other file. */
  lemma {:induction false} FreeNOnly(fs: Fs, i: int, n: nat)
    requires Sound(fs) && fs.IsRegular(i) && n < |fs.Blocks(i)|
    ensures OnlyBlocksOf(fs, FreeN(fs, i, n), i)
    ensures FreeN(fs, i, n).Blocks(i) <= fs.Blocks(i)
  {
    hide *;
    FreeNUnfold(fs, i, n);
    if n == 0 {
      OnlyBlocksRefl(fs, i);
    } else {
      var p := FreeN(fs, i, n - 1);
      FreeNOnly(fs, i, n - 1);
      FreeLastOnly(p, i);
      OnlyBlocksTrans(fs, p, FreeLast(p, i), i);
      PrefixTrans(FreeLast(p, i).Blocks(i), p.Blocks(i), fs.Blocks(i));
    }
  }

  lemma {:induction false} AllocNAdds(fs: Fs, i: int, m: nat, n: nat)
    requires Sound(fs) && fs.IsRegular(i) && m + n <= fs.FreeBlocks()
    ensures AllocN(AllocN(fs, i, m), i, n) == AllocN(fs, i, m + n)
  {
    hide *;
    AllocNUnfold(AllocN(fs, i, m), i, n);
    AllocNUnfold(fs, i, m + n);
    if n > 0 {
      AllocNAdds(fs, i, m, n - 1);
    }
  }

  ghost function SetSize(fs: Fs, i: int, size: u32): Fs
    requires 0 <= i < |fs.table|
  {
    fs.(table := fs.table[i := fs.table[i].(fileSize := size)])
  }

  /** The file in slot i gains or loses |growth| blocks. */
  ghost function Reblocked(fs: Fs, i: int, growth: int): (r: Fs)
    requires Sound(fs) && fs.IsRegular(i) && -|fs.Blocks(i)| < growth <= fs.FreeBlocks()
    ensures Sound(r) && r.IsRegular(i) && r.FreeBlocks() == fs.FreeBlocks() - growth
  {
    if growth >= 0 then AllocN(fs, i, growth) else FreeN(fs, i, -growth)
  }

  lemma ReblockedOnly(fs: Fs, i: int, growth: int)
    requires Sound(fs) && fs.IsRegular(i) && -|fs.Blocks(i)| < growth <= fs.FreeBlocks()
    ensures OnlyBlocksOf(fs, Reblocked(fs, i, growth), i)
    ensures |Reblocked(fs, i, growth).Blocks(i)| == |fs.Blocks(i)| + growth
    ensures OnePrefix(fs.Blocks(i), Reblocked(fs, i, growth).Blocks(i))
  {
    hide AllocN, FreeN, Sound, OnlyBlocksOf, Fs.Blocks, Fs.FreeBlocks, Fs.IsRegular;
    if growth >= 0 {
      AllocNOnly(fs, i, growth);
    } else {
      FreeNOnly(fs, i, -growth);
    }
  }

  ghost predicate OnePrefix(s: seq<u32>, t: seq<u32>) {
    if |s| <= |t| then s <= t else t <= s
  }

  /** The blocks a resize adds; negative when it removes some. */
  ghost function Growth(fs: Fs, i: int, size: u32): int
    requires fs.IsRegular(i)
  {
    BlocksFor(size) - BlocksFor(fs.table[i].fileSize)
  }

  /** The store and the return code once the file in slot i is asked to have `size` bytes. */
  ghost function Resized(fs: Fs, i: int, size: u32): (Fs, int)
    requires WellFormed(fs) && fs.IsRegular(i)
  {
    GrowthBound(fs, i, size);
    if size == fs.table[i].fileSize then
      (fs, 0)
    else if Growth(fs, i, size) > fs.FreeBlocks() then
      (fs, -EFBIG)
    else
      (SetSize(Reblocked(fs, i, Growth(fs, i, size)), i, size), 0)
  }

  lemma SetSizeIsSound(fs: Fs, i: int, size: u32)
    requires Sound(fs) && fs.IsRegular(i)
    ensures Sound(SetSize(fs, i, size)) && SetSize(fs, i, size).FreeBlocks() == fs.FreeBlocks()
    ensures SetSize(fs, i, size).Chains() == fs.Chains()
    ensures forall j :: SetSize(fs, i, size).Blocks(j) == fs.Blocks(j)
  {
    hide Sound;
    SetSizeShape(fs, i, size);
    SoundElsewhere(fs, SetSize(fs, i, size));
  }

  lemma SetSizeShape(fs: Fs, i: int, size: u32)
    requires Sound(fs) && fs.IsRegular(i)
    ensures SetSize(fs, i, size).Shape()
  {
  }

  ghost predicate SizedAt(fs: Fs, j: int) {
    fs.IsRegular(j) ==> |fs.Blocks(j)| == BlocksFor(fs.table[j].fileSize)
  }

  lemma SizedIffAll(fs: Fs)
    ensures Sized(fs) <==> forall j :: 0 <= j < |fs.table| ==> SizedAt(fs, j)
  {
    hide Fs.Blocks, BlocksFor;
    if Sized(fs) {
      forall j | 0 <= j < |fs.table|
        ensures SizedAt(fs, j)
      {
      }
    }
    if forall j :: 0 <= j < |fs.table| ==> SizedAt(fs, j) {
      forall j | fs.IsRegular(j)
        ensures |fs.Blocks(j)| == BlocksFor(fs.table[j].fileSize)
      {
        assert SizedAt(fs, j);
      }
    }
  }

  lemma SizedFold(fs: Fs)
    requires Sound(fs) && forall j :: 0 <= j < |fs.table| ==> SizedAt(fs, j)
    ensures WellFormed(fs)
  {
    hide Sound, BlocksFor, Fs.Blocks;
    forall j | fs.IsRegular(j)
      ensures |fs.Blocks(j)| == BlocksFor(fs.table[j].fileSize)
    {
      assert SizedAt(fs, j);
    }
  }

  lemma SizedElsewhere(fs: Fs, r: Fs, j: int)
    requires WellFormed(fs) && 0 <= j < |fs.table| == |r.table| && r.table[j] == fs.table[j]
    requires r.Chains()[j] == fs.Chains()[j]
    ensures SizedAt(r, j)
  {
    hide Sound, BlocksFor, Fat.Chain;
    assert r.Chains()[j] == r.Blocks(j) && fs.Chains()[j] == fs.Blocks(j);
  }

  /** Setting the size that fits the chain restores the audit of check_state. */
  lemma SetSizeIsSized(fs: Fs, g: Fs, i: int, size: u32)
    requires WellFormed(fs) && fs.IsRegular(i) && Sound(g) && OnlyBlocksOf(fs, g, i)
    requires |g.Blocks(i)| == BlocksFor(size)
    ensures WellFormed(SetSize(g, i, size))
  {
    SetSizeIsSound(g, i, size);
    var r := SetSize(g, i, size);
    hide Sound, WellFormed, BlocksFor, Fs.Blocks, Fs.Chains;
    assert SizedAt(r, i);
    forall j | 0 <= j < |r.table|
      ensures SizedAt(r, j)
    {
      if j != i {
        SizedElsewhere(fs, r, j);
      }
    }
    SizedFold(r);
  }

  /** How a resize that succeeds may change the store. */
  ghost predicate OnlySizeOf(fs: Fs, r: Fs, i: int, size: u32) {
    && 0 <= i < |fs.table|
    && r == SetSize(fs, i, size).(bits := r.bits, fat := r.fat)
    && r.Chains() == fs.Chains()[i := r.Blocks(i)]
    && |r.bits| == |fs.bits|
    && (forall p :: 0 <= p < fs.geo.DataOffset() && p < |fs.bits| ==> r.bits[p] == fs.bits[p])
  }

  lemma OnlyBlocksThenSize(fs: Fs, g: Fs, i: int, size: u32)
    requires Sound(g) && g.IsRegular(i) && OnlyBlocksOf(fs, g, i)
    ensures OnlySizeOf(fs, SetSize(g, i, size), i, size)
  {
    SetSizeIsSound(g, i, size);
  }

  lemma GrowthBound(fs: Fs, i: int, size: u32)
    requires WellFormed(fs) && fs.IsRegular(i)
    ensures |fs.Blocks(i)| + Growth(fs, i, size) == BlocksFor(size) >= 1
  {
    hide Sound, Fat.Chain;
  }

  lemma ResizedUnfold(fs: Fs, i: int, size: u32)
    requires WellFormed(fs) && fs.IsRegular(i)
    ensures -|fs.Blocks(i)| < Growth(fs, i, size)
    ensures Resized(fs, i, size)
         == if size == fs.table[i].fileSize then (fs, 0)
            else if Growth(fs, i, size) > fs.FreeBlocks() then (fs, -EFBIG)
            else (SetSize(Reblocked(fs, i, Growth(fs, i, size)), i, size), 0)
  {
    GrowthBound(fs, i, size);
    hide WellFormed, Growth, Reblocked, Fs.Blocks, SetSize, Fs.FreeBlocks, Fs.IsRegular;
  }

  /**
   All or nothing: when the growth exceeds the free blocks the answer is -EFBIG and nothing
   changes; otherwise the file has the size asked for, with exactly the blocks it needs.
   */
  lemma ResizedAllOrNothing(fs: Fs, i: int, size: u32)
    requires WellFormed(fs) && fs.IsRegular(i)
    ensures WellFormed(Resized(fs, i, size).0)
    ensures Growth(fs, i, size) > fs.FreeBlocks() ==> Resized(fs, i, size) == (fs, -EFBIG)
    ensures Growth(fs, i, size) <= fs.FreeBlocks() ==>
      var (r, e) := Resized(fs, i, size);
      && e == 0
      && OnlySizeOf(fs, r, i, size)
      && r.FreeBlocks() == fs.FreeBlocks() - Growth(fs, i, size)
      && |r.Blocks(i)| == |fs.Blocks(i)| + Growth(fs, i, size)
      && OnePrefix(fs.Blocks(i), r.Blocks(i))
  {
    GrowthBound(fs, i, size);
    ResizedUnfold(fs, i, size);
    WellFormedIsSound(fs);
    ResizedToSame(fs, i, size);
    hide *;
    var growth := Growth(fs, i, size);
    if growth <= fs.FreeBlocks() && size != fs.table[i].fileSize {
      var g := Reblocked(fs, i, growth);
      ReblockedOnly(fs, i, growth);
      SetSizeIsSized(fs, g, i, size);
      SetSizeIsSound(g, i, size);
      OnlyBlocksThenSize(fs, g, i, size);
    }
  }

  lemma WellFormedIsSound(fs: Fs)
    requires WellFormed(fs)
    ensures Sound(fs)
  {
  }

  lemma ResizedToSame(fs: Fs, i: int, size: u32)
    requires WellFormed(fs) && fs.IsRegular(i)
    ensures size == fs.table[i].fileSize ==>
      OnlySizeOf(fs, fs, i, size) && Growth(fs, i, size) == 0 && OnePrefix(fs.Blocks(i), fs.Blocks(i))
  {
    hide Fat.Chain, Owned;
    assert fs.Chains()[i] == fs.Blocks(i);
    assert size == fs.table[i].fileSize ==> SetSize(fs, i, size) == fs;
  }

  lemma GrowthUnfold(fs: Fs, i: int, size: u32)
    requires WellFormed(fs) && fs.IsRegular(i)
    ensures 0 <= i < |fs.table|
    ensures Growth(fs, i, size) == BlocksFor(size) - BlocksFor(fs.table[i].fileSize) > -|fs.Blocks(i)|
  {
    GrowthBound(fs, i, size);
    hide WellFormed, BlocksFor;
  }

  lemma ReblockedUnfold(fs: Fs, i: int, growth: int)
    requires Sound(fs) && fs.IsRegular(i) && -|fs.Blocks(i)| < growth <= fs.FreeBlocks()
    ensures growth >= 0 ==> Reblocked(fs, i, growth) == AllocN(fs, i, growth)
    ensures growth == 0 ==> Reblocked(fs, i, growth) == fs
    ensures growth < 0 ==> Reblocked(fs, i, growth) == FreeN(fs, i, -growth)
  {
    hide Sound, Fs.Blocks, Fs.FreeBlocks, Fs.IsRegular, FreeN;
  }

  lemma SetSizeUnfold(fs: Fs, i: int, size: u32)
    requires 0 <= i < |fs.table|
    ensures SetSize(fs, i, size) == fs.(table := fs.table[i := fs.table[i].(fileSize := size)])
  {
  }
}

/** Which blocks belong to which file, and how files gain and lose them. */
module Store {
  import opened Words
  import opened Fat
  import opened Bitmap
  import opened Ownership
  import opened Osada

  /**
   Every regular file has a complete chain, no block is in two chains, and a
   data bit is set exactly for the blocks of some chain.
   */
  ghost predicate Sound(fs: Fs) {
    && fs.Shape()
    && AllLinked(fs)
    && Owned(fs.Chains(), fs.DataBits())
  }

  ghost predicate AllLinked(fs: Fs) {
    forall i :: fs.IsRegular(i) ==> Linked(fs.fat, fs.Blocks(i))
  }

  lemma SoundUnfold(fs: Fs)
    requires Sound(fs)
    ensures fs.Shape() && AllLinked(fs) && Owned(fs.Chains(), fs.DataBits())
    ensures |fs.table| == MAX_FILES && |fs.fat| == fs.geo.dataBlocks == |fs.DataBits()|
  {
    hide AllLinked, Owned, Fs.Chains;
  }

  lemma SoundFold(fs: Fs, own: seq<seq<u32>>, used: seq<bool>)
    requires fs.Shape() && AllLinked(fs) && Owned(own, used) && fs.Chains() == own && fs.DataBits() == used
    ensures Sound(fs)
  {
    hide AllLinked, Owned, Fs.Chains;
  }

  /** What check_state audits: each chain is as long as the file's size asks for. */
  ghost predicate Sized(fs: Fs) {
    forall i :: fs.IsRegular(i) ==> |fs.Blocks(i)| == BlocksFor(fs.table[i].fileSize)
  }

  /** In a sound store, free blocks and the blocks of live files are all the data blocks. */
  lemma BlockConservation(fs: Fs)
    requires Sound(fs)
    ensures fs.FreeBlocks() + Total(fs.Chains()) == fs.geo.dataBlocks
  {
    forall i | 0 <= i < |fs.Chains()|
      ensures Distinct(fs.Chains()[i])
    {
      if fs.IsRegular(i) {
        LinkedIsAcyclic(fs.fat, fs.Blocks(i));
      }
    }
    Conservation(fs.Chains(), fs.DataBits());
  }

  /** Block b is taken and linked behind block `last`. */
  ghost function Attach(fs: Fs, last: u32, b: u32): (r: Fs)
    requires fs.Shape() && last < |fs.fat| && b < |fs.fat|
    ensures r.Shape()
  {
    fs.(bits := fs.bits[fs.geo.DataOffset() + b := true], fat := fs.fat[last := b][b := END])
  }

  /** Block `last` is freed and block `prev` ends its chain. */
  ghost function Detach(fs: Fs, prev: u32, last: u32): (r: Fs)
    requires fs.Shape() && prev < |fs.fat| && last < |fs.fat|
    ensures r.Shape()
  {
    fs.(bits := fs.bits[fs.geo.DataOffset() + last := false], fat := fs.fat[prev := END])
  }

  /** Append the lowest free block to the file in slot i. */
  ghost function Alloc(fs: Fs, i: int): Fs
    requires Sound(fs) && fs.IsRegular(i) && fs.FreeBlocks() > 0
  {
    FreeCountPositive(fs.DataBits());
    var c := fs.Blocks(i);
    Attach(fs, c[|c| - 1], FirstFree(fs.DataBits()))
  }

  /** Cut the last block off the file in slot i. */
  ghost function FreeLast(fs: Fs, i: int): Fs
    requires Sound(fs) && fs.IsRegular(i) && |fs.Blocks(i)| >= 2
  {
    var c := fs.Blocks(i);
    Detach(fs, c[|c| - 2], c[|c| - 1])
  }

  /** A file whose blocks keep their links keeps its blocks. */
  lemma BlocksElsewhere(fs: Fs, fs': Fs, j: int)
    requires fs.IsRegular(j) && Linked(fs.fat, fs.Blocks(j))
    requires fs'.IsRegular(j) && fs'.table[j].firstBlock == fs.table[j].firstBlock && |fs'.fat| == |fs.fat|
    requires forall b :: b in fs.Blocks(j) ==> fs'.fat[b] == fs.fat[b]
    ensures fs'.Blocks(j) == fs.Blocks(j) && Linked(fs'.fat, fs'.Blocks(j))
  {
    LinkedElsewhere(fs.fat, fs'.fat, fs.Blocks(j));
  }

  /** Only the links of `touched` differ, and slot i is the only one that owns any of those. */
  ghost predicate Relinked(fs: Fs, fs': Fs, i: int, touched: seq<u32>) {
    && |fs'.table| == |fs.table|
    && |fs'.fat| == |fs.fat|
    && (forall j :: 0 <= j < |fs.table| && j != i ==> fs'.table[j] == fs.table[j])
    && AllLinked(fs)
    && (forall j :: 0 <= j < |fs.table| && j != i ==> Apart(fs.Blocks(j), touched))
    && (forall b: u32 :: b < |fs.fat| && b !in touched ==> fs'.fat[b] == fs.fat[b])
  }

  /** Relinking one file leaves the chains of all others alone. */
  lemma ChainsElsewhere(fs: Fs, fs': Fs, i: int, touched: seq<u32>)
    requires 0 <= i < |fs.table| && Relinked(fs, fs', i, touched)
    ensures fs'.Chains() == fs.Chains()[i := fs'.Blocks(i)]
    ensures (fs'.IsRegular(i) ==> Linked(fs'.fat, fs'.Blocks(i))) ==> AllLinked(fs')
  {
    forall j | 0 <= j < |fs.table| && j != i
      ensures fs'.Blocks(j) == fs.Blocks(j) && (fs'.IsRegular(j) ==> Linked(fs'.fat, fs'.Blocks(j)))
    {
      if fs.IsRegular(j) {
        BlocksElsewhere(fs, fs', j);
      }
    }
  }

  lemma FreeIsNobodys(fs: Fs, b: u32)
    requires Sound(fs) && b < fs.geo.dataBlocks && !fs.DataBits()[b]
    ensures forall j :: 0 <= j < |fs.table| ==> b !in fs.Blocks(j)
  {
    forall j | 0 <= j < |fs.table|
      ensures b !in fs.Blocks(j)
    {
      assert fs.Chains()[j] == fs.Blocks(j);
    }
  }

  lemma BlocksApart(fs: Fs, i: int)
    requires Sound(fs) && 0 <= i < |fs.table|
    ensures forall j :: 0 <= j < |fs.table| && j != i ==> Apart(fs.Blocks(j), fs.Blocks(i))
  {
    forall j | 0 <= j < |fs.table| && j != i
      ensures Apart(fs.Blocks(j), fs.Blocks(i))
    {
      assert Apart(fs.Chains()[j], fs.Chains()[i]);
    }
  }

  lemma AllocUnfold(fs: Fs, i: int)
    requires Sound(fs) && fs.IsRegular(i) && fs.FreeBlocks() > 0
    ensures var b := FirstFree(fs.DataBits());
      var c := fs.Blocks(i);
      && 0 <= b < |fs.fat| == |fs.DataBits()| && !fs.DataBits()[b]
      && Linked(fs.fat, c) && |c| > 0 && c[|c| - 1] < |fs.fat|
      && fs.Shape()
      && Alloc(fs, i) == Attach(fs, c[|c| - 1], b)
  {
    FreeCountPositive(fs.DataBits());
    hide Owned, Chain, FreeCount, FirstFree;
  }

  /** Linking b after the last block of c changes the links of those blocks only. */
  lemma AppendRelinks(fs: Fs, fs': Fs, i: int, c: seq<u32>, b: u32)
    requires AllLinked(fs) && fs'.table == fs.table && b < |fs.fat| && |c| > 0 && c[|c| - 1] < |fs.fat|
    requires fs'.fat == fs.fat[c[|c| - 1] := b][b := END]
    requires forall j :: 0 <= j < |fs.table| ==> b !in fs.Blocks(j)
    requires forall j :: 0 <= j < |fs.table| && j != i ==> Apart(fs.Blocks(j), c)
    ensures Relinked(fs, fs', i, c + [b])
  {
    hide AllLinked, Chain;
    assert c[|c| - 1] in c + [b];
  }

  lemma AllocRelinks(fs: Fs, i: int)
    requires Sound(fs) && fs.IsRegular(i) && fs.FreeBlocks() > 0
    ensures FirstFree(fs.DataBits()) >= 0
    ensures Relinked(fs, Alloc(fs, i), i, fs.Blocks(i) + [FirstFree(fs.DataBits())])
    ensures FirstFree(fs.DataBits()) !in fs.Blocks(i)
  {
    assert 0 <= i < |fs.table|;
    AllocUnfold(fs, i);
    SoundUnfold(fs);
    hide *;
    FreeIsNobodys(fs, FirstFree(fs.DataBits()));
    BlocksApart(fs, i);
    AppendRelinks(fs, Alloc(fs, i), i, fs.Blocks(i), FirstFree(fs.DataBits()));
  }

  lemma AllocChains(fs: Fs, i: int)
    requires Sound(fs) && fs.IsRegular(i) && fs.FreeBlocks() > 0
    ensures FirstFree(fs.DataBits()) >= 0
    ensures Alloc(fs, i).Chains() == fs.Chains()[i := fs.Blocks(i) + [FirstFree(fs.DataBits())]]
    ensures AllLinked(Alloc(fs, i))
  {
    AllocRelinks(fs, i);
    var b := FirstFree(fs.DataBits());
    var fs' := Alloc(fs, i);
    assert fs'.Blocks(i) == fs.Blocks(i) + [b] && Linked(fs'.fat, fs'.Blocks(i)) by {
      LinkedAppend(fs.fat, fs.Blocks(i), b);
    }
    ChainsElsewhere(fs, fs', i, fs.Blocks(i) + [b]);
  }

  /** Allocation keeps the store sound and takes exactly one free block. */
  lemma AllocIsSound(fs: Fs, i: int)
    requires Sound(fs) && fs.IsRegular(i) && fs.FreeBlocks() > 0
    ensures Sound(Alloc(fs, i))
    ensures Alloc(fs, i).FreeBlocks() == fs.FreeBlocks() - 1
  {
    AllocChains(fs, i);
    var b := FirstFree(fs.DataBits());
    assert Alloc(fs, i).DataBits() == fs.DataBits()[b := true];
    FreeCountTake(fs.DataBits(), b);
    Gain(fs.Chains(), fs.DataBits(), i, b);
  }

  lemma FreeLastUnfold(fs: Fs, i: int)
    requires Sound(fs) && fs.IsRegular(i) && |fs.Blocks(i)| >= 2
    ensures var c := fs.Blocks(i);
      && 0 <= i < |fs.table|
      && Linked(fs.fat, c)
      && c == Chain(fs.fat, fs.table[i].firstBlock)
      && c[0] == fs.table[i].firstBlock && c[0] != c[|c| - 1]
      && FreeLast(fs, i).Blocks(i) == Chain(fs.fat[c[|c| - 2] := END], c[0])
      && fs.Shape()
      && FreeLast(fs, i) == Detach(fs, c[|c| - 2], c[|c| - 1])
  {
    LinkedPlacesDiffer(fs.fat, fs.Blocks(i), 0, |fs.Blocks(i)| - 1);
    hide Owned;
  }

  lemma CutRelinks(fs: Fs, fs': Fs, i: int, c: seq<u32>)
    requires AllLinked(fs) && fs'.table == fs.table && |c| >= 2 && Linked(fs.fat, c)
    requires fs'.fat == fs.fat[c[|c| - 2] := END]
    requires forall j :: 0 <= j < |fs.table| && j != i ==> Apart(fs.Blocks(j), c)
    ensures Relinked(fs, fs', i, c)
  {
    hide AllLinked, Chain;
    assert c[|c| - 2] in c;
  }

  lemma FreeLastChains(fs: Fs, i: int)
    requires Sound(fs) && fs.IsRegular(i) && |fs.Blocks(i)| >= 2
    ensures FreeLast(fs, i).Chains() == fs.Chains()[i := fs.Blocks(i)[..|fs.Blocks(i)| - 1]]
    ensures AllLinked(FreeLast(fs, i))
  {
    FreeLastUnfold(fs, i);
    SoundUnfold(fs);
    hide *;
    LinkedDropLast(fs.fat, fs.Blocks(i));
    BlocksApart(fs, i);
    CutRelinks(fs, FreeLast(fs, i), i, fs.Blocks(i));
    ChainsElsewhere(fs, FreeLast(fs, i), i, fs.Blocks(i));
  }

  /** Freeing the last block keeps the store sound and gives exactly one block back. */
  lemma FreeLastIsSound(fs: Fs, i: int)
    requires Sound(fs) && fs.IsRegular(i) && |fs.Blocks(i)| >= 2
    ensures Sound(FreeLast(fs, i))
    ensures FreeLast(fs, i).FreeBlocks() == fs.FreeBlocks() + 1
  {
    hide Owned, Chain, FreeCount;
    var c := fs.Blocks(i);
    var b := c[|c| - 1];
    var own, used := fs.Chains(), fs.DataBits();
    FreeLastChains(fs, i);
    LinkedIsAcyclic(fs.fat, c);
    assert own[i] == c;
    LoseLast(own, used, i);
    assert FreeLast(fs, i).DataBits() == used[b := false];
    OwnedIsUsed(own, used, i, b);
    FreeCountTake(used[b := false], b);
    assert used[b := false][b := true] == used;
  }

  /** Soundness is about bits, links and first blocks only. */
  lemma SoundElsewhere(fs: Fs, fs': Fs)
    requires Sound(fs) && fs'.Shape() && fs'.geo == fs.geo && fs'.bits == fs.bits && fs'.fat == fs.fat
    requires forall j :: 0 <= j < |fs.table| ==>
      (fs'.IsRegular(j) <==> fs.IsRegular(j))
      && (fs.IsRegular(j) ==> fs'.table[j].firstBlock == fs.table[j].firstBlock)
    ensures Sound(fs') && fs'.Chains() == fs.Chains() && fs'.FreeBlocks() == fs.FreeBlocks()
    ensures forall j :: fs'.Blocks(j) == fs.Blocks(j)
  {
    hide Fat.Chain, Fat.Linked, Owned;
    assert fs'.Chains() == fs.Chains();
  }
}

/** A write sent in parts leaves the same store as one write of the whole buffer. */
module Split {
  import opened Words
  import opened Bitmap
  import opened Osada
  import opened Store
  import opened Truncate
  import opened Contents
  import opened Files
  import Ownership
  import Fat

  /** The store with another size of file i and other data: nothing that allocation looks at. */
  ghost function Painted(fs: Fs, i: int, size: u32, data: seq<byte>): Fs
    requires 0 <= i < |fs.table|
  {
    SetSize(fs, i, size).(data := data)
  }

  lemma PaintedIsSound(fs: Fs, i: int, size: u32, data: seq<byte>)
    requires Sound(fs) && fs.IsRegular(i) && |data| == |fs.data|
    ensures var p := Painted(fs, i, size, data);
      && Sound(p) && p.IsRegular(i)
      && p.Shape() && fs.Shape() && p.DataBits() == fs.DataBits()
      && p.FreeBlocks() == fs.FreeBlocks()
      && p.Blocks(i) == fs.Blocks(i)
  {
    hide Sound, AllLinked, Ownership.Owned, Fat.Chain;
    SetSizeIsSound(fs, i, size);
    PaintedShape(fs, i, size, data);
    SoundElsewhere(SetSize(fs, i, size), Painted(fs, i, size, data));
  }

  lemma PaintedShape(fs: Fs, i: int, size: u32, data: seq<byte>)
    requires Sound(fs) && fs.IsRegular(i) && |data| == |fs.data|
    ensures var p := Painted(fs, i, size, data); p.Shape() && fs.Shape() && p.DataBits() == fs.DataBits()
  {
    hide AllLinked, Ownership.Owned;
  }

  /** Allocation does not look at sizes or data. */
  lemma AllocPainted(fs: Fs, i: int, size: u32, data: seq<byte>)
    requires Sound(fs) && fs.IsRegular(i) && fs.FreeBlocks() > 0 && |data| == |fs.data|
    ensures var p := Painted(fs, i, size, data);
      && Sound(p) && p.IsRegular(i) && p.FreeBlocks() > 0
      && 0 <= i < |Alloc(fs, i).table| && |data| == |Alloc(fs, i).data|
      && Alloc(p, i) == Painted(Alloc(fs, i), i, size, data)
  {
    hide Sound, Fs.Blocks, Fs.FreeBlocks, Fs.DataBits, Fs.Shape, Fat.Linked, FirstFree, Alloc;
    PaintedIsSound(fs, i, size, data);
    AllocUnfold(fs, i);
    AllocUnfold(Painted(fs, i, size, data), i);
  }

  lemma {:induction false} AllocNPainted(fs: Fs, i: int, size: u32, data: seq<byte>, n: nat)
    requires Sound(fs) && fs.IsRegular(i) && n <= fs.FreeBlocks() && |data| == |fs.data|
    ensures var p := Painted(fs, i, size, data);
      && Sound(p) && p.IsRegular(i) && n <= p.FreeBlocks()
      && 0 <= i < |AllocN(fs, i, n).table| && |data| == |AllocN(fs, i, n).data|
      && AllocN(p, i, n) == Painted(AllocN(fs, i, n), i, size, data)
  {
    hide *;
    RegularInRange(fs, i);
    PaintedIsSound(fs, i, size, data);
    var p := Painted(fs, i, size, data);
    AllocNUnfold(fs, i, n);
    AllocNUnfold(p, i, n);
    if n > 0 {
      AllocNPainted(fs, i, size, data, n - 1);
      AllocPainted(AllocN(fs, i, n - 1), i, size, data);
    }
  }

  lemma RegularInRange(fs: Fs, i: int)
    requires fs.IsRegular(i)
    ensures 0 <= i < |fs.table|
  {
  }

  lemma PaintTwice(fs: Fs, i: int, s: u32, t: u32, data: seq<byte>)
    requires 0 <= i < |fs.table|
    ensures SetSize(Painted(fs, i, s, data), i, t) == Painted(fs, i, t, data)
  {
  }

  lemma BlocksForMonotone(a: u32, b: u32)
    requires a <= b
    ensures BlocksFor(a) <= BlocksFor(b)
  {
  }

  lemma SetSizeToSame(fs: Fs, i: int)
    requires 0 <= i < |fs.table|
    ensures SetSize(fs, i, fs.table[i].fileSize) == fs
  {
    assert fs.table[i].(fileSize := fs.table[i].fileSize) == fs.table[i];
    assert fs.table[i := fs.table[i]] == fs.table;
  }

  /** A resize that grows the file, or keeps it, as one formula. */
  lemma ResizedIsGrown(fs: Fs, i: int, size: u32)
    requires WellFormed(fs) && fs.IsRegular(i) && fs.table[i].fileSize <= size
    requires Growth(fs, i, size) <= fs.FreeBlocks()
    ensures Growth(fs, i, size) >= 0 && Sound(fs) && 0 <= i < |fs.table|
    ensures 0 <= i < |AllocN(fs, i, Growth(fs, i, size)).table|
    ensures Resized(fs, i, size) == (SetSize(AllocN(fs, i, Growth(fs, i, size)), i, size), 0)
  {
    hide WellFormed, Sound, Fs.Blocks, Fs.FreeBlocks, AllocN, Reblocked, Resized, BlocksFor;
    WellFormedIsSound(fs);
    BlocksForMonotone(fs.table[i].fileSize, size);
    ResizedUnfold(fs, i, size);
    GrowthUnfold(fs, i, size);
    AllocNOnly(fs, i, Growth(fs, i, size));
    ReblockedUnfold(fs, i, Growth(fs, i, size));
    if size == fs.table[i].fileSize {
      AllocNUnfold(fs, i, 0);
      SetSizeToSame(fs, i);
    }
  }

  /** Where a first write of a leaves the store, if it is affordable. */
  ghost predicate FirstPart(fs: Fs, g: Fs, i: int, off: nat, a: seq<byte>) {
    && WellFormed(fs) && fs.IsRegular(i) && off + |a| < 0x8000_0000
    && Affordable(fs, i, off, |a|)
    && g == Resized(fs, i, SizeFor(fs, i, off + |a|)).0
    && Room(g, i, off + |a|)
  }

  lemma FirstPartUnfold(fs: Fs, g: Fs, i: int, off: nat, a: seq<byte>)
    requires FirstPart(fs, g, i, off, a)
    ensures Room(g, i, off + |a|) && WellFormed(fs) && fs.IsRegular(i)
  {
    hide WellFormed, Room;
  }

  lemma FirstPartOf(fs: Fs, i: int, off: nat, a: seq<byte>)
    requires WellFormed(fs) && fs.IsRegular(i) && off + |a| < 0x8000_0000 && Affordable(fs, i, off, |a|)
    ensures var g := Resized(fs, i, SizeFor(fs, i, off + |a|)).0;
      FirstPart(fs, g, i, off, a) && Written(fs, i, off, a) == (Stored(g, i, off, a), |a|)
  {
    hide WellFormed, Resized, Room, Stored, Written, Growth, Fs.FreeBlocks;
    RoomForWrite(fs, i, off + |a|);
    WrittenUnfold(fs, i, off, a);
  }

  /** After the first part, resizing for the second gives the store a single resize gives, with the part in it. */
  lemma ResizeAfterPart(fs: Fs, g: Fs, i: int, off: nat, a: seq<byte>, end: nat)
    requires FirstPart(fs, g, i, off, a) && off + |a| <= end < 0x8000_0000
    ensures var w := Stored(g, i, off, a);
      && WellFormed(w) && w.IsRegular(i)
      && SizeFor(w, i, end) == SizeFor(fs, i, end)
      && Growth(fs, i, SizeFor(fs, i, end)) - fs.FreeBlocks() == Growth(w, i, SizeFor(fs, i, end)) - w.FreeBlocks()
      && (Growth(fs, i, SizeFor(fs, i, end)) <= fs.FreeBlocks() ==>
          Resized(w, i, SizeFor(fs, i, end))
          == (Resized(fs, i, SizeFor(fs, i, end)).0.(data := w.data), 0))
  {
    var s1, s2 := SizeFor(fs, i, off + |a|), SizeFor(fs, i, end);
    var w := Stored(g, i, off, a);
    PartSizes(fs, g, i, off, a, end);
    if Growth(fs, i, s2) <= fs.FreeBlocks() {
      ResizeTwice(fs, g, i, off, a, s1, s2);
    }
  }

  lemma PartSizes(fs: Fs, g: Fs, i: int, off: nat, a: seq<byte>, end: nat)
    requires FirstPart(fs, g, i, off, a) && off + |a| <= end < 0x8000_0000
    ensures var w := Stored(g, i, off, a);
      && WellFormed(w) && w.IsRegular(i) && 0 <= i < |fs.table|
      && w.table[i].fileSize == SizeFor(fs, i, off + |a|) <= SizeFor(fs, i, end)
      && SizeFor(w, i, end) == SizeFor(fs, i, end)
      && w.FreeBlocks() == fs.FreeBlocks() - Growth(fs, i, SizeFor(fs, i, off + |a|))
      && Growth(w, i, SizeFor(fs, i, end)) + Growth(fs, i, SizeFor(fs, i, off + |a|)) == Growth(fs, i, SizeFor(fs, i, end))
  {
    hide WellFormed, Resized, Room, Stored, Fs.Blocks, Fs.FreeBlocks, BlocksFor;
    RoomForWrite(fs, i, off + |a|);
    ResizedAllOrNothing(fs, i, SizeFor(fs, i, off + |a|));
    StoredIsWellFormed(g, i, off, a);
    StoredOnlyData(g, i, off, a);
  }

  lemma ResizeTwice(fs: Fs, g: Fs, i: int, off: nat, a: seq<byte>, s1: u32, s2: u32)
    requires FirstPart(fs, g, i, off, a) && s1 == SizeFor(fs, i, off + |a|) <= s2
    requires Growth(fs, i, s2) <= fs.FreeBlocks()
    ensures var w := Stored(g, i, off, a);
      && WellFormed(w) && w.IsRegular(i)
      && Resized(w, i, s2) == (Resized(fs, i, s2).0.(data := w.data), 0)
  {
    hide *;
    FirstPartUnfold(fs, g, i, off, a);
    ResizeTwiceFacts(fs, g, i, off, a, s1, s2);
    var w := Stored(g, i, off, a);
    var n1, n2 := Growth(fs, i, s1), Growth(fs, i, s2) - Growth(fs, i, s1);
    ResizedIsGrown(fs, i, s1);
    ResizedIsGrown(fs, i, s2);
    ResizedIsGrown(w, i, s2);
    var h := AllocN(fs, i, n1);
    AllocNPainted(h, i, s1, w.data, n2);
    AllocNAdds(fs, i, n1, n2);
    PaintTwice(AllocN(fs, i, n1 + n2), i, s1, s2, w.data);
    PaintedUnfold(AllocN(fs, i, n1 + n2), i, s2, w.data);
  }

  lemma PaintedUnfold(fs: Fs, i: int, size: u32, data: seq<byte>)
    requires 0 <= i < |fs.table|
    ensures Painted(fs, i, size, data) == SetSize(fs, i, size).(data := data)
  {
  }

  lemma ResizeTwiceFacts(fs: Fs, g: Fs, i: int, off: nat, a: seq<byte>, s1: u32, s2: u32)
    requires FirstPart(fs, g, i, off, a) && s1 == SizeFor(fs, i, off + |a|) <= s2
    requires Growth(fs, i, s2) <= fs.FreeBlocks()
    ensures var w := Stored(g, i, off, a);
      && WellFormed(fs) && WellFormed(w) && fs.IsRegular(i) && w.IsRegular(i)
      && 0 <= i < |fs.table| && 0 <= i < |w.table|
      && fs.table[i].fileSize <= s1 && w.table[i].fileSize == s1
      && 0 <= Growth(fs, i, s1) <= fs.FreeBlocks()
      && Growth(w, i, s2) == Growth(fs, i, s2) - Growth(fs, i, s1) >= 0
      && w.FreeBlocks() == fs.FreeBlocks() - Growth(fs, i, s1)
      && |w.data| == |g.data|
      && Sound(fs)
      && g == SetSize(AllocN(fs, i, Growth(fs, i, s1)), i, s1)
      && w == Painted(AllocN(fs, i, Growth(fs, i, s1)), i, s1, w.data)
      && |w.data| == |AllocN(fs, i, Growth(fs, i, s1)).data|
  {
    hide WellFormed, Resized, Room, Stored, Fs.Blocks, Fs.FreeBlocks, BlocksFor, AllocN, Sound;
    PartSizes(fs, g, i, off, a, off + |a|);
    ResizedIsGrown(fs, i, s1);
    BlocksForMonotone(s1, s2);
    StoredOnlyData(g, i, off, a);
    StoredUnfold(g, i, off, a);
  }

  /** Storing part b behind part a stores a + b, in a file that has grown in between. */
  lemma StoreAfterPart(g: Fs, g2: Fs, i: int, off: nat, a: seq<byte>, b: seq<byte>)
    requires Room(g, i, off + |a|) && Room(g2, i, off + |a| + |b|)
    requires g2.data == g.data && g.Blocks(i) <= g2.Blocks(i)
    requires var w2 := g2.(data := Stored(g, i, off, a).data); Room(w2, i, off + |a| + |b|) && w2.Blocks(i) == g2.Blocks(i)
    ensures Room(g2, i, off + |a + b|)
    ensures Stored(g2.(data := Stored(g, i, off, a).data), i, off + |a|, b) == Stored(g2, i, off, a + b)
  {
    hide WellFormed, Fs.Blocks, Poke, Fits, Ownership.Distinct;
    var w2 := g2.(data := Stored(g, i, off, a).data);
    StoredUnfold(g, i, off, a);
    StoredUnfold(g2, i, off, a + b);
    StoredUnfold(w2, i, off + |a|, b);
    PokePrefix(g.data, g.Blocks(i), g2.Blocks(i), off, a);
    PokeJoins(g2.data, g2.Blocks(i), off, a, b);
  }

  lemma AllocNKeeps(fs: Fs, i: int, n: nat, size: u32)
    requires Sound(fs) && fs.IsRegular(i) && n <= fs.FreeBlocks()
    ensures var r := AllocN(fs, i, n);
      && 0 <= i < |r.table|
      && fs.Blocks(i) <= r.Blocks(i)
      && SetSize(r, i, size).Blocks(i) == r.Blocks(i)
      && SetSize(r, i, size).data == r.data == fs.data
  {
    hide Sound, AllocN, Fs.Blocks, Fs.Chains, Fs.FreeBlocks;
    AllocNOnly(fs, i, n);
    SetSizeIsSound(AllocN(fs, i, n), i, size);
  }

  lemma GrowthSplits(fs: Fs, i: int, s1: u32, s2: u32)
    requires WellFormed(fs) && fs.IsRegular(i) && fs.table[i].fileSize <= s1 <= s2
    ensures 0 <= Growth(fs, i, s1) <= Growth(fs, i, s2)
  {
    hide WellFormed, BlocksFor;
    BlocksForMonotone(s1, s2);
    BlocksForMonotone(fs.table[i].fileSize, s1);
  }

  lemma GrownPrefix(fs: Fs, i: int, s1: u32, s2: u32)
    requires WellFormed(fs) && fs.IsRegular(i) && fs.table[i].fileSize <= s1 <= s2
    requires Growth(fs, i, s2) <= fs.FreeBlocks()
    ensures Growth(fs, i, s1) <= fs.FreeBlocks()
    ensures var g, g2 := Resized(fs, i, s1).0, Resized(fs, i, s2).0;
      g.Blocks(i) <= g2.Blocks(i) && g2.data == g.data == fs.data
  {
    hide *;
    WellFormedIsSound(fs);
    GrowthSplits(fs, i, s1, s2);
    var n1, n2 := Growth(fs, i, s1), Growth(fs, i, s2) - Growth(fs, i, s1);
    ResizedIsGrown(fs, i, s1);
    ResizedIsGrown(fs, i, s2);
    AllocNAdds(fs, i, n1, n2);
    AllocNKeeps(fs, i, n1, s1);
    AllocNKeeps(fs, i, n1 + n2, s2);
    AllocNKeeps(AllocN(fs, i, n1), i, n2, s2);
  }

  /**
   Two writes end to end are one write: the second part finds its blocks exactly when the whole
   would, and then the very same store results; otherwise the first part's store stays.
   */
  lemma WritesJoin(fs: Fs, i: int, off: nat, a: seq<byte>, b: seq<byte>)
    requires WellFormed(fs) && fs.IsRegular(i) && off + |a| + |b| < 0x8000_0000 && Affordable(fs, i, off, |a|)
    ensures var w := Written(fs, i, off, a).0; WellFormed(w) && w.IsRegular(i)
    ensures var w := Written(fs, i, off, a).0;
      Affordable(w, i, off + |a|, |b|) <==> Affordable(fs, i, off, |a| + |b|)
    ensures var w := Written(fs, i, off, a).0;
      if Affordable(fs, i, off, |a| + |b|) then
        Written(w, i, off + |a|, b) == (Written(fs, i, off, a + b).0, |b|) && Written(fs, i, off, a + b).1 == |a + b|
      else
        Written(w, i, off + |a|, b) == (w, -EFBIG)
  {
    hide WellFormed, Resized, Room, Stored, Written, Growth, Fs.FreeBlocks, Fs.Blocks, FirstPart;
    var end := off + |a| + |b|;
    FirstPartOf(fs, i, off, a);
    var g := Resized(fs, i, SizeFor(fs, i, off + |a|)).0;
    FirstPartUnfold(fs, g, i, off, a);
    ResizeAfterPart(fs, g, i, off, a, end);
    var w := Stored(g, i, off, a);
    WrittenUnfold(w, i, off + |a|, b);
    WrittenUnfold(fs, i, off, a + b);
    RoomForWrite(w, i, end);
    RoomForWrite(fs, i, end);
    if Affordable(fs, i, off, |a| + |b|) {
      var g2 := Resized(fs, i, SizeFor(fs, i, end)).0;
      GrownPrefix(fs, i, SizeFor(fs, i, off + |a|), SizeFor(fs, i, end));
      BlocksIgnoreData(g2, i, w.data);
      StoreAfterPart(g, g2, i, off, a, b);
    }
  }

  lemma BlocksIgnoreData(fs: Fs, i: int, data: seq<byte>)
    ensures fs.(data := data).Blocks(i) == fs.Blocks(i)
  {
    hide Fat.Chain;
  }
}

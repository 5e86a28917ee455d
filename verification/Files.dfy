/** osada_write and osada_ftruncate as operations on flat files. */
module Files {
  import opened Words
  import opened Ownership
  import opened Osada
  import opened Store
  import opened Truncate
  import opened Contents
  import Fat

  lemma FileFits(fs: Fs, i: int)
    requires WellFormed(fs) && fs.IsRegular(i)
    ensures Fits(fs.data, fs.Blocks(i)) && Distinct(fs.Blocks(i))
    ensures fs.table[i].fileSize <= BLOCK_SIZE * |fs.Blocks(i)|
  {
    hide Fat.Chain, Owned;
    Fat.LinkedIsAcyclic(fs.fat, fs.Blocks(i));
  }

  /** The bytes of the file in slot i. */
  ghost function FileContent(fs: Fs, i: int): (s: seq<byte>)
    requires WellFormed(fs) && fs.IsRegular(i)
    ensures |s| == fs.table[i].fileSize
  {
    FileFits(fs, i);
    Content(fs.data, fs.Blocks(i), fs.table[i].fileSize)
  }

  function Min(a: nat, b: nat): nat {
    if a <= b then a else b
  }

  lemma MinUnfold(a: nat, b: nat)
    ensures Min(a, b) == if a <= b then a else b
  {
  }

  /** A file whose bytes, chain and size are the same has the same content. */
  lemma ContentElsewhere(fs: Fs, r: Fs, j: int)
    requires WellFormed(fs) && WellFormed(r) && fs.IsRegular(j) && r.IsRegular(j)
    requires r.data == fs.data && r.Blocks(j) == fs.Blocks(j) && r.table[j].fileSize == fs.table[j].fileSize
    ensures FileContent(r, j) == FileContent(fs, j)
  {
  }

  /** Every other regular file is still there, with the same bytes. */
  ghost predicate OthersKeep(fs: Fs, r: Fs, i: int)
    requires WellFormed(fs) && WellFormed(r)
  {
    forall j :: fs.IsRegular(j) && j != i ==> r.IsRegular(j) && FileContent(r, j) == FileContent(fs, j)
  }

  lemma OthersKeepTrans(fs: Fs, g: Fs, r: Fs, i: int)
    requires WellFormed(fs) && WellFormed(g) && WellFormed(r)
    requires OthersKeep(fs, g, i) && OthersKeep(g, r, i)
    ensures OthersKeep(fs, r, i)
  {
    hide WellFormed, FileContent;
  }

  /** A resize keeps every byte below both sizes, and every byte of every other file. */
  lemma ResizedKeepsBytes(fs: Fs, i: int, size: u32)
    requires WellFormed(fs) && fs.IsRegular(i) && Growth(fs, i, size) <= fs.FreeBlocks()
    ensures var r := Resized(fs, i, size).0; WellFormed(r) && r.IsRegular(i)
    ensures var r := Resized(fs, i, size).0;
      var n := Min(size, fs.table[i].fileSize);
      |FileContent(r, i)| == size && FileContent(r, i)[..n] == FileContent(fs, i)[..n]
    ensures OthersKeep(fs, Resized(fs, i, size).0, i)
  {
    ResizedAllOrNothing(fs, i, size);
    hide *;
    ResizedKeepsOwn(fs, i, size);
    ResizedKeepsOthers(fs, i, size);
  }

  lemma ResizedKeepsOwn(fs: Fs, i: int, size: u32)
    requires WellFormed(fs) && fs.IsRegular(i) && Growth(fs, i, size) <= fs.FreeBlocks()
    ensures var r := Resized(fs, i, size).0; WellFormed(r) && r.IsRegular(i)
    ensures var r := Resized(fs, i, size).0;
      var n := Min(size, fs.table[i].fileSize);
      |FileContent(r, i)| == size && FileContent(r, i)[..n] == FileContent(fs, i)[..n]
  {
    ResizedAllOrNothing(fs, i, size);
    var r := Resized(fs, i, size).0;
    var n := Min(size, fs.table[i].fileSize);
    FileFits(fs, i);
    FileFits(r, i);
    hide WellFormed, Resized, Fat.Chain, Growth, Fs.FreeBlocks, Fs.Chains, Content, Fits, Fs.Blocks;
    assert r.data == fs.data;
    if |fs.Blocks(i)| <= |r.Blocks(i)| {
      ContentPrefix(fs.data, fs.Blocks(i), r.Blocks(i), n, size);
      ContentPrefix(fs.data, fs.Blocks(i), fs.Blocks(i), n, fs.table[i].fileSize);
    } else {
      ContentPrefix(fs.data, r.Blocks(i), fs.Blocks(i), n, fs.table[i].fileSize);
      ContentPrefix(fs.data, r.Blocks(i), r.Blocks(i), n, size);
    }
  }

  lemma ResizedKeepsOthers(fs: Fs, i: int, size: u32)
    requires WellFormed(fs) && fs.IsRegular(i) && Growth(fs, i, size) <= fs.FreeBlocks()
    ensures WellFormed(Resized(fs, i, size).0) && OthersKeep(fs, Resized(fs, i, size).0, i)
  {
    ResizedAllOrNothing(fs, i, size);
    var r := Resized(fs, i, size).0;
    hide WellFormed, Resized, Growth, Fs.FreeBlocks, FileContent, Fs.Blocks;
    forall j | fs.IsRegular(j) && j != i
      ensures r.IsRegular(j) && FileContent(r, j) == FileContent(fs, j)
    {
      assert r.Chains()[j] == r.Blocks(j) && fs.Chains()[j] == fs.Blocks(j);
      ContentElsewhere(fs, r, j);
    }
  }

  lemma TakeIsPrefix(s: seq<byte>, t: seq<byte>)
    requires |s| <= |t| && s[..|s|] == t[..|s|]
    ensures s <= t
  {
  }

  lemma GrowthKeepsBytes(fs: Fs, i: int, size: u32)
    requires WellFormed(fs) && fs.IsRegular(i) && Growth(fs, i, size) <= fs.FreeBlocks()
    requires fs.table[i].fileSize <= size
    ensures var r := Resized(fs, i, size).0;
      WellFormed(r) && r.IsRegular(i) && FileContent(fs, i) <= FileContent(r, i)
  {
    ResizedKeepsBytes(fs, i, size);
    assert Min(size, fs.table[i].fileSize) == fs.table[i].fileSize;
    hide *;
    TakeIsPrefix(FileContent(fs, i), FileContent(Resized(fs, i, size).0, i));
  }

  /** The file in slot i has blocks for its first `end` bytes. */
  ghost predicate Room(fs: Fs, i: int, end: nat) {
    WellFormed(fs) && fs.IsRegular(i) && end <= BLOCK_SIZE * |fs.Blocks(i)|
  }

  /** The store once buf lies at offset off of the file in slot i. */
  ghost function Stored(fs: Fs, i: int, off: nat, buf: seq<byte>): Fs
    requires Room(fs, i, off + |buf|)
  {
    FileFits(fs, i);
    fs.(data := Poke(fs.data, fs.Blocks(i), off, buf))
  }

  lemma StoredIsWellFormed(fs: Fs, i: int, off: nat, buf: seq<byte>)
    requires Room(fs, i, off + |buf|)
    ensures WellFormed(Stored(fs, i, off, buf)) && Stored(fs, i, off, buf).IsRegular(i)
    ensures Stored(fs, i, off, buf).Chains() == fs.Chains()
    ensures Stored(fs, i, off, buf).FreeBlocks() == fs.FreeBlocks()
    ensures forall j :: Stored(fs, i, off, buf).Blocks(j) == fs.Blocks(j)
  {
    hide Fat.Chain, Owned, Poke;
    SoundElsewhere(fs, Stored(fs, i, off, buf));
  }

  lemma StoredUnfold(fs: Fs, i: int, off: nat, buf: seq<byte>)
    requires Room(fs, i, off + |buf|)
    ensures WellFormed(fs) && fs.IsRegular(i) && 0 <= i < |fs.table|
    ensures Fits(fs.data, fs.Blocks(i)) && Distinct(fs.Blocks(i))
    ensures off + |buf| <= BLOCK_SIZE * |fs.Blocks(i)|
    ensures Stored(fs, i, off, buf).data == Poke(fs.data, fs.Blocks(i), off, buf)
    ensures Stored(fs, i, off, buf).table == fs.table
  {
    FileFits(fs, i);
    hide WellFormed, Fs.Blocks, Poke;
  }

  lemma FileContentUnfold(fs: Fs, i: int)
    requires WellFormed(fs) && fs.IsRegular(i)
    ensures Fits(fs.data, fs.Blocks(i)) && fs.table[i].fileSize <= BLOCK_SIZE * |fs.Blocks(i)|
    ensures FileContent(fs, i) == Content(fs.data, fs.Blocks(i), fs.table[i].fileSize)
  {
    FileFits(fs, i);
    hide WellFormed, Fs.Blocks, Content;
  }

  function Max(a: nat, b: nat): nat {
    if a >= b then a else b
  }

  /** The size of the file in slot i once its first `end` bytes exist. */
  ghost function SizeFor(fs: Fs, i: int, end: nat): (size: u32)
    requires fs.IsRegular(i) && end < 0x8000_0000
    ensures size == Max(fs.table[i].fileSize, end)
  {
    Max(fs.table[i].fileSize, end)
  }

  /** A file resized to hold the bytes up to `end` has blocks for all of them. */
  lemma RoomForWrite(fs: Fs, i: int, end: nat)
    requires WellFormed(fs) && fs.IsRegular(i) && end < 0x8000_0000
    ensures var (g, e) := Resized(fs, i, SizeFor(fs, i, end));
      WellFormed(g) && g.IsRegular(i) && (e == 0 ==> Room(g, i, end) && g.table[i].fileSize == SizeFor(fs, i, end))
    ensures var (g, e) := Resized(fs, i, SizeFor(fs, i, end));
      if Growth(fs, i, SizeFor(fs, i, end)) > fs.FreeBlocks() then g == fs && e == -EFBIG else e == 0
  {
    var size := SizeFor(fs, i, end);
    ResizedAllOrNothing(fs, i, size);
    hide WellFormed, Resized, Fs.Blocks, Growth, Fs.FreeBlocks;
    var (g, e) := Resized(fs, i, size);
    if Growth(fs, i, size) <= fs.FreeBlocks() {
      assert OnlySizeOf(fs, g, i, size);
      FileFits(g, i);
    }
  }

  /** The store and the return code of a write: grow the file if need be, then store the bytes. */
  ghost function Written(fs: Fs, i: int, off: nat, buf: seq<byte>): (Fs, int)
    requires WellFormed(fs) && fs.IsRegular(i) && off + |buf| < 0x8000_0000
  {
    RoomForWrite(fs, i, off + |buf|);
    var (g, e) := Resized(fs, i, SizeFor(fs, i, off + |buf|));
    if e != 0 then (g, e) else (Stored(g, i, off, buf), |buf|)
  }

  /** Storing inside the file is a flat update of it. */
  lemma StoredIsFlatUpdate(fs: Fs, i: int, off: nat, buf: seq<byte>)
    requires Room(fs, i, off + |buf|) && off + |buf| <= fs.table[i].fileSize
    ensures WellFormed(Stored(fs, i, off, buf)) && Stored(fs, i, off, buf).IsRegular(i)
    ensures FlatUpdate(FileContent(fs, i), FileContent(Stored(fs, i, off, buf), i), off, buf)
  {
    hide *;
    StoredUnfold(fs, i, off, buf);
    StoredIsWellFormed(fs, i, off, buf);
    FileContentUnfold(fs, i);
    FileContentUnfold(Stored(fs, i, off, buf), i);
    PokeIsFlatUpdate(fs.data, fs.Blocks(i), off, buf, fs.table[i].fileSize);
  }

  /** Storing in one file leaves every other file alone. */
  lemma StoredKeepsOthers(fs: Fs, i: int, off: nat, buf: seq<byte>)
    requires Room(fs, i, off + |buf|)
    ensures WellFormed(Stored(fs, i, off, buf))
    ensures OthersKeep(fs, Stored(fs, i, off, buf), i)
  {
    StoredIsWellFormed(fs, i, off, buf);
    FileFits(fs, i);
    WellFormedIsSound(fs);
    BlocksApart(fs, i);
    hide WellFormed, Sound, Poke, Fs.Blocks, Content;
    forall j | fs.IsRegular(j) && j != i
      ensures FileContent(Stored(fs, i, off, buf), j) == FileContent(fs, j)
    {
      FileFits(fs, j);
      PokeElsewhere(fs.data, fs.Blocks(i), off, buf, fs.Blocks(j), fs.table[j].fileSize);
    }
  }

  lemma WrittenUnfold(fs: Fs, i: int, off: nat, buf: seq<byte>)
    requires WellFormed(fs) && fs.IsRegular(i) && off + |buf| < 0x8000_0000
    ensures var (g, e) := Resized(fs, i, SizeFor(fs, i, off + |buf|));
      && (e == 0 ==> Room(g, i, off + |buf|))
      && Written(fs, i, off, buf) == if e != 0 then (g, e) else (Stored(g, i, off, buf), |buf|)
  {
    RoomForWrite(fs, i, off + |buf|);
    hide WellFormed, Resized, Room, Stored, SizeFor, Growth, Fs.FreeBlocks, Fs.IsRegular;
  }

  lemma FlatUpdateStored(fs: Fs, g: Fs, i: int, off: nat, buf: seq<byte>)
    requires WellFormed(fs) && fs.IsRegular(i) && off + |buf| < 0x8000_0000 && Room(g, i, off + |buf|)
    requires g.table[i].fileSize == SizeFor(fs, i, off + |buf|)
    requires FileContent(fs, i) <= FileContent(g, i)
    ensures WellFormed(Stored(g, i, off, buf)) && Stored(g, i, off, buf).IsRegular(i)
    ensures FlatUpdate(FileContent(fs, i), FileContent(Stored(g, i, off, buf), i), off, buf)
  {
    StoredIsFlatUpdate(g, i, off, buf);
    hide WellFormed, FlatUpdate, FileContent, Fs.Blocks, Stored;
    FlatUpdateAfterGrowth(FileContent(fs, i), FileContent(g, i), FileContent(Stored(g, i, off, buf), i), off, buf);
  }

  /** Does a write of n bytes at off find the blocks it needs? */
  ghost predicate Affordable(fs: Fs, i: int, off: nat, n: nat)
    requires WellFormed(fs) && fs.IsRegular(i) && off + n < 0x8000_0000
  {
    Growth(fs, i, SizeFor(fs, i, off + n)) <= fs.FreeBlocks()
  }

  /**
   A write is a flat update of the file it names: it fails with -EFBIG, changing nothing, exactly
   when the blocks it needs are not there; otherwise the bytes of buf are at off, every byte the
   file already had elsewhere keeps its value, and no other file changes.
   */
  lemma WrittenRefinesFlatFile(fs: Fs, i: int, off: nat, buf: seq<byte>)
    requires WellFormed(fs) && fs.IsRegular(i) && off + |buf| < 0x8000_0000
    ensures WellFormed(Written(fs, i, off, buf).0) && Written(fs, i, off, buf).0.IsRegular(i)
    ensures !Affordable(fs, i, off, |buf|) ==> Written(fs, i, off, buf) == (fs, -EFBIG)
    ensures Affordable(fs, i, off, |buf|) ==>
      var (r, e) := Written(fs, i, off, buf);
      && e == |buf|
      && FlatUpdate(FileContent(fs, i), FileContent(r, i), off, buf)
      && OthersKeep(fs, r, i)
  {
    RoomForWrite(fs, i, off + |buf|);
    WrittenUnfold(fs, i, off, buf);
    if Affordable(fs, i, off, |buf|) {
      WrittenSucceeds(fs, i, off, buf);
    }
  }

  lemma WrittenSucceeds(fs: Fs, i: int, off: nat, buf: seq<byte>)
    requires WellFormed(fs) && fs.IsRegular(i) && off + |buf| < 0x8000_0000 && Affordable(fs, i, off, |buf|)
    ensures Written(fs, i, off, buf).1 == |buf|
    ensures WellFormed(Written(fs, i, off, buf).0) && Written(fs, i, off, buf).0.IsRegular(i)
    ensures FlatUpdate(FileContent(fs, i), FileContent(Written(fs, i, off, buf).0, i), off, buf)
    ensures OthersKeep(fs, Written(fs, i, off, buf).0, i)
  {
    var size := SizeFor(fs, i, off + |buf|);
    assert fs.table[i].fileSize <= size && Growth(fs, i, size) <= fs.FreeBlocks();
    hide *;
    RoomForWrite(fs, i, off + |buf|);
    WrittenUnfold(fs, i, off, buf);
    ResizedKeepsBytes(fs, i, size);
    GrowthKeepsBytes(fs, i, size);
    var g := Resized(fs, i, size).0;
    FlatUpdateStored(fs, g, i, off, buf);
    StoredKeepsOthers(g, i, off, buf);
    OthersKeepTrans(fs, g, Stored(g, i, off, buf), i);
  }

  lemma RegularIsLive(fs: Fs, i: int)
    requires fs.IsRegular(i)
    ensures fs.IsLive(i)
  {
  }

  /** The block where byte k of the file in slot i lies. */
  ghost function BlockAt(fs: Fs, i: int, k: nat): u32
    requires fs.IsRegular(i) && k < BLOCK_SIZE * |fs.Blocks(i)|
  {
    fs.Blocks(i)[k / BLOCK_SIZE]
  }

  /** Storing one more piece that does not cross a block boundary is one memcpy into the data region. */
  lemma StoredChunk(fs: Fs, i: int, off: nat, buf: seq<byte>, k: nat, n: nat)
    requires Room(fs, i, off + |buf|) && k + n <= |buf| && n > 0 && (off + k) % BLOCK_SIZE + n <= BLOCK_SIZE
    ensures fs.IsRegular(i) && off + k < BLOCK_SIZE * |fs.Blocks(i)|
    ensures Room(fs, i, off + |buf[..k]|) && Room(fs, i, off + |buf[..k + n]|)
    ensures var at := BLOCK_SIZE * BlockAt(fs, i, off + k) + (off + k) % BLOCK_SIZE;
      var g := Stored(fs, i, off, buf[..k]);
      && at + n <= |g.data|
      && Stored(fs, i, off, buf[..k + n]) == g.(data := Copied(g.data, at, buf[k..k + n]))
  {
    StoredUnfold(fs, i, off, buf);
    RoomShorter(fs, i, off + |buf|, off + k);
    RoomShorter(fs, i, off + |buf|, off + k + n);
    PokeChunk(fs.data, fs.Blocks(i), off, buf, k, n);
    hide WellFormed, Fs.Blocks, Copied, Poke, Room, Fits, Ownership.Distinct;
  }

  lemma RoomShorter(fs: Fs, i: int, end: nat, e: nat)
    requires Room(fs, i, end) && e <= end
    ensures Room(fs, i, e)
  {
    hide WellFormed, Fs.Blocks;
  }

  lemma StoredNothing(fs: Fs, i: int, off: nat, buf: seq<byte>)
    requires Room(fs, i, off + |buf|)
    ensures Room(fs, i, off + |buf[..0]|) && Stored(fs, i, off, buf[..0]) == fs
  {
    hide WellFormed, Fs.Blocks;
  }

  lemma StoredOnlyData(fs: Fs, i: int, off: nat, buf: seq<byte>)
    requires Room(fs, i, off + |buf|)
    ensures Stored(fs, i, off, buf) == fs.(data := Stored(fs, i, off, buf).data)
  {
    hide WellFormed, Fs.Blocks, Poke;
  }

  /** Where a block ends, its link leads to the block of the next byte. */
  lemma NextBlock(fs: Fs, i: int, k: nat)
    requires Room(fs, i, k + 1) && k > 0 && k % BLOCK_SIZE == 0
    ensures fs.IsRegular(i) && k < BLOCK_SIZE * |fs.Blocks(i)|
    ensures BlockAt(fs, i, k - 1) < |fs.fat| <= Fat.END && BlockAt(fs, i, k) < |fs.fat|
    ensures fs.fat[BlockAt(fs, i, k - 1)] == BlockAt(fs, i, k)
  {
    hide Ownership.Owned, Fat.Chain;
    var c := fs.Blocks(i);
    assert Fat.Linked(fs.fat, c);
    assert (k - 1) / BLOCK_SIZE == k / BLOCK_SIZE - 1;
  }

  /** The block found by following the links off / 64 times. */
  lemma BlockOfOffset(fs: Fs, i: int, off: nat)
    requires Room(fs, i, off)
    ensures fs.IsRegular(i) && Fat.Linked(fs.fat, fs.Blocks(i)) && off / BLOCK_SIZE <= |fs.Blocks(i)|
    ensures fs.Blocks(i) == Fat.Chain(fs.fat, fs.table[i].firstBlock)
    ensures off < BLOCK_SIZE * |fs.Blocks(i)| ==>
      off / BLOCK_SIZE < |fs.Blocks(i)| && BlockAt(fs, i, off) == fs.Blocks(i)[off / BLOCK_SIZE] < |fs.fat|
  {
    hide Ownership.Owned, Fat.Chain;
  }

  /** In the middle of a write: `copied` bytes are stored and `block` is where the last of them went. */
  ghost predicate Cursor(fs: Fs, i: int, off: nat, size: nat, copied: nat, block: u32) {
    && Room(fs, i, off + size)
    && copied <= size
    && (copied < size ==>
        off + copied > 0 && (off + copied) % BLOCK_SIZE == 0 && block == BlockAt(fs, i, off + copied - 1))
  }

  /** The first piece: up to the end of its block, or all of it. */
  lemma FirstPiece(fs: Fs, i: int, off: nat, buf: seq<byte>, n: nat)
    requires Room(fs, i, off + |buf|)
    requires n == Min(BLOCK_SIZE - off % BLOCK_SIZE, |buf|)
    ensures fs.IsLive(i) && fs.IsRegular(i) && off / BLOCK_SIZE <= |fs.Blocks(i)|
    ensures Fat.Linked(fs.fat, fs.Blocks(i)) && fs.Blocks(i) == Fat.Chain(fs.fat, fs.table[i].firstBlock)
    ensures n > 0 ==>
      && off / BLOCK_SIZE < |fs.Blocks(i)| && off % BLOCK_SIZE + n <= BLOCK_SIZE
      && var block := fs.Blocks(i)[off / BLOCK_SIZE];
      block < |fs.fat| && Cursor(fs, i, off, |buf|, n, block)
      && BLOCK_SIZE * block + off % BLOCK_SIZE + n <= |fs.data|
      && Room(fs, i, off + |buf[..n]|)
      && Stored(fs, i, off, buf[..n])
         == fs.(data := Copied(fs.data, BLOCK_SIZE * block + off % BLOCK_SIZE, buf[..n]))
    ensures n == 0 ==> |buf| == 0 && Stored(fs, i, off, buf) == fs
  {
    hide WellFormed, Fs.Blocks, Copied, Stored, Fat.Linked, Fat.Chain;
    RoomShorter(fs, i, off + |buf|, off);
    BlockOfOffset(fs, i, off);
    StoredNothing(fs, i, off, buf);
    if n > 0 {
      StoredChunk(fs, i, off, buf, 0, n);
      assert buf[0..n] == buf[..n];
    }
  }

  /** The next piece: a whole block, or what is left. */
  lemma NextPiece(fs: Fs, i: int, off: nat, buf: seq<byte>, copied: nat, block: u32, n: nat)
    requires Cursor(fs, i, off, |buf|, copied, block) && copied < |buf| && n == Min(BLOCK_SIZE, |buf| - copied)
    ensures block < |fs.fat| && fs.fat[block] != Fat.END && fs.fat[block] < |fs.fat|
    ensures Room(fs, i, off + |buf[..copied]|) && Room(fs, i, off + |buf[..copied + n]|)
    ensures var g := Stored(fs, i, off, buf[..copied]);
      && g.fat == fs.fat
      && BLOCK_SIZE * fs.fat[block] + n <= |g.data|
      && Stored(fs, i, off, buf[..copied + n])
         == g.(data := Copied(g.data, BLOCK_SIZE * fs.fat[block], buf[copied..copied + n]))
    ensures Cursor(fs, i, off, |buf|, copied + n, fs.fat[block])
  {
    hide WellFormed, Fs.Blocks, Copied, Stored;
    RoomShorter(fs, i, off + |buf|, off + copied + 1);
    RoomShorter(fs, i, off + |buf|, off + copied);
    NextBlock(fs, i, off + copied);
    StoredOnlyData(fs, i, off, buf[..copied]);
    StoredChunk(fs, i, off, buf, copied, n);
  }

  lemma NothingToStore(fs: Fs, i: int, off: nat, buf: seq<byte>, block: u32)
    requires Room(fs, i, off + |buf|) && |buf| == 0
    ensures buf[..0] == buf && Stored(fs, i, off, buf) == fs && Cursor(fs, i, off, |buf|, 0, block)
  {
    StoredNothing(fs, i, off, buf);
    assert buf[..0] == buf;
  }

  /** A piece of a file inside one block lies there byte after byte. */
  lemma PieceOfContent(fs: Fs, i: int, k: nat, n: nat)
    requires WellFormed(fs) && fs.IsRegular(i) && k + n <= fs.table[i].fileSize && n > 0
    requires k % BLOCK_SIZE + n <= BLOCK_SIZE
    ensures k < BLOCK_SIZE * |fs.Blocks(i)| && BlockAt(fs, i, k) < |fs.fat|
    ensures var at := BLOCK_SIZE * BlockAt(fs, i, k) + k % BLOCK_SIZE;
      at + n <= |fs.data| && fs.data[at..at + n] == FileContent(fs, i)[k..k + n]
  {
    FileContentUnfold(fs, i);
    BlockInTable(fs, i, k);
    hide WellFormed, Fs.Blocks, Fits, Content, At;
    AtUnfold(fs.Blocks(i), k);
    PieceInBlock(fs.data, fs.Blocks(i), fs.table[i].fileSize, k, n);
  }

  lemma AtUnfold(c: seq<u32>, k: nat)
    requires k < BLOCK_SIZE * |c|
    ensures At(c, k) == BLOCK_SIZE * c[k / BLOCK_SIZE] + k % BLOCK_SIZE
  {
  }

  lemma BlockInTable(fs: Fs, i: int, k: nat)
    requires WellFormed(fs) && fs.IsRegular(i) && k < BLOCK_SIZE * |fs.Blocks(i)|
    ensures BlockAt(fs, i, k) < |fs.fat|
  {
    hide Ownership.Owned, Fat.Chain;
    assert Fat.Linked(fs.fat, fs.Blocks(i));
  }

  /** In the middle of a read: `copied` bytes are fetched and `block` is where the last of them came from. */
  ghost predicate ReadCursor(fs: Fs, i: int, off: nat, size: nat, copied: nat, block: u32) {
    && WellFormed(fs) && fs.IsRegular(i) && off + size <= fs.table[i].fileSize
    && copied <= size
    && (copied < size ==>
        && off + copied > 0 && (off + copied) % BLOCK_SIZE == 0
        && off + copied - 1 < BLOCK_SIZE * |fs.Blocks(i)|
        && block == BlockAt(fs, i, off + copied - 1))
  }

  lemma ReadStart(fs: Fs, i: int, off: nat, size: nat)
    requires WellFormed(fs) && fs.IsRegular(i) && off + size <= fs.table[i].fileSize
    ensures off / BLOCK_SIZE <= |fs.Blocks(i)|
    ensures Fat.Linked(fs.fat, fs.Blocks(i)) && fs.Blocks(i) == Fat.Chain(fs.fat, fs.table[i].firstBlock)
    ensures size > 0 ==>
      && off < BLOCK_SIZE * |fs.Blocks(i)|
      && fs.Blocks(i)[off / BLOCK_SIZE] == BlockAt(fs, i, off) < |fs.fat|
      && ReadCursor(fs, i, off, size, Min(BLOCK_SIZE - off % BLOCK_SIZE, size), BlockAt(fs, i, off))
    ensures size == 0 ==> forall b: u32 :: ReadCursor(fs, i, off, size, 0, b)
  {
    hide WellFormed, Fs.Blocks, Fat.Linked, Fat.Chain;
    FileFits(fs, i);
    BlockOfOffset(fs, i, off);
  }

  lemma ReadGoesOn(fs: Fs, i: int, off: nat, size: nat, copied: nat, last: u32, n: nat)
    requires ReadCursor(fs, i, off, size, copied, last) && copied < size && n == Min(BLOCK_SIZE, size - copied)
    ensures last < |fs.fat| <= Fat.END && fs.fat[last] < |fs.fat|
    ensures ReadCursor(fs, i, off, size, copied + n, fs.fat[last])
    ensures BLOCK_SIZE * fs.fat[last] + n <= |fs.data|
    ensures fs.data[BLOCK_SIZE * fs.fat[last]..BLOCK_SIZE * fs.fat[last] + n]
         == FileContent(fs, i)[off + copied..off + copied + n]
  {
    hide WellFormed, Fs.Blocks, FileContent;
    FileFits(fs, i);
    NextBlock(fs, i, off + copied);
    PieceOfContent(fs, i, off + copied, n);
  }

  /** Reads start inside the file or at its end. */
  ghost predicate MayReadFrom(fs: Fs, i: int, offset: nat) {
    fs.IsRegular(i) ==> offset <= fs.table[i].fileSize
  }

  /** The bytes a read asks for, as far as the file goes. */
  ghost function ReadBytes(fs: Fs, i: int, size: nat, offset: nat): (bytes: seq<byte>)
    requires WellFormed(fs) && fs.IsRegular(i) && MayReadFrom(fs, i, offset)
    ensures |bytes| == Min(size, fs.table[i].fileSize - offset)
    ensures forall k :: 0 <= k < |bytes| ==> bytes[k] == FileContent(fs, i)[offset + k]
  {
    FileContent(fs, i)[offset..offset + Min(size, fs.table[i].fileSize - offset)]
  }
}

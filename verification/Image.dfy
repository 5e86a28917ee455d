/** The image: where the header, the bitmap, the file table, the links and the data lie, and what they say. */
module Image {
  import opened Words
  import opened Osada
  import opened Contents
  import Bitmap

  const BITMAP_AT := BLOCK_SIZE

  function TableAt(g: Geometry): int {
    (1 + g.bitmapBlocks) * BLOCK_SIZE
  }

  function FatAt(g: Geometry): int {
    g.allocationsTableOffset * BLOCK_SIZE
  }

  function DataAt(g: Geometry): int {
    g.DataOffset() * BLOCK_SIZE
  }

  predicate Separate(a: int, m: int, b: int, n: int) {
    a + m <= b || b + n <= a || m == 0 || n == 0
  }

  /** Header, bitmap, file table, links and data lie apart, and the data inside the image. */
  ghost predicate RegionsApart(g: Geometry) {
    var bitmap, table, fat, data :=
      g.bitmapBlocks * BLOCK_SIZE, MAX_FILES * FILE_RECORD, 4 * g.dataBlocks, BLOCK_SIZE * g.dataBlocks;
    && Separate(0, BLOCK_SIZE, FatAt(g), fat) && Separate(0, BLOCK_SIZE, DataAt(g), data)
    && Separate(BITMAP_AT, bitmap, FatAt(g), fat) && Separate(BITMAP_AT, bitmap, DataAt(g), data)
    && Separate(TableAt(g), table, FatAt(g), fat) && Separate(TableAt(g), table, DataAt(g), data)
    && Separate(FatAt(g), fat, DataAt(g), data)
    && 0 <= DataAt(g) && DataAt(g) + data <= g.fsBlocks * BLOCK_SIZE
  }

  /** A byte offset as it is computed in 32 bits. */
  function Address(block: int): int {
    block * BLOCK_SIZE % 0x1_0000_0000
  }

  /** The length mapped and the start of every block are what they would be without a limit. */
  ghost predicate Addressable(g: Geometry) {
    forall b :: 0 <= b <= g.fsBlocks ==> Address(b) == b * BLOCK_SIZE
  }

  /**
   The regions lie apart and inside the image, and every offset is right, exactly when the links start
   right behind the file table, fit the blocks the header leaves for them, and the image is below 4 GiB.
   */
  lemma LayoutIsExact(g: Geometry)
    requires g.dataBlocks > 0
    ensures RegionsApart(g) <==>
      g.allocationsTableOffset == 1 + g.bitmapBlocks + 1024 && 4 * g.dataBlocks <= BLOCK_SIZE * g.FatBlocks()
    ensures Addressable(g) <==> BLOCK_SIZE * g.fsBlocks < 0x1_0000_0000
    ensures g.WellLaid() <==> RegionsApart(g) && Addressable(g) && g.fsBlocks <= 8 * BLOCK_SIZE * g.bitmapBlocks
  {
    assert Addressable(g) ==> Address(g.fsBlocks) == g.fsBlocks * BLOCK_SIZE;
  }

  // The packed records.

  function StateByte(s: FileState): byte {
    match s
    case Deleted => 0
    case Regular => 1
    case Directory => 2
  }

  function ByteState(b: byte): FileState {
    if b == 0 then Deleted else if b == 1 then Regular else Directory
  }

  function PutFile(f: OsadaFile): (s: seq<byte>)
    ensures |s| == FILE_RECORD
  {
    [StateByte(f.state)] + f.fname + PutU16(f.parentDirectory)
    + PutU32(f.fileSize) + PutU32(f.lastmod) + PutU32(f.firstBlock)
  }

  function GetFile(s: seq<byte>): OsadaFile
    requires |s| == FILE_RECORD
  {
    OsadaFile(ByteState(s[0]), s[1..18], GetU16(s[18..20]), GetU32(s[20..24]), GetU32(s[24..28]), GetU32(s[28..]))
  }

  lemma GetPutFile(f: OsadaFile)
    ensures GetFile(PutFile(f)) == f
  {
    var s := PutFile(f);
    assert s[1..18] == f.fname;
    assert s[18..20] == PutU16(f.parentDirectory);
    assert s[20..24] == PutU32(f.fileSize) && s[24..28] == PutU32(f.lastmod) && s[28..] == PutU32(f.firstBlock);
    GetPutU16(f.parentDirectory);
    GetPutU32(f.fileSize);
    GetPutU32(f.lastmod);
    GetPutU32(f.firstBlock);
  }

  function PutTable(t: seq<OsadaFile>): (s: seq<byte>)
    ensures |s| == FILE_RECORD * |t|
  {
    seq(FILE_RECORD * |t|, k requires 0 <= k < FILE_RECORD * |t| => PutFile(t[k / FILE_RECORD])[k % FILE_RECORD])
  }

  function GetTable(s: seq<byte>, n: nat): (t: seq<OsadaFile>)
    requires |s| == FILE_RECORD * n
    ensures |t| == n
  {
    seq(n, i requires 0 <= i < n => GetFile(s[FILE_RECORD * i..FILE_RECORD * i + FILE_RECORD]))
  }

  lemma RecordOf(t: seq<OsadaFile>, i: nat)
    requires i < |t|
    ensures PutTable(t)[FILE_RECORD * i..FILE_RECORD * i + FILE_RECORD] == PutFile(t[i])
  {
    hide PutFile;
    var s := PutTable(t);
    forall j | 0 <= j < FILE_RECORD
      ensures s[FILE_RECORD * i + j] == PutFile(t[i])[j]
    {
      assert (FILE_RECORD * i + j) / FILE_RECORD == i && (FILE_RECORD * i + j) % FILE_RECORD == j;
    }
  }

  lemma GetPutTable(t: seq<OsadaFile>)
    ensures GetTable(PutTable(t), |t|) == t
  {
    hide PutTable, GetFile, PutFile;
    var s := PutTable(t);
    forall i | 0 <= i < |t|
      ensures GetFile(s[FILE_RECORD * i..FILE_RECORD * i + FILE_RECORD]) == t[i]
    {
      RecordOf(t, i);
      GetPutFile(t[i]);
    }
  }

  function PutFat(fat: seq<u32>): (s: seq<byte>)
    ensures |s| == 4 * |fat|
  {
    seq(4 * |fat|, k requires 0 <= k < 4 * |fat| => PutU32(fat[k / 4])[k % 4])
  }

  function GetFat(s: seq<byte>, n: nat): (fat: seq<u32>)
    requires |s| == 4 * n
    ensures |fat| == n
  {
    seq(n, i requires 0 <= i < n => GetU32(s[4 * i..4 * i + 4]))
  }

  lemma LinkOf(fat: seq<u32>, i: nat)
    requires i < |fat|
    ensures PutFat(fat)[4 * i..4 * i + 4] == PutU32(fat[i])
  {
    hide PutU32;
    var s := PutFat(fat);
    forall j | 0 <= j < 4
      ensures s[4 * i + j] == PutU32(fat[i])[j]
    {
      assert (4 * i + j) / 4 == i && (4 * i + j) % 4 == j;
    }
  }

  lemma GetPutFat(fat: seq<u32>)
    ensures GetFat(PutFat(fat), |fat|) == fat
  {
    hide PutFat, GetU32, PutU32;
    var s := PutFat(fat);
    forall i | 0 <= i < |fat|
      ensures GetU32(s[4 * i..4 * i + 4]) == fat[i]
    {
      LinkOf(fat, i);
      GetPutU32(fat[i]);
    }
  }

  function PutBitmap(bitmap: seq<bv8>): (s: seq<byte>)
    ensures |s| == |bitmap|
  {
    seq(|bitmap|, k requires 0 <= k < |bitmap| => bitmap[k] as byte)
  }

  function GetBitmap(s: seq<byte>): (bitmap: seq<bv8>)
    ensures |bitmap| == |s|
  {
    seq(|s|, k requires 0 <= k < |s| => s[k] as bv8)
  }

  lemma GetPutBitmap(bitmap: seq<bv8>)
    ensures GetBitmap(PutBitmap(bitmap)) == bitmap
  {
  }

  // The whole image.

  /** A region of the image. */
  function Slice(img: seq<byte>, at: int, n: int): (s: seq<byte>)
    requires 0 <= at && 0 <= n && at + n <= |img|
    ensures |s| == n
  {
    img[at..at + n]
  }

  function HeaderOf(img: seq<byte>): Geometry
    requires |img| >= BLOCK_SIZE
  {
    Geometry(GetU32(img[8..12]), GetU32(img[12..16]), GetU32(img[16..20]), GetU32(img[20..24]))
  }

  /** The image is as long as its header says, and laid out as the server takes for granted. */
  ghost predicate WholeImage(img: seq<byte>) {
    && |img| >= BLOCK_SIZE
    && HeaderOf(img).WellLaid()
    && |img| == BLOCK_SIZE * HeaderOf(img).fsBlocks
  }

  function BitmapPart(img: seq<byte>, g: Geometry): seq<byte>
    requires g.WellLaid() && |img| == BLOCK_SIZE * g.fsBlocks
  {
    Slice(img, BITMAP_AT, BLOCK_SIZE * g.bitmapBlocks)
  }

  function TablePart(img: seq<byte>, g: Geometry): (s: seq<byte>)
    requires g.WellLaid() && |img| == BLOCK_SIZE * g.fsBlocks
    ensures |s| == FILE_RECORD * MAX_FILES
  {
    Slice(img, TableAt(g), FILE_RECORD * MAX_FILES)
  }

  function FatPart(img: seq<byte>, g: Geometry): (s: seq<byte>)
    requires g.WellLaid() && |img| == BLOCK_SIZE * g.fsBlocks
    ensures |s| == 4 * g.dataBlocks
  {
    Slice(img, FatAt(g), 4 * g.dataBlocks)
  }

  function DataPart(img: seq<byte>, g: Geometry): (s: seq<byte>)
    requires g.WellLaid() && |img| == BLOCK_SIZE * g.fsBlocks
    ensures |s| == BLOCK_SIZE * g.dataBlocks
  {
    Slice(img, DataAt(g), BLOCK_SIZE * g.dataBlocks)
  }

  /** What main loads from an image; nothing is locked yet. */
  ghost function Load(img: seq<byte>): Fs
    requires WholeImage(img)
  {
    var g := HeaderOf(img);
    Fs(g,
       Bitmap.Bits(GetBitmap(BitmapPart(img, g))),
       GetFat(FatPart(img, g), g.dataBlocks),
       GetTable(TablePart(img, g), MAX_FILES),
       seq(MAX_FILES, _ => RwLock(0, false)),
       DataPart(img, g))
  }

  /** The image says what the memory says. */
  ghost predicate Agrees(img: seq<byte>, g: Geometry, bitmap: seq<bv8>, table: seq<OsadaFile>, fat: seq<u32>) {
    && WholeImage(img) && HeaderOf(img) == g
    && GetBitmap(BitmapPart(img, g)) == bitmap
    && TablePart(img, g) == PutTable(table)
    && FatPart(img, g) == PutFat(fat)
  }

  /** Reloading an image that agrees with the memory brings back the same store, with nothing locked. */
  lemma ReloadIsExact(img: seq<byte>, g: Geometry, bitmap: seq<bv8>, table: seq<OsadaFile>, fat: seq<u32>)
    requires Agrees(img, g, bitmap, table, fat) && |table| == MAX_FILES && |fat| == g.dataBlocks
    ensures Load(img)
         == Fs(g, Bitmap.Bits(bitmap), fat, table, seq(MAX_FILES, _ => RwLock(0, false)), DataPart(img, g))
  {
    GetPutTable(table);
    GetPutFat(fat);
  }

  lemma HeaderInFirstBlock(img: seq<byte>, img': seq<byte>)
    requires |img'| == |img| >= BLOCK_SIZE && img'[..BLOCK_SIZE] == img[..BLOCK_SIZE]
    ensures HeaderOf(img') == HeaderOf(img)
  {
    assert forall k :: 0 <= k < BLOCK_SIZE ==> img'[k] == img[..BLOCK_SIZE][k];
    assert img'[8..12] == img[8..12] && img'[12..16] == img[12..16];
    assert img'[16..20] == img[16..20] && img'[20..24] == img[20..24];
  }

  /** A memcpy leaves the regions apart from its target alone. */
  lemma CopiedElsewhere(img: seq<byte>, at: nat, buf: seq<byte>, a: nat, n: nat)
    requires at + |buf| <= |img| && a + n <= |img| && (at + |buf| <= a || a + n <= at)
    ensures Slice(Copied(img, at, buf), a, n) == Slice(img, a, n)
  {
  }

  lemma CopiedThere(img: seq<byte>, at: nat, buf: seq<byte>)
    requires at + |buf| <= |img|
    ensures Slice(Copied(img, at, buf), at, |buf|) == buf
  {
  }

  /** A memcpy inside a region is a memcpy of that region. */
  lemma CopiedInside(img: seq<byte>, at: nat, buf: seq<byte>, a: nat, n: nat)
    requires a <= at && at + |buf| <= a + n <= |img|
    ensures Slice(Copied(img, at, buf), a, n) == Copied(Slice(img, a, n), at - a, buf)
  {
  }

  /** A memcpy behind the administrative blocks leaves those alone. */
  lemma AdminElsewhere(img: seq<byte>, g: Geometry, at: nat, buf: seq<byte>)
    requires g.WellLaid() && |img| == BLOCK_SIZE * g.fsBlocks && DataAt(g) <= at && at + |buf| <= |img|
    ensures BitmapPart(Copied(img, at, buf), g) == BitmapPart(img, g)
    ensures TablePart(Copied(img, at, buf), g) == TablePart(img, g)
    ensures FatPart(Copied(img, at, buf), g) == FatPart(img, g)
    ensures HeaderOf(Copied(img, at, buf)) == HeaderOf(img)
  {
    CopiedElsewhere(img, at, buf, BITMAP_AT, BLOCK_SIZE * g.bitmapBlocks);
    CopiedElsewhere(img, at, buf, TableAt(g), FILE_RECORD * MAX_FILES);
    CopiedElsewhere(img, at, buf, FatAt(g), 4 * g.dataBlocks);
    assert Copied(img, at, buf)[..BLOCK_SIZE] == img[..BLOCK_SIZE];
    HeaderInFirstBlock(img, Copied(img, at, buf));
    hide HeaderOf, Copied, Slice;
  }

  lemma AgreesToo(
    img: seq<byte>, img': seq<byte>, g: Geometry, bitmap: seq<bv8>, table: seq<OsadaFile>, fat: seq<u32>)
    requires Agrees(img, g, bitmap, table, fat) && |img'| == |img| && HeaderOf(img') == HeaderOf(img)
    requires BitmapPart(img', g) == BitmapPart(img, g) && TablePart(img', g) == TablePart(img, g)
    requires FatPart(img', g) == FatPart(img, g)
    ensures Agrees(img', g, bitmap, table, fat)
  {
    hide HeaderOf, BitmapPart, TablePart, FatPart, PutBitmap, PutFat, PutTable;
  }

  /** Bytes stored inside a data block change the data region there and nothing else. */
  lemma ChunkInData(
    img: seq<byte>, g: Geometry, bitmap: seq<bv8>, table: seq<OsadaFile>, fat: seq<u32>,
    block: u32, rem: nat, chunk: seq<byte>)
    requires Agrees(img, g, bitmap, table, fat) && block < g.dataBlocks && rem + |chunk| <= BLOCK_SIZE
    ensures var at := (g.DataOffset() + block) * BLOCK_SIZE + rem;
      && 0 <= at && at + |chunk| <= |img|
      && g.WellLaid() && |img| == BLOCK_SIZE * g.fsBlocks
      && BLOCK_SIZE * block + rem + |chunk| <= |DataPart(img, g)|
      && Agrees(Copied(img, at, chunk), g, bitmap, table, fat)
      && DataPart(Copied(img, at, chunk), g) == Copied(DataPart(img, g), BLOCK_SIZE * block + rem, chunk)
  {
    hide HeaderOf, BitmapPart, TablePart, FatPart, PutBitmap, PutFat, PutTable, Copied, Slice;
    var at := (g.DataOffset() + block) * BLOCK_SIZE + rem;
    AdminElsewhere(img, g, at, chunk);
    AgreesToo(img, Copied(img, at, chunk), g, bitmap, table, fat);
    CopiedInside(img, at, chunk, DataAt(g), BLOCK_SIZE * g.dataBlocks);
  }

  /** The first bytes of the records of the file table hold states only. */
  ghost predicate StatesValid(s: seq<byte>) {
    forall i :: 0 <= i && FILE_RECORD * i < |s| ==> s[FILE_RECORD * i] <= 2
  }

  lemma PutGetU16(s: seq<byte>)
    requires |s| == 2
    ensures PutU16(GetU16(s)) == s
  {
  }

  lemma PutGetU32(s: seq<byte>)
    requires |s| == 4
    ensures PutU32(GetU32(s)) == s
  {
    hide GetU16, PutU16;
    PutGetU16(s[..2]);
    PutGetU16(s[2..]);
    TwoParts(GetU16(s[..2]), GetU16(s[2..]));
    assert s == s[..2] + s[2..];
  }

  lemma TwoParts(a: u16, b: u16)
    ensures (a + 0x1_0000 * b) % 0x1_0000 == a && (a + 0x1_0000 * b) / 0x1_0000 == b
  {
  }

  lemma PutGetFile(s: seq<byte>)
    requires |s| == FILE_RECORD && s[0] <= 2
    ensures PutFile(GetFile(s)) == s
  {
    PutGetU16(s[18..20]);
    PutGetU32(s[20..24]);
    PutGetU32(s[24..28]);
    PutGetU32(s[28..]);
    assert s == [s[0]] + s[1..18] + s[18..20] + s[20..24] + s[24..28] + s[28..];
  }

  lemma PutGetTable(s: seq<byte>, n: nat)
    requires |s| == FILE_RECORD * n && StatesValid(s)
    ensures PutTable(GetTable(s, n)) == s
  {
    hide PutFile, GetFile;
    var t := GetTable(s, n);
    forall k | 0 <= k < |s|
      ensures PutFile(t[k / FILE_RECORD])[k % FILE_RECORD] == s[k]
    {
      var i := k / FILE_RECORD;
      PutGetFile(s[FILE_RECORD * i..FILE_RECORD * i + FILE_RECORD]);
    }
  }

  lemma PutGetFat(s: seq<byte>, n: nat)
    requires |s| == 4 * n
    ensures PutFat(GetFat(s, n)) == s
  {
    hide PutU32, GetU32;
    var fat := GetFat(s, n);
    forall k | 0 <= k < |s|
      ensures PutU32(fat[k / 4])[k % 4] == s[k]
    {
      var i := k / 4;
      PutGetU32(s[4 * i..4 * i + 4]);
    }
  }

  /** What main loads, the image agrees with. */
  lemma LoadedAgrees(img: seq<byte>)
    requires WholeImage(img) && StatesValid(TablePart(img, HeaderOf(img)))
    ensures var g := HeaderOf(img);
      Agrees(img, g, GetBitmap(BitmapPart(img, g)), GetTable(TablePart(img, g), MAX_FILES),
        GetFat(FatPart(img, g), g.dataBlocks))
  {
    hide HeaderOf, Slice, GetTable, PutTable, GetFat, PutFat, GetBitmap, PutBitmap, BitmapPart, StatesValid;
    var g := HeaderOf(img);
    PutGetTable(TablePart(img, g), MAX_FILES);
    PutGetFat(FatPart(img, g), g.dataBlocks);
  }

  lemma SliceOfData(img: seq<byte>, g: Geometry, x: nat, n: nat)
    requires g.WellLaid() && |img| == BLOCK_SIZE * g.fsBlocks && x + n <= BLOCK_SIZE * g.dataBlocks
    ensures 0 <= DataAt(g) + x && DataAt(g) + x + n <= |img|
    ensures img[DataAt(g) + x..DataAt(g) + x + n] == DataPart(img, g)[x..x + n]
  {
    var s, t := img[DataAt(g) + x..DataAt(g) + x + n], DataPart(img, g)[x..x + n];
    forall k | 0 <= k < |s|
      ensures s[k] == t[k]
    {
      assert t[k] == DataPart(img, g)[x + k];
    }
  }
}

/** The OSADA volume: its constants, its on-disk records, and its state in memory. */
module Osada {
  import opened Words
  import Fat
  import Bitmap

  const BLOCK_SIZE := 64
  const FILENAME_LENGTH := 17
  const MAX_FILES := 2048
  const FILE_RECORD := 32
  const ROOT: u16 := 0xFFFF

  const ENOENT := 2
  const EBUSY := 16
  const EEXIST := 17
  const EFBIG := 27
  const ENOSPC := 28
  const ENAMETOOLONG := 36
  const ENOTEMPTY := 39

  datatype FileState = Deleted | Regular | Directory

  type Fname = s: seq<byte> | |s| == FILENAME_LENGTH witness seq(FILENAME_LENGTH, _ => 0)

  datatype OsadaFile = OsadaFile(
    state: FileState,
    fname: Fname,
    parentDirectory: u16,
    fileSize: u32,
    lastmod: u32,
    firstBlock: u32)

  /** A pthread_rwlock_t, by who holds it. */
  datatype RwLock = RwLock(readers: nat, writer: bool) {
    predicate Held() {
      writer || readers > 0
    }
  }

  /** The header's four sizes, in blocks. */
  datatype Geometry = Geometry(
    fsBlocks: u32,
    bitmapBlocks: u32,
    allocationsTableOffset: u32,
    dataBlocks: u32)
  {
    /** fat_size_block */
    function FatBlocks(): int {
      fsBlocks - 1 - 1024 - bitmapBlocks - dataBlocks
    }

    /** data_offset: the block of the volume where data block 0 lies. */
    function DataOffset(): int {
      allocationsTableOffset + FatBlocks()
    }

    /** The layout the server takes for granted; byte offsets are computed in 32 bits. */
    predicate WellLaid() {
      && allocationsTableOffset == 1 + bitmapBlocks + 1024
      && 4 * dataBlocks <= BLOCK_SIZE * FatBlocks()
      && fsBlocks <= 8 * BLOCK_SIZE * bitmapBlocks
      && BLOCK_SIZE * fsBlocks < 0x1_0000_0000
    }
  }

  /** What the server keeps in memory (fs_tmp), with the data region of the image. */
  datatype Fs = Fs(
    geo: Geometry,
    bits: seq<bool>,
    fat: seq<u32>,
    table: seq<OsadaFile>,
    locks: seq<RwLock>,
    data: seq<byte>)
  {
    ghost predicate Shape() {
      && geo.WellLaid()
      && |bits| == 8 * BLOCK_SIZE * geo.bitmapBlocks
      && |fat| == geo.dataBlocks
      && |table| == MAX_FILES
      && |locks| == MAX_FILES
      && |data| == BLOCK_SIZE * geo.dataBlocks
    }

    /** The bits of the data blocks, without the administrative ones. */
    ghost function DataBits(): (u: seq<bool>)
      requires Shape()
      ensures |u| == geo.dataBlocks
    {
      bits[geo.DataOffset()..geo.DataOffset() + geo.dataBlocks]
    }

    ghost predicate IsRegular(i: int) {
      0 <= i < |table| && table[i].state.Regular?
    }

    ghost predicate IsLive(i: int) {
      0 <= i < |table| && !table[i].state.Deleted?
    }

    /** The blocks of the file in slot i, in order; none unless it is a regular file. */
    ghost function Blocks(i: int): seq<u32> {
      if IsRegular(i) then Fat.Chain(fat, table[i].firstBlock) else []
    }

    /** The blocks of every slot. */
    ghost function Chains(): (own: seq<seq<u32>>)
      ensures |own| == |table|
    {
      seq(|table|, i requires 0 <= i < |table| => Blocks(i))
    }

    ghost function FreeBlocks(): nat
      requires Shape()
    {
      Bitmap.FreeCount(DataBits())
    }
  }

  /** Blocks a file of this size owns: an empty file still owns one. */
  function BlocksFor(size: int): int {
    if size == 0 then 1 else (size + BLOCK_SIZE - 1) / BLOCK_SIZE
  }

  /** The same by div, rounding up when there is a remainder, as osada_ftruncate computes it. */
  function BlocksOf(size: int): (blocks: int)
    ensures blocks == BlocksFor(size)
  {
    var bytes := if size == 0 then 1 else size;
    if bytes % BLOCK_SIZE != 0 then bytes / BLOCK_SIZE + 1 else bytes / BLOCK_SIZE
  }
}

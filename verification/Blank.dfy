/** A freshly formatted image, for every layout: where the runs of the server can start. */
module Blank {
  import opened Words
  import opened Osada
  import opened Namespace
  import opened Ownership
  import opened Store
  import opened Truncate
  import opened Invariant
  import opened Image
  import Bitmap
  import Server

  function Zeros(n: nat): (s: seq<byte>)
    ensures |s| == n && forall i :: 0 <= i < n ==> s[i] == 0
  {
    seq(n, _ => 0)
  }

  /** The 64 bytes of the header block. */
  function Header(g: Geometry): (s: seq<byte>)
    ensures |s| == BLOCK_SIZE
  {
    Zeros(8) + PutU32(g.fsBlocks) + PutU32(g.bitmapBlocks) + PutU32(g.allocationsTableOffset) + PutU32(g.dataBlocks) + Zeros(40)
  }

  /** No entries, nothing marked. */
  function BlankImage(g: Geometry): (s: seq<byte>)
    requires g.WellLaid()
    ensures |s| == BLOCK_SIZE * g.fsBlocks
  {
    Header(g) + Zeros(BLOCK_SIZE * g.fsBlocks - BLOCK_SIZE)
  }

  lemma HeaderRead(g: Geometry)
    requires g.WellLaid()
    ensures HeaderOf(BlankImage(g)) == g
  {
    var img := BlankImage(g);
    assert img[8..12] == PutU32(g.fsBlocks) && img[12..16] == PutU32(g.bitmapBlocks);
    assert img[16..20] == PutU32(g.allocationsTableOffset) && img[20..24] == PutU32(g.dataBlocks);
    GetPutU32(g.fsBlocks);
    GetPutU32(g.bitmapBlocks);
    GetPutU32(g.allocationsTableOffset);
    GetPutU32(g.dataBlocks);
  }

  /** A store without entries and without marks is in order. */
  lemma EmptyIsGood(fs: Fs)
    requires fs.Shape() && (forall i :: 0 <= i < MAX_FILES ==> fs.table[i].state.Deleted? && !fs.locks[i].Held())
    requires forall p :: 0 <= p < |fs.bits| ==> !fs.bits[p]
    ensures Good(fs) && fs.FreeBlocks() == fs.geo.dataBlocks
  {
    assert forall i :: 0 <= i < |fs.Chains()| ==> fs.Chains()[i] == [];
    assert Owned(fs.Chains(), fs.DataBits());
    assert Forest(fs.table);
    assert SlotsSafe(fs);
    AllFree(fs.DataBits());
  }

  lemma {:induction false} AllFree(used: seq<bool>)
    requires forall p :: 0 <= p < |used| ==> !used[p]
    ensures Bitmap.FreeCount(used) == |used|
  {
    if |used| > 0 {
      AllFree(used[..|used| - 1]);
    }
  }

  lemma ZeroBits(bytes: seq<bv8>)
    requires forall i :: 0 <= i < |bytes| ==> bytes[i] == 0
    ensures forall p :: 0 <= p < 8 * |bytes| ==> !Bitmap.Bits(bytes)[p]
  {
    forall p: nat | p < 8 * |bytes|
      ensures !Bitmap.Bit(bytes, p)
    {
      var b := bytes[p / 8];
      assert b == 0;
    }
  }

  lemma BlankBits(g: Geometry)
    requires g.WellLaid() && WholeImage(BlankImage(g)) && HeaderOf(BlankImage(g)) == g
    ensures var fs := Load(BlankImage(g)); forall p :: 0 <= p < |fs.bits| ==> !fs.bits[p]
  {
    hide HeaderOf, Bitmap.Bit, GetTable, GetFat;
    var bits := GetBitmap(BitmapPart(BlankImage(g), g));
    assert forall i :: 0 <= i < |bits| ==> bits[i] == 0;
    ZeroBits(bits);
  }

  /** What is loaded from it: no entries, no marks, no locks. */
  lemma BlankLoads(g: Geometry)
    requires g.WellLaid()
    ensures WholeImage(BlankImage(g)) && HeaderOf(BlankImage(g)) == g
    ensures var fs := Load(BlankImage(g));
      && fs.geo == g && fs.Shape()
      && (forall i :: 0 <= i < MAX_FILES ==> fs.table[i].state.Deleted? && !fs.locks[i].Held())
      && (forall p :: 0 <= p < |fs.bits| ==> !fs.bits[p])
    ensures StatesValid(TablePart(BlankImage(g), g))
  {
    hide HeaderOf, Bitmap.Bits, GetBitmap, GetFat;
    HeaderRead(g);
    BlankBits(g);
    var t := TablePart(BlankImage(g), g);
    assert forall i :: 0 <= i < |t| ==> t[i] == 0;
  }

  /** Every layout has an image the server may load; on it all data blocks are free. */
  lemma BlankIsWellFormed(g: Geometry)
    requires g.WellLaid()
    ensures Server.WellFormedImage(BlankImage(g))
    ensures Load(BlankImage(g)).FreeBlocks() == g.dataBlocks
  {
    hide Load, BlankImage, Good, HeaderOf, StatesValid;
    BlankLoads(g);
    EmptyIsGood(Load(BlankImage(g)));
  }
}

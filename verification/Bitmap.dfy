/**
 The byte-packed allocation bitmap: bit `pos` is bit 7 - pos%8 of byte pos/8.
 Bit-vector arithmetic stays inside this module; everybody else sees the
 booleans that `Bits` reads off the bytes.
 */
module Bitmap {
  /** 1 << (7 - j), tabulated. */
  function Mask(j: nat): bv8
    requires j < 8
  {
    [128, 64, 32, 16, 8, 4, 2, 1][j]
  }

  /** bit_bitmap: is block `pos` of the volume taken? */
  predicate Bit(bytes: seq<bv8>, pos: nat)
    requires pos < 8 * |bytes|
  {
    bytes[pos / 8] & Mask(pos % 8) != 0
  }

  /** What the packed bytes mean: one boolean for each block of the volume. */
  ghost function Bits(bytes: seq<bv8>): (bits: seq<bool>)
    ensures |bits| == 8 * |bytes|
  {
    seq(8 * |bytes|, pos requires 0 <= pos < 8 * |bytes| => Bit(bytes, pos))
  }

  lemma MaskIsShift(j: nat)
    requires j < 8
    ensures Mask(j) == (1 as bv8) << (7 - j)
  {
  }

  lemma MaskMeets(b: bv8, j: nat, k: nat)
    requires j < 8 && k < 8
    ensures ((b | Mask(j)) & Mask(k) != 0) <==> (k == j || b & Mask(k) != 0)
    ensures ((b & !Mask(j)) & Mask(k) != 0) <==> (k != j && b & Mask(k) != 0)
  {
  }

  /** Or-ing the mask in sets the bit at pos and no other. */
  lemma SetOneBit(bytes: seq<bv8>, pos: nat)
    requires pos < 8 * |bytes|
    ensures Bits(bytes[pos / 8 := bytes[pos / 8] | Mask(pos % 8)]) == Bits(bytes)[pos := true]
  {
    hide Mask;
    var after := bytes[pos / 8 := bytes[pos / 8] | Mask(pos % 8)];
    forall p | 0 <= p < 8 * |bytes|
      ensures Bits(after)[p] == Bits(bytes)[pos := true][p]
    {
      if p / 8 == pos / 8 {
        MaskMeets(bytes[pos / 8], pos % 8, p % 8);
      }
    }
  }

  /** And-ing the mask out clears the bit at pos and no other. */
  lemma ClearOneBit(bytes: seq<bv8>, pos: nat)
    requires pos < 8 * |bytes|
    ensures Bits(bytes[pos / 8 := bytes[pos / 8] & !Mask(pos % 8)]) == Bits(bytes)[pos := false]
  {
    hide Mask;
    var after := bytes[pos / 8 := bytes[pos / 8] & !Mask(pos % 8)];
    forall p | 0 <= p < 8 * |bytes|
      ensures Bits(after)[p] == Bits(bytes)[pos := false][p]
    {
      if p / 8 == pos / 8 {
        MaskMeets(bytes[pos / 8], pos % 8, p % 8);
      }
    }
  }

  method SetBitmap(bitmap: array<bv8>, pos: nat)
    requires pos < 8 * bitmap.Length
    modifies bitmap
    ensures Bits(bitmap[..]) == old(Bits(bitmap[..]))[pos := true]
  {
    if !Bit(bitmap[..], pos) {
      SetOneBit(bitmap[..], pos);
      ghost var after := bitmap[..][pos / 8 := bitmap[pos / 8] | Mask(pos % 8)];
      bitmap[pos / 8] := bitmap[pos / 8] | Mask(pos % 8);
      assert bitmap[..] == after;
    } else {
      assert Bits(bitmap[..])[pos];
    }
  }

  method CleanBitmap(bitmap: array<bv8>, pos: nat)
    requires pos < 8 * bitmap.Length
    modifies bitmap
    ensures Bits(bitmap[..]) == old(Bits(bitmap[..]))[pos := false]
  {
    if Bit(bitmap[..], pos) {
      ClearOneBit(bitmap[..], pos);
      ghost var after := bitmap[..][pos / 8 := bitmap[pos / 8] & !Mask(pos % 8)];
      bitmap[pos / 8] := bitmap[pos / 8] & !Mask(pos % 8);
      assert bitmap[..] == after;
    } else {
      assert !Bits(bitmap[..])[pos];
    }
  }

  /** How many of these blocks are free. */
  ghost function FreeCount(used: seq<bool>): nat
  {
    if |used| == 0 then 0
    else FreeCount(used[..|used| - 1]) + if used[|used| - 1] then 0 else 1
  }

  /** free_blocks: count the free data blocks, skipping the first `skip` administrative ones. */
  method FreeBlocks(bitmap: array<bv8>, skip: nat, blocks: nat) returns (free: nat)
    requires skip + blocks <= 8 * bitmap.Length
    ensures free == FreeCount(Bits(bitmap[..])[skip..skip + blocks])
  {
    free := 0;
    ghost var used := Bits(bitmap[..])[skip..skip + blocks];
    for i := 0 to blocks
      invariant free == FreeCount(used[..i])
    {
      assert used[..i + 1][..i] == used[..i] && used[i] == Bit(bitmap[..], i + skip);
      if !Bit(bitmap[..], i + skip) {
        free := free + 1;
      }
    }
    assert used[..blocks] == used;
  }

  /** free_bit_bitmap: the lowest free data block, or -1 when all are taken. */
  method FreeBitBitmap(bitmap: array<bv8>, skip: nat, blocks: nat) returns (block: int)
    requires skip + blocks <= 8 * bitmap.Length
    ensures block == FirstFree(Bits(bitmap[..])[skip..skip + blocks])
  {
    ghost var used := Bits(bitmap[..])[skip..skip + blocks];
    for i := 0 to blocks
      invariant forall k :: 0 <= k < i ==> used[k]
    {
      if !Bit(bitmap[..], i + skip) {
        assert !used[i];
        return i;
      }
    }
    return -1;
  }

  ghost function FirstFree(used: seq<bool>): (block: int)
    ensures -1 <= block < |used|
    ensures block == -1 <==> (forall k :: 0 <= k < |used| ==> used[k])
    ensures block != -1 ==> !used[block] && forall k :: 0 <= k < block ==> used[k]
  {
    if |used| == 0 then -1
    else if FirstFree(used[..|used| - 1]) != -1 then FirstFree(used[..|used| - 1])
    else if used[|used| - 1] then -1 else |used| - 1
  }

  /** A block is found exactly when the count is positive. */
  lemma {:induction false} FreeCountPositive(used: seq<bool>)
    ensures FreeCount(used) > 0 <==> FirstFree(used) != -1
  {
    if |used| > 0 {
      FreeCountPositive(used[..|used| - 1]);
    }
  }

  /** Taking one free block lowers the count by exactly one. */
  lemma {:induction false} FreeCountTake(used: seq<bool>, b: nat)
    requires b < |used| && !used[b]
    ensures FreeCount(used) == FreeCount(used[b := true]) + 1
  {
    var n := |used| - 1;
    if b == n {
      assert used[b := true][..n] == used[..n];
    } else {
      FreeCountTake(used[..n], b);
      assert used[b := true][..n] == used[..n][b := true];
    }
  }
}

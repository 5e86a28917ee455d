/** Fixed-width words and their little-endian images, as memcpy of a packed C struct lays them out. */
module Words {
  newtype byte = x: int | 0 <= x < 256
  type u16 = x: int | 0 <= x < 0x1_0000
  type u32 = x: int | 0 <= x < 0x1_0000_0000

  function PutU16(x: u16): (s: seq<byte>)
    ensures |s| == 2
  {
    [(x % 256) as byte, (x / 256) as byte]
  }

  function GetU16(s: seq<byte>): u16
    requires |s| == 2
  {
    s[0] as int + 256 * (s[1] as int)
  }

  function PutU32(x: u32): (s: seq<byte>)
    ensures |s| == 4
  {
    PutU16(x % 0x1_0000) + PutU16(x / 0x1_0000)
  }

  function GetU32(s: seq<byte>): u32
    requires |s| == 4
  {
    GetU16(s[..2]) + 0x1_0000 * GetU16(s[2..])
  }

  lemma GetPutU16(x: u16)
    ensures GetU16(PutU16(x)) == x
  {
  }

  lemma GetPutU32(x: u32)
    ensures GetU32(PutU32(x)) == x
  {
    var lo, hi := PutU16(x % 0x1_0000), PutU16(x / 0x1_0000);
    assert (lo + hi)[..2] == lo && (lo + hi)[2..] == hi;
    GetPutU16(x % 0x1_0000);
    GetPutU16(x / 0x1_0000);
  }
}

/** A file as a flat array of bytes: its chain's blocks, one after the other, cut at its size. */
module Contents {
  import opened Words
  import opened Ownership
  import opened Osada

  /** The chain's blocks all lie inside the data region. */
  ghost predicate Fits(data: seq<byte>, c: seq<u32>) {
    forall k :: 0 <= k < |c| ==> BLOCK_SIZE * c[k] + BLOCK_SIZE <= |data|
  }

  /** Where byte k of a file lies in the data region. */
  ghost function At(c: seq<u32>, k: nat): nat
    requires k < BLOCK_SIZE * |c|
  {
    BLOCK_SIZE * c[k / BLOCK_SIZE] + k % BLOCK_SIZE
  }

  ghost function Content(data: seq<byte>, c: seq<u32>, size: nat): (s: seq<byte>)
    requires Fits(data, c) && size <= BLOCK_SIZE * |c|
    ensures |s| == size
  {
    seq(size, k requires 0 <= k < size => data[At(c, k)])
  }

  /** Write buf at offset off of a file, byte after byte. */
  ghost function Poke(data: seq<byte>, c: seq<u32>, off: nat, buf: seq<byte>): (r: seq<byte>)
    requires Fits(data, c) && off + |buf| <= BLOCK_SIZE * |c|
    ensures |r| == |data|
    decreases |buf|
  {
    if |buf| == 0 then data
    else Poke(data[At(c, off) := buf[0]], c, off + 1, buf[1..])
  }

  lemma AtDiffers(c: seq<u32>, j: nat, k: nat)
    requires Distinct(c) && j < BLOCK_SIZE * |c| && k < BLOCK_SIZE * |c| && j != k
    ensures At(c, j) != At(c, k)
  {
    if j / BLOCK_SIZE < k / BLOCK_SIZE {
      assert c[j / BLOCK_SIZE] != c[k / BLOCK_SIZE];
    } else if k / BLOCK_SIZE < j / BLOCK_SIZE {
      assert c[k / BLOCK_SIZE] != c[j / BLOCK_SIZE];
    }
  }

  /** Poke stores buf where bytes off, off+1, ... of the file lie. */
  lemma {:induction false} PokeStores(data: seq<byte>, c: seq<u32>, off: nat, buf: seq<byte>, k: nat)
    requires Fits(data, c) && Distinct(c) && off + |buf| <= BLOCK_SIZE * |c| && off <= k < off + |buf|
    ensures Poke(data, c, off, buf)[At(c, k)] == buf[k - off]
    decreases |buf|
  {
    var data' := data[At(c, off) := buf[0]];
    if k == off {
      forall j | off < j < off + |buf|
        ensures At(c, j) != At(c, off)
      {
        AtDiffers(c, j, off);
      }
      PokeKeeps(data', c, off + 1, buf[1..], At(c, off));
    } else {
      PokeStores(data', c, off + 1, buf[1..], k);
    }
  }

  /** Poke changes no other byte of the data region. */
  lemma {:induction false} PokeKeeps(data: seq<byte>, c: seq<u32>, off: nat, buf: seq<byte>, x: nat)
    requires Fits(data, c) && Distinct(c) && off + |buf| <= BLOCK_SIZE * |c| && x < |data|
    requires forall k :: off <= k < off + |buf| ==> At(c, k) != x
    ensures Poke(data, c, off, buf)[x] == data[x]
    decreases |buf|
  {
    if |buf| > 0 {
      PokeKeeps(data[At(c, off) := buf[0]], c, off + 1, buf[1..], x);
    }
  }

  lemma {:induction false} PokeJoins(data: seq<byte>, c: seq<u32>, off: nat, a: seq<byte>, b: seq<byte>)
    requires Fits(data, c) && off + |a| + |b| <= BLOCK_SIZE * |c|
    ensures Poke(Poke(data, c, off, a), c, off + |a|, b) == Poke(data, c, off, a + b)
    decreases |a|
  {
    if |a| == 0 {
      assert a + b == b;
    } else {
      assert (a + b)[1..] == a[1..] + b;
      PokeJoins(data[At(c, off) := a[0]], c, off + 1, a[1..], b);
    }
  }

  /** The first blocks of a longer chain hold the same bytes. */
  lemma {:induction false} PokePrefix(data: seq<byte>, c: seq<u32>, d: seq<u32>, off: nat, buf: seq<byte>)
    requires Fits(data, d) && c <= d && off + |buf| <= BLOCK_SIZE * |c|
    ensures Fits(data, c) && Poke(data, c, off, buf) == Poke(data, d, off, buf)
    decreases |buf|
  {
    if |buf| > 0 {
      PokePrefix(data[At(c, off) := buf[0]], c, d, off + 1, buf[1..]);
    }
  }

  lemma AtInBlock(c: seq<u32>, off: nat, d: nat)
    requires off < BLOCK_SIZE * |c| && off % BLOCK_SIZE + d < BLOCK_SIZE
    ensures off + d < BLOCK_SIZE * |c| && At(c, off + d) == At(c, off) + d
  {
    assert (off + d) / BLOCK_SIZE == off / BLOCK_SIZE;
  }

  lemma BlockFits(data: seq<byte>, c: seq<u32>, off: nat, n: nat)
    requires Fits(data, c) && off < BLOCK_SIZE * |c| && off % BLOCK_SIZE + n <= BLOCK_SIZE
    ensures off + n <= BLOCK_SIZE * |c| && At(c, off) + n <= |data|
  {
    assert off < BLOCK_SIZE * (off / BLOCK_SIZE) + BLOCK_SIZE;
  }

  /** data with buf copied over it at `at`: what one memcpy does. */
  ghost function Copied(data: seq<byte>, at: nat, buf: seq<byte>): (r: seq<byte>)
    requires at + |buf| <= |data|
    ensures |r| == |data|
  {
    data[..at] + buf + data[at + |buf|..]
  }

  lemma CopiedStep(data: seq<byte>, at: nat, buf: seq<byte>)
    requires at + |buf| <= |data| && |buf| > 0
    ensures Copied(data[at := buf[0]], at + 1, buf[1..]) == Copied(data, at, buf)
  {
  }

  /** One memcpy inside a block writes the same bytes as Poke does. */
  lemma {:induction false} PokeInBlock(data: seq<byte>, c: seq<u32>, off: nat, buf: seq<byte>)
    requires Fits(data, c) && off < BLOCK_SIZE * |c| && off % BLOCK_SIZE + |buf| <= BLOCK_SIZE
    ensures off + |buf| <= BLOCK_SIZE * |c| && At(c, off) + |buf| <= |data|
    ensures Poke(data, c, off, buf) == Copied(data, At(c, off), buf)
    decreases |buf|
  {
    BlockFits(data, c, off, |buf|);
    if |buf| == 1 {
      CopiedStep(data, At(c, off), buf);
      assert Poke(data, c, off, buf) == data[At(c, off) := buf[0]];
    } else if |buf| > 1 {
      AtInBlock(c, off, 1);
      PokeInBlock(data[At(c, off) := buf[0]], c, off + 1, buf[1..]);
      CopiedStep(data, At(c, off), buf);
    }
  }

  /** Storing one more piece inside a block is one more memcpy. */
  lemma PokeChunk(data: seq<byte>, c: seq<u32>, off: nat, buf: seq<byte>, k: nat, n: nat)
    requires Fits(data, c) && off + |buf| <= BLOCK_SIZE * |c| && k + n <= |buf| && n > 0
    requires (off + k) % BLOCK_SIZE + n <= BLOCK_SIZE
    ensures At(c, off + k) + n <= |data|
    ensures Poke(data, c, off, buf[..k + n]) == Copied(Poke(data, c, off, buf[..k]), At(c, off + k), buf[k..k + n])
  {
    hide Poke, Copied, At;
    PokeInBlock(Poke(data, c, off, buf[..k]), c, off + k, buf[k..k + n]);
    assert buf[..k + n] == buf[..k] + buf[k..k + n];
    PokeJoins(data, c, off, buf[..k], buf[k..k + n]);
  }

  /** What a write of buf at off leaves in the first `size` bytes of the file written to. */
  lemma PokeContent(data: seq<byte>, c: seq<u32>, off: nat, buf: seq<byte>, size: nat)
    requires Fits(data, c) && Distinct(c) && off + |buf| <= BLOCK_SIZE * |c| && size <= BLOCK_SIZE * |c|
    ensures forall k :: 0 <= k < size ==>
      Content(Poke(data, c, off, buf), c, size)[k]
      == if off <= k < off + |buf| then buf[k - off] else Content(data, c, size)[k]
  {
    forall k | 0 <= k < size
      ensures Poke(data, c, off, buf)[At(c, k)]
           == if off <= k < off + |buf| then buf[k - off] else data[At(c, k)]
    {
      if off <= k < off + |buf| {
        PokeStores(data, c, off, buf, k);
      } else {
        forall j | off <= j < off + |buf|
          ensures At(c, j) != At(c, k)
        {
          AtDiffers(c, j, k);
        }
        PokeKeeps(data, c, off, buf, At(c, k));
      }
    }
  }

  /** `after` is `before` with buf over the bytes from off on, as long as that makes it. */
  ghost predicate FlatUpdate(before: seq<byte>, after: seq<byte>, off: nat, buf: seq<byte>) {
    && |after| == (if |before| < off + |buf| then off + |buf| else |before|)
    && (forall k :: off <= k < off + |buf| ==> after[k] == buf[k - off])
    && (forall k :: 0 <= k < |before| && !(off <= k < off + |buf|) ==> after[k] == before[k])
  }

  lemma FlatUpdateAfterGrowth(before: seq<byte>, grown: seq<byte>, after: seq<byte>, off: nat, buf: seq<byte>)
    requires before <= grown && |grown| == (if |before| < off + |buf| then off + |buf| else |before|) && FlatUpdate(grown, after, off, buf)
    ensures FlatUpdate(before, after, off, buf)
  {
  }

  lemma PokeIsFlatUpdate(data: seq<byte>, c: seq<u32>, off: nat, buf: seq<byte>, size: nat)
    requires Fits(data, c) && Distinct(c) && off + |buf| <= size <= BLOCK_SIZE * |c|
    ensures Fits(Poke(data, c, off, buf), c)
    ensures FlatUpdate(Content(data, c, size), Content(Poke(data, c, off, buf), c, size), off, buf)
  {
    PokeContent(data, c, off, buf, size);
    hide Content, Poke, Distinct;
  }

  /** A write to one file leaves a file that shares no block with it as it was. */
  lemma PokeElsewhere(data: seq<byte>, c: seq<u32>, off: nat, buf: seq<byte>, d: seq<u32>, size: nat)
    requires Fits(data, c) && Distinct(c) && off + |buf| <= BLOCK_SIZE * |c|
    requires Fits(data, d) && size <= BLOCK_SIZE * |d| && Apart(c, d)
    ensures Content(Poke(data, c, off, buf), d, size) == Content(data, d, size)
  {
    forall k | 0 <= k < size
      ensures Poke(data, c, off, buf)[At(d, k)] == data[At(d, k)]
    {
      forall j | off <= j < off + |buf|
        ensures At(c, j) != At(d, k)
      {
        assert c[j / BLOCK_SIZE] in c && d[k / BLOCK_SIZE] in d;
      }
      PokeKeeps(data, c, off, buf, At(d, k));
    }
  }

  lemma ContentPrefix(data: seq<byte>, c: seq<u32>, d: seq<u32>, n: nat, m: nat)
    requires Fits(data, d) && c <= d && n <= BLOCK_SIZE * |c| && n <= m <= BLOCK_SIZE * |d|
    ensures Fits(data, c) && Content(data, c, n) == Content(data, d, m)[..n]
  {
    forall k | 0 <= k < n
      ensures At(c, k) == At(d, k)
    {
    }
  }

  /** Inside a block the bytes of a file lie one after the other. */
  lemma PieceInBlock(data: seq<byte>, c: seq<u32>, size: nat, k: nat, n: nat)
    requires Fits(data, c) && k + n <= size <= BLOCK_SIZE * |c| && n > 0 && k % BLOCK_SIZE + n <= BLOCK_SIZE
    ensures At(c, k) + n <= |data| && data[At(c, k)..At(c, k) + n] == Content(data, c, size)[k..k + n]
  {
    BlockFits(data, c, k, n);
    forall x | k <= x < k + n
      ensures At(c, x) == At(c, k) + (x - k)
    {
      AtInBlock(c, k, x - k);
    }
    hide At, Fits;
    var s, t := data[At(c, k)..At(c, k) + n], Content(data, c, size)[k..k + n];
    forall d | 0 <= d < |t|
      ensures s[d] == t[d]
    {
      assert At(c, k + d) == At(c, k) + d;
    }
  }

  /** A slice grows by the next slice. */
  lemma NextSlice(s: seq<byte>, off: nat, size: nat, a: nat, b: nat)
    requires off + size <= |s| && a <= b <= size
    ensures s[off..off + size][..b] == s[off..off + size][..a] + s[off + a..off + b]
    ensures a == 0 ==> s[off..off + size][..b] == s[off..off + b]
  {
    var t, u := s[off..off + size][..b], s[off..off + size][..a] + s[off + a..off + b];
    assert |t| == |u|;
    forall k | 0 <= k < |t|
      ensures t[k] == u[k]
    {
      assert t[k] == s[off + k];
    }
  }
}

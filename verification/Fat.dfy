/**
 The allocations table: fat[b] is the block after b in its file, END after the
 last one. A chain is the sequence of blocks met by following the links.
 */
module Fat {
  import opened Words
  import opened Ownership

  const END: u32 := 0xFFFF_FFFF

  /** Is `c` a complete chain: in range, linked in order, END after its last block? */
  ghost predicate Linked(fat: seq<u32>, c: seq<u32>) {
    && |fat| <= END
    && |c| > 0
    && (forall k :: 0 <= k < |c| ==> c[k] < |fat|)
    && (forall k :: 0 <= k < |c| - 1 ==> fat[c[k]] == c[k + 1])
    && fat[c[|c| - 1]] == END
  }

  ghost function ChainFrom(fat: seq<u32>, b: u32, fuel: nat): seq<u32>
    decreases fuel
  {
    if fuel == 0 || b >= |fat| then [] else [b] + ChainFrom(fat, fat[b], fuel - 1)
  }

  /** The blocks met from `b` on; at most as many as the table has. */
  ghost function Chain(fat: seq<u32>, b: u32): seq<u32> {
    ChainFrom(fat, b, |fat|)
  }

  lemma ChainStarts(fat: seq<u32>, b: u32)
    requires |Chain(fat, b)| > 0
    ensures Chain(fat, b)[0] == b
  {
  }

  /** Two places of a chain never hold the same block: their remaining lengths differ. */
  lemma {:induction false} LinkedPlacesDiffer(fat: seq<u32>, c: seq<u32>, i: nat, j: nat)
    requires Linked(fat, c) && i < j < |c|
    ensures c[i] != c[j]
    decreases |c| - j
  {
    if j < |c| - 1 {
      LinkedPlacesDiffer(fat, c, i + 1, j + 1);
      assert fat[c[i]] == c[i + 1] && fat[c[j]] == c[j + 1];
    } else {
      assert fat[c[i]] == c[i + 1];
    }
  }

  /** Chains are acyclic. */
  lemma LinkedIsAcyclic(fat: seq<u32>, c: seq<u32>)
    requires Linked(fat, c)
    ensures Distinct(c)
  {
    forall i, j | 0 <= i < j < |c|
      ensures c[i] != c[j]
    {
      LinkedPlacesDiffer(fat, c, i, j);
    }
  }

  ghost function Below(n: nat): (s: set<int>)
    ensures |s| == n
    ensures forall x :: x in s <==> 0 <= x < n
  {
    if n == 0 then {} else Below(n - 1) + {n - 1}
  }

  lemma SubsetIsSmaller(a: set<int>, b: set<int>)
    requires a <= b
    ensures |a| <= |b|
  {
    assert b == a + (b - a);
  }

  lemma LinkedIsShort(fat: seq<u32>, c: seq<u32>)
    requires Linked(fat, c)
    ensures |c| <= |fat|
  {
    LinkedIsAcyclic(fat, c);
    SetOfDistinct(c);
    SubsetIsSmaller(SetOf(c), Below(|fat|));
  }

  lemma {:induction false} ChainFromLinked(fat: seq<u32>, c: seq<u32>, k: nat, fuel: nat)
    requires Linked(fat, c) && k <= |c| && |c| - k <= fuel
    ensures ChainFrom(fat, if k < |c| then c[k] else END, fuel) == c[k..]
    decreases |c| - k
  {
    if k < |c| {
      ChainFromLinked(fat, c, k + 1, fuel - 1);
      assert c[k..] == [c[k]] + c[k + 1..];
    }
  }

  /** A complete chain is the one found by following the links from its first block. */
  lemma ChainOfLinked(fat: seq<u32>, c: seq<u32>)
    requires Linked(fat, c)
    ensures Chain(fat, c[0]) == c
  {
    LinkedIsShort(fat, c);
    ChainFromLinked(fat, c, 0, |fat|);
  }

  /** Changing links outside a chain leaves the chain alone. */
  lemma LinkedElsewhere(fat: seq<u32>, fat': seq<u32>, c: seq<u32>)
    requires Linked(fat, c) && |fat'| == |fat|
    requires forall b :: b in c ==> fat'[b] == fat[b]
    ensures Linked(fat', c) && Chain(fat', c[0]) == c
  {
    forall k | 0 <= k < |c|
      ensures fat'[c[k]] == fat[c[k]]
    {
      assert c[k] in c;
    }
    ChainOfLinked(fat', c);
  }

  /** Linking a new block after the last one appends it to the chain. */
  lemma LinkedAppend(fat: seq<u32>, c: seq<u32>, b: u32)
    requires Linked(fat, c) && b < |fat| && b !in c
    ensures Linked(fat[c[|c| - 1] := b][b := END], c + [b])
    ensures Chain(fat[c[|c| - 1] := b][b := END], c[0]) == c + [b]
  {
    LinkedIsAcyclic(fat, c);
    ChainOfLinked(fat[c[|c| - 1] := b][b := END], c + [b]);
  }

  /** Ending the chain at its last block but one drops the last. */
  lemma LinkedDropLast(fat: seq<u32>, c: seq<u32>)
    requires Linked(fat, c) && |c| >= 2
    ensures Linked(fat[c[|c| - 2] := END], c[..|c| - 1])
    ensures Chain(fat[c[|c| - 2] := END], c[0]) == c[..|c| - 1]
  {
    LinkedIsAcyclic(fat, c);
    ChainOfLinked(fat[c[|c| - 2] := END], c[..|c| - 1]);
  }

  /** Follow the links to the last block; `prev` is the block before it, if there is one. */
  method LastBlock(fat: array<u32>, first: u32) returns (prev: u32, last: u32)
    requires Linked(fat[..], Chain(fat[..], first))
    ensures var c := Chain(fat[..], first);
      last == c[|c| - 1] && (|c| >= 2 ==> prev == c[|c| - 2])
  {
    ghost var c := Chain(fat[..], first);
    ghost var k := 0;
    prev, last := first, first;
    while fat[last] != END
      invariant k < |c| && last == c[k] && (k > 0 ==> prev == c[k - 1])
      invariant k < |c| - 1 ==> fat[..][c[k]] == c[k + 1]
      decreases |c| - k
    {
      prev := last;
      last := fat[last];
      k := k + 1;
    }
  }

  /** Follow `steps` links from the first block; past the last block there is only END. */
  method Follow(fat: array<u32>, first: u32, steps: nat) returns (block: u32)
    requires Linked(fat[..], Chain(fat[..], first))
    requires steps <= |Chain(fat[..], first)|
    ensures var c := Chain(fat[..], first);
      block == if steps < |c| then c[steps] else END
  {
    ghost var c := Chain(fat[..], first);
    block := first;
    for i := 0 to steps
      invariant block == if i < |c| then c[i] else END
    {
      block := fat[block];
    }
  }
}

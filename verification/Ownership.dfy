/** Who owns which block: pairwise disjoint lists of blocks, and bits that say exactly which are taken. */
module Ownership {
  import opened Words
  import opened Bitmap

  ghost predicate Apart(s: seq<u32>, t: seq<u32>) {
    forall b :: b in s ==> b !in t
  }

  ghost predicate Distinct(s: seq<u32>) {
    forall i, j :: 0 <= i < j < |s| ==> s[i] != s[j]
  }

  ghost predicate Held(own: seq<seq<u32>>, b: u32) {
    exists i :: 0 <= i < |own| && b in own[i]
  }

  ghost predicate Owned(own: seq<seq<u32>>, used: seq<bool>) {
    && (forall i, j :: 0 <= i < |own| && 0 <= j < |own| && i != j ==> Apart(own[i], own[j]))
    && (forall i, b :: 0 <= i < |own| && b in own[i] ==> b < |used|)
    && (forall b: u32 :: b < |used| ==> (used[b] <==> Held(own, b)))
  }

  lemma OwnedIsUsed(own: seq<seq<u32>>, used: seq<bool>, i: nat, b: u32)
    requires Owned(own, used) && i < |own| && b in own[i]
    ensures b < |used| && used[b]
  {
  }

  lemma Gain(own: seq<seq<u32>>, used: seq<bool>, i: nat, b: u32)
    requires Owned(own, used) && i < |own| && b < |used| && !used[b]
    ensures Owned(own[i := own[i] + [b]], used[b := true])
  {
    var own' := own[i := own[i] + [b]];
    assert !Held(own, b);
    assert forall x, j :: 0 <= j < |own| ==> (x in own'[j] <==> x in own[j] || (j == i && x == b));
    forall j, k | 0 <= j < |own| && 0 <= k < |own| && j != k
      ensures Apart(own'[j], own'[k])
    {
      assert Apart(own[j], own[k]);
    }
    forall x: u32 | x < |used|
      ensures Held(own', x) <==> x == b || Held(own, x)
    {
      if x == b {
        assert x in own'[i];
      } else if Held(own, x) {
        var j :| 0 <= j < |own| && x in own[j];
        assert x in own'[j];
      }
    }
  }

  lemma LoseLast(own: seq<seq<u32>>, used: seq<bool>, i: nat)
    requires Owned(own, used) && i < |own| && |own[i]| > 0 && Distinct(own[i])
    ensures var n := |own[i]| - 1; own[i][n] < |used| && Owned(own[i := own[i][..n]], used[own[i][n] := false])
  {
    var n := |own[i]| - 1;
    var b := own[i][n];
    assert b in own[i];
    var own' := own[i := own[i][..n]];
    forall x, j | 0 <= j < |own|
      ensures x in own'[j] <==> x in own[j] && x != b
    {
      if j == i {
        assert own[i] == own[i][..n] + [b];
      } else {
        assert Apart(own[i], own[j]);
      }
    }
    forall j, k | 0 <= j < |own| && 0 <= k < |own| && j != k
      ensures Apart(own'[j], own'[k])
    {
      assert Apart(own[j], own[k]);
    }
    forall x: u32 | x < |used|
      ensures Held(own', x) <==> x != b && Held(own, x)
    {
      if x != b && Held(own, x) {
        var j :| 0 <= j < |own| && x in own[j];
        assert x in own'[j];
      }
    }
  }

  /** `used` with all the blocks of s freed. */
  ghost function ClearAll(used: seq<bool>, s: seq<u32>): (r: seq<bool>)
    requires forall b :: b in s ==> b < |used|
    ensures |r| == |used|
    ensures forall b :: 0 <= b < |used| ==> (r[b] <==> used[b] && b !in s)
  {
    seq(|used|, b requires 0 <= b < |used| => used[b] && b !in s)
  }

  lemma LoseAll(own: seq<seq<u32>>, used: seq<bool>, i: nat)
    requires Owned(own, used) && i < |own|
    ensures Owned(own[i := []], ClearAll(used, own[i]))
  {
    var own' := own[i := []];
    forall x: u32 | x < |used|
      ensures Held(own', x) <==> x !in own[i] && Held(own, x)
    {
      if Held(own, x) && x !in own[i] {
        var j :| 0 <= j < |own| && x in own[j];
        assert x in own'[j];
      }
      if Held(own', x) {
        var j :| 0 <= j < |own| && x in own'[j];
        assert Apart(own[j], own[i]);
      }
    }
  }

  // Counting: what is free and what the owners hold add up to the whole.

  ghost function Total(own: seq<seq<u32>>): nat {
    if |own| == 0 then 0 else Total(own[..|own| - 1]) + |own[|own| - 1]|
  }

  lemma {:induction false} TotalUpdate(own: seq<seq<u32>>, i: nat, s: seq<u32>)
    requires i < |own|
    ensures Total(own[i := s]) == Total(own) - |own[i]| + |s|
  {
    var n := |own| - 1;
    if i == n {
      assert own[i := s][..n] == own[..n];
    } else {
      TotalUpdate(own[..n], i, s);
      assert own[i := s][..n] == own[..n][i := s];
    }
  }

  ghost function UsedSet(used: seq<bool>): set<int> {
    set b | 0 <= b < |used| && used[b]
  }

  lemma UsedSetGrows(used: seq<bool>)
    requires |used| > 0
    ensures |UsedSet(used)| == |UsedSet(used[..|used| - 1])| + if used[|used| - 1] then 1 else 0
  {
    var n := |used| - 1;
    if used[n] {
      assert UsedSet(used) == UsedSet(used[..n]) + {n};
    } else {
      assert UsedSet(used) == UsedSet(used[..n]);
    }
  }

  lemma {:induction false} FreeAndUsed(used: seq<bool>)
    ensures FreeCount(used) + |UsedSet(used)| == |used|
  {
    if |used| > 0 {
      var n := |used| - 1;
      FreeAndUsed(used[..n]);
      UsedSetGrows(used);
    }
  }

  ghost function SetOf(s: seq<u32>): set<int> {
    set k | 0 <= k < |s| :: s[k] as int
  }

  lemma {:induction false} SetOfDistinct(s: seq<u32>)
    requires Distinct(s)
    ensures |SetOf(s)| == |s|
  {
    if |s| > 0 {
      var n := |s| - 1;
      SetOfDistinct(s[..n]);
      assert SetOf(s) == SetOf(s[..n]) + {s[n]};
      assert s[n] !in SetOf(s[..n]);
    }
  }

  ghost function HeldSet(own: seq<seq<u32>>): (h: set<int>)
    ensures forall b: u32 :: b in h <==> Held(own, b)
    ensures forall b: int :: b in h ==> 0 <= b < 0x1_0000_0000
  {
    if |own| == 0 then {} else
      var n := |own| - 1;
      assert forall b: u32 :: Held(own, b) <==> Held(own[..n], b) || b in own[n];
      HeldSet(own[..n]) + SetOf(own[n])
  }

  lemma LastIsApart(own: seq<seq<u32>>)
    requires |own| > 0
    requires forall i, j :: 0 <= i < |own| && 0 <= j < |own| && i != j ==> Apart(own[i], own[j])
    ensures HeldSet(own[..|own| - 1]) !! SetOf(own[|own| - 1])
  {
    var n := |own| - 1;
    forall b | b in HeldSet(own[..n])
      ensures b !in SetOf(own[n])
    {
      assert Held(own[..n], b as u32);
      var i :| 0 <= i < n && (b as u32) in own[i];
      assert Apart(own[i], own[n]);
    }
  }

  lemma {:induction false} HeldSetSize(own: seq<seq<u32>>)
    requires forall i, j :: 0 <= i < |own| && 0 <= j < |own| && i != j ==> Apart(own[i], own[j])
    requires forall i :: 0 <= i < |own| ==> Distinct(own[i])
    ensures |HeldSet(own)| == Total(own)
  {
    if |own| > 0 {
      var n := |own| - 1;
      HeldSetSize(own[..n]);
      SetOfDistinct(own[n]);
      LastIsApart(own);
      hide Distinct, SetOf, Held, Apart;
    }
  }

  /** Conservation: free blocks plus held blocks are all the blocks. */
  lemma Conservation(own: seq<seq<u32>>, used: seq<bool>)
    requires Owned(own, used) && forall i :: 0 <= i < |own| ==> Distinct(own[i])
    requires |used| < 0x1_0000_0000
    ensures FreeCount(used) + Total(own) == |used|
  {
    FreeAndUsed(used);
    HeldSetSize(own);
    forall b: int
      ensures b in UsedSet(used) <==> b in HeldSet(own)
    {
      if 0 <= b < 0x1_0000_0000 {
        var c: u32 := b;
        assert c in HeldSet(own) <==> Held(own, c);
      }
    }
    assert UsedSet(used) == HeldSet(own);
  }
}

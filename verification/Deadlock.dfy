/**
 The deadlock detector's reduction over blocked trainers: who asks for what, who holds what, what the
 nests still have. The reduction as meant, the reduction as written, and how they differ.
 */
module Deadlock {
  /** How many are not marked. */
  ghost function Unmarked(f: seq<bool>): nat {
    if |f| == 0 then 0 else Unmarked(f[..|f| - 1]) + if f[|f| - 1] then 0 else 1
  }

  lemma {:induction false} UnmarkedFalls(f: seq<bool>, i: nat)
    requires i < |f| && !f[i]
    ensures Unmarked(f[i := true]) == Unmarked(f) - 1
  {
    var n := |f| - 1;
    if i == n {
      assert f[i := true][..n] == f[..n];
    } else {
      UnmarkedFalls(f[..n], i);
      assert f[i := true][..n] == f[..n][i := true];
    }
  }

  /** matPedidos, matAsignados and vecDisponibles for the trainers of eBlocked. */
  datatype Snapshot = Snapshot(asked: seq<seq<int>>, held: seq<seq<int>>, available: seq<int>)
  {
    function Trainers(): nat {
      |asked|
    }

    function Nests(): nat {
      |available|
    }

    ghost predicate Valid() {
      && |held| == |asked|
      && (forall i :: 0 <= i < |asked| ==> |asked[i]| == |available|)
      && (forall i :: 0 <= i < |held| ==> |held[i]| == |available|)
      && (forall i, j :: 0 <= i < |held| && 0 <= j < |available| ==> held[i][j] >= 0)
    }

    /** Trainer i holds something. */
    ghost predicate Holder(i: int)
      requires Valid()
    {
      0 <= i < Trainers() && exists j :: 0 <= j < Nests() && held[i][j] != 0
    }

    /** What the first n trainers would give back to nest j, if those marked in `finish` were done. */
    ghost function Returned(finish: seq<bool>, j: int, n: nat): int
      requires Valid() && |finish| == Trainers() && 0 <= j < Nests() && n <= Trainers()
    {
      if n == 0 then 0 else Returned(finish, j, n - 1) + if finish[n - 1] then held[n - 1][j] else 0
    }

    /** What nest j has once those marked are done. */
    ghost function Work(finish: seq<bool>, j: int): int
      requires Valid() && |finish| == Trainers() && 0 <= j < Nests()
    {
      available[j] + Returned(finish, j, Trainers())
    }

    /** Trainer i asks for more than there would be. */
    ghost predicate Exceeds(finish: seq<bool>, i: int)
      requires Valid() && |finish| == Trainers() && 0 <= i < Trainers()
    {
      exists j :: 0 <= j < Nests() && asked[i][j] > Work(finish, j)
    }

    /** The unmarked are holders, and each asks for more than the marked ones leave. */
    ghost predicate Stuck(finish: seq<bool>)
      requires Valid()
    {
      && |finish| == Trainers()
      && forall i :: 0 <= i < Trainers() && !finish[i] ==> Holder(i) && Exceeds(finish, i)
    }

    ghost predicate Within(f: seq<bool>, g: seq<bool>) {
      |f| == |g| && forall i :: 0 <= i < |f| && f[i] ==> g[i]
    }

    /** `finish` leaves unmarked the largest stuck set there is. */
    ghost predicate LeavesLargestStuck(finish: seq<bool>)
      requires Valid()
    {
      Stuck(finish) && forall f :: Stuck(f) ==> Within(finish, f)
    }

    lemma {:induction false} ReturnedIsNotNegative(f: seq<bool>, j: int, n: nat)
      requires Valid() && |f| == Trainers() && 0 <= j < Nests() && n <= Trainers()
      ensures Returned(f, j, n) >= 0
    {
      if n > 0 {
        ReturnedIsNotNegative(f, j, n - 1);
      }
    }

    lemma {:induction false} ReturnedGrows(f: seq<bool>, g: seq<bool>, j: int, n: nat)
      requires Valid() && |f| == |g| == Trainers() && 0 <= j < Nests() && n <= Trainers() && Within(f, g)
      ensures Returned(f, j, n) <= Returned(g, j, n)
    {
      if n > 0 {
        ReturnedGrows(f, g, j, n - 1);
      }
    }

    lemma {:induction false} ReturnedMark(f: seq<bool>, i: nat, j: int, n: nat)
      requires Valid() && |f| == Trainers() && 0 <= j < Nests() && n <= Trainers() && i < Trainers() && !f[i]
      ensures Returned(f[i := true], j, n) == Returned(f, j, n) + if i < n then held[i][j] else 0
    {
      if n > 0 {
        ReturnedMark(f, i, j, n - 1);
      }
    }

    lemma WorkGrows(f: seq<bool>, g: seq<bool>)
      requires Valid() && |f| == Trainers() && Within(f, g)
      ensures forall j :: 0 <= j < Nests() ==> Work(f, j) <= Work(g, j)
    {
      forall j | 0 <= j < Nests()
        ensures Work(f, j) <= Work(g, j)
      {
        ReturnedGrows(f, g, j, Trainers());
      }
    }

    /** Whoever can be served after the marked ones is marked wherever the rest is stuck. */
    lemma ServedIsMarked(f: seq<bool>, g: seq<bool>, i: int)
      requires Valid() && |f| == Trainers() && 0 <= i < Trainers() && !Exceeds(f, i)
      requires Stuck(g) && Within(f, g)
      ensures Within(f[i := true], g)
    {
      WorkGrows(f, g);
      assert !Exceeds(g, i);
    }

    /** There is only one such marking. */
    lemma LargestIsUnique(f: seq<bool>, g: seq<bool>)
      requires Valid() && LeavesLargestStuck(f) && LeavesLargestStuck(g)
      ensures f == g
    {
      assert Within(f, g) && Within(g, f);
    }

    // Completion orders: who can be served one after the other.

    /** Marks for non-holders and for the members of a list. */
    ghost function Marks(order: seq<nat>): (f: seq<bool>)
      requires Valid()
      ensures |f| == Trainers()
    {
      seq(Trainers(), h => h in order || !Holder(h))
    }

    /** Each in turn asks for no more than is there and than those before it, once done, give back. */
    ghost predicate CompletionOrder(order: seq<nat>)
      requires Valid()
    {
      forall k :: 0 <= k < |order| ==> order[k] < Trainers() && !Exceeds(Marks(order[..k]), order[k])
    }

    /** No completion order gets anybody of a stuck set done. */
    lemma {:induction false} OrderStaysWithin(order: seq<nat>, g: seq<bool>)
      requires Valid() && CompletionOrder(order) && Stuck(g)
      ensures Within(Marks(order), g)
    {
      if |order| == 0 {
      } else {
        var n := |order| - 1;
        var before := order[..n];
        assert forall k :: 0 <= k < n ==> before[..k] == order[..k] && before[k] == order[k];
        OrderStaysWithin(before, g);
        ServedIsMarked(Marks(before), g, order[n]);
        assert order == before + [order[n]];
      }
    }

    /** Any completion order can be gone on with until the rest is stuck. */
    lemma {:induction false} OrderToTheEnd(order: seq<nat>) returns (longer: seq<nat>)
      requires Valid() && CompletionOrder(order)
      ensures CompletionOrder(longer) && Stuck(Marks(longer))
      decreases Unmarked(Marks(order))
    {
      if Stuck(Marks(order)) {
        longer := order;
      } else {
        var f := Marks(order);
        var i: nat :| i < Trainers() && !f[i] && !Exceeds(f, i);
        var next := order + [i];
        assert next[..|order|] == order;
        assert forall k :: 0 <= k < |order| ==> next[..k] == order[..k] && next[k] == order[k];
        assert Marks(next) == f[i := true];
        UnmarkedFalls(f, i);
        longer := OrderToTheEnd(next);
      }
    }

    /** A holder is marked exactly when some completion order serves it: the rest is truly deadlocked. */
    lemma MarkedMeansServable(meant: seq<bool>, i: nat)
      requires Valid() && LeavesLargestStuck(meant) && i < Trainers() && Holder(i)
      ensures meant[i] <==> exists order :: CompletionOrder(order) && i in order
    {
      if meant[i] {
        var order := OrderToTheEnd([]);
        assert Within(meant, Marks(order));
      }
      forall order | CompletionOrder(order) && i in order
        ensures meant[i]
      {
        OrderStaysWithin(order, meant);
        assert Marks(order)[i];
      }
    }

    // The reduction as written: once somebody has to wait, the flag stays up for all that follow.

    /** Non-holders and the first k trainers. */
    ghost function FirstMarked(k: nat): (f: seq<bool>)
      requires Valid()
      ensures |f| == Trainers()
    {
      seq(Trainers(), h => h < k || !Holder(h))
    }

    /** From trainer k on, the first holder that asks for more than all before it leave. */
    ghost function FirstWaiting(k: nat): (i: nat)
      requires Valid() && k <= Trainers()
      ensures k <= i <= Trainers()
      ensures i < Trainers() ==> Holder(i) && Exceeds(FirstMarked(i), i)
      ensures forall h :: k <= h < i ==> !(Holder(h) && Exceeds(FirstMarked(h), h))
      decreases Trainers() - k
    {
      if k == Trainers() || (Holder(k) && Exceeds(FirstMarked(k), k)) then k else FirstWaiting(k + 1)
    }

    /** What the code as written marks. */
    ghost function WrittenMarks(): (f: seq<bool>)
      requires Valid()
      ensures |f| == Trainers()
    {
      FirstMarked(FirstWaiting(0))
    }

    lemma {:induction false} FirstMarkedWithin(k: nat, g: seq<bool>)
      requires Valid() && k <= FirstWaiting(0) && Stuck(g)
      ensures Within(FirstMarked(k), g)
    {
      if k > 0 {
        FirstMarkedWithin(k - 1, g);
        if Holder(k - 1) {
          ServedIsMarked(FirstMarked(k - 1), g, k - 1);
        }
      }
    }

    /** The code as written marks nobody that the reduction as meant does not: every truly deadlocked holder is reported. */
    lemma WrittenWithinMeant(meant: seq<bool>)
      requires Valid() && LeavesLargestStuck(meant)
      ensures Within(WrittenMarks(), meant)
    {
      FirstMarkedWithin(FirstWaiting(0), meant);
    }

    /**
     The code as written marks exactly what is meant if and only if, from the first holder that has
     to wait on, every holder asks for more than those before that one leave.
     */
    lemma WrittenIsMeantWhen(meant: seq<bool>)
      requires Valid() && LeavesLargestStuck(meant)
      ensures WrittenMarks() == meant <==>
        forall i :: FirstWaiting(0) <= i < Trainers() && Holder(i) ==> Exceeds(FirstMarked(FirstWaiting(0)), i)
    {
      WrittenWithinMeant(meant);
      var f := WrittenMarks();
      if forall i :: FirstWaiting(0) <= i < Trainers() && Holder(i) ==> Exceeds(f, i) {
        assert Stuck(f);
        assert Within(meant, f);
      }
      if f == meant {
        forall i | FirstWaiting(0) <= i < Trainers() && Holder(i)
          ensures Exceeds(f, i)
        {
          assert !f[i];
        }
      }
    }

    lemma FirstWaitingIsUnmarked()
      requires Valid()
      ensures FirstWaiting(0) == Trainers() || !WrittenMarks()[FirstWaiting(0)]
    {
    }

    /** No report means no deadlock: then the trainers, taken in list order, can all be served. */
    lemma NoReportNoDeadlock()
      requires Valid() && forall i :: 0 <= i < Trainers() ==> WrittenMarks()[i]
      ensures FirstWaiting(0) == Trainers()
      ensures forall i :: 0 <= i < Trainers() && Holder(i) ==> !Exceeds(FirstMarked(i), i)
      ensures forall f :: Stuck(f) ==> forall i :: 0 <= i < Trainers() ==> f[i]
    {
      FirstWaitingIsUnmarked();
      forall f | Stuck(f)
        ensures forall i :: 0 <= i < Trainers() ==> f[i]
      {
        FirstMarkedWithin(Trainers(), f);
        assert forall i :: 0 <= i < Trainers() ==> FirstMarked(Trainers())[i];
      }
    }
  }

  /** work starts as what is available; whoever holds nothing counts as finished. */
  method Initialise(s: Snapshot) returns (work: array<int>, finish: array<bool>)
    requires s.Valid()
    ensures fresh(work) && fresh(finish)
    ensures work.Length == s.Nests() && finish.Length == s.Trainers()
    ensures finish[..] == s.FirstMarked(0)
    ensures forall j :: 0 <= j < s.Nests() ==> work[j] == s.Work(finish[..], j)
  {
    work := new int[|s.available|];
    for j := 0 to |s.available|
      invariant forall k :: 0 <= k < j ==> work[k] == s.available[k]
    {
      work[j] := s.available[j];
    }
    finish := new bool[|s.asked|];
    for i := 0 to |s.asked|
      invariant forall h :: 0 <= h < i ==> finish[h] == !s.Holder(h)
      invariant forall k :: 0 <= k < |s.available| ==> work[k] == s.available[k]
    {
      finish[i] := true;
      for j := 0 to |s.available|
        invariant finish[i] && forall k :: 0 <= k < j ==> s.held[i][k] == 0
        invariant forall h :: 0 <= h < i ==> finish[h] == !s.Holder(h)
        invariant forall k :: 0 <= k < |s.available| ==> work[k] == s.available[k]
      {
        if s.held[i][j] != 0 {
          finish[i] := false;
          break;
        }
      }
      assert finish[i] == !s.Holder(i);
    }
    assert finish[..] == s.FirstMarked(0);
    forall j | 0 <= j < s.Nests()
      ensures s.Work(finish[..], j) == s.available[j]
    {
      NothingReturned(s, finish[..], j, s.Trainers());
    }
  }

  lemma {:induction false} NothingReturned(s: Snapshot, f: seq<bool>, j: int, n: nat)
    requires s.Valid() && |f| == s.Trainers() && 0 <= j < s.Nests() && n <= s.Trainers()
    requires forall i :: 0 <= i < |f| && f[i] ==> !s.Holder(i)
    ensures s.Returned(f, j, n) == 0
  {
    if n > 0 {
      NothingReturned(s, f, j, n - 1);
      assert f[n - 1] ==> !s.Holder(n - 1);
    }
  }

  /** The inner loop over the nests: does trainer i ask for more than there is? */
  method Waits(s: Snapshot, work: array<int>, i: nat) returns (waits: bool)
    requires s.Valid() && work.Length == s.Nests() && i < s.Trainers()
    ensures waits <==> exists j :: 0 <= j < s.Nests() && s.asked[i][j] > work[j]
  {
    for j := 0 to |s.available|
      invariant forall k :: 0 <= k < j ==> s.asked[i][k] <= work[k]
    {
      if s.asked[i][j] > work[j] {
        return true;
      }
    }
    return false;
  }

  /** Trainer i is done: what it holds goes back. */
  method Complete(s: Snapshot, work: array<int>, finish: array<bool>, i: nat)
    requires s.Valid() && work.Length == s.Nests() && finish.Length == s.Trainers() && i < s.Trainers()
    requires work as object != finish && !finish[i]
    requires forall j :: 0 <= j < s.Nests() ==> work[j] == s.Work(finish[..], j)
    modifies work, finish
    ensures finish[..] == old(finish[..])[i := true]
    ensures forall j :: 0 <= j < s.Nests() ==> work[j] == s.Work(finish[..], j)
  {
    ghost var f := finish[..];
    for j := 0 to |s.available|
      invariant finish[..] == f
      invariant forall k :: 0 <= k < j ==> work[k] == s.Work(f, k) + s.held[i][k]
      invariant forall k :: j <= k < s.Nests() ==> work[k] == s.Work(f, k)
    {
      work[j] := work[j] + s.held[i][j];
    }
    finish[i] := true;
    assert finish[..] == f[i := true];
    forall j | 0 <= j < s.Nests()
      ensures s.Work(f[i := true], j) == s.Work(f, j) + s.held[i][j]
    {
      s.ReturnedMark(f, i, j, s.Trainers());
    }
  }

  /** What the reduction knows at any moment. */
  ghost predicate Progress(s: Snapshot, f: seq<bool>, order: seq<nat>)
    requires s.Valid()
  {
    && |f| == s.Trainers()
    && (forall g :: s.Stuck(g) ==> s.Within(f, g))
    && s.CompletionOrder(order) && f == s.Marks(order)
  }

  lemma ProgressStarts(s: Snapshot)
    requires s.Valid()
    ensures Progress(s, s.FirstMarked(0), [])
  {
    assert s.FirstMarked(0) == s.Marks([]);
  }

  /** Whoever is served joins the completion order and cannot be in any stuck set. */
  lemma ProgressGoesOn(s: Snapshot, f: seq<bool>, order: seq<nat>, i: nat)
    requires s.Valid() && Progress(s, f, order) && i < s.Trainers() && !f[i] && !s.Exceeds(f, i)
    ensures Progress(s, f[i := true], order + [i])
  {
    forall g | s.Stuck(g)
      ensures s.Within(f[i := true], g)
    {
      s.ServedIsMarked(f, g, i);
    }
    var longer := order + [i];
    assert longer[..|order|] == order;
    assert forall k :: 0 <= k < |order| ==> longer[..k] == order[..k] && longer[k] == order[k];
    assert f[i := true] == s.Marks(longer);
  }

  /** work holds what the nests have once the marked trainers are done. */
  ghost predicate Tallies(s: Snapshot, work: seq<int>, f: seq<bool>)
    requires s.Valid()
  {
    |work| == s.Nests() && |f| == s.Trainers() && forall j :: 0 <= j < s.Nests() ==> work[j] == s.Work(f, j)
  }

  /** A scan that leaves nobody out. */
  ghost predicate Scans(s: Snapshot, scan: seq<nat>) {
    && (forall k :: 0 <= k < |scan| ==> scan[k] < s.Trainers())
    && (forall i: nat :: i < s.Trainers() ==> i in scan)
  }

  /** One trainer of a pass: if it is not done and need not wait, it is done. */
  method Visit(s: Snapshot, work: array<int>, done: array<bool>, ghost order: seq<nat>, i: nat)
    returns (marked: bool, ghost longer: seq<nat>)
    requires s.Valid() && work as object != done && i < s.Trainers()
    requires Tallies(s, work[..], done[..]) && Progress(s, done[..], order)
    modifies work, done
    ensures Tallies(s, work[..], done[..]) && Progress(s, done[..], longer)
    ensures if marked then Unmarked(done[..]) == Unmarked(old(done[..])) - 1
            else done[..] == old(done[..]) && (done[..][i] || s.Exceeds(done[..], i))
  {
    marked, longer := false, order;
    if !done[i] {
      var flag := Waits(s, work, i);
      if !flag {
        assert !s.Exceeds(done[..], i);
        ProgressGoesOn(s, done[..], order, i);
        UnmarkedFalls(done[..], i);
        Complete(s, work, done, i);
        return true, order + [i];
      }
    }
  }

  /** One pass over the trainers. */
  method Pass(s: Snapshot, scan: seq<nat>, work: array<int>, done: array<bool>, ghost order: seq<nat>)
    returns (again: bool, ghost longer: seq<nat>)
    requires s.Valid() && Scans(s, scan) && work as object != done
    requires Tallies(s, work[..], done[..]) && Progress(s, done[..], order)
    modifies work, done
    ensures Tallies(s, work[..], done[..]) && Progress(s, done[..], longer)
    ensures again ==> Unmarked(done[..]) < Unmarked(old(done[..]))
    ensures !again ==> done[..] == old(done[..]) && s.Stuck(done[..])
  {
    again, longer := false, order;
    ghost var f := done[..];
    for k := 0 to |scan|
      invariant Tallies(s, work[..], done[..]) && Progress(s, done[..], longer)
      invariant again ==> Unmarked(done[..]) < Unmarked(f)
      invariant !again ==> done[..] == f && forall h :: 0 <= h < k ==> f[scan[h]] || s.Exceeds(f, scan[h])
    {
      var marked;
      marked, longer := Visit(s, work, done, longer, scan[k]);
      if marked {
        again := true;
      }
    }
    if !again {
      PassLeavesStuck(s, scan, f, longer);
    }
  }

  lemma PassLeavesStuck(s: Snapshot, scan: seq<nat>, f: seq<bool>, order: seq<nat>)
    requires s.Valid() && Scans(s, scan) && Progress(s, f, order)
    requires forall h :: 0 <= h < |scan| ==> f[scan[h]] || s.Exceeds(f, scan[h])
    ensures s.Stuck(f)
  {
    forall i: nat | i < s.Trainers() && !f[i]
      ensures s.Holder(i) && s.Exceeds(f, i)
    {
      assert i in scan;
    }
  }

  /**
   The reduction as meant, with the flag lowered for each trainer, scanning in any order: what it
   leaves unmarked is the largest stuck set, whoever it marks can be served in the order it found,
   and every pass but the last marks somebody.
   */
  method DetectMeant(s: Snapshot, scan: seq<nat>)
    returns (finish: seq<bool>, passes: nat, ghost order: seq<nat>)
    requires s.Valid() && Scans(s, scan)
    ensures s.LeavesLargestStuck(finish)
    ensures s.CompletionOrder(order) && finish == s.Marks(order)
    ensures passes <= Unmarked(s.FirstMarked(0)) + 1
  {
    var work, done := Initialise(s);
    order, passes := [], 0;
    ProgressStarts(s);
    var again := true;
    while again
      invariant fresh(work) && fresh(done) && work as object != done
      invariant Tallies(s, work[..], done[..]) && Progress(s, done[..], order)
      invariant !again ==> s.Stuck(done[..])
      invariant passes + Unmarked(done[..]) <= Unmarked(s.FirstMarked(0)) + if again then 0 else 1
      decreases Unmarked(done[..]), again
    {
      again, order := Pass(s, scan, work, done, order);
      passes := passes + 1;
    }
    finish := done[..];
  }

  /** Where the code as written stands before trainer i: nobody had to wait yet, or somebody did. */
  ghost predicate Reached(s: Snapshot, f: seq<bool>, i: nat, flag: bool)
    requires s.Valid()
  {
    && i <= s.Trainers()
    && if flag then f == s.WrittenMarks() && s.FirstWaiting(0) < s.Trainers()
       else i <= s.FirstWaiting(0) && (f == s.FirstMarked(i) || (f == s.FirstMarked(s.Trainers()) && s.FirstWaiting(0) == s.Trainers()))
  }

  lemma ReachedNext(s: Snapshot, f: seq<bool>, i: nat, flag: bool)
    requires s.Valid() && Reached(s, f, i, flag) && i < s.Trainers()
    ensures f[i] ==> Reached(s, f, i + 1, flag)
    ensures !f[i] && flag ==> Reached(s, f, i + 1, true)
    ensures !f[i] && !flag && s.Exceeds(f, i) ==> Reached(s, f, i + 1, true)
    ensures !f[i] && !flag && !s.Exceeds(f, i) ==> Reached(s, f[i := true], i + 1, false)
  {
    var now, next := s.FirstMarked(i), s.FirstMarked(i + 1);
    assert now[i] == !s.Holder(i);
    assert now[i := true] == next;
    assert now[i] ==> now == next;
    assert s.FirstMarked(s.Trainers())[i];
    if i <= s.FirstWaiting(0) && !now[i] {
      FirstWaitingStep(s, i);
    }
  }

  lemma FirstWaitingStep(s: Snapshot, i: nat)
    requires s.Valid() && i <= s.FirstWaiting(0) && i < s.Trainers() && s.Holder(i)
    ensures s.FirstWaiting(0) == i <==> s.Exceeds(s.FirstMarked(i), i)
  {
  }

  /** One trainer of the scan as written. */
  method VisitAsWritten(s: Snapshot, work: array<int>, done: array<bool>, i: nat, raised: bool)
    returns (marked: bool, flag: bool)
    requires s.Valid() && work as object != done && i < s.Trainers()
    requires Tallies(s, work[..], done[..]) && Reached(s, done[..], i, raised)
    modifies work, done
    ensures Tallies(s, work[..], done[..]) && Reached(s, done[..], i + 1, flag)
    ensures marked ==> !raised && !old(done[..])[i] && done[..] == old(done[..])[i := true]
    ensures !marked ==> done[..] == old(done[..])
  {
    ReachedNext(s, done[..], i, raised);
    marked, flag := false, raised;
    if !done[i] {
      var waits := Waits(s, work, i);
      assert waits <==> s.Exceeds(done[..], i);
      if waits {
        flag := true;
      }
      if !flag {
        Complete(s, work, done, i);
        marked := true;
      }
    }
  }

  /** One pass as written; a pass that finds everything as the last one left it marks nobody. */
  method PassAsWritten(s: Snapshot, work: array<int>, done: array<bool>, raised: bool) returns (again: bool, flag: bool)
    requires s.Valid() && work as object != done
    requires Tallies(s, work[..], done[..]) && Reached(s, done[..], 0, raised)
    modifies work, done
    ensures Tallies(s, work[..], done[..]) && done[..] == s.WrittenMarks() && Reached(s, done[..], 0, flag)
    ensures old(done[..]) == s.WrittenMarks() ==> !again
  {
    again, flag := false, raised;
    ghost var f := done[..];
    for i := 0 to |s.asked|
      invariant Tallies(s, work[..], done[..]) && Reached(s, done[..], i, flag)
      invariant !again ==> done[..] == f
      invariant again ==> exists h :: 0 <= h < i && !f[h] && done[..][h]
      invariant forall h :: 0 <= h < |f| && f[h] ==> done[..][h]
    {
      var marked;
      marked, flag := VisitAsWritten(s, work, done, i, flag);
      if marked {
        again := true;
        assert !f[i] && done[..][i];
      }
    }
    AllVisited(s, done[..], flag);
  }

  lemma AllVisited(s: Snapshot, f: seq<bool>, flag: bool)
    requires s.Valid() && Reached(s, f, s.Trainers(), flag)
    ensures f == s.WrittenMarks() && Reached(s, f, 0, flag)
  {
  }

  /** The reduction as written: exactly those are marked that come before the first holder that waits, in at most two passes. */
  method DetectAsWritten(s: Snapshot) returns (finish: seq<bool>, passes: nat)
    requires s.Valid()
    ensures finish == s.WrittenMarks()
    ensures passes <= 2
  {
    var work, done := Initialise(s);
    var flag, again := false, true;
    passes := 0;
    while again
      invariant fresh(work) && fresh(done) && work as object != done
      invariant Tallies(s, work[..], done[..]) && Reached(s, done[..], 0, flag)
      invariant passes > 0 ==> done[..] == s.WrittenMarks()
      invariant if again then passes <= 1 else 0 < passes <= 2
      decreases 2 - passes
    {
      again, flag := PassAsWritten(s, work, done, flag);
      passes := passes + 1;
    }
    finish := done[..];
  }

  /** Trainer 0 holds of nest 0 and asks nest 1; trainer 1 holds of nest 1 and asks nest 2, which has one. */
  const FALSE_ALARM := Snapshot([[0, 1, 0], [0, 0, 1]], [[1, 0, 0], [0, 1, 0]], [0, 0, 1])

  /** The code as written reports both, though trainer 1 and then trainer 0 can be served. */
  lemma FalseAlarm()
    ensures FALSE_ALARM.Valid()
    ensures FALSE_ALARM.WrittenMarks() == [false, false]
    ensures FALSE_ALARM.LeavesLargestStuck([true, true])
  {
    var s := FALSE_ALARM;
    assert s.held[0][0] == 1 && s.held[1][1] == 1;
    assert s.Holder(0) && s.Holder(1);
    var none := s.FirstMarked(0);
    assert none == [false, false];
    assert s.Returned(none, 1, 0) == 0 && s.Returned(none, 1, 1) == 0 && s.Returned(none, 1, 2) == 0;
    assert s.asked[0][1] == 1 && s.Work(none, 1) == 0;
    assert s.Exceeds(none, 0);
    assert s.FirstWaiting(0) == 0;
    FalseAlarmServes();
    forall g | s.Stuck(g)
      ensures s.Within([true, true], g)
    {
      s.OrderStaysWithin([1, 0], g);
      assert s.Marks([1, 0]) == [true, true];
    }
  }

  lemma FalseAlarmServes()
    ensures FALSE_ALARM.Valid() && FALSE_ALARM.CompletionOrder([1, 0])
  {
    var s := FALSE_ALARM;
    assert s.held[0][0] == 1 && s.held[1][1] == 1;
    assert s.Holder(0) && s.Holder(1);
    var order := [1, 0];
    assert order[..0] == [] && order[..1] == [1];
    var m0, m1 := s.Marks([]), s.Marks([1]);
    assert m0 == [false, false] && m1 == [false, true];
    assert s.Returned(m0, 2, 0) == 0 && s.Returned(m0, 2, 1) == 0 && s.Returned(m0, 2, 2) == 0;
    assert s.Returned(m1, 1, 0) == 0 && s.Returned(m1, 1, 1) == 0 && s.Returned(m1, 1, 2) == 1;
    forall j | 0 <= j < 3
      ensures s.asked[1][j] <= s.Work(m0, j) && s.asked[0][j] <= s.Work(m1, j)
    {
      s.ReturnedIsNotNegative(m0, j, 2);
      s.ReturnedIsNotNegative(m1, j, 2);
    }
    assert !s.Exceeds(m0, 1) && !s.Exceeds(m1, 0);
  }
}

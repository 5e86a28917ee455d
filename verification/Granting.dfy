/** What it means not to be deadlocked: if those that get their Pokémon then leave, such a trainer gets its own. */
module Granting {
  import opened Nests
  import opened Arena
  import opened ArenaInvariant
  import opened Service
  import opened Deadlock
  import opened MapServer
  import opened Detector
  import opened DetectorRound
  import opened Starving

  /** No trainer leaves while it is blocked. */
  ghost predicate NobodyGivesUp(events: seq<Event>) {
    forall e :: e in events ==> !e.BlockedLeaves?
  }

  // Stretches of a run. Each lengthens a run that has led from `start` to s.

  ghost predicate Reached(start: State, events: seq<Event>, s: State) {
    Good(start) && Good(s) && Run(start, events, s) && NobodyGivesUp(events)
  }

  lemma On(start: State, events: seq<Event>, s: State, e: Event, b: State) returns (more: seq<Event>)
    requires Reached(start, events, s) && Enabled(s, e) && b == Step(s, e) && !e.BlockedLeaves?
    ensures Reached(start, more, b)
  {
    hide Good, Run, Step, Enabled;
    more := Next(start, events, s, e, b);
  }

  /** The planner finishes what it is doing. */
  lemma BecomeIdle(start: State, events: seq<Event>, s: State) returns (more: seq<Event>, r: State)
    requires Reached(start, events, s)
    ensures Reached(start, more, r) && r.planner.Idle? && r.nests == s.nests && r.trainers == s.trainers && r.blocked == s.blocked
  {
    hide Run, Served, Gone, Moved, Placed, Kinds, HasNest, NobodyGivesUp;
    more, r := events, s;
    if r.planner.Woken? {
      var next := Step(r, Pick(0));
      more := On(start, more, r, Pick(0), next);
      r := next;
    }
    if r.planner.Runs? {
      var next := Step(r, RunnerRequeues);
      more := On(start, more, r, RunnerRequeues, next);
      r := next;
    }
  }

  /** All is as it was but for the assigner's token and its counts. */
  ghost predicate OnlyTokens(s: State, r: State) {
    r == s.(token := r.token, semAsig := r.semAsig, postsAsig := r.postsAsig)
  }

  lemma GetToken(start: State, events: seq<Event>, s: State) returns (more: seq<Event>, r: State)
    requires Reached(start, events, s) && s.blocked != []
    ensures Reached(start, more, r) && r.token && OnlyTokens(s, r)
  {
    hide Run, Served, Gone, Moved, Placed, Kinds, HasNest, NobodyGivesUp;
    more, r := events, s;
    if !r.token && r.semAsig == 0 {
      var next := r.(postsAsig := r.postsAsig - 1, semAsig := 1);
      more := On(start, more, r, PostBlocked, next);
      r := next;
    }
    if !r.token {
      var next := r.(token := true, semAsig := r.semAsig - 1);
      more := On(start, more, r, AssignerWakes, next);
      r := next;
    }
  }

  /** A service of the first in line that finds nothing. */
  lemma RotateHead(start: State, events: seq<Event>, s: State) returns (more: seq<Event>, r: State)
    requires Reached(start, events, s) && s.blocked != [] && !HasStock(s, s.blocked[0])
    ensures Reached(start, more, r) && OnlyTokens(s.(blocked := s.blocked[1..] + [s.blocked[0]]), r)
  {
    hide Run, NobodyGivesUp;
    more, r := GetToken(start, events, s);
    ServeCases(r);
    hide Placed, Kinds, Counted, Step, Enabled;
    var next := Step(r, Serve);
    more := On(start, more, r, Serve, next);
    r := next;
  }

  /** The k-th in line is the first there is something for: it comes to the front. */
  lemma BringUp(start: State, events: seq<Event>, s: State, k: nat) returns (more: seq<Event>, r: State)
    requires Reached(start, events, s) && k < |s.blocked|
    requires forall j :: 0 <= j < k ==> !HasStock(s, s.blocked[j])
    ensures Reached(start, more, r) && OnlyTokens(s.(blocked := s.blocked[k..] + s.blocked[..k]), r)
    decreases k
  {
    hide Good, Run, NobodyGivesUp, HasStock;
    if k == 0 {
      more, r := events, s;
      assert s.blocked[0..] + s.blocked[..0] == s.blocked;
    } else {
      var next;
      more, next := RotateHead(start, events, s);
      forall j | 0 <= j < k - 1
        ensures !HasStock(next, next.blocked[j])
      {
        assert next.blocked[j] == s.blocked[j + 1];
        SameStock(s, next, next.blocked[j]);
      }
      more, r := BringUp(start, more, next, k - 1);
      assert next.blocked[k - 1..] + next.blocked[..k - 1] == s.blocked[k..] + s.blocked[..k];
    }
  }

  lemma SameStock(s: State, r: State, t: Trainer)
    requires r.nests == s.nests && r.trainers == s.trainers
    ensures HasStock(r, t) <==> HasStock(s, t)
  {
  }

  /** Trainer t has got what it wanted and has left with everything back in the nests. */
  ghost predicate GotAndWent(s: State, r: State, t: Trainer) {
    && t in s.trainers && r.planner.Idle? && r.trainers == s.trainers - {t} && SameSites(s.nests, r.nests)
    && forall i :: 0 <= i < |s.nests| ==>
         |r.nests[i].pokemons| == |s.nests[i].pokemons| + |OfKind(s.trainers[t].pokemons, s.nests[i].id)|
  }

  /** Taking the front of a queue and giving it back with all else leaves the queue as long as giving back all else does. */
  lemma TakenAndGiven(s: State, at: nat, list: seq<Pokemon>)
    requires Named(s.nests) && Pure(s.nests) && at < |s.nests| && s.nests[at].pokemons != [] && Homed(s.nests, list)
    ensures var q := s.nests[at].pokemons;
      var nests := WithQueue(s.nests, at, q[1..]);
      && Homed(nests, list + [q[0]])
      && SameSites(s.nests, ReturnAll(nests, list + [q[0]]))
      && forall i :: 0 <= i < |s.nests| ==>
           |ReturnAll(nests, list + [q[0]])[i].pokemons| == |s.nests[i].pokemons| + |OfKind(list, s.nests[i].id)|
  {
    var q := s.nests[at].pokemons;
    var nests := WithQueue(s.nests, at, q[1..]);
    HandOut(s.nests, at);
    HomedElsewhere(s.nests, nests, list);
    HomedWithOne(nests, list, q[0], at);
    NamedElsewhere(s.nests, nests, NONE);
    hide Homed, HasNest, Pure;
    forall i: nat | i < |s.nests|
      ensures |ReturnAll(nests, list + [q[0]])[i].pokemons| == |s.nests[i].pokemons| + |OfKind(list, s.nests[i].id)|
    {
      ReturnAllIsExact(nests, list + [q[0]], i);
      OfKindAdded(list, q[0], s.nests[i].id);
    }
  }

  /** What the first in line gets: the front of that nest's queue. */
  ghost function Granted(s: State, at: nat): State
    requires s.blocked != [] && s.blocked[0] in s.trainers && at < |s.nests| && s.nests[at].pokemons != []
  {
    var t, q := s.blocked[0], s.nests[at].pokemons;
    s.(nests := WithQueue(s.nests, at, q[1..]),
       trainers := s.trainers[t := s.trainers[t].(obj := NONE, pokemons := s.trainers[t].pokemons + [q[0]])],
       blocked := s.blocked[1..], ready := s.ready + [t], postsPlan := s.postsPlan + 1, token := false)
  }

  lemma Grant(start: State, events: seq<Event>, s: State) returns (more: seq<Event>, at: nat)
    requires Reached(start, events, s) && s.token && s.blocked != [] && HasStock(s, s.blocked[0])
    ensures s.blocked[0] in s.trainers && at < |s.nests| && s.nests[at].pokemons != []
    ensures Reached(start, more, Granted(s, at))
  {
    hide Run, NobodyGivesUp;
    ServeCases(s);
    hide Placed, Kinds, Counted, Step, Enabled;
    at := NestOf(s.nests, Obj(s, s.blocked[0]));
    more := On(start, events, s, Serve, Granted(s, at));
  }

  /** The planner takes the last of the ready list. */
  lemma TakeLast(start: State, events: seq<Event>, s: State) returns (more: seq<Event>)
    requires Reached(start, events, s) && s.planner.Idle? && s.ready != [] && s.postsPlan > 0
    ensures var n := |s.ready| - 1;
      Reached(start, more, s.(postsPlan := s.postsPlan - 1, planner := Runs(s.ready[n]), ready := s.ready[..n]))
  {
    var n := |s.ready| - 1;
    assert Without(s.ready, n) == s.ready[..n];
    hide Good, Run, NobodyGivesUp, HasNest, Served, Moved, Gone, Without;
    var a := s.(postsPlan := s.postsPlan - 1, semPlan := s.semPlan + 1);
    var b := s.(postsPlan := s.postsPlan - 1, planner := Woken);
    more := On(start, events, s, PostReady, a);
    more := On(start, more, a, PlannerWakes, b);
    more := On(start, more, b, Pick(n), s.(postsPlan := s.postsPlan - 1, planner := Runs(s.ready[n]), ready := s.ready[..n]));
  }

  /** The last of the ready list leaves. */
  lemma LastGoes(start: State, events: seq<Event>, s: State) returns (more: seq<Event>, r: State)
    requires Reached(start, events, s) && s.planner.Idle? && s.ready != [] && s.postsPlan > 0
    ensures var t := s.ready[|s.ready| - 1];
      && t in s.trainers && Homed(s.nests, s.trainers[t].pokemons) && Reached(start, more, r)
      && r == s.(nests := ReturnAll(s.nests, s.trainers[t].pokemons), trainers := s.trainers - {t},
                 ready := s.ready[..|s.ready| - 1], postsPlan := s.postsPlan - 1)
  {
    var n := |s.ready| - 1;
    var c := s.(postsPlan := s.postsPlan - 1, planner := Runs(s.ready[n]), ready := s.ready[..n]);
    more := TakeLast(start, events, s);
    hide Good, Run, NobodyGivesUp, Homed, ReturnAll, Step;
    RunnerCases(c);
    RunnerMayRequeue(c);
    hide Enabled;
    r := Step(c, RunnerLeaves);
    more := On(start, more, c, RunnerLeaves, r);
  }

  lemma GrantThenGo(start: State, events: seq<Event>, s: State) returns (more: seq<Event>, r: State, at: nat)
    requires Reached(start, events, s) && s.planner.Idle? && s.blocked != [] && HasStock(s, s.blocked[0])
    ensures s.blocked[0] in s.trainers && at < |s.nests| && s.nests[at].pokemons != []
    ensures var t, q := s.blocked[0], s.nests[at].pokemons;
      var nests, list := WithQueue(s.nests, at, q[1..]), s.trainers[t].pokemons + [q[0]];
      && Reached(start, more, r) && r.planner.Idle? && r.trainers == s.trainers - {t} && r.blocked == s.blocked[1..]
      && Homed(nests, list) && r.nests == ReturnAll(nests, list)
  {
    var a;
    more, a := GetToken(start, events, s);
    SameStock(s, a, s.blocked[0]);
    hide Reached, HasStock;
    more, at := Grant(start, more, a);
    FieldsOfGranted(a, at);
    hide Granted, WithQueue, Homed;
    more, r := LastGoes(start, more, Granted(a, at));
  }

  /** The first in line gets its Pokémon, is ready, and leaves when the planner takes it. */
  lemma GrantAndGo(start: State, events: seq<Event>, s: State) returns (more: seq<Event>, r: State)
    requires Reached(start, events, s) && s.planner.Idle? && s.blocked != [] && HasStock(s, s.blocked[0])
    ensures Reached(start, more, r) && r.planner.Idle? && GotAndWent(s, r, s.blocked[0]) && r.blocked == s.blocked[1..]
  {
    hide Reached, HasStock, Homed, ReturnAll, WithQueue, Named, Pure, SameSites, OfKind;
    var at;
    more, r, at := GrantThenGo(start, events, s);
    ReachedHomes(start, events, s, s.blocked[0]);
    TakenAndGiven(s, at, s.trainers[s.blocked[0]].pokemons);
  }

  lemma FieldsOfGranted(s: State, at: nat)
    requires s.blocked != [] && s.blocked[0] in s.trainers && at < |s.nests| && s.nests[at].pokemons != []
    ensures var t, q, r := s.blocked[0], s.nests[at].pokemons, Granted(s, at);
      && r.nests == WithQueue(s.nests, at, q[1..]) && t in r.trainers
      && r.trainers[t].pokemons == s.trainers[t].pokemons + [q[0]] && r.trainers - {t} == s.trainers - {t}
      && r.blocked == s.blocked[1..] && r.ready == s.ready + [t] && r.planner == s.planner
  {
  }

  lemma ReachedHomes(start: State, events: seq<Event>, s: State, t: Trainer)
    requires Reached(start, events, s) && t in s.trainers
    ensures Named(s.nests) && Pure(s.nests) && Homed(s.nests, s.trainers[t].pokemons)
  {
  }

  // Serving as long as there is something to serve.

  /** Who of those blocked at the start is not any more. */
  ghost function NoMore(s0: State, blocked: seq<Trainer>): (f: seq<bool>)
    ensures |f| == |s0.blocked|
  {
    seq(|s0.blocked|, i requires 0 <= i < |s0.blocked| => s0.blocked[i] !in blocked)
  }

  /** Who is still blocked is as it was, and so is everybody who was not blocked; each nest stands where it stood. */
  ghost predicate SameOthers(s0: State, s: State) {
    && SameSites(s0.nests, s.nests)
    && (forall t :: t in s.blocked ==> t in s0.blocked && t in s0.trainers && t in s.trainers && s.trainers[t] == s0.trainers[t])
    && (forall t :: t in s0.trainers && t !in s0.blocked ==> t in s.trainers)
  }

  /** Those that are not blocked any more have left: each nest has what it had and what they gave back. */
  ghost predicate SoFar(s0: State, s: State)
    requires SnapshotOf(s0).Valid()
  {
    && SameOthers(s0, s)
    && forall j :: 0 <= j < |s0.nests| ==> |s.nests[j].pokemons| == SnapshotOf(s0).Work(NoMore(s0, s.blocked), j)
  }

  lemma StockAtFirst(s0: State, j: nat)
    requires Few(s0) && SnapshotOf(s0).Valid() && j < |s0.nests|
    ensures SnapshotOf(s0).Work(NoMore(s0, s0.blocked), j) == |s0.nests[j].pokemons|
  {
    hide Snapshot.Valid, OfKind, Holdings, Goal;
    assert SnapshotOf(s0).available[j] == |s0.nests[j].pokemons|;
    hide SnapshotOf;
    NothingReturned(SnapshotOf(s0), NoMore(s0, s0.blocked), j, |s0.blocked|);
  }

  lemma SoFarStarts(s0: State, s: State)
    requires Good(s0) && Few(s0) && SnapshotOf(s0).Valid()
    requires s.nests == s0.nests && s.trainers == s0.trainers && s.blocked == s0.blocked
    ensures SoFar(s0, s)
  {
    hide SnapshotOf, Good, Few, NoMore, Snapshot.Work;
    forall i | 0 <= i < |s0.blocked|
      ensures s0.blocked[i] in s0.trainers
    {
      BlockedIsThere(s0, i);
    }
    forall j | 0 <= j < |s0.nests|
      ensures |s.nests[j].pokemons| == SnapshotOf(s0).Work(NoMore(s0, s.blocked), j)
    {
      StockAtFirst(s0, j);
    }
  }

  lemma SoFarRotates(s0: State, s: State, r: State, k: nat)
    requires SnapshotOf(s0).Valid() && SoFar(s0, s) && k < |s.blocked|
    requires OnlyTokens(s.(blocked := s.blocked[k..] + s.blocked[..k]), r)
    ensures SoFar(s0, r)
  {
    hide SnapshotOf;
    assert forall t :: t in r.blocked <==> t in s.blocked;
    assert NoMore(s0, r.blocked) == NoMore(s0, s.blocked);
  }

  lemma OneLess(s0: State, s: State, i: nat)
    requires Placed(s0) && Placed(s) && i < |s0.blocked| && s.blocked != [] && s0.blocked[i] == s.blocked[0]
    ensures !NoMore(s0, s.blocked)[i] && NoMore(s0, s.blocked[1..]) == NoMore(s0, s.blocked)[i := true]
  {
    HeadOnce(s);
    assert s.blocked == [s.blocked[0]] + s.blocked[1..];
    forall h | 0 <= h < |s0.blocked|
      ensures NoMore(s0, s.blocked[1..])[h] == NoMore(s0, s.blocked)[i := true][h]
    {
      if h != i {
        BlockedOnce(s0, h, i);
      }
    }
  }

  lemma HeadOnce(s: State)
    requires Placed(s) && s.blocked != []
    ensures s.blocked[0] !in s.blocked[1..]
  {
    if s.blocked[0] in s.blocked[1..] {
      var k :| 1 <= k < |s.blocked| && s.blocked[k] == s.blocked[0];
      BlockedOnce(s, 0, k);
    }
  }

  lemma StockGoesOn(s0: State, f: seq<bool>, i: nat, j: nat)
    requires Good(s0) && Few(s0) && SnapshotOf(s0).Valid() && i < |s0.blocked| == |f| && j < |s0.nests| && !f[i]
    ensures SnapshotOf(s0).Work(f[i := true], j)
         == SnapshotOf(s0).Work(f, j) + |OfKind(Holdings(s0, s0.blocked[i]), s0.nests[j].id)|
  {
    hide Good, Few, Snapshot.Valid, OfKind, Holdings;
    FewIsExact(s0);
    hide SnapshotOf;
    SnapshotOf(s0).ReturnedMark(f, i, j, |s0.blocked|);
  }

  lemma OthersStay(s0: State, s: State, r: State, i: nat)
    requires SameOthers(s0, s) && i < |s0.blocked| && s.blocked != [] && s0.blocked[i] == s.blocked[0]
    requires s.blocked[0] !in s.blocked[1..] && GotAndWent(s, r, s.blocked[0]) && r.blocked == s.blocked[1..]
    ensures SameOthers(s0, r)
  {
    hide OfKind;
    assert s0.blocked[i] in s0.blocked;
  }

  /** One more has left. */
  lemma SoFarGoes(s0: State, s: State, r: State, i: nat)
    requires Good(s0) && Few(s0) && SnapshotOf(s0).Valid() && SoFar(s0, s) && Good(s)
    requires i < |s0.blocked| && s.blocked != [] && s0.blocked[i] == s.blocked[0]
    requires GotAndWent(s, r, s.blocked[0]) && r.blocked == s.blocked[1..]
    ensures SoFar(s0, r)
  {
    hide SnapshotOf, Few, OfKind, NoMore, Snapshot.Work, Snapshot.Valid, Kinds, Counted, Placed;
    OneLess(s0, s, i);
    HeadOnce(s);
    BlockedIsThere(s0, i);
    hide Good;
    OthersStay(s0, s, r, i);
    assert s.trainers[s.blocked[0]] == s0.trainers[s.blocked[0]];
    hide Holdings, SameOthers;
    forall j | 0 <= j < |s0.nests|
      ensures |r.nests[j].pokemons| == SnapshotOf(s0).Work(NoMore(s0, r.blocked), j)
    {
      StockGoesOn(s0, NoMore(s0, s.blocked), i, j);
    }
  }

  /** As long as there is something for somebody blocked, somebody is served and leaves. */
  lemma ServeAll(s0: State, events: seq<Event>, s: State) returns (more: seq<Event>, r: State)
    requires Reached(s0, events, s) && Few(s0) && SnapshotOf(s0).Valid() && SoFar(s0, s) && s.planner.Idle?
    ensures Reached(s0, more, r) && SoFar(s0, r) && forall t :: t in r.blocked ==> !HasStock(r, t)
    decreases |s.blocked|
  {
    hide Few, SnapshotOf, SoFar, HasStock, Run, Good, NobodyGivesUp, GotAndWent;
    if k: nat :| k < |s.blocked| && HasStock(s, s.blocked[k]) && forall j :: 0 <= j < k ==> !HasStock(s, s.blocked[j]) {
      var next, i;
      more, next := BringUp(s0, events, s, k);
      SoFarRotates(s0, s, next, k);
      SameStock(s, next, s.blocked[k]);
      i := StillOf(s0, next);
      more, r := GrantAndGo(s0, more, next);
      SoFarGoes(s0, next, r, i);
      more, r := ServeAll(s0, more, r);
    } else {
      NoneHasStock(s, |s.blocked|);
      more, r := events, s;
    }
  }

  lemma StillOf(s0: State, s: State) returns (i: nat)
    requires SnapshotOf(s0).Valid() && SoFar(s0, s) && s.blocked != []
    ensures i < |s0.blocked| && s0.blocked[i] == s.blocked[0]
  {
    hide SnapshotOf;
    assert s.blocked[0] in s0.blocked;
    i :| i < |s0.blocked| && s0.blocked[i] == s.blocked[0];
  }

  lemma {:induction false} NoneHasStock(s: State, n: nat)
    requires n <= |s.blocked|
    requires forall k: nat :: k < |s.blocked| && HasStock(s, s.blocked[k]) ==> exists j :: 0 <= j < k && HasStock(s, s.blocked[j])
    ensures forall k :: 0 <= k < n ==> !HasStock(s, s.blocked[k])
  {
    hide HasStock;
    if n > 0 {
      NoneHasStock(s, n - 1);
    }
  }

  // What is left when there is nothing more to serve.

  /** Those that are not blocked any more, and those that hold nothing. */
  ghost function Finished(s0: State, blocked: seq<Trainer>): (f: seq<bool>)
    requires SnapshotOf(s0).Valid()
    ensures |f| == |s0.blocked|
  {
    seq(|s0.blocked|, i requires 0 <= i < |s0.blocked| => NoMore(s0, blocked)[i] || !SnapshotOf(s0).Holder(i))
  }

  /** Marking those that hold nothing gives nothing back. */
  lemma {:induction false} MarkHoldless(r: Snapshot, f: seq<bool>, g: seq<bool>, j: int, n: nat)
    requires r.Valid() && |f| == |g| == r.Trainers() && 0 <= j < r.Nests() && n <= r.Trainers()
    requires forall i :: 0 <= i < r.Trainers() ==> (g[i] <==> f[i] || !r.Holder(i))
    ensures r.Returned(f, j, n) == r.Returned(g, j, n)
  {
    if n > 0 {
      MarkHoldless(r, f, g, j, n - 1);
      assert !r.Holder(n - 1) ==> r.held[n - 1][j] == 0;
    }
  }

  /** A trainer that is still blocked asks for more than is left. */
  lemma StillExceeds(s0: State, s: State, i: nat)
    requires Good(s0) && Few(s0) && SnapshotOf(s0).Valid() && SoFar(s0, s)
    requires i < |s0.blocked| && s0.blocked[i] in s.blocked && !HasStock(s, s0.blocked[i])
    ensures SnapshotOf(s0).Exceeds(Finished(s0, s.blocked), i)
  {
    var r, t := SnapshotOf(s0), s0.blocked[i];
    BlockedIsThere(s0, i);
    var j := EmptyNest(s0, s, t);
    hide Good;
    SnapshotEntries(s0, i, j);
    MarkHoldless(r, NoMore(s0, s.blocked), Finished(s0, s.blocked), j, r.Trainers());
    hide SnapshotOf, Few, Snapshot.Valid, Snapshot.Returned, Finished, NoMore, Goal;
    assert r.Work(Finished(s0, s.blocked), j) == r.Work(NoMore(s0, s.blocked), j) == 0;
  }

  lemma EmptyNest(s0: State, s: State, t: Trainer) returns (j: nat)
    requires Good(s0) && SameOthers(s0, s) && t in s.blocked && !HasStock(s, t)
    ensures t in s0.trainers && j < |s0.nests| == |s.nests|
    ensures s0.nests[j].id == s0.trainers[t].obj && s.nests[j].pokemons == []
  {
    hide Placed, Counted;
    NamedElsewhere(s0.nests, s.nests, s0.trainers[t].obj);
    assert HasNest(s0.nests, s0.trainers[t].obj);
    j := NestOf(s0.nests, s0.trainers[t].obj);
  }

  /** So those left over are stuck. */
  lemma LeftIsStuck(s0: State, s: State)
    requires Good(s0) && Few(s0) && SnapshotOf(s0).Valid() && SoFar(s0, s) && forall t :: t in s.blocked ==> !HasStock(s, t)
    ensures SnapshotOf(s0).Stuck(Finished(s0, s.blocked))
  {
    hide Good, Few, SoFar, HasStock, Snapshot.Exceeds, Snapshot.Holder, Snapshot.Valid;
    var r, f := SnapshotOf(s0), Finished(s0, s.blocked);
    forall i | 0 <= i < |s0.blocked| && !f[i]
      ensures r.Holder(i) && r.Exceeds(f, i)
    {
      StillExceeds(s0, s, i);
    }
  }

  /**
   From any state there is a run in which nobody gives up waiting, whoever was not blocked stays, and
   every blocked trainer that the reduction as meant marks gets its Pokémon.
   */
  lemma ServableAreServed(s: State, meant: seq<bool>) returns (events: seq<Event>, r: State)
    requires Good(s) && Few(s) && SnapshotOf(s).Valid() && SnapshotOf(s).LeavesLargestStuck(meant)
    ensures Run(s, events, r) && NobodyGivesUp(events) && forall t :: t in s.trainers && t !in s.blocked ==> t in r.trainers
    ensures forall i :: 0 <= i < |s.blocked| && meant[i] && SnapshotOf(s).Holder(i) ==> s.blocked[i] !in r.blocked
  {
    RunOfNone(s);
    var idle;
    events, idle := BecomeIdle(s, [], s);
    SoFarStarts(s, idle);
    hide Good, Few, SoFar, HasStock;
    events, r := ServeAll(s, events, idle);
    LeftIsStuck(s, r);
    ServedFacts(s, r, meant);
  }

  lemma ServedFacts(s: State, r: State, meant: seq<bool>)
    requires SnapshotOf(s).Valid() && SnapshotOf(s).LeavesLargestStuck(meant) && SoFar(s, r)
    requires SnapshotOf(s).Stuck(Finished(s, r.blocked))
    ensures |meant| == |s.blocked| && forall t :: t in s.trainers && t !in s.blocked ==> t in r.trainers
    ensures forall i :: 0 <= i < |s.blocked| && meant[i] && SnapshotOf(s).Holder(i) ==> s.blocked[i] !in r.blocked
  {
    hide SnapshotOf;
    assert SnapshotOf(s).Within(meant, Finished(s, r.blocked));
  }

  /**
   What the reduction as meant is for: when only blocked trainers hold anything, one that holds something
   is marked if and only if it can ever be granted what it wants without some blocked trainer giving up.
   */
  lemma MarkedIffServed(s: State, meant: seq<bool>, i: nat)
    requires Good(s) && Few(s) && SnapshotOf(s).Valid() && SnapshotOf(s).LeavesLargestStuck(meant)
    requires OnlyBlockedHold(s) && i < |s.blocked| == |meant| && SnapshotOf(s).Holder(i)
    ensures meant[i] <==> exists events, r :: Run(s, events, r) && NobodyGivesUp(events) && s.blocked[i] !in r.blocked
  {
    if meant[i] {
      var events, r := ServableAreServed(s, meant);
    } else {
      StuckIsStarved(s, meant);
      forall events, r | Run(s, events, r) && NobodyGivesUp(events)
        ensures s.blocked[i] in r.blocked
      {
        NoneGivesUp(s, events, r, Rest(s, meant));
        StarvedForEver(s, events, r, Rest(s, meant));
        assert s.blocked[i] in Rest(s, meant);
      }
    }
  }

  lemma {:induction false} NoneGivesUp(s: State, events: seq<Event>, r: State, group: set<Trainer>)
    requires Good(s) && Run(s, events, r) && NobodyGivesUp(events)
    ensures NoneDeparts(s, events, group)
    decreases |events|
  {
    hide Good, Step, Enabled;
    if events != [] {
      StepKeeps(s, events[0]);
      NoneGivesUp(Step(s, events[0]), events[1..], r, group);
    }
  }

  lemma LargestStuckSet(r: Snapshot) returns (meant: seq<bool>)
    requires r.Valid()
    ensures r.LeavesLargestStuck(meant)
  {
    var order := r.OrderToTheEnd([]);
    meant := r.Marks(order);
    forall f | r.Stuck(f)
      ensures r.Within(meant, f)
    {
      r.OrderStaysWithin(order, f);
    }
  }

  /** Every truly deadlocked trainer is reported: who is blocked, holds something and is not reported can be served. */
  lemma UnreportedAreServed(s: State) returns (events: seq<Event>, r: State)
    requires Good(s) && Few(s) && SnapshotOf(s).Valid()
    ensures Run(s, events, r) && NobodyGivesUp(events)
    ensures forall t :: t in s.blocked && Holdings(s, t) != [] && t !in Reported(s) ==> t !in r.blocked
  {
    var meant := LargestStuckSet(SnapshotOf(s));
    events, r := ServableAreServed(s, meant);
    FewIsExact(s);
    SnapshotOf(s).WrittenWithinMeant(meant);
    hide Good, Few, Run, NobodyGivesUp, Snapshot.WrittenMarks, Snapshot.Holder, Snapshot.LeavesLargestStuck, Snapshot.Valid, Holdings;
    forall t | t in s.blocked && Holdings(s, t) != [] && t !in Reported(s)
      ensures t !in r.blocked
    {
      var i :| 0 <= i < |s.blocked| && s.blocked[i] == t;
      UnfinishedAre(s.blocked, SnapshotOf(s).WrittenMarks(), t);
      assert SnapshotOf(s).WrittenMarks()[i];
    }
  }
}

/** What it means to be deadlocked: nothing that can happen gets such a trainer its Pokémon. */
module Starving {
  import opened Nests
  import opened Arena
  import opened ArenaInvariant
  import opened Service
  import opened Deadlock
  import opened MapServer
  import opened Detector
  import opened DetectorRound
  import opened Rounds

  /** No nest has a Pokémon of this kind, and nobody outside the group holds one. */
  ghost predicate Dry(s: State, id: char, group: set<Trainer>) {
    && (forall i :: 0 <= i < |s.nests| && s.nests[i].id == id ==> s.nests[i].pokemons == [])
    && (forall u, p :: u in s.trainers && u !in group && p in s.trainers[u].pokemons ==> p.id != id)
  }

  /** Everybody of the group is blocked and wants what only the group holds. */
  ghost predicate Starved(s: State, group: set<Trainer>) {
    forall t :: t in group ==> t in s.blocked && t in s.trainers && Dry(s, s.trainers[t].obj, group)
  }

  /** The event is the departure of a blocked trainer of the group. */
  ghost predicate Departs(s: State, e: Event, group: set<Trainer>) {
    e.BlockedLeaves? && e.k < |s.blocked| && s.blocked[e.k] in group
  }

  lemma DryWhenGone(s: State, t: Trainer, id: char, group: set<Trainer>)
    requires Kinds(s) && t in s.trainers && t !in group && Dry(s, id, group)
    ensures Dry(Gone(s, t), id, group)
  {
    var list := s.trainers[t].pokemons;
    forall i: nat | i < |s.nests| && s.nests[i].id == id
      ensures Gone(s, t).nests[i].pokemons == []
    {
      ReturnAllIsExact(s.nests, list, i);
      OfKindIsPart(list, id);
    }
  }

  lemma DryWhenServed(s: State, id: char, group: set<Trainer>)
    requires Good(s) && s.token && Dry(s, id, group)
    ensures Dry(Served(s), id, group)
  {
    ServeCases(s);
    if s.blocked != [] {
      var t := s.blocked[0];
      var at := NestOf(s.nests, s.trainers[t].obj);
      var queue := s.nests[at].pokemons;
      if queue != [] {
        HandOut(s.nests, at);
        assert queue[0].id == s.nests[at].id;
      }
    }
  }

  /** Whatever happens, short of a departure of one of the group, leaves such a kind dry. */
  lemma StaysDry(s: State, e: Event, id: char, group: set<Trainer>)
    requires Good(s) && Enabled(s, e) && !Departs(s, e, group) && Dry(s, id, group)
    requires forall t :: t in group ==> t in s.blocked
    ensures Dry(Step(s, e), id, group)
  {
    match e
    case ShakeFails(k) =>
      StepFails(s, k);
      NotBlocked(s, s.shaking[k]);
      DryWhenGone(s, s.shaking[k], id, group);
    case RunnerLeaves =>
      RunnerCases(s);
      NotBlocked(s, s.planner.runner);
      DryWhenGone(s, s.planner.runner, id, group);
    case BlockedLeaves(k) =>
      StepDrops(s, k);
      DryWhenGone(s, s.blocked[k], id, group);
    case Serve =>
      DryWhenServed(s, id, group);
    case Sort(t, list) =>
      assert forall p :: p in list ==> p in multiset(list);
    case Ask(_) =>
      IsPlaced(s, s.planner.runner);
    case Move(_) =>
      IsPlaced(s, s.planner.runner);
    case _ =>
  }

  lemma WaitsOnServed(s: State, t: Trainer, group: set<Trainer>)
    requires Good(s) && s.token && Starved(s, group) && t in group
    ensures t in Served(s).blocked && t in Served(s).trainers && Served(s).trainers[t] == s.trainers[t]
  {
    ServeCases(s);
    hide Placed, Kinds, Counted, Served;
    assert Dry(s, s.trainers[t].obj, group);
    assert s.blocked == [s.blocked[0]] + s.blocked[1..];
  }

  /** Whatever happens, short of a departure of one of the group, a starved trainer goes on waiting with what it has. */
  lemma WaitsOn(s: State, e: Event, t: Trainer, group: set<Trainer>)
    requires Good(s) && Enabled(s, e) && !Departs(s, e, group) && Starved(s, group) && t in group
    ensures var s' := Step(s, e); t in s'.blocked && t in s'.trainers && SameButOrder(s.trainers[t], s'.trainers[t])
  {
    hide Dry, Placed, Kinds, Counted, Served, ReturnAll, HasNest, Moved;
    match e
    case Connect(_) =>
    case ShakeFails(k) =>
      StepFails(s, k);
      NotBlocked(s, s.shaking[k]);
    case RunnerLeaves =>
      RunnerCases(s);
      NotBlocked(s, s.planner.runner);
    case BlockedLeaves(k) =>
      StepDrops(s, k);
      assert s.blocked == s.blocked[..k] + [s.blocked[k]] + s.blocked[k + 1..];
    case Serve =>
      WaitsOnServed(s, t, group);
    case Ask(_) =>
      RunnerCases(s);
      NotBlocked(s, s.planner.runner);
    case Move(_) =>
      RunnerCases(s);
      NotBlocked(s, s.planner.runner);
    case _ =>
  }

  /** Nobody of the group departs while these events happen. */
  ghost predicate NoneDeparts(s: State, events: seq<Event>, group: set<Trainer>)
    requires Good(s)
    decreases |events|
  {
    events == [] ||
      (&& Enabled(s, events[0]) && !Departs(s, events[0], group)
       && (StepKeeps(s, events[0]); NoneDeparts(Step(s, events[0]), events[1..], group)))
  }

  lemma StarvedStep(s: State, e: Event, group: set<Trainer>)
    requires Good(s) && Enabled(s, e) && !Departs(s, e, group) && Starved(s, group)
    ensures Starved(Step(s, e), group)
  {
    hide Good, Step, Enabled, Dry, Departs;
    forall t | t in group
      ensures t in Step(s, e).blocked && t in Step(s, e).trainers && Dry(Step(s, e), Step(s, e).trainers[t].obj, group)
    {
      WaitsOn(s, e, t, group);
      StaysDry(s, e, s.trainers[t].obj, group);
    }
  }

  /**
   While nobody of the group departs, and whatever else happens, each of them stays blocked, goes on
   wanting what it wants and gets nothing.
   */
  lemma {:induction false} StarvedForEver(s: State, events: seq<Event>, s': State, group: set<Trainer>)
    requires Good(s) && Run(s, events, s') && NoneDeparts(s, events, group) && Starved(s, group)
    ensures Starved(s', group)
    ensures forall t :: t in group ==> SameButOrder(s.trainers[t], s'.trainers[t])
    decreases |events|
  {
    hide Good, Step, Enabled, Dry, Departs;
    if events != [] {
      StepKeeps(s, events[0]);
      StarvedStep(s, events[0], group);
      forall t | t in group
        ensures t in Step(s, events[0]).trainers && SameButOrder(s.trainers[t], Step(s, events[0]).trainers[t])
      {
        WaitsOn(s, events[0], t, group);
      }
      StarvedForEver(Step(s, events[0]), events[1..], s', group);
    }
  }

  // From the matrices to the map.

  /** Whoever is not blocked holds nothing. */
  ghost predicate OnlyBlockedHold(s: State) {
    forall t :: t in s.trainers && t !in s.blocked ==> s.trainers[t].pokemons == []
  }

  /** Who is not marked. */
  ghost function Rest(s: State, f: seq<bool>): set<Trainer>
    requires |f| == |s.blocked|
  {
    set i | 0 <= i < |s.blocked| && !f[i] :: s.blocked[i]
  }

  lemma {:induction false} NothingFrom(r: Snapshot, f: seq<bool>, j: int, n: nat, i: nat)
    requires r.Valid() && |f| == r.Trainers() && 0 <= j < r.Nests() && i < n <= r.Trainers() && f[i] && r.Returned(f, j, n) == 0
    ensures r.held[i][j] == 0
  {
    r.ReturnedIsNotNegative(f, j, n - 1);
    if i < n - 1 {
      NothingFrom(r, f, j, n - 1, i);
    }
  }

  lemma SnapshotEntries(s: State, i: nat, j: nat)
    requires i < |s.blocked| && j < |s.nests| && Few(s)
    ensures SnapshotOf(s).Trainers() == |s.blocked| && SnapshotOf(s).Nests() == |s.nests| && |SnapshotOf(s).asked[i]| == |s.nests|
    ensures SnapshotOf(s).asked[i][j] == if s.nests[j].id == Goal(s, s.blocked[i]) then 1 else 0
    ensures SnapshotOf(s).available[j] == |s.nests[j].pokemons|
  {
  }

  lemma BlockedIsThere(s: State, i: nat)
    requires Good(s) && i < |s.blocked|
    ensures var t := s.blocked[i];
      t in s.trainers && Goal(s, t) == s.trainers[t].obj && Holdings(s, t) == s.trainers[t].pokemons
  {
    IsPlaced(s, s.blocked[i]);
  }

  /** Where an unmarked trainer wants to catch nothing is left, and the marked ones would give nothing back. */
  lemma WantsDryNest(s: State, f: seq<bool>, i: nat) returns (j: nat)
    requires Good(s) && Few(s) && SnapshotOf(s).Valid() && SnapshotOf(s).Stuck(f)
    requires |f| == |s.blocked| && i < |s.blocked| && !f[i]
    ensures s.blocked[i] in s.trainers && j < |s.nests| && s.nests[j].id == s.trainers[s.blocked[i]].obj
    ensures s.nests[j].pokemons == [] && SnapshotOf(s).Returned(f, j, |s.blocked|) == 0
  {
    BlockedIsThere(s, i);
    hide Good, SnapshotOf, Few, Goal, Holdings, Snapshot.Valid;
    var r := SnapshotOf(s);
    assert r.Exceeds(f, i);
    j :| 0 <= j < r.Nests() && r.asked[i][j] > r.Work(f, j);
    hide Snapshot.Stuck, Snapshot.Exceeds;
    SnapshotEntries(s, i, j);
    r.ReturnedIsNotNegative(f, j, r.Trainers());
  }

  lemma MarkedHoldNone(s: State, f: seq<bool>, j: nat, h: nat, p: Pokemon)
    requires Good(s) && Few(s) && SnapshotOf(s).Valid() && |f| == |s.blocked| && j < |s.nests| && h < |s.blocked| && f[h]
    requires SnapshotOf(s).Returned(f, j, |s.blocked|) == 0 && p in Holdings(s, s.blocked[h])
    ensures p.id != s.nests[j].id
  {
    FewIsExact(s);
    hide Good, Few, Snapshot.Valid, Holdings;
    NothingFrom(SnapshotOf(s), f, j, |s.blocked|, h);
    hide SnapshotOf;
    OfKindIsPart(Holdings(s, s.blocked[h]), s.nests[j].id);
  }

  lemma OnlyNest(nests: seq<Nest>, j: nat, id: char)
    requires Named(nests) && j < |nests| && nests[j].id == id
    ensures forall i :: 0 <= i < |nests| && nests[i].id == id ==> i == j
  {
  }

  lemma RestHoldsNone(s: State, f: seq<bool>, j: nat, u: Trainer, p: Pokemon)
    requires Good(s) && Few(s) && SnapshotOf(s).Valid() && |f| == |s.blocked| && j < |s.nests|
    requires SnapshotOf(s).Returned(f, j, |s.blocked|) == 0 && OnlyBlockedHold(s)
    requires u in s.trainers && u !in Rest(s, f) && p in s.trainers[u].pokemons
    ensures p.id != s.nests[j].id
  {
    hide Good, Few, SnapshotOf, Snapshot.Valid;
    var h: nat :| h < |s.blocked| && s.blocked[h] == u;
    assert f[h];
    MarkedHoldNone(s, f, j, h, p);
  }

  lemma ExceedsIsDry(s: State, f: seq<bool>, i: nat)
    requires Good(s) && Few(s) && SnapshotOf(s).Valid() && SnapshotOf(s).Stuck(f) && OnlyBlockedHold(s)
    requires |f| == |s.blocked| && i < |s.blocked| && !f[i]
    ensures s.blocked[i] in s.trainers && Dry(s, s.trainers[s.blocked[i]].obj, Rest(s, f))
  {
    hide Few, SnapshotOf, Snapshot.Stuck, Snapshot.Valid, Placed, Counted, OnlyBlockedHold, Rest;
    var j := WantsDryNest(s, f, i);
    OnlyNest(s.nests, j, s.nests[j].id);
    hide Good;
    forall u, p | u in s.trainers && u !in Rest(s, f) && p in s.trainers[u].pokemons
      ensures p.id != s.nests[j].id
    {
      RestHoldsNone(s, f, j, u, p);
    }
  }

  lemma StuckIsStarved(s: State, f: seq<bool>)
    requires Good(s) && Few(s) && SnapshotOf(s).Valid() && SnapshotOf(s).Stuck(f) && OnlyBlockedHold(s)
    ensures |f| == |s.blocked| && Starved(s, Rest(s, f))
  {
    assert |f| == |s.blocked|;
    hide Good, Few, SnapshotOf, Snapshot.Stuck, OnlyBlockedHold, Dry;
    forall t | t in Rest(s, f)
      ensures t in s.blocked && t in s.trainers && Dry(s, s.trainers[t].obj, Rest(s, f))
    {
      var i :| 0 <= i < |s.blocked| && s.blocked[i] == t && !f[i];
      ExceedsIsDry(s, f, i);
    }
  }
}

/** Runs of the map, event by event, from a map on which nobody is yet. */
module Scenes {
  import opened Nests
  import opened Arena
  import opened ArenaInvariant
  import opened Deadlock
  import opened MapServer
  import opened Detector
  import opened Battle
  import opened DetectorRound
  import opened Rounds

  // Stretches of a run. Each lengthens a run that has led from `start` to s.

  /** A trainer connects and becomes ready. */
  ghost function Joined(s: State, t: Trainer): State {
    s.(trainers := s.trainers[t := Record(NONE, 1, 1, [])], ready := s.ready + [t], semPlan := s.semPlan + 1)
  }

  lemma Join(start: State, events: seq<Event>, s: State, t: Trainer) returns (more: seq<Event>)
    requires Good(start) && Good(s) && Run(start, events, s)
    requires t !in s.trainers && s.shaking == []
    ensures Good(Joined(s, t)) && Run(start, more, Joined(s, t))
  {
    hide Good, Run, HasNest, Served, Gone, Moved, Without;
    var b := s.(trainers := s.trainers[t := Record(NONE, 1, 1, [])], ready := s.ready + [t], postsPlan := s.postsPlan + 1);
    more := Shake(start, events, s, t, b);
    more := Next(start, more, b, PostReady, Joined(s, t));
  }

  lemma Shake(start: State, events: seq<Event>, s: State, t: Trainer, b: State) returns (more: seq<Event>)
    requires Good(start) && Good(s) && Run(start, events, s)
    requires t !in s.trainers && s.shaking == []
    requires b == s.(trainers := s.trainers[t := Record(NONE, 1, 1, [])], ready := s.ready + [t], postsPlan := s.postsPlan + 1)
    ensures Good(b) && Run(start, more, b)
  {
    hide Good, Run, HasNest, Served, Gone, Moved, Without;
    var a := s.(trainers := s.trainers[t := Record(NONE, 1, 1, [])], shaking := [t]);
    more := Next(start, events, s, Connect(t), a);
    ShakeOnly(a, t);
    hide Enabled, Step;
    more := Next(start, more, a, ShakeDone(0), b);
  }

  lemma ShakeOnly(s: State, t: Trainer)
    requires Good(s) && s.shaking == [t]
    ensures Enabled(s, ShakeDone(0))
    ensures Step(s, ShakeDone(0)) == s.(shaking := [], ready := s.ready + [t], postsPlan := s.postsPlan + 1)
  {
    hide Good;
  }

  /** The planner takes the k-th ready trainer, which asks the way to a nest and then to catch there. */
  ghost function Asked(s: State, k: nat, id: char): State
    requires k < |s.ready| && s.ready[k] in s.trainers && s.semPlan > 0
  {
    var t := s.ready[k];
    s.(trainers := s.trainers[t := s.trainers[t].(obj := id)], ready := Without(s.ready, k),
       blocked := s.blocked + [t], semPlan := s.semPlan - 1, postsAsig := s.postsAsig + 1)
  }

  lemma AskFor(start: State, events: seq<Event>, s: State, k: nat, at: nat) returns (more: seq<Event>)
    requires Good(start) && Good(s) && Run(start, events, s)
    requires s.planner.Idle? && s.semPlan > 0 && k < |s.ready| && at < |s.nests| && s.nests[at].id != NONE
    ensures s.ready[k] in s.trainers && Good(Asked(s, k, s.nests[at].id)) && Run(start, more, Asked(s, k, s.nests[at].id))
  {
    var id := s.nests[at].id;
    assert HasNest(s.nests, id);
    IsPlaced(s, s.ready[k]);
    hide Good, Run, HasNest, Without, Spots, Enabled, Step;
    var b := s.(planner := Runs(s.ready[k]), ready := Without(s.ready, k), semPlan := s.semPlan - 1);
    more := Take(start, events, s, k, b);
    more := AskAndBlock(start, more, b, id);
    assert Blocked(b, id) == Asked(s, k, id);
  }

  lemma Take(start: State, events: seq<Event>, s: State, k: nat, b: State) returns (more: seq<Event>)
    requires Good(start) && Good(s) && Run(start, events, s)
    requires s.planner.Idle? && s.semPlan > 0 && k < |s.ready|
    requires b == s.(planner := Runs(s.ready[k]), ready := Without(s.ready, k), semPlan := s.semPlan - 1)
    ensures Good(b) && Run(start, more, b)
  {
    hide Good, Run, HasNest, Without, Spots, Gone, Served, Moved;
    var a := s.(planner := Woken, semPlan := s.semPlan - 1);
    more := Next(start, events, s, PlannerWakes, a);
    more := Next(start, more, a, Pick(k), b);
  }

  ghost function Blocked(s: State, id: char): State
    requires s.planner.Runs? && s.planner.runner in s.trainers
  {
    var t := s.planner.runner;
    s.(planner := Idle, trainers := s.trainers[t := s.trainers[t].(obj := id)], blocked := s.blocked + [t],
       postsAsig := s.postsAsig + 1)
  }

  lemma AskAndBlock(start: State, events: seq<Event>, s: State, id: char) returns (more: seq<Event>)
    requires Good(start) && Good(s) && Run(start, events, s)
    requires s.planner.Runs? && s.planner.runner in s.trainers && id != NONE && HasNest(s.nests, id)
    ensures Good(Blocked(s, id)) && Run(start, more, Blocked(s, id))
  {
    hide Good, Run, HasNest, Without, Spots, Gone, Served, Moved;
    var t := s.planner.runner;
    var c := s.(trainers := s.trainers[t := s.trainers[t].(obj := id)]);
    more := Next(start, events, s, Ask(id), c);
    more := Next(start, more, c, RunnerBlocks, Blocked(s, id));
  }

  /** The first blocked trainer gets what it asks for and is ready again. */
  ghost function Caught(s: State, at: nat): State
    requires s.blocked != [] && s.blocked[0] in s.trainers && at < |s.nests| && s.nests[at].pokemons != [] && s.postsAsig > 0
  {
    var t, queue := s.blocked[0], s.nests[at].pokemons;
    s.(nests := WithQueue(s.nests, at, queue[1..]),
       trainers := s.trainers[t := s.trainers[t].(obj := NONE, pokemons := s.trainers[t].pokemons + [queue[0]])],
       blocked := s.blocked[1..], ready := s.ready + [t], semPlan := s.semPlan + 1, postsAsig := s.postsAsig - 1)
  }

  lemma Catch(start: State, events: seq<Event>, s: State, at: nat) returns (more: seq<Event>)
    requires Good(start) && Good(s) && Run(start, events, s)
    requires s.blocked != [] && !s.token && s.postsAsig > 0 && at < |s.nests| && s.nests[at].pokemons != []
    requires s.blocked[0] in s.trainers && s.trainers[s.blocked[0]].obj == s.nests[at].id
    ensures Good(Caught(s, at)) && Run(start, more, Caught(s, at))
  {
    hide Good, Run, WithQueue, Served, Gone;
    var a := s.(postsAsig := s.postsAsig - 1, semAsig := s.semAsig + 1);
    var b := a.(token := true, semAsig := s.semAsig);
    more := Next(start, events, s, PostBlocked, a);
    more := Next(start, more, a, AssignerWakes, b);
    ServeOnly(b, at);
    var c := Step(b, Serve);
    more := Next(start, more, b, Serve, c);
    more := Next(start, more, c, PostReady, Caught(s, at));
  }

  lemma ServeOnly(s: State, at: nat)
    requires Good(s) && s.blocked != [] && s.token && at < |s.nests| && s.nests[at].pokemons != []
    requires s.blocked[0] in s.trainers && s.trainers[s.blocked[0]].obj == s.nests[at].id
    ensures Enabled(s, Serve)
    ensures var t, queue := s.blocked[0], s.nests[at].pokemons;
      Step(s, Serve) == s.(nests := WithQueue(s.nests, at, queue[1..]),
        trainers := s.trainers[t := s.trainers[t].(obj := NONE, pokemons := s.trainers[t].pokemons + [queue[0]])],
        blocked := s.blocked[1..], ready := s.ready + [t], postsPlan := s.postsPlan + 1, token := false)
  {
    ServeCases(s);
    hide Placed, Counted, WithQueue, Served;
    assert NestOf(s.nests, s.trainers[s.blocked[0]].obj) == at;
  }

  /** The planner takes the k-th ready trainer, which hangs up. */
  ghost function Left(s: State, k: nat): State
    requires Kinds(s) && k < |s.ready| && s.ready[k] in s.trainers && s.semPlan > 0
  {
    Gone(s, s.ready[k]).(ready := Without(s.ready, k), semPlan := s.semPlan - 1)
  }

  lemma Leave(start: State, events: seq<Event>, s: State, k: nat) returns (more: seq<Event>)
    requires Good(start) && Good(s) && Run(start, events, s)
    requires s.planner.Idle? && s.semPlan > 0 && k < |s.ready|
    ensures s.ready[k] in s.trainers && Good(Left(s, k)) && Run(start, more, Left(s, k))
  {
    IsPlaced(s, s.ready[k]);
    hide Run, HasNest, Without, Spots, Served, Moved, ReturnAll, Placed, Kinds, Counted;
    var b := s.(planner := Runs(s.ready[k]), ready := Without(s.ready, k), semPlan := s.semPlan - 1);
    more := Take(start, events, s, k, b);
    RunnerCases(b);
    RunnerMayRequeue(b);
    hide Step, Enabled, Good;
    more := Next(start, more, b, RunnerLeaves, Left(s, k));
  }

  /** A trainer connects, asks for the nest at `at` and catches there. */
  ghost function Equipped(s: State, t: Trainer, at: nat): State
    requires at < |s.nests| && s.nests[at].pokemons != []
  {
    var queue := s.nests[at].pokemons;
    s.(nests := WithQueue(s.nests, at, queue[1..]), trainers := s.trainers[t := Record(NONE, 1, 1, [queue[0]])],
       ready := s.ready + [t], semPlan := s.semPlan + 1)
  }

  lemma Equip(start: State, events: seq<Event>, s: State, t: Trainer, at: nat) returns (more: seq<Event>)
    requires Good(start) && Good(s) && Run(start, events, s)
    requires t !in s.trainers && s.shaking == [] && s.blocked == [] && s.planner.Idle? && !s.token && s.postsAsig == 0
    requires at < |s.nests| && s.nests[at].pokemons != [] && s.nests[at].id != NONE
    ensures Good(Equipped(s, t, at)) && Run(start, more, Equipped(s, t, at))
  {
    hide Good, Run, WithQueue;
    var n, id := |s.ready|, s.nests[at].id;
    more := Join(start, events, s, t);
    var a := Joined(s, t);
    more := AskFor(start, more, a, n, at);
    var b := Asked(a, n, id);
    assert Without(a.ready, n) == s.ready;
    assert b.blocked == [t];
    more := Catch(start, more, b, at);
    assert [] + [s.nests[at].pokemons[0]] == [s.nests[at].pokemons[0]];
    assert Caught(b, at).trainers == Equipped(s, t, at).trainers;
    assert Caught(b, at) == Equipped(s, t, at);
  }

  // The only one that holds anything.

  lemma {:induction false} UnfinishedOne(list: seq<Trainer>, finish: seq<bool>, i: nat)
    requires |finish| == |list| && forall h :: 0 <= h < |list| ==> (finish[h] <==> h != i)
    ensures Unfinished(list, finish) == if i < |list| then [list[i]] else []
  {
    if list != [] {
      var n := |list| - 1;
      forall h | 0 <= h < n
        ensures finish[..n][h] <==> h != i
      {
        assert finish[..n][h] == finish[h];
      }
      UnfinishedOne(list[..n], finish[..n], i);
      hide Unfinished;
      UnfinishedLast(list, finish);
    }
  }

  lemma UnfinishedLast(list: seq<Trainer>, finish: seq<bool>)
    requires |finish| == |list| > 0
    ensures var n := |list| - 1;
      Unfinished(list, finish) == Unfinished(list[..n], finish[..n]) + if finish[n] then [] else [list[n]]
    ensures Unfinished([], []) == []
  {
  }

  lemma OnlyHolderMarks(r: Snapshot, i: nat, j: nat)
    requires r.Valid() && i < r.Trainers() && j < r.Nests() && r.asked[i][j] > r.available[j]
    requires forall h :: 0 <= h < r.Trainers() ==> (r.Holder(h) <==> h == i)
    ensures forall h :: 0 <= h < r.Trainers() ==> (r.WrittenMarks()[h] <==> h != i)
  {
    var f := r.FirstMarked(i);
    NothingReturned(r, f, j, r.Trainers());
    assert r.Work(f, j) == r.available[j];
    assert r.Exceeds(f, i);
    assert r.FirstWaiting(0) == i;
  }

  /** Of the blocked trainers only the i-th holds anything, and where it wants to catch nothing is left: it is reported alone. */
  lemma OnlyHolderIsReported(s: State, i: nat)
    requires Good(s) && Few(s) && i < |s.blocked|
    requires forall h :: 0 <= h < |s.blocked| ==> (Holdings(s, s.blocked[h]) != [] <==> h == i)
    requires HasNest(s.nests, Goal(s, s.blocked[i])) && s.nests[NestOf(s.nests, Goal(s, s.blocked[i]))].pokemons == []
    ensures SnapshotOf(s).Valid() && Reported(s) == [s.blocked[i]]
  {
    FewIsExact(s);
    var r, j := SnapshotOf(s), NestOf(s.nests, Goal(s, s.blocked[i]));
    hide Good, Few, Holdings, Goal, NestOf, HasNest, Snapshot.Holder, Snapshot.WrittenMarks, Snapshot.Valid;
    assert r.asked[i][j] == 1 && r.available[j] == 0;
    OnlyHolderMarks(r, i, j);
    UnfinishedOne(s.blocked, r.WrittenMarks(), i);
  }

  // One trainer reported alone.

  const A := Pokemon('A', 1, 1)

  const B := Pokemon('B', 1, 1)

  /** Two nests; in the second nothing is left. */
  const TWO: seq<Nest> := [Nest('A', 1, 1, [A]), Nest('B', 1, 1, [])]

  const TWO_LEFT: seq<Nest> := [Nest('A', 1, 1, []), Nest('B', 1, 1, [])]

  /** The trainer t catches at A and then waits at B, as does u, which has caught nothing. */
  ghost function Lone(t: Trainer): State {
    State(TWO_LEFT, map[t := Record('B', 1, 1, [A])], [], [], [t], Idle, 0, 0, 0, 1, false)
  }

  ghost function Both(t: Trainer, u: Trainer): State {
    State(TWO_LEFT, map[t := Record('B', 1, 1, [A]), u := Record('B', 1, 1, [])], [], [], [t, u], Idle, 0, 0, 0, 2, false)
  }

  lemma StartOfLone(t: Trainer)
    ensures Asked(Equipped(Empty(TWO), t, 0), 0, 'B') == Lone(t)
  {
    assert Without([t], 0) == [];
    var s := Equipped(Empty(TWO), t, 0);
    assert [A][1..] == [] && s.nests == TWO_LEFT && s.ready == [t];
    assert Asked(s, 0, 'B').trainers == Lone(t).trainers;
  }

  lemma LoneThenBoth(t: Trainer, u: Trainer)
    requires t != u
    ensures Asked(Joined(Lone(t), u), 0, 'B') == Both(t, u)
  {
    assert Without([u], 0) == [];
    assert Asked(Joined(Lone(t), u), 0, 'B').trainers == Both(t, u).trainers;
  }

  lemma OneWaits(t: Trainer, u: Trainer) returns (events: seq<Event>)
    requires t != u
    ensures Good(Empty(TWO)) && Run(Empty(TWO), events, Both(t, u)) && Good(Both(t, u))
  {
    var start := Empty(TWO);
    EmptyIsGood(TWO);
    RunOfNone(start);
    StartOfLone(t);
    LoneThenBoth(t, u);
    hide Good, Run, Asked, Without;
    events := Equip(start, [], start, t, 0);
    events := AskFor(start, events, Equipped(start, t, 0), 0, 1);
    hide Equipped;
    events := Join(start, events, Lone(t), u);
    events := AskFor(start, events, Joined(Lone(t), u), 0, 1);
  }

  lemma BothFacts(t: Trainer, u: Trainer)
    requires t != u
    ensures var s := Both(t, u);
      && s.blocked == [t, u] && Few(s) && Holdings(s, t) != [] && Holdings(s, u) == []
      && HasNest(s.nests, Goal(s, t)) && s.nests[NestOf(s.nests, Goal(s, t))].pokemons == []
  {
    assert Both(t, u).nests[1].id == 'B';
  }

  /**
   From a map on which nobody is, a run reaches a state in which the detector reports exactly one
   trainer. The round leaves that trainer on the list and disconnects nobody; a second round, with
   nothing in between, can only disconnect it.
   */
  lemma OneIsReported(t: Trainer, u: Trainer) returns (events: seq<Event>, s: State)
    requires t != u
    ensures Good(Empty(TWO)) && Run(Empty(TWO), events, s)
    ensures Good(s) && Few(s) && SnapshotOf(s).Valid() && ReportsOne(s)
    ensures RoundTo(World(s, []), [], World(s, [t]))
    ensures Enabled(s, BlockedLeaves(0)) && RoundTo(World(s, [t]), [BlockedLeaves(0)], World(Step(s, BlockedLeaves(0)), []))
    ensures forall round, next :: RoundTo(World(s, [t]), round, next) ==>
      next.names == [] && LeftBy(s.blocked, next.s.blocked, t)
  {
    events := OneWaits(t, u);
    s := Both(t, u);
    BothFacts(t, u);
    OnlyHolderIsReported(s, 0);
    hide Good, SnapshotOf, RoundTo, Few, Reported, Both;
    OneStays(s, t);
    FirstDies(s, t);
    forall round, next | RoundTo(World(s, [t]), round, next)
      ensures next.names == [] && LeftBy(s.blocked, next.s.blocked, t)
    {
      ReportedAloneTwice(World(s, [t]), round, next, t);
    }
  }

  lemma OneStays(s: State, t: Trainer)
    requires Good(s) && SnapshotOf(s).Valid() && |s.blocked| > 1 && Reported(s) == [t]
    ensures RoundTo(World(s, []), [], World(s, [t]))
  {
    hide Good, SnapshotOf, RoundTo, Reported;
    assert [] + [t] == [t];
    QuietRound(World(s, []));
  }

  lemma FirstDies(s: State, t: Trainer)
    requires Good(s) && SnapshotOf(s).Valid() && |s.blocked| > 1 && s.blocked[0] == t && Reported(s) == [t]
    ensures Enabled(s, BlockedLeaves(0)) && RoundTo(World(s, [t]), [BlockedLeaves(0)], World(Step(s, BlockedLeaves(0)), []))
  {
    hide SnapshotOf, Reported, Run, RoundTo;
    StepDrops(s, 0);
    RunOfOne(s, BlockedLeaves(0));
    var next := Step(s, BlockedLeaves(0));
    assert next.blocked == Without(s.blocked, 0);
    hide Good, Step, Enabled, Without;
    assert LeftBy(s.blocked, next.blocked, t);
    ThenLeaves([], s.blocked, 0);
    assert [] + [BlockedLeaves(0)] == [BlockedLeaves(0)];
    hide LeftBy, EndsWithout;
    DeadlyRound(World(s, [t]), [BlockedLeaves(0)], next, t);
  }

  // Both reported, though both can be served.

  const C := Pokemon('C', 1, 1)

  lemma HoldsOne(p: Pokemon, id: char)
    ensures OfKind([p], id) == if p.id == id then [p] else []
  {
    assert [p][1..] == [];
  }

  const THREE: seq<Nest> := [Nest('A', 1, 1, [A]), Nest('B', 1, 1, [B]), Nest('C', 1, 1, [C])]

  /** Trainer t has caught at A and waits at B, where u has caught; u asks for the one that is left at C. */
  ghost function Crossed(t: Trainer, u: Trainer): State {
    State([Nest('A', 1, 1, []), Nest('B', 1, 1, []), Nest('C', 1, 1, [C])],
      map[t := Record('B', 1, 1, [A]), u := Record('C', 1, 1, [B])], [], [], [t, u], Idle, 0, 0, 0, 2, false)
  }

  ghost function Equals(t: Trainer, u: Trainer): State {
    State([Nest('A', 1, 1, []), Nest('B', 1, 1, []), Nest('C', 1, 1, [C])],
      map[t := Record(NONE, 1, 1, [A]), u := Record(NONE, 1, 1, [B])], [], [t, u], [], Idle, 2, 0, 0, 0, false)
  }

  lemma StartOfCrossed(t: Trainer, u: Trainer)
    requires t != u
    ensures Equipped(Equipped(Empty(THREE), t, 0), u, 1) == Equals(t, u)
  {
    var s := Equipped(Empty(THREE), t, 0);
    assert [A][1..] == [] && [B][1..] == [] && s.ready == [t];
    assert s.nests == [Nest('A', 1, 1, []), Nest('B', 1, 1, [B]), Nest('C', 1, 1, [C])];
    assert Equipped(s, u, 1).nests == Equals(t, u).nests;
    assert Equipped(Equipped(Empty(THREE), t, 0), u, 1).trainers == Equals(t, u).trainers;
  }

  lemma EqualsThenCrossed(t: Trainer, u: Trainer)
    requires t != u
    ensures Asked(Asked(Equals(t, u), 0, 'B'), 0, 'C') == Crossed(t, u)
  {
    assert Without([t, u], 0) == [u] && Without([u], 0) == [];
    assert Asked(Asked(Equals(t, u), 0, 'B'), 0, 'C').trainers == Crossed(t, u).trainers;
  }

  lemma BothCatch(t: Trainer, u: Trainer) returns (events: seq<Event>)
    requires t != u
    ensures Good(Empty(THREE)) && Run(Empty(THREE), events, Equals(t, u)) && Good(Equals(t, u))
  {
    var start := Empty(THREE);
    EmptyIsGood(THREE);
    RunOfNone(start);
    StartOfCrossed(t, u);
    hide Good, Run, Equals;
    events := Equip(start, [], start, t, 0);
    events := Equip(start, events, Equipped(start, t, 0), u, 1);
  }

  lemma BothWait(t: Trainer, u: Trainer) returns (events: seq<Event>)
    requires t != u
    ensures Good(Empty(THREE)) && Run(Empty(THREE), events, Crossed(t, u)) && Good(Crossed(t, u))
  {
    EqualsThenCrossed(t, u);
    events := BothCatch(t, u);
    var start, next := Empty(THREE), Asked(Equals(t, u), 0, 'B');
    assert Without([t, u], 0) == [u];
    assert next.ready == [u] && next.nests[2].id == 'C' && next.planner == Idle && next.semPlan == 1;
    hide Good, Run, Without, Empty, Crossed;
    events := AskFor(start, events, Equals(t, u), 0, 1);
    hide Equals, Asked;
    events := AskFor(start, events, next, 0, 2);
  }

  /** The rows of a trainer that holds one Pokémon. */
  lemma RowOfOne(s: State, i: nat, p: Pokemon)
    requires i < |s.blocked| && Holdings(s, s.blocked[i]) == [p]
    ensures |SnapshotOf(s).held[i]| == |s.nests|
    ensures forall j :: 0 <= j < |s.nests| ==> SnapshotOf(s).held[i][j] == if p.id == s.nests[j].id then 1 else 0
  {
    forall j | 0 <= j < |s.nests|
      ensures SnapshotOf(s).held[i][j] == if p.id == s.nests[j].id then 1 else 0
    {
      HoldsOne(p, s.nests[j].id);
    }
  }

  lemma CrossedAsked(t: Trainer, u: Trainer)
    requires t != u
    ensures SnapshotOf(Crossed(t, u)).asked == FALSE_ALARM.asked
  {
    assert Goal(Crossed(t, u), t) == 'B' && Goal(Crossed(t, u), u) == 'C';
    hide OfKind, Goal, Wrap8, Holdings;
    var asked := SnapshotOf(Crossed(t, u)).asked;
    assert asked[0] == [0, 1, 0];
    assert asked[1] == [0, 0, 1];
  }

  lemma CrossedHeld(t: Trainer, u: Trainer)
    requires t != u
    ensures SnapshotOf(Crossed(t, u)).held == FALSE_ALARM.held
  {
    var s := Crossed(t, u);
    assert Holdings(s, t) == [A] && Holdings(s, u) == [B];
    RowOfOne(s, 0, A);
    RowOfOne(s, 1, B);
    hide SnapshotOf, OfKind, Goal, Holdings;
    assert SnapshotOf(s).held[0] == [1, 0, 0];
    assert SnapshotOf(s).held[1] == [0, 1, 0];
  }

  lemma FalseAlarmIsSnapshot(t: Trainer, u: Trainer)
    requires t != u
    ensures SnapshotOf(Crossed(t, u)) == FALSE_ALARM && Few(Crossed(t, u))
  {
    CrossedAsked(t, u);
    CrossedHeld(t, u);
    hide OfKind, Goal;
    assert SnapshotOf(Crossed(t, u)).available == [0, 0, 1];
  }

  lemma BothAreLeft(t: Trainer, u: Trainer)
    ensures Unfinished([t, u], [false, false]) == [t, u]
  {
    assert [t, u][..1] == [t] && [false, false][..1] == [false];
    assert [t][..0] == [] && [false][..0] == [];
  }

  /**
   From a map on which nobody is, a run reaches a state in which the detector reports two trainers,
   though the second and then the first can be served: no deadlock, yet in battle mode one of them dies.
   */
  lemma FalseAlarmIsReached(t: Trainer, u: Trainer) returns (events: seq<Event>, s: State)
    requires t != u
    ensures Good(Empty(THREE)) && Run(Empty(THREE), events, s)
    ensures Good(s) && Few(s) && SnapshotOf(s).Valid() && Reported(s) == [t, u]
    ensures SnapshotOf(s).CompletionOrder([1, 0]) && SnapshotOf(s).LeavesLargestStuck([true, true])
    ensures forall round, next :: RoundTo(World(s, []), round, next) ==>
      LeftBy(s.blocked, next.s.blocked, t) || LeftBy(s.blocked, next.s.blocked, u)
  {
    events := BothWait(t, u);
    s := Crossed(t, u);
    FalseAlarmIsSnapshot(t, u);
    FalseAlarm();
    FalseAlarmServes();
    BothAreLeft(t, u);
    hide Good, SnapshotOf, Few, Run, LeftBy, Snapshot.WrittenMarks, RoundTo, Unfinished;
    assert Reported(s) == [t, u];
    OneOfBothDies(s, t, u);
  }

  lemma OneOfBothDies(s: State, t: Trainer, u: Trainer)
    requires Good(s) && SnapshotOf(s).Valid() && |s.blocked| > 1 && Reported(s) == [t, u]
    ensures forall round, next :: RoundTo(World(s, []), round, next) ==>
      LeftBy(s.blocked, next.s.blocked, t) || LeftBy(s.blocked, next.s.blocked, u)
  {
    hide Good, SnapshotOf, Run, LeftBy, Reported;
    assert [] + [t, u] == [t, u];
  }

  // A name left over that is blocked no more.

  /** Trainers t, v and w have caught at A, B and C; t and a newcomer u wait at B. */
  ghost function Waiting(t: Trainer, u: Trainer, v: Trainer, w: Trainer): State {
    State([Nest('A', 1, 1, []), Nest('B', 1, 1, []), Nest('C', 1, 1, [])],
      map[t := Record('B', 1, 1, [A]), u := Record('B', 1, 1, []), v := Record(NONE, 1, 1, [B]), w := Record(NONE, 1, 1, [C])],
      [], [v, w], [t, u], Idle, 2, 0, 0, 2, false)
  }

  /** Then v goes, t gets what v held and is ready, and w waits at A. */
  ghost function Freed(t: Trainer, u: Trainer, w: Trainer): State {
    State([Nest('A', 1, 1, []), Nest('B', 1, 1, []), Nest('C', 1, 1, [])],
      map[t := Record(NONE, 1, 1, [A, B]), u := Record('B', 1, 1, []), w := Record('A', 1, 1, [C])],
      [], [t], [u, w], Idle, 1, 0, 0, 2, false)
  }

  ghost predicate Different(t: Trainer, u: Trainer, v: Trainer, w: Trainer) {
    t != u && t != v && t != w && u != v && u != w && v != w
  }

  ghost function Trio(t: Trainer, v: Trainer, w: Trainer): State {
    State([Nest('A', 1, 1, []), Nest('B', 1, 1, []), Nest('C', 1, 1, [])],
      map[t := Record(NONE, 1, 1, [A]), v := Record(NONE, 1, 1, [B]), w := Record(NONE, 1, 1, [C])],
      [], [t, v, w], [], Idle, 3, 0, 0, 0, false)
  }

  lemma TrioIs(t: Trainer, v: Trainer, w: Trainer)
    requires t != v && t != w && v != w
    ensures Equipped(Equals(t, v), w, 2) == Trio(t, v, w)
  {
    var s := Equipped(Equals(t, v), w, 2);
    assert [C][1..] == [] && s.ready == [t, v, w];
    assert s.nests == Trio(t, v, w).nests;
    assert s.trainers == Trio(t, v, w).trainers;
  }

  lemma FirstWaitsIs(t: Trainer, v: Trainer, w: Trainer)
    requires t != v && t != w && v != w
    ensures Asked(Trio(t, v, w), 0, 'B') == FirstWaits(t, v, w)
  {
    assert Without([t, v, w], 0) == [v, w];
    assert Asked(Trio(t, v, w), 0, 'B').trainers == FirstWaits(t, v, w).trainers;
  }

  lemma WaitingIs(t: Trainer, u: Trainer, v: Trainer, w: Trainer)
    requires Different(t, u, v, w)
    ensures Asked(Joined(FirstWaits(t, v, w), u), 2, 'B') == Waiting(t, u, v, w)
  {
    assert Without([v, w, u], 2) == [v, w];
    assert Asked(Joined(FirstWaits(t, v, w), u), 2, 'B').trainers == Waiting(t, u, v, w).trainers;
  }

  lemma AllCatch(t: Trainer, v: Trainer, w: Trainer) returns (events: seq<Event>)
    requires t != v && t != w && v != w
    ensures Good(Empty(THREE)) && Run(Empty(THREE), events, Trio(t, v, w)) && Good(Trio(t, v, w))
  {
    TrioIs(t, v, w);
    events := BothCatch(t, v);
    hide Good, Run, Empty, Equipped, Trio;
    events := Equip(Empty(THREE), events, Equals(t, v), w, 2);
  }

  /** Of those three t waits. */
  ghost function FirstWaits(t: Trainer, v: Trainer, w: Trainer): State {
    State([Nest('A', 1, 1, []), Nest('B', 1, 1, []), Nest('C', 1, 1, [])],
      map[t := Record('B', 1, 1, [A]), v := Record(NONE, 1, 1, [B]), w := Record(NONE, 1, 1, [C])],
      [], [v, w], [t], Idle, 2, 0, 0, 1, false)
  }

  lemma AllWait(t: Trainer, u: Trainer, v: Trainer, w: Trainer) returns (events: seq<Event>)
    requires Different(t, u, v, w)
    ensures Good(Empty(THREE)) && Run(Empty(THREE), events, Waiting(t, u, v, w)) && Good(Waiting(t, u, v, w))
  {
    WaitingIs(t, u, v, w);
    events := OneOfThreeWaits(t, v, w);
    hide Good, Run, Empty, Waiting, Without, Asked, Joined;
    events := JoinToWait(Empty(THREE), events, FirstWaits(t, v, w), u, 1);
  }

  lemma OneOfThreeWaits(t: Trainer, v: Trainer, w: Trainer) returns (events: seq<Event>)
    requires t != v && t != w && v != w
    ensures Good(Empty(THREE)) && Run(Empty(THREE), events, FirstWaits(t, v, w)) && Good(FirstWaits(t, v, w))
  {
    FirstWaitsIs(t, v, w);
    events := AllCatch(t, v, w);
    hide Good, Run, Empty, FirstWaits, Without, Asked;
    events := AskFor(Empty(THREE), events, Trio(t, v, w), 0, 1);
  }

  /** A trainer joins and asks at once. */
  lemma JoinToWait(start: State, events: seq<Event>, s: State, u: Trainer, at: nat) returns (more: seq<Event>)
    requires Good(start) && Good(s) && Run(start, events, s)
    requires u !in s.trainers && s.shaking == [] && s.planner.Idle? && at < |s.nests| && s.nests[at].id != NONE
    ensures var r := Asked(Joined(s, u), |s.ready|, s.nests[at].id); Good(r) && Run(start, more, r)
  {
    hide Good, Run, Asked, Without;
    more := Join(start, events, s, u);
    more := AskFor(start, more, Joined(s, u), |s.ready|, at);
  }

  ghost function Lost(t: Trainer, u: Trainer, w: Trainer): State {
    State([Nest('A', 1, 1, []), Nest('B', 1, 1, [B]), Nest('C', 1, 1, [])],
      map[t := Record('B', 1, 1, [A]), u := Record('B', 1, 1, []), w := Record(NONE, 1, 1, [C])],
      [], [w], [t, u], Idle, 1, 0, 0, 2, false)
  }

  ghost function Got(t: Trainer, u: Trainer, w: Trainer): State {
    State([Nest('A', 1, 1, []), Nest('B', 1, 1, []), Nest('C', 1, 1, [])],
      map[t := Record(NONE, 1, 1, [A, B]), u := Record('B', 1, 1, []), w := Record(NONE, 1, 1, [C])],
      [], [w, t], [u], Idle, 2, 0, 0, 1, false)
  }

  lemma LostIs(t: Trainer, u: Trainer, v: Trainer, w: Trainer)
    requires Different(t, u, v, w) && Good(Waiting(t, u, v, w))
    ensures Left(Waiting(t, u, v, w), 0) == Lost(t, u, w)
  {
    BGivenBack();
    var s := Waiting(t, u, v, w);
    hide Placed, Counted, Pure, Named, Return, ReturnAll, HasNest;
    assert Without([v, w], 0) == [w];
    assert s.trainers - {v} == Lost(t, u, w).trainers;
  }

  lemma BGivenBack()
    ensures var nests := [Nest('A', 1, 1, []), Nest('B', 1, 1, []), Nest('C', 1, 1, [])];
      Homed(nests, [B]) && ReturnAll(nests, [B]) == [Nest('A', 1, 1, []), Nest('B', 1, 1, [B]), Nest('C', 1, 1, [])]
  {
    var nests := [Nest('A', 1, 1, []), Nest('B', 1, 1, []), Nest('C', 1, 1, [])];
    assert nests[1].id == 'B' && NestOf(nests, 'B') == 1;
    assert [] + [B] == [B] && [B][1..] == [];
    assert ReturnAll(nests, [B]) == Return(nests, B);
  }

  lemma GotIs(t: Trainer, u: Trainer, w: Trainer)
    requires t != u && t != w && u != w
    ensures Caught(Lost(t, u, w), 1) == Got(t, u, w)
  {
    var s := Caught(Lost(t, u, w), 1);
    assert [B][1..] == [] && [A] + [B] == [A, B] && [t, u][1..] == [u];
    assert s.nests == Got(t, u, w).nests;
    assert s.trainers == Got(t, u, w).trainers;
  }

  lemma FreedIs(t: Trainer, u: Trainer, w: Trainer)
    requires t != u && t != w && u != w
    ensures Asked(Got(t, u, w), 0, 'A') == Freed(t, u, w)
  {
    assert Without([w, t], 0) == [t];
    assert Asked(Got(t, u, w), 0, 'A').trainers == Freed(t, u, w).trainers;
  }

  lemma OneGoes(t: Trainer, u: Trainer, v: Trainer, w: Trainer) returns (events: seq<Event>)
    requires Different(t, u, v, w) && Good(Waiting(t, u, v, w))
    ensures Run(Waiting(t, u, v, w), events, Freed(t, u, w)) && Good(Freed(t, u, w))
  {
    LostIs(t, u, v, w);
    GotIs(t, u, w);
    FreedIs(t, u, w);
    var start := Waiting(t, u, v, w);
    RunOfNone(start);
    hide Good, Run, Freed;
    events := Leave(start, [], start, 0);
    hide Waiting, Left, Asked;
    events := Catch(start, events, Lost(t, u, w), 1);
    hide Lost, Caught;
    events := AskFor(start, events, Got(t, u, w), 0, 0);
  }

  lemma WaitingFacts(t: Trainer, u: Trainer, v: Trainer, w: Trainer)
    requires Different(t, u, v, w)
    ensures var s := Waiting(t, u, v, w);
      && s.blocked == [t, u] && Few(s) && Holdings(s, t) != [] && Holdings(s, u) == []
      && HasNest(s.nests, Goal(s, t)) && s.nests[NestOf(s.nests, Goal(s, t))].pokemons == []
  {
    assert Waiting(t, u, v, w).nests[1].id == 'B';
  }

  lemma FreedFacts(t: Trainer, u: Trainer, w: Trainer)
    requires t != u && t != w && u != w
    ensures var s := Freed(t, u, w);
      && s.blocked == [u, w] && Few(s) && Holdings(s, w) != [] && Holdings(s, u) == []
      && HasNest(s.nests, Goal(s, w)) && s.nests[NestOf(s.nests, Goal(s, w))].pokemons == []
      && t in s.trainers && t !in s.blocked && Holdings(s, t) != []
  {
    assert Freed(t, u, w).nests[0].id == 'A';
  }

  /**
   A run from an empty map and two rounds after which the detector may never wake up again: the first
   round reports only t and leaves it on the list; then t catches what a leaving trainer gives back and is
   blocked no more; the second round reports only w, and in whatever order they fight it can hang.
   */
  lemma HangIsReached(t: Trainer, u: Trainer, v: Trainer, w: Trainer)
    returns (before: seq<Event>, first: State, between: seq<Event>, second: State)
    requires Different(t, u, v, w)
    ensures Good(Empty(THREE)) && Run(Empty(THREE), before, first) && Good(first) && Few(first)
    ensures SnapshotOf(first).Valid() && RoundTo(World(first, []), [], World(first, [t]))
    ensures Run(first, between, second) && Good(second) && Few(second)
    ensures t in second.trainers && t !in second.blocked && Holdings(second, t) != []
    ensures SnapshotOf(second).Valid() && |second.blocked| > 1 && Reported(second) == [w]
    ensures forall order :: Lineup(World(second, [t]), order) ==> MayHang(World(second, [t]), order)
  {
    before := AllWait(t, u, v, w);
    first := Waiting(t, u, v, w);
    between := OneGoes(t, u, v, w);
    second := Freed(t, u, w);
    WaitingRound(t, u, v, w);
    FreedRound(t, u, w);
    hide Good, SnapshotOf, RoundTo, Few, Reported, Waiting, Freed, Holdings, Run, Lineup, MayHang, Different;
    CanHang(second, t);
  }

  lemma WaitingRound(t: Trainer, u: Trainer, v: Trainer, w: Trainer)
    requires Different(t, u, v, w) && Good(Waiting(t, u, v, w))
    ensures var s := Waiting(t, u, v, w);
      Few(s) && SnapshotOf(s).Valid() && RoundTo(World(s, []), [], World(s, [t]))
  {
    WaitingFacts(t, u, v, w);
    var s := Waiting(t, u, v, w);
    hide Good, SnapshotOf, RoundTo, Few, Reported, Waiting, Holdings, Goal, HasNest, NestOf, Run;
    OnlyHolderIsReported(s, 0);
    OneStays(s, t);
  }

  lemma FreedRound(t: Trainer, u: Trainer, w: Trainer)
    requires t != u && t != w && u != w && Good(Freed(t, u, w))
    ensures var s := Freed(t, u, w);
      && Few(s) && SnapshotOf(s).Valid() && |s.blocked| > 1 && Reported(s) == [w]
      && t in s.trainers && t !in s.blocked && Holdings(s, t) != []
  {
    FreedFacts(t, u, w);
    var s := Freed(t, u, w);
    hide Good, SnapshotOf, RoundTo, Few, Reported, Freed, Holdings, Goal, HasNest, NestOf, Run;
    OnlyHolderIsReported(s, 1);
  }

  lemma CanHang(s: State, t: Trainer)
    requires SnapshotOf(s).Valid() && |s.blocked| > 1 && Reported(s) != [] && t !in s.blocked
    ensures forall order :: Lineup(World(s, [t]), order) ==> MayHang(World(s, [t]), order)
  {
    hide SnapshotOf, Reported, Hangs, Lineup, MayHang;
    assert t in [t];
    forall order | Lineup(World(s, [t]), order)
      ensures MayHang(World(s, [t]), order)
    {
      RoundMayHang(World(s, [t]), order);
    }
  }
}

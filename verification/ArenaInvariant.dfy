/** What every event of the map keeps, and with it every run. */
module ArenaInvariant {
  import opened Words
  import opened Nests
  import opened Arena

  // Placement.

  lemma Added(list: seq<Trainer>, x: Trainer, t: Trainer)
    ensures Times(list + [x], t) == Times(list, t) + if t == x then 1 else 0
  {
  }

  lemma Removed(list: seq<Trainer>, k: nat, t: Trainer)
    requires k < |list|
    ensures Times(Without(list, k), t) == Times(list, t) - if t == list[k] then 1 else 0
    ensures Without(list, 0) == list[1..]
  {
    assert list == list[..k] + [list[k]] + list[k + 1..];
  }

  lemma TwiceIn(list: seq<Trainer>, j: nat, k: nat)
    requires j < k < |list| && list[j] == list[k]
    ensures Times(list, list[k]) >= 2
  {
    assert list == list[..k] + [list[k]] + list[k + 1..];
    assert list[..k][j] == list[k];
    assert list[k] in multiset(list[..k]);
  }

  lemma Nobody(t: Trainer)
    ensures Times([], t) == 0
  {
  }

  lemma Alone(x: Trainer, t: Trainer)
    ensures Times([x], t) == if t == x then 1 else 0
  {
  }

  ghost predicate SameSpots(s: State, s': State, t: Trainer) {
    Spots(s', t) - (if t in s'.trainers then 1 else 0) == Spots(s, t) - if t in s.trainers then 1 else 0
  }

  lemma SpotsServe(s: State, t: Trainer)
    requires Good(s) && s.token
    ensures SameSpots(s, Served(s), t)
  {
    hide Kinds, Counted, HasNest, NestOf, WithQueue, Placed, Times;
    Nobody(t);
    if s.blocked != [] {
      IsPlaced(s, s.blocked[0]);
      Removed(s.blocked, 0, t);
      Added(s.ready, s.blocked[0], t);
      Added(s.blocked[1..], s.blocked[0], t);
    }
  }

  lemma SpotsLeave(s: State, e: Event, t: Trainer)
    requires Good(s) && Enabled(s, e) && (e.ShakeFails? || e.RunnerLeaves? || e.BlockedLeaves?)
    ensures SameSpots(s, Step(s, e), t)
  {
    hide Kinds, Counted, ReturnAll, Placed, Times;
    Nobody(t);
    match e
    case ShakeFails(k) =>
      IsPlaced(s, s.shaking[k]);
      Removed(s.shaking, k, t);
    case RunnerLeaves =>
      IsPlaced(s, s.planner.runner);
      Alone(s.planner.runner, t);
    case BlockedLeaves(k) =>
      IsPlaced(s, s.blocked[k]);
      Removed(s.blocked, k, t);
  }

  /** No event puts a trainer in two places or in none. */
  lemma SpotsStep(s: State, e: Event, t: Trainer)
    requires Good(s) && Enabled(s, e)
    ensures SameSpots(s, Step(s, e), t)
  {
    hide Kinds, Counted, Served, Moved, Placed, Times;
    Nobody(t);
    match e
    case Connect(x) =>
      Added(s.shaking, x, t);
    case ShakeDone(k) =>
      Removed(s.shaking, k, t);
      Added(s.ready, s.shaking[k], t);
    case Pick(k) =>
      Removed(s.ready, k, t);
      Alone(s.ready[k], t);
    case RunnerRequeues =>
      Alone(s.planner.runner, t);
      Added(s.ready, s.planner.runner, t);
    case RunnerBlocks =>
      Alone(s.planner.runner, t);
      Added(s.blocked, s.planner.runner, t);
    case Serve =>
      SpotsServe(s, t);
    case PostReady =>
    case PlannerWakes =>
    case PostBlocked =>
    case AssignerWakes =>
    case Sort(_, _) =>
    case Ask(_) =>
      IsPlaced(s, s.planner.runner);
    case Move(_) =>
      IsPlaced(s, s.planner.runner);
    case _ =>
      SpotsLeave(s, e, t);
  }

  lemma PlacedStep(s: State, e: Event)
    requires Good(s) && Enabled(s, e)
    ensures Placed(Step(s, e))
  {
    hide Kinds, Counted, Step, Enabled, Times;
    var s' := Step(s, e);
    forall t | t in s'.trainers
      ensures Spots(s', t) == 1
    {
      SpotsStep(s, e, t);
      IsPlaced(s, t);
    }
    forall t | t in s'.Everyone()
      ensures t in s'.trainers
    {
      SpotsStep(s, e, t);
      IsPlaced(s, t);
      SpotsFound(s', t);
    }
  }

  // Counting.

  lemma CountedStep(s: State, e: Event)
    requires Good(s) && Enabled(s, e)
    ensures Counted(Step(s, e))
  {
    hide Kinds, Placed, Moved, ReturnAll, WithQueue, HasNest, NestOf;
  }

  // Kinds.

  lemma KindsReturn(s: State, t: Trainer)
    requires Kinds(s) && t in s.trainers
    ensures Kinds(Gone(s, t))
  {
    var list := s.trainers[t].pokemons;
    var nests := ReturnAll(s.nests, list);
    ReturnAllConserves(s.nests, list);
    KindsElsewhere(s, nests);
  }

  lemma KindsElsewhere(s: State, nests: seq<Nest>)
    requires Kinds(s) && SameSites(s.nests, nests) && Pure(nests)
    ensures Kinds(s.(nests := nests))
  {
    hide Pure, SameSites, Named, HasNest, Homed;
    NamedElsewhere(s.nests, nests, NONE);
    forall t | t in s.trainers
      ensures Homed(nests, s.trainers[t].pokemons)
      ensures HasNest(nests, s.trainers[t].obj) <==> HasNest(s.nests, s.trainers[t].obj)
    {
      HomedElsewhere(s.nests, nests, s.trainers[t].pokemons);
      NamedElsewhere(s.nests, nests, s.trainers[t].obj);
    }
  }

  lemma KindsServe(s: State)
    requires Good(s) && s.token
    ensures Kinds(Served(s))
  {
    hide Counted, Placed, SameSites, Named, Pure, HasNest, Homed, NestOf;
    if s.blocked != [] {
      var t := s.blocked[0];
      IsPlaced(s, t);
      var r := s.trainers[t];
      var at := NestOf(s.nests, r.obj);
      var queue := s.nests[at].pokemons;
      if queue != [] {
        HandOut(s.nests, at);
        KindsElsewhere(s, WithQueue(s.nests, at, queue[1..]));
        HomedWithOne(WithQueue(s.nests, at, queue[1..]), r.pokemons, queue[0], at);
        BlockedElsewhere(s, t);
      }
    }
  }

  lemma HomedWithOne(nests: seq<Nest>, list: seq<Pokemon>, p: Pokemon, at: nat)
    requires Homed(nests, list) && at < |nests| && p.id == nests[at].id
    ensures Homed(nests, list + [p])
  {
    assert HasNest(nests, p.id);
  }

  lemma BlockedElsewhere(s: State, t: Trainer)
    requires Placed(s) && s.blocked != [] && t == s.blocked[0] && t in s.trainers
    ensures t !in s.blocked[1..] && t !in s.ready && t !in s.shaking && t !in s.Running()
  {
    hide Times;
    IsPlaced(s, t);
    Removed(s.blocked, 0, t);
    InList(s.blocked, t);
    InList(s.blocked[1..], t);
    InList(s.ready, t);
    InList(s.shaking, t);
    InList(s.Running(), t);
  }

  lemma KindsLeave(s: State, e: Event)
    requires Good(s) && Enabled(s, e) && (e.ShakeFails? || e.RunnerLeaves? || e.BlockedLeaves?)
    ensures Kinds(Step(s, e))
  {
    hide Counted, Placed, SameSites, Named, Pure, HasNest, Homed, ReturnAll;
    match e
    case ShakeFails(k) =>
      IsPlaced(s, s.shaking[k]);
      KindsReturn(s, s.shaking[k]);
    case BlockedLeaves(k) =>
      IsPlaced(s, s.blocked[k]);
      KindsReturn(s, s.blocked[k]);
      KindsLess(Gone(s, s.blocked[k]), s.blocked, k);
    case RunnerLeaves =>
      IsPlaced(s, s.planner.runner);
      KindsReturn(s, s.planner.runner);
  }

  lemma KindsLess(s: State, list: seq<Trainer>, k: nat)
    requires Kinds(s) && s.blocked == list && k < |list|
    ensures Kinds(s.(blocked := Without(list, k)))
  {
    hide SameSites, Named, Pure, HasNest, Homed;
    assert forall t :: t in Without(list, k) ==> t in list;
  }

  lemma KindsStep(s: State, e: Event)
    requires Good(s) && Enabled(s, e)
    ensures Kinds(Step(s, e))
  {
    hide Counted, Served, Placed, SameSites, Named, Pure, HasNest, Homed, Gone, ReturnAll, Moved;
    match e
    case Serve =>
      KindsServe(s);
    case Connect(t) =>
      NothingIsHomed(s.nests);
      IsPlaced(s, t);
    case Sort(t, list) =>
      HomedSorted(s.nests, s.trainers[t].pokemons, list);
    case Ask(_) =>
      IsPlaced(s, s.planner.runner);
    case Move(_) =>
      IsPlaced(s, s.planner.runner);
    case ShakeFails(_) =>
      KindsLeave(s, e);
    case RunnerLeaves =>
      KindsLeave(s, e);
    case BlockedLeaves(_) =>
      KindsLeave(s, e);
    case _ =>
  }

  lemma NothingIsHomed(nests: seq<Nest>)
    ensures Homed(nests, [])
  {
  }

  lemma HomedSorted(nests: seq<Nest>, a: seq<Pokemon>, b: seq<Pokemon>)
    requires Homed(nests, a) && multiset(b) == multiset(a)
    ensures Homed(nests, b)
  {
    forall p | p in b
      ensures HasNest(nests, p.id)
    {
      assert p in multiset(b);
      assert p in a;
    }
  }

  // Conservation.

  /** How often Pokémon p is among those a trainer holds. */
  ghost function Own(m: map<Trainer, Record>, t: Trainer, p: Pokemon): nat {
    if t in m then multiset(m[t].pokemons)[p] else 0
  }

  ghost function HeldBy(list: seq<Trainer>, m: map<Trainer, Record>, p: Pokemon): nat {
    if list == [] then 0 else HeldBy(list[..|list| - 1], m, p) + Own(m, list[|list| - 1], p)
  }

  /** How often Pokémon p is anywhere: in a queue or with a trainer, wherever that trainer is. */
  ghost function Count(s: State, p: Pokemon): nat {
    Queued(s.nests)[p] + HeldBy(s.shaking, s.trainers, p) + HeldBy(s.ready, s.trainers, p)
      + HeldBy(s.blocked, s.trainers, p) + HeldBy(s.Running(), s.trainers, p)
  }

  lemma HeldAdded(list: seq<Trainer>, x: Trainer, m: map<Trainer, Record>, p: Pokemon)
    ensures HeldBy(list + [x], m, p) == HeldBy(list, m, p) + Own(m, x, p)
  {
    assert (list + [x])[..|list|] == list;
  }

  lemma {:induction false} HeldJoined(a: seq<Trainer>, b: seq<Trainer>, m: map<Trainer, Record>, p: Pokemon)
    ensures HeldBy(a + b, m, p) == HeldBy(a, m, p) + HeldBy(b, m, p)
  {
    hide Own;
    if b == [] {
      assert a + b == a;
    } else {
      var n := |b| - 1;
      HeldJoined(a, b[..n], m, p);
      HeldAdded(a + b[..n], b[n], m, p);
      assert a + b == (a + b[..n]) + [b[n]];
    }
  }

  lemma HeldRemoved(list: seq<Trainer>, k: nat, m: map<Trainer, Record>, p: Pokemon)
    requires k < |list|
    ensures HeldBy(Without(list, k), m, p) == HeldBy(list, m, p) - Own(m, list[k], p)
    ensures Without(list, 0) == list[1..]
  {
    hide Own, HeldBy;
    var before, after := list[..k], list[k + 1..];
    HeldJoined(before, after, m, p);
    HeldAdded(before, list[k], m, p);
    HeldJoined(before + [list[k]], after, m, p);
    assert list == (before + [list[k]]) + after;
  }

  lemma {:induction false} HeldElsewhere(list: seq<Trainer>, m: map<Trainer, Record>, m': map<Trainer, Record>, p: Pokemon)
    requires forall t :: t in list ==> Own(m', t, p) == Own(m, t, p)
    ensures HeldBy(list, m', p) == HeldBy(list, m, p)
  {
    if list == [] {
    } else {
      HeldElsewhere(list[..|list| - 1], m, m', p);
    }
  }

  lemma HeldByOne(x: Trainer, m: map<Trainer, Record>, p: Pokemon)
    ensures HeldBy([x], m, p) == Own(m, x, p)
  {
    assert [x][..0] == [];
  }

  /** Trainer t gives back all it holds and leaves its list. */
  lemma CountGone(s: State, s': State, t: Trainer, p: Pokemon)
    requires Placed(s) && Kinds(s) && t in s.trainers
    requires s'.nests == Gone(s, t).nests && s'.trainers == Gone(s, t).trainers
    requires t !in s'.Everyone()
    ensures Queued(s'.nests)[p] == Queued(s.nests)[p] + Own(s.trainers, t, p)
    ensures HeldBy(s'.shaking, s'.trainers, p) == HeldBy(s'.shaking, s.trainers, p)
    ensures HeldBy(s'.ready, s'.trainers, p) == HeldBy(s'.ready, s.trainers, p)
    ensures HeldBy(s'.blocked, s'.trainers, p) == HeldBy(s'.blocked, s.trainers, p)
    ensures HeldBy(s'.Running(), s'.trainers, p) == HeldBy(s'.Running(), s.trainers, p)
  {
    hide Times, HeldBy, Queued, Placed;
    ReturnAllConserves(s.nests, s.trainers[t].pokemons);
    HeldElsewhere(s'.shaking, s.trainers, s'.trainers, p);
    HeldElsewhere(s'.ready, s.trainers, s'.trainers, p);
    HeldElsewhere(s'.blocked, s.trainers, s'.trainers, p);
    HeldElsewhere(s'.Running(), s.trainers, s'.trainers, p);
  }

  lemma CountLeave(s: State, e: Event, p: Pokemon)
    requires Good(s) && Enabled(s, e) && (e.ShakeFails? || e.RunnerLeaves? || e.BlockedLeaves?)
    ensures Count(Step(s, e), p) == Count(s, p)
  {
    hide Counted, ReturnAll, Placed, Times, HeldBy, Queued, Kinds;
    var s' := Step(s, e);
    PlacedStep(s, e);
    match e
    case ShakeFails(k) =>
      IsPlaced(s, s.shaking[k]);
      IsPlaced(s', s.shaking[k]);
      CountGone(s, s', s.shaking[k], p);
      HeldRemoved(s.shaking, k, s.trainers, p);
    case RunnerLeaves =>
      IsPlaced(s, s.planner.runner);
      IsPlaced(s', s.planner.runner);
      CountGone(s, s', s.planner.runner, p);
      HeldByOne(s.planner.runner, s.trainers, p);
      HeldByNobody(s'.trainers, p);
    case BlockedLeaves(k) =>
      IsPlaced(s, s.blocked[k]);
      IsPlaced(s', s.blocked[k]);
      CountGone(s, s', s.blocked[k], p);
      HeldRemoved(s.blocked, k, s.trainers, p);
  }

  lemma HeldByNobody(m: map<Trainer, Record>, p: Pokemon)
    ensures HeldBy([], m, p) == 0
  {
  }

  /** Records change, but nobody's Pokémon. */
  lemma CountSame(s: State, m: map<Trainer, Record>, p: Pokemon)
    requires forall t :: t in s.Everyone() ==> Own(m, t, p) == Own(s.trainers, t, p)
    ensures Count(s.(trainers := m), p) == Count(s, p)
  {
    HeldElsewhere(s.shaking, s.trainers, m, p);
    HeldElsewhere(s.ready, s.trainers, m, p);
    HeldElsewhere(s.blocked, s.trainers, m, p);
    HeldElsewhere(s.Running(), s.trainers, m, p);
  }

  lemma CountServe(s: State, p: Pokemon)
    requires Good(s) && s.token
    ensures Count(Served(s), p) == Count(s, p)
  {
    hide Counted, Placed, Times, HeldBy, Queued, Named, Pure, Homed, HasNest, NestOf, WithQueue;
    if s.blocked != [] {
      var t := s.blocked[0];
      IsPlaced(s, t);
      var r := s.trainers[t];
      var at := NestOf(s.nests, r.obj);
      var queue := s.nests[at].pokemons;
      HeldRemoved(s.blocked, 0, s.trainers, p);
      if queue != [] {
        var m := Served(s).trainers;
        HandOut(s.nests, at);
        assert (Queued(WithQueue(s.nests, at, queue[1..])) + multiset{queue[0]})[p] == Queued(s.nests)[p];
        BlockedElsewhere(s, t);
        HeldElsewhere(s.shaking, s.trainers, m, p);
        HeldElsewhere(s.ready, s.trainers, m, p);
        HeldElsewhere(s.blocked[1..], s.trainers, m, p);
        HeldElsewhere(s.Running(), s.trainers, m, p);
        HeldAdded(s.ready, t, m, p);
        assert multiset(r.pokemons + [queue[0]])[p] == multiset(r.pokemons)[p] + multiset{queue[0]}[p];
      } else {
        HeldAdded(s.blocked[1..], t, s.trainers, p);
      }
    }
  }

  /** A trainer changes places, or only what it asks for, where it stands or the order of what it holds. */
  lemma CountMove(s: State, e: Event, p: Pokemon)
    requires Good(s) && Enabled(s, e)
    requires e.ShakeDone? || e.Pick? || e.RunnerRequeues? || e.RunnerBlocks?
    ensures Count(Step(s, e), p) == Count(s, p)
  {
    hide Counted, Kinds, Placed, Times, HeldBy, Queued, Without;
    HeldByNobody(s.trainers, p);
    match e
    case ShakeDone(k) =>
      HeldRemoved(s.shaking, k, s.trainers, p);
      HeldAdded(s.ready, s.shaking[k], s.trainers, p);
    case Pick(k) =>
      HeldRemoved(s.ready, k, s.trainers, p);
      HeldByOne(s.ready[k], s.trainers, p);
    case RunnerRequeues =>
      HeldByOne(s.planner.runner, s.trainers, p);
      HeldAdded(s.ready, s.planner.runner, s.trainers, p);
    case RunnerBlocks =>
      HeldByOne(s.planner.runner, s.trainers, p);
      HeldAdded(s.blocked, s.planner.runner, s.trainers, p);
  }

  lemma CountRecord(s: State, e: Event, p: Pokemon)
    requires Good(s) && Enabled(s, e)
    requires e.Ask? || e.Move? || e.Sort?
    ensures Count(Step(s, e), p) == Count(s, p)
  {
    hide Counted, Kinds, Placed, Times, HeldBy, Queued, HasNest, Count;
    match e
    case Ask(_) =>
      IsPlaced(s, s.planner.runner);
      CountSame(s, Step(s, e).trainers, p);
    case Move(_) =>
      IsPlaced(s, s.planner.runner);
      CountSame(s, Step(s, e).trainers, p);
    case Sort(t, list) =>
      CountSame(s, Step(s, e).trainers, p);
  }

  lemma CountConnect(s: State, t: Trainer, p: Pokemon)
    requires Good(s) && Enabled(s, Connect(t))
    ensures Count(Step(s, Connect(t)), p) == Count(s, p)
  {
    hide Counted, Kinds, Placed, Times, HeldBy, Queued;
    var m := Step(s, Connect(t)).trainers;
    IsPlaced(s, t);
    SpotsFound(s, t);
    CountSame(s, m, p);
    HeldAdded(s.shaking, t, m, p);
    assert m[t].pokemons == [];
  }

  /** No event makes a Pokémon, loses one or puts one in two places. */
  lemma CountStep(s: State, e: Event, p: Pokemon)
    requires Good(s) && Enabled(s, e)
    ensures Count(Step(s, e), p) == Count(s, p)
  {
    hide Counted, Kinds, Placed, Served, HeldBy, Queued, HasNest, Gone;
    HeldByNobody(s.trainers, p);
    match e
    case Connect(t) =>
      CountConnect(s, t, p);
    case Serve =>
      CountServe(s, p);
    case PostReady =>
    case PlannerWakes =>
    case PostBlocked =>
    case AssignerWakes =>
    case ShakeFails(_) =>
      CountLeave(s, e, p);
    case RunnerLeaves =>
      CountLeave(s, e, p);
    case BlockedLeaves(_) =>
      CountLeave(s, e, p);
    case Ask(_) =>
      CountRecord(s, e, p);
    case Move(_) =>
      CountRecord(s, e, p);
    case Sort(_, _) =>
      CountRecord(s, e, p);
    case _ =>
      CountMove(s, e, p);
  }

  // All of it, over all runs.

  lemma StepKeeps(s: State, e: Event)
    requires Good(s) && Enabled(s, e)
    ensures Good(Step(s, e))
    ensures SameSites(s.nests, Step(s, e).nests)
    ensures forall p :: Count(Step(s, e), p) == Count(s, p)
  {
    hide Placed, Kinds, Counted, Count;
    PlacedStep(s, e);
    KindsStep(s, e);
    CountedStep(s, e);
    forall p
      ensures Count(Step(s, e), p) == Count(s, p)
    {
      CountStep(s, e, p);
    }
  }

  /** The events can follow one another from s and end in s'. */
  ghost predicate Run(s: State, events: seq<Event>, s': State)
    requires Good(s)
    decreases |events|
  {
    if events == [] then s' == s else
      && Enabled(s, events[0])
      && (StepKeeps(s, events[0]); Run(Step(s, events[0]), events[1..], s'))
  }

  /**
   Over any interleaving of handshakes, planner, assigner and detector: each connected trainer stays in
   exactly one place, each queue holds its own kind only, the planner never finds its list empty, no
   wakeup is lost, and every Pokémon is there as often as it was.
   */
  lemma {:induction false} EveryRunKeeps(s: State, events: seq<Event>, s': State)
    requires Good(s) && Run(s, events, s')
    ensures Good(s') && SameSites(s.nests, s'.nests)
    ensures s'.planner.Woken? ==> s'.ready != []
    ensures forall p :: Count(s', p) == Count(s, p)
    decreases |events|
  {
    hide Placed, Kinds, Enabled, Step, Count;
    if events == [] {
    } else {
      StepKeeps(s, events[0]);
      EveryRunKeeps(Step(s, events[0]), events[1..], s');
    }
  }

  lemma RunOfNone(s: State)
    requires Good(s)
    ensures Run(s, [], s)
  {
  }

  /** Runs go on where others end. */
  lemma {:induction false} RunOn(a: State, x: seq<Event>, b: State, y: seq<Event>, c: State)
    requires Good(a) && Run(a, x, b) && Good(b) && Run(b, y, c)
    ensures Run(a, x + y, c)
    decreases |x|
  {
    hide Good, Enabled, Step;
    if x == [] {
      assert x + y == y;
    } else {
      StepKeeps(a, x[0]);
      RunOn(Step(a, x[0]), x[1..], b, y, c);
      assert (x + y)[1..] == x[1..] + y;
    }
  }

  lemma RunOfOne(a: State, e: Event)
    requires Good(a) && Enabled(a, e)
    ensures Run(a, [e], Step(a, e))
  {
    hide Good, Enabled, Step;
    StepKeeps(a, e);
    RunOfNone(Step(a, e));
    assert [e][1..] == [];
  }

  /** One more event. */
  lemma RunMore(a: State, x: seq<Event>, b: State, e: Event)
    requires Good(a) && Run(a, x, b) && Good(b) && Enabled(b, e)
    ensures Run(a, x + [e], Step(b, e))
  {
    hide Good, Enabled, Step, Run;
    RunOfOne(b, e);
    RunOn(a, x, b, [e], Step(b, e));
  }

  /** The same, and the state b it leaves. */
  lemma Next(start: State, events: seq<Event>, s: State, e: Event, b: State) returns (more: seq<Event>)
    requires Good(start) && Good(s) && Run(start, events, s) && Enabled(s, e) && b == Step(s, e)
    ensures Good(b) && Run(start, more, b) && more == events + [e]
  {
    hide Good, Run, Step, Enabled;
    StepKeeps(s, e);
    RunMore(start, events, s, e);
    more := events + [e];
  }
}

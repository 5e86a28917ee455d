/** Rounds of the detector in battle mode, between whatever else happens on the map. */
module Rounds {
  import opened Nests
  import opened Arena
  import opened ArenaInvariant
  import opened Deadlock
  import opened MapServer
  import opened Detector
  import opened Battle
  import opened DetectorRound

  /** One thing that happens: an event of some other thread, or a round of the detector and what it leaves. */
  datatype Happening = Other(e: Event) | Round(events: seq<Event>, next: World)

  /** The detector reports exactly one trainer. */
  ghost predicate ReportsOne(s: State)
    requires SnapshotOf(s).Valid()
  {
    |s.blocked| > 1 && |Reported(s)| == 1
  }

  /** What can happen in w. */
  ghost predicate Possible(w: World, h: Happening)
    requires Good(w.s)
  {
    match h
    case Other(e) => Enabled(w.s, e)
    case Round(events, next) => Few(w.s) && SnapshotOf(w.s).Valid() && RoundTo(w, events, next)
  }

  ghost function After(w: World, h: Happening): World
    requires Good(w.s) && Possible(w, h)
  {
    match h
    case Other(e) => World(Step(w.s, e), w.names)
    case Round(_, next) => next
  }

  lemma AfterIsGood(w: World, h: Happening)
    requires Good(w.s) && Possible(w, h)
    ensures Good(After(w, h).s)
    ensures forall p :: Count(After(w, h).s, p) == Count(w.s, p)
  {
    hide Placed, Kinds, Counted, Enabled, Step, Run, RoundTo, Count;
    match h
    case Other(e) =>
      StepKeeps(w.s, e);
    case Round(events, next) =>
      RoundIsRun(w, events, next);
      EveryRunKeeps(w.s, events, next.s);
  }

  lemma RoundIsRun(w: World, events: seq<Event>, next: World)
    requires Good(w.s) && SnapshotOf(w.s).Valid() && RoundTo(w, events, next)
    ensures Run(w.s, events, next.s)
  {
  }

  /** The happenings can follow one another. */
  ghost predicate Path(w: World, path: seq<Happening>)
    requires Good(w.s)
    decreases |path|
  {
    path == [] || (Possible(w, path[0]) && (AfterIsGood(w, path[0]); Path(After(w, path[0]), path[1..])))
  }

  ghost function End(w: World, path: seq<Happening>): World
    requires Good(w.s) && Path(w, path)
    decreases |path|
  {
    if path == [] then w else
      AfterIsGood(w, path[0]);
      End(After(w, path[0]), path[1..])
  }

  /** At every point of the path, so before every round and at the end, no name is on the deadlock list. */
  ghost predicate AlwaysClear(w: World, path: seq<Happening>)
    requires Good(w.s) && Path(w, path)
    decreases |path|
  {
    w.names == [] && (path == [] || (AfterIsGood(w, path[0]); AlwaysClear(After(w, path[0]), path[1..])))
  }

  /** No round of the path reports exactly one trainer. */
  ghost predicate NeverOne(w: World, path: seq<Happening>)
    requires Good(w.s) && Path(w, path)
    decreases |path|
  {
    path == [] ||
      (&& (path[0].Round? ==> !ReportsOne(w.s))
       && (AfterIsGood(w, path[0]); NeverOne(After(w, path[0]), path[1..])))
  }

  /** A round from an empty list leaves a name if and only if it reports exactly one trainer; that one then stays. */
  lemma RoundFromClear(w: World, events: seq<Event>, next: World)
    requires Good(w.s) && SnapshotOf(w.s).Valid() && RoundTo(w, events, next) && w.names == []
    ensures next.names == [] <==> !ReportsOne(w.s)
    ensures ReportsOne(w.s) ==> next == World(w.s, Reported(w.s))
    ensures |w.s.blocked| > 1 && |Reported(w.s)| > 1 ==>
      exists t :: t in Reported(w.s) && LeftBy(w.s.blocked, next.s.blocked, t)
  {
    hide Good, Reported;
    assert w.names + Reported(w.s) == Reported(w.s);
  }

  /** Over any path from an empty list: it is empty before every round if and only if no round reports exactly one. */
  lemma {:induction false} ClearUnlessOne(w: World, path: seq<Happening>)
    requires Good(w.s) && Path(w, path) && w.names == []
    ensures AlwaysClear(w, path) <==> NeverOne(w, path)
    decreases |path|
  {
    hide Good, RoundTo, Enabled, Step, ReportsOne, Few;
    if path != [] {
      AfterIsGood(w, path[0]);
      if path[0].Round? {
        RoundFromClear(w, path[0].events, path[0].next);
      }
      var next := After(w, path[0]);
      if next.names == [] {
        ClearUnlessOne(next, path[1..]);
      } else {
        NotClear(next, path[1..]);
      }
    }
  }

  lemma NotClear(w: World, path: seq<Happening>)
    requires Good(w.s) && Path(w, path) && w.names != []
    ensures !AlwaysClear(w, path)
  {
    hide Good, Path;
  }

  /** Names only leave the list in a round: until then it is what the last round left. */
  lemma RoundFromLeft(w: World, events: seq<Event>, next: World)
    requires Good(w.s) && SnapshotOf(w.s).Valid() && RoundTo(w, events, next) && w.names != []
    ensures |w.s.blocked| <= 1 || Reported(w.s) == [] ==> next.names == w.names
    ensures |w.s.blocked| > 1 && Reported(w.s) != [] ==>
      next.names == [] && exists t :: t in w.names + Reported(w.s) && LeftBy(w.s.blocked, next.s.blocked, t)
  {
    hide Good, Reported;
  }

  /**
   A trainer reported alone in two rounds, still blocked in the second, meets itself and dies, though it
   never had an opponent.
   */
  lemma ReportedAloneTwice(w: World, events: seq<Event>, next: World, t: Trainer)
    requires Good(w.s) && SnapshotOf(w.s).Valid() && RoundTo(w, events, next)
    requires w.names == [t] && |w.s.blocked| > 1 && Reported(w.s) == [t]
    ensures next.names == [] && LeftBy(w.s.blocked, next.s.blocked, t)
  {
    hide Good, Reported;
    var x :| x in w.names + Reported(w.s) && LeftBy(w.s.blocked, next.s.blocked, x);
    assert x == t;
  }

  /** Whoever stays connected keeps what it holds, so a name left over still has something to fight with. */
  lemma HoldingsStay(s: State, e: Event, t: Trainer)
    requires Good(s) && Enabled(s, e) && t in s.trainers && t in Step(s, e).trainers && Holdings(s, t) != []
    ensures Holdings(Step(s, e), t) != []
  {
    hide Placed, Kinds, Counted, ReturnAll, HasNest, Moved;
    match e
    case Serve =>
    case Sort(x, list) =>
      SameLength(list, s.trainers[x].pokemons);
    case Ask(_) =>
      IsPlaced(s, s.planner.runner);
    case Move(_) =>
      IsPlaced(s, s.planner.runner);
    case _ =>
  }

  // Whether a round ends.

  /** Whoever is reported is blocked. */
  lemma ReportedAreBlocked(s: State, t: Trainer)
    requires SnapshotOf(s).Valid() && t in Reported(s)
    ensures t in s.blocked
  {
    hide Snapshot.WrittenMarks;
    UnfinishedAre(s.blocked, SnapshotOf(s).WrittenMarks(), t);
  }

  ghost predicate MayHang(w: World, order: seq<Trainer>)
    requires SnapshotOf(w.s).Valid()
  {
    exists loses :: Hangs(w, order, loses)
  }

  /**
   In whatever order they fight, the battles of a round can end so that it never ends, if and only if the
   round has somebody to report and some name left over is not blocked.
   */
  lemma RoundMayHang(w: World, order: seq<Trainer>)
    requires SnapshotOf(w.s).Valid() && Lineup(w, order)
    ensures MayHang(w, order)
       <==> |w.s.blocked| > 1 && Reported(w.s) != [] && exists t :: t in w.names && t !in w.s.blocked
  {
    hide Good, Reported, LastLoser;
    var all := w.names + Reported(w.s);
    SortedSame(order, all);
    if |w.s.blocked| > 1 && Reported(w.s) != [] && exists t :: t in w.names && t !in w.s.blocked {
      var t :| t in w.names && t !in w.s.blocked;
      var loses := LosesLast(order, t);
      assert Hangs(w, order, loses);
    }
    forall loses | Hangs(w, order, loses)
      ensures LastLoser(order, loses) in w.names
    {
      if LastLoser(order, loses) in Reported(w.s) {
        ReportedAreBlocked(w.s, LastLoser(order, loses));
      }
    }
  }

  lemma LosesLast(order: seq<Trainer>, t: Trainer) returns (loses: seq<bool>)
    requires t in order
    ensures |loses| == |order| - 1 && LastLoser(order, loses) == t
  {
    var k :| 0 <= k < |order| && order[k] == t;
    loses := AnyoneCanLose(order, k);
  }

  /** So while no round has reported exactly one trainer, none can hang. */
  lemma {:induction false} ClearNeverHangs(w: World, path: seq<Happening>, order: seq<Trainer>, loses: seq<bool>)
    requires Good(w.s) && Path(w, path) && w.names == [] && NeverOne(w, path)
    requires Good(End(w, path).s) && SnapshotOf(End(w, path).s).Valid()
    ensures !Hangs(End(w, path), order, loses)
    decreases |path|
  {
    hide Good, RoundTo, Enabled, Step, ReportsOne, Few, Hangs, SnapshotOf;
    if path == [] {
      if Hangs(w, order, loses) {
        HangsFrom(w, order, loses);
        RoundMayHang(w, order);
      }
    } else {
      AfterIsGood(w, path[0]);
      if path[0].Round? {
        RoundFromClear(w, path[0].events, path[0].next);
      }
      ClearNeverHangs(After(w, path[0]), path[1..], order, loses);
    }
  }

  lemma HangsFrom(w: World, order: seq<Trainer>, loses: seq<bool>)
    requires SnapshotOf(w.s).Valid() && Hangs(w, order, loses)
    ensures Lineup(w, order) && MayHang(w, order)
  {
  }

  // What a round that ends does to the others.

  /** Only the order of what the trainers hold may differ. */
  ghost predicate Reordered(s: State, s': State) {
    && s' == s.(trainers := s'.trainers) && s'.trainers.Keys == s.trainers.Keys
    && forall t :: t in s.trainers ==> SameButOrder(s.trainers[t], s'.trainers[t])
  }

  ghost predicate SameButOrder(a: Record, b: Record) {
    b == a.(pokemons := b.pokemons) && multiset(b.pokemons) == multiset(a.pokemons)
  }

  lemma OneSorts(s: State, e: Event)
    requires Good(s) && e.Sort? && Enabled(s, e)
    ensures Good(Step(s, e)) && Reordered(s, Step(s, e))
  {
    hide Good, Step;
    StepKeeps(s, e);
    assert e.t in s.trainers && multiset(e.list) == multiset(s.trainers[e.t].pokemons);
    hide Enabled;
    SortCases(s, e.t, e.list);
  }

  lemma {:induction false} SortsReorder(s: State, events: seq<Event>, s': State)
    requires Good(s) && Run(s, events, s') && OnlySorts(events)
    ensures Reordered(s, s')
    decreases |events|
  {
    hide Good, Step, Enabled;
    if events != [] {
      OneSorts(s, events[0]);
      assert OnlySorts(events[1..]);
      SortsReorder(Step(s, events[0]), events[1..], s');
      ReorderedTwice(s, Step(s, events[0]), s');
    }
  }

  lemma ReorderedTwice(a: State, b: State, c: State)
    requires Reordered(a, b) && Reordered(b, c)
    ensures Reordered(a, c)
  {
  }

  /**
   Trainer t is gone, and nothing else has happened: each nest has its own kind of what t held behind those
   that waited there, all others hold what they held and want what they wanted, all lists are as they were.
   */
  ghost predicate GaveBack(s: State, s': State, t: Trainer) {
    && t in s.trainers && s'.trainers.Keys == s.trainers.Keys - {t} && LeftBy(s.blocked, s'.blocked, t)
    && s' == s.(nests := s'.nests, trainers := s'.trainers, blocked := s'.blocked) && SameSites(s.nests, s'.nests)
    && (forall u :: u in s'.trainers ==> SameButOrder(s.trainers[u], s'.trainers[u]))
    && (forall i :: 0 <= i < |s.nests| ==> s.nests[i].pokemons <= s'.nests[i].pokemons)
    && (forall i :: 0 <= i < |s.nests| ==>
          multiset(s'.nests[i].pokemons) == multiset(s.nests[i].pokemons) + multiset(OfKind(s.trainers[t].pokemons, s.nests[i].id)))
  }

  lemma {:induction false} KindsOfBag(list: seq<Pokemon>, id: char, p: Pokemon)
    ensures multiset(OfKind(list, id))[p] == if p.id == id then multiset(list)[p] else 0
  {
    if list != [] {
      KindsOfBag(list[1..], id, p);
      assert list == [list[0]] + list[1..];
    }
  }

  lemma SameKinds(a: seq<Pokemon>, b: seq<Pokemon>, id: char)
    requires multiset(a) == multiset(b)
    ensures multiset(OfKind(a, id)) == multiset(OfKind(b, id))
  {
    forall p
      ensures multiset(OfKind(a, id))[p] == multiset(OfKind(b, id))[p]
    {
      KindsOfBag(a, id, p);
      KindsOfBag(b, id, p);
    }
  }

  lemma OneLeaves(s: State, k: nat)
    requires Good(s) && k < |s.blocked|
    ensures Enabled(s, BlockedLeaves(k)) && GaveBack(s, Step(s, BlockedLeaves(k)), s.blocked[k])
  {
    StepDrops(s, k);
    var s', t := Step(s, BlockedLeaves(k)), s.blocked[k];
    hide Placed, Counted, Step, Enabled, OfKind, ReturnAll;
    assert LeftBy(s.blocked, s'.blocked, t);
    forall i: nat | i < |s.nests|
      ensures s'.nests[i].pokemons == s.nests[i].pokemons + OfKind(s.trainers[t].pokemons, s.nests[i].id)
    {
      ReturnAllIsExact(s.nests, s.trainers[t].pokemons, i);
    }
  }

  lemma GaveBackSorted(s: State, a: State, b: State, t: Trainer)
    requires Reordered(s, a) && GaveBack(a, b, t)
    ensures GaveBack(s, b, t)
  {
    hide OfKind, LeftBy;
    forall i | 0 <= i < |s.nests|
      ensures multiset(OfKind(s.trainers[t].pokemons, s.nests[i].id)) == multiset(OfKind(a.trainers[t].pokemons, s.nests[i].id))
    {
      SameKinds(s.trainers[t].pokemons, a.trainers[t].pokemons, s.nests[i].id);
    }
  }

  lemma {:induction false} RunSplits(s: State, x: seq<Event>, y: seq<Event>, s': State) returns (mid: State)
    requires Good(s) && Run(s, x + y, s')
    ensures Run(s, x, mid) && Good(mid) && Run(mid, y, s')
    decreases |x|
  {
    hide Good, Enabled, Step;
    if x == [] {
      assert x + y == y;
      mid := s;
    } else {
      assert (x + y)[0] == x[0] && (x + y)[1..] == x[1..] + y;
      StepKeeps(s, x[0]);
      mid := RunSplits(Step(s, x[0]), x[1..], y, s');
    }
  }

  /** Whoever dies in a round gives back exactly what it held, and nothing else changes. */
  lemma VictimGivesBack(s: State, events: seq<Event>, s': State, t: Trainer)
    requires Good(s) && Run(s, events, s') && EndsWithout(events, s.blocked, t)
    ensures GaveBack(s, s', t)
  {
    hide Good, Run, GaveBack, Step, Enabled, Reordered;
    var n := |events| - 1;
    assert events == events[..n] + [events[n]];
    var mid := RunSplits(s, events[..n], [events[n]], s');
    SortsReorder(s, events[..n], mid);
    SameLists(s, mid);
    hide OnlySorts;
    RunOfJust(mid, events[n], s');
    OneLeaves(mid, events[n].k);
    GaveBackSorted(s, mid, s', t);
  }

  lemma SameLists(s: State, s': State)
    requires Reordered(s, s')
    ensures s'.blocked == s.blocked
  {
  }

  lemma RunOfJust(s: State, e: Event, s': State)
    requires Good(s) && Run(s, [e], s')
    ensures Enabled(s, e) && s' == Step(s, e)
  {
    hide Good, Enabled, Step;
    assert [e][1..] == [];
  }

  /** A round that disconnects somebody: that one gives back all it held, and nothing else changes. */
  lemma RoundGivesBack(w: World, events: seq<Event>, next: World)
    requires Good(w.s) && SnapshotOf(w.s).Valid() && RoundTo(w, events, next)
    ensures next.s == w.s || exists t :: t in w.names + Reported(w.s) && GaveBack(w.s, next.s, t)
  {
    hide Good, Reported, EndsWithout, GaveBack, LeftBy;
    if t :| t in w.names + Reported(w.s) && EndsWithout(events, w.s.blocked, t) {
      VictimGivesBack(w.s, events, next.s, t);
    } else {
      assert events == [];
    }
  }
}

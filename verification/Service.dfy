/** How long a blocked trainer waits for a Pokémon that is there. */
module Service {
  import opened Nests
  import opened Arena
  import opened ArenaInvariant

  /** Trainer t is blocked at index k, its nest has something, and nobody before it asks for the same nest. */
  ghost predicate InLine(s: State, t: Trainer, k: nat)
    requires Good(s)
  {
    && k < |s.blocked| && s.blocked[k] == t
    && HasStock(s, t)
    && forall j :: 0 <= j < k ==> Obj(s, s.blocked[j]) != Obj(s, t)
  }

  ghost function Obj(s: State, t: Trainer): char {
    if t in s.trainers then s.trainers[t].obj else NONE
  }

  ghost predicate HasStock(s: State, t: Trainer) {
    HasNest(s.nests, Obj(s, t)) && s.nests[NestOf(s.nests, Obj(s, t))].pokemons != []
  }

  /** The first blocked trainer whose nest is not empty is in line. */
  lemma FirstIsInLine(s: State, k: nat)
    requires Good(s) && k < |s.blocked| && HasStock(s, s.blocked[k])
    requires forall j :: 0 <= j < k ==> !HasStock(s, s.blocked[j])
    ensures InLine(s, s.blocked[k], k)
  {
  }

  /** While somebody is blocked, the assigner has or will get its token. */
  lemma AssignerGoesOn(s: State)
    requires Good(s) && s.blocked != []
    ensures Enabled(s, Serve) || Enabled(s, AssignerWakes) || Enabled(s, PostBlocked)
  {
    hide Placed, Kinds;
  }

  /** While somebody is ready and the planner is at its semaphore, it will get past it. */
  lemma PlannerGoesOn(s: State)
    requires Good(s) && s.ready != [] && s.planner.Idle?
    ensures Enabled(s, PlannerWakes) || Enabled(s, PostReady)
  {
    hide Placed, Kinds;
  }

  lemma StockStays(s: State, nests: seq<Nest>, t: Trainer)
    requires HasStock(s, t) && SameSites(s.nests, nests)
    requires forall i :: 0 <= i < |nests| && s.nests[i].pokemons != [] && s.nests[i].id == Obj(s, t) ==> nests[i].pokemons != []
    ensures HasStock(s.(nests := nests), t)
  {
    NamedElsewhere(s.nests, nests, Obj(s, t));
  }

  lemma ReturnLeavesStock(s: State, x: Trainer, t: Trainer)
    requires Kinds(s) && x in s.trainers && HasStock(s, t)
    ensures HasStock(s.(nests := Gone(s, x).nests), t)
  {
    var list := s.trainers[x].pokemons;
    forall i: nat | i < |s.nests|
      ensures s.nests[i].pokemons != [] ==> ReturnAll(s.nests, list)[i].pokemons != []
    {
      ReturnAllIsExact(s.nests, list, i);
    }
    StockStays(s, ReturnAll(s.nests, list), t);
  }

  /** Whoever leaves from elsewhere only adds to the nests. */
  lemma LeaveKeepsLine(s: State, e: Event, t: Trainer, k: nat)
    requires Good(s) && Enabled(s, e) && InLine(s, t, k) && Good(Step(s, e))
    requires e.ShakeFails? || e.RunnerLeaves?
    ensures InLine(Step(s, e), t, k)
  {
    hide Counted, ReturnAll, HasNest, NestOf, Kinds, Placed, Times, HasStock;
    var x := if e.ShakeFails? then s.shaking[e.k] else s.planner.runner;
    IsPlaced(s, x);
    NotBlocked(s, x);
    ReturnLeavesStock(s, x, t);
    StockByRecord(s, Step(s, e), t);
  }

  lemma StockByRecord(s: State, s': State, t: Trainer)
    requires HasStock(s.(nests := s'.nests), t) && Obj(s', t) == Obj(s, t)
    ensures HasStock(s', t)
  {
  }

  /** Who shakes hands or runs is not blocked. */
  lemma NotBlocked(s: State, x: Trainer)
    requires Placed(s) && (x in s.shaking || x in s.Running() || x in s.ready)
    ensures x !in s.blocked
  {
    hide Times;
    IsPlaced(s, x);
    InList(s.shaking, x);
    InList(s.ready, x);
    InList(s.blocked, x);
    InList(s.Running(), x);
  }

  /** Nobody is blocked twice. */
  lemma BlockedOnce(s: State, j: nat, k: nat)
    requires Placed(s) && j < |s.blocked| && k < |s.blocked| && j != k
    ensures s.blocked[j] != s.blocked[k]
  {
    hide Times;
    IsPlaced(s, s.blocked[j]);
    if s.blocked[j] == s.blocked[k] {
      TwiceIn(s.blocked, if j < k then j else k, if j < k then k else j);
    }
  }

  /** When somebody else blocked leaves, t keeps its place or moves up. */
  lemma BlockedLeavesKeepsLine(s: State, i: nat, t: Trainer, k: nat)
    requires Good(s) && Enabled(s, BlockedLeaves(i)) && InLine(s, t, k) && i != k
    requires Good(Step(s, BlockedLeaves(i)))
    ensures InLine(Step(s, BlockedLeaves(i)), t, if i < k then k - 1 else k)
  {
    hide Counted, ReturnAll, HasNest, NestOf, Kinds, Placed, Times, HasStock;
    var x := s.blocked[i];
    var s' := Step(s, BlockedLeaves(i));
    IsPlaced(s, x);
    BlockedOnce(s, i, k);
    ReturnLeavesStock(s, x, t);
    StockByRecord(s, s', t);
    var k' := if i < k then k - 1 else k;
    forall j | 0 <= j < k'
      ensures Obj(s', s'.blocked[j]) != Obj(s', t)
    {
      var j' := if j < i then j else j + 1;
      assert s'.blocked[j] == s.blocked[j'];
      BlockedOnce(s, i, j');
    }
  }

  /** A service of somebody before t moves t up and leaves its nest alone. */
  lemma ServeMovesUp(s: State, t: Trainer, k: nat)
    requires Good(s) && s.token && InLine(s, t, k) && k > 0 && Good(Served(s))
    ensures InLine(Served(s), t, k - 1)
  {
    hide Counted, Placed, Times;
    var s', x := Served(s), s.blocked[0];
    IsPlaced(s, x);
    var at := NestOf(s.nests, Obj(s, x));
    StockStays(s, s'.nests, t);
    BlockedOnce(s, 0, k);
    StockByRecord(s, s', t);
    forall j | 0 <= j < k - 1
      ensures Obj(s', s'.blocked[j]) != Obj(s', t)
    {
      BlockedOnce(s, 0, j + 1);
      assert s'.blocked[j] == s.blocked[j + 1];
    }
  }

  /** What a service gives the first in line: the front of the queue of its nest. */
  lemma ServeGrants(s: State, t: Trainer)
    requires Good(s) && s.token && InLine(s, t, 0)
    ensures var s' := Served(s);
      var queue := s.nests[NestOf(s.nests, Obj(s, t))].pokemons;
      && s'.ready == s.ready + [t] && t !in s'.blocked
      && t in s.trainers && t in s'.trainers
      && s'.trainers[t].pokemons == s.trainers[t].pokemons + [queue[0]]
      && s'.nests[NestOf(s.nests, Obj(s, t))].pokemons == queue[1..]
      && Obj(s', t) == NONE
  {
    hide Counted, Times;
    IsPlaced(s, t);
    BlockedElsewhere(s, t);
  }

  /** Anything else leaves t where it is. */
  lemma OtherKeepsLine(s: State, e: Event, t: Trainer, k: nat)
    requires Good(s) && Enabled(s, e) && InLine(s, t, k) && Good(Step(s, e))
    requires !e.Serve? && !e.BlockedLeaves? && !e.ShakeFails? && !e.RunnerLeaves?
    ensures InLine(Step(s, e), t, k)
  {
    hide Counted, Kinds, Placed, Times, HasNest, NestOf, HasStock, Moved;
    var s' := Step(s, e);
    IsPlaced(s, t);
    if s.planner.Runs? {
      NotBlocked(s, s.planner.runner);
    }
    forall j | 0 <= j <= k
      ensures Obj(s', s.blocked[j]) == Obj(s, s.blocked[j])
    {
      IsPlaced(s, s.blocked[j]);
    }
    StockByRecord(s, s', t);
  }

  /** How many services there are among the events. */
  ghost function Services(events: seq<Event>): nat {
    if events == [] then 0 else (if events[0].Serve? then 1 else 0) + Services(events[1..])
  }

  /** Somewhere on the way t is served with its nest not empty, or leaves the blocked list. */
  ghost predicate Settled(s: State, events: seq<Event>, t: Trainer)
    requires Good(s)
    decreases |events|
  {
    events != [] && Enabled(s, events[0]) &&
    ( || (events[0].Serve? && s.blocked != [] && s.blocked[0] == t && HasStock(s, t))
      || (events[0].BlockedLeaves? && s.blocked[events[0].k] == t)
      || (StepKeeps(s, events[0]); Settled(Step(s, events[0]), events[1..], t)))
  }

  /**
   Bounded service: over any run in which the assigner serves more than k times, the trainer in line at
   index k has got its Pokémon or has left.
   */
  lemma {:induction false} SettledInTime(s: State, events: seq<Event>, s': State, t: Trainer, k: nat)
    requires Good(s) && Run(s, events, s') && InLine(s, t, k) && Services(events) > k
    ensures Settled(s, events, t)
    decreases |events|
  {
    hide Placed, Kinds, Counted, Step, HasStock;
    var e := events[0];
    StepKeeps(s, e);
    var next := Step(s, e);
    if e.Serve? {
      assert next == Served(s) by { StepServe(s); }
      if k > 0 {
        ServeMovesUp(s, t, k);
        SettledInTime(next, events[1..], s', t, k - 1);
      }
    } else if e.BlockedLeaves? {
      if e.k != k {
        BlockedLeavesKeepsLine(s, e.k, t, k);
        SettledInTime(next, events[1..], s', t, if e.k < k then k - 1 else k);
      }
    } else {
      if e.ShakeFails? || e.RunnerLeaves? {
        LeaveKeepsLine(s, e, t, k);
      } else {
        OtherKeepsLine(s, e, t, k);
      }
      SettledInTime(next, events[1..], s', t, k);
    }
  }

  lemma StepServe(s: State)
    requires Good(s) && s.token
    ensures Step(s, Serve) == Served(s)
  {
  }
}

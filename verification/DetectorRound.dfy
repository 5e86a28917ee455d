/** One round of the deadlock thread after the disconnected are gone. */
module DetectorRound {
  import opened Nests
  import opened Arena
  import opened ArenaInvariant
  import opened Deadlock
  import opened MapServer
  import opened Detector
  import opened Battle

  /** Those not marked, in list order. */
  ghost function Unfinished(list: seq<Trainer>, finish: seq<bool>): (r: seq<Trainer>)
    requires |finish| == |list|
    ensures |r| <= |list|
  {
    if list == [] then [] else
      var n := |list| - 1;
      Unfinished(list[..n], finish[..n]) + if finish[n] then [] else [list[n]]
  }

  /** Trainer t stands on the list unmarked. */
  ghost predicate LeftOver(list: seq<Trainer>, finish: seq<bool>, t: Trainer)
    requires |finish| == |list|
  {
    exists i :: 0 <= i < |list| && list[i] == t && !finish[i]
  }

  lemma LeftOverLast(list: seq<Trainer>, finish: seq<bool>, t: Trainer)
    requires |finish| == |list| && list != []
    ensures var n := |list| - 1;
      LeftOver(list, finish, t) <==> LeftOver(list[..n], finish[..n], t) || (list[n] == t && !finish[n])
  {
    var n := |list| - 1;
    var list', finish' := list[..n], finish[..n];
    if LeftOver(list, finish, t) {
      var i :| 0 <= i < |list| && list[i] == t && !finish[i];
      assert i < n ==> list'[i] == t && !finish'[i];
    }
    if LeftOver(list', finish', t) {
      var i :| 0 <= i < n && list'[i] == t && !finish'[i];
      assert list[i] == t && !finish[i];
    }
  }

  lemma {:induction false} UnfinishedAre(list: seq<Trainer>, finish: seq<bool>, t: Trainer)
    requires |finish| == |list|
    ensures t in Unfinished(list, finish) <==> LeftOver(list, finish, t)
  {
    if list != [] {
      hide LeftOver;
      var n := |list| - 1;
      LeftOverLast(list, finish, t);
      UnfinishedAre(list[..n], finish[..n], t);
    }
  }

  lemma {:induction false} UnfinishedOnce(list: seq<Trainer>, finish: seq<bool>, t: Trainer)
    requires |finish| == |list|
    ensures Times(Unfinished(list, finish), t) <= Times(list, t)
  {
    hide Times;
    if list == [] {
      Nobody(t);
    } else {
      var n := |list| - 1;
      UnfinishedOnce(list[..n], finish[..n], t);
      assert list == list[..n] + [list[n]];
      Added(list[..n], list[n], t);
      Added(Unfinished(list[..n], finish[..n]), list[n], t);
      assert Unfinished(list[..n], finish[..n]) + [] == Unfinished(list[..n], finish[..n]);
    }
  }

  /** Those the detector reports in state s: what the reduction as written leaves unmarked. */
  ghost function Reported(s: State): seq<Trainer>
    requires SnapshotOf(s).Valid()
  {
    Unfinished(s.blocked, SnapshotOf(s).WrittenMarks())
  }

  /** Each reported trainer is blocked, holds something and is reported once. */
  lemma ReportedFight(s: State)
    requires Good(s) && Few(s) && SnapshotOf(s).Valid()
    ensures Distinct(Reported(s))
    ensures forall t :: t in Reported(s) ==> t in s.blocked && Holdings(s, t) != []
  {
    hide Counted, Kinds;
    var snap := SnapshotOf(s);
    FewIsExact(s);
    forall t | t in Reported(s)
      ensures t in s.blocked && Holdings(s, t) != [] && Times(Reported(s), t) == 1
    {
      UnfinishedAre(s.blocked, snap.WrittenMarks(), t);
      UnfinishedOnce(s.blocked, snap.WrittenMarks(), t);
      InList(Reported(s), t);
      IsPlaced(s, t);
    }
  }

  /**
   Nobody who is truly deadlocked is missed: whoever is in no completion order is reported, and when
   nobody is reported all holders can be served, in the order of the list.
   */
  lemma ReportedEnough(s: State, meant: seq<bool>, i: nat)
    requires Good(s) && Few(s) && SnapshotOf(s).Valid() && SnapshotOf(s).LeavesLargestStuck(meant)
    requires i < |s.blocked| && Holdings(s, s.blocked[i]) != []
    ensures s.blocked[i] !in Reported(s) ==> exists order :: SnapshotOf(s).CompletionOrder(order) && i in order
    ensures Reported(s) == [] ==> !SnapshotOf(s).Exceeds(SnapshotOf(s).FirstMarked(i), i)
  {
    hide Good, Holdings, Snapshot.CompletionOrder, Snapshot.LeavesLargestStuck, Snapshot.Exceeds, Few;
    var snap := SnapshotOf(s);
    FewIsExact(s);
    assert snap.Holder(i);
    UnfinishedAre(s.blocked, snap.WrittenMarks(), s.blocked[i]);
    if s.blocked[i] !in Reported(s) {
      assert snap.WrittenMarks()[i];
      snap.WrittenWithinMeant(meant);
      snap.MarkedMeansServable(meant, i);
    }
    if Reported(s) == [] {
      forall h | 0 <= h < snap.Trainers()
        ensures snap.WrittenMarks()[h]
      {
        UnfinishedAre(s.blocked, snap.WrittenMarks(), s.blocked[h]);
      }
      snap.NoReportNoDeadlock();
    }
  }

  lemma UnfinishedNext(list: seq<Trainer>, finish: seq<bool>, i: nat)
    requires |finish| == |list| && i < |list|
    ensures Unfinished(list[..i + 1], finish[..i + 1]) == Unfinished(list[..i], finish[..i]) + if finish[i] then [] else [list[i]]
    ensures list[..|list|] == list && finish[..|finish|] == finish
  {
    assert list[..i + 1][..i] == list[..i] && finish[..i + 1][..i] == finish[..i];
  }

  /** A trainer is put on the deadlock list and told. */
  method Name(m: Mapa, i: nat)
    requires m.Valid() && i < |m.eBlocked|
    modifies m`eDeadlock, {m.eBlocked[i]}`sent
    ensures m.Valid() && m.Model() == old(m.Model())
    ensures m.eDeadlock == old(m.eDeadlock) + [m.eBlocked[i]]
    ensures m.eBlocked[i].sent == old(m.eBlocked[i].sent) + "D"
  {
    hide Good;
    m.eDeadlock := m.eDeadlock + [m.eBlocked[i]];
    m.Tell(m.eBlocked[i], "D");
  }

  lemma NotBefore(m: Mapa, i: nat)
    requires m.Valid() && i < |m.eBlocked|
    ensures m.eBlocked[i] !in m.eBlocked[..i]
  {
    var s := m.Model();
    var t := m.eBlocked[i];
    IsPlaced(s, t);
    if t in m.eBlocked[..i] {
      var j :| 0 <= j < i && m.eBlocked[..i][j] == t;
      TwiceIn(m.eBlocked, j, i);
    }
  }

  /** The report of deadlockDetect: in battle mode each unfinished trainer is named once. */
  method Report(m: Mapa, finish: seq<bool>, ghost arena: seq<Trainer>) returns (flag: bool)
    requires m.Valid() && |finish| == |m.eBlocked| && forall t :: t in m.eBlocked ==> t in arena
    modifies m`eDeadlock, arena`sent
    ensures m.Valid() && m.Model() == old(m.Model())
    ensures m.eDeadlock == old(m.eDeadlock) + if m.batalla then Unfinished(m.eBlocked, finish) else []
    ensures flag <==> Unfinished(m.eBlocked, finish) != []
    ensures forall t :: t in m.eBlocked ==>
      t.sent == old(t.sent) + if m.batalla && t in Unfinished(m.eBlocked, finish) then "D" else ""
  {
    hide Good, Unfinished, Mapa.Model, Mapa.Everyone, Mapa.Valid;
    ghost var s, list := m.Model(), m.eBlocked;
    flag := false;
    NobodyYet(list, finish);
    for i := 0 to |m.eBlocked|
      invariant m.Valid() && m.Model() == s
      invariant m.eDeadlock == old(m.eDeadlock) + if m.batalla then Unfinished(list[..i], finish[..i]) else []
      invariant flag <==> Unfinished(list[..i], finish[..i]) != []
      invariant forall t :: t in list ==>
        t.sent == old(t.sent) + if m.batalla && t in Unfinished(list[..i], finish[..i]) then "D" else ""
    {
      UnfinishedNext(list, finish, i);
      NotBefore(m, i);
      UnfinishedAre(list[..i], finish[..i], list[i]);
      if !finish[i] {
        flag := true;
        if m.batalla {
          assert m.eBlocked[i] in arena;
          Name(m, i);
        }
      }
    }
    assert list[..|list|] == list && finish[..|finish|] == finish;
  }

  lemma NobodyYet(list: seq<Trainer>, finish: seq<bool>)
    requires |finish| == |list|
    ensures Unfinished(list[..0], finish[..0]) == []
  {
  }

  lemma FewIsValid(s: State)
    requires Good(s) && Few(s)
    ensures SnapshotOf(s).Valid()
  {
    hide Good, Few;
    FewIsExact(s);
  }

  /** The matrices of the map as it stands, and the reduction on them. */
  method Detect(m: Mapa) returns (finish: seq<bool>)
    requires m.Valid() && 0 < |m.eBlocked| <= MAX && m.nests.Length < MAX && Few(m.Model())
    ensures SnapshotOf(old(m.Model())).Valid() && finish == SnapshotOf(old(m.Model())).WrittenMarks()
    ensures m.Valid() && m.Model() == old(m.Model())
  {
    hide Good, Few, SnapshotOf, Snapshot.WrittenMarks, Snapshot.Valid, Holdings, Goal;
    ghost var s := m.Model();
    m.Fields();
    BlockedRecords(m);
    FewIsValid(s);
    var r := FillStructures(s, m);
    var passes;
    finish, passes := DetectAsWritten(r);
    m.Agree(s);
  }

  lemma BlockedRecords(m: Mapa)
    requires m.Valid()
    ensures forall t :: t in m.eBlocked ==> t.obj == Goal(m.Model(), t) && t.pokemons == Holdings(m.Model(), t)
  {
    var s := m.Model();
    forall t | t in m.eBlocked
      ensures t in s.trainers
    {
      IsPlaced(s, t);
    }
  }

  /** The map and the names on its deadlock list. */
  datatype World = World(s: State, names: seq<Trainer>)

  /**
   What a round in battle mode may make of them by a run of events. When somebody is reported, it joins
   whoever is still on the list from earlier rounds: one name alone stays there; of two or more, one that
   is blocked dies, and the list is empty. Before it dies trainers have sorted what they hold; nothing
   else happens.
   */
  ghost predicate RoundTo(w: World, events: seq<Event>, w': World)
    requires Good(w.s) && SnapshotOf(w.s).Valid()
  {
    && Run(w.s, events, w'.s)
    && if |w.s.blocked| <= 1 || Reported(w.s) == [] then events == [] && w'.names == w.names
       else if |w.names + Reported(w.s)| == 1 then events == [] && w'.names == Reported(w.s)
       else w'.names == [] && exists t ::
         t in w.names + Reported(w.s) && EndsWithout(events, w.s.blocked, t) && LeftBy(w.s.blocked, w'.s.blocked, t)
  }

  /** The names that fight in a round, in some order. */
  ghost predicate Lineup(w: World, order: seq<Trainer>)
    requires SnapshotOf(w.s).Valid()
  {
    multiset(order) == multiset(w.names + Reported(w.s))
  }

  /** With this order and these outcomes the search for the last loser never ends. */
  ghost predicate Hangs(w: World, order: seq<Trainer>, loses: seq<bool>)
    requires SnapshotOf(w.s).Valid()
  {
    && |w.s.blocked| > 1 && Reported(w.s) != [] && Lineup(w, order)
    && |order| > 1 && |loses| >= |order| - 1 && LastLoser(order, loses) !in w.s.blocked
  }

  lemma QuietRound(w: World)
    requires Good(w.s) && SnapshotOf(w.s).Valid()
    ensures |w.s.blocked| <= 1 || Reported(w.s) == [] ==> RoundTo(w, [], w)
    ensures |w.s.blocked| > 1 && |w.names + Reported(w.s)| == 1 ==> RoundTo(w, [], World(w.s, w.names + Reported(w.s)))
  {
    hide Good, Reported;
    RunOfNone(w.s);
    assert w.names == [] ==> w.names + Reported(w.s) == Reported(w.s);
    assert Reported(w.s) == [] ==> w.names + Reported(w.s) == w.names;
  }

  lemma DeadlyRound(w: World, events: seq<Event>, s: State, t: Trainer)
    requires Good(w.s) && SnapshotOf(w.s).Valid() && |w.s.blocked| > 1 && |w.names + Reported(w.s)| > 1 && Reported(w.s) != []
    requires Run(w.s, events, s) && t in w.names + Reported(w.s)
    requires EndsWithout(events, w.s.blocked, t) && LeftBy(w.s.blocked, s.blocked, t)
    ensures RoundTo(w, events, World(s, []))
  {
  }

  lemma BlockedAreThere(m: Mapa, s: State)
    requires m.Valid() && s == m.Model() && SnapshotOf(s).Valid() && Few(s)
    ensures forall t :: t in Reported(s) ==> t in m.eBlocked && t in m.Everyone() && t.pokemons != []
    ensures |Reported(s)| <= |m.eBlocked|
  {
    hide Good, Few, Snapshot.WrittenMarks;
    ReportedFight(s);
    BlockedRecords(m);
  }

  /**
   A round of the detector, whatever names are left on the deadlock list as long as those trainers are
   still connected. Exactly the reported ones are named. It is stuck if and only if there are two names
   or more and the loser of the last battle is not blocked; until then trainers have only sorted what
   they hold.
   */
  method CheckDeadlock(m: Mapa, loses: seq<bool>) returns (stuck: bool, ghost order: seq<Trainer>, ghost trace: seq<Event>)
    requires m.Valid() && |m.eBlocked| <= MAX && m.nests.Length < MAX && Few(m.Model())
    requires Fighters(m, m.eDeadlock) && |loses| >= |m.eBlocked| + |m.eDeadlock|
    modifies m`eDeadlock, m`eBlocked, m.nests, (m.eBlocked + m.eDeadlock)`pokemons, (m.eBlocked + m.eDeadlock)`sent
    ensures m.Valid() && Run(old(m.Model()), trace, m.Model()) && SnapshotOf(old(m.Model())).Valid()
    ensures !m.batalla ==> !stuck && m.Model() == old(m.Model()) && m.eDeadlock == old(m.eDeadlock)
    ensures m.batalla && !stuck ==> RoundTo(World(old(m.Model()), old(m.eDeadlock)), trace, World(m.Model(), m.eDeadlock))
    ensures m.batalla && |old(m.eBlocked)| > 1 && Reported(old(m.Model())) != [] ==>
      && Lineup(World(old(m.Model()), old(m.eDeadlock)), order)
      && Descending(order, (t: Trainer) => t.time) && |loses| >= |order| - 1
    ensures stuck <==> m.batalla && Hangs(World(old(m.Model()), old(m.eDeadlock)), order, loses)
    ensures stuck ==> OnlySorts(trace) && m.eBlocked == old(m.eBlocked) && m.eDeadlock == []
  {
    hide Good, Few, Run, Unfinished, LastLoser, Snapshot.WrittenMarks, FinalTally, Descending, LeftBy, RoundTo;
    hide OnlySorts, EndsWithout, Mapa.Model, Mapa.Valid;
    ghost var w, arena := World(m.Model(), m.eDeadlock), m.eBlocked + m.eDeadlock;
    ValidIsGood(m);
    m.Fields();
    FewIsValid(w.s);
    stuck, order, trace := false, [], [];
    RunOfNone(w.s);
    QuietRound(w);
    if |m.eBlocked| > 1 {
      BlockedAreThere(m, w.s);
      var finish := Detect(m);
      var flag := Report(m, finish, arena);
      assert w.names + [] == w.names;
      if flag && m.batalla {
        var rounds;
        stuck, order, rounds, trace := Tournament(m, loses, arena);
        SortedSame(order, w.names + Reported(w.s));
        m.Fields();
        if |order| > 1 && !stuck {
          DeadlyRound(w, trace, m.Model(), LastLoser(order, loses));
        }
      }
    }
  }

  // How few is few enough.

  /** An entry of the matrices is the true count if and only if that is below 128. */
  lemma EntriesAreExactWhen(s: State, i: nat, j: nat)
    requires i < |s.blocked| && j < |s.nests|
    ensures var n := |OfKind(Holdings(s, s.blocked[i]), s.nests[j].id)|; SnapshotOf(s).held[i][j] == n <==> n < 128
    ensures SnapshotOf(s).available[j] == |s.nests[j].pokemons| <==> |s.nests[j].pokemons| < 128
  {
    Wrap8More(|OfKind(Holdings(s, s.blocked[i]), s.nests[j].id)|);
    Wrap8More(|s.nests[j].pokemons|);
  }

  lemma {:induction false} QueueIsPart(nests: seq<Nest>, i: nat, p: Pokemon)
    requires i < |nests|
    ensures multiset(nests[i].pokemons)[p] <= Queued(nests)[p]
  {
    var n := |nests| - 1;
    if i < n {
      QueueIsPart(nests[..n], i, p);
    }
  }

  lemma {:induction false} HoldingIsPart(list: seq<Trainer>, m: map<Trainer, Record>, t: Trainer, p: Pokemon)
    requires t in list
    ensures Own(m, t, p) <= HeldBy(list, m, p)
  {
    hide Own;
    var n := |list| - 1;
    if list[n] != t {
      assert list == list[..n] + [list[n]];
      HoldingIsPart(list[..n], m, t, p);
    }
  }

  lemma PartIsSmaller(a: multiset<Pokemon>, b: multiset<Pokemon>)
    requires forall p :: a[p] <= b[p]
    ensures |a| <= |b|
  {
    assert a + (b - a) == b;
  }

  /** A map that starts with fewer than 128 Pokémon in all never has too many for the detector, whatever happens. */
  lemma FewForEver(nests: seq<Nest>, events: seq<Event>, s: State)
    requires Named(nests) && Pure(nests) && |Queued(nests)| < 128
    requires Good(Empty(nests)) && Run(Empty(nests), events, s)
    ensures Few(s)
  {
    hide Good, Run, Queued, HeldBy;
    EveryRunKeeps(Empty(nests), events, s);
    forall p
      ensures Count(s, p) == Queued(nests)[p]
    {
      HeldByNobody(map[], p);
    }
    forall t | t in s.blocked
      ensures |Holdings(s, t)| < 128
    {
      forall p
        ensures multiset(Holdings(s, t))[p] <= Queued(nests)[p]
      {
        HoldingIsPart(s.blocked, s.trainers, t, p);
      }
      PartIsSmaller(multiset(Holdings(s, t)), Queued(nests));
    }
    forall i | 0 <= i < |s.nests|
      ensures |s.nests[i].pokemons| < 128
    {
      forall p
        ensures multiset(s.nests[i].pokemons)[p] <= Queued(nests)[p]
      {
        QueueIsPart(s.nests, i, p);
      }
      PartIsSmaller(multiset(s.nests[i].pokemons), Queued(nests));
    }
  }
}

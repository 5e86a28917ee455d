/** batallaPokemon: the reported trainers fight in turn until one is left, and that one dies. */
module Battle {
  import opened Nests
  import opened Arena
  import opened ArenaInvariant
  import opened MapServer

  ghost predicate Descending<T>(list: seq<T>, key: T -> int) {
    forall i, j :: 0 <= i < j < |list| ==> key(list[i]) >= key(list[j])
  }

  lemma Inserted<T>(list: seq<T>, key: T -> int, k: nat, x: T)
    requires Descending(list, key) && k <= |list|
    requires forall j :: 0 <= j < k ==> key(list[j]) >= key(x)
    requires k < |list| ==> key(list[k]) <= key(x)
    ensures Descending(list[..k] + [x] + list[k..], key)
  {
    var longer := list[..k] + [x] + list[k..];
    forall i, j | 0 <= i < j < |longer|
      ensures key(longer[i]) >= key(longer[j])
    {
      var j' := if j <= k then j else j - 1;
      assert i > k ==> longer[i] == list[i - 1];
      assert i < k ==> longer[i] == list[i];
      assert j > k ==> longer[j] == list[j'] && key(list[k]) >= key(list[j']);
      assert j < k ==> longer[j] == list[j'];
    }
  }

  lemma InsertedIsAdded<T>(list: seq<T>, k: nat, x: T)
    requires k <= |list|
    ensures multiset(list[..k] + [x] + list[k..]) == multiset(list) + multiset{x}
  {
    assert list == list[..k] + list[k..];
  }

  lemma TakenNext<T>(list: seq<T>, i: nat)
    requires i < |list|
    ensures multiset(list[..i + 1]) == multiset(list[..i]) + multiset{list[i]}
  {
    assert list[..i + 1] == list[..i] + [list[i]];
  }

  /** list_sort with a comparator that puts the greater key first. */
  method SortDown<T(==)>(list: seq<T>, key: T -> int) returns (r: seq<T>)
    ensures multiset(r) == multiset(list) && Descending(r, key)
  {
    hide Descending;
    r := [];
    EmptyDescends(key);
    for i := 0 to |list|
      invariant multiset(r) == multiset(list[..i]) && Descending(r, key)
    {
      var k := 0;
      while k < |r| && key(r[k]) >= key(list[i])
        invariant k <= |r| && forall j :: 0 <= j < k ==> key(r[j]) >= key(list[i])
      {
        k := k + 1;
      }
      TakenNext(list, i);
      Inserted(r, key, k, list[i]);
      InsertedIsAdded(r, k, list[i]);
      r := r[..k] + [list[i]] + r[k..];
    }
    assert list[..|list|] == list;
  }

  lemma EmptyDescends<T>(key: T -> int)
    ensures Descending([], key)
  {
  }

  /** Who is left: the loser of each battle meets the next in order. */
  ghost function LastLoser(order: seq<Trainer>, secondLoses: seq<bool>): (t: Trainer)
    requires order != [] && |secondLoses| >= |order| - 1
    ensures t in order
    decreases |order|
  {
    if |order| == 1 then order[0] else
      var loser := if secondLoses[0] then order[1] else order[0];
      LastLoser([loser] + order[2..], secondLoses[1..])
  }

  /** The trainer's strongest Pokémon, after its list is sorted by level. */
  method Champion(m: Mapa, t: Trainer) returns (p: Pokemon)
    requires m.Valid() && t in m.Everyone() && t.pokemons != []
    modifies t`pokemons
    ensures m.Valid() && Enabled(old(m.Model()), Sort(t, t.pokemons)) && m.Model() == Step(old(m.Model()), Sort(t, t.pokemons))
    ensures multiset(t.pokemons) == old(multiset(t.pokemons)) && p in t.pokemons && forall q :: q in t.pokemons ==> q.level <= p.level
  {
    hide Placed, Kinds, Counted, Descending, Good, Step, Enabled;
    ghost var s := m.Model();
    ThereIsConnected(m, t);
    var list := SortDown(t.pokemons, (q: Pokemon) => q.level);
    SortCases(s, t, list);
    StepKeeps(s, Sort(t, list));
    SameLength(list, t.pokemons);
    t.pokemons := list;
    FirstIsGreatest(list);
    m.Agree(Step(s, Sort(t, list)));
    return t.pokemons[0];
  }

  lemma ThereIsConnected(m: Mapa, t: Trainer)
    requires m.Valid() && t in m.Everyone()
    ensures Good(m.Model()) && t in m.Model().trainers && m.Model().trainers[t] == t.Value()
  {
  }

  lemma SortCases(s: State, t: Trainer, list: seq<Pokemon>)
    requires Good(s) && t in s.trainers && multiset(list) == multiset(s.trainers[t].pokemons)
    ensures Enabled(s, Sort(t, list))
    ensures Step(s, Sort(t, list)) == s.(trainers := s.trainers[t := s.trainers[t].(pokemons := list)])
  {
    hide Good;
  }

  lemma SameLength(a: seq<Pokemon>, b: seq<Pokemon>)
    requires multiset(a) == multiset(b)
    ensures |a| == |b|
  {
    assert |multiset(a)| == |multiset(b)|;
  }

  lemma FirstIsGreatest(list: seq<Pokemon>)
    requires list != [] && Descending(list, (q: Pokemon) => q.level)
    ensures forall q :: q in list ==> q.level <= list[0].level
  {
    var key := (q: Pokemon) => q.level;
    forall q | q in list
      ensures q.level <= list[0].level
    {
      var i :| 0 <= i < |list| && list[i] == q;
      assert i == 0 || key(list[0]) >= key(list[i]);
    }
  }

  /** Everybody on the list is connected and holds something to fight with. */
  ghost predicate Fighters(m: Mapa, list: seq<Trainer>)
    reads m, list
  {
    forall t :: t in list ==> t in m.Everyone() && t.pokemons != []
  }

  ghost predicate Distinct(list: seq<Trainer>) {
    forall t :: t in list ==> Times(list, t) == 1
  }

  lemma StrongestStays(a: seq<Pokemon>, b: seq<Pokemon>, p: Pokemon)
    requires multiset(a) == multiset(b) && p in a && forall q :: q in a ==> q.level <= p.level
    ensures b != [] && p in b && forall q :: q in b ==> q.level <= p.level
  {
    assert p in multiset(b);
    forall q | q in b
      ensures q.level <= p.level
    {
      assert q in multiset(a);
    }
  }

  /** The strongest of each of two trainers, or of one and the same. */
  method Champions(m: Mapa, eA: Trainer, eB: Trainer) returns (pkA: Pokemon, pkB: Pokemon, ghost trace: seq<Event>)
    requires m.Valid() && eA in m.Everyone() && eB in m.Everyone() && eA.pokemons != [] && eB.pokemons != []
    modifies eA`pokemons, eB`pokemons
    ensures m.Valid() && Run(old(m.Model()), trace, m.Model())
    ensures OnlySorts(trace)
    ensures eA.pokemons != [] && eB.pokemons != []
    ensures pkA in eA.pokemons && pkB in eB.pokemons
    ensures (forall q :: q in eA.pokemons ==> q.level <= pkA.level) && (forall q :: q in eB.pokemons ==> q.level <= pkB.level)
  {
    hide Placed, Kinds, Counted, Run, Step, Enabled, Good;
    ghost var s := m.Model();
    pkA := Champion(m, eA);
    ghost var s1, first, listA := m.Model(), Sort(eA, eA.pokemons), eA.pokemons;
    RunOfOne(s, first);
    EmptyHasNone(listA);
    pkB := Champion(m, eB);
    StrongestStays(listA, eA.pokemons, pkA);
    RunMore(s, [first], s1, Sort(eB, eB.pokemons));
    trace := [first] + [Sort(eB, eB.pokemons)];
  }

  lemma EmptyHasNone(list: seq<Pokemon>)
    ensures forall p :: p in list ==> list != []
  {
  }

  /** One battle between the first two: the loser goes back to the front, the winner is told. */
  method Fight(m: Mapa, secondLoses: bool) returns (ghost trace: seq<Event>)
    requires m.Valid() && |m.eDeadlock| > 1 && Fighters(m, m.eDeadlock)
    modifies m`eDeadlock, {m.eDeadlock[0], m.eDeadlock[1]}`pokemons, {m.eDeadlock[0], m.eDeadlock[1]}`sent
    ensures m.Valid() && Run(old(m.Model()), trace, m.Model())
    ensures OnlySorts(trace)
    ensures var (a, b) := (old(m.eDeadlock)[0], old(m.eDeadlock)[1]);
      var (winner, loser) := if secondLoses then (a, b) else (b, a);
      && m.eDeadlock == [loser] + old(m.eDeadlock)[2..]
      && winner.sent == old(winner.sent) + "R" && (loser != winner ==> loser.sent == old(loser.sent))
      && a.pokemons != [] && b.pokemons != []
  {
    hide Placed, Kinds, Counted, Run, Step, Enabled, Good, Mapa.Model, Mapa.Everyone, Mapa.Valid;
    var eA, eB := m.eDeadlock[0], m.eDeadlock[1];
    var pkA, pkB;
    pkA, pkB, trace := Champions(m, eA, eB);
    ghost var after := m.Model();
    m.Fields();
    var eWinner, eLoser := eB, eA;
    if secondLoses {
      eWinner, eLoser := eA, eB;
    }
    m.eDeadlock := [eLoser] + m.eDeadlock[2..];
    m.Agree(after);
    m.Tell(eWinner, "R");
  }

  /** The list after a battle of the first two: the winner stands there once less. */
  lemma ListAfter(d: seq<Trainer>, secondLoses: bool)
    requires |d| > 1
    ensures var (winner, loser) := if secondLoses then (d[0], d[1]) else (d[1], d[0]);
      var rest := [loser] + d[2..];
      && winner in d && (forall t :: t in rest ==> t in d)
      && (forall t :: Times(d, t) == Times(rest, t) + if t == winner then 1 else 0)
  {
    var (winner, loser) := if secondLoses then (d[0], d[1]) else (d[1], d[0]);
    var rest := [loser] + d[2..];
    assert d == [d[0], d[1]] + d[2..];
    assert multiset(d) == multiset{winner} + multiset(rest);
    assert d[0] in d && d[1] in d;
  }

  /** The last one is told, taken off the blocked list and sent away. */
  method Kill(m: Mapa) returns (ghost k: nat)
    requires m.Valid() && |m.eDeadlock| == 1 && m.eDeadlock[0] in m.eBlocked
    modifies m`eDeadlock, m`eBlocked, m.nests, {m.eDeadlock[0]}`pokemons, {m.eDeadlock[0]}`sent
    ensures m.Valid() && m.eDeadlock == []
    ensures k < |old(m.eBlocked)| && old(m.eBlocked)[k] == old(m.eDeadlock)[0] && m.eBlocked == Without(old(m.eBlocked), k)
    ensures Enabled(old(m.Model()), BlockedLeaves(k)) && m.Model() == Step(old(m.Model()), BlockedLeaves(k))
    ensures old(m.eDeadlock)[0].sent == old(m.eDeadlock[0].sent) + "K"
  {
    hide Placed, Kinds, Counted, Step, Good, Mapa.Model, Mapa.Everyone, Mapa.Valid;
    var eLoser := m.eDeadlock[0];
    ghost var s := m.Model();
    m.Fields();
    m.eDeadlock := [];
    m.Agree(s);
    var i := 0;
    ghost var at :| 0 <= at < |m.eBlocked| && m.eBlocked[at] == eLoser;
    while eLoser != m.eBlocked[i]
      invariant 0 <= i <= at
      decreases at - i
    {
      i := i + 1;
    }
    m.Tell(eLoser, "K");
    StepDrops(m.Model(), i);
    m.DropBlocked(i);
    k := i;
  }

  lemma SortedSame(a: seq<Trainer>, b: seq<Trainer>)
    requires multiset(a) == multiset(b)
    ensures |a| == |b| && (|a| <= 1 ==> a == b)
    ensures forall t :: (t in a <==> t in b) && Times(a, t) == Times(b, t)
  {
    assert |multiset(a)| == |multiset(b)|;
    forall t
      ensures t in a <==> t in b
    {
      assert t in multiset(a) <==> t in multiset(b);
    }
    if |a| == 1 {
      assert a[0] in b;
    }
  }

  /** What holds between two battles. */
  ghost predicate Fought(m: Mapa, order: seq<Trainer>, loses: seq<bool>, rounds: nat)
    reads m, order
  {
    && rounds + |m.eDeadlock| == |order| && |m.eDeadlock| > 0 && |loses| + 1 >= |order|
    && Fighters(m, order)
    && (forall t :: t in m.eDeadlock ==> t in order)
    && LastLoser(m.eDeadlock, loses[rounds..]) == LastLoser(order, loses)
  }

  ghost function Rs(n: nat): string {
    if n == 0 then "" else Rs(n - 1) + "R"
  }

  /** What a trainer has heard after n battles won, and perhaps the last one lost. */
  ghost function Heard(before: string, n: nat, killed: bool): string {
    before + Rs(n) + if killed then "K" else ""
  }

  /** What one turn adds. */
  ghost function Told(before: string, won: bool, killed: bool): string {
    if won then if killed then before + "R" + "K" else before + "R" else if killed then before + "K" else before
  }

  lemma HeardMore(before: string, n: nat, won: bool, killed: bool)
    ensures Told(Heard(before, n, false), won, killed) == Heard(before, if won then n + 1 else n, killed)
    ensures Heard(before, 0, killed) == if killed then before + "K" else before
    ensures Heard(before, 1, false) == before + "R"
  {
    assert before + Rs(n) + "" == before + Rs(n);
    assert (before + Rs(n)) + "R" == before + (Rs(n) + "R");
    assert before + (Rs(n) + "R") + "" == before + (Rs(n) + "R");
    assert Rs(0) == "" && Rs(1) == "R" && before + "" == before;
  }

  lemma ValidIsGood(m: Mapa)
    requires m.Valid()
    ensures Good(m.Model())
  {
  }

  /** Trainer t has left the list; the others are as they were. */
  ghost predicate LeftBy(list: seq<Trainer>, less: seq<Trainer>, t: Trainer) {
    exists k :: 0 <= k < |list| && list[k] == t && less == Without(list, k)
  }

  /** All that happens is that trainers sort what they hold. */
  ghost predicate OnlySorts(events: seq<Event>) {
    forall e :: e in events ==> e.Sort?
  }

  /** Trainers sort what they hold, and then one blocked trainer, t, leaves. */
  ghost predicate EndsWithout(events: seq<Event>, blocked: seq<Trainer>, t: Trainer) {
    var n := |events| - 1;
    n >= 0 && OnlySorts(events[..n]) && events[n].BlockedLeaves? && events[n].k < |blocked| && blocked[events[n].k] == t
  }

  /** What a turn or a whole tournament is: sorting, and in the end, unless stuck, the death of the last loser. */
  ghost predicate Deadly(events: seq<Event>, stuck: bool, blocked: seq<Trainer>, t: Trainer) {
    if stuck then OnlySorts(events) else EndsWithout(events, blocked, t)
  }

  lemma SortsBefore(a: seq<Event>, b: seq<Event>, stuck: bool, blocked: seq<Trainer>, t: Trainer)
    requires OnlySorts(a)
    ensures OnlySorts(b) ==> OnlySorts(a + b)
    ensures Deadly(b, stuck, blocked, t) ==> Deadly(a + b, stuck, blocked, t)
  {
    if EndsWithout(b, blocked, t) {
      assert (a + b)[..|a + b| - 1] == a + b[..|b| - 1];
    }
  }

  lemma ThenLeaves(events: seq<Event>, blocked: seq<Trainer>, k: nat)
    requires OnlySorts(events) && k < |blocked|
    ensures EndsWithout(events + [BlockedLeaves(k)], blocked, blocked[k])
  {
    assert (events + [BlockedLeaves(k)])[..|events|] == events;
  }

  /**
   One turn of the loop: a battle, and if it leaves one name alone, that one dies. If it is not on the
   blocked list, the search for it there never ends: `stuck`.
   */
  method Turn(m: Mapa, ghost order: seq<Trainer>, loses: seq<bool>, rounds: nat, ghost arena: seq<Trainer>)
    returns (stuck: bool, ghost winner: Trainer, ghost trace: seq<Event>)
    requires m.Valid() && Fought(m, order, loses, rounds) && |m.eDeadlock| > 1
    requires forall t :: t in order ==> t in arena
    modifies m`eDeadlock, m`eBlocked, m.nests, arena`pokemons, arena`sent
    ensures m.Valid() && Run(old(m.Model()), trace, m.Model())
    ensures var last := LastLoser(order, loses);
      if |old(m.eDeadlock)| > 2 then
        && !stuck && Fought(m, order, loses, rounds + 1) && m.eBlocked == old(m.eBlocked)
        && |m.eDeadlock| == |old(m.eDeadlock)| - 1 && OnlySorts(trace)
      else
        && m.eDeadlock == [] && (stuck <==> last !in old(m.eBlocked)) && Deadly(trace, stuck, old(m.eBlocked), last)
        && if stuck then m.eBlocked == old(m.eBlocked) else LeftBy(old(m.eBlocked), m.eBlocked, last)
    ensures forall t :: t in m.eDeadlock ==> t in old(m.eDeadlock)
    ensures forall t :: t in order ==>
      Times(old(m.eDeadlock), t) == (if t == winner then 1 else 0) +
        if |old(m.eDeadlock)| > 2 then Times(m.eDeadlock, t) else if t == LastLoser(order, loses) then 1 else 0
    ensures forall t :: t in order ==>
      t.sent == Told(old(t.sent), t == winner, |old(m.eDeadlock)| == 2 && !stuck && t == LastLoser(order, loses))
  {
    hide Placed, Kinds, Counted, Step, Good, Run, Enabled, LastLoser, Times, Mapa.Model, Mapa.Everyone, Mapa.Valid;
    ghost var d, s := m.eDeadlock, m.Model();
    ValidIsGood(m);
    ListAfter(d, loses[rounds]);
    NextLoser(d, loses, rounds);
    assert d[0] in arena && d[1] in arena;
    winner := if loses[rounds] then d[0] else d[1];
    stuck := false;
    trace := Fight(m, loses[rounds]);
    ValidIsGood(m);
    if |m.eDeadlock| == 1 {
      LoserAlone(m.eDeadlock, loses[rounds + 1..]);
      TimesAlone(m.eDeadlock[0]);
      assert m.eDeadlock == [m.eDeadlock[0]];
      if m.eDeadlock[0] in m.eBlocked {
        ghost var last := m.Model();
        assert m.eDeadlock[0] in arena;
        ghost var k := Kill(m);
        RunMore(s, trace, last, BlockedLeaves(k));
        ThenLeaves(trace, old(m.eBlocked), k);
        trace := trace + [BlockedLeaves(k)];
      } else {
        stuck := true;
        m.eDeadlock := [];
      }
    }
  }

  lemma TimesAlone(x: Trainer)
    ensures forall t :: Times([x], t) == if t == x then 1 else 0
  {
  }

  /** Everybody has heard of the battles it has won so far: once for each place it no longer has on the list. */
  ghost predicate Tally(order: seq<Trainer>, d: seq<Trainer>, was: map<Trainer, string>)
    reads order
  {
    forall t :: t in order ==>
      && t in was && Times(order, t) >= Times(d, t)
      && t.sent == Heard(was[t], Times(order, t) - Times(d, t), false)
  }

  /** The same at the end, when the last one has died or is sought for ever. */
  ghost predicate FinalTally(order: seq<Trainer>, last: Trainer, killed: bool, was: map<Trainer, string>)
    reads order
  {
    forall t :: t in order ==>
      && t in was && Times(order, t) >= Times([last], t)
      && t.sent == Heard(was[t], Times(order, t) - Times([last], t), killed && t == last)
  }

  /**
   How it ends: the last loser is dead, off the blocked list and has given everything back, or it is not
   blocked and sought for ever; everybody has heard of the battles it has won.
   */
  ghost predicate Ended(order: seq<Trainer>, last: Trainer, events: seq<Event>, stuck: bool,
    blocked: seq<Trainer>, blocked': seq<Trainer>, was: map<Trainer, string>)
    reads order
  {
    && (stuck <==> last !in blocked) && Deadly(events, stuck, blocked, last) && FinalTally(order, last, !stuck, was)
    && if stuck then blocked' == blocked else LeftBy(blocked, blocked', last)
  }

  lemma SortedBefore(order: seq<Trainer>, last: Trainer, a: seq<Event>, b: seq<Event>, stuck: bool,
    blocked: seq<Trainer>, blocked': seq<Trainer>, was: map<Trainer, string>)
    requires OnlySorts(a)
    ensures OnlySorts(b) ==> OnlySorts(a + b)
    ensures Ended(order, last, b, stuck, blocked, blocked', was) ==> Ended(order, last, a + b, stuck, blocked, blocked', was)
  {
    hide OnlySorts, FinalTally, LeftBy, Deadly;
    SortsBefore(a, b, stuck, blocked, last);
  }

  /** A turn of the loop, with what everybody has heard. */
  method Round(m: Mapa, ghost order: seq<Trainer>, loses: seq<bool>, rounds: nat, ghost arena: seq<Trainer>, ghost was: map<Trainer, string>)
    returns (stuck: bool, ghost trace: seq<Event>)
    requires m.Valid() && Fought(m, order, loses, rounds) && |m.eDeadlock| > 1 && Tally(order, m.eDeadlock, was)
    requires forall t :: t in order ==> t in arena
    modifies m`eDeadlock, m`eBlocked, m.nests, arena`pokemons, arena`sent
    ensures m.Valid() && Run(old(m.Model()), trace, m.Model())
    ensures var last := LastLoser(order, loses);
      if |old(m.eDeadlock)| > 2 then
        && !stuck && Fought(m, order, loses, rounds + 1) && m.eBlocked == old(m.eBlocked)
        && |m.eDeadlock| == |old(m.eDeadlock)| - 1 && OnlySorts(trace) && Tally(order, m.eDeadlock, was)
      else
        m.eDeadlock == [] && Ended(order, last, trace, stuck, old(m.eBlocked), m.eBlocked, was)
  {
    hide Run, Fighters, LastLoser, Times, Heard, Told, LeftBy, Deadly, OnlySorts, Mapa.Model, Mapa.Everyone, Mapa.Valid;
    ghost var d, last := m.eDeadlock, LastLoser(order, loses);
    ghost var winner;
    stuck, winner, trace := Turn(m, order, loses, rounds, arena);
    TimesAlone(last);
    forall t | t in order
      ensures Times(order, t) >= Times(d, t)
      ensures t.sent == Heard(was[t], Times(order, t) - Times(d, t) + (if t == winner then 1 else 0), |d| == 2 && !stuck && t == last)
    {
      HeardMore(was[t], Times(order, t) - Times(d, t), t == winner, |d| == 2 && !stuck && t == last);
    }
  }

  /** The loop over the sorted list. */
  method Battles(m: Mapa, ghost order: seq<Trainer>, loses: seq<bool>, ghost arena: seq<Trainer>, ghost was: map<Trainer, string>)
    returns (stuck: bool, rounds: nat, ghost trace: seq<Event>)
    requires m.Valid() && order == m.eDeadlock && Fighters(m, order) && |loses| + 1 >= |order| && Tally(order, order, was)
    requires forall t :: t in order ==> t in arena
    modifies m`eDeadlock, m`eBlocked, m.nests, arena`pokemons, arena`sent
    ensures m.Valid() && Run(old(m.Model()), trace, m.Model())
    ensures |order| <= 1 ==> !stuck && rounds == 0 && trace == [] && m.eDeadlock == order && m.Model() == old(m.Model())
    ensures |order| > 1 ==>
      && rounds == |order| - 1 && m.eDeadlock == []
      && Ended(order, LastLoser(order, loses), trace, stuck, old(m.eBlocked), m.eBlocked, was)
  {
    assert OnlySorts([]);
    hide Placed, Kinds, Counted, Step, Good, Run, Enabled, Times, Tally, Fighters;
    hide LastLoser, Heard, Told, OnlySorts, Ended, Mapa.Model, Mapa.Everyone, Mapa.Valid;
    ghost var s, list := m.Model(), m.eBlocked;
    ValidIsGood(m);
    stuck, rounds, trace := false, 0, [];
    RunOfNone(s);
    FoughtStarts(m, loses);
    while |m.eDeadlock| > 1
      invariant m.Valid() && Run(s, trace, m.Model())
      invariant |order| <= 1 ==> !stuck && rounds == 0 && trace == [] && m.eDeadlock == order && m.Model() == s
      invariant |m.eDeadlock| > 1 ==>
        m.eBlocked == list && !stuck && OnlySorts(trace) && Fought(m, order, loses, rounds) && Tally(order, m.eDeadlock, was)
      invariant |order| > 1 ==> |m.eDeadlock| != 1
      invariant |order| > 1 && m.eDeadlock == [] ==>
        rounds == |order| - 1 && Ended(order, LastLoser(order, loses), trace, stuck, list, m.eBlocked, was)
      decreases |m.eDeadlock|
    {
      ghost var now := m.Model();
      ValidIsGood(m);
      ghost var more;
      stuck, more := Round(m, order, loses, rounds, arena, was);
      ValidIsGood(m);
      RunOn(s, trace, now, more, m.Model());
      SortedBefore(order, LastLoser(order, loses), trace, more, stuck, list, m.eBlocked, was);
      trace := trace + more;
      rounds := rounds + 1;
    }
  }

  /**
   The deadlock list as it stands, whoever is on it, each connected and holding something. With n > 1
   names there are exactly n - 1 battles however they end, and each battle won is told with one "R". The
   loser of the last is killed, taken off the blocked list and gives everything back, and nobody is left
   on the deadlock list; if it is not blocked the detector is stuck. With n < 2 nothing happens.
   */
  method Tournament(m: Mapa, loses: seq<bool>, ghost arena: seq<Trainer>)
    returns (stuck: bool, ghost order: seq<Trainer>, rounds: nat, ghost trace: seq<Event>)
    requires m.Valid() && Fighters(m, m.eDeadlock) && |loses| + 1 >= |m.eDeadlock|
    requires forall t :: t in m.eDeadlock ==> t in arena
    modifies m`eDeadlock, m`eBlocked, m.nests, arena`pokemons, arena`sent
    ensures m.Valid() && Run(old(m.Model()), trace, m.Model())
    ensures |order| == |old(m.eDeadlock)| && multiset(order) == multiset(old(m.eDeadlock)) && Descending(order, (t: Trainer) => t.time)
    ensures |order| <= 1 ==> !stuck && rounds == 0 && trace == [] && m.eDeadlock == old(m.eDeadlock) && m.Model() == old(m.Model())
    ensures |order| > 1 ==>
      var last := LastLoser(order, loses);
      && rounds == |order| - 1 && m.eDeadlock == []
      && Ended(order, last, trace, stuck, old(m.eBlocked), m.eBlocked, map t | t in old(m.eDeadlock) :: old(t.sent))
  {
    hide Run, Times, Tally, LastLoser, Descending, OnlySorts, Ended, Mapa.Model, Mapa.Everyone, Mapa.Valid;
    ghost var was := map t | t in m.eDeadlock :: t.sent;
    SortReported(m);
    order := m.eDeadlock;
    TallyStarts(order, was);
    stuck, rounds, trace := Battles(m, order, loses, arena, was);
  }

  lemma FoughtStarts(m: Mapa, loses: seq<bool>)
    requires Fighters(m, m.eDeadlock) && |loses| + 1 >= |m.eDeadlock|
    ensures m.eDeadlock != [] ==> Fought(m, m.eDeadlock, loses, 0)
  {
    assert loses[0..] == loses;
  }

  lemma TallyStarts(order: seq<Trainer>, was: map<Trainer, string>)
    requires forall t :: t in order ==> t in was && was[t] == t.sent
    ensures Tally(order, order, was)
  {
    hide Times;
    forall t | t in order
      ensures t.sent == Heard(was[t], 0, false)
    {
      HeardMore(t.sent, 0, false, false);
    }
  }

  /** Names that are all different: the killed one hears "K", everybody else one "R". */
  lemma HeardOnce(order: seq<Trainer>, last: Trainer, was: map<Trainer, string>)
    requires Distinct(order) && last in order && FinalTally(order, last, true, was)
    ensures forall t :: t in order ==> t in was && t.sent == was[t] + if t == last then "K" else "R"
  {
    hide Heard;
    forall t | t in order
      ensures t in was && t.sent == was[t] + if t == last then "K" else "R"
    {
      HeardMore(was[t], 0, false, t == last);
      TimesAlone(last);
    }
  }

  /** The reported trainers, last come first. */
  method SortReported(m: Mapa)
    requires m.Valid() && Fighters(m, m.eDeadlock)
    modifies m`eDeadlock
    ensures m.Valid() && m.Model() == old(m.Model())
    ensures |m.eDeadlock| == |old(m.eDeadlock)| && multiset(m.eDeadlock) == multiset(old(m.eDeadlock))
    ensures Descending(m.eDeadlock, (t: Trainer) => t.time)
    ensures |m.eDeadlock| <= 1 ==> m.eDeadlock == old(m.eDeadlock)
    ensures Fighters(m, m.eDeadlock)
    ensures forall t :: Times(m.eDeadlock, t) == Times(old(m.eDeadlock), t) && (t in m.eDeadlock <==> t in old(m.eDeadlock))
  {
    hide Placed, Kinds, Counted, Good, Descending;
    ghost var s := m.Model();
    var sorted := SortDown(m.eDeadlock, (t: Trainer) => t.time);
    m.Agree(s);
    SortedSame(sorted, m.eDeadlock);
    m.eDeadlock := sorted;
  }

  lemma NextLoser(d: seq<Trainer>, loses: seq<bool>, rounds: nat)
    requires |d| > 1 && rounds + |d| - 1 <= |loses|
    ensures LastLoser([if loses[rounds] then d[1] else d[0]] + d[2..], loses[rounds + 1..]) == LastLoser(d, loses[rounds..])
  {
    assert loses[rounds..][1..] == loses[rounds + 1..];
  }

  lemma LoserAlone(d: seq<Trainer>, loses: seq<bool>)
    requires |d| == 1
    ensures LastLoser(d, loses) == d[0]
  {
  }

  /** Whoever is on the list can be the one that loses last. */
  lemma {:induction false} AnyoneCanLose(order: seq<Trainer>, k: nat) returns (loses: seq<bool>)
    requires k < |order|
    ensures |loses| == |order| - 1 && LastLoser(order, loses) == order[k]
    decreases |order|
  {
    if |order| == 1 {
      loses := [];
    } else {
      var secondLoses := k == 1;
      var rest := [if secondLoses then order[1] else order[0]] + order[2..];
      var later := AnyoneCanLose(rest, if k <= 1 then 0 else k - 1);
      loses := [secondLoses] + later;
      assert loses[1..] == later;
    }
  }
}

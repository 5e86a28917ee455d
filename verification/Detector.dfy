/** The deadlock thread: the matrices, the report and the battle that picks one victim. */
module Detector {
  import opened Nests
  import opened Arena
  import opened ArenaInvariant
  import opened Deadlock
  import opened MapServer

  // The matrices.

  /** What a signed char keeps of a count. */
  function Wrap8(n: int): int {
    (n + 128) % 256 - 128
  }

  lemma Wrap8More(n: int)
    ensures Wrap8(Wrap8(n) + 1) == Wrap8(n + 1)
    ensures Wrap8(n) == n <==> -128 <= n < 128
  {
  }

  ghost function Holdings(s: State, t: Trainer): seq<Pokemon> {
    if t in s.trainers then s.trainers[t].pokemons else []
  }

  ghost function Goal(s: State, t: Trainer): char {
    if t in s.trainers then s.trainers[t].obj else NONE
  }

  /** What llenarEstructuras writes: who asks for which nest, who holds how many of which, how many queue. */
  ghost function SnapshotOf(s: State): (r: Snapshot)
    ensures |r.asked| == |r.held| == |s.blocked| && |r.available| == |s.nests|
  {
    Snapshot(
      seq(|s.blocked|, i requires 0 <= i < |s.blocked| =>
        seq(|s.nests|, j requires 0 <= j < |s.nests| => if s.nests[j].id == Goal(s, s.blocked[i]) then 1 else 0)),
      seq(|s.blocked|, i requires 0 <= i < |s.blocked| =>
        seq(|s.nests|, j requires 0 <= j < |s.nests| => Wrap8(|OfKind(Holdings(s, s.blocked[i]), s.nests[j].id)|))),
      seq(|s.nests|, j requires 0 <= j < |s.nests| => Wrap8(|s.nests[j].pokemons|)))
  }

  /** No count is beyond a signed char. */
  ghost predicate Few(s: State) {
    && (forall t :: t in s.blocked ==> |Holdings(s, t)| < 128)
    && (forall i :: 0 <= i < |s.nests| ==> |s.nests[i].pokemons| < 128)
  }

  lemma {:induction false} OfKindIsPart(list: seq<Pokemon>, id: char)
    ensures |OfKind(list, id)| <= |list|
    ensures (exists p :: p in list && p.id == id) <==> OfKind(list, id) != []
  {
    if list != [] {
      OfKindIsPart(list[1..], id);
      assert list == [list[0]] + list[1..];
    }
  }

  lemma {:induction false} OfKindAdded(list: seq<Pokemon>, p: Pokemon, id: char)
    ensures OfKind(list + [p], id) == OfKind(list, id) + if p.id == id then [p] else []
  {
    if list != [] {
      OfKindAdded(list[1..], p, id);
      assert (list + [p])[1..] == list[1..] + [p];
    }
  }

  /** With few Pokémon the matrices are exact, and a trainer is a holder exactly when it holds something. */
  lemma FewIsExact(s: State)
    requires Good(s) && Few(s)
    ensures SnapshotOf(s).Valid()
    ensures forall i, j :: 0 <= i < |s.blocked| && 0 <= j < |s.nests| ==>
      SnapshotOf(s).held[i][j] == |OfKind(Holdings(s, s.blocked[i]), s.nests[j].id)|
    ensures forall i :: 0 <= i < |s.blocked| ==> (SnapshotOf(s).Holder(i) <==> Holdings(s, s.blocked[i]) != [])
  {
    hide Placed, Counted;
    var r := SnapshotOf(s);
    forall i, j | 0 <= i < |s.blocked| && 0 <= j < |s.nests|
      ensures r.held[i][j] == |OfKind(Holdings(s, s.blocked[i]), s.nests[j].id)|
    {
      OfKindIsPart(Holdings(s, s.blocked[i]), s.nests[j].id);
    }
    forall i | 0 <= i < |s.blocked|
      ensures r.Holder(i) <==> Holdings(s, s.blocked[i]) != []
    {
      HolderHolds(s, r, i);
    }
  }

  lemma HolderHolds(s: State, r: Snapshot, i: nat)
    requires Kinds(s) && r.Valid() && |r.asked| == |s.blocked| && |r.available| == |s.nests| && i < |s.blocked|
    requires forall j :: 0 <= j < |s.nests| ==> r.held[i][j] == |OfKind(Holdings(s, s.blocked[i]), s.nests[j].id)|
    ensures r.Holder(i) <==> Holdings(s, s.blocked[i]) != []
  {
    var list := Holdings(s, s.blocked[i]);
    if list != [] {
      assert HasNest(s.nests, list[0].id);
      var j := NestOf(s.nests, list[0].id);
      OfKindIsPart(list, s.nests[j].id);
      assert r.held[i][j] != 0;
    }
    if list == [] {
      assert forall j :: 0 <= j < |s.nests| ==> r.held[i][j] == 0;
    }
  }

  /** Rows and columns of the matrices. */
  const MAX := 100

  /** The search for a Pokémon's nest. */
  method FindNest(nests: array<Nest>, id: char) returns (k: nat)
    requires HasNest(nests[..], id)
    ensures k == NestOf(nests[..], id)
  {
    k := 0;
    while nests[k].id != id
      invariant k <= NestOf(nests[..], id)
      decreases NestOf(nests[..], id) - k
    {
      k := k + 1;
    }
  }

  /** One row of matAsignados: the holdings counted nest by nest. */
  method CountHoldings(nests: array<Nest>, list: seq<Pokemon>, asignados: array2<int>, i: nat)
    requires nests.Length < MAX && asignados.Length0 == asignados.Length1 == MAX && i < MAX
    requires Named(nests[..]) && Homed(nests[..], list)
    requires forall k :: 0 <= k < nests.Length ==> asignados[i, k] == 0
    modifies asignados
    ensures forall k :: 0 <= k < nests.Length ==> asignados[i, k] == Wrap8(|OfKind(list, nests[k].id)|)
    ensures forall h, k :: 0 <= h < MAX && 0 <= k < MAX && h != i ==> asignados[h, k] == old(asignados[h, k])
  {
    hide Homed, HasNest, NestOf, OfKind;
    NoneOfKind(nests[..]);
    for j := 0 to |list|
      invariant forall k :: 0 <= k < nests.Length ==> asignados[i, k] == Wrap8(|OfKind(list[..j], nests[k].id)|)
      invariant forall h, k :: 0 <= h < MAX && 0 <= k < MAX && h != i ==> asignados[h, k] == old(asignados[h, k])
    {
      IsHomed(nests[..], list, j);
      var at := FindNest(nests, list[j].id);
      forall k | 0 <= k < nests.Length
        ensures |OfKind(list[..j + 1], nests[k].id)| == |OfKind(list[..j], nests[k].id)| + if k == at then 1 else 0
      {
        assert list[..j + 1] == list[..j] + [list[j]];
        OfKindAdded(list[..j], list[j], nests[k].id);
        OnlyOne(nests[..], at, k);
      }
      Wrap8More(|OfKind(list[..j], nests[at].id)|);
      asignados[i, at] := Wrap8(asignados[i, at] + 1);
    }
    assert list[..|list|] == list;
  }

  method CountQueues(nests: array<Nest>, disponibles: array<int>)
    requires nests.Length < MAX == disponibles.Length
    modifies disponibles
    ensures forall k :: 0 <= k < nests.Length ==> disponibles[k] == Wrap8(|nests[k].pokemons|)
  {
    for k := 0 to nests.Length
      invariant forall h :: 0 <= h < k ==> disponibles[h] == Wrap8(|nests[h].pokemons|)
    {
      disponibles[k] := Wrap8(|nests[k].pokemons|);
    }
  }

  lemma NoneOfKind(nests: seq<Nest>)
    ensures forall k :: 0 <= k < |nests| ==> OfKind([], nests[k].id) == []
  {
  }

  lemma IsHomed(nests: seq<Nest>, list: seq<Pokemon>, j: nat)
    requires Homed(nests, list) && j < |list|
    ensures HasNest(nests, list[j].id)
  {
  }

  lemma OnlyOne(nests: seq<Nest>, i: nat, j: nat)
    requires Named(nests) && i < |nests| && j < |nests|
    ensures nests[i].id == nests[j].id <==> i == j
  {
  }

  lemma BlockedFacts(s: State, i: nat)
    requires Good(s) && i < |s.blocked|
    ensures Homed(s.nests, Holdings(s, s.blocked[i])) && HasNest(s.nests, Goal(s, s.blocked[i]))
    ensures s.blocked[i] in s.trainers && Named(s.nests)
  {
    IsPlaced(s, s.blocked[i]);
  }

  /** The rows of trainer i are filled. */
  ghost predicate RowsFilled(s: State, i: nat, pedidos: array2<int>, asignados: array2<int>)
    requires i < |s.blocked| <= MAX && |s.nests| < MAX
    requires pedidos.Length0 == pedidos.Length1 == MAX && asignados.Length0 == asignados.Length1 == MAX
    reads pedidos, asignados
  {
    forall k :: 0 <= k < |s.nests| ==>
      && pedidos[i, k] == SnapshotOf(s).asked[i][k]
      && asignados[i, k] == SnapshotOf(s).held[i][k]
  }

  method FillRows(ghost s: State, nests: array<Nest>, t: Trainer, i: nat, pedidos: array2<int>, asignados: array2<int>)
    requires Good(s) && i < |s.blocked| <= MAX && nests.Length < MAX && pedidos != asignados
    requires nests[..] == s.nests && t == s.blocked[i] && t.obj == Goal(s, t) && t.pokemons == Holdings(s, t)
    requires pedidos.Length0 == pedidos.Length1 == MAX && asignados.Length0 == asignados.Length1 == MAX
    requires forall k :: 0 <= k < MAX ==> pedidos[i, k] == 0 && asignados[i, k] == 0
    modifies pedidos, asignados
    ensures RowsFilled(s, i, pedidos, asignados)
    ensures forall h: nat :: h < |s.blocked| && h != i && old(RowsFilled(s, h, pedidos, asignados)) ==> RowsFilled(s, h, pedidos, asignados)
    ensures forall h, k :: 0 <= h < MAX && 0 <= k < MAX && h != i ==>
      pedidos[h, k] == old(pedidos[h, k]) && asignados[h, k] == old(asignados[h, k])
  {
    hide Good, Homed, HasNest, OfKind, NestOf, Named, Wrap8;
    BlockedFacts(s, i);
    var pos := GetPokeNestFromID(nests, t.obj);
    pedidos[i, pos] := 1;
    forall k | 0 <= k < nests.Length
      ensures s.nests[k].id == Goal(s, t) <==> k == pos
    {
      OnlyOne(s.nests, pos, k);
    }
    CountHoldings(nests, t.pokemons, asignados, i);
  }

  /** inicializarEstructuras and llenarEstructuras. */
  method FillStructures(ghost s: State, m: Mapa) returns (r: Snapshot)
    requires Good(s) && m.eBlocked == s.blocked && m.nests[..] == s.nests && 0 < |s.blocked| <= MAX && |s.nests| < MAX
    requires forall t :: t in s.blocked ==> t.obj == Goal(s, t) && t.pokemons == Holdings(s, t)
    ensures r == SnapshotOf(s)
  {
    hide Good, Wrap8;
    var eMax, pMax := |m.eBlocked|, m.nests.Length;
    var pedidos := new int[MAX, MAX]((i, j) => 0);
    var asignados := new int[MAX, MAX]((i, j) => 0);
    var disponibles := new int[MAX](j => 0);
    FillAll(s, m, pedidos, asignados, disponibles);
    r := Snapshot(
      seq(eMax, i requires 0 <= i < eMax reads pedidos => seq(pMax, j requires 0 <= j < pMax reads pedidos => pedidos[i, j])),
      seq(eMax, i requires 0 <= i < eMax reads asignados => seq(pMax, j requires 0 <= j < pMax reads asignados => asignados[i, j])),
      seq(pMax, j requires 0 <= j < pMax reads disponibles => disponibles[j]));
    forall i | 0 <= i < eMax
      ensures r.asked[i] == SnapshotOf(s).asked[i] && r.held[i] == SnapshotOf(s).held[i]
    {
      assert RowsFilled(s, i, pedidos, asignados);
    }
    assert r.asked == SnapshotOf(s).asked && r.held == SnapshotOf(s).held;
    assert r.available == SnapshotOf(s).available;
  }

  method FillAll(ghost s: State, m: Mapa, pedidos: array2<int>, asignados: array2<int>, disponibles: array<int>)
    requires Good(s) && m.eBlocked == s.blocked && m.nests[..] == s.nests && 0 < |s.blocked| <= MAX && |s.nests| < MAX
    requires forall t :: t in s.blocked ==> t.obj == Goal(s, t) && t.pokemons == Holdings(s, t)
    requires pedidos != asignados && disponibles.Length == MAX && m.nests as object != disponibles
    requires pedidos.Length0 == pedidos.Length1 == MAX && asignados.Length0 == asignados.Length1 == MAX
    requires forall h, k :: 0 <= h < MAX && 0 <= k < MAX ==> pedidos[h, k] == 0 && asignados[h, k] == 0
    modifies pedidos, asignados, disponibles
    ensures forall h :: 0 <= h < |s.blocked| ==> RowsFilled(s, h, pedidos, asignados)
    ensures forall k :: 0 <= k < |s.nests| ==> disponibles[k] == Wrap8(|s.nests[k].pokemons|)
  {
    hide Good, RowsFilled, SnapshotOf, Wrap8;
    for i := 0 to |m.eBlocked|
      invariant m.nests[..] == s.nests
      invariant forall t :: t in s.blocked ==> t.obj == Goal(s, t) && t.pokemons == Holdings(s, t)
      invariant forall h, k :: i <= h < MAX && 0 <= k < MAX ==> pedidos[h, k] == 0 && asignados[h, k] == 0
      invariant forall h :: 0 <= h < i ==> RowsFilled(s, h, pedidos, asignados)
      invariant i > 0 ==> forall k :: 0 <= k < |s.nests| ==> disponibles[k] == Wrap8(|s.nests[k].pokemons|)
    {
      FillRows(s, m.nests, m.eBlocked[i], i, pedidos, asignados);
      CountQueues(m.nests, disponibles);
    }
  }
}

/** The PokeNests of a map and the Pokémon that queue in them. */
module Nests {
  import opened Words

  /** entrenador->obj when the trainer asks for nothing. */
  const NONE := '\0'

  datatype Pokemon = Pokemon(id: char, ord: nat, level: nat)

  datatype Nest = Nest(id: char, posx: u32, posy: u32, pokemons: seq<Pokemon>)

  /** Each nest has an identifier of its own. */
  ghost predicate Named(nests: seq<Nest>) {
    && (forall i :: 0 <= i < |nests| ==> nests[i].id != NONE)
    && (forall i, j :: 0 <= i < j < |nests| ==> nests[i].id != nests[j].id)
  }

  /** Each nest holds Pokémon of its own kind only. */
  ghost predicate Pure(nests: seq<Nest>) {
    forall i, p :: 0 <= i < |nests| && p in nests[i].pokemons ==> p.id == nests[i].id
  }

  ghost predicate HasNest(nests: seq<Nest>, id: char) {
    exists i :: 0 <= i < |nests| && nests[i].id == id
  }

  /** Every Pokémon of the list has a nest to go back to. */
  ghost predicate Homed(nests: seq<Nest>, list: seq<Pokemon>) {
    forall p :: p in list ==> HasNest(nests, p.id)
  }

  /** Nests never move or change their identifier. */
  ghost predicate SameSites(a: seq<Nest>, b: seq<Nest>) {
    |a| == |b| && forall i :: 0 <= i < |a| ==> a[i].id == b[i].id && a[i].posx == b[i].posx && a[i].posy == b[i].posy
  }

  /** Where the nest stands in the array. */
  ghost function NestOf(nests: seq<Nest>, id: char): (i: nat)
    requires HasNest(nests, id)
    ensures i < |nests| && nests[i].id == id
    ensures forall j :: 0 <= j < i ==> nests[j].id != id
  {
    if nests[0].id == id then 0 else
      assert HasNest(nests[1..], id) by {
        var i :| 0 <= i < |nests| && nests[i].id == id;
        assert nests[1..][i - 1].id == id;
      }
      var r := NestOf(nests[1..], id);
      assert forall j :: 1 <= j < r + 1 ==> nests[j] == nests[1..][j - 1];
      r + 1
  }

  ghost function WithQueue(nests: seq<Nest>, i: nat, queue: seq<Pokemon>): (r: seq<Nest>)
    requires i < |nests|
    ensures SameSites(nests, r)
  {
    nests[i := nests[i].(pokemons := queue)]
  }

  /** All Pokémon that queue in some nest. */
  ghost function Queued(nests: seq<Nest>): multiset<Pokemon> {
    if nests == [] then multiset{} else Queued(nests[..|nests| - 1]) + multiset(nests[|nests| - 1].pokemons)
  }

  lemma Cancel(a: multiset<Pokemon>, b: multiset<Pokemon>, c: multiset<Pokemon>)
    requires a + c == b + c
    ensures a == b
  {
    assert forall p :: (a + c)[p] == a[p] + c[p] && (b + c)[p] == b[p] + c[p];
  }

  lemma QueuedLast(nests: seq<Nest>)
    requires nests != []
    ensures Queued(nests) == Queued(nests[..|nests| - 1]) + multiset(nests[|nests| - 1].pokemons)
  {
  }

  /** Queues added behind leave an exchange of Pokémon what it is. */
  lemma MoreBehind(a: multiset<Pokemon>, b: multiset<Pokemon>, x: multiset<Pokemon>, y: multiset<Pokemon>, last: multiset<Pokemon>)
    requires a + x == b + y
    ensures (a + last) + x == (b + last) + y
  {
    assert (a + last) + x == (a + x) + last;
    assert (b + last) + y == (b + y) + last;
  }

  lemma {:induction false} QueuedUpdate(nests: seq<Nest>, i: nat, queue: seq<Pokemon>)
    requires i < |nests|
    ensures Queued(WithQueue(nests, i, queue)) + multiset(nests[i].pokemons) == Queued(nests) + multiset(queue)
  {
    var n := |nests| - 1;
    var after := WithQueue(nests, i, queue);
    QueuedLast(nests);
    QueuedLast(after);
    hide Queued;
    var a, b, last := Queued(after[..n]), Queued(nests[..n]), multiset(nests[n].pokemons);
    if i == n {
      assert after[..n] == nests[..n];
      assert (b + multiset(queue)) + last == (b + last) + multiset(queue);
    } else {
      QueuedUpdate(nests[..n], i, queue);
      assert after[..n] == WithQueue(nests[..n], i, queue);
      MoreBehind(a, b, multiset(nests[i].pokemons), multiset(queue), last);
    }
  }

  lemma NamedElsewhere(a: seq<Nest>, b: seq<Nest>, id: char)
    requires SameSites(a, b)
    ensures Named(a) <==> Named(b)
    ensures HasNest(a, id) <==> HasNest(b, id)
    ensures HasNest(a, id) ==> NestOf(a, id) == NestOf(b, id)
  {
    if HasNest(a, id) {
      var i :| 0 <= i < |a| && a[i].id == id;
      assert b[i].id == id;
    }
    if HasNest(b, id) {
      var i :| 0 <= i < |b| && b[i].id == id;
      assert a[i].id == id;
    }
  }

  lemma HomedElsewhere(a: seq<Nest>, b: seq<Nest>, list: seq<Pokemon>)
    requires SameSites(a, b) && Homed(a, list)
    ensures Homed(b, list)
  {
    forall p | p in list
      ensures HasNest(b, p.id)
    {
      NamedElsewhere(a, b, p.id);
    }
  }

  /** A Pokémon goes to the end of the queue of its nest. */
  ghost function Return(nests: seq<Nest>, p: Pokemon): (r: seq<Nest>)
    requires HasNest(nests, p.id)
    ensures SameSites(nests, r)
  {
    var i := NestOf(nests, p.id);
    WithQueue(nests, i, nests[i].pokemons + [p])
  }

  /** A list of Pokémon goes back, one after the other. */
  ghost function ReturnAll(nests: seq<Nest>, list: seq<Pokemon>): (r: seq<Nest>)
    requires Homed(nests, list)
    ensures SameSites(nests, r)
    decreases |list|
  {
    if list == [] then nests else
      HomedElsewhere(nests, Return(nests, list[0]), list[1..]);
      ReturnAll(Return(nests, list[0]), list[1..])
  }

  /** Those of the list that belong to a nest, in order. */
  ghost function OfKind(list: seq<Pokemon>, id: char): seq<Pokemon> {
    if list == [] then [] else (if list[0].id == id then [list[0]] else []) + OfKind(list[1..], id)
  }

  lemma ReturnConserves(nests: seq<Nest>, p: Pokemon)
    requires HasNest(nests, p.id)
    ensures Queued(Return(nests, p)) == Queued(nests) + multiset{p}
    ensures Pure(nests) ==> Pure(Return(nests, p))
  {
    var at := NestOf(nests, p.id);
    var q := nests[at].pokemons;
    QueuedUpdate(nests, at, q + [p]);
    assert Queued(nests) + multiset(q + [p]) == (Queued(nests) + multiset{p}) + multiset(q);
    Cancel(Queued(Return(nests, p)), Queued(nests) + multiset{p}, multiset(q));
  }

  /** Nothing is lost on the way back. */
  lemma {:induction false} ReturnAllConserves(nests: seq<Nest>, list: seq<Pokemon>)
    requires Homed(nests, list)
    ensures Queued(ReturnAll(nests, list)) == Queued(nests) + multiset(list)
    ensures Pure(nests) ==> Pure(ReturnAll(nests, list))
    decreases |list|
  {
    if list == [] {
    } else {
      var p, next := list[0], Return(nests, list[0]);
      HomedElsewhere(nests, next, list[1..]);
      ReturnConserves(nests, p);
      ReturnAllConserves(next, list[1..]);
      assert list == [p] + list[1..];
      assert (Queued(nests) + multiset{p}) + multiset(list[1..]) == Queued(nests) + (multiset{p} + multiset(list[1..]));
    }
  }

  lemma ReturnAt(nests: seq<Nest>, p: Pokemon, i: nat)
    requires Named(nests) && HasNest(nests, p.id) && i < |nests|
    ensures Return(nests, p)[i].pokemons == nests[i].pokemons + OfKind([p], nests[i].id)
  {
    if p.id == nests[i].id {
      assert NestOf(nests, p.id) == i;
    }
  }

  /** Each nest gets exactly its own ones back, behind those that waited there, in the order of the list. */
  lemma {:induction false} ReturnAllIsExact(nests: seq<Nest>, list: seq<Pokemon>, i: nat)
    requires Named(nests) && Homed(nests, list) && i < |nests|
    ensures ReturnAll(nests, list)[i].pokemons == nests[i].pokemons + OfKind(list, nests[i].id)
    decreases |list|
  {
    hide Named, HasNest, Return;
    if list == [] {
    } else {
      var p, next := list[0], Return(nests, list[0]);
      HomedElsewhere(nests, next, list[1..]);
      NamedElsewhere(nests, next, p.id);
      ReturnAt(nests, p, i);
      ReturnAllIsExact(next, list[1..], i);
      var q, one, rest := nests[i].pokemons, OfKind([p], nests[i].id), OfKind(list[1..], nests[i].id);
      assert OfKind(list, nests[i].id) == one + rest;
      assert (q + one) + rest == q + (one + rest);
    }
  }

  /** The front of a queue leaves: what a nest hands out. */
  lemma HandOut(nests: seq<Nest>, i: nat)
    requires i < |nests| && nests[i].pokemons != []
    ensures var q := nests[i].pokemons;
      && Queued(WithQueue(nests, i, q[1..])) + multiset{q[0]} == Queued(nests)
      && (Pure(nests) ==> q[0].id == nests[i].id && Pure(WithQueue(nests, i, q[1..])))
  {
    var q := nests[i].pokemons;
    QueuedUpdate(nests, i, q[1..]);
    assert q == [q[0]] + q[1..];
    var after, rest := Queued(WithQueue(nests, i, q[1..])), multiset(q[1..]);
    assert after + multiset(q) == (after + multiset{q[0]}) + rest;
    Cancel(after + multiset{q[0]}, Queued(nests), rest);
  }

  /** getPokeNestFromID: the only nest of that identifier, or -1. */
  method GetPokeNestFromID(nests: array<Nest>, id: char) returns (r: int)
    ensures if HasNest(nests[..], id) then r == NestOf(nests[..], id) else r == -1
  {
    r := 0;
    while r < nests.Length
      invariant 0 <= r <= nests.Length
      invariant forall j :: 0 <= j < r ==> nests[j].id != id
    {
      if nests[r].id == id {
        assert nests[..][r].id == id;
        return;
      }
      r := r + 1;
    }
    r := -1;
  }
}

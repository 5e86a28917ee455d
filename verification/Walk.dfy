/**
 A trainer on its way to a nest, seen from both ends: the trainer's program sends one letter a step, the
 map moves its own copy and measures how far it still is.
 */
module Walk {
  import opened Words
  import opened Nests
  import opened Arena

  function Abs(d: int): nat {
    if d < 0 then -d else d
  }

  // What the map measures.

  /** What an int keeps of a number, in two's complement. */
  function AsInt(n: int): (i: int)
    ensures -0x8000_0000 <= i < 0x8000_0000
  {
    (n + 0x8000_0000) % 0x1_0000_0000 - 0x8000_0000
  }

  /** abs of an unsigned difference, in an int: the least int stays what it is. */
  function Gap(a: u32, b: u32): int {
    var d := AsInt((a - b) % 0x1_0000_0000);
    AsInt(if d < 0 then -d else d)
  }

  lemma AsIntExact(n: int)
    ensures AsInt(n) == n <==> -0x8000_0000 <= n < 0x8000_0000
    ensures AsInt(n % 0x1_0000_0000) == AsInt(n)
  {
    assert (n % 0x1_0000_0000 + 0x8000_0000) % 0x1_0000_0000 == (n + 0x8000_0000) % 0x1_0000_0000;
  }

  /** It is the true distance if and only if that is below 2^31. */
  lemma GapIsExact(a: u32, b: u32)
    ensures Gap(a, b) == Abs(a - b) <==> Abs(a - b) < 0x8000_0000
  {
    AsIntExact(a - b);
  }

  /** What distanciaObjetivo tells: -1 for a trainer without a goal, else an int sum. */
  ghost function DistanceTo(nests: seq<Nest>, r: Record): (d: int)
    ensures -0x8000_0000 <= d < 0x8000_0000
  {
    if r.obj == NONE || !HasNest(nests, r.obj) then -1 else
      var nest := nests[NestOf(nests, r.obj)];
      AsInt(Gap(nest.posx, r.posx) + Gap(nest.posy, r.posy))
  }

  /** How far the goal really is; -1 without one. */
  ghost function WayTo(nests: seq<Nest>, r: Record): (d: int)
    ensures d >= -1
  {
    if r.obj == NONE || !HasNest(nests, r.obj) then -1 else
      var nest := nests[NestOf(nests, r.obj)];
      Abs(nest.posx - r.posx) + Abs(nest.posy - r.posy)
  }

  /** The int is the true distance if and only if that is below 2^31; then nothing on the way to it overflows. */
  lemma DistanceIsExact(nests: seq<Nest>, r: Record)
    ensures DistanceTo(nests, r) == WayTo(nests, r) <==> WayTo(nests, r) < 0x8000_0000
    ensures r.obj != NONE && HasNest(nests, r.obj) && WayTo(nests, r) < 0x8000_0000 ==>
      var nest := nests[NestOf(nests, r.obj)];
      && Gap(nest.posx, r.posx) == Abs(nest.posx - r.posx) && Gap(nest.posy, r.posy) == Abs(nest.posy - r.posy)
  {
    if r.obj != NONE && HasNest(nests, r.obj) {
      hide Gap, NestOf, HasNest;
      var nest := nests[NestOf(nests, r.obj)];
      GapIsExact(nest.posx, r.posx);
      GapIsExact(nest.posy, r.posy);
      AsIntExact(Gap(nest.posx, r.posx) + Gap(nest.posy, r.posy));
    }
  }

  /** The farthest corner of the positive ints is, to the map, nearer than no goal at all. */
  lemma FarLooksNear(id: char)
    requires id != NONE
    ensures var nests, r := [Nest(id, 0x7FFF_FFFF, 0x7FFF_FFFF, [])], Record(id, 1, 1, []);
      WayTo(nests, r) == 0xFFFF_FFFC && DistanceTo(nests, r) == -4
  {
    var nests, r := [Nest(id, 0x7FFF_FFFF, 0x7FFF_FFFF, [])], Record(id, 1, 1, []);
    assert nests[0].id == id;
    assert NestOf(nests, id) == 0;
  }

  method Distance(nests: array<Nest>, t: Trainer) returns (d: int)
    requires t.obj == NONE || HasNest(nests[..], t.obj)
    ensures d == DistanceTo(nests[..], t.Value())
  {
    if nests.Length > 0 && t.obj != NONE {
      ghost var at := NestOf(nests[..], t.obj);
      var i := 0;
      while nests[i].id != t.obj
        invariant 0 <= i <= at
        decreases at - i
      {
        i := i + 1;
      }
      return AsInt(Gap(nests[i].posx, t.posx) + Gap(nests[i].posy, t.posy));
    }
    return -1;
  }

  /** The leftmost of the least, if that is below the 999 the search starts with; the first otherwise. */
  ghost predicate Nearest(distances: seq<int>, idx: nat) {
    && idx < |distances|
    && if exists j :: 0 <= j < |distances| && distances[j] < 999 then
         && (forall j :: 0 <= j < |distances| ==> distances[idx] <= distances[j])
         && (forall j :: 0 <= j < idx ==> distances[idx] < distances[j])
       else idx == 0
  }

  /** Where the search stands after the first i. */
  ghost predicate NearestSoFar(distances: seq<int>, i: nat, idx: nat, least: int) {
    && i <= |distances|
    && if least < 999 then
         && idx < i && least == distances[idx]
         && (forall j :: 0 <= j < i ==> least <= distances[j])
         && (forall j :: 0 <= j < idx ==> least < distances[j])
       else idx == 0 && least == 999 && forall j :: 0 <= j < i ==> distances[j] >= 999
  }

  lemma NearestStarts(distances: seq<int>)
    ensures NearestSoFar(distances, 0, 0, 999)
  {
  }

  lemma NearestGoesOn(distances: seq<int>, i: nat, idx: nat, least: int)
    requires NearestSoFar(distances, i, idx, least)
    ensures i < |distances| ==> var d := distances[i];
      NearestSoFar(distances, i + 1, if d < least then i else idx, if d < least then d else least)
    ensures i == |distances| > 0 ==> Nearest(distances, idx) && idx < |distances|
  {
  }

  /** When all are within reach, the one taken is the nearest of all. */
  lemma NearestOfAll(distances: seq<int>, idx: nat)
    requires Nearest(distances, idx) && forall j :: 0 <= j < |distances| ==> distances[j] < 999
    ensures forall j :: 0 <= j < |distances| ==> distances[idx] <= distances[j]
  {
    assert distances[idx] < 999;
  }

  // The way the trainer goes.

  /** Where one letter leads, on the trainer's own coordinates. */
  function Went(x: int, y: int, axis: char): (int, int) {
    match axis
    case 'R' => (x + 1, y)
    case 'L' => (x - 1, y)
    case 'D' => (x, y + 1)
    case 'U' => (x, y - 1)
    case _ => (x, y)
  }

  ghost function WentAll(x: int, y: int, moves: string): (int, int) {
    if moves == [] then (x, y) else var (a, b) := WentAll(x, y, moves[..|moves| - 1]); Went(a, b, moves[|moves| - 1])
  }

  function XStep(x: int, objx: int): string {
    if x == objx then "" else if x < objx then "R" else "L"
  }

  function YStep(y: int, objy: int): string {
    if y == objy then "" else if y < objy then "D" else "U"
  }

  function Toward(x: int, objx: int): (r: int)
    ensures Abs(objx - r) == if x == objx then 0 else Abs(objx - x) - 1
  {
    if x == objx then x else if x < objx then x + 1 else x - 1
  }

  /** All letters sent on the way, in turns of one step along x and one along y. */
  ghost function Path(x: int, y: int, objx: int, objy: int): string
    decreases Abs(objx - x) + Abs(objy - y)
  {
    if x == objx && y == objy then "" else
      XStep(x, objx) + YStep(y, objy) + Path(Toward(x, objx), Toward(y, objy), objx, objy)
  }

  ghost function Far(p: (int, int), objx: int, objy: int): nat {
    Abs(objx - p.0) + Abs(objy - p.1)
  }

  lemma {:induction false} PathLength(x: int, y: int, objx: int, objy: int)
    ensures |Path(x, y, objx, objy)| == Abs(objx - x) + Abs(objy - y)
    decreases Abs(objx - x) + Abs(objy - y)
  {
    if x == objx && y == objy {
    } else {
      PathLength(Toward(x, objx), Toward(y, objy), objx, objy);
    }
  }

  lemma {:induction false} WentOn(x: int, y: int, a: string, b: string)
    ensures WentAll(x, y, a + b) == WentAll(WentAll(x, y, a).0, WentAll(x, y, a).1, b)
  {
    if b == [] {
      assert a + b == a;
    } else {
      WentOn(x, y, a, b[..|b| - 1]);
      assert (a + b)[..|a + b| - 1] == a + b[..|b| - 1];
    }
  }

  lemma {:induction false} PathArrives(x: int, y: int, objx: int, objy: int)
    ensures WentAll(x, y, Path(x, y, objx, objy)) == (objx, objy)
    decreases Abs(objx - x) + Abs(objy - y)
  {
    if x == objx && y == objy {
    } else {
      TurnGoes(x, y, objx, objy);
      PathArrives(Toward(x, objx), Toward(y, objy), objx, objy);
      WentOn(x, y, XStep(x, objx) + YStep(y, objy), Path(Toward(x, objx), Toward(y, objy), objx, objy));
    }
  }

  lemma TurnGoes(x: int, y: int, objx: int, objy: int)
    ensures WentAll(x, y, XStep(x, objx)) == (Toward(x, objx), y)
    ensures WentAll(x, y, XStep(x, objx) + YStep(y, objy)) == (Toward(x, objx), Toward(y, objy))
  {
    var a, b := XStep(x, objx), YStep(y, objy);
    assert a != "" ==> a[..0] == "";
    assert WentAll(x, y, a) == (Toward(x, objx), y);
    WentOn(x, y, a, b);
    assert b != "" ==> b[..0] == "";
  }

  /** No letter leads further than one step, towards any place. */
  lemma {:induction false} WentAtMost(x: int, y: int, moves: string, ox: int, oy: int)
    ensures Far(WentAll(x, y, moves), ox, oy) <= Far((x, y), ox, oy) + |moves|
    ensures Far((x, y), ox, oy) <= Far(WentAll(x, y, moves), ox, oy) + |moves|
  {
    if moves == [] {
    } else {
      WentAtMost(x, y, moves[..|moves| - 1], ox, oy);
    }
  }

  ghost predicate Between(a: int, x: int, objx: int) {
    x <= a <= objx || objx <= a <= x
  }

  /** After k letters exactly as many are left as the trainer is far, and it never strays. */
  lemma PathShortens(x: int, y: int, objx: int, objy: int, k: nat)
    requires k <= |Path(x, y, objx, objy)|
    ensures var p := WentAll(x, y, Path(x, y, objx, objy)[..k]);
      && Far(p, objx, objy) == |Path(x, y, objx, objy)| - k
      && Between(p.0, x, objx) && Between(p.1, y, objy)
  {
    hide WentAll, Path;
    var path := Path(x, y, objx, objy);
    var p := WentAll(x, y, path[..k]);
    PathLength(x, y, objx, objy);
    PathArrives(x, y, objx, objy);
    assert path[..k] + path[k..] == path;
    WentOn(x, y, path[..k], path[k..]);
    WentAtMost(p.0, p.1, path[k..], objx, objy);
    WentAtMost(x, y, path[..k], objx, objy);
    WentAtMost(x, y, path[..k], x, y);
  }

  // The map follows.

  /** The map's record after it has obeyed the letters. */
  ghost function Obeyed(r: Record, moves: string): Record {
    if moves == [] then r else Moved(Obeyed(r, moves[..|moves| - 1]), moves[|moves| - 1])
  }

  /** One letter on both sides, away from the ends of the 32-bit range. */
  lemma MovedAsWent(r: Record, axis: char)
    requires var (a, b) := Went(r.posx, r.posy, axis); 0 <= a < 0x8000_0000 && 0 <= b < 0x8000_0000
    ensures (Moved(r, axis).posx, Moved(r, axis).posy) == Went(r.posx, r.posy, axis)
  {
  }

  /** After every acknowledged letter the map has the trainer where the trainer thinks it is. */
  lemma {:induction false} MapFollows(r: Record, objx: u32, objy: u32, k: nat)
    requires r.posx < 0x8000_0000 && r.posy < 0x8000_0000 && objx < 0x8000_0000 && objy < 0x8000_0000
    requires k <= |Path(r.posx, r.posy, objx, objy)|
    ensures var moves := Path(r.posx, r.posy, objx, objy)[..k];
      var now := Obeyed(r, moves);
      && (now.posx, now.posy) == WentAll(r.posx, r.posy, moves)
      && now.obj == r.obj && now.pokemons == r.pokemons
  {
    hide Path, Moved, Far;
    var path := Path(r.posx, r.posy, objx, objy);
    if k > 0 {
      MapFollows(r, objx, objy, k - 1);
      assert path[..k][..k - 1] == path[..k - 1];
      PathShortens(r.posx, r.posy, objx, objy, k);
      MovedAsWent(Obeyed(r, path[..k - 1]), path[k - 1]);
    }
  }

  /**
   The distance the map measures is the number of letters still to come before the 'G', if and only if
   there are fewer than 2^31 of them.
   */
  lemma DistanceIsWayLeft(nests: seq<Nest>, r: Record, k: nat)
    requires r.obj != NONE && HasNest(nests, r.obj)
    requires r.posx < 0x8000_0000 && r.posy < 0x8000_0000
    requires var nest := nests[NestOf(nests, r.obj)]; nest.posx < 0x8000_0000 && nest.posy < 0x8000_0000
    requires var nest := nests[NestOf(nests, r.obj)]; k <= |Path(r.posx, r.posy, nest.posx, nest.posy)|
    ensures var nest := nests[NestOf(nests, r.obj)];
      var path := Path(r.posx, r.posy, nest.posx, nest.posy);
      && Obeyed(r, path[..k]).obj == r.obj
      && (DistanceTo(nests, Obeyed(r, path[..k])) == |path| - k <==> |path| - k < 0x8000_0000)
  {
    hide Path, WentAll, Obeyed, NestOf, HasNest, DistanceTo;
    var nest := nests[NestOf(nests, r.obj)];
    var path := Path(r.posx, r.posy, nest.posx, nest.posy);
    MapFollows(r, nest.posx, nest.posy, k);
    PathShortens(r.posx, r.posy, nest.posx, nest.posy, k);
    DistanceIsExact(nests, Obeyed(r, path[..k]));
  }

  lemma StepLetters(x: int, objx: int)
    ensures XStep(x, objx) == if x == objx then "" else if x < objx then "R" else "L"
    ensures YStep(x, objx) == if x == objx then "" else if x < objx then "D" else "U"
  {
  }

  /** What was sent before a turn, the turn's letters and the rest of the way. */
  lemma TurnJoins(sent: string, x: int, y: int, objx: int, objy: int)
    ensures x != objx || y != objy ==>
      (sent + XStep(x, objx) + YStep(y, objy)) + Path(Toward(x, objx), Toward(y, objy), objx, objy) == sent + Path(x, y, objx, objy)
    ensures x == objx && y == objy ==> sent + Path(x, y, objx, objy) == sent
  {
    var letters, rest := XStep(x, objx) + YStep(y, objy), Path(Toward(x, objx), Toward(y, objy), objx, objy);
    assert (sent + XStep(x, objx) + YStep(y, objy)) + rest == sent + (letters + rest);
  }

  /** The trainer's program. */
  class Player {
    var x: int
    var y: int
    var objx: int
    var objy: int
    /** The letters it has sent after 'M'. */
    var sent: string

    constructor ()
      ensures x == 1 && y == 1 && sent == ""
    {
      x, y, objx, objy, sent := 1, 1, 0, 0, "";
    }

    /** obtenerCoordenadas, once the six bytes are there. */
    method TakeCoordinates(answer: string)
      requires |answer| == 6
      modifies `objx, `objy
      ensures forall a, b :: answer == Coordinates(a, b) && -99 <= a <= 999 && -99 <= b <= 999 ==> objx == a && objy == b
    {
      objx, objy := Atoi(answer[..3]), Atoi(answer[3..]);
      forall a, b | answer == Coordinates(a, b) && -99 <= a <= 999 && -99 <= b <= 999
        ensures objx == a && objy == b
      {
        CoordinatesArrive(a, b);
      }
    }

    /** irPosicionPokenest; `turns` is the turn at which SIGTERM is seen. */
    method GoToNest(turns: nat) returns (r: int)
      modifies `x, `y, `sent
      ensures r == 0 ==> x == objx && y == objy && sent == old(sent) + Path(old(x), old(y), objx, objy)
      ensures r == 0 || r == 1
      ensures r == 1 ==> exists rest: string :: sent + rest == old(sent) + Path(old(x), old(y), objx, objy)
      ensures turns >= Abs(objx - old(x)) + Abs(objy - old(y)) ==> r == 0
    {
      hide Path, XStep, YStep;
      ghost var start := sent;
      var turn := 0;
      while x != objx || y != objy
        invariant sent + Path(x, y, objx, objy) == start + Path(old(x), old(y), objx, objy)
        invariant turn + Abs(objx - x) + Abs(objy - y) <= Abs(objx - old(x)) + Abs(objy - old(y))
        decreases Abs(objx - x) + Abs(objy - y)
      {
        if turn == turns {
          return 1;
        }
        ghost var before, here, there := sent, x, y;
        TurnJoins(sent, x, y, objx, objy);
        StepLetters(x, objx);
        StepLetters(y, objy);
        if x != objx {
          if x < objx {
            sent := sent + "R";
            x := x + 1;
          } else {
            sent := sent + "L";
            x := x - 1;
          }
        }
        assert sent == before + XStep(here, objx) && x == Toward(here, objx);
        if y != objy {
          if y < objy {
            sent := sent + "D";
            y := y + 1;
          } else {
            sent := sent + "U";
            y := y - 1;
          }
        }
        assert sent == before + XStep(here, objx) + YStep(there, objy) && y == Toward(there, objy);
        turn := turn + 1;
      }
      TurnJoins(sent, x, y, objx, objy);
      return 0;
    }
  }

  // The coordinates on the wire.

  function Digit(d: nat): char
    requires d < 10
  {
    ('0' as int + d) as char
  }

  function Digits(n: nat): string {
    if n < 10 then [Digit(n)] else Digits(n / 10) + [Digit(n % 10)]
  }

  /** "%3d". */
  function Padded(n: int): string {
    var s := if n < 0 then "-" + Digits(-n) else Digits(n);
    if |s| == 1 then "  " + s else if |s| == 2 then " " + s else s
  }

  /** The leading digits of a string, after those already read. */
  function DigitsRead(s: string, read: nat): nat {
    if s != "" && '0' <= s[0] <= '9' then DigitsRead(s[1..], 10 * read + (s[0] as int - '0' as int)) else read
  }

  /** atoi. */
  function Atoi(s: string): int {
    if s != "" && s[0] == ' ' then Atoi(s[1..])
    else if s != "" && s[0] == '-' then 0 - DigitsRead(s[1..], 0) as int
    else if s != "" && s[0] == '+' then DigitsRead(s[1..], 0)
    else DigitsRead(s, 0)
  }

  /** The six bytes the map sends for "%3d%3d"; a longer text is cut. */
  function Coordinates(x: int, y: int): (s: string)
    ensures |s| == 6
  {
    (Padded(x) + Padded(y))[..6]
  }

  lemma {:induction false} DigitsReadBound(s: string, read: nat)
    requires |s| <= 3
    ensures DigitsRead(s, read) < (read + 1) * if |s| == 0 then 1 else if |s| == 1 then 10 else if |s| == 2 then 100 else 1000
  {
    if s != "" && '0' <= s[0] <= '9' {
      DigitsReadBound(s[1..], 10 * read + (s[0] as int - '0' as int));
    }
  }

  lemma AtoiBound(s: string)
    requires |s| == 3
    ensures -99 <= Atoi(s) <= 999
  {
    DigitsReadBound(s, 0);
    DigitsReadBound(s[1..], 0);
    if s[0] == ' ' {
      DigitsReadBound(s[2..], 0);
      assert s[1..][1..] == s[2..];
      if s[1] == ' ' {
        DigitsReadBound(s[3..], 0);
        assert s[2..][1..] == s[3..];
        assert Atoi(s[3..]) == 0;
      }
    }
  }

  lemma DigitsOf(m: nat)
    requires m < 1000
    ensures Digits(m) == if m < 10 then [Digit(m)] else if m < 100 then [Digit(m / 10), Digit(m % 10)]
      else [Digit(m / 100), Digit(m / 10 % 10), Digit(m % 10)]
  {
    if 10 <= m {
      assert Digits(m / 10) == if m < 100 then [Digit(m / 10)] else [Digit(m / 100), Digit(m / 10 % 10)];
    }
  }

  lemma DigitsAreRead(m: nat)
    requires m < 1000
    ensures DigitsRead(Digits(m), 0) == m
  {
    DigitsOf(m);
    var s := Digits(m);
    if 100 <= m {
      assert s[1..] == [Digit(m / 10 % 10), Digit(m % 10)] && s[1..][1..] == [Digit(m % 10)];
      assert DigitsRead([Digit(m % 10)], m / 10) == m;
      assert DigitsRead(s[1..], m / 100) == m;
    } else if 10 <= m {
      assert s[1..] == [Digit(m % 10)];
      assert DigitsRead(s[1..], m / 10) == m;
    }
  }

  lemma PaddedReads(n: int)
    requires -99 <= n <= 999
    ensures |Padded(n)| == 3 && Atoi(Padded(n)) == n
  {
    var m := if n < 0 then -n else n;
    var s := Digits(m);
    DigitsOf(m);
    DigitsAreRead(m);
    var t := if n < 0 then "-" + s else s;
    assert n < 0 ==> t[1..] == s;
    assert Atoi(t) == n;
    assert (" " + t)[1..] == t && ("  " + t)[1..] == " " + t;
    assert Atoi(" " + t) == n && Atoi("  " + t) == n;
  }

  /** The trainer reads the coordinates the map sent if and only if both fit three characters. */
  lemma CoordinatesArrive(x: int, y: int)
    ensures Atoi(Coordinates(x, y)[..3]) == x && Atoi(Coordinates(x, y)[3..]) == y <==> -99 <= x <= 999 && -99 <= y <= 999
  {
    var s := Coordinates(x, y);
    AtoiBound(s[..3]);
    AtoiBound(s[3..]);
    if -99 <= x <= 999 && -99 <= y <= 999 {
      PaddedReads(x);
      PaddedReads(y);
      assert s[..3] == Padded(x) && s[3..] == Padded(y);
    }
  }
}

/** The map's threads, each working on the lists and structures they share. */
module MapServer {
  import opened Words
  import opened Nests
  import opened Arena
  import opened ArenaInvariant
  import opened Walk

  /** A map on which nobody is yet. */
  ghost function Empty(nests: seq<Nest>): State {
    State(nests, map[], [], [], [], Idle, 0, 0, 0, 0, false)
  }

  lemma EmptyIsGood(nests: seq<Nest>)
    requires Named(nests) && Pure(nests)
    ensures Good(Empty(nests))
  {
    assert Empty(nests).Everyone() == [];
  }

  /** Those of the list whose connection is open. */
  function Open(list: seq<Trainer>, closed: set<Trainer>): (open: seq<Trainer>)
    ensures |open| <= |list|
    ensures forall t :: t in open ==> t in list && t !in closed
    ensures forall t :: t in list && t !in closed ==> t in open
  {
    if list == [] then [] else (if list[0] in closed then [] else [list[0]]) + Open(list[1..], closed)
  }

  lemma OpenFirst(x: Trainer, rest: seq<Trainer>, closed: set<Trainer>)
    ensures Open([x] + rest, closed) == (if x in closed then [] else [x]) + Open(rest, closed)
  {
    assert ([x] + rest)[1..] == rest;
  }

  lemma OpenNext(list: seq<Trainer>, i: nat, closed: set<Trainer>)
    requires i < |list|
    ensures var less := list[..i] + list[i + 1..];
      if list[i] in closed then less[..i] + Open(less[i..], closed) == list[..i] + Open(list[i..], closed)
      else list[..i + 1] + Open(list[i + 1..], closed) == list[..i] + Open(list[i..], closed)
  {
    hide Open;
    OpenFirst(list[i], list[i + 1..], closed);
    assert list[i..] == [list[i]] + list[i + 1..];
    if list[i] in closed {
      var less := list[..i] + list[i + 1..];
      assert less[..i] == list[..i] && less[i..] == list[i + 1..];
    } else {
      var open := Open(list[i + 1..], closed);
      assert list[..i + 1] + open == list[..i] + ([list[i]] + open);
    }
  }

  lemma StepFails(s: State, k: nat)
    requires Good(s) && k < |s.shaking|
    ensures Enabled(s, ShakeFails(k))
    ensures s.shaking[k] in s.trainers && Homed(s.nests, s.trainers[s.shaking[k]].pokemons)
    ensures Step(s, ShakeFails(k)) == Gone(s, s.shaking[k]).(shaking := Without(s.shaking, k))
  {
    IsPlaced(s, s.shaking[k]);
  }

  /** What is left when a blocked trainer goes. */
  lemma StepDrops(s: State, k: nat)
    requires Good(s) && k < |s.blocked|
    ensures Enabled(s, BlockedLeaves(k))
    ensures s.blocked[k] in s.trainers && Homed(s.nests, s.trainers[s.blocked[k]].pokemons)
    ensures Step(s, BlockedLeaves(k)) == Gone(s, s.blocked[k]).(blocked := Without(s.blocked, k))
  {
    IsPlaced(s, s.blocked[k]);
  }

  /** What a service finds, and the state it leaves in each case. */
  lemma ServeCases(s: State)
    requires Good(s) && s.token
    ensures Enabled(s, Serve)
    ensures s.blocked == [] ==> Step(s, Serve) == s.(token := false)
    ensures s.blocked != [] ==>
      var t := s.blocked[0];
      && t in s.trainers && HasNest(s.nests, s.trainers[t].obj)
      && var r := s.trainers[t];
         var at := NestOf(s.nests, r.obj);
         var queue := s.nests[at].pokemons;
         if queue == [] then Step(s, Serve) == s.(blocked := s.blocked[1..] + [t], semAsig := s.semAsig + 1, token := false)
         else Step(s, Serve) == s.(nests := WithQueue(s.nests, at, queue[1..]),
           trainers := s.trainers[t := r.(obj := NONE, pokemons := r.pokemons + [queue[0]])],
           blocked := s.blocked[1..], ready := s.ready + [t], postsPlan := s.postsPlan + 1, token := false)
  {
    if s.blocked != [] {
      IsPlaced(s, s.blocked[0]);
    }
  }

  /** What a trainer's goal can be, wherever it stands. */
  lemma GoalIsThere(s: State, t: Trainer)
    requires Good(s) && (t in s.shaking || t in s.ready || t in s.blocked || t in s.Running())
    ensures t in s.trainers && (s.trainers[t].obj == NONE || HasNest(s.nests, s.trainers[t].obj))
  {
    IsPlaced(s, t);
  }

  /** What recv gives the planner: the end of the connection, or a letter and what follows it. */
  datatype Message = Hangup | Letters(kind: char, arg: char)

  /** What the planner does about one message. */
  ghost function EventsOf(nests: seq<Nest>, m: Message): seq<Event> {
    if m.Hangup? || m.kind == 'O' then [RunnerLeaves]
    else if m.kind == 'C' then if HasNest(nests, m.arg) then [Ask(m.arg)] else [RunnerLeaves]
    else if m.kind == 'M' then [Move(m.arg)]
    else if m.kind == 'G' then [RunnerBlocks]
    else []
  }

  /** What it does about all of them, in order. */
  ghost function TurnEvents(nests: seq<Nest>, messages: seq<Message>): seq<Event> {
    if messages == [] then [] else
      TurnEvents(nests, messages[..|messages| - 1]) + EventsOf(nests, messages[|messages| - 1])
  }

  /** The trainer is gone after this message. */
  ghost predicate Leaves(nests: seq<Nest>, m: Message) {
    m.Hangup? || m.kind == 'O' || (m.kind == 'C' && !HasNest(nests, m.arg))
  }

  /** The trainer is blocked after this message. */
  ghost predicate Catches(m: Message) {
    m.Letters? && m.kind == 'G'
  }

  /** The trainer runs no more after this message. */
  ghost predicate Ends(nests: seq<Nest>, m: Message) {
    Leaves(nests, m) || Catches(m)
  }

  /** Each nest has got its own kind of the list, at the end of its queue and in the list's order. */
  ghost predicate GotBack(before: seq<Nest>, after: seq<Nest>, list: seq<Pokemon>) {
    |after| == |before| && forall i :: 0 <= i < |before| ==>
      after[i] == before[i].(pokemons := before[i].pokemons + OfKind(list, before[i].id))
  }

  lemma ReturnAllGetsBack(nests: seq<Nest>, list: seq<Pokemon>)
    requires Named(nests) && Homed(nests, list)
    ensures GotBack(nests, ReturnAll(nests, list), list)
  {
    hide OfKind, ReturnAll, Named, Homed;
    forall i: nat | i < |nests|
      ensures ReturnAll(nests, list)[i].pokemons == nests[i].pokemons + OfKind(list, nests[i].id)
    {
      ReturnAllIsExact(nests, list, i);
    }
  }

  /** A trainer that has left is nowhere. */
  lemma GoneIsNowhere(s: State, t: Trainer)
    requires Good(s) && t !in s.trainers
    ensures t !in s.Everyone()
  {
    IsPlaced(s, t);
    SpotsFound(s, t);
  }

  /** The trainer's record after one message, and after several, as long as it does not leave. */
  ghost function RecordOne(nests: seq<Nest>, r: Record, m: Message): (after: Record)
    ensures after.pokemons == r.pokemons
  {
    if m.Letters? && m.kind == 'M' then Moved(r, m.arg)
    else if m.Letters? && m.kind == 'C' && HasNest(nests, m.arg) then r.(obj := m.arg)
    else r
  }

  ghost function RecordAfter(nests: seq<Nest>, r: Record, messages: seq<Message>): (after: Record)
    ensures after.pokemons == r.pokemons
  {
    if messages == [] then r else
      RecordOne(nests, RecordAfter(nests, r, messages[..|messages| - 1]), messages[|messages| - 1])
  }

  /** What has been sent to it after one message, and after several. */
  ghost function SentOne(nests: seq<Nest>, sent: string, m: Message): string {
    if m.Hangup? then sent
    else if m.kind == 'M' then sent + "OK"
    else if m.kind != 'C' then sent
    else if !HasNest(nests, m.arg) then sent + "N"
    else var nest := nests[NestOf(nests, m.arg)]; sent + Coordinates(AsInt(nest.posx), AsInt(nest.posy))
  }

  ghost function SentAfter(nests: seq<Nest>, sent: string, messages: seq<Message>): string {
    if messages == [] then sent else
      SentOne(nests, SentAfter(nests, sent, messages[..|messages| - 1]), messages[|messages| - 1])
  }

  lemma AfterNext(nests: seq<Nest>, r: Record, sent: string, messages: seq<Message>, k: nat)
    requires k < |messages|
    ensures RecordAfter(nests, r, messages[..k + 1]) == RecordOne(nests, RecordAfter(nests, r, messages[..k]), messages[k])
    ensures SentAfter(nests, sent, messages[..k + 1]) == SentOne(nests, SentAfter(nests, sent, messages[..k]), messages[k])
  {
    hide RecordOne, SentOne;
    assert messages[..k + 1][..k] == messages[..k];
  }

  lemma AfterNone(nests: seq<Nest>, r: Record, sent: string)
    ensures RecordAfter(nests, r, []) == r && SentAfter(nests, sent, []) == sent
  {
  }

  /** The letters of a walk, as the map gets them. */
  function Steps(moves: string): (messages: seq<Message>)
    ensures |messages| == |moves|
  {
    seq(|moves|, i requires 0 <= i < |moves| => Letters('M', moves[i]))
  }

  ghost function Oks(n: nat): string {
    if n == 0 then "" else Oks(n - 1) + "OK"
  }

  /** A turn of nothing but letters of a walk: the map has gone along, and has acknowledged each. */
  lemma {:induction false} StepsAreObeyed(nests: seq<Nest>, r: Record, sent: string, moves: string)
    ensures RecordAfter(nests, r, Steps(moves)) == Obeyed(r, moves)
    ensures SentAfter(nests, sent, Steps(moves)) == sent + Oks(|moves|)
    ensures forall m :: m in Steps(moves) ==> !Ends(nests, m)
    decreases |moves|
  {
    hide Moved, HasNest;
    if moves != [] {
      var n := |moves| - 1;
      assert Steps(moves)[..n] == Steps(moves[..n]);
      StepsAreObeyed(nests, r, sent, moves[..n]);
    }
  }

  lemma TurnEventsNext(nests: seq<Nest>, messages: seq<Message>, k: nat)
    requires k < |messages|
    ensures TurnEvents(nests, messages[..k + 1]) == TurnEvents(nests, messages[..k]) + EventsOf(nests, messages[k])
  {
    assert messages[..k + 1][..k] == messages[..k];
  }

  /** A trainer asks to catch only at a nest it has been told the way to. */
  ghost predicate Polite(nests: seq<Nest>, obj: char, m: Message) {
    m.Letters? && m.kind == 'G' ==> obj != NONE && HasNest(nests, m.arg)
  }

  ghost function GoalAfter(obj: char, m: Message): char {
    if m.Letters? && m.kind == 'C' then m.arg else obj
  }

  /** The same of all it will send. */
  ghost predicate AllPolite(nests: seq<Nest>, obj: char, messages: seq<Message>)
    decreases |messages|
  {
    messages == [] ||
      (Polite(nests, obj, messages[0]) && AllPolite(nests, GoalAfter(obj, messages[0]), messages[1..]))
  }

  /** What one message can do to a running trainer. */
  lemma AnswerRuns(s: State, m: Message)
    requires Good(s) && s.planner.Runs? && s.planner.runner in s.trainers && Polite(s.nests, s.trainers[s.planner.runner].obj, m)
    ensures EventsOf(s.nests, m) == [] ==> Run(s, EventsOf(s.nests, m), s)
    ensures EventsOf(s.nests, m) != [] ==> Enabled(s, EventsOf(s.nests, m)[0]) && Run(s, EventsOf(s.nests, m), Step(s, EventsOf(s.nests, m)[0]))
  {
    hide Step, Placed, Counted, Kinds, Good, Run, HasNest, Moved;
    RunnerCases(s);
    if EventsOf(s.nests, m) == [] {
      RunOfNone(s);
    } else {
      RunOfOne(s, EventsOf(s.nests, m)[0]);
    }
  }

  lemma NoEvents(nests: seq<Nest>)
    ensures TurnEvents(nests, []) == []
  {
  }

  lemma StillLetters(nests: seq<Nest>, m: Message)
    requires !Ends(nests, m)
    ensures m.Letters?
  {
  }

  lemma RunnerMayRequeue(s: State)
    requires Good(s) && s.planner.Runs?
    ensures Enabled(s, RunnerRequeues) && Enabled(s, RunnerLeaves)
  {
  }

  lemma RunnerCases(s: State)
    requires Good(s) && s.planner.Runs?
    ensures var t := s.planner.runner;
      && t in s.trainers && Homed(s.nests, s.trainers[t].pokemons)
      && Step(s, RunnerLeaves) == Gone(s, t).(planner := Idle)
      && (forall axis :: Step(s, Move(axis)) == s.(trainers := s.trainers[t := Moved(s.trainers[t], axis)]))
      && (forall id :: HasNest(s.nests, id) ==> id != NONE && Step(s, Ask(id)) == s.(trainers := s.trainers[t := s.trainers[t].(obj := id)]))
  {
    IsPlaced(s, s.planner.runner);
  }

  lemma GoodNests(s: State)
    requires Good(s)
    ensures Named(s.nests)
  {
  }

  class Mapa {
    const nests: array<Nest>
    const batalla: bool
    var shaking: seq<Trainer>
    var eReady: seq<Trainer>
    var eBlocked: seq<Trainer>
    var eDeadlock: seq<Trainer>
    var planner: Planner
    var semPlanificador: nat
    var semAsignador: nat
    var postsPlan: nat
    var postsAsig: nat
    var token: bool

    ghost function Everyone(): seq<Trainer>
      reads `shaking, `eReady, `eBlocked, `planner
    {
      shaking + eReady + eBlocked + if planner.Runs? then [planner.runner] else []
    }

    ghost function Model(): State
      reads `shaking, `eReady, `eBlocked, `planner, `semPlanificador, `postsPlan, `semAsignador, `postsAsig, `token, nests, Everyone()
    {
      State(nests[..], map t | t in Everyone() :: t.Value(), shaking, eReady, eBlocked, planner,
            semPlanificador, postsPlan, semAsignador, postsAsig, token)
    }

    ghost predicate Valid()
      reads `shaking, `eReady, `eBlocked, `planner, `semPlanificador, `postsPlan, `semAsignador, `postsAsig, `token, nests, Everyone()
    {
      Good(Model())
    }

    /** Trainer t is nowhere, and what it held is back in the nests. */
    ghost predicate Away(t: Trainer, before: seq<Nest>, held: seq<Pokemon>)
      reads `shaking, `eReady, `eBlocked, `planner, nests, t
    {
      t.pokemons == [] && t !in Everyone() && GotBack(before, nests[..], held)
    }

    /** What the model of a valid map says of its fields. */
    lemma Fields()
      requires Valid()
      ensures var s := Model();
        && Good(s) && s.nests == nests[..] && s.planner == planner && s.token == token
        && s.shaking == shaking && s.ready == eReady && s.blocked == eBlocked
        && s.semPlan == semPlanificador && s.postsPlan == postsPlan && s.semAsig == semAsignador && s.postsAsig == postsAsig
        && forall t :: t in s.trainers ==> s.trainers[t] == t.Value()
    {
    }

    /** A message goes out on a trainer's socket. */
    method Tell(t: Trainer, text: string)
      modifies t`sent
      ensures t.sent == old(t.sent) + text
      ensures Model() == old(Model()) && (old(Valid()) ==> Valid())
    {
      hide Good;
      t.sent := t.sent + text;
      assert Model().trainers == old(Model()).trainers;
    }

    /** The structures are those of s, whatever lists the trainers stand in. */
    lemma Agree(s: State)
      requires Good(s) && s.nests == nests[..] && s.planner == planner && s.token == token
      requires s.shaking == shaking && s.ready == eReady && s.blocked == eBlocked
      requires s.semPlan == semPlanificador && s.postsPlan == postsPlan && s.semAsig == semAsignador && s.postsAsig == postsAsig
      requires forall t :: t in s.trainers ==> s.trainers[t] == t.Value()
      ensures Valid() && Model() == s
    {
      hide Placed, Kinds, Counted;
      forall t
        ensures t in s.trainers <==> t in Everyone()
      {
        hide Spots;
        IsPlaced(s, t);
        SpotsFound(s, t);
        assert s.Everyone() == Everyone();
      }
      assert Model().trainers == s.trainers;
    }

    constructor (nests: array<Nest>, batalla: bool)
      requires Named(nests[..]) && Pure(nests[..])
      ensures Valid() && Model() == Empty(nests[..]) && eDeadlock == [] && this.nests == nests && this.batalla == batalla
    {
      this.nests, this.batalla := nests, batalla;
      shaking, eReady, eBlocked, eDeadlock := [], [], [], [];
      planner, token := Idle, false;
      semPlanificador, semAsignador, postsPlan, postsAsig := 0, 0, 0, 0;
      new;
      EmptyIsGood(nests[..]);
    }

    // Handshakes.

    /** A trainer connects: the handshake thread makes its structure. */
    method Connect(id: char, time: int) returns (t: Trainer)
      requires Valid()
      modifies this
      ensures Valid() && fresh(t) && Model() == Step(old(Model()), Event.Connect(t))
      ensures t.id == id && t.time == time && t.Value() == Record(NONE, 1, 1, []) && shaking == old(shaking) + [t]
      ensures eDeadlock == old(eDeadlock)
    {
      hide Placed, Kinds, Counted;
      ghost var s := Model();
      t := new Trainer(id, time);
      StepKeeps(s, Event.Connect(t));
      shaking := shaking + [t];
      Agree(Step(s, Event.Connect(t)));
    }

    /** The handshake ends well: agregarReady up to its unlock. */
    method FinishHandshake(k: nat)
      requires Valid() && k < |shaking|
      modifies this
      ensures Valid() && Model() == Step(old(Model()), ShakeDone(k))
      ensures shaking == old(shaking[..k] + shaking[k + 1..]) && eReady == old(eReady + [shaking[k]]) && postsPlan == old(postsPlan) + 1
      ensures eDeadlock == old(eDeadlock)
    {
      hide Placed, Kinds, Counted;
      ghost var s := Model();
      StepKeeps(s, ShakeDone(k));
      var t := shaking[k];
      shaking := shaking[..k] + shaking[k + 1..];
      eReady := eReady + [t];
      postsPlan := postsPlan + 1;
      Agree(Step(s, ShakeDone(k)));
    }

    /** devolverPokemons: one by one, each to the end of the queue of its nest. */
    method ReturnPokemons(t: Trainer)
      requires Homed(nests[..], t.pokemons)
      modifies nests, t`pokemons
      ensures nests[..] == ReturnAll(old(nests[..]), old(t.pokemons)) && t.pokemons == []
    {
      while t.pokemons != []
        invariant Homed(nests[..], t.pokemons)
        invariant ReturnAll(nests[..], t.pokemons) == ReturnAll(old(nests[..]), old(t.pokemons))
        decreases |t.pokemons|
      {
        ghost var before, list := nests[..], t.pokemons;
        var p := t.pokemons[0];
        t.pokemons := t.pokemons[1..];
        var i := 0;
        while nests[i].id != p.id
          invariant 0 <= i <= NestOf(before, p.id)
          invariant nests[..] == before && t.pokemons == list[1..]
          decreases NestOf(before, p.id) - i
        {
          i := i + 1;
        }
        assert before[i] == nests[i];
        nests[i] := nests[i].(pokemons := nests[i].pokemons + [p]);
        assert nests[..] == Return(before, p);
        HomedElsewhere(before, nests[..], list[1..]);
      }
    }

    /** The handshake fails. */
    method FailHandshake(k: nat)
      requires Valid() && k < |shaking|
      modifies this, nests, Everyone()`pokemons
      ensures Valid() && Model() == Step(old(Model()), ShakeFails(k))
      ensures shaking == old(shaking[..k] + shaking[k + 1..]) && Away(old(shaking[k]), old(nests[..]), old(shaking[k].pokemons))
      ensures eDeadlock == old(eDeadlock)
    {
      hide Placed, Kinds, Counted, ReturnAll, Homed, SameSites, Step, Enabled, Good, GotBack;
      ghost var s := Model();
      var t := shaking[k];
      StepFails(s, k);
      StepKeeps(s, ShakeFails(k));
      GoodNests(s);
      ReturnAllGetsBack(s.nests, t.pokemons);
      shaking := shaking[..k] + shaking[k + 1..];
      ReturnPokemons(t);
      Agree(Step(s, ShakeFails(k)));
      GoneIsNowhere(Model(), t);
    }

    // Semaphores.

    method PostPlanner()
      requires Valid() && postsPlan > 0
      modifies this
      ensures Valid() && Model() == Step(old(Model()), PostReady)
      ensures eDeadlock == old(eDeadlock)
    {
      hide Placed, Kinds;
      ghost var s := Model();
      StepKeeps(s, PostReady);
      postsPlan, semPlanificador := postsPlan - 1, semPlanificador + 1;
      Agree(Step(s, PostReady));
    }

    method PostAssigner()
      requires Valid() && postsAsig > 0
      modifies this
      ensures Valid() && Model() == Step(old(Model()), PostBlocked)
      ensures eDeadlock == old(eDeadlock)
    {
      hide Placed, Kinds;
      ghost var s := Model();
      StepKeeps(s, PostBlocked);
      postsAsig, semAsignador := postsAsig - 1, semAsignador + 1;
      Agree(Step(s, PostBlocked));
    }

    /** The planner's sem_wait, once it returns. */
    method WaitPlanner()
      requires Valid() && planner.Idle? && semPlanificador > 0
      modifies this
      ensures Valid() && Model() == Step(old(Model()), PlannerWakes)
      ensures eDeadlock == old(eDeadlock)
    {
      hide Placed, Kinds;
      ghost var s := Model();
      StepKeeps(s, PlannerWakes);
      planner, semPlanificador := Woken, semPlanificador - 1;
      Agree(Step(s, PlannerWakes));
    }

    /** The assigner's sem_wait, once it returns. */
    method WaitAssigner()
      requires Valid() && !token && semAsignador > 0
      modifies this
      ensures Valid() && Model() == Step(old(Model()), AssignerWakes)
      ensures eDeadlock == old(eDeadlock)
    {
      hide Placed, Kinds;
      ghost var s := Model();
      StepKeeps(s, AssignerWakes);
      token, semAsignador := true, semAsignador - 1;
      Agree(Step(s, AssignerWakes));
    }

    // The assigner.

    /** A blocked trainer goes: off the list, everything back. */
    method DropBlocked(k: nat)
      requires Valid() && k < |eBlocked|
      modifies `eBlocked, nests, {eBlocked[k]}`pokemons
      ensures Valid() && Model() == Step(old(Model()), BlockedLeaves(k))
      ensures eBlocked == old(eBlocked[..k] + eBlocked[k + 1..])
      ensures Away(old(eBlocked[k]), old(nests[..]), old(eBlocked[k].pokemons))
    {
      hide Placed, Kinds, Counted, ReturnAll, Homed, SameSites, Step, Enabled, Good, GotBack;
      ghost var s := Model();
      var t := eBlocked[k];
      StepDrops(s, k);
      StepKeeps(s, BlockedLeaves(k));
      GoodNests(s);
      ReturnAllGetsBack(s.nests, t.pokemons);
      eBlocked := eBlocked[..k] + eBlocked[k + 1..];
      ReturnPokemons(t);
      Agree(Step(s, BlockedLeaves(k)));
      GoneIsNowhere(Model(), t);
    }

    /** detectarDesconectados: all whose connection is closed go, the others stay in order. */
    method DetectDisconnected(closed: set<Trainer>) returns (ghost trace: seq<Event>)
      requires Valid()
      modifies `eBlocked, nests, eBlocked`pokemons
      ensures Valid() && Run(old(Model()), trace, Model())
      ensures forall e :: e in trace ==> e.BlockedLeaves?
      ensures eBlocked == Open(old(eBlocked), closed)
      ensures Model() == old(Model()).(nests := nests[..], trainers := Model().trainers, blocked := eBlocked)
    {
      hide Placed, Kinds, Counted, Step, Run, Open;
      ghost var s := Model();
      trace := [];
      RunOfNone(s);
      var i := 0;
      assert eBlocked[..i] + Open(eBlocked[i..], closed) == Open(s.blocked, closed);
      while i < |eBlocked|
        invariant i <= |eBlocked| && Valid() && Run(s, trace, Model())
        invariant forall e :: e in trace ==> e.BlockedLeaves?
        invariant eBlocked[..i] + Open(eBlocked[i..], closed) == Open(s.blocked, closed)
        invariant Model() == s.(nests := nests[..], trainers := Model().trainers, blocked := eBlocked)
        invariant forall t :: t in eBlocked ==> t in old(eBlocked)
        decreases |eBlocked| - i
      {
        OpenNext(eBlocked, i, closed);
        assert eBlocked[i] in old(eBlocked);
        if eBlocked[i] in closed {
          StepDrops(Model(), i);
          RunMore(s, trace, Model(), BlockedLeaves(i));
          trace := trace + [BlockedLeaves(i)];
          DropBlocked(i);
        } else {
          i := i + 1;
        }
      }
    }

    /** The first blocked trainer gets the front of the queue of its nest. */
    method Grant(pos: nat)
      requires Valid() && token && eBlocked != [] && HasNest(nests[..], eBlocked[0].obj)
      requires pos == NestOf(nests[..], eBlocked[0].obj) && nests[pos].pokemons != []
      modifies this, nests, {eBlocked[0]}
      ensures Valid() && Model() == Step(old(Model()), Serve)
      ensures eDeadlock == old(eDeadlock) && eBlocked == old(eBlocked[1..])
      ensures eReady == old(eReady + [eBlocked[0]]) && postsPlan == old(postsPlan) + 1
      ensures nests[..] == old(nests[..][pos := nests[pos].(pokemons := nests[pos].pokemons[1..])])
      ensures old(eBlocked[0]).pokemons == old(eBlocked[0].pokemons + [nests[pos].pokemons[0]]) && old(eBlocked[0]).obj == NONE
      ensures old(eBlocked[0]).sent == old(eBlocked[0].sent) + "P"
    {
      hide Placed, Kinds, Counted, Step, HasNest, NestOf, Good, Model, Everyone, Valid;
      Fields();
      ghost var s := Model();
      ServeCases(s);
      StepKeeps(s, Serve);
      var t := eBlocked[0];
      eBlocked := eBlocked[1..];
      var p := nests[pos].pokemons[0];
      nests[pos] := nests[pos].(pokemons := nests[pos].pokemons[1..]);
      t.pokemons := t.pokemons + [p];
      t.sent := t.sent + "P";
      t.obj := NONE;
      eReady := eReady + [t];
      postsPlan := postsPlan + 1;
      token := false;
      Agree(Step(s, Serve));
    }

    /** The first blocked trainer goes to the end, and the assigner posts for itself. */
    method Rotate()
      requires Valid() && token && eBlocked != [] && HasNest(nests[..], eBlocked[0].obj)
      requires nests[NestOf(nests[..], eBlocked[0].obj)].pokemons == []
      modifies this
      ensures Valid() && Model() == Step(old(Model()), Serve)
      ensures eDeadlock == old(eDeadlock) && eBlocked == old(eBlocked[1..] + [eBlocked[0]])
      ensures eReady == old(eReady) && semAsignador == old(semAsignador) + 1
    {
      hide Placed, Kinds, Counted, Step, HasNest, NestOf, Good;
      ghost var s := Model();
      ServeCases(s);
      StepKeeps(s, Serve);
      eBlocked := eBlocked[1..] + [eBlocked[0]];
      semAsignador := semAsignador + 1;
      token := false;
      Agree(Step(s, Serve));
    }

    /** Nobody is blocked: the token is gone. */
    method Waste()
      requires Valid() && token && eBlocked == []
      modifies `token
      ensures Valid() && !token && Model() == Step(old(Model()), Serve)
    {
      hide Placed, Kinds, Counted, Step, Good;
      ghost var s := Model();
      ServeCases(s);
      StepKeeps(s, Serve);
      token := false;
      Agree(Step(s, Serve));
    }

    /** What is done with the token once the disconnected are gone. */
    method ServeOne()
      requires Valid() && token
      modifies this, nests, if eBlocked == [] then {} else {eBlocked[0]}
      ensures Valid() && !token && Model() == Step(old(Model()), Serve)
      ensures eBlocked == old(eBlocked) == [] || eBlocked == old(eBlocked[1..]) || eBlocked == old(eBlocked[1..] + [eBlocked[0]])
      ensures eDeadlock == old(eDeadlock)
    {
      hide Placed, Kinds, Counted, Step, Good, HasNest, NestOf, WithQueue;
      ghost var s := Model();
      ServeCases(s);
      if eBlocked != [] {
        var pos := GetPokeNestFromID(nests, eBlocked[0].obj);
        Agree(s);
        if nests[pos].pokemons != [] {
          Grant(pos);
        } else {
          Rotate();
        }
      } else {
        Waste();
      }
    }

    /** One round of the assigner after its semaphore: the disconnected go, then one trainer is served. */
    method Assign(closed: set<Trainer>) returns (ghost trace: seq<Event>)
      requires Valid() && token
      modifies this, nests, eBlocked
      ensures Valid() && !token && Run(old(Model()), trace, Model())
      ensures |trace| > 0 && trace[|trace| - 1] == Serve
      ensures forall e :: e in trace[..|trace| - 1] ==> e.BlockedLeaves?
      ensures forall t :: t in eBlocked ==> t !in closed
      ensures eDeadlock == old(eDeadlock)
    {
      hide Placed, Kinds, Counted, Step, Run, Open, Good;
      ghost var drops := DetectDisconnected(closed);
      ServeCases(Model());
      RunMore(old(Model()), drops, Model(), Serve);
      trace := drops + [Serve];
      assert trace[..|trace| - 1] == drops;
      assert eBlocked != [] ==> eBlocked[0] in old(eBlocked);
      ghost var list := eBlocked;
      ServeOne();
      assert forall t :: t in eBlocked ==> t in list;
    }

    // The planner.

    /** planRR takes the first ready trainer; there is one. */
    method PickFirst()
      requires Valid() && planner.Woken?
      modifies this
      ensures old(eReady) != [] && Valid() && Model() == Step(old(Model()), Pick(0))
      ensures planner == Runs(old(eReady)[0]) && eReady == old(eReady)[1..]
      ensures eDeadlock == old(eDeadlock)
    {
      Take(0);
    }

    method Take(k: nat)
      requires Valid() && planner.Woken? && k < |eReady|
      modifies this
      ensures Valid() && Model() == Step(old(Model()), Pick(k))
      ensures planner == Runs(old(eReady[k])) && eReady == old(eReady[..k] + eReady[k + 1..]) && eDeadlock == old(eDeadlock)
    {
      hide Placed, Kinds;
      ghost var s := Model();
      StepKeeps(s, Pick(k));
      planner := Runs(eReady[k]);
      eReady := eReady[..k] + eReady[k + 1..];
      Agree(Step(s, Pick(k)));
    }

    ghost function Distances(list: seq<Trainer>): (d: seq<int>)
      reads nests, list
      ensures |d| == |list|
    {
      seq(|list|, j requires 0 <= j < |list| reads nests, list => DistanceTo(nests[..], list[j].Value()))
    }

    /** How far the goals of the trainers really are. */
    ghost function Ways(list: seq<Trainer>): (d: seq<int>)
      reads nests, list
      ensures |d| == |list|
    {
      seq(|list|, j requires 0 <= j < |list| reads nests, list => WayTo(nests[..], list[j].Value()))
    }

    /** With nobody 2^31 steps away or more, what the map measures are the true distances. */
    lemma DistancesAreWays(list: seq<Trainer>)
      ensures (forall j :: 0 <= j < |list| ==> Ways(list)[j] < 0x8000_0000) <==> Distances(list) == Ways(list)
    {
      hide DistanceTo, WayTo;
      forall j | 0 <= j < |list|
        ensures Distances(list)[j] == Ways(list)[j] <==> Ways(list)[j] < 0x8000_0000
      {
        DistanceIsExact(nests[..], list[j].Value());
      }
    }

    /** The search of planSRDF. */
    method FindNearest() returns (idx: nat)
      requires eReady != [] && forall j :: 0 <= j < |eReady| ==> HasGoal(eReady[j])
      ensures idx < |eReady| && Nearest(Distances(eReady), idx)
      ensures (forall j :: 0 <= j < |eReady| ==> Ways(eReady)[j] < 0x8000_0000) ==> Nearest(Ways(eReady), idx)
    {
      hide NearestSoFar, Nearest, DistanceTo, WayTo;
      DistancesAreWays(eReady);
      var disMenor := 999;
      idx := 0;
      NearestStarts(Distances(eReady));
      var i := 0;
      ghost var d := Distances(eReady);
      while i < |eReady|
        invariant i <= |eReady| && NearestSoFar(d, i, idx, disMenor)
      {
        NearestGoesOn(d, i, idx, disMenor);
        var dis := Distance(nests, eReady[i]);
        assert dis == d[i];
        if dis < disMenor {
          disMenor := dis;
          idx := i;
        }
        i := i + 1;
      }
      NearestGoesOn(d, i, idx, disMenor);
    }

    /**
     planSRDF takes the leftmost ready trainer of the least distance, if that is below 999; with nobody
     below 999 it takes the first. Distances are what the map measures, and the true ones if those fit.
     */
    method PickNearest() returns (idx: nat)
      requires Valid() && planner.Woken?
      modifies this
      ensures Nearest(old(Distances(eReady)), idx)
      ensures (forall j :: 0 <= j < |old(eReady)| ==> old(Ways(eReady))[j] < 0x8000_0000) ==> Nearest(old(Ways(eReady)), idx)
      ensures Valid() && Model() == Step(old(Model()), Pick(idx))
      ensures planner == Runs(old(eReady)[idx]) && eReady == old(eReady)[..idx] + old(eReady)[idx + 1..] && eDeadlock == old(eDeadlock)
    {
      hide Placed, Kinds, Counted, Step, Nearest, DistanceTo, WayTo;
      GoalsAreThere();
      idx := FindNearest();
      Take(idx);
    }

    ghost predicate HasGoal(t: Trainer)
      reads nests, t
    {
      t.obj == NONE || HasNest(nests[..], t.obj)
    }

    lemma GoalsAreThere()
      requires Valid()
      ensures forall j :: 0 <= j < |eReady| ==> HasGoal(eReady[j])
      ensures planner.Woken? ==> eReady != []
    {
      forall j | 0 <= j < |eReady|
        ensures HasGoal(eReady[j])
      {
        GoalIsThere(Model(), eReady[j]);
      }
    }

    /** The running trainer leaves: medal, hang-up or an unknown nest. */
    method RunnerGoes()
      requires Valid() && planner.Runs?
      modifies `planner, nests, {planner.runner}`pokemons
      ensures Valid() && planner.Idle? && Model() == Step(old(Model()), RunnerLeaves)
      ensures Away(old(planner.runner), old(nests[..]), old(planner.runner.pokemons))
    {
      hide Placed, Kinds, Counted, ReturnAll, Homed, SameSites, Step, Moved, HasNest, Good, GotBack;
      ghost var s := Model();
      RunnerCases(s);
      GoodNests(s);
      StepKeeps(s, RunnerLeaves);
      var t := planner.runner;
      ReturnAllGetsBack(s.nests, t.pokemons);
      planner := Idle;
      ReturnPokemons(t);
      Agree(Step(s, RunnerLeaves));
      GoneIsNowhere(Model(), t);
    }

    /** moverEntrenador. */
    method MoveRunner(axis: char)
      requires Valid() && planner.Runs?
      modifies {planner.runner}`posx, {planner.runner}`posy, {planner.runner}`sent
      ensures Valid() && Model() == Step(old(Model()), Move(axis))
      ensures planner.runner.Value() == Moved(old(planner.runner.Value()), axis)
      ensures planner.runner.sent == old(planner.runner.sent) + "OK"
    {
      hide Placed, Kinds, Counted, Homed, SameSites, Step, HasNest, Gone;
      ghost var s := Model();
      RunnerCases(s);
      StepKeeps(s, Move(axis));
      var t := planner.runner;
      match axis {
        case 'R' => t.posx := (t.posx + 1) % 0x1_0000_0000;
        case 'L' => t.posx := (t.posx - 1) % 0x1_0000_0000;
        case 'D' => t.posy := (t.posy + 1) % 0x1_0000_0000;
        case 'U' => t.posy := (t.posy - 1) % 0x1_0000_0000;
        case _ =>
      }
      t.sent := t.sent + "OK";
      Agree(Step(s, Move(axis)));
    }

    /** The goal is noted and its place sent. */
    method NoteGoal(id: char, pos: nat)
      requires Valid() && planner.Runs? && HasNest(nests[..], id) && pos == NestOf(nests[..], id)
      modifies {planner.runner}`obj, {planner.runner}`sent
      ensures Valid() && Model() == Step(old(Model()), Ask(id))
      ensures planner.runner.Value() == old(planner.runner.Value()).(obj := id)
      ensures planner.runner.sent == old(planner.runner.sent) + Coordinates(AsInt(nests[pos].posx), AsInt(nests[pos].posy))
    {
      hide Placed, Kinds, Counted, Homed, SameSites, Step, HasNest, Gone, NestOf, Moved, Good, Coordinates;
      ghost var s := Model();
      RunnerCases(s);
      StepKeeps(s, Ask(id));
      var t := planner.runner;
      t.obj := id;
      t.sent := t.sent + Coordinates(AsInt(nests[pos].posx), AsInt(nests[pos].posy));
      Agree(Step(s, Ask(id)));
    }

    /** enviarCoordenadasEntrenador: an unknown nest sends the trainer away. */
    method SendCoordinates(id: char) returns (left: bool)
      requires Valid() && planner.Runs?
      modifies `planner, nests, {planner.runner}`pokemons, {planner.runner}`obj, {planner.runner}`sent
      ensures left <==> !old(HasNest(nests[..], id))
      ensures Valid() && Model() == Step(old(Model()), if left then RunnerLeaves else Ask(id))
      ensures if left then planner.Idle? else planner == old(planner)
      ensures left ==> Away(old(planner.runner), old(nests[..]), old(planner.runner.pokemons))
      ensures !left ==> planner.runner.Value() == old(planner.runner.Value()).(obj := id) && nests[..] == old(nests[..])
      ensures old(planner.runner).sent == old(planner.runner.sent) + if left then "N" else
        old(var nest := nests[NestOf(nests[..], id)]; Coordinates(AsInt(nest.posx), AsInt(nest.posy)))
    {
      hide Placed, Kinds, Counted, Step, Good, HasNest, NestOf, Gone, Moved, Coordinates, Homed;
      ghost var s := Model();
      RunnerCases(s);
      var pos := GetPokeNestFromID(nests, id);
      Agree(s);
      left := pos == -1;
      if left {
        var t := planner.runner;
        Tell(t, "N");
        RunnerGoes();
      } else {
        NoteGoal(id, pos);
      }
    }

    /** solicitarPokemon: agregarBlocked up to its unlock. */
    method BlockRunner()
      requires Valid() && planner.Runs? && planner.runner.obj != NONE
      modifies `eBlocked, `planner, `postsAsig
      ensures Valid() && planner.Idle? && Model() == Step(old(Model()), RunnerBlocks)
      ensures eBlocked == old(eBlocked) + [old(planner.runner)] && postsAsig == old(postsAsig) + 1
    {
      hide Placed, Kinds;
      ghost var s := Model();
      RunnerCases(s);
      StepKeeps(s, RunnerBlocks);
      eBlocked := eBlocked + [planner.runner];
      planner := Idle;
      postsAsig := postsAsig + 1;
      Agree(Step(s, RunnerBlocks));
    }

    /** agregarReady at the end of a turn. */
    method RequeueRunner()
      requires Valid() && planner.Runs?
      modifies `eReady, `planner, `postsPlan
      ensures Valid() && planner.Idle? && Model() == Step(old(Model()), RunnerRequeues)
      ensures eReady == old(eReady) + [old(planner).runner] && postsPlan == old(postsPlan) + 1
    {
      hide Placed, Kinds;
      ghost var s := Model();
      StepKeeps(s, RunnerRequeues);
      eReady := eReady + [planner.runner];
      planner := Idle;
      postsPlan := postsPlan + 1;
      Agree(Step(s, RunnerRequeues));
    }

    /**
     The switch of planRR and planSRDF: `done` when the turn is over with this message. A move moves the
     trainer and is acknowledged. Asking for a nest there is makes it the goal and its place is sent; for
     another one, "N" is sent and the trainer leaves, as it does with its medal or when it hangs up. A catch
     adds it to the blocked list, with the post still to come. Anything else does nothing.
     */
    method Answer(m: Message) returns (done: bool)
      requires Valid() && planner.Runs? && Polite(nests[..], planner.runner.obj, m)
      modifies this, nests, {planner.runner}
      ensures Valid() && Run(old(Model()), EventsOf(old(nests[..]), m), Model())
      ensures done <==> planner.Idle?
      ensures !done ==> planner == old(planner)
      ensures done <==> Ends(old(nests[..]), m)
      ensures m.Letters? && m.kind == 'M' ==>
        && old(planner.runner).Value() == Moved(old(planner.runner.Value()), m.arg)
        && old(planner.runner).sent == old(planner.runner.sent) + "OK"
      ensures m.Letters? && m.kind == 'C' && old(HasNest(nests[..], m.arg)) ==>
        && old(planner.runner).Value() == old(planner.runner.Value()).(obj := m.arg)
        && old(planner.runner).sent == old(planner.runner.sent)
         + old(var nest := nests[NestOf(nests[..], m.arg)]; Coordinates(AsInt(nest.posx), AsInt(nest.posy)))
      ensures m.Letters? && m.kind == 'C' && !old(HasNest(nests[..], m.arg)) ==>
        old(planner.runner).sent == old(planner.runner.sent) + "N"
      ensures m.Hangup? || m.kind !in "MC" ==> old(planner.runner).sent == old(planner.runner.sent)
      ensures m.Letters? && m.kind == 'G' ==>
        eBlocked == old(eBlocked) + [old(planner.runner)] && postsAsig == old(postsAsig) + 1
      ensures m.Hangup? || m.kind != 'G' ==> eBlocked == old(eBlocked) && postsAsig == old(postsAsig)
      ensures m.Letters? && m.kind !in "MCO" ==> old(planner.runner).Value() == old(planner.runner.Value())
      ensures Leaves(old(nests[..]), m) ==> Away(old(planner.runner), old(nests[..]), old(planner.runner.pokemons))
      ensures !Leaves(old(nests[..]), m) ==> nests[..] == old(nests[..])
      ensures eReady == old(eReady) && shaking == old(shaking) && eDeadlock == old(eDeadlock) && postsPlan == old(postsPlan)
      ensures semPlanificador == old(semPlanificador) && semAsignador == old(semAsignador) && token == old(token)
    {
      hide Placed, Kinds, Counted, Step, HasNest, Run, Good, Enabled;
      ghost var s := Model();
      RunnerCases(s);
      AnswerRuns(s, m);
      done := false;
      if m.Hangup? {
        RunnerGoes();
        return true;
      }
      match m.kind {
        case 'C' =>
          done := SendCoordinates(m.arg);
        case 'M' =>
          MoveRunner(m.arg);
        case 'G' =>
          BlockRunner();
          done := true;
        case 'O' =>
          RunnerGoes();
          done := true;
        case _ =>
      }
    }

    /** The same, as one step of a turn. */
    method AnswerNext(m: Message) returns (done: bool)
      requires Valid() && planner.Runs? && Polite(nests[..], planner.runner.obj, m)
      modifies this, nests, {planner.runner}
      ensures Valid() && Run(old(Model()), EventsOf(old(nests[..]), m), Model())
      ensures done <==> planner.Idle?
      ensures !done ==> planner == old(planner) && planner.runner.obj == GoalAfter(old(planner.runner.obj), m)
      ensures done <==> Ends(old(nests[..]), m)
      ensures eBlocked == old(eBlocked) + if Catches(m) then [old(planner.runner)] else []
      ensures old(planner.runner).sent == SentOne(old(nests[..]), old(planner.runner.sent), m)
      ensures Leaves(old(nests[..]), m) ==> Away(old(planner.runner), old(nests[..]), old(planner.runner.pokemons))
      ensures !Leaves(old(nests[..]), m) ==>
        && nests[..] == old(nests[..])
        && old(planner.runner).Value() == RecordOne(old(nests[..]), old(planner.runner.Value()), m)
      ensures eReady == old(eReady) && eDeadlock == old(eDeadlock)
    {
      hide Run, EventsOf, HasNest, NestOf, Coordinates, Moved, GotBack, Good;
      done := Answer(m);
    }

    /**
     planRR once the trainer is taken: the messages are answered in order up to the first that ends the
     turn, at most `quantum` of them; if none of those ends it, the trainer goes to the end of the
     ready list.
     */
    method TurnRR(quantum: nat, messages: seq<Message>) returns (used: nat, ghost trace: seq<Event>)
      requires Valid() && planner.Runs? && quantum <= |messages|
      requires AllPolite(nests[..], planner.runner.obj, messages)
      modifies this, nests, {planner.runner}
      ensures Valid() && planner.Idle? && Run(old(Model()), trace, Model())
      ensures used <= quantum && forall i :: 0 <= i < used - 1 ==> !Ends(old(nests[..]), messages[i])
      ensures if used > 0 && Ends(old(nests[..]), messages[used - 1]) then
          trace == TurnEvents(old(nests[..]), messages[..used]) && eReady == old(eReady)
        else
          && used == quantum && trace == TurnEvents(old(nests[..]), messages[..used]) + [RunnerRequeues]
          && eReady == old(eReady) + [old(planner).runner]
      ensures eBlocked == old(eBlocked) + if used > 0 && Catches(messages[used - 1]) then [old(planner.runner)] else []
      ensures old(planner.runner).sent == SentAfter(old(nests[..]), old(planner.runner.sent), messages[..used])
      ensures if used > 0 && Leaves(old(nests[..]), messages[used - 1]) then
          Away(old(planner.runner), old(nests[..]), old(planner.runner.pokemons))
        else
          && nests[..] == old(nests[..])
          && old(planner.runner).Value() == RecordAfter(old(nests[..]), old(planner.runner.Value()), messages[..used])
      ensures eDeadlock == old(eDeadlock)
    {
      hide Placed, Kinds, Counted, Step, HasNest, Run, Good, Enabled, EventsOf, Polite, TurnEvents;
      hide RecordAfter, SentAfter, RecordOne, SentOne, Away;
      ghost var t, r, sent := planner.runner, planner.runner.Value(), planner.runner.sent;
      ghost var s := Model();
      RunOfNone(s);
      NoEvents(s.nests);
      var ql := quantum;
      used, trace := 0, [];
      assert messages[..0] == [];
      AfterNone(s.nests, r, sent);
      while ql != 0
        invariant 0 <= ql && ql + used == quantum && trace == TurnEvents(s.nests, messages[..used])
        decreases ql
        invariant Valid() && Run(s, trace, Model())
        invariant planner == old(planner) && nests[..] == old(nests[..]) && eReady == old(eReady) && eDeadlock == old(eDeadlock)
        invariant AllPolite(nests[..], planner.runner.obj, messages[used..])
        invariant forall i :: 0 <= i < used ==> !Ends(s.nests, messages[i])
        invariant eBlocked == old(eBlocked) && t.Value() == RecordAfter(s.nests, r, messages[..used])
        invariant t.sent == SentAfter(s.nests, sent, messages[..used])
      {
        ql := ql - 1;
        ghost var now := Model();
        assert messages[used..][0] == messages[used] && messages[used..][1..] == messages[used + 1..];
        var done := AnswerNext(messages[used]);
        AfterNext(s.nests, r, sent, messages, used);
        RunOn(s, trace, now, EventsOf(now.nests, messages[used]), Model());
        TurnEventsNext(s.nests, messages, used);
        trace := trace + EventsOf(now.nests, messages[used]);
        used := used + 1;
        if done {
          return;
        }
      }
      RunnerMayRequeue(Model());
      RunMore(s, trace, Model(), RunnerRequeues);
      trace := trace + [RunnerRequeues];
      RequeueRunner();
    }

    /**
     planSRDF once the trainer is taken: the messages are answered in order up to the first that ends
     the turn or asks for coordinates; after coordinates the trainer goes to the end of the ready list,
     and a trainer that sends nothing more has hung up.
     */
    method TurnSRDF(messages: seq<Message>) returns (used: nat, ghost trace: seq<Event>)
      requires Valid() && planner.Runs? && AllPolite(nests[..], planner.runner.obj, messages)
      modifies this, nests, {planner.runner}
      ensures Valid() && planner.Idle? && Run(old(Model()), trace, Model())
      ensures used <= |messages|
      ensures forall i :: 0 <= i < used - 1 ==> !Ends(old(nests[..]), messages[i]) && messages[i].kind != 'C'
      ensures if used > 0 && Ends(old(nests[..]), messages[used - 1]) then
          trace == TurnEvents(old(nests[..]), messages[..used]) && eReady == old(eReady)
        else if used > 0 && messages[used - 1].kind == 'C' then
          && trace == TurnEvents(old(nests[..]), messages[..used]) + [RunnerRequeues]
          && eReady == old(eReady) + [old(planner).runner]
        else
          && used == |messages| && trace == TurnEvents(old(nests[..]), messages) + [RunnerLeaves]
          && eReady == old(eReady)
      ensures eBlocked == old(eBlocked) + if used > 0 && Catches(messages[used - 1]) then [old(planner.runner)] else []
      ensures old(planner.runner).sent == SentAfter(old(nests[..]), old(planner.runner.sent), messages[..used])
      ensures if used > 0 && (Catches(messages[used - 1]) || (!Leaves(old(nests[..]), messages[used - 1]) && messages[used - 1].kind == 'C')) then
          && nests[..] == old(nests[..])
          && old(planner.runner).Value() == RecordAfter(old(nests[..]), old(planner.runner.Value()), messages[..used])
        else
          Away(old(planner.runner), old(nests[..]), old(planner.runner.pokemons))
      ensures eDeadlock == old(eDeadlock)
    {
      hide Placed, Kinds, Counted, Step, HasNest, Run, Good, Enabled, EventsOf, Polite, TurnEvents;
      hide RecordAfter, SentAfter, RecordOne, SentOne, Away;
      ghost var t, r, sent := planner.runner, planner.runner.Value(), planner.runner.sent;
      ghost var s := Model();
      RunOfNone(s);
      NoEvents(s.nests);
      used, trace := 0, [];
      assert messages[..0] == [];
      AfterNone(s.nests, r, sent);
      while used < |messages|
        invariant used <= |messages| && trace == TurnEvents(s.nests, messages[..used])
        invariant Valid() && Run(s, trace, Model())
        invariant planner == old(planner) && nests[..] == old(nests[..]) && eReady == old(eReady) && eDeadlock == old(eDeadlock)
        invariant AllPolite(nests[..], planner.runner.obj, messages[used..])
        invariant forall i :: 0 <= i < used ==> !Ends(s.nests, messages[i]) && messages[i].Letters? && messages[i].kind != 'C'
        invariant eBlocked == old(eBlocked) && t.Value() == RecordAfter(s.nests, r, messages[..used])
        invariant t.sent == SentAfter(s.nests, sent, messages[..used])
      {
        ghost var now := Model();
        var m := messages[used];
        assert messages[used..][0] == m && messages[used..][1..] == messages[used + 1..];
        var done := AnswerNext(m);
        AfterNext(s.nests, r, sent, messages, used);
        RunOn(s, trace, now, EventsOf(now.nests, m), Model());
        TurnEventsNext(s.nests, messages, used);
        trace := trace + EventsOf(now.nests, m);
        used := used + 1;
        if done {
          return;
        }
        StillLetters(s.nests, m);
        if m.kind == 'C' {
          RunnerMayRequeue(Model());
          RunMore(s, trace, Model(), RunnerRequeues);
          trace := trace + [RunnerRequeues];
          RequeueRunner();
          return;
        }
      }
      assert messages[..used] == messages;
      RunnerMayRequeue(Model());
      RunMore(s, trace, Model(), RunnerLeaves);
      trace := trace + [RunnerLeaves];
      RunnerGoes();
    }
  }
}

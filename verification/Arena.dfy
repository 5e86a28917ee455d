/**
 The map as a state machine. Each event is one thing one thread does under its lock: a handshake, the
 planner, the assigner, the deadlock detector; a semaphore post is an event of its own, since a thread
 can be interrupted between its list_add and its sem_post.
 */
module Arena {
  import opened Words
  import opened Nests

  /** tEntrenador. A trainer is known by its pointer; what it holds changes in place. */
  class Trainer {
    const id: char
    const time: int
    var obj: char
    var posx: u32
    var posy: u32
    var pokemons: seq<Pokemon>
    /** What the map has sent on the trainer's socket, one letter a message. */
    var sent: string

    constructor (id: char, time: int)
      ensures this.id == id && this.time == time && Value() == Record(NONE, 1, 1, []) && sent == ""
    {
      this.id, this.time := id, time;
      obj, posx, posy, pokemons, sent := NONE, 1, 1, [], "";
    }

    ghost function Value(): Record
      reads this
    {
      Record(obj, posx, posy, pokemons)
    }
  }

  /** What a trainer's structure holds. */
  datatype Record = Record(obj: char, posx: u32, posy: u32, pokemons: seq<Pokemon>)

  /** The planner thread: waiting for its semaphore, past it, or serving one trainer. */
  datatype Planner = Idle | Woken | Runs(runner: Trainer)

  /**
   `postsPlan` and `postsAsig` count the threads that have added to a list and not yet posted;
   `token` says that the assigner is past its semaphore and has not served yet.
   */
  datatype State = State(
    nests: seq<Nest>, trainers: map<Trainer, Record>,
    shaking: seq<Trainer>, ready: seq<Trainer>, blocked: seq<Trainer>, planner: Planner,
    semPlan: nat, postsPlan: nat, semAsig: nat, postsAsig: nat, token: bool)
  {
    function Running(): seq<Trainer> {
      if planner.Runs? then [planner.runner] else []
    }

    function Everyone(): seq<Trainer> {
      shaking + ready + blocked + Running()
    }
  }

  datatype Event =
    | Connect(t: Trainer)
    | ShakeFails(k: nat)
    | ShakeDone(k: nat)
    | PostReady
    | PlannerWakes
    | Pick(k: nat)
    | Ask(id: char)
    | Move(axis: char)
    | RunnerRequeues
    | RunnerBlocks
    | RunnerLeaves
    | PostBlocked
    | AssignerWakes
    | BlockedLeaves(k: nat)
    | Serve
    | Sort(t: Trainer, list: seq<Pokemon>)

  function Without(list: seq<Trainer>, k: nat): seq<Trainer>
    requires k < |list|
  {
    list[..k] + list[k + 1..]
  }

  /** How often a trainer stands in a list. */
  ghost function Times(list: seq<Trainer>, t: Trainer): nat {
    multiset(list)[t]
  }

  ghost function Spots(s: State, t: Trainer): nat {
    Times(s.shaking, t) + Times(s.ready, t) + Times(s.blocked, t) + Times(s.Running(), t)
  }

  /** Each connected trainer is in exactly one place: shaking hands, ready, blocked or running; nobody else is anywhere. */
  ghost predicate Placed(s: State) {
    && (forall t :: t in s.trainers ==> Spots(s, t) == 1)
    && (forall t :: t in s.Everyone() ==> t in s.trainers)
  }

  /** Pokémon queue at their own nest and those held have one; whoever is blocked asks for a nest there is. */
  ghost predicate Kinds(s: State) {
    && Named(s.nests) && Pure(s.nests)
    && (forall t :: t in s.trainers ==> Homed(s.nests, s.trainers[t].pokemons))
    && (forall t :: t in s.trainers ==> s.trainers[t].obj == NONE || HasNest(s.nests, s.trainers[t].obj))
    && (forall t :: t in s.blocked && t in s.trainers ==> s.trainers[t].obj != NONE)
  }

  /**
   The planner's semaphore counts the ready list exactly, so it never removes from an empty list; the
   assigner's never counts fewer than are blocked, so no wakeup is lost.
   */
  ghost predicate Counted(s: State) {
    && s.semPlan + s.postsPlan + (if s.planner.Woken? then 1 else 0) == |s.ready|
    && |s.blocked| <= s.semAsig + s.postsAsig + if s.token then 1 else 0
  }

  ghost predicate Good(s: State) {
    Placed(s) && Kinds(s) && Counted(s)
  }

  lemma InList(list: seq<Trainer>, t: Trainer)
    ensures t in list <==> Times(list, t) > 0
  {
    assert t in list <==> t in multiset(list);
  }

  lemma SpotsFound(s: State, t: Trainer)
    ensures t in s.Everyone() <==> Spots(s, t) > 0
    ensures t in s.Everyone() <==> t in s.shaking || t in s.ready || t in s.blocked || t in s.Running()
  {
    InList(s.shaking, t);
    InList(s.ready, t);
    InList(s.blocked, t);
    InList(s.Running(), t);
  }

  lemma IsPlaced(s: State, t: Trainer)
    requires Placed(s)
    ensures Spots(s, t) == if t in s.trainers then 1 else 0
    ensures t in s.trainers <==> t in s.shaking || t in s.ready || t in s.blocked || t in s.Running()
  {
    SpotsFound(s, t);
  }

  // One event.

  /** A trainer goes: what it holds returns to the nests. */
  ghost function Gone(s: State, t: Trainer): State
    requires Kinds(s) && t in s.trainers
  {
    s.(nests := ReturnAll(s.nests, s.trainers[t].pokemons), trainers := s.trainers - {t})
  }

  /** moverEntrenador on unsigned 32-bit coordinates. */
  function Moved(r: Record, axis: char): (moved: Record)
    ensures moved.obj == r.obj && moved.pokemons == r.pokemons
  {
    match axis
    case 'R' => r.(posx := (r.posx + 1) % 0x1_0000_0000)
    case 'L' => r.(posx := (r.posx - 1) % 0x1_0000_0000)
    case 'D' => r.(posy := (r.posy + 1) % 0x1_0000_0000)
    case 'U' => r.(posy := (r.posy - 1) % 0x1_0000_0000)
    case _ => r
  }

  /**
   When an event can happen. The trainer's own protocol says that it asks to catch ('G') only what it
   has asked the way to ('C'); a planner that is awake removes whatever list position it likes.
   */
  ghost predicate Enabled(s: State, e: Event)
    requires Good(s)
  {
    match e
    case Connect(t) => t !in s.trainers
    case ShakeFails(k) => k < |s.shaking|
    case ShakeDone(k) => k < |s.shaking|
    case PostReady => s.postsPlan > 0
    case PlannerWakes => s.planner.Idle? && s.semPlan > 0
    case Pick(k) => s.planner.Woken? && k < |s.ready|
    case Ask(id) => s.planner.Runs? && id != NONE && HasNest(s.nests, id)
    case Move(_) => s.planner.Runs?
    case RunnerRequeues => s.planner.Runs?
    case RunnerBlocks => s.planner.Runs? && s.planner.runner in s.trainers && s.trainers[s.planner.runner].obj != NONE
    case RunnerLeaves => s.planner.Runs?
    case PostBlocked => s.postsAsig > 0
    case AssignerWakes => !s.token && s.semAsig > 0
    case BlockedLeaves(k) => k < |s.blocked|
    case Serve => s.token
    case Sort(t, list) => t in s.trainers && multiset(list) == multiset(s.trainers[t].pokemons)
  }

  /** What the assigner does with its token: the first blocked trainer gets its Pokémon or goes to the end. */
  ghost function Served(s: State): State
    requires Good(s) && s.token
  {
    if s.blocked == [] then s.(token := false) else
      var t := s.blocked[0];
      IsPlaced(s, t);
      var r := s.trainers[t];
      var at := NestOf(s.nests, r.obj);
      var queue := s.nests[at].pokemons;
      if queue != [] then
        s.(nests := WithQueue(s.nests, at, queue[1..]),
           trainers := s.trainers[t := r.(obj := NONE, pokemons := r.pokemons + [queue[0]])],
           blocked := s.blocked[1..], ready := s.ready + [t], postsPlan := s.postsPlan + 1, token := false)
      else
        s.(blocked := s.blocked[1..] + [t], semAsig := s.semAsig + 1, token := false)
  }

  ghost function Step(s: State, e: Event): State
    requires Good(s) && Enabled(s, e)
  {
    match e
    case Connect(t) => s.(trainers := s.trainers[t := Record(NONE, 1, 1, [])], shaking := s.shaking + [t])
    case ShakeFails(k) => IsPlaced(s, s.shaking[k]); Gone(s, s.shaking[k]).(shaking := Without(s.shaking, k))
    case ShakeDone(k) =>
      s.(shaking := Without(s.shaking, k), ready := s.ready + [s.shaking[k]], postsPlan := s.postsPlan + 1)
    case PostReady => s.(postsPlan := s.postsPlan - 1, semPlan := s.semPlan + 1)
    case PlannerWakes => s.(planner := Woken, semPlan := s.semPlan - 1)
    case Pick(k) => s.(planner := Runs(s.ready[k]), ready := Without(s.ready, k))
    case Ask(id) =>
      IsPlaced(s, s.planner.runner);
      s.(trainers := s.trainers[s.planner.runner := s.trainers[s.planner.runner].(obj := id)])
    case Move(axis) =>
      IsPlaced(s, s.planner.runner);
      s.(trainers := s.trainers[s.planner.runner := Moved(s.trainers[s.planner.runner], axis)])
    case RunnerRequeues => s.(planner := Idle, ready := s.ready + [s.planner.runner], postsPlan := s.postsPlan + 1)
    case RunnerBlocks => s.(planner := Idle, blocked := s.blocked + [s.planner.runner], postsAsig := s.postsAsig + 1)
    case RunnerLeaves => IsPlaced(s, s.planner.runner); Gone(s, s.planner.runner).(planner := Idle)
    case PostBlocked => s.(postsAsig := s.postsAsig - 1, semAsig := s.semAsig + 1)
    case AssignerWakes => s.(token := true, semAsig := s.semAsig - 1)
    case BlockedLeaves(k) => IsPlaced(s, s.blocked[k]); Gone(s, s.blocked[k]).(blocked := Without(s.blocked, k))
    case Serve => Served(s)
    case Sort(t, list) => s.(trainers := s.trainers[t := s.trainers[t].(pokemons := list)])
  }
}

/** Whole runs: any sequence of commands by any players, and what holds in every state they reach. */
module Runs {
  import opened Objects
  import opened Graphs
  import opened Threads
  import opened Commands
  import opened Powers
  import opened Databases
  import opened Play

  datatype Command =
    | Go(exit: Dbref)
    | GoHome
    | Get(thing: Dbref)
    | Drop(thing: Dbref)
    | Open(named: bool, funds: bool, link: bool, room: Dbref, moreFunds: bool)
    | Dig(named: bool, funds: bool)
    | Create(named: bool, funds: bool)
    | CreatePlayer(named: bool)
    | Link(thing: Dbref, room: Dbref, funds: bool)
    | Unlink(exit: Dbref)
    | Chown(thing: Dbref, found: Dbref, me: bool)
    | Recycle(thing: Dbref, recip: Dbref)
    | Set(thing: Dbref, flags: int, key: Lock)
    | Teleport(victim: Dbref, destination: Dbref)
    | MassTeleport(destination: Dbref)
    | Bobble(victim: Dbref, recip: Dbref, recycler: bool)
    | Unbobble(victim: Dbref, named: bool)
    | Kill(victim: Dbref, funds: bool, lucky: bool)

  /**
   The matcher and lookup_player return what they can return. Two commands are restricted beyond that,
   by exactly the conditions of UnlinkSoundIff and UntoadSoundIff.
   */
  ghost predicate Legal(g: Graph, player: Dbref, c: Command) {
    && Ready(g, player)
    && match c
       case Go(exit) => MatchedOn(g, Doors(g.nodes[player].location), exit)
       case Drop(thing) => MatchedOn(g, Inside(player), thing)
       case Get(thing) => Matched(g, thing)
       case CreatePlayer(_) => g.IsRoom(PLAYER_START)
       case Link(thing, _, _) => Matched(g, thing)
       case Unlink(exit) => Matched(g, exit) && !(g.Has(exit) && Controls(g.nodes, player, exit) && g.Carried(exit))
       case Chown(thing, found, _) => Matched(g, thing) && (found == NOTHING || g.IsPlayer(found))
       case Recycle(thing, recip) => Matched(g, thing) && (recip == NOTHING || g.IsPlayer(recip))
       case Set(thing, flags, _) =>
         Matched(g, thing) && (g.Has(thing) ==> Typeof(flags) == Typeof(g.nodes[thing].flags))
       case Teleport(victim, destination) => Matched(g, victim) && Matched(g, destination)
       case MassTeleport(destination) => destination == NOTHING || g.Has(destination)
       case Bobble(victim, recip, _) => Matched(g, victim) && (recip == NOTHING || g.IsPlayer(recip))
       case Unbobble(victim, named) =>
         && Matched(g, victim)
         && !(Untoadable(g, player, victim, named) && !g.IsRoom(g.nodes[victim].location))
       case Kill(victim, _, _) => Matched(g, victim)
       case _ => true
  }

  ghost function Step(g: Graph, player: Dbref, c: Command): (h: Graph)
    requires Legal(g, player, c)
    ensures h.Sound() && RoomsKept(g, h)
  {
    match c
    case Go(exit) => Went(g, player, exit)
    case GoHome => WentHome(g, player)
    case Get(thing) => Got(g, player, thing)
    case Drop(thing) => Dropped(g, player, thing)
    case Open(named, funds, link, room, moreFunds) => Opened(g, player, named, funds, link, room, moreFunds)
    case Dig(named, funds) => Dug(g, player, named, funds)
    case Create(named, funds) => Created(g, player, named, funds)
    case CreatePlayer(named) => PlayerCreated(g, named)
    case Link(thing, room, funds) => LinkSet(g, player, thing, room, funds)
    case Unlink(exit) => UnlinkSoundIff(g, player, exit); Unlinked(g, player, exit)
    case Chown(thing, found, me) => OwnerChanged(g, player, thing, found, me)
    case Recycle(thing, recip) => Recycled(g, player, thing, recip)
    case Set(thing, flags, key) => FlagsSet(g, player, thing, flags, key)
    case Teleport(victim, destination) => Teleported(g, player, victim, destination)
    case MassTeleport(destination) => MassTeleported(g, player, destination)
    case Bobble(victim, recip, recycler) => Toaded(g, player, victim, recip, recycler)
    case Unbobble(victim, named) => UntoadSoundIff(g, player, victim, named); Untoaded(g, player, victim, named)
    case Kill(victim, funds, lucky) => Killed(g, player, victim, funds, lucky)
  }

  datatype Event = Event(player: Dbref, command: Command)

  ghost predicate Moves(g: Graph, e: Event, h: Graph) {
    Legal(g, e.player, e.command) && h == Step(g, e.player, e.command)
  }

  ghost predicate MovesAt(states: seq<Graph>, run: seq<Event>, i: nat)
    requires i < |run| && |states| == |run| + 1
  {
    Moves(states[i], run[i], states[i + 1])
  }

  ghost predicate Trace(states: seq<Graph>, run: seq<Event>) {
    |states| == |run| + 1 && forall i {:trigger MovesAt(states, run, i)} :: 0 <= i < |run| ==> MovesAt(states, run, i)
  }

  /** The run leads from g, by legal steps only, to h. */
  ghost predicate Reaches(g: Graph, run: seq<Event>, h: Graph) {
    exists states :: Trace(states, run) && states[0] == g && states[|run|] == h
  }

  lemma ReachesNothing(g: Graph)
    ensures Reaches(g, [], g)
  {
    assert Trace([g], []);
  }

  lemma ReachesMore(g: Graph, e: Event, m: Graph, run: seq<Event>, h: Graph)
    requires Moves(g, e, m) && Reaches(m, run, h)
    ensures Reaches(g, [e] + run, h)
  {
    var states :| Trace(states, run) && states[0] == m && states[|run|] == h;
    var more, longer := [g] + states, [e] + run;
    forall i | 0 <= i < |longer| ensures MovesAt(more, longer, i) {
      assert i > 0 ==> MovesAt(states, run, i - 1);
    }
    assert Trace(more, longer);
  }

  lemma {:induction false} TraceSound(states: seq<Graph>, run: seq<Event>, i: nat)
    requires Trace(states, run) && i <= |run| && states[0].Sound()
    ensures states[i].Sound() && RoomsKept(states[0], states[i])
  {
    if i > 0 {
      TraceSound(states, run, i - 1);
      assert MovesAt(states, run, i - 1);
    }
  }

  lemma RunKeepsSound(g: Graph, run: seq<Event>, h: Graph)
    requires g.Sound() && Reaches(g, run, h)
    ensures h.Sound() && RoomsKept(g, h)
  {
    var states :| Trace(states, run) && states[0] == g && states[|run|] == h;
    TraceSound(states, run, |run|);
  }

  /** Chains, places, homes and owners are in order, in terms of the fields alone. */
  ghost predicate InOrder(h: Graph) {
    && (forall l, x :: h.Has(l) && h.Has(x) ==> h.ContentsAgree(l, x))
    && (forall x :: h.Has(x) ==> h.OnOneChain(x))
    && (forall x :: h.Has(x) ==> h.FieldsAgree(x))
  }

  /** So they are in every state that any run reaches. */
  lemma ReachableStates(g: Graph, run: seq<Event>, h: Graph)
    requires g.Sound() && Reaches(g, run, h)
    ensures InOrder(h) && RoomsKept(g, h)
  {
    RunKeepsSound(g, run, h);
    SoundMeans(h);
  }

  // ---- The database every server can start from ----

  /** minimal.db: a room and a wizard in it. */
  function MinimalDb(): seq<Object> {
    [MinimalRoom(), MinimalWizard()]
  }

  function MinimalRoom(): Object {
    Object("Room Zero", "You are in Room Zero.  It's very dark here.", NOTHING, 1, NOTHING, NOTHING, Unlocked,
      "", "", "", "is briefly visible through the mist.", 1, 0, TYPE_ROOM, "", 0, 0, 0)
  }

  function MinimalWizard(): Object {
    Object("One", "You see Number One.", 0, NOTHING, 0, NOTHING, Unlocked,
      "", "", "", "", 1, 0, WIZARD + TYPE_PLAYER, "potrzebie", 0, 0, 0)
  }

  function MinimalGraph(): Graph {
    Graph([Node(TYPE_ROOM, NOTHING, NOTHING, 1, Unlocked), Node(WIZARD + TYPE_PLAYER, 0, 0, 1, Unlocked)],
      map[Inside(0) := [1], Doors(0) := [], Inside(1) := []], [Nowhere, Inside(0)])
  }

  lemma MinimalSound()
    ensures MinimalGraph().Sound() && MinimalGraph().IsRoom(PLAYER_START)
  {
    var g := MinimalGraph();
    assert g.NodeSound(0) && g.NodeSound(1);
    forall k | k in g.chain ensures g.Lists(k) {
      assert g.chain[k] == if k == Inside(0) then [1] else [];
    }
  }

  lemma MinimalStored()
    ensures Stores(MinimalDb(), MinimalGraph())
  {
    MinimalSound();
    var db := MinimalDb();
    StoresMinimal(db);
  }

  lemma StoresMinimal(db: seq<Object>)
    requires |db| == 2 && NodeOf(db[0]) == MinimalGraph().nodes[0] && NodeOf(db[1]) == MinimalGraph().nodes[1]
    requires db[0].contents == 1 && db[0].exits == NOTHING && db[1].contents == NOTHING && db[1].next == NOTHING
    ensures Stores(db, MinimalGraph())
  {
    MinimalSound();
    var g := MinimalGraph();
    forall k | k in g.chain ensures Threaded(db, g, k) {
      assert g.chain[k] == if k == Inside(0) then [1] else [];
    }
  }

  /** Everything holds in every state that any run from minimal.db reaches. */
  lemma FromMinimal(run: seq<Event>, h: Graph)
    requires Reaches(MinimalGraph(), run, h)
    ensures InOrder(h) && h.IsRoom(PLAYER_START)
  {
    MinimalSound();
    ReachableStates(MinimalGraph(), run, h);
  }

  // ---- Runs of the database itself ----

  method Perform(d: Database, player: Dbref, c: Command)
    requires d.Valid() && Legal(d.g, player, c)
    modifies d
    ensures d.Valid() && d.g == Step(old(d.g), player, c)
  {
    match c
    case Go(exit) => DoMove(d, player, exit);
    case GoHome => DoHome(d, player);
    case Get(thing) => DoGet(d, player, thing);
    case Drop(thing) => DoDrop(d, player, thing);
    case Open(named, funds, link, room, moreFunds) =>
      DoOpen(d, player, "exit", named, funds, link, room, moreFunds, 0);
    case Dig(named, funds) => DoDig(d, player, "room", named, funds, 0);
    case Create(named, funds) => DoCreate(d, player, "thing", named, funds, 0);
    case CreatePlayer(named) => var p := Play.CreatePlayer(d, "player", "password", named, 0);
    case Link(thing, room, funds) => DoLink(d, player, thing, room, funds);
    case Unlink(exit) => DoUnlink(d, player, exit);
    case Chown(thing, found, me) => DoChown(d, player, thing, found, me);
    case Recycle(thing, recip) => DoRecycle(d, player, thing, recip);
    case Set(thing, flags, key) => DoSet(d, player, thing, flags, key);
    case Teleport(victim, destination) => DoTeleport(d, player, victim, destination);
    case MassTeleport(destination) => DoMassTeleport(d, player, destination);
    case Bobble(victim, recip, recycler) => DoBobble(d, player, victim, recip, recycler);
    case Unbobble(victim, named) => DoUnbobble(d, player, victim, "player", named);
    case Kill(victim, funds, lucky) => DoKill(d, player, victim, funds, lucky);
  }

  ghost predicate LegalRun(g: Graph, run: seq<Event>)
    decreases |run|
  {
    run != [] ==>
      Legal(g, run[0].player, run[0].command) && LegalRun(Step(g, run[0].player, run[0].command), run[1..])
  }

  /** The array, spliced in place through a whole run, stores the graph the run reaches. */
  method PlayRun(d: Database, run: seq<Event>)
    requires d.Valid() && d.g.Sound() && LegalRun(d.g, run)
    modifies d
    ensures d.Valid() && d.g.Sound() && Reaches(old(d.g), run, d.g)
    decreases |run|
  {
    if run == [] {
      ReachesNothing(d.g);
    } else {
      Perform(d, run[0].player, run[0].command);
      ghost var m := d.g;
      PlayRun(d, run[1..]);
      ReachesMore(old(d.g), run[0], m, run[1..], d.g);
      assert [run[0]] + run[1..] == run;
    }
  }
}

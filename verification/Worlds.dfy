/**
 The whole world: the object graph and the names and index of the players, kept in step by all commands, with
 every player that a command looks up by name coming from the index.
 */
module Worlds {
  import opened Objects
  import opened Graphs
  import opened Commands
  import opened Powers
  import opened Names
  import Dirs = Directories
  import Runs
  import Threads

  datatype World = World(g: Graph, d: Dirs.Directory)

  /** Both halves see objects of the same types. */
  ghost predicate Agree(w: World) {
    && |w.g.nodes| == |w.d.db|
    && (forall x :: 0 <= x < |w.d.db| ==> Typeof(w.d.db[x].flags) == Typeof(w.g.nodes[x].flags))
  }

  ghost predicate Sound(table: seq<bv32>, w: World)
    requires IsTable(table)
  {
    w.g.Sound() && w.g.IsRoom(PLAYER_START) && Dirs.Sound(table, w.d) && Agree(w)
  }

  const RECYCLER := "Recycler"

  datatype Deed =
    | Plain(command: Runs.Command)
    | Make(command: Runs.Command, o: Object)
    | NewPlayer(o: Object)
    | Chown(thing: Dbref, name: string, me: bool)
    | Recycle(thing: Dbref)
    | Bobble(victim: Dbref, name: string, recycler: bool)
    | Unbobble(victim: Dbref, name: string)
    | Rename(x: Dbref, name: string, password: string)
    | RenameOther(x: Dbref, name: string)
    | Password(given: string, password: string)
    | NewPassword(name: string, password: string)

  /** Commands that neither make objects nor look players up. */
  predicate IsPlain(c: Runs.Command) {
    c.Go? || c.GoHome? || c.Get? || c.Drop? || c.Link? || c.Unlink? || c.Set? || c.Teleport?
    || c.MassTeleport? || c.Kill?
  }

  /** Commands that make an object, and of which type. */
  predicate Makes(c: Runs.Command, kind: int) {
    (c.Open? && kind == TYPE_EXIT) || (c.Dig? && kind == TYPE_ROOM) || (c.Create? && kind == TYPE_THING)
  }

  /** lookup_player. */
  function Found(table: seq<bv32>, w: World, name: string): Dbref
    requires IsTable(table) && Dirs.InRange(w.d)
  {
    Dirs.Lookup(table, w.d, name)
  }

  /**
   What is asked for is what the matcher can return. Only the three failures that UnlinkSoundIff,
   UntoadSoundIff and RenamedSoundIff single out are left out.
   */
  ghost predicate Legal(table: seq<bv32>, w: World, player: Dbref, e: Deed)
    requires IsTable(table)
  {
    && Ready(w.g, player) && Dirs.InRange(w.d)
    && match e
       case Plain(c) => IsPlain(c) && Runs.Legal(w.g, player, c)
       case Make(c, o) => Makes(c, Typeof(o.flags)) && Runs.Legal(w.g, player, c)
       case NewPlayer(o) => Typeof(o.flags) == TYPE_PLAYER && w.g.IsRoom(PLAYER_START)
       case Chown(thing, _, _) => Matched(w.g, thing)
       case Recycle(thing) => Matched(w.g, thing)
       case Bobble(victim, _, _) => Matched(w.g, victim)
       case Unbobble(victim, name) =>
         && Matched(w.g, victim)
         && !(Untoadable(w.g, player, victim, Dirs.OkPlayerName(table, w.d, name))
              && !w.g.IsRoom(w.g.nodes[victim].location))
       case Rename(x, name, password) =>
         && Dirs.IsPlayer(w.d.db, x) && name != ""
         && !(Controls(w.g.nodes, player, x) && Dirs.Unchecked(w.d, x, password) && !Dirs.Free(w.d, x, name))
       case RenameOther(x, _) => Matched(w.g, x)
       case Password(_, _) => true
       case NewPassword(_, _) => true
  }

  /** Whoever the index finds is a player of the graph. */
  lemma FoundIsPlayer(table: seq<bv32>, w: World, name: string)
    requires IsTable(table) && Sound(table, w)
    ensures Dirs.InRange(w.d)
    ensures Found(table, w, name) == NOTHING || w.g.IsPlayer(Found(table, w, name))
  {
    Dirs.LookupsAgree(table, w.d, name);
  }

  ghost function Chowned(table: seq<bv32>, w: World, player: Dbref, thing: Dbref, name: string, me: bool): World
    requires IsTable(table) && Sound(table, w) && Ready(w.g, player) && Matched(w.g, thing)
  {
    FoundIsPlayer(table, w, name);
    w.(g := OwnerChanged(w.g, player, thing, Found(table, w, name), me))
  }

  ghost function Scrapped(table: seq<bv32>, w: World, player: Dbref, thing: Dbref): World
    requires IsTable(table) && Sound(table, w) && Ready(w.g, player) && Matched(w.g, thing)
  {
    FoundIsPlayer(table, w, RECYCLER);
    w.(g := Recycled(w.g, player, thing, Found(table, w, RECYCLER)))
  }

  ghost function Bobbled(
      table: seq<bv32>, w: World, player: Dbref, victim: Dbref, name: string, recycler: bool): World
    requires IsTable(table) && Sound(table, w) && Ready(w.g, player) && Matched(w.g, victim)
  {
    FoundIsPlayer(table, w, name);
    var recip := Found(table, w, name);
    World(Toaded(w.g, player, victim, recip, recycler),
      if Toadable(w.g, player, victim, recip) then Dirs.Toaded(table, w.d, victim) else w.d)
  }

  ghost function Unbobbled(table: seq<bv32>, w: World, player: Dbref, victim: Dbref, name: string): World
    requires IsTable(table) && Dirs.InRange(w.d) && Agree(w) && Ready(w.g, player) && Matched(w.g, victim)
  {
    var named := Dirs.OkPlayerName(table, w.d, name);
    World(Untoaded(w.g, player, victim, named),
      if Untoadable(w.g, player, victim, named) then Dirs.Untoaded(table, w.d, victim, name) else w.d)
  }

  predicate IsLabel(e: Deed) {
    e.Rename? || e.RenameOther? || e.Password? || e.NewPassword?
  }

  /** The commands about names and passwords. */
  ghost function Labelled(table: seq<bv32>, w: World, player: Dbref, e: Deed): Dirs.Directory
    requires IsTable(table) && Agree(w) && Legal(table, w, player, e) && IsLabel(e)
  {
    match e
    case Rename(x, name, password) =>
      if Controls(w.g.nodes, player, x) then Dirs.Renamed(table, w.d, x, name, password) else w.d
    case RenameOther(x, name) =>
      if w.g.Has(x) && Controls(w.g.nodes, player, x) then Dirs.RenamedOther(w.d, x, name) else w.d
    case Password(given, password) => Dirs.Repassworded(w.d, player, given, password)
    case NewPassword(name, password) =>
      Dirs.NewPassworded(table, w.d, Wizard(w.g.nodes, player), player == GOD, name, password)
  }

  ghost function Step(table: seq<bv32>, w: World, player: Dbref, e: Deed): World
    requires IsTable(table) && Sound(table, w) && Legal(table, w, player, e)
  {
    match e
    case Plain(c) => w.(g := Runs.Step(w.g, player, c))
    case Make(c, o) =>
      var h := Runs.Step(w.g, player, c);
      World(h, if |h.nodes| > |w.g.nodes| then w.d.(db := w.d.db + [o]) else w.d)
    case NewPlayer(o) =>
      World(PlayerCreated(w.g, Dirs.OkPlayerName(table, w.d, o.name) && Dirs.OkPassword(o.password)),
        Dirs.Created(table, w.d, o))
    case Chown(thing, name, me) => Chowned(table, w, player, thing, name, me)
    case Recycle(thing) => Scrapped(table, w, player, thing)
    case Bobble(victim, name, recycler) => Bobbled(table, w, player, victim, name, recycler)
    case Unbobble(victim, name) => Unbobbled(table, w, player, victim, name)
    case _ => w.(d := Labelled(table, w, player, e))
  }

  // ---- The invariant is kept ----

  /** A change of the graph alone. */
  lemma GraphOnly(table: seq<bv32>, w: World, h: Graph)
    requires IsTable(table) && Sound(table, w) && h.Sound() && SameKinds(w.g, h)
    ensures Sound(table, w.(g := h))
  {
  }

  lemma PlainKinds(g: Graph, player: Dbref, c: Runs.Command)
    requires IsPlain(c) && Runs.Legal(g, player, c)
    ensures Runs.Step(g, player, c).Sound() && SameKinds(g, Runs.Step(g, player, c))
  {
  }

  lemma MakeKinds(g: Graph, player: Dbref, c: Runs.Command, kind: int)
    requires Makes(c, kind) && Runs.Legal(g, player, c)
    ensures Runs.Step(g, player, c).Sound() && AddsOne(g, Runs.Step(g, player, c), kind)
  {
  }

  /** A new object that is no player. */
  lemma ObjectAdded(table: seq<bv32>, w: World, h: Graph, o: Object)
    requires IsTable(table) && Sound(table, w) && h.Sound() && AddsOne(w.g, h, Typeof(o.flags))
    requires |h.nodes| > |w.g.nodes| && Typeof(o.flags) != TYPE_PLAYER
    ensures Sound(table, World(h, w.d.(db := w.d.db + [o])))
  {
    Dirs.GrownIndexed(table, w.d, o);
    var d := w.d.(db := w.d.db + [o]);
    assert d.db[|w.d.db| := o] == d.db;
    assert forall y :: Dirs.IsPlayer(d.db, y) <==> Dirs.IsPlayer(w.d.db, y);
  }

  lemma MakeSound(table: seq<bv32>, w: World, player: Dbref, c: Runs.Command, o: Object)
    requires IsTable(table) && Sound(table, w) && Legal(table, w, player, Make(c, o))
    ensures Sound(table, Step(table, w, player, Make(c, o)))
  {
    var h := Runs.Step(w.g, player, c);
    MakeKinds(w.g, player, c, Typeof(o.flags));
    if |h.nodes| > |w.g.nodes| {
      ObjectAdded(table, w, h, o);
    } else {
      GraphOnly(table, w, h);
    }
  }

  /** Both halves are right and see the same types. */
  lemma Together(table: seq<bv32>, g: Graph, d: Dirs.Directory)
    requires IsTable(table) && g.Sound() && g.IsRoom(PLAYER_START) && Dirs.Sound(table, d) && Agree(World(g, d))
    ensures Sound(table, World(g, d))
  {
  }

  lemma NewPlayerSound(table: seq<bv32>, w: World, player: Dbref, o: Object)
    requires IsTable(table) && Sound(table, w) && Legal(table, w, player, NewPlayer(o))
    ensures Sound(table, Step(table, w, player, NewPlayer(o)))
  {
    Dirs.CreatedSound(table, w.d, o);
    var named := Dirs.OkPlayerName(table, w.d, o.name) && Dirs.OkPassword(o.password);
    NewPlayerAgrees(table, w, o, named);
    Together(table, PlayerCreated(w.g, named), Dirs.Created(table, w.d, o));
  }

  lemma NewPlayerAgrees(table: seq<bv32>, w: World, o: Object, named: bool)
    requires IsTable(table) && Agree(w) && Dirs.InRange(w.d) && w.g.Sound() && w.g.IsRoom(PLAYER_START)
    requires Typeof(o.flags) == TYPE_PLAYER
    requires named == (Dirs.OkPlayerName(table, w.d, o.name) && Dirs.OkPassword(o.password))
    ensures Agree(World(PlayerCreated(w.g, named), Dirs.Created(table, w.d, o)))
  {
    if named {
      assert Dirs.Created(table, w.d, o).db == w.d.db + [o];
    }
  }

  lemma BobbleSound(table: seq<bv32>, w: World, player: Dbref, victim: Dbref, name: string, recycler: bool)
    requires IsTable(table) && Sound(table, w) && Ready(w.g, player) && Matched(w.g, victim)
    ensures Sound(table, Bobbled(table, w, player, victim, name, recycler))
  {
    FoundIsPlayer(table, w, name);
    var recip := Found(table, w, name);
    if Toadable(w.g, player, victim, recip) {
      Dirs.ToadedSound(table, w.d, victim);
      ToadAgrees(table, w, victim, recip, recycler);
      Together(table, Toaded(w.g, player, victim, recip, recycler), Dirs.Toaded(table, w.d, victim));
    }
  }

  lemma ToadAgrees(table: seq<bv32>, w: World, victim: Dbref, recip: Dbref, recycler: bool)
    requires IsTable(table) && Agree(w) && Dirs.InRange(w.d) && Dirs.IsPlayer(w.d.db, victim)
    ensures Agree(World(Toad(w.g, victim, recip, recycler), Dirs.Toaded(table, w.d, victim)))
  {
    var h := Toad(w.g, victim, recip, recycler);
    forall x | w.g.Has(x) ensures ToadKind(w.g, h, victim, x) {
      ToadsKind(w.g, victim, recip, recycler, x);
    }
  }

  lemma UnbobbleSound(table: seq<bv32>, w: World, player: Dbref, victim: Dbref, name: string)
    requires IsTable(table) && Sound(table, w) && Legal(table, w, player, Unbobble(victim, name))
    ensures Sound(table, Unbobbled(table, w, player, victim, name))
  {
    var named := Dirs.OkPlayerName(table, w.d, name);
    UntoadSoundIff(w.g, player, victim, named);
    if Untoadable(w.g, player, victim, named) {
      Dirs.UntoadedSound(table, w.d, victim, name);
    }
  }

  lemma RenamedAgrees(table: seq<bv32>, w: World, x: Dbref, name: string, password: string)
    requires IsTable(table) && Agree(w) && Dirs.InRange(w.d) && Dirs.IsPlayer(w.d.db, x)
    ensures Agree(w.(d := Dirs.Renamed(table, w.d, x, name, password)))
  {
  }

  lemma RenameSound(table: seq<bv32>, w: World, player: Dbref, e: Deed)
    requires IsTable(table) && Sound(table, w) && Legal(table, w, player, e) && e.Rename?
    ensures Dirs.Sound(table, Labelled(table, w, player, e)) && Agree(w.(d := Labelled(table, w, player, e)))
  {
    Dirs.RenamedSoundIff(table, w.d, e.x, e.name, e.password);
    RenamedAgrees(table, w, e.x, e.name, e.password);
  }

  lemma RenameOtherSound(table: seq<bv32>, w: World, player: Dbref, e: Deed)
    requires IsTable(table) && Sound(table, w) && Legal(table, w, player, e) && e.RenameOther?
    ensures Dirs.Sound(table, Labelled(table, w, player, e)) && Agree(w.(d := Labelled(table, w, player, e)))
  {
    if w.g.Has(e.x) {
      Dirs.RenamedOtherSound(table, w.d, e.x, e.name);
    }
  }

  lemma PasswordSound(table: seq<bv32>, w: World, player: Dbref, e: Deed)
    requires IsTable(table) && Sound(table, w) && Legal(table, w, player, e) && (e.Password? || e.NewPassword?)
    ensures Dirs.Sound(table, Labelled(table, w, player, e)) && Agree(w.(d := Labelled(table, w, player, e)))
  {
    if e.Password? {
      Dirs.RepasswordedSound(table, w.d, player, e.given, e.password);
    } else {
      Dirs.NewPasswordedSound(table, w.d, Wizard(w.g.nodes, player), player == GOD, e.name, e.password);
    }
  }

  lemma LabelSound(table: seq<bv32>, w: World, player: Dbref, e: Deed)
    requires IsTable(table) && Sound(table, w) && Legal(table, w, player, e) && IsLabel(e)
    ensures Dirs.Sound(table, Labelled(table, w, player, e)) && Agree(w.(d := Labelled(table, w, player, e)))
  {
    if e.Rename? {
      RenameSound(table, w, player, e);
    } else if e.RenameOther? {
      RenameOtherSound(table, w, player, e);
    } else {
      PasswordSound(table, w, player, e);
    }
  }

  lemma StepSound(table: seq<bv32>, w: World, player: Dbref, e: Deed)
    requires IsTable(table) && Sound(table, w) && Legal(table, w, player, e)
    ensures Sound(table, Step(table, w, player, e))
  {
    match e
    case Plain(c) =>
      PlainKinds(w.g, player, c);
      GraphOnly(table, w, Runs.Step(w.g, player, c));
    case Make(c, o) => MakeSound(table, w, player, c, o);
    case NewPlayer(o) => NewPlayerSound(table, w, player, o);
    case Chown(thing, name, me) =>
      FoundIsPlayer(table, w, name);
      GraphOnly(table, w, OwnerChanged(w.g, player, thing, Found(table, w, name), me));
    case Recycle(thing) =>
      FoundIsPlayer(table, w, RECYCLER);
      GraphOnly(table, w, Recycled(w.g, player, thing, Found(table, w, RECYCLER)));
    case Bobble(victim, name, recycler) => BobbleSound(table, w, player, victim, name, recycler);
    case Unbobble(victim, name) => UnbobbleSound(table, w, player, victim, name);
    case _ =>
      LabelSound(table, w, player, e);
      Together(table, w.g, Labelled(table, w, player, e));
  }

  // ---- Whole runs ----

  datatype Event = Event(player: Dbref, deed: Deed)

  ghost predicate Moves(table: seq<bv32>, w: World, e: Event, v: World)
    requires IsTable(table)
  {
    Sound(table, w) && Legal(table, w, e.player, e.deed) && v == Step(table, w, e.player, e.deed)
  }

  lemma NewPlayerMoves(table: seq<bv32>, w: World, player: Dbref, o: Object) returns (v: World)
    requires IsTable(table) && Sound(table, w) && Legal(table, w, player, NewPlayer(o))
    ensures Moves(table, w, Event(player, NewPlayer(o)), v) && Sound(table, v)
    ensures v.d == Dirs.Created(table, w.d, o)
    ensures v.g == PlayerCreated(w.g, Dirs.OkPlayerName(table, w.d, o.name) && Dirs.OkPassword(o.password))
  {
    v := Step(table, w, player, NewPlayer(o));
    StepSound(table, w, player, NewPlayer(o));
  }

  lemma LabelMoves(table: seq<bv32>, w: World, player: Dbref, e: Deed)
    requires IsTable(table) && Sound(table, w) && Legal(table, w, player, e) && IsLabel(e)
    ensures Moves(table, w, Event(player, e), w.(d := Labelled(table, w, player, e)))
    ensures Sound(table, w.(d := Labelled(table, w, player, e)))
  {
    StepSound(table, w, player, e);
  }

  ghost predicate MovesAt(table: seq<bv32>, worlds: seq<World>, run: seq<Event>, i: nat)
    requires IsTable(table) && i < |run| && |worlds| == |run| + 1
  {
    Moves(table, worlds[i], run[i], worlds[i + 1])
  }

  ghost predicate Trace(table: seq<bv32>, worlds: seq<World>, run: seq<Event>)
    requires IsTable(table)
  {
    && |worlds| == |run| + 1
    && (forall i {:trigger MovesAt(table, worlds, run, i)} :: 0 <= i < |run| ==> MovesAt(table, worlds, run, i))
  }

  lemma {:induction false} TraceSound(table: seq<bv32>, worlds: seq<World>, run: seq<Event>, i: nat)
    requires IsTable(table) && Trace(table, worlds, run) && Sound(table, worlds[0]) && i <= |run|
    ensures Sound(table, worlds[i])
  {
    if i > 0 {
      TraceSound(table, worlds, run, i - 1);
      assert MovesAt(table, worlds, run, i - 1);
      StepSound(table, worlds[i - 1], run[i - 1].player, run[i - 1].deed);
    }
  }

  /** That worlds have to be sound to go on from never stops a run: every legal deed leads on. */
  lemma GoesOn(table: seq<bv32>, worlds: seq<World>, run: seq<Event>, e: Event)
    requires IsTable(table) && Trace(table, worlds, run) && Sound(table, worlds[0])
    requires Legal(table, worlds[|run|], e.player, e.deed)
    ensures exists v :: Moves(table, worlds[|run|], e, v) && Trace(table, worlds + [v], run + [e])
  {
    TraceSound(table, worlds, run, |run|);
    var v := Step(table, worlds[|run|], e.player, e.deed);
    var more, longer := worlds + [v], run + [e];
    forall i | 0 <= i < |longer| ensures MovesAt(table, more, longer, i) {
      if i < |run| {
        assert MovesAt(table, worlds, run, i);
      }
    }
    assert Moves(table, worlds[|run|], e, v) && Trace(table, more, longer);
  }

  /** Owners are players of the index, and both lookups agree on every name, which is a player of the graph. */
  lemma WorldMeans(table: seq<bv32>, w: World, name: string)
    requires IsTable(table) && Sound(table, w)
    ensures forall x :: w.g.Has(x) ==> Dirs.IsPlayer(w.d.db, w.g.nodes[x].owner)
    ensures Dirs.InRange(w.d) && Found(table, w, name) == Dirs.Linear(w.d.db, name, 0)
    ensures Found(table, w, name) == NOTHING || w.g.IsPlayer(Found(table, w, name))
  {
    forall x | w.g.Has(x) ensures Dirs.IsPlayer(w.d.db, w.g.nodes[x].owner) {
      assert w.g.NodeSound(x);
    }
    Dirs.LookupsAgree(table, w.d, name);
    FoundIsPlayer(table, w, name);
  }

  /** Graph and directory can be read off one array: any that stores the graph and has the names and passwords. */
  lemma OneArray(table: seq<bv32>, w: World, db: seq<Object>, name: string)
    requires IsTable(table) && Sound(table, w) && Threads.Stores(db, w.g) && Dirs.SameLabels(w.d.db, db)
    ensures Sound(table, World(w.g, Dirs.Directory(db, w.d.index)))
    ensures Dirs.InRange(w.d) && Dirs.InRange(Dirs.Directory(db, w.d.index))
    ensures Found(table, World(w.g, Dirs.Directory(db, w.d.index)), name) == Found(table, w, name)
  {
    Dirs.SoundAlike(table, w.d, Dirs.Directory(db, w.d.index));
    Dirs.IndexedInRange(table, w.d);
    Dirs.FoundAlike(table, w.d, Dirs.Directory(db, w.d.index), name);
  }

  // ---- minimal.db ----

  function MinimalDirectory(table: seq<bv32>): Dirs.Directory
    requires IsTable(table)
  {
    var db := Runs.MinimalDb();
    Dirs.Directory(db, seq(PLAYER_LIST_SIZE, _ => [])[Hash(table, db[1].name) := [1]])
  }

  lemma MinimalIndexed(table: seq<bv32>)
    requires IsTable(table)
    ensures var d := MinimalDirectory(table);
      Dirs.Sound(table, d) && |d.db| == 2 && !Dirs.IsPlayer(d.db, 0) && Dirs.IsPlayer(d.db, 1)
  {
    var d := MinimalDirectory(table);
    assert forall x :: Dirs.IsPlayer(d.db, x) <==> x == 1;
    forall b | 0 <= b < |d.index| ensures Dirs.Bucket(table, d, NOTHING, b) {
      assert d.index[b] == if b == Hash(table, d.db[1].name) then [1] else [];
    }
  }

  /** The world every run can start from. */
  lemma MinimalWorld(table: seq<bv32>)
    requires IsTable(table)
    ensures Sound(table, World(Runs.MinimalGraph(), MinimalDirectory(table)))
  {
    MinimalIndexed(table);
    Runs.MinimalSound();
  }
}

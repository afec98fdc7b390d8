/** How the program gets to where it does what it should not: none of the failures is idle. */
module Witnesses {
  import opened Objects
  import opened Graphs
  import opened Commands
  import opened Powers
  import opened Names
  import opened Dump
  import opened Settling
  import Minimal
  import Runs
  import Threads
  import Worlds
  import Dirs = Directories

  /** Open an exit, pick it up: unlinking it now breaks the world. */
  lemma UnlinkGoesWrong() returns (run: seq<Runs.Event>, h: Graph)
    ensures Runs.Reaches(Runs.MinimalGraph(), run, h)
    ensures Ready(h, 1) && h.Has(2) && h.Carried(2) && !Unlinked(h, 1, 2).Sound()
  {
    var g := Runs.MinimalGraph();
    Runs.MinimalSound();
    var open, get := Runs.Open(true, true, false, NOTHING, false), Runs.Get(2);
    assert Runs.Legal(g, 1, open);
    var m := Runs.Step(g, 1, open);
    assert m.nodes[2] == Node(TYPE_EXIT, NOTHING, NOTHING, 1, Unlocked) && m.chain[Doors(0)] == [2];
    assert Runs.Legal(m, 1, get);
    h := Runs.Step(m, 1, get);
    Runs.ReachesNothing(h);
    Runs.ReachesMore(m, Runs.Event(1, get), h, [], h);
    Runs.ReachesMore(g, Runs.Event(1, open), m, [Runs.Event(1, get)] + [], h);
    run := [Runs.Event(1, open)] + ([Runs.Event(1, get)] + []);
    UnlinkSoundIff(h, 1, 2);
  }

  /** Create a thing: while it is carried, turning it into a player breaks the world. */
  lemma UntoadGoesWrong() returns (run: seq<Runs.Event>, h: Graph)
    ensures Runs.Reaches(Runs.MinimalGraph(), run, h)
    ensures Ready(h, 1) && h.IsThing(2) && !Untoaded(h, 1, 2, true).Sound()
  {
    var g := Runs.MinimalGraph();
    Runs.MinimalSound();
    var create := Runs.Create(true, true);
    assert Runs.Legal(g, 1, create);
    h := Runs.Step(g, 1, create);
    Runs.ReachesNothing(h);
    Runs.ReachesMore(g, Runs.Event(1, create), h, [], h);
    run := [Runs.Event(1, create)] + [];
    assert h.nodes[2] == Node(TYPE_THING, 1, 0, 1, Unlocked);
    UntoadSoundIff(h, 1, 2, true);
  }

  // ---- The index ----

  const NEWCOMER := "Stranger"

  lemma NewcomerIsOk()
    ensures Dirs.OkName(NEWCOMER) && |NEWCOMER| <= Dirs.PLAYER_NAME_LIMIT && Dirs.IsGraphic(NEWCOMER)
  {
    forall i | 0 <= i < |Dirs.RESERVED| ensures !SameName(NEWCOMER, Dirs.RESERVED[i]) {
      assert |Dirs.RESERVED[i]| < |NEWCOMER|;
    }
  }

  /** The new player's record, with any password that create_player takes. */
  function Newcomer(password: string): (o: Object)
    ensures Typeof(o.flags) == TYPE_PLAYER
  {
    Object(NEWCOMER, "", 0, NOTHING, 0, NOTHING, Unlocked, "", "", "", "", 2, 0, TYPE_PLAYER, password, 0, 0, 0)
  }

  /** The wizard is there and the directory is sound; names are what they are, and the newcomer comes third. */
  ghost predicate Manned(table: seq<bv32>, w: Worlds.World, n: nat)
    requires IsTable(table)
  {
    && Worlds.Sound(table, w) && Ready(w.g, 1) && Wizard(w.g.nodes, 1) && |w.d.db| == n
    && Dirs.InRange(w.d) && w.d.db[1].name == Runs.MinimalWizard().name
  }

  /** A player created and given an empty password by the wizard: now any name is stored unchecked. */
  lemma RenameGoesWrong(table: seq<bv32>, password: string)
    returns (worlds: seq<Worlds.World>, run: seq<Worlds.Event>)
    requires IsTable(table) && Dirs.OkPassword(password)
    ensures Worlds.Trace(table, worlds, run) && |run| == 2
    ensures worlds[0] == Worlds.World(Runs.MinimalGraph(), Worlds.MinimalDirectory(table))
    ensures var w := worlds[2];
      && Worlds.Sound(table, w) && Ready(w.g, 1) && Controls(w.g.nodes, 1, 2)
      && Dirs.InRange(w.d) && Dirs.IsPlayer(w.d.db, 2)
      && var name := w.d.db[1].name;
         var e := Dirs.Renamed(table, w.d, 2, name, password);
         Dirs.InRange(e) && Dirs.Lookup(table, e, name) == 2 && Dirs.Linear(e.db, name, 0) == 1
  {
    var a := Starts(table);
    var b, create := Arrives(table, a, password);
    var c, forget := Forgets(table, b);
    worlds, run := [a, b, c], [create, forget];
    TwoMoves(table, worlds, run);
    Clashes(table, c, password);
  }

  lemma Starts(table: seq<bv32>) returns (w: Worlds.World)
    requires IsTable(table)
    ensures w == Worlds.World(Runs.MinimalGraph(), Worlds.MinimalDirectory(table))
    ensures Manned(table, w, 2) && !Dirs.IsPlayer(w.d.db, 0)
  {
    w := Worlds.World(Runs.MinimalGraph(), Worlds.MinimalDirectory(table));
    Worlds.MinimalWorld(table);
    Worlds.MinimalIndexed(table);
    Dirs.IndexedInRange(table, w.d);
  }

  lemma Arrives(table: seq<bv32>, w: Worlds.World, password: string) returns (v: Worlds.World, e: Worlds.Event)
    requires IsTable(table) && Dirs.OkPassword(password) && Manned(table, w, 2) && !Dirs.IsPlayer(w.d.db, 0)
    ensures Worlds.Moves(table, w, e, v)
    ensures Manned(table, v, 3) && Dirs.IsPlayer(v.d.db, 2) && v.d.db[2].name == NEWCOMER
  {
    e := Worlds.Event(1, Worlds.NewPlayer(Newcomer(password)));
    Enters(table, w.d, password);
    Entered(table, w.d, password);
    v := Worlds.NewPlayerMoves(table, w, 1, Newcomer(password));
    assert v.g.nodes[1] == w.g.nodes[1];
    Dirs.IndexedInRange(table, v.d);
  }

  lemma Enters(table: seq<bv32>, d: Dirs.Directory, password: string)
    requires IsTable(table) && Dirs.OkPassword(password) && Dirs.Sound(table, d) && Dirs.InRange(d) && |d.db| == 2
    requires !Dirs.IsPlayer(d.db, 0) && d.db[1].name == Runs.MinimalWizard().name
    ensures Dirs.OkPlayerName(table, d, NEWCOMER)
  {
    NewcomerIsOk();
    assert |d.db[1].name| < |NEWCOMER|;
    Dirs.LookupsAgree(table, d, NEWCOMER);
  }

  lemma Entered(table: seq<bv32>, d: Dirs.Directory, password: string)
    requires IsTable(table) && Dirs.OkPassword(password) && Dirs.InRange(d) && |d.db| == 2
    requires Dirs.OkPlayerName(table, d, NEWCOMER)
    ensures Dirs.Created(table, d, Newcomer(password)).db == d.db + [Newcomer(password)]
  {
    assert (d.db + [Newcomer(password)])[2 := Newcomer(password)] == d.db + [Newcomer(password)];
  }

  lemma Forgets(table: seq<bv32>, w: Worlds.World) returns (v: Worlds.World, e: Worlds.Event)
    requires IsTable(table) && Manned(table, w, 3) && Dirs.IsPlayer(w.d.db, 2) && w.d.db[2].name == NEWCOMER
    ensures Worlds.Moves(table, w, e, v)
    ensures Manned(table, v, 3) && Dirs.IsPlayer(v.d.db, 2) && v.d.db[2].password == "" && v.d.db[2].name == NEWCOMER
  {
    e := Worlds.Event(1, Worlds.NewPassword(NEWCOMER, ""));
    Dirs.LookupIff(table, w.d, NEWCOMER, 2);
    Worlds.LabelMoves(table, w, 1, e.deed);
    v := w.(d := Worlds.Labelled(table, w, 1, e.deed));
    assert v.d.db == w.d.db[2 := w.d.db[2].(password := "")];
    Dirs.IndexedInRange(table, v.d);
  }

  lemma TwoMoves(table: seq<bv32>, worlds: seq<Worlds.World>, run: seq<Worlds.Event>)
    requires IsTable(table) && |worlds| == 3 && |run| == 2
    requires Worlds.Moves(table, worlds[0], run[0], worlds[1]) && Worlds.Moves(table, worlds[1], run[1], worlds[2])
    ensures Worlds.Trace(table, worlds, run)
  {
    assert Worlds.MovesAt(table, worlds, run, 0) && Worlds.MovesAt(table, worlds, run, 1);
    forall i: nat | i < 2 ensures Worlds.MovesAt(table, worlds, run, i) {
      assert i == 0 || i == 1;
    }
  }

  lemma Clashes(table: seq<bv32>, w: Worlds.World, password: string)
    requires IsTable(table) && Dirs.OkPassword(password) && Manned(table, w, 3) && Dirs.IsPlayer(w.d.db, 2)
    requires w.d.db[2].password == "" && w.d.db[2].name == NEWCOMER
    ensures Controls(w.g.nodes, 1, 2)
    ensures var name := w.d.db[1].name;
      var e := Dirs.Renamed(table, w.d, 2, name, password);
      Dirs.InRange(e) && Dirs.Lookup(table, e, name) == 2 && Dirs.Linear(e.db, name, 0) == 1
  {
    Dirs.RenamedDisagrees(table, w.d, 2, w.d.db[1].name, password, 1);
  }

  // ---- The dump ----

  function LongName(): (s: string)
    ensures IsLine(s) && |s| == LINE_MAX
  {
    seq(LINE_MAX, _ => 'x')
  }

  /** The minimal world, but for the name and the description of its room. */
  function LongNamed(): seq<Object> {
    [Runs.MinimalRoom().(name := LongName(), description := "y"), Runs.MinimalWizard()]
  }

  lemma LongNamedIsTidy()
    ensures AllTidy(LongNamed()) && AllSettled(LongNamed(), 1) && |LongNamed()[0].description| < LINE_MAX
    ensures |LongNamed()[0].name| == LINE_MAX && TailSettled(LongNamed()[0]) && !Settled(LongNamed()[0])
  {
    Minimal.RoomSurvives();
    Minimal.WizardSurvives();
    OwnedSettledIff(LongNamed()[0]);
    OwnedSettledIff(LongNamed()[1]);
  }

  lemma LongNamedStored()
    ensures Threads.Stores(LongNamed(), Runs.MinimalGraph())
  {
    Runs.StoresMinimal(LongNamed());
  }

  /** A dump with one line too long is accepted, and the world it holds is sound; but dumped, it is read as another. */
  lemma DumpGoesWrong(refBuf: string, strBuf: string) returns (text: string, db: seq<Object>)
    ensures ReadDump(Reader(text, refBuf, strBuf), []) == Loaded(db) && Threads.Stores(db, Runs.MinimalGraph())
    ensures ReadDump(Reader(DumpText(db, AllCurrent(|db|), 0), refBuf, strBuf), []) != Loaded(db)
  {
    db := LongNamed();
    LongNamedIsTidy();
    LongNamedStored();
    text := JoinedDump(db);
    JoinedLoads(db, Reader(text, refBuf, strBuf));
    DumpRoundTripIff(db, Reader(DumpText(db, AllCurrent(|db|), 0), refBuf, strBuf));
  }
}

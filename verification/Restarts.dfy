/** The server goes down with db_write and comes up with db_read: what it comes up with. */
module Restarts {
  import opened Objects
  import opened Graphs
  import opened Threads
  import opened Databases
  import opened Dump
  import opened DumpFiles
  import opened Settling
  import opened Directories
  import opened PlayerLists
  import Minimal
  import Names
  import Runs
  import Worlds

  method Load(text: string) returns (r: Option<int>, db: seq<Object>)
    ensures Matches(ReadDump(Reader(text, "", ""), []), r, db)
  {
    var source := new Source(text);
    r := source.DbRead();
    db := source.db;
  }

  /** A dump known to be good. */
  method LoadGood(text: string, ghost good: seq<Object>) returns (db: seq<Object>)
    requires ReadDump(Reader(text, "", ""), []) == Loaded(good)
    ensures db == good
  {
    var r;
    r, db := Load(text);
  }

  /** Written and read again, the array is the same exactly if all its objects are settled. */
  method Reload(db: seq<Object>) returns (r: Option<int>, loaded: seq<Object>)
    requires |db| <= 0x8000_0000 && AllTidy(db)
    ensures r == Some(|db|) && loaded == db <==> AllSettled(db, 0)
  {
    var writer := new Writer();
    var n := writer.DbWrite(db);
    r, loaded := Load(writer.out);
    DumpRoundTripIff(db, Reader(writer.out, "", ""));
  }

  /** The index over what has been read. */
  method Enter(db: seq<Object>, table: seq<bv32>) returns (players: PlayerList)
    requires Names.IsTable(table)
    ensures fresh(players) && players.Valid() && players.table == table
    ensures Indexed(table, Directory(db, players.Index()))
  {
    players := new PlayerList(table);
    players.Rebuild(db);
  }

  /** A restart between two commands: the same array, the same world stored in it, and an index for it. */
  method Restart(d: Database, table: seq<bv32>) returns (e: Database, players: PlayerList)
    requires Names.IsTable(table) && d.Valid() && |d.db| <= 0x8000_0000 && AllTidy(d.db) && AllSettled(d.db, 0)
    ensures e.Valid() && e.db == d.db && e.g == d.g
    ensures players.Valid() && players.table == table && Indexed(table, Directory(e.db, players.Index()))
  {
    var r, db := Reload(d.db);
    e := new Database(db, d.g);
    players := Enter(db, table);
  }

  /** Every name is found as before, although the chains of the new index may be in another order. */
  lemma FoundAgain(table: seq<bv32>, d: Directory, e: Directory, name: string)
    requires Names.IsTable(table) && Sound(table, d) && Indexed(table, e) && e.db == d.db
    ensures Sound(table, e) && InRange(d) && InRange(e) && Lookup(table, e, name) == Lookup(table, d, name)
  {
    SameFound(table, d, e, name);
  }

  /** The first start, from the text of minimal.db: the world that all runs begin with. */
  method Boot(table: seq<bv32>) returns (d: Database, players: PlayerList)
    requires Names.IsTable(table)
    ensures fresh(d) && d.Valid() && d.g == Runs.MinimalGraph() && d.db == Runs.MinimalDb()
    ensures players.Valid() && players.table == table
    ensures Worlds.Sound(table, Worlds.World(d.g, Directory(d.db, players.Index())))
  {
    d := LoadMinimal();
    players := Enter(d.db, table);
    BootSound(table, Directory(d.db, players.Index()));
  }

  method LoadMinimal() returns (d: Database)
    ensures fresh(d) && d.Valid() && d.g == Runs.MinimalGraph() && d.db == Runs.MinimalDb()
  {
    var db := ReadMinimal();
    Runs.MinimalStored();
    d := Hold(db, Runs.MinimalGraph());
  }

  method ReadMinimal() returns (db: seq<Object>)
    ensures db == Runs.MinimalDb()
  {
    Minimal.Loads("", "");
    db := LoadGood(Minimal.Text(), Runs.MinimalDb());
  }

  method Hold(db: seq<Object>, ghost g: Graph) returns (d: Database)
    requires Stores(db, g)
    ensures fresh(d) && d.Valid() && d.g == g && d.db == db
  {
    d := new Database(db, g);
  }

  lemma BootSound(table: seq<bv32>, e: Directory)
    requires Names.IsTable(table) && Indexed(table, e) && e.db == Runs.MinimalDb()
    ensures Worlds.Sound(table, Worlds.World(Runs.MinimalGraph(), e))
  {
    Worlds.MinimalWorld(table);
    FoundAgain(table, Worlds.MinimalDirectory(table), e, "");
  }

  /** From the file through any run of commands on the array. */
  method Session(table: seq<bv32>, run: seq<Runs.Event>) returns (d: Database)
    requires Names.IsTable(table) && Runs.LegalRun(Runs.MinimalGraph(), run)
    ensures d.Valid() && Runs.Reaches(Runs.MinimalGraph(), run, d.g)
    ensures Runs.InOrder(d.g) && d.g.IsRoom(PLAYER_START)
  {
    var players;
    d, players := Boot(table);
    Runs.MinimalSound();
    Runs.PlayRun(d, run);
    Runs.FromMinimal(run, d.g);
  }
}

/**
 The commands that keep the player index in step with the database: create_player of src/player.c,
 do_name of src/set.c, do_bobble and do_unbobble of src/wiz.c, with the name checks of src/predicates.c.
 */
module Registries {
  import opened Objects
  import opened LockText
  import opened Names
  import opened Directories
  import opened PlayerLists

  /** word_start. */
  method StartsWord(s: string, c: char) returns (found: bool)
    ensures found == WordStart(s, c)
  {
    var chk := true;
    var i := 0;
    while i < |s|
      invariant 0 <= i <= |s| && chk == (i == 0 || s[i - 1] == ' ')
      invariant forall k :: 0 <= k < i && s[k] == c ==> k != 0 && s[k - 1] != ' '
    {
      if chk && s[i] == c {
        return true;
      }
      chk := s[i] == ' ';
      i := i + 1;
    }
    return false;
  }

  method AllGraphic(s: string) returns (ok: bool)
    ensures ok == IsGraphic(s)
  {
    for i := 0 to |s|
      invariant IsGraphic(s[..i])
    {
      if !('!' <= s[i] <= '~') {
        return false;
      }
    }
    return true;
  }

  /** The name up to the first blank, and what is behind the blanks. */
  method SplitPassword(text: string) returns (name: string, password: string)
    ensures name == text[..WordLength(text)] && password == SkipSpace(text[WordLength(text)..])
  {
    var i := 0;
    while i < |text| && !IsSpace(text[i])
      invariant 0 <= i <= |text| && forall k :: 0 <= k < i ==> !IsSpace(text[k])
    {
      i := i + 1;
    }
    assert i == WordLength(text);
    name := text[..i];
    var j := i;
    while j < |text| && IsSpace(text[j])
      invariant i <= j <= |text| && SkipSpace(text[j..]) == SkipSpace(text[i..])
    {
      assert text[j..][1..] == text[j + 1..];
      j := j + 1;
    }
    password := text[j..];
  }

  /** lookup_player without the index. */
  method LinearLookup(db: seq<Object>, name: string) returns (x: Dbref)
    requires Terminated(db) && '\0' !in name
    ensures x == Linear(db, name, 0)
  {
    var i := 0;
    while i < |db|
      invariant 0 <= i <= |db| && Linear(db, name, i) == Linear(db, name, 0)
    {
      if Typeof(db[i].flags) == TYPE_PLAYER && db[i].name != "" {
        var d := StringCompare(db[i].name, name);
        if d == 0 {
          return i;
        }
      }
      i := i + 1;
    }
    return NOTHING;
  }

  lemma ReservedTerminated(i: nat)
    requires i < |RESERVED|
    ensures '\0' !in RESERVED[i]
  {
  }

  class Registry {
    var db: seq<Object>
    const players: PlayerList

    ghost predicate Valid()
      reads this, players, players.bucket, players.repr
    {
      players.Valid() && Terminated(db) && InRange(Content())
    }

    ghost function Content(): Directory
      reads this, players
    {
      Directory(db, players.Index())
    }

    /** The index as db_read builds it for the objects it has read. */
    constructor (db: seq<Object>, table: seq<bv32>)
      requires IsTable(table) && Terminated(db)
      ensures Valid() && fresh(players) && fresh(players.bucket) && fresh(players.repr)
      ensures this.db == db && players.table == table && Indexed(table, Content())
    {
      var index := new PlayerList(table);
      index.Rebuild(db);
      IndexedInRange(table, Directory(db, index.Index()));
      this.db := db;
      players := index;
    }

    method NameIsOk(name: string) returns (ok: bool)
      requires '\0' !in name
      ensures ok == OkName(name)
    {
      if name == "" || name[0] == '*' || name[0] == '#' || '=' in name || '&' in name || '|' in name {
        return false;
      }
      var bang := StartsWord(name, NOT_TOKEN);
      if bang {
        return false;
      }
      for i := 0 to |RESERVED|
        invariant forall k :: 0 <= k < i ==> !SameName(name, RESERVED[k])
      {
        ReservedTerminated(i);
        var d := StringCompare(name, RESERVED[i]);
        if d == 0 {
          return false;
        }
      }
      return true;
    }

    method PlayerNameIsOk(name: string) returns (ok: bool)
      requires Valid() && '\0' !in name
      ensures ok == OkPlayerName(players.table, Content(), name)
    {
      ok := NameIsOk(name);
      if !ok || |name| > PLAYER_NAME_LIMIT {
        return false;
      }
      ok := AllGraphic(name);
      if ok {
        var x := players.LookupPlayer(db, name);
        return x == NOTHING;
      }
    }

    method CreatePlayer(o: Object) returns (player: Dbref)
      requires Valid() && Typeof(o.flags) == TYPE_PLAYER && '\0' !in o.name
      modifies this, players, players.bucket
      ensures Valid() && fresh(players.repr - old(players.repr))
      ensures Content() == Created(players.table, old(Content()), o)
      ensures player == if db == old(db) then NOTHING else |old(db)|
    {
      var ok := PlayerNameIsOk(o.name);
      if !ok {
        return NOTHING;
      }
      ok := AllGraphic(o.password);
      if !ok || o.password == "" {
        return NOTHING;
      }
      player := |db|;
      ghost var d := Content().(db := db + [o]);
      ReenteredInRange(players.table, d, player, o);
      assert (db + [o])[player := o] == db + [o];
      db := db + [o];
      players.AddPlayer(db, player);
    }

    /** do_name on a player, with the new name and the password already split apart. */
    method RenamePlayer(thing: Dbref, name: string, password: string)
      requires Valid() && IsPlayer(db, thing) && '\0' !in name
      modifies this, players, players.bucket, players.repr
      ensures Valid() && fresh(players.repr - old(players.repr))
      ensures Content() == Renamed(players.table, old(Content()), thing, name, password)
    {
      var o := db[thing];
      if password == "" || o.name == "guest" {
        return;
      } else if o.password == "" {
      } else if password != o.password {
        return;
      } else {
        var d := StringCompare(name, o.name);
        if d != 0 {
          var ok := PlayerNameIsOk(name);
          if !ok {
            return;
          }
        }
      }
      Reenter(thing, o.(name := name, password := password));
    }

    /** do_name on something the player controls. */
    method DoName(thing: Dbref, text: string)
      requires Valid() && 0 <= thing < |db| && '\0' !in text
      modifies this, players, players.bucket, players.repr
      ensures Valid() && fresh(players.repr - old(players.repr))
      ensures Content() == Named(players.table, old(Content()), thing, text)
    {
      if text == "" {
        return;
      }
      if Typeof(db[thing].flags) == TYPE_PLAYER {
        var name, password := SplitPassword(text);
        RenamePlayer(thing, name, password);
      } else {
        RenameOther(thing, text);
      }
    }

    method Store(x: Dbref, o: Object)
      requires Valid() && 0 <= x < |db| && '\0' !in o.name
      modifies this
      ensures Valid() && Content() == Put(old(Content()), x, o)
    {
      db := db[x := o];
    }

    /** do_name on anything but a player. */
    method RenameOther(thing: Dbref, name: string)
      requires Valid() && 0 <= thing < |db| && Typeof(db[thing].flags) != TYPE_PLAYER && '\0' !in name
      modifies this
      ensures Valid() && Content() == RenamedOther(old(Content()), thing, name)
    {
      var ok := NameIsOk(name);
      if ok {
        Store(thing, db[thing].(name := name));
      }
    }

    /** do_password. */
    method SetPassword(player: Dbref, given: string, password: string)
      requires Valid() && 0 <= player < |db|
      modifies this
      ensures Valid() && Content() == Repassworded(old(Content()), player, given, password)
    {
      if db[player].password == "" || given != db[player].password {
        return;
      }
      var ok := AllGraphic(password);
      if ok && password != "" {
        Store(player, db[player].(password := password));
      }
    }

    /** do_newpassword. */
    method NewPassword(wizard: bool, god: bool, name: string, password: string)
      requires Valid() && '\0' !in name
      modifies this
      ensures Valid() && Content() == NewPassworded(players.table, old(Content()), wizard, god, name, password)
    {
      if !wizard {
        return;
      }
      var victim := players.LookupPlayer(db, name);
      if victim == NOTHING {
        return;
      }
      if password != "" {
        var ok := AllGraphic(password);
        if !ok {
          return;
        }
      }
      if victim != GOD || god {
        Store(victim, db[victim].(password := password));
      }
    }

    /** delete_player, the new fields, and add_player if they still make a player. */
    method Reenter(x: Dbref, o: Object)
      requires Valid() && 0 <= x < |db| && '\0' !in o.name
      modifies this, players, players.bucket, players.repr
      ensures Valid() && fresh(players.repr - old(players.repr))
      ensures var d := old(Content());
        Content() == Reentered(players.table, Deleted(players.table, d, x), x, o)
    {
      ReenteredInRange(players.table, Content(), x, o);
      players.DeletePlayer(db, x);
      Enter(x, o);
    }

    method Enter(x: Dbref, o: Object)
      requires Valid() && 0 <= x < |db| && '\0' !in o.name
      modifies this, players, players.bucket
      ensures Valid() && fresh(players.repr - old(players.repr))
      ensures Content() == Reentered(players.table, old(Content()), x, o)
    {
      ReenteredInRange(players.table, Content(), x, o);
      db := db[x := o];
      if Typeof(o.flags) == TYPE_PLAYER {
        players.AddPlayer(db, x);
      }
    }

    /** The part of do_bobble about names; the victim is deleted from the index under its old name. */
    method ToadPlayer(victim: Dbref)
      requires Valid() && IsPlayer(db, victim)
      modifies this, players, players.bucket, players.repr
      ensures Valid() && fresh(players.repr - old(players.repr))
      ensures Content() == Toaded(players.table, old(Content()), victim)
    {
      var o := db[victim];
      Reenter(victim, o.(flags := TYPE_THING, name := TOAD_PREFIX + o.name, password := "", pennies := 1));
    }

    method UntoadThing(victim: Dbref, name: string)
      requires Valid() && 0 <= victim < |db| && '\0' !in name
      modifies this, players, players.bucket
      ensures Valid() && fresh(players.repr - old(players.repr))
      ensures Content() == Untoaded(players.table, old(Content()), victim, name)
    {
      if Typeof(db[victim].flags) != TYPE_THING {
        return;
      }
      var ok := PlayerNameIsOk(name);
      if ok {
        Enter(victim, db[victim].(flags := TYPE_PLAYER, owner := victim, pennies := KILL_BONUS, name := name));
      }
    }
  }
}

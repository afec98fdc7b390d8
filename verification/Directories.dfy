/**
 Looking players up by name: the linear scan of src/player.c, the hash index of src/player_list.c as
 sequences, and the commands that keep the two in step.
 */
module Directories {
  import opened Objects
  import opened Lists
  import opened LockText
  import opened Names

  /** The database, and for every bucket the players on its chain. */
  datatype Directory = Directory(db: seq<Object>, index: seq<seq<Dbref>>)

  predicate IsPlayer(db: seq<Object>, x: Dbref) {
    0 <= x < |db| && Typeof(db[x].flags) == TYPE_PLAYER
  }

  /** The lookup without an index: the first player of that name from i on. */
  function Linear(db: seq<Object>, name: string, i: nat): (x: Dbref)
    requires i <= |db|
    ensures x == NOTHING || (i <= x < |db| && IsPlayer(db, x) && SameName(db[x].name, name))
    ensures forall y :: i <= y < (if x == NOTHING then |db| else x) && IsPlayer(db, y) ==>
              db[y].name == "" || !SameName(db[y].name, name)
    decreases |db| - i
  {
    if i == |db| then NOTHING
    else if IsPlayer(db, i) && db[i].name != "" && SameName(db[i].name, name) then i
    else Linear(db, name, i + 1)
  }

  /** The first player of that name on a chain. */
  function Scan(db: seq<Object>, chain: seq<Dbref>, name: string): (x: Dbref)
    requires forall i :: 0 <= i < |chain| ==> 0 <= chain[i] < |db|
    ensures x == NOTHING || (x in chain && 0 <= x < |db| && SameName(db[x].name, name))
    ensures x == NOTHING ==> forall i :: 0 <= i < |chain| ==> !SameName(db[chain[i]].name, name)
  {
    if chain == [] then NOTHING
    else if SameName(db[chain[0]].name, name) then chain[0]
    else Scan(db, chain[1..], name)
  }

  /** Every player but x is on the chain its name hashes to, once, and nothing else is on any chain. */
  ghost predicate IndexedBut(table: seq<bv32>, d: Directory, x: Dbref)
    requires IsTable(table)
  {
    && |d.index| == PLAYER_LIST_SIZE
    && (forall b {:trigger Bucket(table, d, x, b)} :: 0 <= b < |d.index| ==> Bucket(table, d, x, b))
  }

  ghost predicate Bucket(table: seq<bv32>, d: Directory, x: Dbref, b: nat)
    requires IsTable(table) && b < |d.index|
  {
    && Distinct(d.index[b])
    && (forall y :: y in d.index[b] <==> y != x && IsPlayer(d.db, y) && Hash(table, d.db[y].name) == b)
  }

  ghost predicate Indexed(table: seq<bv32>, d: Directory)
    requires IsTable(table)
  {
    IndexedBut(table, d, NOTHING)
  }

  /** Players have names, and no two the same up to case. */
  ghost predicate Unique(db: seq<Object>) {
    && (forall x :: IsPlayer(db, x) ==> db[x].name != "")
    && (forall x, y :: IsPlayer(db, x) && IsPlayer(db, y) && SameName(db[x].name, db[y].name) ==> x == y)
  }

  ghost predicate Sound(table: seq<bv32>, d: Directory)
    requires IsTable(table)
  {
    Indexed(table, d) && Unique(d.db)
  }

  predicate InRange(d: Directory) {
    && |d.index| == PLAYER_LIST_SIZE
    && (forall b, i :: 0 <= b < |d.index| && 0 <= i < |d.index[b]| ==> 0 <= d.index[b][i] < |d.db|)
  }

  function Lookup(table: seq<bv32>, d: Directory, name: string): Dbref
    requires IsTable(table) && InRange(d)
  {
    Scan(d.db, d.index[Hash(table, name)], name)
  }

  lemma IndexedInRange(table: seq<bv32>, d: Directory)
    requires IsTable(table) && Indexed(table, d)
    ensures InRange(d)
  {
    forall b, i | 0 <= b < |d.index| && 0 <= i < |d.index[b]| ensures 0 <= d.index[b][i] < |d.db| {
      assert Bucket(table, d, NOTHING, b) && d.index[b][i] in d.index[b];
    }
  }

  /** Every player has a name, and no two have this one. */
  ghost predicate UniqueAt(db: seq<Object>, name: string) {
    && (forall x :: IsPlayer(db, x) ==> db[x].name != "")
    && (forall x, y :: IsPlayer(db, x) && IsPlayer(db, y) ==>
          SameName(db[x].name, name) && SameName(db[y].name, name) ==> x == y)
  }

  /** For a name that at most one player has, the index finds what the scan of the whole database finds. */
  lemma LookupsAgreeAt(table: seq<bv32>, d: Directory, name: string)
    requires IsTable(table) && Indexed(table, d) && UniqueAt(d.db, name)
    ensures InRange(d) && Lookup(table, d, name) == Linear(d.db, name, 0)
  {
    IndexedInRange(table, d);
    var x, y := Lookup(table, d, name), Linear(d.db, name, 0);
    var chain := d.index[Hash(table, name)];
    assert Bucket(table, d, NOTHING, Hash(table, name));
    if y != NOTHING {
      SameNameSameHash(table, d.db[y].name, name);
      assert y in chain;
      var i :| 0 <= i < |chain| && chain[i] == y;
      assert x != NOTHING;
    }
    if x != NOTHING {
      assert x in chain && IsPlayer(d.db, x);
      assert y != NOTHING;
    }
  }

  lemma UniqueEverywhere(db: seq<Object>, name: string)
    requires Unique(db)
    ensures UniqueAt(db, name)
  {
    forall x, y | IsPlayer(db, x) && IsPlayer(db, y) && SameName(db[x].name, name) && SameName(db[y].name, name)
      ensures x == y
    {
      SameNameTransitive(name, name, db[y].name);
      SameNameTransitive(db[x].name, name, db[y].name);
    }
  }

  /** The index finds exactly what the scan of the whole database finds. */
  lemma LookupsAgree(table: seq<bv32>, d: Directory, name: string)
    requires IsTable(table) && Sound(table, d)
    ensures InRange(d) && Lookup(table, d, name) == Linear(d.db, name, 0)
  {
    UniqueEverywhere(d.db, name);
    LookupsAgreeAt(table, d, name);
  }

  // ---- Name checks of src/predicates.c ----

  predicate WordStart(s: string, c: char) {
    exists i :: 0 <= i < |s| && s[i] == c && (i == 0 || s[i - 1] == ' ')
  }

  const RESERVED := ["A", "An", "The", "You", "Your", "Going", "Huh?", "[", "me", "home", "here"]

  predicate OkName(name: string) {
    && name != "" && name[0] != '*' && name[0] != '#'
    && '=' !in name && AND_TOKEN !in name && OR_TOKEN !in name
    && !WordStart(name, NOT_TOKEN)
    && (forall i :: 0 <= i < |RESERVED| ==> !SameName(name, RESERVED[i]))
  }

  predicate IsGraphic(s: string) {
    forall i :: 0 <= i < |s| ==> '!' <= s[i] <= '~'
  }

  const PLAYER_NAME_LIMIT := 16
  const KILL_BONUS := 50
  const TOAD_PREFIX := "a slimy toad named "

  predicate OkPlayerName(table: seq<bv32>, d: Directory, name: string)
    requires IsTable(table) && InRange(d)
  {
    OkName(name) && |name| <= PLAYER_NAME_LIMIT && IsGraphic(name) && Lookup(table, d, name) == NOTHING
  }

  predicate OkPassword(password: string) {
    password != "" && IsGraphic(password)
  }

  /** Acceptable names in the user's terms. */
  lemma OkNameIff(name: string)
    ensures OkName(name) <==>
      && name != "" && name[0] !in ['*', '#', '!']
      && (forall c :: c in name ==> c !in ['=', '&', '|'])
      && (forall i :: 0 < i < |name| && name[i] == '!' ==> name[i - 1] != ' ')
      && !Respells(name, "A") && !Respells(name, "An") && !Respells(name, "The") && !Respells(name, "You")
      && !Respells(name, "Your") && !Respells(name, "Going") && !Respells(name, "Huh?") && !Respells(name, "[")
      && !Respells(name, "me") && !Respells(name, "home") && !Respells(name, "here")
  {
    forall i | 0 <= i < |RESERVED| ensures SameName(name, RESERVED[i]) <==> Respells(name, RESERVED[i]) {
      SameNameIff(name, RESERVED[i]);
    }
    ReservedWords(name);
  }

  lemma ReservedWords(name: string)
    ensures (forall i :: 0 <= i < |RESERVED| ==> !Respells(name, RESERVED[i])) <==>
      && !Respells(name, "A") && !Respells(name, "An") && !Respells(name, "The") && !Respells(name, "You")
      && !Respells(name, "Your") && !Respells(name, "Going") && !Respells(name, "Huh?") && !Respells(name, "[")
      && !Respells(name, "me") && !Respells(name, "home") && !Respells(name, "here")
  {
    assert RESERVED[0] == "A" && RESERVED[1] == "An" && RESERVED[2] == "The" && RESERVED[3] == "You";
    assert RESERVED[4] == "Your" && RESERVED[5] == "Going" && RESERVED[6] == "Huh?" && RESERVED[7] == "[";
    assert RESERVED[8] == "me" && RESERVED[9] == "home" && RESERVED[10] == "here";
  }

  lemma GraphicCodes(s: string)
    ensures IsGraphic(s) <==> forall c :: c in s ==> 33 <= c as int <= 126
  {
    if forall c :: c in s ==> 33 <= c as int <= 126 {
      forall i | 0 <= i < |s| ensures '!' <= s[i] <= '~' {
        assert s[i] in s;
      }
    }
  }

  /** A player may be called what is acceptable, has at most 16 characters, none blank, and is not found yet. */
  lemma OkPlayerNameIff(table: seq<bv32>, d: Directory, name: string)
    requires IsTable(table) && Sound(table, d)
    ensures InRange(d)
    ensures OkPlayerName(table, d, name) <==>
      && OkName(name) && |name| <= 16 && (forall c :: c in name ==> 33 <= c as int <= 126)
      && (forall y :: IsPlayer(d.db, y) ==> !Respells(d.db[y].name, name))
  {
    LookupsAgree(table, d, name);
    GraphicCodes(name);
    forall y | IsPlayer(d.db, y) ensures SameName(d.db[y].name, name) <==> Respells(d.db[y].name, name) {
      SameNameIff(d.db[y].name, name);
    }
  }

  // ---- What the commands do to names, players and the index ----

  function Put(d: Directory, x: Dbref, o: Object): Directory
    requires 0 <= x < |d.db|
  {
    d.(db := d.db[x := o])
  }

  /** add_player. */
  function Added(table: seq<bv32>, d: Directory, x: Dbref): Directory
    requires IsTable(table) && |d.index| == PLAYER_LIST_SIZE && 0 <= x < |d.db|
  {
    var h := Hash(table, d.db[x].name);
    d.(index := d.index[h := [x] + d.index[h]])
  }

  /** delete_player. */
  function Deleted(table: seq<bv32>, d: Directory, x: Dbref): Directory
    requires IsTable(table) && |d.index| == PLAYER_LIST_SIZE && 0 <= x < |d.db|
  {
    var h := Hash(table, d.db[x].name);
    d.(index := d.index[h := Without(d.index[h], x)])
  }

  /** Nobody but x is called that. */
  ghost predicate Free(d: Directory, x: Dbref, name: string) {
    forall y :: IsPlayer(d.db, y) && y != x ==> !SameName(d.db[y].name, name)
  }

  /** x, not indexed, gets new fields; afterwards it is indexed if those make it a player. */
  function Reentered(table: seq<bv32>, d: Directory, x: Dbref, o: Object): Directory
    requires IsTable(table) && |d.index| == PLAYER_LIST_SIZE && 0 <= x < |d.db|
  {
    var p := Put(d, x, o);
    if Typeof(o.flags) == TYPE_PLAYER then Added(table, p, x) else p
  }

  lemma DeletedIndexed(table: seq<bv32>, d: Directory, x: Dbref)
    requires IsTable(table) && Indexed(table, d) && IsPlayer(d.db, x)
    ensures IndexedBut(table, Deleted(table, d, x), x)
  {
    var e := Deleted(table, d, x);
    forall b | 0 <= b < |e.index| ensures Bucket(table, e, x, b) {
      assert Bucket(table, d, NOTHING, b);
      WithoutDistinct(d.index[b], x);
    }
  }

  /** The index is right again after x has been put back with any fields. */
  lemma ReenteredIndexed(table: seq<bv32>, d: Directory, x: Dbref, o: Object)
    requires IsTable(table) && IndexedBut(table, d, x) && 0 <= x < |d.db|
    ensures Indexed(table, Reentered(table, d, x, o))
  {
    var e := Reentered(table, d, x, o);
    forall b | 0 <= b < |e.index| ensures Bucket(table, e, NOTHING, b) {
      ReenteredBucket(table, d, x, o, b);
    }
  }

  lemma ReenteredBucket(table: seq<bv32>, d: Directory, x: Dbref, o: Object, b: nat)
    requires IsTable(table) && IndexedBut(table, d, x) && 0 <= x < |d.db| && b < |d.index|
    ensures Bucket(table, Reentered(table, d, x, o), NOTHING, b)
  {
    var e := Reentered(table, d, x, o);
    assert Bucket(table, d, x, b);
    assert forall y :: y != x ==> (IsPlayer(e.db, y) <==> IsPlayer(d.db, y));
    assert x !in d.index[b];
    if Typeof(o.flags) == TYPE_PLAYER && b == Hash(table, o.name) {
      assert e.index[b] == [x] + d.index[b] && e.index[b][0] == x;
      DistinctConcat([x], d.index[b]);
    }
  }

  ghost predicate UniqueBut(db: seq<Object>, x: Dbref) {
    && (forall y :: IsPlayer(db, y) && y != x ==> db[y].name != "")
    && (forall y, z :: IsPlayer(db, y) && IsPlayer(db, z) && y != x && z != x ==>
          SameName(db[y].name, db[z].name) ==> y == z)
  }

  lemma ReenteredUnique(table: seq<bv32>, d: Directory, x: Dbref, o: Object)
    requires IsTable(table) && |d.index| == PLAYER_LIST_SIZE && 0 <= x < |d.db| && UniqueBut(d.db, x)
    requires o.name != ""
    ensures Unique(Reentered(table, d, x, o).db) <==> (Typeof(o.flags) == TYPE_PLAYER ==> Free(d, x, o.name))
  {
    var e := Reentered(table, d, x, o);
    assert forall y :: IsPlayer(e.db, y) && y != x <==> IsPlayer(d.db, y) && y != x;
    if Unique(e.db) && Typeof(o.flags) == TYPE_PLAYER {
      forall y | IsPlayer(d.db, y) && y != x ensures !SameName(d.db[y].name, o.name) {
        assert IsPlayer(e.db, y) && IsPlayer(e.db, x);
      }
    }
    if Typeof(o.flags) == TYPE_PLAYER && Free(d, x, o.name) {
      forall y, z | IsPlayer(e.db, y) && IsPlayer(e.db, z) && SameName(e.db[y].name, e.db[z].name) ensures y == z {
        SameNameTransitive(e.db[y].name, e.db[z].name, e.db[y].name);
        SameNameTransitive(e.db[y].name, e.db[z].name, e.db[z].name);
      }
    }
  }

  /** create_player; o has the given name and the player type. */
  function Created(table: seq<bv32>, d: Directory, o: Object): Directory
    requires IsTable(table) && InRange(d) && Typeof(o.flags) == TYPE_PLAYER
  {
    if !OkPlayerName(table, d, o.name) || !OkPassword(o.password) then d
    else Reentered(table, d.(db := d.db + [o]), |d.db|, o)
  }

  /** Whether do_name gives the player the new name. */
  predicate RenameAccepted(table: seq<bv32>, d: Directory, x: Dbref, name: string, password: string)
    requires IsTable(table) && InRange(d) && IsPlayer(d.db, x)
  {
    var o := d.db[x];
    && password != "" && o.name != "guest"
    && (o.password != "" ==>
          password == o.password && (SameName(name, o.name) || OkPlayerName(table, d, name)))
  }

  /** do_name on a player: with no password stored, the given one is stored and the name is not checked. */
  function Renamed(table: seq<bv32>, d: Directory, x: Dbref, name: string, password: string): Directory
    requires IsTable(table) && InRange(d) && IsPlayer(d.db, x)
  {
    if !RenameAccepted(table, d, x, name, password) then d
    else Reentered(table, Deleted(table, d, x), x, d.db[x].(name := name, password := password))
  }

  /** The part of do_bobble that concerns names. */
  function Toaded(table: seq<bv32>, d: Directory, x: Dbref): Directory
    requires IsTable(table) && InRange(d) && IsPlayer(d.db, x)
  {
    var o := d.db[x];
    Reentered(table, Deleted(table, d, x), x,
      o.(flags := TYPE_THING, name := TOAD_PREFIX + o.name, password := "", pennies := 1))
  }

  /** The part of do_unbobble that concerns names. */
  function Untoaded(table: seq<bv32>, d: Directory, x: Dbref, name: string): Directory
    requires IsTable(table) && InRange(d) && 0 <= x < |d.db|
  {
    if Typeof(d.db[x].flags) != TYPE_THING || !OkPlayerName(table, d, name) then d
    else Reentered(table, d, x, d.db[x].(flags := TYPE_PLAYER, owner := x, pennies := KILL_BONUS, name := name))
  }

  /** do_password. */
  function Repassworded(d: Directory, x: Dbref, given: string, password: string): Directory
    requires 0 <= x < |d.db|
  {
    var o := d.db[x];
    if o.password == "" || given != o.password || !OkPassword(password) then d
    else Put(d, x, o.(password := password))
  }

  /** do_newpassword, for a wizard and for GOD: any good password, or none, for whoever the index finds. */
  function NewPassworded(table: seq<bv32>, d: Directory, wizard: bool, god: bool, name: string, password: string):
    Directory
    requires IsTable(table) && InRange(d)
  {
    var x := Lookup(table, d, name);
    if !wizard || x == NOTHING || (password != "" && !OkPassword(password)) || (x == GOD && !god) then d
    else Put(d, x, d.db[x].(password := password))
  }

  /** do_name on anything but a player. */
  function RenamedOther(d: Directory, x: Dbref, name: string): Directory
    requires 0 <= x < |d.db|
  {
    if Typeof(d.db[x].flags) == TYPE_PLAYER || !OkName(name) then d
    else Put(d, x, d.db[x].(name := name))
  }

  /** The length of the word that starts s. */
  function WordLength(s: string): (n: nat)
    ensures n <= |s| && (n < |s| ==> IsSpace(s[n])) && forall i :: 0 <= i < n ==> !IsSpace(s[i])
  {
    if s == "" || IsSpace(s[0]) then 0 else 1 + WordLength(s[1..])
  }

  /** do_name: a player is given a name and shows the password behind it. */
  function Named(table: seq<bv32>, d: Directory, x: Dbref, text: string): Directory
    requires IsTable(table) && InRange(d) && 0 <= x < |d.db|
  {
    if text == "" then d
    else if IsPlayer(d.db, x) then
      var n := WordLength(text);
      Renamed(table, d, x, text[..n], SkipSpace(text[n..]))
    else RenamedOther(d, x, text)
  }

  lemma ReenteredInRange(table: seq<bv32>, d: Directory, x: Dbref, o: Object)
    requires IsTable(table) && InRange(d) && 0 <= x < |d.db|
    ensures InRange(Deleted(table, d, x)) && InRange(Reentered(table, d, x, o))
  {
    var a, b := Deleted(table, d, x), Reentered(table, d, x, o);
    forall h, i | 0 <= h < |a.index| && 0 <= i < |a.index[h]| ensures 0 <= a.index[h][i] < |a.db| {
      assert a.index[h][i] in a.index[h] && a.index[h][i] in d.index[h];
    }
  }

  /** A name the index does not find is free. */
  lemma NotFoundIsFree(table: seq<bv32>, d: Directory, x: Dbref, name: string)
    requires IsTable(table) && Sound(table, d) && InRange(d) && Lookup(table, d, name) == NOTHING && name != ""
    ensures Free(d, x, name)
  {
    LookupsAgree(table, d, name);
  }

  /** A new object at the end of the database, entered if it is a player, keeps the index right. */
  lemma GrownIndexed(table: seq<bv32>, d: Directory, o: Object)
    requires IsTable(table) && Indexed(table, d)
    ensures Indexed(table, Reentered(table, d.(db := d.db + [o]), |d.db|, o))
  {
    var x := |d.db|;
    var g := d.(db := d.db + [o]);
    forall b | 0 <= b < |g.index| ensures Bucket(table, g, x, b) {
      assert Bucket(table, d, NOTHING, b);
    }
    ReenteredIndexed(table, g, x, o);
  }

  lemma CreatedSound(table: seq<bv32>, d: Directory, o: Object)
    requires IsTable(table) && Sound(table, d) && Typeof(o.flags) == TYPE_PLAYER
    ensures InRange(d) && Sound(table, Created(table, d, o))
  {
    IndexedInRange(table, d);
    if OkPlayerName(table, d, o.name) && OkPassword(o.password) {
      var x := |d.db|;
      var g := d.(db := d.db + [o]);
      NotFoundIsFree(table, d, x, o.name);
      assert forall y :: IsPlayer(g.db, y) && y != x <==> IsPlayer(d.db, y);
      GrownIndexed(table, d, o);
      ReenteredUnique(table, g, x, o);
    }
  }

  /** do_name stores a first password and, without looking whether it is taken, the name. */
  predicate Unchecked(d: Directory, x: Dbref, password: string)
    requires IsPlayer(d.db, x)
  {
    d.db[x].password == "" && password != "" && d.db[x].name != "guest"
  }

  /** Renaming keeps the index right and names unique exactly when no unchecked name is taken by somebody else. */
  lemma RenamedSoundIff(table: seq<bv32>, d: Directory, x: Dbref, name: string, password: string)
    requires IsTable(table) && Sound(table, d) && IsPlayer(d.db, x) && name != ""
    ensures InRange(d)
    ensures Sound(table, Renamed(table, d, x, name, password)) <==>
            !(Unchecked(d, x, password) && !Free(d, x, name))
  {
    IndexedInRange(table, d);
    if RenameAccepted(table, d, x, name, password) {
      var o := d.db[x].(name := name, password := password);
      DeletedIndexed(table, d, x);
      ReenteredIndexed(table, Deleted(table, d, x), x, o);
      ReenteredUnique(table, Deleted(table, d, x), x, o);
      if d.db[x].password != "" {
        if SameName(name, d.db[x].name) {
          forall y | IsPlayer(d.db, y) && y != x ensures !SameName(d.db[y].name, name) {
            if SameName(d.db[y].name, name) {
              SameNameTransitive(d.db[y].name, name, d.db[x].name);
            }
          }
        } else {
          NotFoundIsFree(table, d, x, name);
        }
      }
    }
  }

  /** The index stays right whatever the name, only names may be shared. */
  lemma RenamedIndexed(table: seq<bv32>, d: Directory, x: Dbref, name: string, password: string)
    requires IsTable(table) && Sound(table, d) && IsPlayer(d.db, x)
    ensures InRange(d) && Indexed(table, Renamed(table, d, x, name, password))
    ensures InRange(Renamed(table, d, x, name, password))
  {
    IndexedInRange(table, d);
    if RenameAccepted(table, d, x, name, password) {
      DeletedIndexed(table, d, x);
      ReenteredIndexed(table, Deleted(table, d, x), x, d.db[x].(name := name, password := password));
    }
    IndexedInRange(table, Renamed(table, d, x, name, password));
  }

  /** A taken name whose owner has a lower number: the index finds the player just renamed, the scan the other. */
  lemma RenamedDisagrees(table: seq<bv32>, d: Directory, x: Dbref, name: string, password: string, y: Dbref)
    requires IsTable(table) && Sound(table, d) && IsPlayer(d.db, x) && name != "" && Unchecked(d, x, password)
    requires IsPlayer(d.db, y) && y < x && SameName(d.db[y].name, name)
    ensures InRange(d)
    ensures var e := Renamed(table, d, x, name, password);
      InRange(e) && Lookup(table, e, name) == x && Linear(e.db, name, 0) == y
  {
    RenamedIndexed(table, d, x, name, password);
    var e := Renamed(table, d, x, name, password);
    assert e.index[Hash(table, name)][0] == x;
    assert IsPlayer(e.db, y) && e.db[y] == d.db[y];
    var z := Linear(e.db, name, 0);
    assert z != NOTHING && z <= y && e.db[z] == d.db[z] && IsPlayer(d.db, z);
    SameNameTransitive(name, name, d.db[y].name);
    SameNameTransitive(d.db[z].name, name, d.db[y].name);
  }

  /** A taken name whose owner has a higher number: both find the player just renamed. */
  lemma RenamedShadows(table: seq<bv32>, d: Directory, x: Dbref, name: string, password: string, n: string)
    requires IsTable(table) && Sound(table, d) && IsPlayer(d.db, x) && name != "" && Unchecked(d, x, password)
    requires forall y :: y < x && IsPlayer(d.db, y) ==> !SameName(d.db[y].name, name)
    ensures InRange(d)
    ensures var e := Renamed(table, d, x, name, password);
      && InRange(e) && Lookup(table, e, n) == Linear(e.db, n, 0)
      && (SameName(name, n) ==> Lookup(table, e, n) == x)
  {
    RenamedIndexed(table, d, x, name, password);
    var e := Renamed(table, d, x, name, password);
    if SameName(name, n) {
      SameNameSameHash(table, name, n);
      assert e.index[Hash(table, n)][0] == x;
      forall y | y < x && IsPlayer(d.db, y) ensures !SameName(e.db[y].name, n) {
        assert e.db[y] == d.db[y] && !SameName(d.db[y].name, name);
      }
      assert IsPlayer(e.db, x) && Linear(e.db, n, 0) == x;
    } else {
      UniqueEverywhere(d.db, n);
      assert forall y ::
        IsPlayer(e.db, y) && SameName(e.db[y].name, n) ==> y != x && IsPlayer(d.db, y) && e.db[y] == d.db[y];
      LookupsAgreeAt(table, e, n);
    }
  }

  /** After a renaming the two lookups agree on every name exactly when no unchecked name is a lower player's. */
  lemma RenamedAgreesIff(table: seq<bv32>, d: Directory, x: Dbref, name: string, password: string)
    requires IsTable(table) && Sound(table, d) && IsPlayer(d.db, x) && name != ""
    ensures InRange(d) && InRange(Renamed(table, d, x, name, password))
    ensures var e := Renamed(table, d, x, name, password);
      (forall n :: Lookup(table, e, n) == Linear(e.db, n, 0)) <==>
      !(Unchecked(d, x, password) && exists y :: y < x && IsPlayer(d.db, y) && SameName(d.db[y].name, name))
  {
    RenamedIndexed(table, d, x, name, password);
    var e := Renamed(table, d, x, name, password);
    if Unchecked(d, x, password) {
      if y :| y < x && IsPlayer(d.db, y) && SameName(d.db[y].name, name) {
        RenamedDisagrees(table, d, x, name, password, y);
      } else {
        forall n ensures Lookup(table, e, n) == Linear(e.db, n, 0) {
          RenamedShadows(table, d, x, name, password, n);
        }
      }
    } else {
      RenamedSoundIff(table, d, x, name, password);
      forall n ensures Lookup(table, e, n) == Linear(e.db, n, 0) {
        LookupsAgree(table, e, n);
      }
    }
  }

  lemma ToadedSound(table: seq<bv32>, d: Directory, x: Dbref)
    requires IsTable(table) && Sound(table, d) && IsPlayer(d.db, x)
    ensures InRange(d) && Sound(table, Toaded(table, d, x))
  {
    IndexedInRange(table, d);
    DeletedIndexed(table, d, x);
    var o := d.db[x].(flags := TYPE_THING, name := TOAD_PREFIX + d.db[x].name, password := "", pennies := 1);
    ReenteredIndexed(table, Deleted(table, d, x), x, o);
    ReenteredUnique(table, Deleted(table, d, x), x, o);
  }

  lemma UntoadedSound(table: seq<bv32>, d: Directory, x: Dbref, name: string)
    requires IsTable(table) && Sound(table, d) && 0 <= x < |d.db|
    ensures InRange(d) && Sound(table, Untoaded(table, d, x, name))
  {
    IndexedInRange(table, d);
    if Typeof(d.db[x].flags) == TYPE_THING && OkPlayerName(table, d, name) {
      forall b | 0 <= b < |d.index| ensures Bucket(table, d, x, b) {
        assert Bucket(table, d, NOTHING, b);
      }
      NotFoundIsFree(table, d, x, name);
      var o := d.db[x].(flags := TYPE_PLAYER, owner := x, pennies := KILL_BONUS, name := name);
      ReenteredIndexed(table, d, x, o);
      ReenteredUnique(table, d, x, o);
    }
  }

  /** Nothing depends on the other fields of players, nor on the names of other objects. */
  lemma PutSound(table: seq<bv32>, d: Directory, x: Dbref, o: Object)
    requires IsTable(table) && Sound(table, d) && 0 <= x < |d.db| && Typeof(o.flags) == Typeof(d.db[x].flags)
    requires Typeof(o.flags) == TYPE_PLAYER ==> o.name == d.db[x].name
    ensures Sound(table, Put(d, x, o))
  {
    var e := Put(d, x, o);
    assert forall y :: IsPlayer(e.db, y) <==> IsPlayer(d.db, y);
    assert forall y :: IsPlayer(e.db, y) ==> e.db[y].name == d.db[y].name;
    forall b | 0 <= b < |e.index| ensures Bucket(table, e, NOTHING, b) {
      assert Bucket(table, d, NOTHING, b);
    }
  }

  lemma RepasswordedSound(table: seq<bv32>, d: Directory, x: Dbref, given: string, password: string)
    requires IsTable(table) && Sound(table, d) && 0 <= x < |d.db|
    ensures Sound(table, Repassworded(d, x, given, password))
  {
    PutSound(table, d, x, d.db[x].(password := password));
  }

  lemma NewPasswordedSound(
      table: seq<bv32>, d: Directory, wizard: bool, god: bool, name: string, password: string)
    requires IsTable(table) && Sound(table, d)
    ensures InRange(d) && Sound(table, NewPassworded(table, d, wizard, god, name, password))
  {
    IndexedInRange(table, d);
    var x := Lookup(table, d, name);
    if x != NOTHING {
      PutSound(table, d, x, d.db[x].(password := password));
    }
  }

  lemma RenamedOtherSound(table: seq<bv32>, d: Directory, x: Dbref, name: string)
    requires IsTable(table) && Sound(table, d) && 0 <= x < |d.db|
    ensures Sound(table, RenamedOther(d, x, name))
  {
    if Typeof(d.db[x].flags) != TYPE_PLAYER {
      PutSound(table, d, x, d.db[x].(name := name));
    }
  }

  // ---- What is found afterwards ----

  /** While the directory is sound a lookup finds x exactly when x is a player of that name. */
  lemma LookupIff(table: seq<bv32>, d: Directory, name: string, x: Dbref)
    requires IsTable(table) && Sound(table, d) && x != NOTHING
    ensures InRange(d) && (Lookup(table, d, name) == x <==> IsPlayer(d.db, x) && SameName(d.db[x].name, name))
  {
    LookupsAgree(table, d, name);
    var y := Linear(d.db, name, 0);
    if y != NOTHING && IsPlayer(d.db, x) && SameName(d.db[x].name, name) {
      SameNameTransitive(d.db[y].name, name, d.db[x].name);
      SameNameTransitive(d.db[x].name, name, d.db[y].name);
    }
  }

  /** Two sound directories in which the same players answer to a name find the same. */
  lemma SameFound(table: seq<bv32>, d: Directory, e: Directory, name: string)
    requires IsTable(table) && Sound(table, d) && Sound(table, e)
    requires forall y :: IsPlayer(d.db, y) && SameName(d.db[y].name, name) <==>
                         IsPlayer(e.db, y) && SameName(e.db[y].name, name)
    ensures InRange(d) && InRange(e) && Lookup(table, e, name) == Lookup(table, d, name)
  {
    IndexedInRange(table, d);
    IndexedInRange(table, e);
    var x, y := Lookup(table, d, name), Lookup(table, e, name);
    if x != NOTHING { LookupIff(table, d, name, x); LookupIff(table, e, name, x); }
    if y != NOTHING { LookupIff(table, d, name, y); LookupIff(table, e, name, y); }
  }

  /** A new player is found under its name, and nothing else changes. */
  lemma CreatedFound(table: seq<bv32>, d: Directory, o: Object, name: string)
    requires IsTable(table) && Sound(table, d) && Typeof(o.flags) == TYPE_PLAYER
    requires InRange(d) && OkPlayerName(table, d, o.name) && OkPassword(o.password)
    ensures var e := Created(table, d, o);
      InRange(e) && Lookup(table, e, name) == if SameName(o.name, name) then |d.db| else Lookup(table, d, name)
  {
    CreatedSound(table, d, o);
    var e := Created(table, d, o);
    assert e.db == d.db + [o];
    if SameName(o.name, name) {
      LookupIff(table, e, name, |d.db|);
    } else {
      SameFound(table, d, e, name);
    }
  }

  /** A renamed player is found under the new name, and nobody under the old one. */
  lemma RenamedFound(table: seq<bv32>, d: Directory, x: Dbref, newName: string, password: string, name: string)
    requires IsTable(table) && Sound(table, d) && IsPlayer(d.db, x) && newName != ""
    requires InRange(d) && RenameAccepted(table, d, x, newName, password)
    requires Unchecked(d, x, password) ==> Free(d, x, newName)
    ensures var e := Renamed(table, d, x, newName, password);
      InRange(e) && Lookup(table, e, name) ==
        if SameName(newName, name) then x
        else if SameName(d.db[x].name, name) then NOTHING
        else Lookup(table, d, name)
  {
    RenamedSoundIff(table, d, x, newName, password);
    var e := Renamed(table, d, x, newName, password);
    IndexedInRange(table, e);
    if SameName(newName, name) {
      LookupIff(table, e, name, x);
    } else if SameName(d.db[x].name, name) {
      LostName(table, d, e, x, name);
    } else {
      SameFound(table, d, e, name);
    }
  }

  /** When x gives up the only name it was found under, nobody is found under it. */
  lemma LostName(table: seq<bv32>, d: Directory, e: Directory, x: Dbref, name: string)
    requires IsTable(table) && Sound(table, d) && Sound(table, e) && IsPlayer(d.db, x) && SameName(d.db[x].name, name)
    requires |e.db| == |d.db| && !(IsPlayer(e.db, x) && SameName(e.db[x].name, name))
    requires forall y :: 0 <= y < |d.db| && y != x ==> e.db[y] == d.db[y]
    ensures InRange(e) && Lookup(table, e, name) == NOTHING
  {
    IndexedInRange(table, e);
    var y := Lookup(table, e, name);
    if y != NOTHING {
      LookupIff(table, e, name, y);
      LookupIff(table, d, name, x);
      LookupIff(table, d, name, y);
      assert false;
    }
  }

  /** A toad is not found any more. */
  lemma ToadedFound(table: seq<bv32>, d: Directory, x: Dbref, name: string)
    requires IsTable(table) && Sound(table, d) && IsPlayer(d.db, x) && InRange(d)
    ensures var e := Toaded(table, d, x);
      InRange(e) && Lookup(table, e, name) == if SameName(d.db[x].name, name) then NOTHING else Lookup(table, d, name)
  {
    ToadedSound(table, d, x);
    var e := Toaded(table, d, x);
    if SameName(d.db[x].name, name) {
      LostName(table, d, e, x, name);
    } else {
      SameFound(table, d, e, name);
    }
  }

  /** An untoaded player is found under the name given. */
  lemma UntoadedFound(table: seq<bv32>, d: Directory, x: Dbref, newName: string, name: string)
    requires IsTable(table) && Sound(table, d) && 0 <= x < |d.db| && InRange(d)
    requires Typeof(d.db[x].flags) == TYPE_THING && OkPlayerName(table, d, newName)
    ensures var e := Untoaded(table, d, x, newName);
      InRange(e) && Lookup(table, e, name) == if SameName(newName, name) then x else Lookup(table, d, name)
  {
    UntoadedSound(table, d, x, newName);
    var e := Untoaded(table, d, x, newName);
    if SameName(newName, name) {
      LookupIff(table, e, name, x);
    } else {
      SameFound(table, d, e, name);
    }
  }

  // ---- Whole runs ----

  datatype Event =
    | Create(o: Object)
    | Rename(x: Dbref, name: string, password: string)
    | Toad(x: Dbref)
    | Untoad(x: Dbref, name: string)
    | Password(x: Dbref, given: string, password: string)
    | NewPassword(wizard: bool, god: bool, name: string, password: string)
    | RenameOther(x: Dbref, name: string)

  /** The guards of the commands; the renaming that RenamedSoundIff says goes wrong is left out. */
  ghost predicate Legal(d: Directory, e: Event) {
    match e
    case Create(o) => Typeof(o.flags) == TYPE_PLAYER
    case Rename(x, name, password) =>
      && IsPlayer(d.db, x) && name != ""
      && !(Unchecked(d, x, password) && !Free(d, x, name))
    case Toad(x) => IsPlayer(d.db, x)
    case Untoad(x, _) => 0 <= x < |d.db|
    case Password(x, _, _) => 0 <= x < |d.db|
    case NewPassword(_, _, _, _) => true
    case RenameOther(x, _) => 0 <= x < |d.db|
  }

  ghost function Step(table: seq<bv32>, d: Directory, e: Event): Directory
    requires IsTable(table) && InRange(d) && Legal(d, e)
  {
    match e
    case Create(o) => Created(table, d, o)
    case Rename(x, name, password) => Renamed(table, d, x, name, password)
    case Toad(x) => Toaded(table, d, x)
    case Untoad(x, name) => Untoaded(table, d, x, name)
    case Password(x, given, password) => Repassworded(d, x, given, password)
    case NewPassword(wizard, god, name, password) => NewPassworded(table, d, wizard, god, name, password)
    case RenameOther(x, name) => RenamedOther(d, x, name)
  }

  ghost predicate Reaches(table: seq<bv32>, d: Directory, run: seq<Event>, e: Directory)
    requires IsTable(table)
    decreases |run|
  {
    if run == [] then e == d
    else InRange(d) && Legal(d, run[0]) && Reaches(table, Step(table, d, run[0]), run[1..], e)
  }

  /** After any run of creations, renamings, toadings, untoadings and new passwords both lookups agree on every name. */
  lemma {:induction false} RunsAgree(table: seq<bv32>, d: Directory, run: seq<Event>, e: Directory, name: string)
    requires IsTable(table) && Sound(table, d) && Reaches(table, d, run, e)
    ensures Sound(table, e)
    ensures InRange(e) && Lookup(table, e, name) == Linear(e.db, name, 0)
    decreases |run|
  {
    if run == [] {
      LookupsAgree(table, e, name);
    } else {
      StepSound(table, d, run[0]);
      RunsAgree(table, Step(table, d, run[0]), run[1..], e, name);
    }
  }

  lemma StepSound(table: seq<bv32>, d: Directory, e: Event)
    requires IsTable(table) && Sound(table, d) && Legal(d, e)
    ensures InRange(d) && Sound(table, Step(table, d, e))
  {
    IndexedInRange(table, d);
    match e
    case Create(o) => CreatedSound(table, d, o);
    case Rename(x, name, password) => RenamedSoundIff(table, d, x, name, password);
    case Toad(x) => ToadedSound(table, d, x);
    case Untoad(x, name) => UntoadedSound(table, d, x, name);
    case Password(x, given, password) => RepasswordedSound(table, d, x, given, password);
    case NewPassword(wizard, god, name, password) => NewPasswordedSound(table, d, wizard, god, name, password);
    case RenameOther(x, name) => RenamedOtherSound(table, d, x, name);
  }

  // ---- What all this depends on ----

  /** The same names, passwords and types. */
  predicate SameLabels(a: seq<Object>, b: seq<Object>) {
    && |a| == |b|
    && (forall x :: 0 <= x < |a| ==>
          a[x].name == b[x].name && a[x].password == b[x].password && Typeof(a[x].flags) == Typeof(b[x].flags))
  }

  /** The same index over the same labels. */
  predicate Alike(d: Directory, e: Directory) {
    d.index == e.index && SameLabels(d.db, e.db)
  }

  lemma {:induction false} ScanAlike(a: seq<Object>, b: seq<Object>, chain: seq<Dbref>, name: string)
    requires SameLabels(a, b) && forall i :: 0 <= i < |chain| ==> 0 <= chain[i] < |a|
    ensures Scan(a, chain, name) == Scan(b, chain, name)
  {
    if chain != [] {
      ScanAlike(a, b, chain[1..], name);
    }
  }

  lemma FoundAlike(table: seq<bv32>, d: Directory, e: Directory, name: string)
    requires IsTable(table) && Alike(d, e) && InRange(d)
    ensures InRange(e) && Lookup(table, d, name) == Lookup(table, e, name)
    ensures OkPlayerName(table, d, name) == OkPlayerName(table, e, name)
  {
    ScanAlike(d.db, e.db, d.index[Hash(table, name)], name);
  }

  lemma ReenteredAlike(table: seq<bv32>, d: Directory, e: Directory, x: Dbref, o: Object, p: Object)
    requires IsTable(table) && Alike(d, e) && InRange(d) && 0 <= x < |d.db| && SameLabels([o], [p])
    ensures Alike(Reentered(table, d, x, o), Reentered(table, e, x, p))
  {
    assert [o][0] == o && [p][0] == p;
  }

  lemma RelabelledAlike(table: seq<bv32>, d: Directory, e: Directory, x: Dbref, o: Object, p: Object)
    requires IsTable(table) && Alike(d, e) && InRange(d) && 0 <= x < |d.db| && SameLabels([o], [p])
    ensures Alike(Reentered(table, Deleted(table, d, x), x, o), Reentered(table, Deleted(table, e, x), x, p))
  {
    ReenteredInRange(table, d, x, o);
    ReenteredAlike(table, Deleted(table, d, x), Deleted(table, e, x), x, o, p);
  }

  lemma CreatedAlike(table: seq<bv32>, d: Directory, e: Directory, o: Object)
    requires IsTable(table) && Alike(d, e) && InRange(d) && Typeof(o.flags) == TYPE_PLAYER
    ensures InRange(e) && Alike(Created(table, d, o), Created(table, e, o))
  {
    FoundAlike(table, d, e, o.name);
    ReenteredAlike(table, d.(db := d.db + [o]), e.(db := e.db + [o]), |d.db|, o, o);
  }

  lemma RenamedAlike(table: seq<bv32>, d: Directory, e: Directory, x: Dbref, name: string, password: string)
    requires IsTable(table) && Alike(d, e) && InRange(d) && IsPlayer(d.db, x)
    ensures InRange(e) && Alike(Renamed(table, d, x, name, password), Renamed(table, e, x, name, password))
    ensures Unchecked(d, x, password) == Unchecked(e, x, password) && Free(d, x, name) == Free(e, x, name)
  {
    FoundAlike(table, d, e, name);
    RelabelledAlike(table, d, e, x, d.db[x].(name := name, password := password),
      e.db[x].(name := name, password := password));
    assert forall y :: IsPlayer(d.db, y) <==> IsPlayer(e.db, y);
  }

  lemma ToadedAlike(table: seq<bv32>, d: Directory, e: Directory, x: Dbref)
    requires IsTable(table) && Alike(d, e) && InRange(d) && IsPlayer(d.db, x)
    ensures InRange(e) && Alike(Toaded(table, d, x), Toaded(table, e, x))
  {
    FoundAlike(table, d, e, "");
    var name := TOAD_PREFIX + d.db[x].name;
    RelabelledAlike(table, d, e, x, d.db[x].(flags := TYPE_THING, name := name, password := "", pennies := 1),
      e.db[x].(flags := TYPE_THING, name := name, password := "", pennies := 1));
  }

  lemma UntoadedAlike(table: seq<bv32>, d: Directory, e: Directory, x: Dbref, name: string)
    requires IsTable(table) && Alike(d, e) && InRange(d) && 0 <= x < |d.db|
    ensures InRange(e) && Alike(Untoaded(table, d, x, name), Untoaded(table, e, x, name))
  {
    FoundAlike(table, d, e, name);
    ReenteredAlike(table, d, e, x, d.db[x].(flags := TYPE_PLAYER, owner := x, pennies := KILL_BONUS, name := name),
      e.db[x].(flags := TYPE_PLAYER, owner := x, pennies := KILL_BONUS, name := name));
  }

  /** The commands do the same to names, passwords and index, whatever the other fields hold. */
  lemma StepsAlike(table: seq<bv32>, d: Directory, e: Directory, event: Event)
    requires IsTable(table) && Alike(d, e) && InRange(d) && Legal(d, event)
    ensures InRange(e) && Legal(e, event) && Alike(Step(table, d, event), Step(table, e, event))
  {
    match event
    case Create(o) => CreatedAlike(table, d, e, o);
    case Rename(x, name, password) => RenamedAlike(table, d, e, x, name, password);
    case Toad(x) => ToadedAlike(table, d, e, x);
    case Untoad(x, name) => UntoadedAlike(table, d, e, x, name);
    case NewPassword(_, _, name, _) => FoundAlike(table, d, e, name);
    case _ => FoundAlike(table, d, e, "");
  }

  lemma SoundAlike(table: seq<bv32>, d: Directory, e: Directory)
    requires IsTable(table) && Alike(d, e) && Sound(table, d)
    ensures Sound(table, e)
  {
    assert forall x :: IsPlayer(d.db, x) <==> IsPlayer(e.db, x);
    forall b | 0 <= b < |e.index| ensures Bucket(table, e, NOTHING, b) {
      assert Bucket(table, d, NOTHING, b);
    }
  }
}

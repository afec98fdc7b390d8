/** What the commands on names and passwords do to the records of players, said without the functions that do it. */
module Records {
  import opened Objects
  import opened Names
  import opened Directories
  import opened LockText

  /** No record but that of x is another one. */
  ghost predicate OnlyRecord(d: Directory, e: Directory, x: Dbref) {
    |e.db| == |d.db| && forall y :: 0 <= y < |d.db| && y != x ==> e.db[y] == d.db[y]
  }

  predicate Visible(s: string) {
    forall c :: c in s ==> 33 <= c as int <= 126
  }

  /** A name for a new player: at most 16 visible characters, and nobody has it, however spelt. */
  ghost predicate NewName(d: Directory, name: string) {
    OkName(name) && |name| <= 16 && Visible(name) && forall y :: IsPlayer(d.db, y) ==> !Respells(d.db[y].name, name)
  }

  lemma NewNameIff(table: seq<bv32>, d: Directory, name: string)
    requires IsTable(table) && Sound(table, d)
    ensures InRange(d) && (OkPlayerName(table, d, name) <==> NewName(d, name))
  {
    OkPlayerNameIff(table, d, name);
  }

  lemma VisibleIff(password: string)
    ensures OkPassword(password) <==> password != "" && Visible(password)
  {
    GraphicCodes(password);
  }

  /** create_player: one more record, the one given, if name and password are good. */
  lemma CreateRecord(table: seq<bv32>, d: Directory, o: Object)
    requires IsTable(table) && Sound(table, d) && Typeof(o.flags) == TYPE_PLAYER
    ensures InRange(d)
    ensures Created(table, d, o).db ==
            if NewName(d, o.name) && o.password != "" && Visible(o.password) then d.db + [o] else d.db
  {
    NewNameIff(table, d, o.name);
    VisibleIff(o.password);
    assert (d.db + [o])[|d.db| := o] == d.db + [o];
  }

  /**
   do_name on a player, who needs a password and is no guest: with one stored it must be that one, and the name
   new or the old one respelt; with none stored, any goes and is stored.
   */
  lemma RenameRecord(table: seq<bv32>, d: Directory, x: Dbref, name: string, password: string)
    requires IsTable(table) && Sound(table, d) && IsPlayer(d.db, x)
    ensures InRange(d)
    ensures var e, o := Renamed(table, d, x, name, password), d.db[x];
      && OnlyRecord(d, e, x)
      && e.db[x] ==
         if password != "" && o.name != "guest"
            && (o.password == "" || (password == o.password && (Respells(name, o.name) || NewName(d, name))))
         then o.(name := name, password := password) else o
  {
    NewNameIff(table, d, name);
    SameNameIff(name, d.db[x].name);
  }

  /** The new name ends where blanks begin, and the password where they end. */
  lemma {:induction false} WordEnds(word: string, blanks: string, rest: string)
    requires (forall c :: c in word ==> !IsSpace(c)) && (forall c :: c in blanks ==> IsSpace(c))
    requires rest != "" ==> blanks != "" && !IsSpace(rest[0])
    ensures WordLength(word + (blanks + rest)) == |word|
    ensures SkipSpace(blanks + rest) == rest
  {
    var s := word + (blanks + rest);
    if word != "" {
      assert s[0] == word[0] && word[0] in word && s[1..] == word[1..] + (blanks + rest);
      WordEnds(word[1..], blanks, rest);
    } else {
      BlanksSkipped(blanks, rest);
      assert s == blanks + rest;
      if blanks != "" {
        assert s[0] == blanks[0] && blanks[0] in blanks;
      }
    }
  }

  lemma {:induction false} BlanksSkipped(blanks: string, rest: string)
    requires (forall c :: c in blanks ==> IsSpace(c)) && (rest != "" ==> !IsSpace(rest[0]))
    ensures SkipSpace(blanks + rest) == rest
  {
    if blanks == "" {
      assert blanks + rest == rest;
    } else {
      assert (blanks + rest)[0] == blanks[0] && blanks[0] in blanks && (blanks + rest)[1..] == blanks[1..] + rest;
      BlanksSkipped(blanks[1..], rest);
    }
  }

  /** do_name: a player's new name is the first word and the password all behind the blanks; else all is the name. */
  lemma NameRecord(table: seq<bv32>, d: Directory, x: Dbref, word: string, blanks: string, rest: string)
    requires IsTable(table) && Sound(table, d) && 0 <= x < |d.db| && word != ""
    requires (forall c :: c in word ==> !IsSpace(c)) && (forall c :: c in blanks ==> IsSpace(c))
    requires rest != "" ==> blanks != "" && !IsSpace(rest[0])
    ensures InRange(d)
    ensures var text := word + (blanks + rest);
      var e, o := Named(table, d, x, text), d.db[x];
      && (o.flags % 8 == 3 ==> e == Renamed(table, d, x, word, rest))
      && (o.flags % 8 != 3 ==>
            OnlyRecord(d, e, x) && e.index == d.index && e.db[x] == if OkName(text) then o.(name := text) else o)
  {
    IndexedInRange(table, d);
    WordEnds(word, blanks, rest);
    var text := word + (blanks + rest);
    assert text[..|word|] == word && text[|word|..] == blanks + rest;
  }

  /** do_password: who knows the password may change it to one that can be seen and is not empty. */
  lemma PasswordRecord(d: Directory, x: Dbref, given: string, password: string)
    requires 0 <= x < |d.db|
    ensures var e, o := Repassworded(d, x, given, password), d.db[x];
      && OnlyRecord(d, e, x) && e.index == d.index
      && e.db[x] == if o.password != "" && given == o.password && password != "" && Visible(password)
                    then o.(password := password) else o
  {
    VisibleIff(password);
  }

  /** do_newpassword: a wizard gives the player of that name, however spelt, any such password or none; GOD only GOD. */
  lemma NewPasswordRecord(
      table: seq<bv32>, d: Directory, wizard: bool, god: bool, name: string, password: string, x: Dbref)
    requires IsTable(table) && Sound(table, d) && 0 <= x < |d.db|
    ensures InRange(d)
    ensures var e, o := NewPassworded(table, d, wizard, god, name, password), d.db[x];
      && |e.db| == |d.db| && e.index == d.index
      && e.db[x] == if wizard && IsPlayer(d.db, x) && Respells(o.name, name) && (x != 1 || god) && Visible(password)
                    then o.(password := password) else o
  {
    LookupIff(table, d, name, x);
    SameNameIff(d.db[x].name, name);
    VisibleIff(password);
  }

  /** do_bobble: the name says what it is now, the password is gone, and so is all but a penny. */
  lemma ToadRecord(table: seq<bv32>, d: Directory, x: Dbref)
    requires IsTable(table) && Sound(table, d) && IsPlayer(d.db, x)
    ensures InRange(d)
    ensures var e, o := Toaded(table, d, x), d.db[x];
      && OnlyRecord(d, e, x)
      && e.db[x] == o.(flags := 1, name := "a slimy toad named " + o.name, password := "", pennies := 1)
  {
    IndexedInRange(table, d);
  }

  /** do_unbobble: a thing given a new name is a player that owns itself and has 50 pennies. */
  lemma UntoadRecord(table: seq<bv32>, d: Directory, x: Dbref, name: string)
    requires IsTable(table) && Sound(table, d) && 0 <= x < |d.db|
    ensures InRange(d)
    ensures var e, o := Untoaded(table, d, x, name), d.db[x];
      && OnlyRecord(d, e, x)
      && e.db[x] == if o.flags % 8 == 1 && NewName(d, name)
                    then o.(flags := 3, owner := x, pennies := 50, name := name) else o
  {
    NewNameIff(table, d, name);
  }
}

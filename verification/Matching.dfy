/** src/match.c: what a typed name refers to, for any fall of the coins that break ties. */
module Matching {
  import opened Objects
  import Lists
  import opened Graphs
  import opened Threads
  import opened Databases
  import opened Commands
  import opened Play
  import opened Numbers
  import opened Names
  import opened Aliases
  import LockText
  import Directories
  import PlayerLists

  const NUMBER_TOKEN := '#'
  const LOOKUP_TOKEN := '*'

  /** parse_dbref of src/db.c. */
  function ParseDbref(s: string): Dbref {
    var x := Atol(s);
    var t := LockText.SkipSpace(s);
    if x > 0 then ToInt(x)
    else if x == 0 && t != "" && t[0] == '0' then 0
    else NOTHING
  }

  /** absolute_name in a database of a given size. */
  function AbsoluteName(size: nat, name: string): (x: Dbref)
    ensures x == NOTHING || 0 <= x < size
    ensures x != NOTHING ==> name != "" && name[0] == NUMBER_TOKEN
  {
    if name == "" || name[0] != NUMBER_TOKEN then NOTHING
    else
      var x := ParseDbref(name[1..]);
      if x < 0 || x >= size then NOTHING else x
  }

  /** Every object can be named by its number. */
  lemma AbsoluteNameOf(size: nat, x: Dbref)
    requires 0 <= x < size && IsInt(x)
    ensures AbsoluteName(size, "#" + Decimal(x)) == x
  {
    var t := DecimalNat(x);
    assert t + "" == t && ([NUMBER_TOKEN] + t)[1..] == t;
    AtolDecimal(x, "");
    ToIntFixed(x);
    assert IsDigit(t[0]);
    if x == 0 {
      assert t[0] == '0';
    }
  }

  // ---- Candidates ----

  /** The members of s that the name names in full. */
  ghost function Named(db: seq<Object>, s: seq<Dbref>, name: string): seq<Dbref>
  {
    if s == [] then []
    else
      var x := s[|s| - 1];
      Named(db, s[..|s| - 1], name) + if 0 <= x < |db| && SameName(db[x].name, name) then [x] else []
  }

  /** The other members of s that have a word beginning with the name. */
  ghost function Partly(db: seq<Object>, s: seq<Dbref>, name: string): seq<Dbref>
  {
    if s == [] then []
    else
      var x := s[|s| - 1];
      Partly(db, s[..|s| - 1], name)
      + if 0 <= x < |db| && !SameName(db[x].name, name) && SomeWordHasPrefix(db[x].name, name) then [x] else []
  }

  lemma ListSnoc(db: seq<Object>, s: seq<Dbref>, x: Dbref, name: string)
    requires 0 <= x < |db|
    ensures var full, part := SameName(db[x].name, name), SomeWordHasPrefix(db[x].name, name);
      && Named(db, s + [x], name) == (if full then Named(db, s, name) + [x] else Named(db, s, name))
      && Partly(db, s + [x], name) == (if !full && part then Partly(db, s, name) + [x] else Partly(db, s, name))
  {
    assert (s + [x])[..|s|] == s;
  }

  /** The exits that answer to the name, behind what was found earlier; one called by number displaces the rest. */
  ghost function Answering(db: seq<Object>, found: seq<Dbref>, s: seq<Dbref>, name: string, absolute: Dbref): seq<Dbref>
  {
    if s == [] then found
    else
      var x, p := s[|s| - 1], Answering(db, found, s[..|s| - 1], name, absolute);
      if x == absolute then [x] else if 0 <= x < |db| && Answers(db[x].name, name) then p + [x] else p
  }

  ghost predicate IsList(db: seq<Object>, s: seq<Dbref>) {
    forall x :: x in s ==> 0 <= x < |db|
  }

  /** Who is a candidate, in terms of names alone. */
  lemma {:induction false} CandidatesIff(db: seq<Object>, s: seq<Dbref>, name: string, x: Dbref)
    requires IsList(db, s) && 0 <= x < |db|
    ensures x in Named(db, s, name) <==> x in s && SameName(db[x].name, name)
    ensures x in Partly(db, s, name) <==>
            x in s && !SameName(db[x].name, name) && SomeWordHasPrefix(db[x].name, name)
    ensures x in Answering(db, [], s, name, NOTHING) <==> x in s && Answers(db[x].name, name)
  {
    if s != [] {
      var n := |s| - 1;
      assert s == s[..n] + [s[n]] && s[n] in s;
      assert forall y :: y in s[..n] ==> y in s;
      CandidatesIff(db, s[..n], name, x);
    }
  }

  lemma {:induction false} AnsweringMembers(db: seq<Object>, s: seq<Dbref>, name: string, absolute: Dbref)
    ensures forall x :: x in Answering(db, [], s, name, absolute) ==> x in s
  {
    if s != [] {
      var t := s[..|s| - 1];
      AnsweringMembers(db, t, name, absolute);
      assert s == t + [s[|s| - 1]];
    }
  }

  lemma {:induction false} ListMembers(db: seq<Object>, s: seq<Dbref>, name: string)
    ensures forall x :: x in Named(db, s, name) || x in Partly(db, s, name) ==> x in s
  {
    if s != [] {
      var t := s[..|s| - 1];
      ListMembers(db, t, name);
      assert s == t + [s[|s| - 1]];
    }
  }

  function Only(x: Dbref): seq<Dbref> {
    if x == NOTHING then [] else [x]
  }

  /** s up to the first x. */
  function Before(s: seq<Dbref>, x: Dbref): seq<Dbref> {
    if s == [] || s[0] == x then [] else [s[0]] + Before(s[1..], x)
  }

  lemma {:induction false} BeforeStop(done: seq<Dbref>, todo: seq<Dbref>, x: Dbref)
    requires x !in done && (todo == [] || todo[0] == x)
    ensures Before(done + todo, x) == done
  {
    if done == [] {
      assert done + todo == todo;
    } else {
      assert (done + todo)[1..] == done[1..] + todo;
      BeforeStop(done[1..], todo, x);
    }
  }

  lemma {:induction false} BeforeMembers(s: seq<Dbref>, x: Dbref)
    ensures forall y :: y in Before(s, x) ==> y in s
  {
    if s != [] {
      BeforeMembers(s[1..], x);
    }
  }

  /** The full matches when s is searched after others were found: an object called by number displaces them all. */
  ghost function FullIn(db: seq<Object>, found: seq<Dbref>, s: seq<Dbref>, name: string, absolute: Dbref): seq<Dbref> {
    if absolute in s then [absolute] else found + Named(db, s, name)
  }

  /** The partial matches in s, where an object called by number ends the search. */
  ghost function PartIn(db: seq<Object>, s: seq<Dbref>, name: string, absolute: Dbref): seq<Dbref> {
    Partly(db, Before(s, absolute), name)
  }

  function LastOf(x: Dbref, s: seq<Dbref>): Dbref {
    if s == [] then x else s[|s| - 1]
  }

  lemma OneMore(done: seq<Dbref>, todo: seq<Dbref>)
    requires todo != []
    ensures done + [todo[0]] + todo[1..] == done + todo && todo[0] in done + todo
  {
    assert (done + todo)[|done|] == todo[0];
  }

  // ---- Ranking ----

  /** How a match is being made: for whom, with which preferred type, and whether locks matter. */
  datatype Query = Query(who: Dbref, name: string, preferred: int, checkKeys: bool) {

    /** The preferred type counts first, then whether the lock lets the player pass. */
    predicate Preferred(g: Graph, x: Dbref)
      requires g.Has(x)
    {
      preferred != NOTYPE && Typeof(g.nodes[x].flags) == preferred
    }

    function Rank(g: Graph, x: Dbref): nat
      requires g.Has(who) && g.Has(x)
    {
      (if Preferred(g, x) then 2 else 0) + (if checkKeys && CouldDoit(g, who, x) then 1 else 0)
    }

    /** r is one of the candidates, none of which ranks higher; NOTHING if there are none. */
    ghost predicate Best(g: Graph, candidates: seq<Dbref>, r: Dbref)
      requires g.Has(who)
    {
      && (forall x :: x in candidates ==> g.Has(x))
      && if candidates == [] then r == NOTHING
         else r in candidates && forall x :: x in candidates ==> Rank(g, x) <= Rank(g, r)
    }

    /** The best has the preferred type if any has, and among those of its kind it lets the player pass if any does. */
    lemma BestMeans(g: Graph, candidates: seq<Dbref>, r: Dbref, x: Dbref)
      requires g.Has(who) && Best(g, candidates, r) && x in candidates
      ensures r in candidates && g.Has(r) && g.Has(x)
      ensures var wanted := preferred != NOTYPE && Typeof(g.nodes[x].flags) == preferred;
        var got := preferred != NOTYPE && Typeof(g.nodes[r].flags) == preferred;
        && (wanted ==> got)
        && (wanted == got && checkKeys && CouldDoit(g, who, x) ==> CouldDoit(g, who, r))
    {
    }

    /** One more candidate. */
    lemma BestSnoc(g: Graph, candidates: seq<Dbref>, r: Dbref, x: Dbref, s: Dbref)
      requires g.Has(who) && g.Has(x) && Best(g, candidates, r)
      requires if r == NOTHING then s == x else s in [r, x] && Rank(g, s) >= Rank(g, x) && Rank(g, s) >= Rank(g, r)
      ensures Best(g, candidates + [x], s)
    {
      if candidates != [] {
        assert r in candidates;
      }
    }

    /** Choosing from one list and then from another is choosing from both. */
    lemma BestConcat(g: Graph, a: seq<Dbref>, r: Dbref, b: seq<Dbref>, s: Dbref)
      requires g.Has(who) && Best(g, a, r) && Best(g, Only(r) + b, s)
      ensures Best(g, a + b, s)
    {
      if a != [] {
        assert r in a && r in Only(r) + b;
        assert forall x :: x in b ==> x in Only(r) + b;
      } else {
        assert Only(r) + b == b == a + b;
      }
    }

    /** The same for a list that may hold the object called by number. */
    lemma BestList(g: Graph, db: seq<Object>, a: seq<Dbref>, r: Dbref, list: seq<Dbref>, s: Dbref)
      requires g.Has(who) && Best(g, a, r) && Best(g, FullIn(db, Only(r), list, name, Absolute(g)), s)
      ensures Best(g, FullIn(db, a, list, name, Absolute(g)), s)
    {
      if Absolute(g) !in list {
        BestConcat(g, a, r, Named(db, list, name), s);
      }
    }

    /** The number given in the name, if the player controls that object. */
    ghost function Absolute(g: Graph): Dbref
      requires g.Has(who)
    {
      var x := AbsoluteName(|g.nodes|, name);
      if Controls(g.nodes, who, x) then x else NOTHING
    }

    /** The room the player is in. */
    ghost function Here(g: Graph): (loc: Dbref)
      requires Ready(g, who)
      ensures g.IsRoom(loc)
    {
      assert g.NodeSound(who);
      g.nodes[who].location
    }

    /** The full matches among exits, neighbours and possessions. */
    ghost function Exactly(g: Graph, db: seq<Object>): seq<Dbref>
      requires Ready(g, who)
    {
      var x := Absolute(g);
      var exits := Answering(db, [], g.chain[Doors(Here(g))], name, x);
      FullIn(db, FullIn(db, exits, g.chain[Inside(Here(g))], name, x), g.chain[Inside(who)], name, x)
    }

    /** The other neighbours and possessions with a word that the name begins. */
    ghost function Partially(g: Graph, db: seq<Object>): seq<Dbref>
      requires Ready(g, who)
    {
      PartIn(db, g.chain[Inside(Here(g))], name, Absolute(g)) + PartIn(db, g.chain[Inside(who)], name, Absolute(g))
    }

    /** What the name calls wherever that is; NOTHING if it is not such a name. */
    ghost function Called(g: Graph, table: seq<bv32>, dir: Directories.Directory): Dbref
      requires Ready(g, who) && IsTable(table) && Directories.InRange(dir)
    {
      if SameName(name, "me") then who
      else if SameName(name, "here") then Here(g)
      else if !Wizard(g.nodes, who) || name == "" then NOTHING
      else if name[0] == NUMBER_TOKEN then AbsoluteName(|g.nodes|, name)
      else if name[0] == LOOKUP_TOKEN then Directories.Lookup(table, dir, LockText.SkipSpace(name[1..]))
      else NOTHING
    }
  }

  class Match {
    const q: Query
    var exact: Dbref
    var last: Dbref
    var count: nat

    constructor (q: Query)
      ensures this.q == q && exact == NOTHING && last == NOTHING && count == 0
    {
      this.q := q;
      exact, last, count := NOTHING, NOTHING, 0;
    }

    ghost predicate Valid(g: Graph)
      reads this
    {
      && g.Has(q.who)
      && (exact == NOTHING || g.Has(exact))
      && (last == NOTHING || g.Has(last))
      && (count == 0 <==> last == NOTHING)
    }

    method ChooseThing(d: Database, thing1: Dbref, thing2: Dbref, coin: bool) returns (r: Dbref)
      requires d.Valid() && d.g.Has(q.who)
      requires (thing1 == NOTHING || d.g.Has(thing1)) && (thing2 == NOTHING || d.g.Has(thing2))
      ensures thing1 == NOTHING ==> r == thing2
      ensures thing2 == NOTHING ==> r == thing1
      ensures thing1 != NOTHING && thing2 != NOTHING ==>
        r == (if q.Rank(d.g, thing1) > q.Rank(d.g, thing2) then thing1
              else if q.Rank(d.g, thing2) > q.Rank(d.g, thing1) then thing2
              else if coin then thing1 else thing2)
      ensures thing1 != NOTHING && thing2 != NOTHING ==>
        var kind1 := q.preferred != NOTYPE && Typeof(d.db[thing1].flags) == q.preferred;
        var kind2 := q.preferred != NOTYPE && Typeof(d.db[thing2].flags) == q.preferred;
        var may1, may2 := CouldDoit(d.g, q.who, thing1), CouldDoit(d.g, q.who, thing2);
        r == if kind1 != kind2 then if kind1 then thing1 else thing2
             else if q.checkKeys && may1 != may2 then if may1 then thing1 else thing2
             else if coin then thing1 else thing2
    {
      if thing1 == NOTHING {
        return thing2;
      } else if thing2 == NOTHING {
        return thing1;
      }
      assert d.g.nodes[thing1] == NodeOf(d.db[thing1]) && d.g.nodes[thing2] == NodeOf(d.db[thing2]);
      if q.preferred != NOTYPE {
        if Typeof(d.db[thing1].flags) == q.preferred {
          if Typeof(d.db[thing2].flags) != q.preferred {
            return thing1;
          }
        } else if Typeof(d.db[thing2].flags) == q.preferred {
          return thing2;
        }
      }
      if q.checkKeys {
        var has1 := CouldDo(d, q.who, thing1);
        var has2 := CouldDo(d, q.who, thing2);
        if has1 && !has2 {
          return thing1;
        } else if has2 && !has1 {
          return thing2;
        }
      }
      return if coin then thing1 else thing2;
    }

    /** exact_match = choose_thing(exact_match, x), for either fall of the coin. */
    method Choose(d: Database, x: Dbref, ghost candidates: seq<Dbref>)
      requires d.Valid() && Valid(d.g) && d.g.Has(x) && q.Best(d.g, candidates, exact)
      modifies this`exact
      ensures Valid(d.g) && q.Best(d.g, candidates + [x], exact)
    {
      var coin: bool := *;
      var r := ChooseThing(d, exact, x, coin);
      q.BestSnoc(d.g, candidates, exact, x, r);
      exact := r;
    }

    method FindAbsolute(d: Database) returns (x: Dbref)
      requires d.Valid() && d.g.Has(q.who)
      ensures x == q.Absolute(d.g)
    {
      var nodes := NodesOf(d.db);
      assert nodes == d.g.nodes;
      x := AbsoluteName(|d.db|, q.name);
      if !Controls(nodes, q.who, x) {
        x := NOTHING;
      }
    }

    /** What match_list has found on the objects of s, none of them called by number: full matches, and others. */
    ghost predicate Walked(g: Graph, db: seq<Object>, s: seq<Dbref>, exact0: Dbref, last0: Dbref, count0: nat)
      requires g.Has(q.who)
      reads this
    {
      InFull(g, db, s, exact0) && InPart(db, s, last0, count0)
    }

    ghost predicate InFull(g: Graph, db: seq<Object>, s: seq<Dbref>, exact0: Dbref)
      requires g.Has(q.who)
      reads this`exact
    {
      q.Best(g, Only(exact0) + Named(db, s, q.name), exact)
    }

    ghost predicate InPart(db: seq<Object>, s: seq<Dbref>, last0: Dbref, count0: nat)
      reads this`last, this`count
    {
      var p := Partly(db, s, q.name);
      count == count0 + |p| && last == LastOf(last0, p)
    }

    method ConsiderFull(d: Database, x: Dbref, ghost s: seq<Dbref>, ghost exact0: Dbref) returns (full: bool)
      requires d.Valid() && Valid(d.g) && d.g.Has(x)
      requires PlayerLists.Terminated(d.db) && '\0' !in q.name
      requires InFull(d.g, d.db, s, exact0)
      modifies this`exact
      ensures Valid(d.g) && InFull(d.g, d.db, s + [x], exact0)
      ensures full == SameName(d.db[x].name, q.name)
    {
      ghost var found := Only(exact0) + Named(d.db, s, q.name);
      ListSnoc(d.db, s, x, q.name);
      var c := StringCompare(d.db[x].name, q.name);
      if c == 0 {
        Lists.Regroup(Only(exact0), Named(d.db, s, q.name), [x]);
        Choose(d, x, found);
      }
      return c == 0;
    }

    method ConsiderPart(db: seq<Object>, x: Dbref, ghost s: seq<Dbref>, ghost last0: Dbref, ghost count0: nat)
      requires 0 <= x < |db| && !SameName(db[x].name, q.name)
      requires InPart(db, s, last0, count0) && (count == 0 <==> last == NOTHING)
      modifies this`last, this`count
      ensures InPart(db, s + [x], last0, count0) && (count == 0 <==> last == NOTHING) && last in [old(last), x]
    {
      ListSnoc(db, s, x, q.name);
      var at := StringMatch(db[x].name, q.name);
      if at >= 0 {
        last := x;
        count := count + 1;
      }
    }

    /** One object of a list that is not called by number. */
    method Consider(
        d: Database, x: Dbref, ghost s: seq<Dbref>, ghost exact0: Dbref, ghost last0: Dbref, ghost count0: nat)
      requires d.Valid() && Valid(d.g) && d.g.Has(x)
      requires PlayerLists.Terminated(d.db) && '\0' !in q.name
      requires Walked(d.g, d.db, s, exact0, last0, count0)
      modifies this
      ensures Valid(d.g) && Walked(d.g, d.db, s + [x], exact0, last0, count0)
    {
      var full := ConsiderFull(d, x, s, exact0);
      if full {
        ListSnoc(d.db, s, x, q.name);
        assert InPart(d.db, s + [x], last0, count0);
      } else {
        ConsiderPart(d.db, x, s, last0, count0);
      }
    }

    /** What match_list has found on s. */
    ghost predicate Listed(g: Graph, db: seq<Object>, s: seq<Dbref>, exact0: Dbref, last0: Dbref, count0: nat)
      requires g.Has(q.who)
      reads this
    {
      var p := PartIn(db, s, q.name, q.Absolute(g));
      && q.Best(g, FullIn(db, Only(exact0), s, q.name, q.Absolute(g)), exact)
      && count == count0 + |p| && last == LastOf(last0, p)
    }

    method MatchList(d: Database, head: Dbref, ghost s: seq<Dbref>)
      requires d.Valid() && Valid(d.g) && Strung(d.db, head, s) && PlayerLists.Terminated(d.db) && '\0' !in q.name
      modifies this
      ensures Valid(d.g)
      ensures Listed(d.g, d.db, s, old(exact), old(last), old(count))
    {
      var absolute := FindAbsolute(d);
      var first;
      ghost var done;
      first, done := WalkList(d, head, absolute, s);
      assert Before(s, absolute) == done;
      if first != NOTHING {
        exact := first;
      }
    }

    /** The loop of match_list, up to the object called by number. */
    method WalkList(d: Database, head: Dbref, absolute: Dbref, ghost s: seq<Dbref>)
      returns (first: Dbref, ghost done: seq<Dbref>)
      requires d.Valid() && Valid(d.g) && Strung(d.db, head, s) && PlayerLists.Terminated(d.db) && '\0' !in q.name
      modifies this
      ensures Valid(d.g) && Walked(d.g, d.db, done, old(exact), old(last), old(count)) && done == Before(s, absolute)
      ensures first == NOTHING ==> done == s && absolute !in s
      ensures first != NOTHING ==> first == absolute && first in s && d.g.Has(first)
    {
      first := head;
      ghost var exact0, last0, count0, todo := exact, last, count, s;
      done := [];
      while first != NOTHING && first != absolute
        invariant done + todo == s && Strung(d.db, first, todo)
        invariant Valid(d.g) && absolute !in done
        invariant Walked(d.g, d.db, done, exact0, last0, count0)
        decreases |todo|
      {
        OneMore(done, todo);
        Consider(d, first, done, exact0, last0, count0);
        done, todo := done + [first], todo[1..];
        first := d.db[first].next;
      }
      BeforeStop(done, todo, absolute);
      if first != NOTHING {
        OneMore(done, todo);
      } else {
        assert done == s;
      }
    }

    ghost predicate Exited(g: Graph, db: seq<Object>, s: seq<Dbref>, exact0: Dbref)
      requires g.Has(q.who)
      reads this
    {
      q.Best(g, Answering(db, Only(exact0), s, q.name, q.Absolute(g)), exact)
    }

    /** One exit. */
    method ConsiderExit(d: Database, x: Dbref, absolute: Dbref, ghost s: seq<Dbref>, ghost exact0: Dbref)
      requires d.Valid() && Valid(d.g) && d.g.Has(x) && absolute == q.Absolute(d.g)
      requires Exited(d.g, d.db, s, exact0)
      modifies this`exact
      ensures Valid(d.g) && Exited(d.g, d.db, s + [x], exact0)
    {
      assert (s + [x])[..|s|] == s;
      if x == absolute {
        exact := x;
      } else {
        var hit := ExitAnswers(d.db[x].name, q.name);
        if hit {
          Choose(d, x, Answering(d.db, Only(exact0), s, q.name, absolute));
        }
      }
    }

    /** The loop of match_exit over the exits of a location. */
    method MatchExits(d: Database, head: Dbref, ghost s: seq<Dbref>)
      requires d.Valid() && Valid(d.g) && Strung(d.db, head, s)
      modifies this`exact
      ensures Valid(d.g) && Exited(d.g, d.db, s, old(exact))
    {
      var absolute := FindAbsolute(d);
      var exit := head;
      ghost var exact0, done, todo := exact, [], s;
      while exit != NOTHING
        invariant done + todo == s && Strung(d.db, exit, todo)
        invariant Valid(d.g) && Exited(d.g, d.db, done, exact0)
        decreases |todo|
      {
        ConsiderExit(d, exit, absolute, done, exact0);
        OneMore(done, todo);
        done, todo := done + [exit], todo[1..];
        exit := d.db[exit].next;
      }
      assert done == s;
    }

    method MatchMe()
      requires '\0' !in q.name
      modifies this`exact
      ensures exact == if SameName(q.name, "me") then q.who else old(exact)
    {
      var c := StringCompare(q.name, "me");
      if c == 0 {
        exact := q.who;
      }
    }

    method MatchHere(d: Database)
      requires d.Valid() && d.g.Has(q.who) && '\0' !in q.name
      modifies this`exact
      ensures var loc := d.g.nodes[q.who].location;
        exact == if SameName(q.name, "here") && loc != NOTHING then loc else old(exact)
    {
      assert d.g.nodes[q.who] == NodeOf(d.db[q.who]);
      var c := StringCompare(q.name, "here");
      if c == 0 && d.db[q.who].location != NOTHING {
        exact := d.db[q.who].location;
      }
    }

    method MatchAbsolute(d: Database)
      requires d.Valid()
      modifies this`exact
      ensures var x := AbsoluteName(|d.g.nodes|, q.name); exact == if x != NOTHING then x else old(exact)
    {
      var x := AbsoluteName(|d.db|, q.name);
      if x != NOTHING {
        exact := x;
      }
    }

    method MatchPlayer(d: Database, players: PlayerLists.PlayerList)
      requires players.Valid() && Directories.InRange(Directories.Directory(d.db, players.Index()))
      requires PlayerLists.Terminated(d.db) && '\0' !in q.name
      modifies this`exact
      ensures q.name == "" || q.name[0] != LOOKUP_TOKEN ==> exact == old(exact)
      ensures q.name != "" && q.name[0] == LOOKUP_TOKEN ==>
        var dir := Directories.Directory(d.db, players.Index());
        var x := Directories.Lookup(players.table, dir, LockText.SkipSpace(q.name[1..]));
        exact == if x != NOTHING then x else old(exact)
    {
      if q.name != "" && q.name[0] == LOOKUP_TOKEN {
        var p := SkipBlanks(q.name, 1);
        var x := players.LookupPlayer(d.db, q.name[p..]);
        if x != NOTHING {
          exact := x;
        }
      }
    }

    method MatchResult() returns (r: Dbref)
      ensures exact != NOTHING ==> r == exact
      ensures exact == NOTHING ==> r == if count == 0 then NOTHING else if count == 1 then last else AMBIGUOUS
    {
      if exact != NOTHING {
        return exact;
      }
      match count
      case 0 => return NOTHING;
      case 1 => return last;
      case _ => return AMBIGUOUS;
    }

    // ---- Matching around a player ----

    /** Between commands, the chain at k is the list that its head starts. */
    ghost predicate Around(d: Database, k: Slot)
      reads d
    {
      k in d.g.chain && Strung(d.db, Head(d.db, k), d.g.chain[k]) && NOTHING !in d.g.chain[k]
    }

    lemma ChainAround(d: Database, k: Slot)
      requires d.Valid() && k in d.g.chain
      ensures Around(d, k)
    {
      assert Threaded(d.db, d.g, k) && d.g.Lists(k);
      LinkedStrung(d.db, Head(d.db, k), d.g.chain[k]);
    }

    ghost predicate InRoom(d: Database)
      reads d
    {
      d.Valid() && Ready(d.g, q.who) && PlayerLists.Terminated(d.db) && '\0' !in q.name
    }

    method MatchExit(d: Database)
      requires InRoom(d) && Valid(d.g)
      modifies this`exact
      ensures Valid(d.g) && Exited(d.g, d.db, d.g.chain[Doors(q.Here(d.g))], old(exact))
    {
      ghost var k := Doors(q.Here(d.g));
      assert d.g.nodes[q.who] == NodeOf(d.db[q.who]);
      var loc := d.db[q.who].location;
      if loc != NOTHING {
        ChainAround(d, k);
        MatchExits(d, d.db[loc].exits, d.g.chain[k]);
      }
    }

    method MatchNeighbor(d: Database)
      requires InRoom(d) && Valid(d.g)
      modifies this
      ensures Valid(d.g) && Listed(d.g, d.db, d.g.chain[Inside(q.Here(d.g))], old(exact), old(last), old(count))
    {
      ghost var k := Inside(q.Here(d.g));
      assert d.g.nodes[q.who] == NodeOf(d.db[q.who]);
      var loc := d.db[q.who].location;
      if loc != NOTHING {
        ChainAround(d, k);
        MatchList(d, d.db[loc].contents, d.g.chain[k]);
      }
    }

    method MatchPossession(d: Database)
      requires InRoom(d) && Valid(d.g)
      modifies this
      ensures Valid(d.g) && Listed(d.g, d.db, d.g.chain[Inside(q.who)], old(exact), old(last), old(count))
    {
      ghost var k := Inside(q.who);
      ChainAround(d, k);
      MatchList(d, d.db[q.who].contents, d.g.chain[k]);
    }

    ghost predicate Gathered(g: Graph, db: seq<Object>)
      requires Ready(g, q.who)
      reads this
    {
      var p := q.Partially(g, db);
      q.Best(g, q.Exactly(g, db), exact) && count == |p| && last == LastOf(NOTHING, p)
    }

    method MatchNearby(d: Database)
      requires InRoom(d) && Valid(d.g) && exact == last == NOTHING && count == 0
      modifies this
      ensures Valid(d.g) && Gathered(d.g, d.db)
    {
      MatchExit(d);
      ghost var r := exact;
      MatchNeighbor(d);
      ghost var s, l, c := exact, last, count;
      MatchPossession(d);
      GatheredFrom(d.g, d.db, r, s, l, c);
    }

    /** The three searches one after the other. */
    lemma GatheredFrom(g: Graph, db: seq<Object>, r: Dbref, s: Dbref, l: Dbref, c: nat)
      requires Ready(g, q.who)
      requires q.Best(g, Answering(db, Only(NOTHING), g.chain[Doors(q.Here(g))], q.name, q.Absolute(g)), r)
      requires q.Best(g, FullIn(db, Only(r), g.chain[Inside(q.Here(g))], q.name, q.Absolute(g)), s)
      requires var p := PartIn(db, g.chain[Inside(q.Here(g))], q.name, q.Absolute(g));
        c == |p| && l == LastOf(NOTHING, p)
      requires Listed(g, db, g.chain[Inside(q.who)], s, l, c)
      ensures Gathered(g, db)
    {
      var x := q.Absolute(g);
      var exits := Answering(db, [], g.chain[Doors(q.Here(g))], q.name, x);
      q.BestList(g, db, exits, r, g.chain[Inside(q.Here(g))], s);
      q.BestList(g, db, FullIn(db, exits, g.chain[Inside(q.Here(g))], q.name, x), s, g.chain[Inside(q.who)], exact);
    }

    ghost predicate PlayersFound(d: Database, players: PlayerLists.PlayerList)
      reads d, players, players.bucket, players.repr
    {
      players.Valid() && Directories.InRange(Directories.Directory(d.db, players.Index()))
    }

    /** What the name calls in one of the special ways. */
    ghost function Special(d: Database, players: PlayerLists.PlayerList): Dbref
      requires d.Valid() && Ready(d.g, q.who) && PlayersFound(d, players)
      reads d, players, players.bucket, players.repr
    {
      q.Called(d.g, players.table, Directories.Directory(d.db, players.Index()))
    }

    method MatchEverything(d: Database, players: PlayerLists.PlayerList)
      requires InRoom(d) && Valid(d.g) && exact == last == NOTHING && count == 0 && PlayersFound(d, players)
      modifies this
      ensures Valid(d.g)
      ensures if Special(d, players) == NOTHING then Gathered(d.g, d.db) else exact == Special(d, players)
    {
      MatchNearby(d);
      MatchSpecial(d, players);
    }

    method MatchSpecial(d: Database, players: PlayerLists.PlayerList)
      requires InRoom(d) && Valid(d.g) && PlayersFound(d, players)
      modifies this`exact
      ensures Valid(d.g)
      ensures exact == if Special(d, players) == NOTHING then old(exact) else Special(d, players)
    {
      ghost var here := q.Here(d.g);
      MatchMe();
      MatchHere(d);
      var nodes := NodesOf(d.db);
      assert nodes == d.g.nodes;
      if Wizard(nodes, q.who) {
        MatchAbsolute(d);
        MatchPlayer(d, players);
      }
    }
  }

  /** Unless one is called by number: exits with an alias that fits, and things and players of that name, up to case. */
  lemma ExactlyIff(q: Query, g: Graph, db: seq<Object>, x: Dbref)
    requires Ready(g, q.who) && |db| == |g.nodes| && g.Has(x) && q.name != "" && q.Absolute(g) == NOTHING
    ensures x in q.Exactly(g, db) <==>
            || (g.at[x] == Doors(q.Here(g)) && exists a :: a in AliasesOf(db[x].name) && Fits(a, q.name))
            || (g.at[x] in {Inside(q.Here(g)), Inside(q.who)} && SameName(db[x].name, q.name))
  {
    var d, h, w := g.chain[Doors(q.Here(g))], g.chain[Inside(q.Here(g))], g.chain[Inside(q.who)];
    assert g.Lists(Doors(q.Here(g))) && g.Lists(Inside(q.Here(g))) && g.Lists(Inside(q.who));
    CandidatesIff(db, d, q.name, x);
    CandidatesIff(db, h, q.name, x);
    CandidatesIff(db, w, q.name, x);
    AnswersToAlias(db[x].name, q.name);
  }

  lemma {:induction false} PartlyDistinct(db: seq<Object>, s: seq<Dbref>, name: string)
    requires Lists.Distinct(s)
    ensures Lists.Distinct(Partly(db, s, name))
  {
    if s != [] {
      var t, x := s[..|s| - 1], s[|s| - 1];
      assert Lists.Distinct(t) && x !in t;
      PartlyDistinct(db, t, name);
      ListMembers(db, t, name);
      Lists.DistinctConcat(Partly(db, t, name), if x in Partly(db, s, name) then [x] else []);
    }
  }

  lemma BeforeNothing(s: seq<Dbref>)
    requires NOTHING !in s
    ensures Before(s, NOTHING) == s
  {
    assert s + [] == s;
    BeforeStop(s, [], NOTHING);
  }

  /** Things and players here or carried, not of that name, that have a word beginning with it. */
  ghost predicate HasWord(q: Query, g: Graph, db: seq<Object>, x: Dbref)
    requires g.IsPlayer(q.who) && |db| == |g.nodes| == |g.at|
  {
    && g.Has(x) && (g.at[x] == Inside(g.nodes[q.who].location) || g.at[x] == Inside(q.who))
    && !Respells(db[x].name, q.name)
    && q.name != "" && exists i :: WordAt(db[x].name, i) && HasPrefix(db[x].name[i..], q.name)
  }

  /** Unless one is called by number: the partial matches, each once. */
  lemma PartiallyIff(q: Query, g: Graph, db: seq<Object>)
    requires Ready(g, q.who) && |db| == |g.nodes| && q.Absolute(g) == NOTHING
    ensures Lists.Distinct(q.Partially(g, db))
    ensures forall x :: x in q.Partially(g, db) <==> HasWord(q, g, db, x)
  {
    var h, w := g.chain[Inside(q.Here(g))], g.chain[Inside(q.who)];
    assert g.Lists(Inside(q.Here(g))) && g.Lists(Inside(q.who));
    BeforeNothing(h);
    BeforeNothing(w);
    PartlyDistinct(db, h, q.name);
    PartlyDistinct(db, w, q.name);
    ListMembers(db, h, q.name);
    ListMembers(db, w, q.name);
    assert Inside(q.Here(g)) != Inside(q.who);
    forall x | x in Partly(db, h, q.name) ensures x !in Partly(db, w, q.name) {
      assert x in h && g.at[x] == Inside(q.Here(g));
    }
    Lists.DistinctConcat(Partly(db, h, q.name), Partly(db, w, q.name));
    forall x ensures x in q.Partially(g, db) <==> HasWord(q, g, db, x) {
      if g.Has(x) {
        CandidatesIff(db, h, q.name, x);
        CandidatesIff(db, w, q.name, x);
        SameNameIff(db[x].name, q.name);
      }
    }
  }

  lemma SoleMember(p: seq<Dbref>, has: Dbref -> bool, r: Dbref)
    requires Lists.Distinct(p) && (forall x :: x in p <==> has(x)) && !has(NOTHING) && !has(AMBIGUOUS)
    requires r == if |p| == 1 then p[0] else if p == [] then NOTHING else AMBIGUOUS
    ensures r == NOTHING <==> forall x :: !has(x)
    ensures r == AMBIGUOUS <==> exists x, y :: x != y && has(x) && has(y)
    ensures forall x :: r == x && x != NOTHING && x != AMBIGUOUS ==> has(x)
  {
    assert forall i :: 0 <= i < |p| ==> p[i] in p;
    if p != [] {
      var x := p[0];
      assert x in p;
      assert has(x);
      if |p| >= 2 {
        var y := p[1];
        assert y in p;
        assert has(y) && x != y;
      }
    }
    if x, y :| x != y && has(x) && has(y) {
      assert x in p && y in p;
      var i, j :| 0 <= i < |p| && 0 <= j < |p| && p[i] == x && p[j] == y;
      assert i != j;
    }
  }

  /** With no full match: the one object that has a word beginning with the name, if there is just one. */
  lemma PartialMeans(q: Query, g: Graph, db: seq<Object>, r: Dbref)
    requires Ready(g, q.who) && |db| == |g.nodes| && q.Absolute(g) == NOTHING
    requires var p := q.Partially(g, db); r == if |p| == 1 then p[0] else if p == [] then NOTHING else AMBIGUOUS
    ensures r == NOTHING <==> forall x :: !HasWord(q, g, db, x)
    ensures r == AMBIGUOUS <==> exists x, y :: x != y && HasWord(q, g, db, x) && HasWord(q, g, db, y)
    ensures forall x :: r == x && x != NOTHING && x != AMBIGUOUS ==> HasWord(q, g, db, x)
  {
    PartiallyIff(q, g, db);
    ghost var has := x => HasWord(q, g, db, x);
    assert forall x :: x in q.Partially(g, db) <==> has(x);
    assert forall x :: has(x) <==> HasWord(q, g, db, x);
    SoleMember(q.Partially(g, db), has, r);
  }

  /**
   Resolving any name: what it calls in a special way, else a full match of the highest rank if there is any,
   else the only partial match, else nothing, whatever the order of the lists and however the coins fall.
   */
  method Resolve(d: Database, players: PlayerLists.PlayerList, q: Query) returns (r: Dbref)
    requires d.Valid() && Ready(d.g, q.who) && PlayerLists.Terminated(d.db) && '\0' !in q.name
    requires players.Valid() && Directories.InRange(Directories.Directory(d.db, players.Index()))
    ensures Matched(d.g, r)
    ensures var x := q.Called(d.g, players.table, Directories.Directory(d.db, players.Index()));
      var e, p := q.Exactly(d.g, d.db), q.Partially(d.g, d.db);
      if x != NOTHING then r == x
      else if e != [] then q.Best(d.g, e, r)
      else if |p| == 1 then r == p[0]
      else r == if p == [] then NOTHING else AMBIGUOUS
  {
    var m := new Match(q);
    m.MatchEverything(d, players);
    r := m.MatchResult();
  }

  /** The destination of a mass teleport is searched in ways that never count partial matches. */
  method ResolveDestination(d: Database, player: Dbref, name: string) returns (r: Dbref)
    requires d.Valid() && Ready(d.g, player) && '\0' !in name
    ensures r == NOTHING || d.g.Has(r)
  {
    ghost var here := Query(player, name, TYPE_ROOM, false).Here(d.g);
    var m := new Match(Query(player, name, TYPE_ROOM, false));
    m.MatchHere(d);
    m.MatchAbsolute(d);
    r := m.MatchResult();
  }

  /** Going by name: what match_exit finds is an exit of the player's room, as do_move needs. */
  method ResolveExit(d: Database, player: Dbref, direction: string) returns (r: Dbref)
    requires d.Valid() && Ready(d.g, player) && PlayerLists.Terminated(d.db) && '\0' !in direction
    ensures MatchedOn(d.g, Doors(d.g.nodes[player].location), r)
    ensures var q := Query(player, direction, TYPE_EXIT, true);
      q.Best(d.g, Answering(d.db, [], d.g.chain[Doors(q.Here(d.g))], direction, q.Absolute(d.g)), r)
  {
    var m := new Match(Query(player, direction, TYPE_EXIT, true));
    m.MatchExit(d);
    r := m.MatchResult();
    AnsweringMembers(d.db, d.g.chain[Doors(m.q.Here(d.g))], direction, m.q.Absolute(d.g));
  }

  /** What match_possession finds is among the player's contents, as do_drop needs. */
  method ResolveCarried(d: Database, player: Dbref, name: string) returns (r: Dbref)
    requires d.Valid() && Ready(d.g, player) && PlayerLists.Terminated(d.db) && '\0' !in name
    ensures MatchedOn(d.g, Inside(player), r)
  {
    var m := new Match(Query(player, name, TYPE_THING, false));
    m.MatchPossession(d);
    r := m.MatchResult();
    ghost var s, x := d.g.chain[Inside(player)], m.q.Absolute(d.g);
    ListMembers(d.db, s, name);
    ListMembers(d.db, Before(s, x), name);
    BeforeMembers(s, x);
  }
}

/** The database as src/utils.c and src/move.c work on it: the array, changed in place by splicing chains. */
module Databases {
  import opened Objects
  import opened Lists
  import opened Graphs
  import opened Threads

  class Database {
    var db: seq<Object>
    ghost var g: Graph

    ghost predicate Valid()
      reads this
    {
      Stores(db, g)
    }

    /** The array as it has been read, and the graph that its chains thread. */
    constructor (db: seq<Object>, ghost g: Graph)
      requires Stores(db, g)
      ensures Valid() && this.db == db && this.g == g
    {
      this.db, this.g := db, g;
    }

    // ---- src/utils.c ----

    method RemoveFirst(first: Dbref, what: Dbref, ghost s: seq<Dbref>) returns (r: Dbref)
      requires Linked(db, first, s) && Distinct(s) && 0 <= what < |db|
      modifies this`db
      ensures Linked(db, r, Without(s, what))
      ensures Rethreaded(old(db), db, s)
      ensures what in s ==> db[what] == old(db[what])
      ensures what !in s ==> r == first && db == old(db)
    {
      if first == what {
        LinkedTail(db, first, s);
        return db[first].next;
      }
      var prev := first;
      ghost var i := 0;
      while prev != NOTHING
        invariant 0 <= i <= |s| && prev == (if i == |s| then NOTHING else s[i])
        invariant what !in s[..i] && (i < |s| ==> s[i] != what)
        invariant db == old(db)
        decreases |s| - i
      {
        if db[prev].next == what {
          SkipLinked(db, first, s, i);
          RethreadedTwice(db, db, prev, db[what].next, s);
          db := WithNext(db, prev, db[what].next);
          return first;
        }
        prev := db[prev].next;
        i := i + 1;
      }
      return first;
    }

    method Member(thing: Dbref, list: Dbref, ghost s: seq<Dbref>) returns (found: bool)
      requires Linked(db, list, s)
      ensures found <==> thing in s
    {
      var rest := list;
      ghost var i := 0;
      while rest != NOTHING
        invariant 0 <= i <= |s| && rest == (if i == |s| then NOTHING else s[i])
        invariant thing !in s[..i]
        decreases |s| - i
      {
        if rest == thing {
          return true;
        }
        rest := db[rest].next;
        i := i + 1;
      }
      return false;
    }

    method Reverse(list: Dbref, ghost s: seq<Dbref>) returns (newlist: Dbref)
      requires Linked(db, list, s) && Distinct(s)
      modifies this`db
      ensures Linked(db, newlist, Reversed(s))
      ensures Rethreaded(old(db), db, s)
    {
      newlist := NOTHING;
      var todo := list;
      ghost var i := 0;
      while todo != NOTHING
        invariant 0 <= i <= |s| && Linked(db, todo, s[i..]) && Linked(db, newlist, Reversed(s[..i]))
        invariant Rethreaded(old(db), db, s)
        decreases |s| - i
      {
        var rest := db[todo].next;
        LinkedTail(db, todo, s[i..]);
        ReversedStep(db, newlist, s, i);
        RethreadedTwice(old(db), db, todo, newlist, s);
        db := WithNext(db, todo, newlist);
        newlist := todo;
        todo := rest;
        i := i + 1;
      }
      assert s[..i] == s;
    }

    // ---- src/db.h ----

    /** PUSH(x, head of chain k). */
    method Push(x: Dbref, k: Slot)
      requires Valid() && g.Has(x) && g.at[x] == Nowhere && k in g.chain
      modifies this
      ensures Valid() && g == old(g).Pushed(x, k)
      ensures forall y :: g.Has(y) && y != x ==> db[y].next == old(db[y].next)
    {
      PushStores(db, g, x, k);
      db := WithHead(WithNext(db, x, Head(db, k)), k, x);
      g := g.Pushed(x, k);
    }

    /** head of chain k = remove_first(head of chain k, x). */
    method Pull(x: Dbref, k: Slot)
      requires Valid() && g.Has(x) && g.at[x] == k && k in g.chain
      modifies this
      ensures Valid() && g == old(g).Pulled(x, k)
      ensures forall y :: g.Has(y) && old(g).at[y] != k ==> db[y].next == old(db[y].next)
    {
      ghost var before := db;
      assert Threaded(db, g, k) && g.Lists(k);
      var first := RemoveFirst(Head(db, k), x, g.chain[k]);
      PullStores(before, g, x, k, db, first);
      db := WithHead(db, k, first);
      g := g.Pulled(x, k);
    }

    /** Assignments to fields of db[x] that no chain runs through. */
    method Assign(x: Dbref, o: Object)
      requires Valid() && g.Has(x)
      requires o.next == db[x].next && o.contents == db[x].contents
      requires Typeof(o.flags) == TYPE_ROOM <==> g.IsRoom(x)
      requires g.IsRoom(x) ==> o.exits == db[x].exits
      modifies this
      ensures Valid() && db == old(db)[x := o] && g == old(g).Changed(x, NodeOf(o))
    {
      ChangeStores(db, g, x, o);
      db := db[x := o];
      g := g.Changed(x, NodeOf(o));
    }

    /** db[x].location = where. */
    method Locate(x: Dbref, where: Dbref)
      requires Valid() && g.Has(x)
      modifies this
      ensures Valid() && g == old(g).Located(x, where)
      ensures forall y :: g.Has(y) ==> db[y].next == old(db[y].next)
    {
      assert g.nodes[x] == NodeOf(db[x]);
      Assign(x, db[x].(location := where));
    }

    /** new_object with its first assignments. */
    method NewObject(o: Object) returns (x: Dbref)
      requires Valid()
      requires o.next == NOTHING && o.contents == NOTHING && (Typeof(o.flags) == TYPE_ROOM ==> o.exits == NOTHING)
      modifies this
      ensures Valid() && x == old(|g.nodes|) && g == old(g).Grown(NodeOf(o))
    {
      GrowStores(db, g, o);
      x := |db|;
      db := db + [o];
      g := g.Grown(NodeOf(o));
    }

    // ---- src/move.c ----

    /** The object goes from the chain of its location to the front of the target's contents. */
    method MoveTo(what: Dbref, where: Dbref)
      requires Valid() && g.CanMove(what, where)
      modifies this
      ensures Valid() && g == old(g).MovedTo(what, where)
      ensures forall x :: g.Has(x) && x != what && old(g).at[x] == Nowhere ==> db[x].next == old(db[x].next)
    {
      var node := NodeOf(db[what]);
      assert g.nodes[what] == node;
      if node.location != NOTHING {
        Pull(what, Inside(node.location));
      }
      if where == NOTHING {
        Locate(what, NOTHING);
        return;
      }
      var target := if where == HOME then node.home else where;
      Push(what, Inside(target));
      Locate(what, target);
    }
  
    /** Every thing in loc goes to dest (STICKY ones home), although all locations are blasted first. */
    method SendContents(loc: Dbref, dest: Dbref)
      requires Valid() && g.CanSend(loc, dest)
      modifies this
      ensures Valid() && g == old(g).ContentsSent(loc, dest)
    {
      ghost var g0 := g;
      AllSent(g, loc, dest);
      var first := BlastLocations(loc, dest);
      LinkedStrung(db, first, g0.chain[Inside(loc)]);
      SendList(first, loc, dest, g0);
      ReverseContents(loc);
    }

    /** The second loop of send_contents: each object goes where it belongs while the rest of the list dangles. */
    method SendList(list: Dbref, loc: Dbref, dest: Dbref, ghost g0: Graph)
      requires Valid() && g0.CanSend(loc, dest)
      requires g == g0.PartlySent(loc, dest, []) && Strung(db, list, g0.chain[Inside(loc)])
      modifies this
      ensures Valid() && (forall x :: x in g0.chain[Inside(loc)] ==> g0.Has(x))
      ensures g == g0.PartlySent(loc, dest, g0.chain[Inside(loc)])
    {
      ghost var s := g0.chain[Inside(loc)];
      assert g0.Lists(Inside(loc));
      var first := list;
      ghost var i, done, todo := 0, [], s;
      while first != NOTHING
        invariant 0 <= i <= |s| && done == s[..i] && todo == s[i..]
        invariant Valid() && g == g0.PartlySent(loc, dest, done)
        invariant Strung(db, first, todo)
        decreases |s| - i
      {
        SplitAt(g0, loc, i);
        var rest := db[first].next;
        SendOne(first, loc, dest, g0, done, rest, todo[1..]);
        done, todo := done + [first], todo[1..];
        first := rest;
        i := i + 1;
      }
      assert s[..i] == s;
    }

    method SendOne(
        x: Dbref, loc: Dbref, dest: Dbref, ghost g0: Graph, ghost done: seq<Dbref>,
        ghost rest: Dbref, ghost todo: seq<Dbref>)
      requires Valid() && g0.CanSend(loc, dest) && (forall y :: y in done ==> g0.Has(y))
      requires g == g0.PartlySent(loc, dest, done) && Strung(db, rest, todo)
      requires g0.Has(x) && g0.at[x] == Inside(loc) && x !in done && x !in todo
      requires forall y :: y in todo ==> g0.Has(y) && g0.at[y] == Inside(loc) && y !in done
      modifies this
      ensures Valid() && g == g0.PartlySent(loc, dest, done + [x])
      ensures Strung(db, rest, todo)
    {
      PartlySentStep(g0, loc, dest, done, x);
      ghost var before := db;
      var flags := db[x].flags;
      assert flags == g.nodes[x].flags;
      assert forall y :: y in todo ==> g.Has(y) && y != x && g.at[y] == Nowhere;
      MoveTo(x, if Typeof(flags) != TYPE_THING then loc else if Flag(flags, STICKY) then HOME else dest);
      assert |db| == |before|;
      assert forall y :: 0 <= y < |before| && y in todo ==> db[y].next == before[y].next;
      StrungKept(before, db, rest, todo);
    }

    method BlastLocations(loc: Dbref, ghost dest: Dbref) returns (first: Dbref)
      requires Valid() && g.CanSend(loc, dest)
      modifies this
      ensures Valid() && g == old(g).PartlySent(loc, dest, [])
      ensures Linked(db, first, old(g).chain[Inside(loc)])
    {
      ghost var before, s := db, g.chain[Inside(loc)];
      assert Threaded(db, g, Inside(loc));
      first := db[loc].contents;
      db := WithHead(db, Inside(loc), NOTHING);
      var rest := first;
      ghost var i := 0;
      while rest != NOTHING
        invariant 0 <= i <= |s| && Blasted(before, db, loc, s[..i])
        invariant Linked(db, rest, s[i..])
        decreases |s| - i
        modifies this`db
      {
        LinkedTail(db, rest, s[i..]);
        assert s[i..][1..] == s[i + 1..];
        BlastStep(before, db, loc, s, i);
        LinkedKept(db, WithLocation(db, rest, NOTHING), db[rest].next, s[i + 1..]);
        db := WithLocation(db, rest, NOTHING);
        rest := db[rest].next;
        i := i + 1;
      }
      assert s[..i] == s;
      BlastStores(before, g, db, loc, dest);
      g := g.PartlySent(loc, dest, []);
    }

    /** db[loc].contents = reverse(db[loc].contents). */
    method ReverseContents(loc: Dbref)
      requires Valid() && g.Has(loc)
      modifies this
      ensures Valid()
      ensures g == old(g).(chain := old(g).chain[Inside(loc) := Reversed(old(g).chain[Inside(loc)])])
    {
      ghost var before, k := db, Inside(loc);
      assert Threaded(db, g, k) && g.Lists(k);
      var first := Reverse(db[loc].contents, g.chain[k]);
      ReversedMembers(g.chain[k]);
      RearrangeStores(before, g, k, db, first, Reversed(g.chain[k]));
      db := WithHead(db, Inside(loc), first);
      g := g.(chain := g.chain[k := Reversed(g.chain[k])]);
    }
  
    method MaybeDropto(loc: Dbref, dropto: Dbref)
      requires Valid() && g.Has(loc) && g.CanDrop(loc, dropto)
      modifies this
      ensures Valid() && g == old(g).MaybeDropped(loc, dropto)
    {
      if loc == dropto {
        return;
      }
      ghost var s := g.chain[Inside(loc)];
      assert Threaded(db, g, Inside(loc)) && g.Lists(Inside(loc));
      var thing := db[loc].contents;
      ghost var i := 0;
      while thing != NOTHING
        invariant 0 <= i <= |s| && thing == (if i == |s| then NOTHING else s[i])
        invariant forall x :: x in s[..i] ==> !g.IsPlayer(x)
        invariant g == old(g) && db == old(db)
        decreases |s| - i
      {
        if Typeof(db[thing].flags) == TYPE_PLAYER {
          assert g.IsPlayer(thing);
          return;
        }
        thing := db[thing].next;
        i := i + 1;
      }
      SendContents(loc, dropto);
    }

    method EnterRoom(player: Dbref, loc: Dbref)
      requires Valid() && g.CanEnter(player, loc)
      modifies this
      ensures Valid() && g == old(g).Entered(player, loc)
    {
      var node := NodeOf(db[player]);
      assert g.nodes[player] == node;
      var dest := if loc == HOME then node.home else loc;
      var from := node.location;
      if dest != from {
        MovedIndexed(g, player, loc);
        assert g.MovedTo(player, dest) == g.MovedTo(player, loc);
        MoveTo(player, dest);
        if from != NOTHING {
          assert g.nodes[from] == NodeOf(db[from]);
          var dropto := db[from].location;
          if dropto != NOTHING && Flag(db[from].flags, STICKY) {
            MaybeDropto(from, dropto);
          }
        }
      }
    }

    method SendHome(thing: Dbref)
      requires Valid() && g.CanGoHome(thing)
      modifies this
      ensures Valid() && g == old(g).SentHome(thing)
    {
      var node := NodeOf(db[thing]);
      assert g.nodes[thing] == node;
      if Typeof(node.flags) == TYPE_PLAYER {
        SendContents(thing, HOME);
        assert NodeOf(db[thing]).home == node.home;
        EnterRoom(thing, db[thing].exits);
      } else if Typeof(node.flags) == TYPE_THING {
        MoveTo(thing, node.home);
      }
    }
  }
}

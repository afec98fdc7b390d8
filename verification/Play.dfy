/** The commands on the database itself: each does to the array what its function in Commands does to the graph. */
module Play {
  import opened Objects
  import opened Graphs
  import opened Threads
  import opened Databases
  import opened Locks
  import opened Commands
  import opened Powers

  // ---- src/boolexp.c, src/predicates.c ----

  /** The walk over the player's contents agrees with what the lock means, for a single key in fields alone. */
  method EvalBoolexp(d: Database, player: Dbref, b: Boolexp) returns (r: bool)
    requires d.Valid() && d.g.Has(player)
    ensures r <==> Eval(b, Keyring(d.g, player))
    ensures b.Const? && Ready(d.g, player) ==>
      (r <==> b.thing == player || (d.g.Has(b.thing) && d.db[b.thing].location == player))
    decreases b
  {
    match b
    case And(l, m) =>
      r := EvalBoolexp(d, player, l);
      if r {
        r := EvalBoolexp(d, player, m);
      }
    case Or(l, m) =>
      r := EvalBoolexp(d, player, l);
      if !r {
        r := EvalBoolexp(d, player, m);
      }
    case Not(s) =>
      r := EvalBoolexp(d, player, s);
      r := !r;
    case Const(t) =>
      if Ready(d.g, player) {
        HoldsByLocation(d.g, player, t);
      }
      if t == player {
        return true;
      }
      assert Threaded(d.db, d.g, Inside(player));
      r := d.Member(t, d.db[player].contents, d.g.chain[Inside(player)]);
  }

  /** Between commands a constant holds for the player and for whatever has the player as its location. */
  lemma HoldsByLocation(g: Graph, player: Dbref, x: Dbref)
    requires g.Sound() && g.IsPlayer(player)
    ensures Holds(g, player, x) <==> x == player || (g.Has(x) && g.nodes[x].location == player)
  {
    assert g.Lists(Inside(player));
    if g.Has(x) {
      assert g.NodeSound(x);
    }
  }

  method CouldDo(d: Database, player: Dbref, thing: Dbref) returns (r: bool)
    requires d.Valid() && d.g.Has(player) && d.g.Has(thing)
    ensures r <==> CouldDoit(d.g, player, thing)
  {
    var nodes := NodesOf(d.db);
    assert nodes == d.g.nodes;
    if !Unbarred(nodes, player, thing) {
      return false;
    }
    match d.db[thing].key
    case Unlocked => r := true;
    case Locked(b) => r := EvalBoolexp(d, player, b);
  }

  method CanDo(d: Database, player: Dbref, thing: Dbref) returns (r: bool)
    requires d.Valid() && d.g.Has(player) && d.g.Has(thing)
    ensures r <==> CanDoit(d.g, player, thing)
  {
    assert d.g.nodes[player] == NodeOf(d.db[player]);
    if d.db[player].location == NOTHING {
      return false;
    }
    r := CouldDo(d, player, thing);
  }

  // ---- src/move.c ----

  method DoMove(d: Database, player: Dbref, exit: Dbref)
    requires d.Valid() && Ready(d.g, player)
    requires MatchedOn(d.g, Doors(d.g.nodes[player].location), exit)
    modifies d
    ensures d.Valid() && d.g == Went(old(d.g), player, exit)
  {
    if exit == NOTHING || exit == AMBIGUOUS {
      return;
    }
    assert d.g.Lists(Doors(d.g.nodes[player].location)) && d.g.NodeSound(exit);
    var ok := CanDo(d, player, exit);
    if ok {
      EnterSound(d.g, player, d.g.nodes[exit].location);
      d.EnterRoom(player, d.db[exit].location);
    }
  }

  method DoHome(d: Database, player: Dbref)
    requires d.Valid() && Ready(d.g, player)
    modifies d
    ensures d.Valid() && d.g == WentHome(old(d.g), player)
  {
    HomeSound(d.g, player);
    d.SendHome(player);
  }

  method DoGet(d: Database, player: Dbref, thing: Dbref)
    requires d.Valid() && Ready(d.g, player) && Matched(d.g, thing)
    modifies d
    ensures d.Valid() && d.g == Got(old(d.g), player, thing)
  {
    if thing == NOTHING || thing == AMBIGUOUS || d.db[thing].location == player {
      return;
    }
    var nodes := NodesOf(d.db);
    assert nodes == d.g.nodes;
    assert d.g.NodeSound(player);
    if Typeof(d.db[thing].flags) == TYPE_THING {
      var ok := CanDo(d, player, thing);
      if ok {
        MovedSound(d.g, thing, player);
        d.MoveTo(thing, player);
      }
    } else if Typeof(d.db[thing].flags) == TYPE_EXIT {
      if !Controls(nodes, player, thing) || d.db[thing].location != NOTHING {
        return;
      }
      var loc := d.db[player].location;
      assert Threaded(d.db, d.g, Doors(loc));
      var here := d.Member(thing, d.db[loc].exits, d.g.chain[Doors(loc)]);
      if here {
        ExitTakenSound(d.g, player, thing);
        assert d.g.Lists(Doors(loc));
        d.Pull(thing, Doors(loc));
        d.Push(thing, Inside(player));
        d.Locate(thing, player);
      }
    }
  }

  method DoDrop(d: Database, player: Dbref, thing: Dbref)
    requires d.Valid() && Ready(d.g, player) && MatchedOn(d.g, Inside(player), thing)
    modifies d
    ensures d.Valid() && d.g == Dropped(old(d.g), player, thing)
  {
    var nodes := NodesOf(d.db);
    assert nodes == d.g.nodes && d.g.NodeSound(player);
    var loc := d.db[player].location;
    if loc == NOTHING || thing == NOTHING || thing == AMBIGUOUS {
      return;
    }
    assert d.g.Lists(Inside(player)) && d.g.NodeSound(thing) && d.g.NodeSound(loc);
    var flags, room := nodes[thing].flags, nodes[loc];
    if Typeof(flags) == TYPE_EXIT {
      if Controls(nodes, player, loc) {
        ExitDroppedSound(d.g, player, thing);
        d.MoveTo(thing, NOTHING);
        d.Push(thing, Doors(loc));
      }
    } else if Flag(room.flags, TEMPLE) {
      HomeSound(d.g, thing);
      d.SendHome(thing);
    } else if Flag(flags, STICKY) {
      HomeSound(d.g, thing);
      d.SendHome(thing);
    } else if room.location != NOTHING && !Flag(room.flags, STICKY) {
      MovedSound(d.g, thing, room.location);
      d.MoveTo(thing, room.location);
    } else if Flag(flags, DARK) && !CanLinkTo(nodes, player, Typeof(flags), loc) {
    } else {
      MovedSound(d.g, thing, loc);
      d.MoveTo(thing, loc);
    }
  }

  // ---- src/create.c, src/player.c ----

  /** The fields new_object gives to a new object, with the ones its maker sets. */
  function Fresh(name: string, flags: int, location: Dbref, exits: Dbref, owner: Dbref, password: string,
                 now: int): Object {
    Object(name, "", location, NOTHING, exits, NOTHING, Unlocked, "", "", "", "", owner, 0, flags, password, now, 0, 0)
  }

  method DoOpen(d: Database, player: Dbref, name: string, named: bool, funds: bool,
                link: bool, room: Dbref, moreFunds: bool, now: int)
    requires d.Valid() && Ready(d.g, player)
    modifies d
    ensures d.Valid() && d.g == Opened(old(d.g), player, named, funds, link, room, moreFunds)
  {
    var nodes := NodesOf(d.db);
    assert nodes == d.g.nodes && d.g.NodeSound(player);
    var loc := d.db[player].location;
    if loc == NOTHING || !named || !Controls(nodes, player, loc) || !funds {
      return;
    }
    ghost var n := Node(TYPE_EXIT, NOTHING, NOTHING, player, Unlocked);
    MadeSound(d.g, n, Doors(loc));
    GrownIndexed(d.g, n);
    var exit := d.NewObject(Fresh(name, TYPE_EXIT, NOTHING, NOTHING, player, "", now));
    d.Push(exit, Doors(loc));
    if link {
      var after := NodesOf(d.db);
      assert after == d.g.nodes;
      var target := LinkableRoom(after, player, TYPE_EXIT, room);
      if target != NOTHING && moreFunds {
        d.Locate(exit, target);
      }
    }
  }

  method DoLink(d: Database, player: Dbref, thing: Dbref, name: Dbref, funds: bool)
    requires d.Valid() && Ready(d.g, player) && Matched(d.g, thing)
    modifies d
    ensures d.Valid() && d.g == LinkSet(old(d.g), player, thing, name, funds)
  {
    if thing == NOTHING || thing == AMBIGUOUS {
      return;
    }
    var nodes := NodesOf(d.db);
    assert nodes == d.g.nodes && d.g.NodeSound(thing);
    var o := d.db[thing];
    var room := LinkableRoom(nodes, player, Typeof(o.flags), name);
    if room == NOTHING {
      return;
    }
    if Typeof(o.flags) == TYPE_EXIT {
      if o.location == NOTHING && funds {
        d.Assign(thing, o.(owner := player, location := room));
      }
    } else if Controls(nodes, player, thing) {
      if Typeof(o.flags) == TYPE_ROOM {
        d.Assign(thing, o.(location := room));
      } else if room != HOME {
        d.Assign(thing, o.(exits := room));
      }
    }
  }

  method DoDig(d: Database, player: Dbref, name: string, named: bool, funds: bool, now: int)
    requires d.Valid() && Ready(d.g, player)
    modifies d
    ensures d.Valid() && d.g == Dug(old(d.g), player, named, funds)
  {
    if named && funds {
      var room := d.NewObject(Fresh(name, TYPE_ROOM, NOTHING, NOTHING, player, "", now));
    }
  }

  method DoCreate(d: Database, player: Dbref, name: string, named: bool, funds: bool, now: int)
    requires d.Valid() && Ready(d.g, player)
    modifies d
    ensures d.Valid() && d.g == Created(old(d.g), player, named, funds)
  {
    if named && funds {
      var nodes := NodesOf(d.db);
      assert nodes == d.g.nodes && d.g.NodeSound(player);
      var loc := nodes[player].location;
      var home := if loc != NOTHING && Controls(nodes, player, loc) then loc else nodes[player].home;
      ghost var n := Node(TYPE_THING, player, home, player, Unlocked);
      GrownIndexed(d.g, n);
      var thing := d.NewObject(Fresh(name, TYPE_THING, player, home, player, "", now));
      d.Push(thing, Inside(player));
    }
  }

  method CreatePlayer(d: Database, name: string, password: string, named: bool, now: int) returns (player: Dbref)
    requires d.Valid() && d.g.Sound() && d.g.IsRoom(PLAYER_START)
    modifies d
    ensures d.Valid() && d.g == PlayerCreated(old(d.g), named)
    ensures player == if named then old(|d.g.nodes|) else NOTHING
  {
    if !named {
      return NOTHING;
    }
    ghost var n := Node(TYPE_PLAYER, PLAYER_START, PLAYER_START, |d.g.nodes|, Unlocked);
    GrownIndexed(d.g, n);
    player := d.NewObject(Fresh(name, TYPE_PLAYER, PLAYER_START, PLAYER_START, |d.db|, password, now));
    d.Push(player, Inside(PLAYER_START));
  }

  // ---- src/set.c ----

  method DoUnlink(d: Database, player: Dbref, exit: Dbref)
    requires d.Valid() && Ready(d.g, player) && Matched(d.g, exit)
    modifies d
    ensures d.Valid() && d.g == Unlinked(old(d.g), player, exit)
  {
    if exit == NOTHING || exit == AMBIGUOUS {
      return;
    }
    var nodes := NodesOf(d.db);
    assert nodes == d.g.nodes;
    if Controls(nodes, player, exit) {
      if Typeof(d.db[exit].flags) == TYPE_EXIT {
        d.Locate(exit, NOTHING);
      } else if Typeof(d.db[exit].flags) == TYPE_ROOM {
        d.Locate(exit, NOTHING);
      }
    }
  }

  method DoChown(d: Database, player: Dbref, thing: Dbref, found: Dbref, me: bool)
    requires d.Valid() && Ready(d.g, player) && Matched(d.g, thing) && (found == NOTHING || d.g.IsPlayer(found))
    modifies d
    ensures d.Valid() && d.g == OwnerChanged(old(d.g), player, thing, found, me)
  {
    if thing == NOTHING || thing == AMBIGUOUS || (found == NOTHING && !me) {
      return;
    }
    var nodes := NodesOf(d.db);
    assert nodes == d.g.nodes && d.g.NodeSound(player);
    var o := d.db[thing];
    if Typeof(o.flags) == TYPE_PLAYER {
      return;
    }
    if !Wizard(nodes, player) {
      if (!me && found != player) || !Flag(o.flags, UNWANTED) {
        return;
      }
      var ok := CanDo(d, player, thing);
      if !ok {
        return;
      }
    }
    d.Assign(thing, o.(owner := if me then player else found));
  }

  /** Home becomes the thing's home, and that is where it goes. */
  method Rehome(d: Database, thing: Dbref, home: Dbref)
    requires d.Valid() && d.g.Sound() && d.g.IsThing(thing) && d.g.IsRoom(home)
    modifies d
    ensures var h := old(d.g).Changed(thing, old(d.g).nodes[thing].(home := home));
      h.CanMove(thing, home) && d.Valid() && d.g == h.MovedTo(thing, home)
  {
    assert d.g.nodes[thing] == NodeOf(d.db[thing]);
    FieldSound(d.g, thing, d.g.nodes[thing].(home := home));
    d.Assign(thing, d.db[thing].(exits := home));
    MovedSound(d.g, thing, home);
    d.MoveTo(thing, home);
  }

  method DoRecycle(d: Database, player: Dbref, thing: Dbref, recip: Dbref)
    requires d.Valid() && Ready(d.g, player) && Matched(d.g, thing) && (recip == NOTHING || d.g.IsPlayer(recip))
    modifies d
    ensures d.Valid() && d.g == Recycled(old(d.g), player, thing, recip)
  {
    if thing == NOTHING || thing == AMBIGUOUS {
      return;
    }
    var nodes := NodesOf(d.db);
    assert nodes == d.g.nodes;
    if !Controls(nodes, player, thing) || Typeof(d.db[thing].flags) == TYPE_PLAYER || recip == NOTHING {
      return;
    }
    assert d.g.NodeSound(recip);
    FieldSound(d.g, thing, d.g.nodes[thing].(owner := recip));
    d.Assign(thing, d.db[thing].(owner := recip));
    if Typeof(d.db[thing].flags) == TYPE_THING {
      Rehome(d, thing, nodes[recip].home);
    }
    var o := d.db[thing];
    assert d.g.nodes[thing] == NodeOf(o);
    d.Assign(thing, o.(key := Unlocked, flags := SetFlag(o.flags, UNWANTED)));
  }

  /** do_set, do_lock and do_unlock. */
  method DoSet(d: Database, player: Dbref, thing: Dbref, flags: int, key: Lock)
    requires d.Valid() && Ready(d.g, player) && Matched(d.g, thing)
    requires d.g.Has(thing) ==> Typeof(flags) == Typeof(d.g.nodes[thing].flags)
    modifies d
    ensures d.Valid() && d.g == FlagsSet(old(d.g), player, thing, flags, key)
  {
    if thing == NOTHING || thing == AMBIGUOUS {
      return;
    }
    var nodes := NodesOf(d.db);
    assert nodes == d.g.nodes;
    if Controls(nodes, player, thing) {
      d.Assign(thing, d.db[thing].(flags := flags, key := key));
    }
  }

  // ---- src/wiz.c ----

  method DoTeleport(d: Database, player: Dbref, victim: Dbref, destination: Dbref)
    requires d.Valid() && Ready(d.g, player) && Matched(d.g, victim) && Matched(d.g, destination)
    modifies d
    ensures d.Valid() && d.g == Teleported(old(d.g), player, victim, destination)
  {
    if victim == NOTHING || victim == AMBIGUOUS || destination == NOTHING || destination == AMBIGUOUS {
      return;
    }
    var nodes := NodesOf(d.db);
    assert nodes == d.g.nodes && d.g.NodeSound(victim) && d.g.NodeSound(destination);
    var v, t := Typeof(nodes[victim].flags), Typeof(nodes[destination].flags);
    if t == TYPE_EXIT || t == TYPE_THING || v == TYPE_EXIT || v == TYPE_ROOM || (v == TYPE_PLAYER && t != TYPE_ROOM) {
      return;
    }
    var at := nodes[victim].location;
    if !Wizard(nodes, player)
       && !(v == TYPE_THING && t == TYPE_ROOM
            && (Controls(nodes, player, victim)
                || (Typeof(nodes[at].flags) == TYPE_ROOM && Controls(nodes, player, at)))
            && CanLinkTo(nodes, player, TYPE_PLAYER, destination)) {
      return;
    }
    if v == TYPE_PLAYER {
      EnterSound(d.g, victim, destination);
      d.EnterRoom(victim, destination);
    } else {
      var to := destination;
      if t == TYPE_ROOM && nodes[destination].location != NOTHING && !Flag(nodes[destination].flags, STICKY) {
        to := nodes[destination].location;
      }
      MovedSound(d.g, victim, to);
      d.MoveTo(victim, to);
    }
  }

  method DoMassTeleport(d: Database, player: Dbref, destination: Dbref)
    requires d.Valid() && Ready(d.g, player) && (destination == NOTHING || d.g.Has(destination))
    modifies d
    ensures d.Valid() && d.g == MassTeleported(old(d.g), player, destination)
  {
    if player != GOD || destination == NOTHING || Typeof(d.db[destination].flags) != TYPE_ROOM {
      return;
    }
    var victim := 0;
    while victim < |d.db|
      invariant 0 <= victim <= |d.g.nodes| && d.Valid() && d.g.Sound() && d.g.IsRoom(destination)
      invariant AllTeleported(d.g, player, destination, victim) == AllTeleported(old(d.g), player, destination, 0)
      decreases |d.g.nodes| - victim
    {
      TeleportNext(d, player, destination, victim);
      victim := victim + 1;
    }
  }

  method TeleportNext(d: Database, player: Dbref, destination: Dbref, victim: Dbref)
    requires d.Valid() && d.g.Sound() && d.g.IsRoom(destination) && d.g.Has(victim)
    modifies d
    ensures d.Valid() && d.g.Sound() && d.g.IsRoom(destination) && |d.g.nodes| == old(|d.g.nodes|)
    ensures AllTeleported(d.g, player, destination, victim + 1) == AllTeleported(old(d.g), player, destination, victim)
  {
    assert d.g.nodes[victim] == NodeOf(d.db[victim]);
    if victim != player && Typeof(d.db[victim].flags) == TYPE_PLAYER {
      MovedSound(d.g, victim, destination);
      d.MoveTo(victim, destination);
    }
  }

  method DoBobble(d: Database, player: Dbref, victim: Dbref, recip: Dbref, recycler: bool)
    requires d.Valid() && Ready(d.g, player) && Matched(d.g, victim) && (recip == NOTHING || d.g.IsPlayer(recip))
    modifies d
    ensures d.Valid() && d.g == Toaded(old(d.g), player, victim, recip, recycler)
  {
    var nodes := NodesOf(d.db);
    assert nodes == d.g.nodes;
    if !Wizard(nodes, player) || victim == NOTHING || victim == AMBIGUOUS || recip == NOTHING || recip == victim
       || Typeof(d.db[victim].flags) != TYPE_PLAYER || Wizard(nodes, victim) {
      return;
    }
    assert Threaded(d.db, d.g, Inside(victim));
    if d.db[victim].contents != NOTHING {
      assert d.g.Lists(Inside(victim)) && d.g.chain[Inside(victim)] != [];
      return;
    }
    assert d.g.chain[Inside(victim)] == [];
    SweepOwner(d, victim, recip, recycler);
    d.Assign(victim, d.db[victim].(pennies := 1));
  }

  /** The toad itself first, then everything it owned. */
  method SweepOwner(d: Database, victim: Dbref, recip: Dbref, recycler: bool)
    requires d.Valid() && d.g.IsPlayer(victim) && d.g.Has(recip) && recip != victim
    modifies d
    ensures d.Valid() && d.g == Toad(old(d.g), victim, recip, recycler)
  {
    ghost var g := d.g;
    ghost var h := Toad(g, victim, recip, recycler);
    d.Assign(victim, d.db[victim].(password := "", flags := TYPE_THING, owner := recip));
    var i := 0;
    while i < |d.db|
      invariant 0 <= i <= |d.g.nodes| == |g.nodes| == |h.nodes| && d.Valid()
      invariant d.g.chain == g.chain && d.g.at == g.at
      invariant forall x :: 0 <= x < |g.nodes| ==>
        d.g.nodes[x] == if x < i || x == victim then h.nodes[x] else g.nodes[x]
      decreases |d.g.nodes| - i
    {
      var o := d.db[i];
      assert d.g.nodes[i] == NodeOf(o);
      if o.owner == victim {
        d.Assign(i, o.(owner := recip, flags := if recycler then SetFlag(o.flags, UNWANTED) else o.flags));
      }
      i := i + 1;
    }
    assert d.g.nodes == h.nodes;
  }

  method DoUnbobble(d: Database, player: Dbref, victim: Dbref, name: string, named: bool)
    requires d.Valid() && Ready(d.g, player) && Matched(d.g, victim)
    modifies d
    ensures d.Valid() && d.g == Untoaded(old(d.g), player, victim, named)
  {
    var nodes := NodesOf(d.db);
    assert nodes == d.g.nodes;
    if Wizard(nodes, player) && victim != NOTHING && victim != AMBIGUOUS
       && Typeof(d.db[victim].flags) == TYPE_THING && named {
      d.Assign(victim, d.db[victim].(flags := TYPE_PLAYER, owner := victim, name := name));
    }
  }

  // ---- src/rob.c ----

  method DoKill(d: Database, player: Dbref, victim: Dbref, funds: bool, lucky: bool)
    requires d.Valid() && Ready(d.g, player) && Matched(d.g, victim)
    modifies d
    ensures d.Valid() && d.g == Killed(old(d.g), player, victim, funds, lucky)
  {
    if victim == NOTHING || victim == AMBIGUOUS || Typeof(d.db[victim].flags) != TYPE_PLAYER {
      return;
    }
    var nodes := NodesOf(d.db);
    assert nodes == d.g.nodes && d.g.NodeSound(victim);
    var at := nodes[nodes[victim].location];
    if Flag(at.flags, HAVEN) && at.owner != player && !Wizard(nodes, player) {
      return;
    }
    if funds && lucky && !Wizard(nodes, victim) {
      HomeSound(d.g, victim);
      d.SendHome(victim);
    }
  }
}

/**
 What each command of src/move.c does to the world, in terms of fields and chains alone: where everything
 ends up in every case, and that nothing else changes.
 */
module Outcomes {
  import opened Objects
  import opened Lists
  import opened Graphs
  import opened Locks
  import opened Commands
  import opened Effects
  import opened Play

  /** A wizard, or the owner. */
  predicate Rules(g: Graph, who: Dbref, x: Dbref)
    requires g.Has(who)
  {
    g.Has(x) && (Flag(g.nodes[who].flags, WIZARD) || g.nodes[x].owner == who)
  }

  // ---- could_doit ----

  /**
   Who may use x: nobody, if it is no room and leads or lies nowhere; else whoever its lock lets pass, but robots
   only what is not marked ROBOT by others, nor leads to what is.
   */
  lemma CouldDoitIff(g: Graph, player: Dbref, x: Dbref)
    requires Ready(g, player) && g.Has(x)
    ensures var n, robot := g.nodes[x], Flag(g.nodes[player].flags, ROBOT);
      CouldDoit(g, player, x) <==>
        && (g.IsRoom(x) || n.location != NOTHING)
        && Passes(n.key, Keyring(g, player))
        && (robot && Flag(n.flags, ROBOT) && !g.IsPlayer(x) ==> n.owner == player)
        && (robot && g.IsExit(x) && g.Has(n.location) && Flag(g.nodes[n.location].flags, ROBOT) ==>
              g.nodes[n.location].owner == player)
  {
    assert g.NodeSound(x);
  }

  /** A lock with one key lets pass that object and whoever has it. */
  lemma OneKeyIff(g: Graph, player: Dbref, t: Dbref)
    requires Ready(g, player)
    ensures Passes(Locked(Const(t)), Keyring(g, player)) <==>
            t == player || (g.Has(t) && g.nodes[t].location == player)
    ensures Passes(Unlocked, Keyring(g, player))
  {
    HoldsByLocation(g, player, t);
  }

  // ---- go, home ----

  lemma GoOutcome(g: Graph, player: Dbref, exit: Dbref) returns (m: Graph)
    requires Ready(g, player) && MatchedOn(g, Doors(g.nodes[player].location), exit)
    ensures var h := Went(g, player, exit);
      if exit == NOTHING || exit == AMBIGUOUS then h == g
      else
        && g.IsExit(exit)
        && if CouldDoit(g, player, exit) then EnteredBy(g, m, h, player, g.nodes[exit].location) else h == g
  {
    m := g;
    assert g.NodeSound(player);
    if exit != NOTHING && exit != AMBIGUOUS {
      assert g.Lists(Doors(g.nodes[player].location)) && g.NodeSound(exit);
      if CouldDoit(g, player, exit) {
        m := EnterMeans(g, player, g.nodes[exit].location);
      }
    }
  }

  /** Where one thing lies after somebody has gone home; the player is there. */
  lemma GoHomeOutcome(g: Graph, player: Dbref, y: Dbref)
    requires Ready(g, player) && g.IsThing(y)
    ensures g.Has(g.nodes[player].location)
    ensures var h, n := WentHome(g, player), g.nodes[y];
      && |h.nodes| == |g.nodes|
      && h.nodes[player] == g.nodes[player].(location := g.nodes[player].home)
      && h.nodes[y] == n.(location := PlaceAfter(g, player, g.nodes[player].home, y,
           if n.location == player then n.home else n.location))
  {
    HomePlaces(g, player, y);
  }

  // ---- get, drop ----

  /** A thing that may be taken, and an unlinked exit of the room by those who rule it, goes to the player's hands. */
  lemma GetOutcome(g: Graph, player: Dbref, x: Dbref)
    requires Ready(g, player) && Matched(g, x)
    ensures Doors(g.nodes[player].location) in g.chain
    ensures var h := Got(g, player, x);
      var taken :=
        && g.Has(x) && g.nodes[x].location != player
        && if g.IsThing(x) then CouldDoit(g, player, x)
           else g.IsExit(x) && Rules(g, player, x) && g.nodes[x].location == NOTHING
                && x in g.chain[Doors(g.nodes[player].location)];
      if taken then OnlyMoved(g, h, x, player) else h == g
  {
    assert g.NodeSound(player);
    if g.IsThing(x) && g.nodes[x].location != player && CouldDoit(g, player, x) {
      MovedSound(g, x, player);
      MovedMeans(g, x, player);
    } else if g.IsExit(x) && x in g.chain[Doors(g.nodes[player].location)] {
      ExitMoves(g, x, Doors(g.nodes[player].location), Inside(player), player);
    }
  }

  /** Taking an exit from one chain to another. */
  lemma ExitMoves(g: Graph, x: Dbref, k: Slot, l: Slot, where: Dbref)
    requires g.Sound() && g.Has(x) && k in g.chain && l in g.chain && k != l && x in g.chain[k]
    ensures var h := g.Pulled(x, k).Pushed(x, l).Located(x, where);
      && OthersKept(g, h, x) && h.at[x] == l && h.nodes[x] == g.nodes[x].(location := where)
      && h.chain[l] == [x] + Without(g.chain[l], x) && g.chain[l] == Without(g.chain[l], x)
  {
    var h := g.Pulled(x, k).Pushed(x, l).Located(x, where);
    assert g.Lists(k) && g.Lists(l);
    assert h.chain == g.chain[k := Without(g.chain[k], x)][l := [x] + g.chain[l]];
    WithoutDistinct(g.chain[l], x);
    forall j | j in g.chain ensures Without(h.chain[j], x) == Without(g.chain[j], x) {
      assert g.Lists(j);
      if j == k {
        WithoutDistinct(g.chain[k], x);
      } else if j == l {
        WithoutFirst(x, g.chain[l]);
      }
    }
  }

  /** What a room does with a thing that is put down in it, or that it refuses: the place it ends up in. */
  function DropPlace(g: Graph, player: Dbref, x: Dbref): Dbref
    requires g.Has(player) && g.Has(x) && g.Has(g.nodes[player].location)
  {
    var loc, n := g.nodes[player].location, g.nodes[x];
    var room := g.nodes[loc];
    if Flag(room.flags, TEMPLE) || Flag(n.flags, STICKY) then n.home
    else if room.location != NOTHING && !Flag(room.flags, STICKY) then
      if room.location == HOME then n.home else room.location
    else if Flag(n.flags, DARK) && !Rules(g, player, loc) && !Flag(room.flags, ABODE) then player
    else loc
  }

  /**
   Dropping a thing: in a temple, or if it is STICKY, it goes home; an immediate dropto takes it; one that is
   DARK stays with the player unless the room may be linked to; any other lies in the room. An exit is fixed to the
   room, unlinked, by those who rule that.
   */
  lemma DropOutcome(g: Graph, player: Dbref, x: Dbref)
    requires Ready(g, player) && MatchedOn(g, Inside(player), x)
    ensures g.IsRoom(g.nodes[player].location) && Doors(g.nodes[player].location) in g.chain
    ensures var h, loc := Dropped(g, player, x), g.nodes[player].location;
      if x == NOTHING || x == AMBIGUOUS then h == g
      else
        && (g.IsThing(x) || g.IsExit(x))
        && (g.IsThing(x) && DropPlace(g, player, x) == player ==> h == g)
        && (g.IsThing(x) && DropPlace(g, player, x) != player ==> OnlyMoved(g, h, x, DropPlace(g, player, x)))
        && (g.IsExit(x) && !Rules(g, player, loc) ==> h == g)
        && (g.IsExit(x) && Rules(g, player, loc) ==>
              && OthersKept(g, h, x) && h.at[x] == Doors(loc) && h.nodes[x] == g.nodes[x].(location := NOTHING)
              && h.chain[Doors(loc)] == [x] + g.chain[Doors(loc)])
  {
    assert g.NodeSound(player);
    var loc := g.nodes[player].location;
    if x != NOTHING && x != AMBIGUOUS {
      assert g.Lists(Inside(player)) && g.NodeSound(x) && g.NodeSound(loc);
      if g.IsThing(x) {
        ThingDrops(g, player, x);
      } else if Rules(g, player, loc) {
        ExitMoves(g, x, Inside(player), Doors(loc), NOTHING);
        ExitDropMeans(g, player, x);
      }
    }
  }

  lemma ThingDrops(g: Graph, player: Dbref, x: Dbref)
    requires Ready(g, player) && g.IsThing(x) && MatchedOn(g, Inside(player), x)
    ensures g.IsRoom(g.nodes[player].location)
    ensures var h, to := Dropped(g, player, x), DropPlace(g, player, x);
      if to == player then h == g else OnlyMoved(g, h, x, to)
  {
    assert g.NodeSound(player) && g.NodeSound(x);
    var loc := g.nodes[player].location;
    assert g.NodeSound(loc);
    var room := g.nodes[loc];
    if Flag(room.flags, TEMPLE) || Flag(g.nodes[x].flags, STICKY) {
      DropsHome(g, player, x);
    } else if room.location != NOTHING && !Flag(room.flags, STICKY) {
      DropsOn(g, player, x, room.location);
    } else if DropPlace(g, player, x) != player {
      DropsOn(g, player, x, loc);
    }
  }

  lemma DropsHome(g: Graph, player: Dbref, x: Dbref)
    requires Ready(g, player) && g.IsThing(x) && MatchedOn(g, Inside(player), x) && g.IsRoom(g.nodes[player].location)
    requires Flag(g.nodes[g.nodes[player].location].flags, TEMPLE) || Flag(g.nodes[x].flags, STICKY)
    ensures OnlyMoved(g, Dropped(g, player, x), x, g.nodes[x].home)
  {
    var m := HomeMeans(g, x);
  }

  lemma DropsOn(g: Graph, player: Dbref, x: Dbref, to: Dbref)
    requires Ready(g, player) && g.IsThing(x) && MatchedOn(g, Inside(player), x) && g.IsRoom(g.nodes[player].location)
    requires var loc := g.nodes[player].location;
      var room, n := g.nodes[loc], g.nodes[x];
      && !Flag(room.flags, TEMPLE) && !Flag(n.flags, STICKY) && to != NOTHING
      && if room.location != NOTHING && !Flag(room.flags, STICKY) then to == room.location
         else to == loc && (Flag(n.flags, DARK) ==> Rules(g, player, loc) || Flag(room.flags, ABODE))
    ensures OnlyMoved(g, Dropped(g, player, x), x, if to == HOME then g.nodes[x].home else to)
  {
    assert g.NodeSound(g.nodes[player].location);
    MovedSound(g, x, to);
    MovedMeans(g, x, to);
  }

  lemma ExitDropMeans(g: Graph, player: Dbref, x: Dbref)
    requires Ready(g, player) && g.IsExit(x) && MatchedOn(g, Inside(player), x)
    requires Rules(g, player, g.nodes[player].location)
    ensures Doors(g.nodes[player].location) in g.chain
    ensures Dropped(g, player, x) ==
            g.Pulled(x, Inside(player)).Pushed(x, Doors(g.nodes[player].location)).Located(x, NOTHING)
  {
    assert g.NodeSound(player) && g.Lists(Inside(player));
    ExitDroppedSound(g, player, x);
  }
}

/** The commands of src/wiz.c and src/rob.c as functions on the object graph, with the arguments as in Commands. */
module Powers {
  import opened Objects
  import opened Graphs
  import opened Commands

  // ---- src/wiz.c ----

  ghost function Teleported(g: Graph, player: Dbref, victim: Dbref, destination: Dbref): (h: Graph)
    requires Ready(g, player) && Matched(g, victim) && Matched(g, destination)
    ensures h.Sound() && SameKinds(g, h)
  {
    if !g.Has(victim) || !g.Has(destination) then g
    else if g.IsExit(destination) || g.IsThing(destination) || g.IsExit(victim) || g.IsRoom(victim)
            || (g.IsPlayer(victim) && !g.IsRoom(destination)) then g
    else
      assert g.NodeSound(victim) && g.NodeSound(destination);
      var at := g.nodes[victim].location;
      if !Wizard(g.nodes, player)
         && !(g.IsThing(victim) && g.IsRoom(destination)
              && (Controls(g.nodes, player, victim) || (g.IsRoom(at) && Controls(g.nodes, player, at)))
              && CanLinkTo(g.nodes, player, TYPE_PLAYER, destination)) then g
      else if g.IsPlayer(victim) then
        EnterSound(g, victim, destination);
        g.Entered(victim, destination)
      else
        var n := g.nodes[destination];
        var to :=
          if g.IsRoom(destination) && n.location != NOTHING && !Flag(n.flags, STICKY) then n.location else destination;
        MovedSound(g, victim, to);
        g.MovedTo(victim, to)
  }

  ghost function MassTeleported(g: Graph, player: Dbref, destination: Dbref): (h: Graph)
    requires Ready(g, player) && (destination == NOTHING || g.Has(destination))
    ensures h.Sound() && SameKinds(g, h)
  {
    if player != GOD || destination == NOTHING || !g.IsRoom(destination) then g
    else
      AllTeleportedSound(g, player, destination, 0);
      AllTeleported(g, player, destination, 0)
  }

  lemma {:induction false} AllTeleportedSound(g: Graph, player: Dbref, room: Dbref, i: nat)
    requires g.Sound() && g.IsRoom(room) && i <= |g.nodes|
    ensures var h := AllTeleported(g, player, room, i); h.Sound() && SameKinds(g, h)
    decreases |g.nodes| - i
  {
    if i < |g.nodes| {
      if i != player && g.IsPlayer(i) {
        MovedSound(g, i, room);
        AllTeleportedSound(g.MovedTo(i, room), player, room, i + 1);
      } else {
        AllTeleportedSound(g, player, room, i + 1);
      }
    }
  }

  ghost function AllTeleported(g: Graph, player: Dbref, room: Dbref, i: nat): Graph
    requires g.Sound() && g.IsRoom(room) && i <= |g.nodes|
    decreases |g.nodes| - i
  {
    if i == |g.nodes| then g
    else if i != player && g.IsPlayer(i) then
      MovedSound(g, i, room);
      AllTeleported(g.MovedTo(i, room), player, room, i + 1)
    else AllTeleported(g, player, room, i + 1)
  }

  /** The guards of do_bobble. */
  predicate Toadable(g: Graph, player: Dbref, victim: Dbref, recip: Dbref)
    requires g.Has(player)
  {
    && Wizard(g.nodes, player) && g.IsPlayer(victim) && recip != NOTHING && recip != victim
    && !Wizard(g.nodes, victim) && Inside(victim) in g.chain && g.chain[Inside(victim)] == []
  }

  /** do_bobble; recycler says whether the effects go to the default recipient and become UNWANTED. */
  ghost function Toaded(g: Graph, player: Dbref, victim: Dbref, recip: Dbref, recycler: bool): (h: Graph)
    requires Ready(g, player) && Matched(g, victim) && (recip == NOTHING || g.IsPlayer(recip))
    ensures h.Sound() && RoomsKept(g, h)
  {
    if !Toadable(g, player, victim, recip) then g
    else
      ToadSound(g, victim, recip, recycler);
      Toad(g, victim, recip, recycler)
  }

  ghost function Toad(g: Graph, victim: Dbref, recip: Dbref, recycler: bool): Graph {
    g.(nodes := seq(|g.nodes|, x requires 0 <= x < |g.nodes| =>
      if x == victim then g.nodes[x].(flags := TYPE_THING, owner := recip)
      else if g.nodes[x].owner == victim then
        g.nodes[x].(owner := recip, flags := if recycler then SetFlag(g.nodes[x].flags, UNWANTED) else g.nodes[x].flags)
      else g.nodes[x]))
  }

  lemma ToadSound(g: Graph, victim: Dbref, recip: Dbref, recycler: bool)
    requires g.Sound() && g.IsPlayer(victim) && g.IsPlayer(recip) && recip != victim && g.chain[Inside(victim)] == []
    ensures var h := Toad(g, victim, recip, recycler);
      && h.Sound() && RoomsKept(g, h)
      && (forall x :: h.Has(x) ==> h.nodes[x].owner != victim)
  {
    var h := Toad(g, victim, recip, recycler);
    forall x | g.Has(x) ensures ToadKind(g, h, victim, x) {
      ToadsKind(g, victim, recip, recycler, x);
    }
    ToadIndexed(g, h, victim);
    forall x | h.Has(x) ensures h.NodeSound(x) {
      ToadNode(g, victim, recip, recycler, x);
    }
  }

  lemma ToadsKind(g: Graph, victim: Dbref, recip: Dbref, recycler: bool, x: Dbref)
    requires g.Has(x)
    ensures ToadKind(g, Toad(g, victim, recip, recycler), victim, x)
  {
  }

  lemma ToadIndexed(g: Graph, h: Graph, victim: Dbref)
    requires g.Indexed() && g.IsPlayer(victim) && |h.nodes| == |g.nodes| && h.chain == g.chain && h.at == g.at
    requires forall x :: g.Has(x) ==> ToadKind(g, h, victim, x)
    ensures h.Indexed()
  {
    forall k ensures h.HasSlot(k) == g.HasSlot(k) {
      assert k.Doors? && g.Has(k.room) ==> ToadKind(g, h, victim, k.room);
    }
    forall k | k in h.chain ensures h.Lists(k) {
      assert g.Lists(k);
    }
  }

  predicate ToadKind(g: Graph, h: Graph, victim: Dbref, x: Dbref)
    requires g.Has(x) && |h.nodes| == |g.nodes|
  {
    Typeof(h.nodes[x].flags) == if x == victim then TYPE_THING else Typeof(g.nodes[x].flags)
  }

  lemma ToadNode(g: Graph, victim: Dbref, recip: Dbref, recycler: bool, x: Dbref)
    requires g.Sound() && g.IsPlayer(victim) && g.IsPlayer(recip) && recip != victim && g.chain[Inside(victim)] == []
    requires g.Has(x) && forall y :: g.Has(y) ==> ToadKind(g, Toad(g, victim, recip, recycler), victim, y)
    ensures Toad(g, victim, recip, recycler).NodeSound(x)
  {
    var h := Toad(g, victim, recip, recycler);
    assert g.NodeSound(x) && g.Lists(Inside(victim)) && x !in g.chain[Inside(victim)];
    var n := g.nodes[x];
    assert ToadKind(g, h, victim, x) && ToadKind(g, h, victim, recip);
    assert g.Has(n.owner) ==> ToadKind(g, h, victim, n.owner);
    assert g.Has(n.location) ==> ToadKind(g, h, victim, n.location);
    assert g.Has(n.home) ==> ToadKind(g, h, victim, n.home);
  }

  /** The guards of do_unbobble; named says whether the name is acceptable. */
  predicate Untoadable(g: Graph, player: Dbref, victim: Dbref, named: bool)
    requires g.Has(player)
  {
    Wizard(g.nodes, player) && g.IsThing(victim) && named
  }

  ghost function Untoaded(g: Graph, player: Dbref, victim: Dbref, named: bool): Graph
    requires Ready(g, player) && Matched(g, victim)
  {
    if Untoadable(g, player, victim, named)
    then g.Changed(victim, g.nodes[victim].(flags := TYPE_PLAYER, owner := victim))
    else g
  }

  /** do_unbobble keeps the invariant exactly when the toad it turns back lies in a room. */
  lemma UntoadSoundIff(g: Graph, player: Dbref, victim: Dbref, named: bool)
    requires Ready(g, player) && Matched(g, victim)
    ensures Untoaded(g, player, victim, named).Sound() <==>
            !(Untoadable(g, player, victim, named) && !g.IsRoom(g.nodes[victim].location))
  {
    var h := Untoaded(g, player, victim, named);
    if h != g {
      assert g.NodeSound(victim);
      ChangedIndexed(g, victim, h.nodes[victim]);
      if g.IsRoom(g.nodes[victim].location) {
        forall x | h.Has(x) ensures h.NodeSound(x) {
          assert g.NodeSound(x);
        }
      } else {
        assert !h.NodeSound(victim);
      }
    }
  }

  // ---- src/rob.c ----

  ghost function Killed(g: Graph, player: Dbref, victim: Dbref, funds: bool, lucky: bool): (h: Graph)
    requires Ready(g, player) && Matched(g, victim)
    ensures h.Sound() && SameKinds(g, h)
  {
    if !g.IsPlayer(victim) then g
    else
      assert g.NodeSound(victim);
      var at := g.nodes[g.nodes[victim].location];
      if (Flag(at.flags, HAVEN) && at.owner != player && !Wizard(g.nodes, player))
         || !funds || !lucky || Wizard(g.nodes, victim) then g
      else
        HomeSound(g, victim);
        g.SentHome(victim)
  }
}

/**
 The commands of src/move.c, src/create.c, src/set.c and src/player.c as functions on the object graph.
 Each keeps the invariant. Names are already matched: an argument called thing, exit, victim or destination
 is what the matcher returned. Whether a payment goes through, whether a name is acceptable and how a die
 falls are arguments too.
 */
module Commands {
  import opened Objects
  import opened Graphs
  import opened Locks

  // ---- Guards of src/predicates.c ----

  predicate Has(nodes: seq<Node>, x: Dbref) {
    0 <= x < |nodes|
  }

  predicate Wizard(nodes: seq<Node>, x: Dbref)
    requires Has(nodes, x)
  {
    Flag(nodes[x].flags, WIZARD)
  }

  predicate Robot(nodes: seq<Node>, x: Dbref)
    requires Has(nodes, x)
  {
    Flag(nodes[x].flags, ROBOT)
  }

  predicate Controls(nodes: seq<Node>, who: Dbref, what: Dbref)
    requires Has(nodes, who)
  {
    Has(nodes, what) && (Wizard(nodes, who) || who == nodes[what].owner)
  }

  predicate CanLinkTo(nodes: seq<Node>, who: Dbref, what: int, where: Dbref)
    requires Has(nodes, who)
  {
    && Has(nodes, where)
    && Typeof(nodes[where].flags) == TYPE_ROOM
    && (|| Controls(nodes, who, where)
        || (what == NOTYPE && (Flag(nodes[where].flags, LINK_OK) || Flag(nodes[where].flags, ABODE)))
        || (what == TYPE_ROOM && Flag(nodes[where].flags, ABODE))
        || (what == TYPE_EXIT && Flag(nodes[where].flags, LINK_OK))
        || ((what == TYPE_PLAYER || what == TYPE_THING)
            && (what != TYPE_PLAYER || !Robot(nodes, who) || !Robot(nodes, where))
            && Flag(nodes[where].flags, ABODE)))
  }

  /** parse_linkable_room once the name is parsed to HOME or a number. */
  function LinkableRoom(nodes: seq<Node>, who: Dbref, what: int, room: Dbref): Dbref
    requires Has(nodes, who)
  {
    if room == HOME then HOME
    else if !Has(nodes, room) || Typeof(nodes[room].flags) != TYPE_ROOM then NOTHING
    else if !CanLinkTo(nodes, who, what, room) then NOTHING
    else room
  }

  /** The part of could_doit that precedes the lock. */
  predicate Unbarred(nodes: seq<Node>, player: Dbref, thing: Dbref)
    requires Has(nodes, player) && Has(nodes, thing)
  {
    var n := nodes[thing];
    && (Typeof(n.flags) != TYPE_ROOM ==> n.location != NOTHING)
    && !(n.owner != player && Typeof(n.flags) != TYPE_PLAYER && Robot(nodes, player) && Robot(nodes, thing))
    && !(Typeof(n.flags) == TYPE_EXIT && Robot(nodes, player) && Has(nodes, n.location)
         && Robot(nodes, n.location) && nodes[n.location].owner != player)
  }

  /** A constant of a lock holds for the player and for what the player carries. */
  predicate Holds(g: Graph, player: Dbref, x: Dbref) {
    x == player || (Inside(player) in g.chain && x in g.chain[Inside(player)])
  }

  function Keyring(g: Graph, player: Dbref): Dbref -> bool {
    x => Holds(g, player, x)
  }

  predicate CouldDoit(g: Graph, player: Dbref, thing: Dbref)
    requires g.Has(player) && g.Has(thing)
  {
    Unbarred(g.nodes, player, thing) && Passes(g.nodes[thing].key, Keyring(g, player))
  }

  predicate CanDoit(g: Graph, player: Dbref, thing: Dbref)
    requires g.Has(player) && g.Has(thing)
  {
    g.nodes[player].location != NOTHING && CouldDoit(g, player, thing)
  }

  /** Between commands; the actor is a player. */
  ghost predicate Ready(g: Graph, player: Dbref) {
    g.Sound() && g.IsPlayer(player)
  }

  /** What match_result can return. */
  predicate Matched(g: Graph, x: Dbref) {
    x == NOTHING || x == AMBIGUOUS || g.Has(x)
  }

  predicate MatchedOn(g: Graph, k: Slot, x: Dbref) {
    x == NOTHING || x == AMBIGUOUS || (k in g.chain && x in g.chain[k])
  }

  // ---- src/move.c ----

  ghost function Went(g: Graph, player: Dbref, exit: Dbref): (h: Graph)
    requires Ready(g, player) && MatchedOn(g, Doors(g.nodes[player].location), exit)
    ensures h.Sound() && SameKinds(g, h)
  {
    if exit == NOTHING || exit == AMBIGUOUS then g
    else
      assert g.Lists(Doors(g.nodes[player].location)) && g.NodeSound(exit);
      if !CanDoit(g, player, exit) then g
      else
        EnterSound(g, player, g.nodes[exit].location);
        g.Entered(player, g.nodes[exit].location)
  }

  ghost function WentHome(g: Graph, player: Dbref): (h: Graph)
    requires Ready(g, player)
    ensures h.Sound() && SameKinds(g, h)
  {
    HomeSound(g, player);
    g.SentHome(player)
  }

  ghost function Got(g: Graph, player: Dbref, thing: Dbref): (h: Graph)
    requires Ready(g, player) && Matched(g, thing)
    ensures h.Sound() && SameKinds(g, h)
  {
    if !g.Has(thing) || g.nodes[thing].location == player then g
    else if g.IsThing(thing) then
      if !CanDoit(g, player, thing) then g
      else
        MovedSound(g, thing, player);
        g.MovedTo(thing, player)
    else if g.IsExit(thing) then
      var loc := g.nodes[player].location;
      assert g.NodeSound(player);
      if !Controls(g.nodes, player, thing) || g.nodes[thing].location != NOTHING
         || thing !in g.chain[Doors(loc)] then g
      else
        ExitTakenSound(g, player, thing);
        g.Pulled(thing, Doors(loc)).Pushed(thing, Inside(player)).Located(thing, player)
    else g
  }

  lemma ExitTakenSound(g: Graph, player: Dbref, exit: Dbref)
    requires Ready(g, player) && g.IsExit(exit) && g.nodes[exit].location == NOTHING
    requires Doors(g.nodes[player].location) in g.chain && exit in g.chain[Doors(g.nodes[player].location)]
    ensures var h := g.Pulled(exit, Doors(g.nodes[player].location)).Pushed(exit, Inside(player)).Located(exit, player);
            h.Sound() && SameKinds(g, h)
  {
    var k := Doors(g.nodes[player].location);
    assert g.Lists(k) && g.NodeSound(exit);
    PulledIndexed(g, exit, k);
    PushedIndexed(g.Pulled(exit, k), exit, Inside(player));
    LocatedIndexed(g.Pulled(exit, k).Pushed(exit, Inside(player)), exit, player);
    var h := g.Pulled(exit, k).Pushed(exit, Inside(player)).Located(exit, player);
    assert h.NodeSound(exit);
    SoundKept(g, h);
  }

  ghost function Dropped(g: Graph, player: Dbref, thing: Dbref): (h: Graph)
    requires Ready(g, player) && MatchedOn(g, Inside(player), thing)
    ensures h.Sound() && SameKinds(g, h)
  {
    if thing == NOTHING || thing == AMBIGUOUS then g
    else
      var loc := g.nodes[player].location;
      assert g.NodeSound(player) && g.Lists(Inside(player)) && g.NodeSound(thing) && g.NodeSound(loc);
      if g.IsExit(thing) then
        if !Controls(g.nodes, player, loc) then g
        else
          ExitDroppedSound(g, player, thing);
          g.MovedTo(thing, NOTHING).Pushed(thing, Doors(loc))
      else if Flag(g.nodes[loc].flags, TEMPLE) || Flag(g.nodes[thing].flags, STICKY) then
        HomeSound(g, thing);
        g.SentHome(thing)
      else if g.nodes[loc].location != NOTHING && !Flag(g.nodes[loc].flags, STICKY) then
        MovedSound(g, thing, g.nodes[loc].location);
        g.MovedTo(thing, g.nodes[loc].location)
      else if Flag(g.nodes[thing].flags, DARK) && !CanLinkTo(g.nodes, player, Typeof(g.nodes[thing].flags), loc) then g
      else
        MovedSound(g, thing, loc);
        g.MovedTo(thing, loc)
  }

  lemma ExitDroppedSound(g: Graph, player: Dbref, exit: Dbref)
    requires Ready(g, player) && g.IsExit(exit) && g.at[exit] == Inside(player)
    ensures g.nodes[exit].location == player && g.CanMove(exit, NOTHING)
    ensures Doors(g.nodes[player].location) in g.chain
    ensures var h := g.MovedTo(exit, NOTHING).Pushed(exit, Doors(g.nodes[player].location));
            h.Sound() && SameKinds(g, h)
  {
    assert g.NodeSound(exit) && g.NodeSound(player);
    var k := Doors(g.nodes[player].location);
    MovedIndexed(g, exit, NOTHING);
    PushedIndexed(g.MovedTo(exit, NOTHING), exit, k);
    var h := g.MovedTo(exit, NOTHING).Pushed(exit, k);
    assert h.NodeSound(exit);
    SoundKept(g, h);
  }

  // ---- src/create.c and src/player.c ----

  ghost predicate RoomsKept(g: Graph, h: Graph) {
    |g.nodes| <= |h.nodes| && forall x :: g.Has(x) ==> (g.IsRoom(x) <==> h.IsRoom(x))
  }

  /** At most one object is new, of the given type; the others are of the type they were. */
  ghost predicate AddsOne(g: Graph, h: Graph, kind: int) {
    && |g.nodes| <= |h.nodes| <= |g.nodes| + 1
    && (forall x :: g.Has(x) ==> Typeof(h.nodes[x].flags) == Typeof(g.nodes[x].flags))
    && (|h.nodes| > |g.nodes| ==> Typeof(h.nodes[|g.nodes|].flags) == kind)
  }

  /** The fields of a new object and the chain it is pushed on agree. */
  predicate Consistent(g: Graph, n: Node, k: Slot) {
    var kind := Typeof(n.flags);
    && (if kind == TYPE_PLAYER then n.owner == |g.nodes| else g.IsPlayer(n.owner))
    && (kind == TYPE_ROOM || kind == TYPE_THING || kind == TYPE_EXIT || kind == TYPE_PLAYER)
    && (kind == TYPE_ROOM ==> n.location == NOTHING && k == Nowhere)
    && (kind == TYPE_THING ==>
          g.IsRoom(n.home) && (g.IsRoom(n.location) || g.IsPlayer(n.location)) && k == Inside(n.location))
    && (kind == TYPE_PLAYER ==> g.IsRoom(n.home) && g.IsRoom(n.location) && k == Inside(n.location))
    && (kind == TYPE_EXIT ==> n.location == NOTHING && k.Doors? && g.IsRoom(k.room))
  }

  lemma MadeSound(g: Graph, n: Node, k: Slot)
    requires g.Sound() && Consistent(g, n, k)
    ensures k != Nowhere ==> k in g.chain
    ensures g.Made(n, k).Sound() && RoomsKept(g, g.Made(n, k)) && AddsOne(g, g.Made(n, k), Typeof(n.flags))
  {
    MadeIndexed(g, n, k);
    var h := g.Made(n, k);
    forall y | h.Has(y) ensures h.NodeSound(y) {
      if y == |g.nodes| {
        NewNodeSound(g, n, k);
      } else {
        OldNodeSound(g, n, k, y);
      }
    }
  }

  lemma MadeIndexed(g: Graph, n: Node, k: Slot)
    requires g.Sound() && Consistent(g, n, k)
    ensures k != Nowhere ==> k in g.chain
    ensures g.Made(n, k).Indexed() && RoomsKept(g, g.Made(n, k))
    ensures forall y :: g.Has(y) ==> g.Made(n, k).nodes[y] == g.nodes[y] && g.Made(n, k).at[y] == g.at[y]
  {
    GrownIndexed(g, n);
    if k != Nowhere {
      PushedIndexed(g.Grown(n), |g.nodes|, k);
    }
  }

  lemma OldNodeSound(g: Graph, n: Node, k: Slot, y: Dbref)
    requires g.Sound() && Consistent(g, n, k) && g.Has(y)
    ensures k != Nowhere ==> k in g.chain
    ensures g.Made(n, k).NodeSound(y)
  {
    MadeIndexed(g, n, k);
    NodeGrown(g, n, y);
    NodeKept(g.Grown(n), g.Made(n, k), y);
  }

  lemma NewNodeSound(g: Graph, n: Node, k: Slot)
    requires g.Sound() && Consistent(g, n, k)
    ensures k != Nowhere ==> k in g.chain
    ensures g.Made(n, k).NodeSound(|g.nodes|)
  {
    MadeIndexed(g, n, k);
    var h := g.Made(n, k);
    assert h.nodes[|g.nodes|] == n && h.at[|g.nodes|] == k;
  }

  /** do_open; link says whether a second argument was given, room what it parses to. */
  ghost function Opened(
      g: Graph, player: Dbref, named: bool, funds: bool, link: bool, room: Dbref, moreFunds: bool): (h: Graph)
    requires Ready(g, player)
    ensures h.Sound() && RoomsKept(g, h) && AddsOne(g, h, TYPE_EXIT)
  {
    var loc := g.nodes[player].location;
    assert g.NodeSound(player);
    if !named || !Controls(g.nodes, player, loc) || !funds then g
    else
      var exit := |g.nodes|;
      var n := Node(TYPE_EXIT, NOTHING, NOTHING, player, Unlocked);
      MadeSound(g, n, Doors(loc));
      var h := g.Made(n, Doors(loc));
      var target := LinkableRoom(h.nodes, player, TYPE_EXIT, room);
      if !link || target == NOTHING || !moreFunds then h
      else
        ExitLinkedSound(h, exit, player, target);
        h.Located(exit, target)
  }

  lemma ExitLinkedSound(g: Graph, exit: Dbref, owner: Dbref, room: Dbref)
    requires g.Sound() && g.IsExit(exit) && !g.Carried(exit) && g.IsPlayer(owner) && g.IsLink(room)
    ensures var h := g.Changed(exit, g.nodes[exit].(owner := owner, location := room));
            h.Sound() && SameKinds(g, h)
  {
    assert g.NodeSound(exit);
    var h := g.Changed(exit, g.nodes[exit].(owner := owner, location := room));
    ChangedIndexed(g, exit, h.nodes[exit]);
    assert h.NodeSound(exit);
    SoundKept(g, h);
  }

  ghost function Dug(g: Graph, player: Dbref, named: bool, funds: bool): (h: Graph)
    requires Ready(g, player)
    ensures h.Sound() && RoomsKept(g, h) && AddsOne(g, h, TYPE_ROOM)
  {
    var n := Node(TYPE_ROOM, NOTHING, NOTHING, player, Unlocked);
    if !named || !funds then g else
      MadeSound(g, n, Nowhere);
      g.Made(n, Nowhere)
  }

  /** A new thing's home is the room it is made in if its maker controls that, else its maker's home. */
  ghost function Created(g: Graph, player: Dbref, named: bool, funds: bool): (h: Graph)
    requires Ready(g, player)
    ensures h.Sound() && RoomsKept(g, h) && AddsOne(g, h, TYPE_THING)
  {
    assert g.NodeSound(player);
    var loc := g.nodes[player].location;
    var home := if loc != NOTHING && Controls(g.nodes, player, loc) then loc else g.nodes[player].home;
    var n := Node(TYPE_THING, player, home, player, Unlocked);
    if !named || !funds then g else
      MadeSound(g, n, Inside(player));
      g.Made(n, Inside(player))
  }

  ghost function PlayerCreated(g: Graph, named: bool): (h: Graph)
    requires g.Sound() && g.IsRoom(PLAYER_START)
    ensures h.Sound() && RoomsKept(g, h) && AddsOne(g, h, TYPE_PLAYER)
  {
    var n := Node(TYPE_PLAYER, PLAYER_START, PLAYER_START, |g.nodes|, Unlocked);
    if !named then g else
      MadeSound(g, n, Inside(PLAYER_START));
      g.Made(n, Inside(PLAYER_START))
  }

  /** do_link: an exit's destination, a player's or thing's home, or a room's dropto. */
  ghost function LinkSet(g: Graph, player: Dbref, thing: Dbref, name: Dbref, funds: bool): (h: Graph)
    requires Ready(g, player) && Matched(g, thing)
    ensures h.Sound() && SameKinds(g, h)
  {
    if !g.Has(thing) then g
    else
      var n := g.nodes[thing];
      var room := LinkableRoom(g.nodes, player, Typeof(n.flags), name);
      assert g.NodeSound(thing);
      if room == NOTHING then g
      else if g.IsExit(thing) then
        if n.location != NOTHING || !funds then g
        else
          ExitLinkedSound(g, thing, player, room);
          g.Changed(thing, n.(owner := player, location := room))
      else if !Controls(g.nodes, player, thing) then g
      else if g.IsRoom(thing) then
        FieldSound(g, thing, n.(location := room));
        g.Changed(thing, n.(location := room))
      else if room == HOME then g
      else
        FieldSound(g, thing, n.(home := room));
        g.Changed(thing, n.(home := room))
  }

  /** Changing fields of a node that leave it sound where it is. */
  lemma FieldSound(g: Graph, x: Dbref, n: Node)
    requires g.Sound() && g.Has(x) && Typeof(n.flags) == Typeof(g.nodes[x].flags)
    requires n.location == g.nodes[x].location || (g.IsRoom(x) && g.IsLink(n.location))
    requires n.home == g.nodes[x].home || g.IsRoom(n.home)
    requires n.owner == g.nodes[x].owner || (!g.IsPlayer(x) && g.IsPlayer(n.owner))
    ensures g.Changed(x, n).Sound() && SameKinds(g, g.Changed(x, n))
  {
    assert g.NodeSound(x);
    var h := g.Changed(x, n);
    ChangedIndexed(g, x, n);
    assert h.NodeSound(x);
    SoundKept(g, h);
  }

  // ---- src/set.c ----

  ghost function Unlinked(g: Graph, player: Dbref, exit: Dbref): (h: Graph)
    requires Ready(g, player) && Matched(g, exit)
  {
    if g.Has(exit) && Controls(g.nodes, player, exit) && (g.IsExit(exit) || g.IsRoom(exit))
    then g.Located(exit, NOTHING)
    else g
  }

  /** do_unlink keeps the invariant exactly when it is not applied to an exit somebody carries. */
  lemma UnlinkSoundIff(g: Graph, player: Dbref, exit: Dbref)
    requires Ready(g, player) && Matched(g, exit)
    ensures Unlinked(g, player, exit).Sound() <==>
            !(g.Has(exit) && Controls(g.nodes, player, exit) && g.Carried(exit))
  {
    var h := Unlinked(g, player, exit);
    if h != g {
      assert g.NodeSound(exit);
      if g.Carried(exit) {
        assert !h.NodeSound(exit);
      } else {
        LocatedIndexed(g, exit, NOTHING);
        assert h.NodeSound(exit);
        SoundKept(g, h);
      }
    }
  }

  ghost function OwnerChanged(g: Graph, player: Dbref, thing: Dbref, found: Dbref, me: bool): (h: Graph)
    requires Ready(g, player) && Matched(g, thing) && (found == NOTHING || g.IsPlayer(found))
    ensures h.Sound() && SameKinds(g, h)
  {
    if !g.Has(thing) || (found == NOTHING && !me) || g.IsPlayer(thing) then g
    else if !Wizard(g.nodes, player)
            && ((!me && found != player) || !Flag(g.nodes[thing].flags, UNWANTED)
                || !CouldDoit(g, player, thing)) then g
    else
      var n := g.nodes[thing].(owner := if me then player else found);
      FieldSound(g, thing, n);
      g.Changed(thing, n)
  }

  /** do_recycle: the thing goes to the Recycler's home, unlocked and up for grabs. */
  ghost function Recycled(g: Graph, player: Dbref, thing: Dbref, recip: Dbref): (h: Graph)
    requires Ready(g, player) && Matched(g, thing) && (recip == NOTHING || g.IsPlayer(recip))
    ensures h.Sound() && SameKinds(g, h)
  {
    if !g.Has(thing) || !Controls(g.nodes, player, thing) || g.IsPlayer(thing) || recip == NOTHING then g
    else
      var n := g.nodes[thing].(owner := recip);
      assert g.NodeSound(recip);
      FieldSound(g, thing, n);
      var h := g.Changed(thing, n);
      var m :=
        if g.IsThing(thing) then
          FieldSound(h, thing, n.(home := g.nodes[recip].home));
          var h' := h.Changed(thing, n.(home := g.nodes[recip].home));
          MovedSound(h', thing, g.nodes[recip].home);
          h'.MovedTo(thing, g.nodes[recip].home)
        else h;
      var n' := m.nodes[thing].(key := Unlocked, flags := SetFlag(m.nodes[thing].flags, UNWANTED));
      FieldSound(m, thing, n');
      m.Changed(thing, n')
  }

  /** do_set and do_lock, do_unlock: flag bits above the type, and keys, of controlled objects. */
  ghost function FlagsSet(g: Graph, player: Dbref, thing: Dbref, flags: int, key: Lock): (h: Graph)
    requires Ready(g, player) && Matched(g, thing)
    requires g.Has(thing) ==> Typeof(flags) == Typeof(g.nodes[thing].flags)
    ensures h.Sound() && SameKinds(g, h)
  {
    if !g.Has(thing) || !Controls(g.nodes, player, thing) then g
    else
      FieldSound(g, thing, g.nodes[thing].(flags := flags, key := key));
      g.Changed(thing, g.nodes[thing].(flags := flags, key := key))
  }
}

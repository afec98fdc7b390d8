/**
 What the commands of src/create.c, src/set.c, src/wiz.c and src/rob.c do to the world, in terms of fields and
 chains alone, in every case, and that nothing else changes.
 */
module Changes {
  import opened Objects
  import Lists
  import opened Graphs
  import opened Commands
  import opened Powers
  import opened Effects
  import opened Outcomes

  /** One object has other fields, nothing has moved. */
  ghost predicate OnlyChanged(g: Graph, h: Graph, x: Dbref, n: Node) {
    g.Has(x) && h.chain == g.chain && h.at == g.at && h.nodes == g.nodes[x := n]
  }

  /** One object is new, at the front of chain k, or on none; everything else is as it was. */
  ghost predicate OnlyMade(g: Graph, h: Graph, n: Node, k: Slot) {
    var x := |g.nodes|;
    && h.nodes == g.nodes + [n] && h.at == g.at + [k]
    && (forall j :: j in h.chain <==> j in g.chain || j == Inside(x) || (Typeof(n.flags) == TYPE_ROOM && j == Doors(x)))
    && (forall j {:trigger h.chain[j]} :: j in h.chain ==>
          h.chain[j] == (if j == k then [x] else []) + if j in g.chain then g.chain[j] else [])
  }

  lemma MadeMeans(g: Graph, n: Node, k: Slot)
    requires g.Sound() && Consistent(g, n, k)
    ensures k != Nowhere ==> k in g.chain
    ensures OnlyMade(g, g.Made(n, k), n, k)
  {
    MadeIndexed(g, n, k);
    var h, x := g.Made(n, k), |g.nodes|;
    forall j | j in h.chain
      ensures h.chain[j] == (if j == k then [x] else []) + if j in g.chain then g.chain[j] else []
    {
      assert Inside(x) !in g.chain && Doors(x) !in g.chain;
      assert j in g.chain ==> [] + g.chain[j] == g.chain[j];
    }
    assert h.nodes == g.nodes + [n] && h.at == g.at + [k];
  }

  /** What an object of some type may be linked to: HOME, and rooms ruled or open to such objects. */
  predicate Linkable(g: Graph, who: Dbref, kind: int, room: Dbref)
    requires g.Has(who)
  {
    room == HOME
    || (&& g.IsRoom(room)
        && var flags := g.nodes[room].flags;
           || Rules(g, who, room)
           || (Flag(flags, LINK_OK) && kind == TYPE_EXIT)
           || (Flag(flags, ABODE) && (kind == TYPE_ROOM || kind == TYPE_THING))
           || (Flag(flags, ABODE) && kind == TYPE_PLAYER
               && !(Flag(g.nodes[who].flags, ROBOT) && Flag(flags, ROBOT))))
  }

  // ---- src/create.c and src/player.c ----

  lemma OpenOutcome(
      g: Graph, player: Dbref, named: bool, funds: bool, link: bool, room: Dbref, moreFunds: bool)
    requires Ready(g, player)
    ensures var h, loc := Opened(g, player, named, funds, link, room, moreFunds), g.nodes[player].location;
      if !named || !funds || !Rules(g, player, loc) then h == g
      else
        var to := if link && moreFunds && Linkable(g, player, TYPE_EXIT, room) then room else NOTHING;
        OnlyMade(g, h, Node(TYPE_EXIT, to, NOTHING, player, Unlocked), Doors(loc))
  {
    assert g.NodeSound(player);
    var loc := g.nodes[player].location;
    if named && funds && Rules(g, player, loc) {
      var n := Node(TYPE_EXIT, NOTHING, NOTHING, player, Unlocked);
      MadeSound(g, n, Doors(loc));
      MadeMeans(g, n, Doors(loc));
      var h := g.Made(n, Doors(loc));
      assert h.nodes == g.nodes + [n];
      assert h.nodes[|g.nodes| := n.(location := room)] == g.nodes + [n.(location := room)];
    }
  }

  lemma DigOutcome(g: Graph, player: Dbref, named: bool, funds: bool)
    requires Ready(g, player)
    ensures var h := Dug(g, player, named, funds);
      if named && funds then OnlyMade(g, h, Node(TYPE_ROOM, NOTHING, NOTHING, player, Unlocked), Nowhere) else h == g
  {
    MadeMeans(g, Node(TYPE_ROOM, NOTHING, NOTHING, player, Unlocked), Nowhere);
  }

  /** A new thing is carried, and at home here for those who rule the room, with its maker for others. */
  lemma CreateOutcome(g: Graph, player: Dbref, named: bool, funds: bool)
    requires Ready(g, player)
    ensures var h, loc := Created(g, player, named, funds), g.nodes[player].location;
      if named && funds then
        var home := if Rules(g, player, loc) then loc else g.nodes[player].home;
        OnlyMade(g, h, Node(TYPE_THING, player, home, player, Unlocked), Inside(player))
      else h == g
  {
    assert g.NodeSound(player);
    var loc := g.nodes[player].location;
    var home := if Rules(g, player, loc) then loc else g.nodes[player].home;
    MadeMeans(g, Node(TYPE_THING, player, home, player, Unlocked), Inside(player));
  }

  /** A new player stands in room 0, is at home there, and owns itself. */
  lemma CreatePlayerOutcome(g: Graph, named: bool)
    requires g.Sound() && g.IsRoom(0)
    ensures var h := PlayerCreated(g, named);
      if named then OnlyMade(g, h, Node(TYPE_PLAYER, 0, 0, |g.nodes|, Unlocked), Inside(0)) else h == g
  {
    MadeMeans(g, Node(TYPE_PLAYER, 0, 0, |g.nodes|, Unlocked), Inside(0));
  }

  lemma LinkOutcome(g: Graph, player: Dbref, x: Dbref, room: Dbref, funds: bool)
    requires Ready(g, player) && Matched(g, x)
    ensures var h := LinkSet(g, player, x, room, funds);
      if !g.Has(x) || !Linkable(g, player, Typeof(g.nodes[x].flags), room) then h == g
      else
        var n := g.nodes[x];
        if g.IsExit(x) then
          if n.location == NOTHING && funds then OnlyChanged(g, h, x, n.(owner := player, location := room)) else h == g
        else if !Rules(g, player, x) then h == g
        else if g.IsRoom(x) then OnlyChanged(g, h, x, n.(location := room))
        else if room == HOME then h == g
        else OnlyChanged(g, h, x, n.(home := room))
  {
    if g.Has(x) {
      assert g.NodeSound(x);
    }
  }

  // ---- src/set.c ----

  lemma UnlinkOutcome(g: Graph, player: Dbref, x: Dbref)
    requires Ready(g, player) && Matched(g, x)
    ensures var h := Unlinked(g, player, x);
      if Rules(g, player, x) && (g.IsExit(x) || g.IsRoom(x))
      then OnlyChanged(g, h, x, g.nodes[x].(location := NOTHING)) else h == g
  {
  }

  /** Only wizards give things away, or take what is not marked UNWANTED or locked; players stay their own. */
  lemma ChownOutcome(g: Graph, player: Dbref, x: Dbref, found: Dbref, me: bool)
    requires Ready(g, player) && Matched(g, x) && (found == NOTHING || g.IsPlayer(found))
    ensures var h, heir := OwnerChanged(g, player, x, found, me), if me then player else found;
      if g.Has(x) && !g.IsPlayer(x) && heir != NOTHING
         && (Flag(g.nodes[player].flags, WIZARD)
             || (heir == player && Flag(g.nodes[x].flags, UNWANTED) && CouldDoit(g, player, x)))
      then OnlyChanged(g, h, x, g.nodes[x].(owner := heir)) else h == g
  {
  }

  function WithUnwanted(flags: int): int {
    if Flag(flags, UNWANTED) then flags else flags + 0x8000
  }

  /** What is recycled belongs to the recipient, unlocked and UNWANTED; a thing lies, and is at home, in its home. */
  lemma RecycleOutcome(g: Graph, player: Dbref, x: Dbref, recip: Dbref)
    requires Ready(g, player) && Matched(g, x) && (recip == NOTHING || g.IsPlayer(recip))
    ensures var h := Recycled(g, player, x, recip);
      if !Rules(g, player, x) || g.IsPlayer(x) || recip == NOTHING then h == g
      else
        var n, home := g.nodes[x], g.nodes[recip].home;
        var m := n.(owner := recip, key := Unlocked, flags := WithUnwanted(n.flags));
        if g.IsThing(x) then
          && OthersKept(g, h, x) && h.nodes[x] == m.(home := home, location := home) && h.at[x] == Inside(home)
          && Inside(home) in h.chain && h.chain[Inside(home)] != [] && h.chain[Inside(home)][0] == x
        else OnlyChanged(g, h, x, m)
  {
    if g.IsThing(x) && Rules(g, player, x) && recip != NOTHING {
      ThingRecycled(g, player, x, recip);
    }
  }

  lemma ThingRecycled(g: Graph, player: Dbref, x: Dbref, recip: Dbref)
    requires Ready(g, player) && g.IsThing(x) && Rules(g, player, x) && g.IsPlayer(recip)
    ensures var h, n, home := Recycled(g, player, x, recip), g.nodes[x], g.nodes[recip].home;
      && OthersKept(g, h, x) && h.at[x] == Inside(home)
      && h.nodes[x] == Node(WithUnwanted(n.flags), home, home, recip, Unlocked)
      && Inside(home) in h.chain && h.chain[Inside(home)] != [] && h.chain[Inside(home)][0] == x
  {
    var m := RehomedMoves(g, x, recip);
    var h := m.MovedTo(x, g.nodes[recip].home);
    RecycledIs(g, player, x, recip, m);
    ChangedKept(g, m.nodes[x], h, h.nodes[x].(key := Unlocked, flags := WithUnwanted(h.nodes[x].flags)), x);
  }

  /** The thing is the recipient's and at home where the recipient is; that is where it goes. */
  lemma RehomedMoves(g: Graph, x: Dbref, recip: Dbref) returns (m: Graph)
    requires g.Sound() && g.IsThing(x) && g.IsPlayer(recip)
    ensures var home := g.nodes[recip].home;
      && m == g.Changed(x, g.nodes[x].(owner := recip, home := home)) && m.Sound() && m.CanMove(x, home)
      && OnlyMoved(m, m.MovedTo(x, home), x, home) && m.MovedTo(x, home).Sound()
  {
    assert g.NodeSound(recip);
    var home := g.nodes[recip].home;
    var n := g.nodes[x].(owner := recip);
    FieldSound(g, x, n);
    FieldSound(g.Changed(x, n), x, n.(home := home));
    m := g.Changed(x, n).Changed(x, n.(home := home));
    assert m == g.Changed(x, n.(home := home));
    MovedSound(m, x, home);
    MovedMeans(m, x, home);
  }

  lemma RecycledIs(g: Graph, player: Dbref, x: Dbref, recip: Dbref, m: Graph)
    requires Ready(g, player) && g.IsThing(x) && Rules(g, player, x) && g.IsPlayer(recip)
    requires m == g.Changed(x, g.nodes[x].(owner := recip, home := g.nodes[recip].home))
    requires m.Sound() && m.CanMove(x, g.nodes[recip].home)
    ensures var h := m.MovedTo(x, g.nodes[recip].home);
      && h.Has(x)
      && Recycled(g, player, x, recip) ==
           h.Changed(x, h.nodes[x].(key := Unlocked, flags := WithUnwanted(h.nodes[x].flags)))
  {
    var n := g.nodes[x].(owner := recip);
    assert g.Changed(x, n).Changed(x, n.(home := g.nodes[recip].home)) == m;
  }

  /** Changing fields of x, before or after, leaves the others as they are kept. */
  lemma ChangedKept(g: Graph, n: Node, h: Graph, m: Node, x: Dbref)
    requires g.Has(x) && OthersKept(g.Changed(x, n), h, x)
    ensures h.Has(x) && OthersKept(g, h.Changed(x, m), x)
  {
    forall k | k in g.chain ensures Lists.Without(h.chain[k], x) == Lists.Without(g.chain[k], x) {
      assert g.Changed(x, n).chain[k] == g.chain[k];
    }
  }

  lemma SetOutcome(g: Graph, player: Dbref, x: Dbref, flags: int, key: Lock)
    requires Ready(g, player) && Matched(g, x)
    requires g.Has(x) ==> Typeof(flags) == Typeof(g.nodes[x].flags)
    ensures var h := FlagsSet(g, player, x, flags, key);
      if Rules(g, player, x) then OnlyChanged(g, h, x, g.nodes[x].(flags := flags, key := key)) else h == g
  {
  }

  // ---- src/wiz.c ----

  /** Who may send the victim to the destination. */
  predicate MayTeleport(g: Graph, player: Dbref, victim: Dbref, to: Dbref)
    requires g.Has(player) && g.Has(victim)
  {
    var at := g.nodes[victim].location;
    || Flag(g.nodes[player].flags, WIZARD)
    || (&& g.IsThing(victim) && g.IsRoom(to)
        && (Rules(g, player, victim) || (g.IsRoom(at) && Rules(g, player, at)))
        && Linkable(g, player, TYPE_PLAYER, to))
  }

  /**
   Players are sent to rooms, as if they walked; things to players and rooms, where an immediate dropto takes them,
   home for HOME. Nothing else is sent, and nowhere else.
   */
  lemma TeleportOutcome(g: Graph, player: Dbref, victim: Dbref, to: Dbref) returns (m: Graph)
    requires Ready(g, player) && Matched(g, victim) && Matched(g, to)
    ensures var h := Teleported(g, player, victim, to);
      if g.IsPlayer(victim) && g.IsRoom(to) && MayTeleport(g, player, victim, to) then EnteredBy(g, m, h, victim, to)
      else if g.IsThing(victim) && (g.IsRoom(to) || g.IsPlayer(to)) && MayTeleport(g, player, victim, to) then
        var n := g.nodes[to];
        OnlyMoved(g, h, victim,
          if g.IsPlayer(to) || n.location == NOTHING || Flag(n.flags, STICKY) then to
          else if n.location == HOME then g.nodes[victim].home
          else n.location)
      else h == g
  {
    m := g;
    assert g.Has(victim) && g.Has(to) ==> g.NodeSound(victim) && g.NodeSound(to);
    if g.IsPlayer(victim) && g.IsRoom(to) {
      m := EnterMeans(g, victim, to);
    } else if g.IsThing(victim) && (g.IsRoom(to) || g.IsPlayer(to)) {
      ThingTeleports(g, player, victim, to);
    }
  }

  lemma ThingTeleports(g: Graph, player: Dbref, victim: Dbref, to: Dbref)
    requires Ready(g, player) && g.IsThing(victim) && (g.IsRoom(to) || g.IsPlayer(to))
    ensures var h, n := Teleported(g, player, victim, to), g.nodes[to];
      if MayTeleport(g, player, victim, to) then
        OnlyMoved(g, h, victim,
          if g.IsPlayer(to) || n.location == NOTHING || Flag(n.flags, STICKY) then to
          else if n.location == HOME then g.nodes[victim].home
          else n.location)
      else h == g
  {
    if MayTeleport(g, player, victim, to) {
      ThingSent(g, player, victim, to);
    } else {
      ThingStays(g, player, victim, to);
    }
  }

  lemma ThingStays(g: Graph, player: Dbref, victim: Dbref, to: Dbref)
    requires Ready(g, player) && g.IsThing(victim) && (g.IsRoom(to) || g.IsPlayer(to))
    requires !MayTeleport(g, player, victim, to)
    ensures Teleported(g, player, victim, to) == g
  {
    assert g.NodeSound(victim);
  }

  lemma ThingSent(g: Graph, player: Dbref, victim: Dbref, to: Dbref)
    requires Ready(g, player) && g.IsThing(victim) && (g.IsRoom(to) || g.IsPlayer(to))
    requires MayTeleport(g, player, victim, to)
    ensures var n := g.nodes[to];
      OnlyMoved(g, Teleported(g, player, victim, to), victim,
        if g.IsPlayer(to) || n.location == NOTHING || Flag(n.flags, STICKY) then to
        else if n.location == HOME then g.nodes[victim].home
        else n.location)
  {
    assert g.NodeSound(victim) && g.NodeSound(to);
    var place := TeleportTo(g, victim, to);
    assert Teleported(g, player, victim, to) == g.MovedTo(victim, place);
  }

  lemma TeleportTo(g: Graph, victim: Dbref, to: Dbref) returns (place: Dbref)
    requires g.Sound() && g.IsThing(victim) && (g.IsRoom(to) || g.IsPlayer(to))
    ensures var n := g.nodes[to];
      place == if g.IsRoom(to) && n.location != NOTHING && !Flag(n.flags, STICKY) then n.location else to
    ensures g.CanMove(victim, place)
    ensures OnlyMoved(g, g.MovedTo(victim, place), victim, if place == HOME then g.nodes[victim].home else place)
  {
    assert g.NodeSound(to);
    var n := g.nodes[to];
    place := if g.IsRoom(to) && n.location != NOTHING && !Flag(n.flags, STICKY) then n.location else to;
    MovedSound(g, victim, place);
    MovedMeans(g, victim, place);
  }

  /** Everybody else is in the room, and nothing else has changed its place or fields. */
  lemma MassTeleportOutcome(g: Graph, player: Dbref, room: Dbref, y: Dbref)
    requires Ready(g, player) && (room == NOTHING || g.Has(room)) && g.Has(y)
    ensures var h := MassTeleported(g, player, room);
      if player != 1 || !g.IsRoom(room) then h == g
      else
        && |h.nodes| == |g.nodes|
        && h.nodes[y] == if g.IsPlayer(y) && y != player then g.nodes[y].(location := room) else g.nodes[y]
  {
    if player == 1 && g.IsRoom(room) {
      EverybodyMoves(g, player, room, 0, y);
    }
  }

  lemma OneMoves(g: Graph, x: Dbref, room: Dbref, y: Dbref)
    requires g.Sound() && g.IsPlayer(x) && g.IsRoom(room) && g.Has(y)
    ensures g.CanMove(x, room)
    ensures var h := g.MovedTo(x, room);
      && h.Sound() && SameKinds(g, h)
      && h.nodes[y] == if y == x then g.nodes[y].(location := room) else g.nodes[y]
  {
    MovedSound(g, x, room);
  }

  lemma {:induction false} EverybodyMoves(g: Graph, player: Dbref, room: Dbref, i: nat, y: Dbref)
    requires g.Sound() && g.IsRoom(room) && i <= |g.nodes| && g.Has(y)
    ensures var h := AllTeleported(g, player, room, i);
      && |h.nodes| == |g.nodes|
      && h.nodes[y] == if g.IsPlayer(y) && y != player && y >= i then g.nodes[y].(location := room) else g.nodes[y]
    decreases |g.nodes| - i
  {
    if i < |g.nodes| {
      if i != player && g.IsPlayer(i) {
        OneMoves(g, i, room, y);
        EverybodyMoves(g.MovedTo(i, room), player, room, i + 1, y);
      } else {
        EverybodyMoves(g, player, room, i + 1, y);
      }
    }
  }

  /** A player, no wizard and with empty hands, becomes a thing of the recipient's, as does all the player owned. */
  lemma ToadOutcome(g: Graph, player: Dbref, victim: Dbref, recip: Dbref, recycler: bool, y: Dbref)
    requires Ready(g, player) && Matched(g, victim) && (recip == NOTHING || g.IsPlayer(recip)) && g.Has(y)
    ensures var h := Toaded(g, player, victim, recip, recycler);
      if Flag(g.nodes[player].flags, WIZARD) && g.IsPlayer(victim) && !Flag(g.nodes[victim].flags, WIZARD)
         && recip != NOTHING && recip != victim && (forall x :: g.Has(x) ==> g.at[x] != Inside(victim))
      then
        var n := g.nodes[y];
        && h.chain == g.chain && h.at == g.at && |h.nodes| == |g.nodes|
        && h.nodes[y] ==
             if y == victim then n.(flags := TYPE_THING, owner := recip)
             else if n.owner == victim then
               n.(owner := recip, flags := if recycler then WithUnwanted(n.flags) else n.flags)
             else n
      else h == g
  {
    if g.IsPlayer(victim) {
      EmptyHanded(g, victim);
      ToadFields(g, victim, recip, recycler, y);
    }
  }

  lemma EmptyHanded(g: Graph, x: Dbref)
    requires g.Indexed() && g.Has(x)
    ensures g.chain[Inside(x)] == [] <==> forall y :: g.Has(y) ==> g.at[y] != Inside(x)
  {
    var s := g.chain[Inside(x)];
    assert g.Lists(Inside(x));
    if s != [] {
      assert g.Has(s[0]) && g.at[s[0]] == Inside(x);
    }
  }

  lemma ToadFields(g: Graph, victim: Dbref, recip: Dbref, recycler: bool, y: Dbref)
    requires g.Has(y)
    ensures var h, n := Toad(g, victim, recip, recycler), g.nodes[y];
      && h.chain == g.chain && h.at == g.at && |h.nodes| == |g.nodes|
      && h.nodes[y] ==
           if y == victim then n.(flags := TYPE_THING, owner := recip)
           else if n.owner == victim then
             n.(owner := recip, flags := if recycler then WithUnwanted(n.flags) else n.flags)
           else n
  {
  }

  lemma UntoadOutcome(g: Graph, player: Dbref, victim: Dbref, named: bool)
    requires Ready(g, player) && Matched(g, victim)
    ensures var h := Untoaded(g, player, victim, named);
      if Flag(g.nodes[player].flags, WIZARD) && g.IsThing(victim) && named
      then OnlyChanged(g, h, victim, g.nodes[victim].(flags := TYPE_PLAYER, owner := victim)) else h == g
  {
  }

  // ---- src/rob.c ----

  /** Whoever is killed is at home, with all possessions at theirs; wizards are not, nor anybody in another's HAVEN. */
  lemma KillOutcome(g: Graph, player: Dbref, victim: Dbref, funds: bool, lucky: bool, y: Dbref)
    requires Ready(g, player) && Matched(g, victim) && g.IsThing(y)
    ensures var h := Killed(g, player, victim, funds, lucky);
      if !g.IsPlayer(victim) || !g.IsRoom(g.nodes[victim].location) then h == g
      else
        var v, n := g.nodes[victim], g.nodes[y];
        var room := g.nodes[v.location];
        if funds && lucky && !Flag(v.flags, WIZARD)
           && (Flag(room.flags, HAVEN) ==> room.owner == player || Flag(g.nodes[player].flags, WIZARD))
        then
          && |h.nodes| == |g.nodes| && h.nodes[victim] == v.(location := v.home)
          && h.nodes[y] == n.(location := PlaceAfter(g, victim, v.home, y,
               if n.location == victim then n.home else n.location))
        else h == g
  {
    if g.IsPlayer(victim) {
      assert g.NodeSound(victim);
      HomePlaces(g, victim, y);
    }
  }
}

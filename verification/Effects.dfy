/** What single commands achieve and what they leave alone, beyond keeping the invariant. */
module Effects {
  import opened Objects
  import opened Lists
  import opened Graphs
  import opened Commands

  /** Apart from x, every chain lists the same objects in the same order. */
  ghost predicate OthersKept(g: Graph, h: Graph, x: Dbref) {
    && |g.nodes| == |h.nodes| && |g.at| == |h.at| == |g.nodes|
    && (forall k :: k in g.chain <==> k in h.chain)
    && (forall k {:trigger h.chain[k]} :: k in g.chain ==> Without(h.chain[k], x) == Without(g.chain[k], x))
    && (forall y :: g.Has(y) && y != x ==> h.nodes[y] == g.nodes[y] && h.at[y] == g.at[y])
  }

  lemma WithoutFirst<T>(x: T, s: seq<T>)
    ensures Without([x] + s, x) == s
  {
    assert ([x] + s)[1..] == s;
  }

  /** x has gone to the front of the contents of t, and nothing else has changed. */
  ghost predicate OnlyMoved(g: Graph, h: Graph, x: Dbref, t: Dbref) {
    && OthersKept(g, h, x) && g.Has(x) && Inside(t) in g.chain
    && h.nodes[x] == g.nodes[x].(location := t) && h.at[x] == Inside(t)
    && h.chain[Inside(t)] == [x] + Without(g.chain[Inside(t)], x)
  }

  /** moveto puts the object in front of the target's contents, its home's for HOME, and disturbs nothing else. */
  lemma MovedMeans(g: Graph, x: Dbref, where: Dbref)
    requires g.Indexed() && g.CanMove(x, where) && where != NOTHING
    ensures OnlyMoved(g, g.MovedTo(x, where), x, if where == HOME then g.nodes[x].home else where)
  {
    var h := g.MovedTo(x, where);
    forall k | k in g.chain ensures Without(h.chain[k], x) == Without(g.chain[k], x) {
      assert g.Lists(k);
      WithoutDistinct(g.chain[k], x);
      WithoutFirst(x, Without(g.chain[k], x));
    }
  }

  lemma KeptTwice(g: Graph, m: Graph, h: Graph, x: Dbref)
    requires OthersKept(g, m, x) && OthersKept(m, h, x)
    ensures OthersKept(g, h, x)
  {
    forall k | k in g.chain ensures Without(h.chain[k], x) == Without(g.chain[k], x) {
      assert Without(m.chain[k], x) == Without(g.chain[k], x);
    }
  }

  /** Nothing gets in the way of putting a thing down at loc. */
  predicate FreelyDropped(g: Graph, thing: Dbref, loc: Dbref)
    requires g.Has(thing) && g.Has(loc)
  {
    && !Flag(g.nodes[loc].flags, TEMPLE) && !Flag(g.nodes[thing].flags, STICKY) && !Flag(g.nodes[thing].flags, DARK)
    && (g.nodes[loc].location != NOTHING ==> Flag(g.nodes[loc].flags, STICKY))
  }

  lemma ThereAndBack(g: Graph, x: Dbref, there: Dbref)
    requires g.Sound() && g.IsThing(x) && g.IsPlayer(there) && g.IsRoom(g.nodes[x].location)
    ensures g.CanMove(x, there)
    ensures var m, loc := g.MovedTo(x, there), g.nodes[x].location;
      && m.CanMove(x, loc)
      && var h := m.MovedTo(x, loc);
         && h.nodes == g.nodes && h.at == g.at && OthersKept(g, h, x)
         && h.chain[Inside(loc)] == [x] + Without(g.chain[Inside(loc)], x)
  {
    var loc := g.nodes[x].location;
    assert g.NodeSound(x);
    MovedSound(g, x, there);
    MovedMeans(g, x, there);
    var m := g.MovedTo(x, there);
    MovedSound(m, x, loc);
    MovedMeans(m, x, loc);
    var h := m.MovedTo(x, loc);
    KeptTwice(g, m, h, x);
    assert h.nodes == g.nodes && h.at == g.at;
    var c := h.chain[Inside(loc)];
    assert c == [x] + c[1..];
    WithoutFirst(x, c[1..]);
  }

  lemma DropsHere(g: Graph, player: Dbref, thing: Dbref)
    requires Ready(g, player) && g.IsThing(thing) && MatchedOn(g, Inside(player), thing)
    requires var loc := g.nodes[player].location; g.Has(loc) && FreelyDropped(g, thing, loc)
    ensures g.CanMove(thing, g.nodes[player].location)
    ensures Dropped(g, player, thing) == g.MovedTo(thing, g.nodes[player].location)
  {
    assert g.NodeSound(player);
    MovedSound(g, thing, g.nodes[player].location);
  }

  /** Dropping a thing undoes getting it, except that it now lies in front. */
  lemma GetThenDrop(g: Graph, player: Dbref, thing: Dbref)
    requires Ready(g, player) && g.IsThing(thing) && CanDoit(g, player, thing)
    requires var loc := g.nodes[player].location;
      g.nodes[thing].location == loc && g.Has(loc) && FreelyDropped(g, thing, loc)
    ensures var m, loc := Got(g, player, thing), g.nodes[player].location;
      && Ready(m, player) && MatchedOn(m, Inside(player), thing)
      && m.nodes[thing].location == player
      && var h := Dropped(m, player, thing);
         && h.nodes == g.nodes && h.at == g.at && OthersKept(g, h, thing)
         && h.chain[Inside(loc)] == [thing] + Without(g.chain[Inside(loc)], thing)
  {
    var loc := g.nodes[player].location;
    assert g.NodeSound(player);
    ThereAndBack(g, thing, player);
    MovedSound(g, thing, player);
    MovedMeans(g, thing, player);
    var m := g.MovedTo(thing, player);
    assert Got(g, player, thing) == m && m.Lists(Inside(player)) && m.nodes[loc] == g.nodes[loc];
    DropsHere(m, player, thing);
  }

  // ---- Where send_contents, enter_room and send_home leave things ----

  /** The objects of s that are now in l, in the order of s. */
  function NowIn(h: Graph, s: seq<Dbref>, l: Dbref): seq<Dbref>
    requires forall y :: y in s ==> h.Has(y)
  {
    if s == [] then []
    else
      assert h.Has(s[0]);
      (if h.nodes[s[0]].location == l then [s[0]] else []) + NowIn(h, s[1..], l)
  }

  /** A thing goes home if it is STICKY or home is where all are sent, else to dest; anything else stays in loc. */
  predicate SentAway(g: Graph, h: Graph, y: Dbref, loc: Dbref, dest: Dbref)
    requires g.Has(y) && |g.nodes| == |h.nodes| == |h.at|
  {
    var n := g.nodes[y];
    && h.at[y] == Inside(h.nodes[y].location)
    && h.nodes[y] == n.(location :=
         if Typeof(n.flags) != TYPE_THING then loc
         else if Flag(n.flags, STICKY) || dest == HOME then n.home
         else dest)
  }

  /**
   The contents of loc have been sent to dest: each to its place; those that stay in loc in their old order, those
   that come to any other place in front of what is there, in reverse order; and nothing else has changed.
   */
  ghost predicate Swept(g: Graph, h: Graph, loc: Dbref, dest: Dbref) {
    && |g.nodes| == |h.nodes| == |h.at| == |g.at| && Inside(loc) in g.chain
    && (forall k :: k in g.chain <==> k in h.chain)
    && var s := g.chain[Inside(loc)];
       && (forall y :: y in s ==> g.Has(y))
       && (forall y :: g.Has(y) ==>
             if y in s then SentAway(g, h, y, loc, dest) else h.nodes[y] == g.nodes[y] && h.at[y] == g.at[y])
       && h.chain[Inside(loc)] == NowIn(h, s, loc)
       && (forall k {:trigger h.chain[k]} :: k in g.chain && k != Inside(loc) ==>
             h.chain[k] == (if k.Inside? then Reversed(NowIn(h, s, k.holder)) else []) + g.chain[k])
  }

  lemma {:induction false} BoundIsNow(g: Graph, h: Graph, s: seq<Dbref>, loc: Dbref, dest: Dbref, t: Dbref)
    requires |h.nodes| == |g.nodes| && forall y :: y in s ==> g.Has(y)
    requires forall y :: y in s ==> 0 <= y < |h.nodes| && h.nodes[y].location == g.Target(y, loc, dest)
    ensures NowIn(h, s, t) == g.Bound(s, loc, dest, t)
  {
    if s != [] {
      BoundIsNow(g, h, s[1..], loc, dest, t);
    }
  }

  lemma SentNodes(g: Graph, loc: Dbref, dest: Dbref)
    requires g.CanSend(loc, dest)
    ensures var h, s := g.ContentsSent(loc, dest), g.chain[Inside(loc)];
      && |g.nodes| == |h.nodes| == |h.at| == |g.at| && (forall y :: y in s ==> g.Has(y))
      && (forall y :: y in s ==> h.nodes[y].location == g.Target(y, loc, dest))
      && (forall y :: g.Has(y) ==>
            if y in s then SentAway(g, h, y, loc, dest) else h.nodes[y] == g.nodes[y] && h.at[y] == g.at[y])
  {
    assert g.Lists(Inside(loc));
  }

  /** send_contents, for any container and destination. */
  lemma SendSweeps(g: Graph, loc: Dbref, dest: Dbref)
    requires g.CanSend(loc, dest)
    ensures Swept(g, g.ContentsSent(loc, dest), loc, dest)
  {
    var h, s := g.ContentsSent(loc, dest), g.chain[Inside(loc)];
    SentNodes(g, loc, dest);
    BoundIsNow(g, h, s, loc, dest, loc);
    forall k | k in g.chain && k != Inside(loc)
      ensures h.chain[k] == (if k.Inside? then Reversed(NowIn(h, s, k.holder)) else []) + g.chain[k]
    {
      if k.Inside? {
        BoundIsNow(g, h, s, loc, dest, k.holder);
      } else {
        assert [] + g.chain[k] == g.chain[k];
      }
    }
  }

  /** One object, by its fields. */
  lemma SweptPlace(g: Graph, h: Graph, loc: Dbref, dest: Dbref, y: Dbref)
    requires g.Sound() && Swept(g, h, loc, dest) && g.Has(loc) && g.Has(y)
    ensures var n := g.nodes[y];
      h.nodes[y] == n.(location :=
        if g.IsThing(y) && n.location == loc then if Flag(n.flags, STICKY) || dest == HOME then n.home else dest
        else n.location)
  {
    assert g.NodeSound(y) && g.Lists(Inside(loc));
  }

  /** When player leaves the room, its STICKY dropto works: nobody else stays behind. */
  ghost predicate Emptied(g: Graph, player: Dbref, room: Dbref)
    requires g.Has(room)
  {
    var n := g.nodes[room];
    && n.location != NOTHING && n.location != room && Flag(n.flags, STICKY)
    && (forall y :: g.IsPlayer(y) && y != player ==> g.nodes[y].location != room)
  }

  lemma OccupiedMeans(g: Graph, room: Dbref)
    requires g.Sound() && g.Has(room)
    ensures g.Occupied(room) <==> exists y :: g.IsPlayer(y) && g.nodes[y].location == room
  {
    assert g.Lists(Inside(room));
    forall y | g.IsPlayer(y) ensures y in g.chain[Inside(room)] <==> g.nodes[y].location == room {
      assert g.NodeSound(y);
    }
  }

  /** maybe_dropto: nothing if it leads back or a player is there, else the contents are sent on. */
  lemma DropMeans(g: Graph, loc: Dbref, dropto: Dbref)
    requires g.Sound() && g.Has(loc) && (dropto == HOME || g.IsRoom(dropto))
    ensures g.CanDrop(loc, dropto)
    ensures if loc == dropto || (exists y :: g.IsPlayer(y) && g.nodes[y].location == loc)
            then g.MaybeDropped(loc, dropto) == g
            else Swept(g, g.MaybeDropped(loc, dropto), loc, dropto)
  {
    SendSound(g, loc, dropto);
    SendSweeps(g, loc, dropto);
    OccupiedMeans(g, loc);
  }

  /**
   By way of m: nothing if the player is there, else the player goes to the front of the new room, and if that
   empties a room with a STICKY dropto, its contents are sent there.
   */
  ghost predicate EnteredBy(g: Graph, m: Graph, h: Graph, player: Dbref, loc: Dbref) {
    && g.IsPlayer(player)
    && var from, to := g.nodes[player].location, if loc == HOME then g.nodes[player].home else loc;
       && g.IsRoom(from) && g.IsRoom(to)
       && if to == from then h == g
          else OnlyMoved(g, m, player, to) && m.Sound()
               && if Emptied(g, player, from) then Swept(m, h, from, g.nodes[from].location) else h == m
  }

  /** enter_room. */
  lemma EnterMeans(g: Graph, player: Dbref, loc: Dbref) returns (m: Graph)
    requires Ready(g, player) && (loc == HOME || g.IsRoom(loc))
    ensures g.CanEnter(player, loc) && EnteredBy(g, m, g.Entered(player, loc), player, loc)
  {
    EnterSound(g, player, loc);
    m := PlayerMoves(g, player, loc);
    var from := g.nodes[player].location;
    if m.HasStickyDropto(from) {
      DropMeans(m, from, m.nodes[from].location);
    }
  }

  /** The first half: the player has gone, and the room left is as it was but for that. */
  lemma PlayerMoves(g: Graph, player: Dbref, loc: Dbref) returns (m: Graph)
    requires Ready(g, player) && (loc == HOME || g.IsRoom(loc))
    ensures g.CanMove(player, loc) && m == g.MovedTo(player, loc) && m.Sound()
    ensures var from, to := g.nodes[player].location, if loc == HOME then g.nodes[player].home else loc;
      && OnlyMoved(g, m, player, to) && g.IsRoom(from) && g.IsRoom(to) && m.nodes[from] == g.nodes[from]
      && (m.nodes[from].location == NOTHING || m.nodes[from].location == HOME || m.IsRoom(m.nodes[from].location))
      && (to != from ==> ((exists y :: m.IsPlayer(y) && m.nodes[y].location == from) <==>
                          (exists y :: g.IsPlayer(y) && y != player && g.nodes[y].location == from)))
  {
    assert g.NodeSound(player);
    MovedSound(g, player, loc);
    MovedMeans(g, player, loc);
    m := g.MovedTo(player, loc);
    var from, to := g.nodes[player].location, if loc == HOME then g.nodes[player].home else loc;
    assert g.NodeSound(from) && m.NodeSound(from);
    if to != from {
      LeftBehind(g, m, player, from);
    }
  }

  lemma LeftBehind(g: Graph, m: Graph, player: Dbref, from: Dbref)
    requires |g.nodes| == |m.nodes| && g.Has(player)
    requires forall y :: g.Has(y) && y != player ==> m.nodes[y] == g.nodes[y]
    requires m.nodes[player].location != from && m.nodes[player].flags == g.nodes[player].flags
    ensures (exists y :: m.IsPlayer(y) && m.nodes[y].location == from) <==>
            (exists y :: g.IsPlayer(y) && y != player && g.nodes[y].location == from)
  {
    if y :| g.IsPlayer(y) && y != player && g.nodes[y].location == from {
      assert m.IsPlayer(y);
    }
    if y :| m.IsPlayer(y) && m.nodes[y].location == from {
      assert g.IsPlayer(y) && y != player;
    }
  }

  /** Where a thing that lies in at is when player has left from for to. */
  ghost function PlaceAfter(g: Graph, player: Dbref, to: Dbref, y: Dbref, at: Dbref): Dbref
    requires g.Has(player) && g.Has(g.nodes[player].location) && g.Has(y)
  {
    var from := g.nodes[player].location;
    if at != from || to == from || !Emptied(g, player, from) then at
    else if Flag(g.nodes[y].flags, STICKY) || g.nodes[from].location == HOME then g.nodes[y].home
    else g.nodes[from].location
  }

  /** Things by their fields alone: those left in an emptied room with a STICKY dropto go there, or home. */
  lemma EnterPlaces(g: Graph, player: Dbref, loc: Dbref, y: Dbref)
    requires Ready(g, player) && (loc == HOME || g.IsRoom(loc)) && g.IsThing(y)
    ensures g.CanEnter(player, loc) && g.Has(g.nodes[player].location)
    ensures var h, to := g.Entered(player, loc), if loc == HOME then g.nodes[player].home else loc;
      && |h.nodes| == |g.nodes| && h.nodes[player] == g.nodes[player].(location := to)
      && h.nodes[y] == g.nodes[y].(location := PlaceAfter(g, player, to, y, g.nodes[y].location))
  {
    var m := EnterMeans(g, player, loc);
    var h, from := g.Entered(player, loc), g.nodes[player].location;
    if (if loc == HOME then g.nodes[player].home else loc) != from && Emptied(g, player, from) {
      SweptPlace(m, h, from, g.nodes[from].location, y);
      SweptPlace(m, h, from, g.nodes[from].location, player);
    }
  }

  /** send_home takes a thing to the front of its home's contents; a player's things go first, then the player. */
  lemma HomeMeans(g: Graph, x: Dbref) returns (m: Graph)
    requires g.Sound() && g.Has(x)
    ensures g.CanGoHome(x)
    ensures g.IsThing(x) ==> OnlyMoved(g, g.SentHome(x), x, g.nodes[x].home)
    ensures g.IsPlayer(x) ==>
      && Swept(g, m, x, HOME) && Ready(m, x) && m.nodes[x] == g.nodes[x]
      && m.CanEnter(x, g.nodes[x].home) && g.SentHome(x) == m.Entered(x, g.nodes[x].home)
    ensures g.IsRoom(x) || g.IsExit(x) ==> g.SentHome(x) == g
  {
    HomeSound(g, x);
    m := g;
    assert g.NodeSound(x);
    if g.IsThing(x) {
      MovedMeans(g, x, g.nodes[x].home);
    } else if g.IsPlayer(x) {
      SendSound(g, x, HOME);
      SendSweeps(g, x, HOME);
      m := g.ContentsSent(x, HOME);
      assert g.Lists(Inside(x));
    }
  }

  /** Going home: every thing carried is at its home, unless that is the room left and its dropto works. */
  lemma HomePlaces(g: Graph, player: Dbref, y: Dbref)
    requires Ready(g, player) && g.IsThing(y)
    ensures g.CanGoHome(player) && g.Has(g.nodes[player].location)
    ensures var h, n := g.SentHome(player), g.nodes[y];
      && |h.nodes| == |g.nodes|
      && h.nodes[player] == g.nodes[player].(location := g.nodes[player].home)
      && h.nodes[y] == n.(location := PlaceAfter(g, player, g.nodes[player].home, y,
           if n.location == player then n.home else n.location))
  {
    var m := HomeMeans(g, player);
    var from := g.nodes[player].location;
    assert g.NodeSound(player);
    SweptPlace(g, m, player, HOME, y);
    PlayersStay(g, m, player);
    EnterPlaces(m, player, g.nodes[player].home, y);
    SamePlace(g, m, player, g.nodes[player].home, y, m.nodes[y].location);
  }

  lemma SamePlace(g: Graph, m: Graph, player: Dbref, to: Dbref, y: Dbref, at: Dbref)
    requires g.IsPlayer(player) && g.IsRoom(g.nodes[player].location) && |m.nodes| == |g.nodes| && g.Has(y)
    requires forall x :: g.Has(x) ==> Typeof(m.nodes[x].flags) == Typeof(g.nodes[x].flags)
    requires forall x :: g.IsPlayer(x) || g.IsRoom(x) ==> m.nodes[x] == g.nodes[x]
    requires m.nodes[y].flags == g.nodes[y].flags && m.nodes[y].home == g.nodes[y].home
    ensures m.nodes[player] == g.nodes[player]
    ensures PlaceAfter(m, player, to, y, at) == PlaceAfter(g, player, to, y, at)
  {
    assert forall x :: g.IsPlayer(x) <==> m.IsPlayer(x);
  }

  /** Sending a player's contents away moves no player and no room. */
  lemma PlayersStay(g: Graph, m: Graph, player: Dbref)
    requires Ready(g, player) && Swept(g, m, player, HOME)
    ensures forall y :: g.Has(y) ==> Typeof(m.nodes[y].flags) == Typeof(g.nodes[y].flags)
    ensures forall y :: g.IsPlayer(y) || g.IsRoom(y) ==> m.nodes[y] == g.nodes[y]
  {
    forall y | g.Has(y)
      ensures Typeof(m.nodes[y].flags) == Typeof(g.nodes[y].flags)
      ensures g.IsPlayer(y) || g.IsRoom(y) ==> m.nodes[y] == g.nodes[y]
    {
      SweptPlace(g, m, player, HOME, y);
    }
  }

  /** Going home strips a player of every thing carried. */
  lemma HomeStrips(g: Graph, player: Dbref, y: Dbref)
    requires Ready(g, player) && g.IsThing(y)
    ensures var h := WentHome(g, player);
      && h.Has(player) && h.nodes[player].location == g.nodes[player].home
      && h.Has(y) && h.nodes[y].location != player
  {
    HomePlaces(g, player, y);
    HomeSound(g, player);
    assert g.NodeSound(player) && g.NodeSound(y) && g.NodeSound(g.nodes[player].location);
  }
}

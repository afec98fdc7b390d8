/**
 The object graph of the database with its intrusive chains read as sequences: what
 moveto, send_contents, maybe_dropto, enter_room and send_home of src/move.c do to it,
 and the invariant that holds between commands.
 */
module Graphs {
  import opened Objects
  import opened Lists

  /** The two chains an object can head: its contents, and (rooms only) its exits. */
  datatype Slot = Nowhere | Inside(holder: Dbref) | Doors(room: Dbref)

  /** The fields of an object that carry meaning in the graph; `home` is the exits field of a non-room. */
  datatype Node = Node(flags: int, location: Dbref, home: Dbref, owner: Dbref, key: Lock)

  function NodeOf(o: Object): Node {
    Node(o.flags, o.location, if Typeof(o.flags) == TYPE_ROOM then NOTHING else o.exits, o.owner, o.key)
  }

  function NodesOf(db: seq<Object>): (nodes: seq<Node>)
    ensures |nodes| == |db|
    ensures forall x :: 0 <= x < |db| ==> nodes[x] == NodeOf(db[x])
  {
    seq(|db|, x requires 0 <= x < |db| => NodeOf(db[x]))
  }

  /** `at` names the chain each object is on. */
  datatype Graph = Graph(nodes: seq<Node>, chain: map<Slot, seq<Dbref>>, at: seq<Slot>) {

    predicate Has(x: Dbref) {
      0 <= x < |nodes|
    }

    predicate IsRoom(x: Dbref) {
      Has(x) && Typeof(nodes[x].flags) == TYPE_ROOM
    }

    predicate IsThing(x: Dbref) {
      Has(x) && Typeof(nodes[x].flags) == TYPE_THING
    }

    predicate IsExit(x: Dbref) {
      Has(x) && Typeof(nodes[x].flags) == TYPE_EXIT
    }

    predicate IsPlayer(x: Dbref) {
      Has(x) && Typeof(nodes[x].flags) == TYPE_PLAYER
    }

    // ---- The invariant ----

    predicate HasSlot(k: Slot) {
      match k
      case Nowhere => false
      case Inside(o) => Has(o)
      case Doors(r) => IsRoom(r)
    }

    /** Every head has its chain, no chain repeats an object, and an object is on chain k exactly when at[x] is k. */
    ghost predicate Indexed() {
      && |at| == |nodes|
      && (forall k :: k in chain <==> HasSlot(k))
      && (forall k {:trigger Lists(k)} :: k in chain ==> Lists(k))
      && (forall x {:trigger at[x]} :: Has(x) && at[x] != Nowhere ==> at[x] in chain)
    }

    ghost predicate Lists(k: Slot)
      requires |at| == |nodes| && k in chain
    {
      && Distinct(chain[k])
      && (forall x :: x in chain[k] <==> Has(x) && at[x] == k)
    }

    /** The destination of an exit or the dropto of a room. */
    predicate IsLink(d: Dbref) {
      d == NOTHING || d == HOME || IsRoom(d)
    }

    predicate Carried(x: Dbref)
      requires Has(x)
    {
      IsExit(x) && IsPlayer(nodes[x].location)
    }

    predicate NodeSound(x: Dbref)
      requires Has(x) && |at| == |nodes|
    {
      var n := nodes[x];
      && IsPlayer(n.owner)
      && (IsRoom(x) || IsThing(x) || IsExit(x) || IsPlayer(x))
      && (IsRoom(x) ==> IsLink(n.location) && at[x] == Nowhere)
      && (IsThing(x) ==> IsRoom(n.home) && (IsRoom(n.location) || IsPlayer(n.location)) && at[x] == Inside(n.location))
      && (IsPlayer(x) ==> IsRoom(n.home) && IsRoom(n.location) && at[x] == Inside(n.location) && n.owner == x)
      && (IsExit(x) ==> if Carried(x) then at[x] == Inside(n.location) else IsLink(n.location) && at[x].Doors?)
    }

    ghost predicate Sound() {
      Indexed() && forall x {:trigger NodeSound(x)} :: Has(x) ==> NodeSound(x)
    }

    // ---- The invariant in terms of chains and fields ----

    /** A thing or player is among the contents of l exactly when its location is l; an exit, when l carries it. */
    predicate ContentsAgree(l: Dbref, x: Dbref)
      requires Has(x)
    {
      && Inside(l) in chain
      && (x in chain[Inside(l)] <==> nodes[x].location == l && (IsThing(x) || IsPlayer(x) || Carried(x)))
    }

    /** Rooms are on no chain; everything else is on exactly one, once; exits lead from a room or are carried. */
    ghost predicate OnOneChain(x: Dbref)
      requires Has(x)
    {
      && (forall k, l :: k in chain && l in chain && x in chain[k] && x in chain[l] ==> k == l)
      && (forall k :: k in chain && x in chain[k] ==> Distinct(chain[k]))
      && (IsRoom(x) <==> forall k :: k in chain ==> x !in chain[k])
      && (IsExit(x) && !Carried(x) <==> exists r :: Doors(r) in chain && x in chain[Doors(r)])
    }

    ghost predicate FieldsAgree(x: Dbref)
      requires Has(x)
    {
      && IsPlayer(nodes[x].owner)
      && (IsPlayer(x) ==> nodes[x].owner == x && IsRoom(nodes[x].location))
      && (IsThing(x) || IsPlayer(x) ==> IsRoom(nodes[x].home))
      && (IsRoom(x) || (IsExit(x) && !Carried(x)) ==> IsLink(nodes[x].location))
      && (IsThing(x) || IsExit(x) ==> Inside(x) in chain && forall y :: y !in chain[Inside(x)])
    }

    // ---- moveto ----

    /** remove_first on chain k. */
    function Pulled(x: Dbref, k: Slot): Graph
      requires k in chain && Has(x) && |at| == |nodes|
    {
      this.(chain := chain[k := Without(chain[k], x)], at := at[x := Nowhere])
    }

    function Pushed(x: Dbref, k: Slot): Graph
      requires k in chain && Has(x) && |at| == |nodes|
    {
      this.(chain := chain[k := [x] + chain[k]], at := at[x := k])
    }

    /** Assigning fields other than next, contents and, for rooms, exits. */
    function Changed(x: Dbref, n: Node): Graph
      requires Has(x)
    {
      this.(nodes := nodes[x := n])
    }

    /** new_object: a node on no chain, with empty chains of its own. */
    function Grown(n: Node): Graph {
      var x := |nodes|;
      var c := chain[Inside(x) := []];
      Graph(nodes + [n], if Typeof(n.flags) == TYPE_ROOM then c[Doors(x) := []] else c, at + [Nowhere])
    }

    /** A new object pushed on chain k. */
    function Made(n: Node, k: Slot): Graph
      requires |at| == |nodes| && (k != Nowhere ==> k in chain)
    {
      if k == Nowhere then Grown(n) else Grown(n).Pushed(|nodes|, k)
    }

    function Located(x: Dbref, where: Dbref): Graph
      requires Has(x)
    {
      this.(nodes := nodes[x := nodes[x].(location := where)])
    }

    /** HOME stands for the mover's home. */
    function Resolve(x: Dbref, where: Dbref): Dbref
      requires Has(x)
    {
      if where == HOME then nodes[x].home else where
    }

    /** x is on the chain its location names (no chain for NOTHING), and the target can hold it. */
    predicate CanMove(x: Dbref, where: Dbref) {
      && Has(x) && |at| == |nodes|
      && at[x] == (if nodes[x].location == NOTHING then Nowhere else Inside(nodes[x].location))
      && (nodes[x].location != NOTHING ==> Inside(nodes[x].location) in chain)
      && (where != NOTHING ==> Inside(Resolve(x, where)) in chain)
    }

    function MovedTo(x: Dbref, where: Dbref): Graph
      requires CanMove(x, where)
    {
      var from := nodes[x].location;
      var h := if from == NOTHING then this else Pulled(x, Inside(from));
      if where == NOTHING then h.Located(x, NOTHING)
      else
        var t := Resolve(x, where);
        h.Pushed(x, Inside(t)).Located(x, t)
    }

    // ---- send_contents ----

    /** Where send_contents(loc, dest) puts x: everything but things goes back to loc. */
    function Target(x: Dbref, loc: Dbref, dest: Dbref): Dbref
      requires Has(x)
    {
      if Typeof(nodes[x].flags) != TYPE_THING then loc
      else if Flag(nodes[x].flags, STICKY) then Resolve(x, HOME)
      else Resolve(x, dest)
    }

    /** The elements of s that send_contents(loc, dest) puts into t, in order. */
    function Bound(s: seq<Dbref>, loc: Dbref, dest: Dbref, t: Dbref): seq<Dbref>
      requires forall x :: x in s ==> Has(x)
    {
      if s == [] then []
      else if Target(s[0], loc, dest) == t then [s[0]] + Bound(s[1..], loc, dest, t)
      else Bound(s[1..], loc, dest, t)
    }

    ghost predicate CanSend(loc: Dbref, dest: Dbref) {
      && Indexed()
      && Has(loc)
      && dest != NOTHING
      && (forall x :: Has(x) && at[x] == Inside(loc) ==> Has(Target(x, loc, dest)))
    }

    /**
     What send_contents achieves, stated without its loop: stayers keep their order, the objects bound
     for t arrive at the front of t's contents in reverse order, and nothing else changes.
     */
    ghost function ContentsSent(loc: Dbref, dest: Dbref): Graph
      requires CanSend(loc, dest)
    {
      var s := chain[Inside(loc)];
      assert Lists(Inside(loc));
      PartlySent(loc, dest, s).(
        chain := ChainSent(loc, dest, s)[Inside(loc) := Bound(s, loc, dest, loc)])
    }

    /** Midway: the objects in done have been sent on, the rest of loc's are on no chain and have no location. */
    ghost function PartlySent(loc: Dbref, dest: Dbref, done: seq<Dbref>): Graph
      requires |at| == |nodes| && forall x :: x in done ==> Has(x)
    {
      Graph(NodesSent(loc, dest, done), ChainSent(loc, dest, done), AtSent(loc, dest, done))
    }

    ghost function NodesSent(loc: Dbref, dest: Dbref, done: seq<Dbref>): (r: seq<Node>)
      requires |at| == |nodes|
      ensures |r| == |nodes|
    {
      seq(|nodes|, x requires 0 <= x < |nodes| =>
        if at[x] != Inside(loc) then nodes[x]
        else nodes[x].(location := if x in done then Target(x, loc, dest) else NOTHING))
    }

    ghost function AtSent(loc: Dbref, dest: Dbref, done: seq<Dbref>): (r: seq<Slot>)
      requires |at| == |nodes|
      ensures |r| == |at|
    {
      seq(|at|, x requires 0 <= x < |at| =>
        if at[x] != Inside(loc) then at[x]
        else if x in done then Inside(Target(x, loc, dest))
        else Nowhere)
    }

    ghost function ChainSent(loc: Dbref, dest: Dbref, done: seq<Dbref>): map<Slot, seq<Dbref>>
      requires forall x :: x in done ==> Has(x)
    {
      map k | k in chain ::
        if k.Inside? then
          Reversed(Bound(done, loc, dest, k.holder)) + (if k == Inside(loc) then [] else chain[k])
        else chain[k]
    }

    /** The argument send_contents gives to moveto for x. */
    function Destination(x: Dbref, loc: Dbref, dest: Dbref): Dbref
      requires Has(x)
    {
      if Typeof(nodes[x].flags) != TYPE_THING then loc
      else if Flag(nodes[x].flags, STICKY) then HOME
      else dest
    }

    // ---- maybe_dropto, enter_room, send_home ----

    ghost predicate Occupied(loc: Dbref) {
      exists x :: Has(x) && Inside(loc) in chain && x in chain[Inside(loc)] && IsPlayer(x)
    }

    ghost predicate CanDrop(loc: Dbref, dropto: Dbref) {
      loc != dropto && !Occupied(loc) ==> CanSend(loc, dropto)
    }

    ghost function MaybeDropped(loc: Dbref, dropto: Dbref): Graph
      requires CanDrop(loc, dropto)
    {
      if loc == dropto || Occupied(loc) then this else ContentsSent(loc, dropto)
    }

    predicate HasStickyDropto(loc: Dbref)
      requires Has(loc)
    {
      nodes[loc].location != NOTHING && Flag(nodes[loc].flags, STICKY)
    }

    ghost predicate CanEnter(player: Dbref, loc: Dbref) {
      && CanMove(player, loc) && loc != NOTHING
      && var from := nodes[player].location;
      && (Resolve(player, loc) != from && from != NOTHING ==>
          && Has(from)
          && var g := MovedTo(player, loc);
             g.HasStickyDropto(from) ==> g.CanDrop(from, g.nodes[from].location))
    }

    /** The dropto of the room left behind is looked up after the player has gone. */
    ghost function Entered(player: Dbref, loc: Dbref): Graph
      requires CanEnter(player, loc)
    {
      var from := nodes[player].location;
      if Resolve(player, loc) == from then this
      else
        var g := MovedTo(player, loc);
        if from != NOTHING && g.HasStickyDropto(from) then g.MaybeDropped(from, g.nodes[from].location) else g
    }

    ghost predicate CanGoHome(x: Dbref) {
      && Has(x)
      && (IsThing(x) ==> CanMove(x, nodes[x].home))
      && (IsPlayer(x) ==> CanSend(x, HOME) && ContentsSent(x, HOME).CanEnter(x, nodes[x].home))
    }

    /** send_home: a player's possessions go home first, then the player does. */
    ghost function SentHome(x: Dbref): Graph
      requires CanGoHome(x)
    {
      if IsPlayer(x) then ContentsSent(x, HOME).Entered(x, nodes[x].home)
      else if IsThing(x) then MovedTo(x, nodes[x].home)
      else this
    }
  }

  // ---- The chains after each operation ----

  lemma PulledIndexed(g: Graph, x: Dbref, k: Slot)
    requires g.Indexed() && g.Has(x) && g.at[x] == k && k in g.chain
    ensures g.Pulled(x, k).Indexed()
  {
    var h := g.Pulled(x, k);
    assert g.Lists(k);
    WithoutDistinct(g.chain[k], x);
    forall j | j in h.chain ensures h.Lists(j) {
      assert g.Lists(j);
    }
  }

  lemma PushedIndexed(g: Graph, x: Dbref, k: Slot)
    requires g.Indexed() && g.Has(x) && g.at[x] == Nowhere && k in g.chain
    ensures g.Pushed(x, k).Indexed()
  {
    var h := g.Pushed(x, k);
    forall j | j in h.chain ensures h.Lists(j) {
      assert g.Lists(j);
      if j == k { assert h.chain[k][0] == x; }
    }
  }

  lemma RearrangedIndexed(g: Graph, k: Slot, s: seq<Dbref>)
    requires g.Indexed() && k in g.chain
    requires Distinct(s) && forall x :: x in s <==> x in g.chain[k]
    ensures g.(chain := g.chain[k := s]).Indexed()
  {
    var h := g.(chain := g.chain[k := s]);
    forall j | j in h.chain ensures h.Lists(j) {
      assert g.Lists(j);
    }
  }

  lemma ChangedIndexed(g: Graph, x: Dbref, n: Node)
    requires g.Indexed() && g.Has(x)
    requires Typeof(n.flags) == TYPE_ROOM <==> g.IsRoom(x)
    ensures g.Changed(x, n).Indexed()
  {
    var h := g.Changed(x, n);
    forall k ensures h.HasSlot(k) == g.HasSlot(k) {
    }
    forall k | k in h.chain ensures h.Lists(k) {
      assert g.Lists(k);
    }
  }

  lemma GrownIndexed(g: Graph, n: Node)
    requires g.Indexed()
    ensures g.Grown(n).Indexed() && g.Grown(n).at[|g.nodes|] == Nowhere
  {
    var h := g.Grown(n);
    forall k ensures k in h.chain <==> h.HasSlot(k) {
      assert g.HasSlot(k) ==> h.HasSlot(k);
    }
    forall k | k in h.chain ensures h.Lists(k) {
      if k in g.chain {
        assert g.Lists(k);
      }
    }
  }

  lemma LocatedIndexed(g: Graph, x: Dbref, where: Dbref)
    requires g.Indexed() && g.Has(x)
    ensures g.Located(x, where).Indexed()
  {
    ChangedIndexed(g, x, g.nodes[x].(location := where));
  }

  lemma MovedIndexed(g: Graph, x: Dbref, where: Dbref)
    requires g.Indexed() && g.CanMove(x, where)
    ensures g.MovedTo(x, where).Indexed()
  {
    var from := g.nodes[x].location;
    var h := if from == NOTHING then g else g.Pulled(x, Inside(from));
    if from != NOTHING {
      PulledIndexed(g, x, Inside(from));
    }
    if where == NOTHING {
      LocatedIndexed(h, x, where);
    } else {
      var t := g.Resolve(x, where);
      PushedIndexed(h, x, Inside(t));
      LocatedIndexed(h.Pushed(x, Inside(t)), x, t);
    }
  }

  lemma {:induction false} BoundMembers(g: Graph, s: seq<Dbref>, loc: Dbref, dest: Dbref, t: Dbref)
    requires forall x :: x in s ==> g.Has(x)
    ensures forall x :: x in g.Bound(s, loc, dest, t) <==> x in s && g.Target(x, loc, dest) == t
    ensures Distinct(s) ==> Distinct(g.Bound(s, loc, dest, t))
  {
    if s != [] {
      BoundMembers(g, s[1..], loc, dest, t);
    }
  }

  lemma {:induction false} BoundSnoc(g: Graph, s: seq<Dbref>, x: Dbref, loc: Dbref, dest: Dbref, t: Dbref)
    requires g.Has(x) && forall y :: y in s ==> g.Has(y)
    ensures g.Bound(s + [x], loc, dest, t) ==
            g.Bound(s, loc, dest, t) + (if g.Target(x, loc, dest) == t then [x] else [])
  {
    if s == [] {
      assert [x][1..] == [];
    } else {
      assert (s + [x])[1..] == s[1..] + [x];
      BoundSnoc(g, s[1..], x, loc, dest, t);
    }
  }

  /** No object is lost or duplicated by send_contents. */
  lemma SentIndexed(g: Graph, loc: Dbref, dest: Dbref)
    requires g.CanSend(loc, dest)
    ensures g.ContentsSent(loc, dest).Indexed()
  {
    var h := g.ContentsSent(loc, dest);
    assert SameKinds(g, h);
    forall k | k in h.chain ensures h.Lists(k) {
      SentLists(g, loc, dest, k);
    }
  }

  lemma SentLists(g: Graph, loc: Dbref, dest: Dbref, k: Slot)
    requires g.CanSend(loc, dest) && k in g.chain
    ensures g.ContentsSent(loc, dest).Lists(k)
  {
    var s := g.chain[Inside(loc)];
    assert g.Lists(k) && g.Lists(Inside(loc));
    if k.Inside? {
      var b := g.Bound(s, loc, dest, k.holder);
      BoundMembers(g, s, loc, dest, k.holder);
      ReversedMembers(b);
      if k != Inside(loc) {
        forall x | x in Reversed(b) ensures x !in g.chain[k] {
          assert x in b && g.at[x] == Inside(loc);
        }
        DistinctConcat(Reversed(b), g.chain[k]);
      }
    }
  }

  lemma NoneSentIndexed(g: Graph, loc: Dbref, dest: Dbref)
    requires g.CanSend(loc, dest)
    ensures g.PartlySent(loc, dest, []).Indexed()
  {
    var h := g.PartlySent(loc, dest, []);
    assert SameKinds(g, h);
    forall k | k in h.chain ensures h.Lists(k) {
      assert g.Lists(k);
      assert h.chain[k] == if k == Inside(loc) then [] else g.chain[k];
      assert forall x :: g.Has(x) ==> h.at[x] == if g.at[x] == Inside(loc) then Nowhere else g.at[x];
    }
  }

  /** One turn of the loop of send_contents. */
  lemma PartlySentStep(g: Graph, loc: Dbref, dest: Dbref, done: seq<Dbref>, x: Dbref)
    requires g.CanSend(loc, dest) && (forall y :: y in done ==> g.Has(y))
    requires g.Has(x) && g.at[x] == Inside(loc) && x !in done
    ensures var h := g.PartlySent(loc, dest, done);
      && h.nodes[x].flags == g.nodes[x].flags
      && h.CanMove(x, g.Destination(x, loc, dest))
      && (forall y :: g.Has(y) && g.at[y] == Inside(loc) && y !in done ==> h.at[y] == Nowhere)
      && h.MovedTo(x, g.Destination(x, loc, dest)) == g.PartlySent(loc, dest, done + [x])
  {
    var t := g.Target(x, loc, dest);
    StepNodes(g, loc, dest, done, x);
    StepAt(g, loc, dest, done, x);
    StepChain(g, loc, dest, done, x);
    var h := g.PartlySent(loc, dest, done);
    assert h.nodes[x] == g.nodes[x].(location := NOTHING);
    assert h.Resolve(x, g.Destination(x, loc, dest)) == t;
  }

  lemma SplitAt(g: Graph, loc: Dbref, i: nat)
    requires g.Indexed() && g.Has(loc) && i < |g.chain[Inside(loc)]|
    ensures var s := g.chain[Inside(loc)];
      && s[i..][1..] == s[i + 1..] && s[..i + 1] == s[..i] + [s[i]]
      && s[i] !in s[..i] && s[i] !in s[i + 1..]
      && (forall y :: y in s ==> g.Has(y) && g.at[y] == Inside(loc))
      && (forall y :: y in s[..i] ==> y in s)
      && (forall y :: y in s[i + 1..] ==> y in s && y !in s[..i])
  {
    assert g.Lists(Inside(loc));
  }

  lemma StepNodes(g: Graph, loc: Dbref, dest: Dbref, done: seq<Dbref>, x: Dbref)
    requires |g.at| == |g.nodes| && g.Has(x) && g.at[x] == Inside(loc)
    ensures var n := g.NodesSent(loc, dest, done);
      n[x := n[x].(location := g.Target(x, loc, dest))] == g.NodesSent(loc, dest, done + [x])
  {
  }

  lemma StepAt(g: Graph, loc: Dbref, dest: Dbref, done: seq<Dbref>, x: Dbref)
    requires |g.at| == |g.nodes| && g.Has(x) && g.at[x] == Inside(loc)
    ensures g.AtSent(loc, dest, done)[x := Inside(g.Target(x, loc, dest))] == g.AtSent(loc, dest, done + [x])
  {
  }

  lemma StepChain(g: Graph, loc: Dbref, dest: Dbref, done: seq<Dbref>, x: Dbref)
    requires g.Has(x) && (forall y :: y in done ==> g.Has(y))
    requires Inside(g.Target(x, loc, dest)) in g.chain
    ensures var c, k := g.ChainSent(loc, dest, done), Inside(g.Target(x, loc, dest));
      c[k := [x] + c[k]] == g.ChainSent(loc, dest, done + [x])
  {
    var c, d := g.ChainSent(loc, dest, done), g.ChainSent(loc, dest, done + [x]);
    var t := g.Target(x, loc, dest);
    forall k | k in g.chain ensures d[k] == c[Inside(t) := [x] + c[Inside(t)]][k] {
      StepSlot(g, loc, dest, done, x, k);
    }
  }

  lemma StepSlot(g: Graph, loc: Dbref, dest: Dbref, done: seq<Dbref>, x: Dbref, k: Slot)
    requires g.Has(x) && (forall y :: y in done ==> g.Has(y)) && k in g.chain
    ensures g.ChainSent(loc, dest, done + [x])[k] ==
            (if k == Inside(g.Target(x, loc, dest)) then [x] else []) + g.ChainSent(loc, dest, done)[k]
  {
    if k.Inside? {
      var b, b' := g.Bound(done, loc, dest, k.holder), g.Bound(done + [x], loc, dest, k.holder);
      var more := if g.Target(x, loc, dest) == k.holder then [x] else [];
      var stay := if k == Inside(loc) then [] else g.chain[k];
      BoundSnoc(g, done, x, loc, dest, k.holder);
      ReversedConcat(b, more);
      assert Reversed(b') + stay == more + (Reversed(b) + stay);
    }
  }

  /** The final reversal of what stayed behind restores its order. */
  lemma AllSent(g: Graph, loc: Dbref, dest: Dbref)
    requires g.CanSend(loc, dest)
    ensures forall x :: x in g.chain[Inside(loc)] ==> g.Has(x)
    ensures var k := Inside(loc);
      var h := g.PartlySent(loc, dest, g.chain[k]);
      g.ContentsSent(loc, dest) == h.(chain := h.chain[k := Reversed(h.chain[k])])
  {
    var k := Inside(loc);
    assert g.Lists(k);
    var h := g.PartlySent(loc, dest, g.chain[k]);
    var b := g.Bound(g.chain[k], loc, dest, loc);
    assert h.chain[k] == Reversed(b);
    ReversedTwice(b);
  }

  /** What send_contents leaves in a chain comes in the order it had on the list. */
  lemma {:induction false} BoundOrder(g: Graph, s: seq<Dbref>, loc: Dbref, dest: Dbref, t: Dbref, i: nat, j: nat)
    requires (forall x :: x in s ==> g.Has(x)) && i < j < |g.Bound(s, loc, dest, t)|
    ensures exists p, q ::
      0 <= p < q < |s| && s[p] == g.Bound(s, loc, dest, t)[i] && s[q] == g.Bound(s, loc, dest, t)[j]
  {
    var b, b' := g.Bound(s, loc, dest, t), g.Bound(s[1..], loc, dest, t);
    BoundMembers(g, s[1..], loc, dest, t);
    if b == [s[0]] + b' {
      if i == 0 {
        assert b[j] == b'[j - 1] && b[j] in s[1..];
        var q :| 0 <= q < |s[1..]| && s[1..][q] == b[j];
        assert s[0] == b[i] && s[q + 1] == b[j];
      } else {
        BoundOrder(g, s[1..], loc, dest, t, i - 1, j - 1);
        var p, q :| 0 <= p < q < |s[1..]| && s[1..][p] == b'[i - 1] && s[1..][q] == b'[j - 1];
        assert s[p + 1] == b[i] && s[q + 1] == b[j];
      }
    } else {
      BoundOrder(g, s[1..], loc, dest, t, i, j);
      var p, q :| 0 <= p < q < |s[1..]| && s[1..][p] == b'[i] && s[1..][q] == b'[j];
      assert s[p + 1] == b[i] && s[q + 1] == b[j];
    }
  }

  /** Afterwards every thing of loc is in dest, or at home, and everything else is where it was. */
  lemma SentMembers(g: Graph, loc: Dbref, dest: Dbref, k: Slot, x: Dbref)
    requires g.CanSend(loc, dest) && k in g.chain && g.Has(x)
    ensures k in g.ContentsSent(loc, dest).chain
    ensures x in g.ContentsSent(loc, dest).chain[k] <==>
            if x !in g.chain[Inside(loc)] then x in g.chain[k]
            else if !g.IsThing(x) then k == Inside(loc)
            else if Flag(g.nodes[x].flags, STICKY) || dest == HOME then k == Inside(g.nodes[x].home)
            else k == Inside(dest)
  {
    SentIndexed(g, loc, dest);
    assert g.ContentsSent(loc, dest).Lists(k) && g.Lists(k) && g.Lists(Inside(loc));
  }

  // ---- The invariant is kept ----

  ghost predicate SameKinds(g: Graph, h: Graph) {
    |h.nodes| == |g.nodes| && forall x :: g.Has(x) ==> Typeof(h.nodes[x].flags) == Typeof(g.nodes[x].flags)
  }

  lemma NodeKept(g: Graph, h: Graph, x: Dbref)
    requires SameKinds(g, h) && g.Has(x) && |g.at| == |g.nodes| == |h.at|
    requires g.NodeSound(x) && h.nodes[x] == g.nodes[x] && h.at[x] == g.at[x]
    ensures h.NodeSound(x)
  {
  }

  lemma NodeMoved(g: Graph, h: Graph, x: Dbref)
    requires SameKinds(g, h) && g.Has(x) && |g.at| == |g.nodes| == |h.at|
    requires g.NodeSound(x) && (g.IsThing(x) || g.IsPlayer(x))
    requires h.nodes[x] == g.nodes[x].(location := h.nodes[x].location)
    requires g.IsRoom(h.nodes[x].location) || (g.IsThing(x) && g.IsPlayer(h.nodes[x].location))
    requires h.at[x] == Inside(h.nodes[x].location)
    ensures h.NodeSound(x)
  {
  }

  /** Enough for the invariant: chains and at agree, kinds are kept, every object is as it was or sound anew. */
  lemma SoundKept(g: Graph, h: Graph)
    requires g.Sound() && h.Indexed() && SameKinds(g, h)
    requires forall y {:trigger h.NodeSound(y)} :: g.Has(y) ==>
               (h.nodes[y] == g.nodes[y] && h.at[y] == g.at[y]) || h.NodeSound(y)
    ensures h.Sound()
  {
    forall y | h.Has(y) ensures h.NodeSound(y) {
      assert g.NodeSound(y);
      if h.nodes[y] == g.nodes[y] && h.at[y] == g.at[y] {
        NodeKept(g, h, y);
      }
    }
  }

  lemma NodeGrown(g: Graph, n: Node, y: Dbref)
    requires g.Sound() && g.Has(y)
    ensures g.Grown(n).NodeSound(y)
  {
    assert g.NodeSound(y);
    var h := g.Grown(n);
    assert forall z :: g.Has(z) ==> h.nodes[z] == g.nodes[z] && h.at[z] == g.at[z];
  }

  lemma MovedSound(g: Graph, x: Dbref, where: Dbref)
    requires g.Sound() && (g.IsThing(x) || g.IsPlayer(x))
    requires where == HOME || g.IsRoom(where) || (g.IsThing(x) && g.IsPlayer(where))
    ensures g.CanMove(x, where) && g.MovedTo(x, where).Sound()
    ensures SameKinds(g, g.MovedTo(x, where))
  {
    assert g.NodeSound(x);
    MovedIndexed(g, x, where);
    var h := g.MovedTo(x, where);
    assert SameKinds(g, h);
    forall y | h.Has(y) ensures h.NodeSound(y) {
      assert g.NodeSound(y);
      if y == x { NodeMoved(g, h, x); } else { NodeKept(g, h, y); }
    }
  }

  lemma SendSound(g: Graph, loc: Dbref, dest: Dbref)
    requires g.Sound() && g.Has(loc) && (dest == HOME || g.IsRoom(dest))
    ensures g.CanSend(loc, dest) && g.ContentsSent(loc, dest).Sound()
    ensures SameKinds(g, g.ContentsSent(loc, dest))
  {
    forall x | g.Has(x) && g.at[x] == Inside(loc) ensures g.Has(g.Target(x, loc, dest)) {
      assert g.NodeSound(x);
    }
    SentIndexed(g, loc, dest);
    var h := g.ContentsSent(loc, dest);
    forall x | h.Has(x) ensures h.NodeSound(x) {
      SendNode(g, loc, dest, x);
    }
  }

  lemma SendNode(g: Graph, loc: Dbref, dest: Dbref, x: Dbref)
    requires g.Sound() && g.CanSend(loc, dest) && (dest == HOME || g.IsRoom(dest)) && g.Has(x)
    ensures g.ContentsSent(loc, dest).NodeSound(x)
  {
    var h := g.ContentsSent(loc, dest);
    assert g.NodeSound(x) && g.Lists(Inside(loc)) && SameKinds(g, h);
    if g.at[x] == Inside(loc) && g.IsThing(x) {
      NodeMoved(g, h, x);
    } else {
      NodeKept(g, h, x);
    }
  }

  lemma DropSound(g: Graph, loc: Dbref, dropto: Dbref)
    requires g.Sound() && g.Has(loc) && (dropto == HOME || g.IsRoom(dropto))
    ensures g.CanDrop(loc, dropto) && g.MaybeDropped(loc, dropto).Sound()
    ensures SameKinds(g, g.MaybeDropped(loc, dropto))
  {
    SendSound(g, loc, dropto);
  }

  lemma EnterSound(g: Graph, player: Dbref, loc: Dbref)
    requires g.Sound() && g.IsPlayer(player) && (loc == HOME || g.IsRoom(loc))
    ensures g.CanEnter(player, loc) && g.Entered(player, loc).Sound()
    ensures SameKinds(g, g.Entered(player, loc))
  {
    assert g.NodeSound(player);
    MovedSound(g, player, loc);
    var from := g.nodes[player].location;
    var h := g.MovedTo(player, loc);
    assert h.NodeSound(from);
    if h.HasStickyDropto(from) {
      DropSound(h, from, h.nodes[from].location);
    }
  }

  lemma HomeSound(g: Graph, x: Dbref)
    requires g.Sound() && g.Has(x)
    ensures g.CanGoHome(x) && g.SentHome(x).Sound()
    ensures SameKinds(g, g.SentHome(x))
  {
    assert g.NodeSound(x);
    if g.IsPlayer(x) {
      SendSound(g, x, HOME);
      var h := g.ContentsSent(x, HOME);
      assert h.NodeSound(x);
      EnterSound(h, x, g.nodes[x].home);
    } else if g.IsThing(x) {
      MovedSound(g, x, g.nodes[x].home);
    }
  }

  /** When the last player has left a room with a STICKY dropto, no thing stays but what has been sent home to it. */
  lemma DroptoSweeps(g: Graph, player: Dbref, loc: Dbref, x: Dbref)
    requires g.Sound() && g.IsPlayer(player) && (loc == HOME || g.IsRoom(loc)) && g.Has(x)
    requires var from := g.nodes[player].location;
      && g.Has(from) && g.HasStickyDropto(from)
      && g.Resolve(player, loc) != from && g.nodes[from].location != from
    ensures g.CanEnter(player, loc)
    ensures var h, from := g.Entered(player, loc), g.nodes[player].location;
      h.IsThing(x) && h.nodes[x].location == from && !h.Occupied(from) ==>
        h.nodes[x].home == from && (Flag(h.nodes[x].flags, STICKY) || g.nodes[from].location == HOME)
  {
    EnterSound(g, player, loc);
    MovedSound(g, player, loc);
    var from := g.nodes[player].location;
    var m := g.MovedTo(player, loc);
    assert g.NodeSound(player) && g.NodeSound(from);
    assert m.nodes[from] == g.nodes[from];
    SweepsAll(m, from, g.nodes[from].location, x);
  }

  lemma SweepsAll(g: Graph, loc: Dbref, dropto: Dbref, x: Dbref)
    requires g.Sound() && g.Has(loc) && g.Has(x) && loc != dropto && (dropto == HOME || g.IsRoom(dropto))
    ensures g.CanDrop(loc, dropto)
    ensures var h := g.MaybeDropped(loc, dropto);
      |h.nodes| == |g.nodes| &&
      (h.IsThing(x) && h.nodes[x].location == loc && !h.Occupied(loc) ==>
         h.nodes[x].home == loc && (Flag(h.nodes[x].flags, STICKY) || dropto == HOME))
  {
    DropSound(g, loc, dropto);
    assert g.NodeSound(x);
    if !g.Occupied(loc) {
      SendSound(g, loc, dropto);
      assert g.Lists(Inside(loc));
    }
  }

  // ---- What the invariant means ----

  lemma SoundMeans(g: Graph)
    requires g.Sound()
    ensures forall l, x :: g.Has(l) && g.Has(x) ==> g.ContentsAgree(l, x)
    ensures forall x :: g.Has(x) ==> g.OnOneChain(x) && g.FieldsAgree(x)
  {
    forall l, x | g.Has(l) && g.Has(x) ensures g.ContentsAgree(l, x) {
      assert g.NodeSound(x) && g.Lists(Inside(l));
    }
    forall x | g.Has(x) ensures g.OnOneChain(x) && g.FieldsAgree(x) {
      PlacedOnce(g, x);
      FieldsSound(g, x);
    }
  }

  lemma PlacedOnce(g: Graph, x: Dbref)
    requires g.Sound() && g.Has(x)
    ensures g.OnOneChain(x)
  {
    assert g.NodeSound(x);
    assert forall k :: k in g.chain ==> g.Lists(k);
    if !g.IsRoom(x) {
      assert g.at[x] in g.chain && x in g.chain[g.at[x]];
      if g.IsExit(x) && !g.Carried(x) {
        assert g.at[x] == Doors(g.at[x].room);
      }
    }
  }

  lemma FieldsSound(g: Graph, x: Dbref)
    requires g.Sound() && g.Has(x)
    ensures g.FieldsAgree(x)
  {
    assert g.NodeSound(x);
    if g.IsThing(x) || g.IsExit(x) {
      assert g.Lists(Inside(x));
      forall y ensures y !in g.chain[Inside(x)] {
        assert g.Has(y) ==> g.NodeSound(y);
      }
    }
  }
}

/**
 Chains as they lie in memory: the `next` fields of the database array thread every chain
 of the graph from its head to NOTHING. The lemmas follow one field assignment each.
 */
module Threads {
  import opened Objects
  import opened Lists
  import opened Graphs

  ghost predicate Linked(db: seq<Object>, first: Dbref, s: seq<Dbref>) {
    && first == (if s == [] then NOTHING else s[0])
    && (forall i {:trigger s[i]} :: 0 <= i < |s| ==>
          0 <= s[i] < |db| && db[s[i]].next == (if i + 1 < |s| then s[i + 1] else NOTHING))
  }

  function Head(db: seq<Object>, k: Slot): Dbref {
    match k
    case Nowhere => NOTHING
    case Inside(o) => if 0 <= o < |db| then db[o].contents else NOTHING
    case Doors(r) => if 0 <= r < |db| then db[r].exits else NOTHING
  }

  function WithHead(db: seq<Object>, k: Slot, first: Dbref): seq<Object> {
    match k
    case Nowhere => db
    case Inside(o) => if 0 <= o < |db| then db[o := db[o].(contents := first)] else db
    case Doors(r) => if 0 <= r < |db| then db[r := db[r].(exits := first)] else db
  }

  function WithNext(db: seq<Object>, x: Dbref, n: Dbref): seq<Object>
    requires 0 <= x < |db|
  {
    db[x := db[x].(next := n)]
  }

  function WithLocation(db: seq<Object>, x: Dbref, where: Dbref): seq<Object>
    requires 0 <= x < |db|
  {
    db[x := db[x].(location := where)]
  }

  /** The array stores the graph: same nodes, and every chain threaded from its head. */
  ghost predicate Stores(db: seq<Object>, g: Graph) {
    && Reflects(db, g)
    && g.Indexed()
    && (forall k {:trigger Threaded(db, g, k)} :: k in g.chain ==> Threaded(db, g, k))
  }

  ghost predicate Reflects(db: seq<Object>, g: Graph) {
    && |g.nodes| == |db|
    && (forall x {:trigger db[x]} {:trigger g.nodes[x]} :: 0 <= x < |db| ==> g.nodes[x] == NodeOf(db[x]))
  }

  ghost predicate Threaded(db: seq<Object>, g: Graph, k: Slot)
    requires k in g.chain
  {
    Linked(db, Head(db, k), g.chain[k])
  }

  /** Only `next` fields have changed, and only those of members of s. */
  ghost predicate Rethreaded(before: seq<Object>, after: seq<Object>, s: seq<Dbref>) {
    && |after| == |before|
    && (forall x {:trigger after[x]} :: 0 <= x < |before| ==>
          && after[x] == before[x].(next := after[x].next)
          && (x !in s ==> after[x] == before[x]))
  }

  /** A list determines the chain it threads. */
  lemma {:induction false} LinkedUnique(db: seq<Object>, first: Dbref, s: seq<Dbref>, t: seq<Dbref>)
    requires Linked(db, first, s) && Linked(db, first, t)
    ensures s == t
    decreases |s|
  {
    if s != [] {
      assert 0 <= s[0] && t != [];
      LinkedTail(db, first, s);
      LinkedTail(db, first, t);
      LinkedUnique(db, db[first].next, s[1..], t[1..]);
    }
  }

  lemma LinkedTail(db: seq<Object>, first: Dbref, s: seq<Dbref>)
    requires Linked(db, first, s) && s != []
    ensures 0 <= first < |db| && s == [first] + s[1..]
    ensures Linked(db, db[first].next, s[1..])
  {
    HeadAndTail(s);
    LinkedRest(db, first, s);
  }

  lemma HeadAndTail(s: seq<Dbref>)
    requires s != []
    ensures s == [s[0]] + s[1..]
  {
  }

  lemma LinkedRest(db: seq<Object>, first: Dbref, s: seq<Dbref>)
    requires Linked(db, first, s) && s != []
    ensures 0 <= first < |db| && Linked(db, db[first].next, s[1..])
  {
    assert forall i :: 0 <= i < |s| - 1 ==> s[1..][i] == s[i + 1];
  }

  lemma LinkedKept(db: seq<Object>, after: seq<Object>, first: Dbref, s: seq<Dbref>)
    requires Linked(db, first, s) && |after| == |db|
    requires forall x :: 0 <= x < |db| && x in s ==> after[x].next == db[x].next
    ensures Linked(after, first, s)
  {
  }

  /** The same as Linked, said from the front. */
  ghost predicate Strung(db: seq<Object>, first: Dbref, s: seq<Dbref>)
    decreases |s|
  {
    if s == [] then first == NOTHING
    else first == s[0] && 0 <= first < |db| && Strung(db, db[first].next, s[1..])
  }

  lemma {:induction false} LinkedStrung(db: seq<Object>, first: Dbref, s: seq<Dbref>)
    requires Linked(db, first, s)
    ensures Strung(db, first, s)
    decreases |s|
  {
    if s != [] {
      LinkedTail(db, first, s);
      LinkedStrung(db, db[first].next, s[1..]);
    }
  }

  lemma {:induction false} StrungKept(db: seq<Object>, after: seq<Object>, first: Dbref, s: seq<Dbref>)
    requires Strung(db, first, s) && |after| == |db|
    requires forall x :: 0 <= x < |db| && x in s ==> after[x].next == db[x].next
    ensures Strung(after, first, s)
    decreases |s|
  {
    if s != [] {
      assert s[0] in s;
      StrungKept(db, after, db[first].next, s[1..]);
    }
  }

  /** PUSH(x, head of k) for an object that is on no chain. */
  lemma PushStores(db: seq<Object>, g: Graph, x: Dbref, k: Slot)
    requires Stores(db, g) && g.Has(x) && g.at[x] == Nowhere && k in g.chain
    ensures Stores(WithHead(WithNext(db, x, Head(db, k)), k, x), g.Pushed(x, k))
  {
    PushedIndexed(g, x, k);
    var h := g.Pushed(x, k);
    var after := WithHead(WithNext(db, x, Head(db, k)), k, x);
    forall j | j in h.chain ensures Threaded(after, h, j) {
      PushThreads(db, g, x, k, j);
    }
  }

  /** One turn of the loop of `reverse`: the element at i moves from the old list to the new one. */
  lemma ReversedStep(db: seq<Object>, newlist: Dbref, s: seq<Dbref>, i: nat)
    requires Distinct(s) && i < |s|
    requires Linked(db, s[i], s[i..]) && Linked(db, newlist, Reversed(s[..i]))
    ensures 0 <= s[i] < |db|
    ensures var after := WithNext(db, s[i], newlist);
      && Linked(after, s[i], Reversed(s[..i + 1]))
      && Linked(after, db[s[i]].next, s[i + 1..])
  {
    LinkedTail(db, s[i], s[i..]);
    var after := WithNext(db, s[i], newlist);
    assert s[i..][1..] == s[i + 1..];
    ReversedMembers(s[..i]);
    LinkedKept(db, after, db[s[i]].next, s[i + 1..]);
    LinkedKept(db, after, newlist, Reversed(s[..i]));
    LinkedCons(after, s[i], newlist, Reversed(s[..i]));
    assert Reversed(s[..i + 1]) == [s[i]] + Reversed(s[..i]);
  }

  lemma HeadsKept(db: seq<Object>, k: Slot, first: Dbref, j: Slot)
    requires k.Inside? ==> 0 <= k.holder < |db|
    requires k.Doors? ==> 0 <= k.room < |db|
    requires k != Nowhere
    ensures Head(WithHead(db, k, first), j) == if j == k then first else Head(db, j)
    ensures |WithHead(db, k, first)| == |db|
    ensures forall x :: 0 <= x < |db| ==> WithHead(db, k, first)[x].next == db[x].next
  {
  }

  lemma PushThreads(db: seq<Object>, g: Graph, x: Dbref, k: Slot, j: Slot)
    requires Stores(db, g) && g.Has(x) && g.at[x] == Nowhere && k in g.chain && j in g.chain
    ensures Threaded(WithHead(WithNext(db, x, Head(db, k)), k, x), g.Pushed(x, k), j)
  {
    var mid := WithNext(db, x, Head(db, k));
    assert g.Lists(j) && Threaded(db, g, j);
    assert Head(mid, j) == Head(db, j);
    HeadsKept(mid, k, x, j);
    var after := WithHead(mid, k, x);
    LinkedKept(db, after, Head(db, j), g.chain[j]);
    if j == k {
      LinkedCons(after, x, Head(db, k), g.chain[k]);
    }
  }

  lemma LinkedCons(db: seq<Object>, x: Dbref, first: Dbref, s: seq<Dbref>)
    requires Linked(db, first, s) && 0 <= x < |db| && db[x].next == first
    ensures Linked(db, x, [x] + s)
  {
  }

  /** Storing a list shortened by x back into the head of the chain k that held x. */
  lemma PullStores(db: seq<Object>, g: Graph, x: Dbref, k: Slot, after: seq<Object>, first: Dbref)
    requires Stores(db, g) && g.Has(x) && g.at[x] == k && k in g.chain
    requires Rethreaded(db, after, g.chain[k])
    requires Linked(after, first, Without(g.chain[k], x))
    ensures Stores(WithHead(after, k, first), g.Pulled(x, k))
    ensures forall y :: g.Has(y) && g.at[y] != k ==> WithHead(after, k, first)[y].next == db[y].next
  {
    PulledIndexed(g, x, k);
    var h := g.Pulled(x, k);
    ReflectsKept(db, g, k, after, first);
    NextsKept(db, g, k, after, first);
    forall j | j in h.chain ensures Threaded(WithHead(after, k, first), h, j) {
      PullThreads(db, g, x, k, after, first, j);
    }
  }

  /** Outside chain k no next field changes. */
  lemma NextsKept(db: seq<Object>, g: Graph, k: Slot, after: seq<Object>, first: Dbref)
    requires g.Indexed() && k in g.chain && |g.nodes| == |db| && Rethreaded(db, after, g.chain[k])
    ensures |WithHead(after, k, first)| == |db|
    ensures forall y :: g.Has(y) && g.at[y] != k ==> WithHead(after, k, first)[y].next == db[y].next
  {
    assert g.Lists(k);
  }

  lemma PullThreads(db: seq<Object>, g: Graph, x: Dbref, k: Slot, after: seq<Object>, first: Dbref, j: Slot)
    requires Stores(db, g) && g.Has(x) && g.at[x] == k && k in g.chain
    requires Rethreaded(db, after, g.chain[k]) && j in g.chain
    requires Linked(after, first, Without(g.chain[k], x))
    ensures Threaded(WithHead(after, k, first), g.Pulled(x, k), j)
  {
    RearrangeThreads(db, g, k, after, first, Without(g.chain[k], x), j);
  }

  /** remove_first when what is not in front: the link before it is moved past it. */
  lemma {:induction false} SkipLinked(db: seq<Object>, first: Dbref, s: seq<Dbref>, i: nat)
    requires Linked(db, first, s) && Distinct(s) && i + 1 < |s|
    ensures 0 <= s[i] < |db| && 0 <= s[i + 1] < |db|
    ensures Linked(WithNext(db, s[i], db[s[i + 1]].next), first, Without(s, s[i + 1]))
    decreases i
  {
    LinkedTail(db, first, s);
    var t := s[1..];
    if i == 0 {
      LinkedTail(db, s[1], t);
      var after := WithNext(db, s[0], db[s[1]].next);
      LinkedKept(db, after, db[s[1]].next, t[1..]);
      LinkedCons(after, s[0], db[s[1]].next, t[1..]);
      assert Without(s, s[1]) == [s[0]] + t[1..];
    } else {
      assert t[i - 1] == s[i] && t[i] == s[i + 1];
      SkipLinked(db, db[first].next, t, i - 1);
      var after := WithNext(db, s[i], db[s[i + 1]].next);
      LinkedCons(after, s[0], db[first].next, Without(t, s[i + 1]));
      assert Without(s, s[i + 1]) == [s[0]] + Without(t, s[i + 1]);
    }
  }

  lemma RethreadedTwice(a: seq<Object>, b: seq<Object>, x: Dbref, n: Dbref, s: seq<Dbref>)
    requires Rethreaded(a, b, s) && 0 <= x < |b| && x in s
    ensures Rethreaded(a, WithNext(b, x, n), s)
  {
  }

  /** Assigning fields of x that no chain runs through. */
  lemma ChangeStores(db: seq<Object>, g: Graph, x: Dbref, o: Object)
    requires Stores(db, g) && g.Has(x)
    requires o.next == db[x].next && o.contents == db[x].contents
    requires Typeof(o.flags) == TYPE_ROOM <==> g.IsRoom(x)
    requires g.IsRoom(x) ==> o.exits == db[x].exits
    ensures Stores(db[x := o], g.Changed(x, NodeOf(o)))
  {
    var h := g.Changed(x, NodeOf(o));
    ChangedIndexed(g, x, NodeOf(o));
    forall j | j in h.chain ensures Threaded(db[x := o], h, j) {
      assert Threaded(db, g, j);
      assert Head(db[x := o], j) == Head(db, j);
      LinkedKept(db, db[x := o], Head(db, j), g.chain[j]);
    }
  }

  /** new_object: an object with no links at the end of the array. */
  lemma GrowStores(db: seq<Object>, g: Graph, o: Object)
    requires Stores(db, g)
    requires o.next == NOTHING && o.contents == NOTHING && (Typeof(o.flags) == TYPE_ROOM ==> o.exits == NOTHING)
    ensures Stores(db + [o], g.Grown(NodeOf(o)))
  {
    var h := g.Grown(NodeOf(o));
    GrownIndexed(g, NodeOf(o));
    forall j | j in h.chain ensures Threaded(db + [o], h, j) {
      if j in g.chain {
        assert Threaded(db, g, j) && Head(db + [o], j) == Head(db, j);
      }
    }
  }

  /** Which chain heads and which locations send_contents clears before its loop. */
  ghost predicate Blasted(before: seq<Object>, after: seq<Object>, loc: Dbref, s: seq<Dbref>) {
    && |after| == |before|
    && (forall x {:trigger after[x]} :: 0 <= x < |before| ==>
          after[x] == before[x].(
            location := if x in s then NOTHING else before[x].location,
            contents := if x == loc then NOTHING else before[x].contents))
  }

  lemma BlastStep(before: seq<Object>, db: seq<Object>, loc: Dbref, s: seq<Dbref>, i: nat)
    requires i < |s| && 0 <= s[i] < |db| && Blasted(before, db, loc, s[..i])
    ensures Blasted(before, WithLocation(db, s[i], NOTHING), loc, s[..i + 1])
  {
    assert s[..i + 1] == s[..i] + [s[i]];
  }

  lemma BlastStores(db: seq<Object>, g: Graph, after: seq<Object>, loc: Dbref, dest: Dbref)
    requires Stores(db, g) && g.CanSend(loc, dest)
    requires Blasted(db, after, loc, g.chain[Inside(loc)])
    ensures Stores(after, g.PartlySent(loc, dest, []))
    ensures Linked(after, db[loc].contents, g.chain[Inside(loc)])
  {
    var h := g.PartlySent(loc, dest, []);
    NoneSentIndexed(g, loc, dest);
    BlastReflects(db, g, after, loc, dest);
    assert Threaded(db, g, Inside(loc));
    LinkedKept(db, after, db[loc].contents, g.chain[Inside(loc)]);
    forall k | k in h.chain ensures Threaded(after, h, k) {
      BlastThreads(db, g, after, loc, dest, k);
    }
  }

  lemma BlastReflects(db: seq<Object>, g: Graph, after: seq<Object>, loc: Dbref, dest: Dbref)
    requires Stores(db, g) && g.Has(loc) && Blasted(db, after, loc, g.chain[Inside(loc)])
    ensures Reflects(after, g.PartlySent(loc, dest, []))
  {
    assert g.Lists(Inside(loc));
  }

  lemma BlastThreads(db: seq<Object>, g: Graph, after: seq<Object>, loc: Dbref, dest: Dbref, k: Slot)
    requires Stores(db, g) && g.Has(loc) && Blasted(db, after, loc, g.chain[Inside(loc)]) && k in g.chain
    ensures k in g.PartlySent(loc, dest, []).chain && Threaded(after, g.PartlySent(loc, dest, []), k)
  {
    assert Threaded(db, g, k);
    if k != Inside(loc) {
      assert Head(after, k) == Head(db, k);
      LinkedKept(db, after, Head(db, k), g.chain[k]);
    }
    NoneSentChain(g, loc, dest, k);
  }

  lemma NoneSentChain(g: Graph, loc: Dbref, dest: Dbref, k: Slot)
    requires |g.at| == |g.nodes| && k in g.chain
    ensures k in g.PartlySent(loc, dest, []).chain
    ensures g.PartlySent(loc, dest, []).chain[k] == if k == Inside(loc) then [] else g.chain[k]
  {
  }

  /** Replacing a chain by another arrangement of its members. */
  lemma RearrangeStores(db: seq<Object>, g: Graph, k: Slot, after: seq<Object>, first: Dbref, s: seq<Dbref>)
    requires Stores(db, g) && k in g.chain
    requires Distinct(s) && forall x :: x in s <==> x in g.chain[k]
    requires Rethreaded(db, after, g.chain[k]) && Linked(after, first, s)
    ensures Stores(WithHead(after, k, first), g.(chain := g.chain[k := s]))
  {
    var h := g.(chain := g.chain[k := s]);
    RearrangedIndexed(g, k, s);
    ReflectsKept(db, g, k, after, first);
    forall j | j in h.chain ensures Threaded(WithHead(after, k, first), h, j) {
      RearrangeThreads(db, g, k, after, first, s, j);
    }
  }

  lemma ReflectsKept(db: seq<Object>, g: Graph, k: Slot, after: seq<Object>, first: Dbref)
    requires Stores(db, g) && k in g.chain
    requires Rethreaded(db, after, g.chain[k])
    ensures Reflects(WithHead(after, k, first), g)
  {
    assert Reflects(after, g);
  }

  lemma RearrangeThreads(
      db: seq<Object>, g: Graph, k: Slot, after: seq<Object>, first: Dbref, s: seq<Dbref>, j: Slot)
    requires Stores(db, g) && k in g.chain && j in g.chain
    requires Rethreaded(db, after, g.chain[k]) && Linked(after, first, s)
    ensures Threaded(WithHead(after, k, first), g.(chain := g.chain[k := s]), j)
  {
    var end := WithHead(after, k, first);
    assert g.Lists(j) && g.Lists(k) && Threaded(db, g, j);
    HeadsKept(after, k, first, j);
    if j == k {
      LinkedKept(after, end, first, s);
    } else {
      assert Head(after, j) == Head(db, j);
      assert forall y :: y in g.chain[j] ==> y !in g.chain[k];
      LinkedKept(db, end, Head(db, j), g.chain[j]);
    }
  }
}

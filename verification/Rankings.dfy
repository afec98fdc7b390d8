/** @top of src/wiz.c: the most used objects, kept in order in an array of fixed size. */
module Rankings {
  import opened Objects
  import opened Numbers

  /** The objects that count, in database order. */
  ghost function Used(db: seq<Object>, kind: int, n: nat): (r: seq<Dbref>)
    requires n <= |db|
    ensures AreObjects(db, r) && forall x :: x in r <==> 0 <= x < n && Counts(db[x], kind)
    ensures (forall i :: 0 <= i < |r| ==> r[i] < n) && Increasing(r)
  {
    if n == 0 then []
    else if Counts(db[n - 1], kind) then Used(db, kind, n - 1) + [n - 1]
    else Used(db, kind, n - 1)
  }

  predicate Counts(o: Object, kind: int) {
    o.usecnt != 0 && (kind == NOTHING || Typeof(o.flags) == kind)
  }

  ghost predicate AreObjects(db: seq<Object>, s: seq<Dbref>) {
    forall i {:trigger s[i]} :: 0 <= i < |s| ==> 0 <= s[i] < |db|
  }

  /** x is listed before y: more used, or as much used and created earlier. */
  predicate Precedes(db: seq<Object>, x: Dbref, y: Dbref)
    requires 0 <= x < |db| && 0 <= y < |db|
  {
    db[x].usecnt > db[y].usecnt || (db[x].usecnt == db[y].usecnt && x < y)
  }

  ghost predicate Ordered(db: seq<Object>, s: seq<Dbref>)
    requires AreObjects(db, s)
  {
    forall i, j :: 0 <= i < j < |s| ==> Precedes(db, s[i], s[j])
  }

  /** How many members of s are used at least as much as x, when s is in descending order. */
  ghost function Place(db: seq<Object>, s: seq<Dbref>, x: Dbref): (p: nat)
    requires AreObjects(db, s) && 0 <= x < |db|
    ensures p <= |s| && forall i :: 0 <= i < p ==> db[s[i]].usecnt >= db[x].usecnt
    ensures p < |s| ==> db[s[p]].usecnt < db[x].usecnt
  {
    if s == [] || db[s[0]].usecnt < db[x].usecnt then 0 else 1 + Place(db, s[1..], x)
  }

  /** Stable insertion sort, most used first. */
  ghost function Sorted(db: seq<Object>, s: seq<Dbref>): (r: seq<Dbref>)
    requires AreObjects(db, s)
    ensures AreObjects(db, r) && |r| == |s|
  {
    if s == [] then []
    else
      var t, x := Sorted(db, s[..|s| - 1]), s[|s| - 1];
      Inserted(t, Place(db, t, x), x)
  }

  function Inserted(s: seq<Dbref>, p: nat, x: Dbref): (r: seq<Dbref>)
    requires p <= |s|
    ensures |r| == |s| + 1
    ensures forall i :: 0 <= i < |r| ==> r[i] == if i < p then s[i] else if i == p then x else s[i - 1]
  {
    s[..p] + [x] + s[p..]
  }

  ghost predicate Increasing(s: seq<Dbref>) {
    forall i, j :: 0 <= i < j < |s| ==> s[i] < s[j]
  }

  lemma InsertedMembers(s: seq<Dbref>, p: nat, x: Dbref)
    requires p <= |s|
    ensures multiset(Inserted(s, p, x)) == multiset(s) + multiset{x}
    ensures forall y :: y in Inserted(s, p, x) <==> y in s || y == x
  {
    assert s == s[..p] + s[p..];
  }

  lemma InsertedOrdered(db: seq<Object>, s: seq<Dbref>, x: Dbref)
    requires AreObjects(db, s) && 0 <= x < |db| && Ordered(db, s) && forall y :: y in s ==> y < x
    ensures AreObjects(db, Inserted(s, Place(db, s, x), x)) && Ordered(db, Inserted(s, Place(db, s, x), x))
  {
    var p := Place(db, s, x);
    var r := Inserted(s, p, x);
    forall i, j | 0 <= i < j < |r| ensures Precedes(db, r[i], r[j]) {
      if i == p {
        assert p < j - 1 ==> Precedes(db, s[p], s[j - 1]);
      } else if j == p {
        assert s[i] in s;
      }
    }
  }

  /** Sorting puts the same objects in order. */
  lemma {:induction false} SortedOrders(db: seq<Object>, s: seq<Dbref>)
    requires AreObjects(db, s) && Increasing(s)
    ensures Ordered(db, Sorted(db, s)) && multiset(Sorted(db, s)) == multiset(s)
    ensures forall x :: x in Sorted(db, s) <==> x in s
  {
    if s != [] {
      var n := |s| - 1;
      var t := Sorted(db, s[..n]);
      SortedOrders(db, s[..n]);
      assert s == s[..n] + [s[n]];
      forall y | y in t ensures y < s[n] {
        assert y in s[..n];
      }
      InsertedMembers(t, Place(db, t, s[n]), s[n]);
      InsertedOrdered(db, t, s[n]);
    }
  }

  /** There is only one way to put them in order. */
  lemma {:induction false} OrderedUnique(db: seq<Object>, s: seq<Dbref>, t: seq<Dbref>)
    requires AreObjects(db, s) && AreObjects(db, t) && Ordered(db, s) && Ordered(db, t)
    requires forall x :: x in s <==> x in t
    ensures s == t
  {
    assert |t| > 0 ==> t[0] in t;
    if s != [] {
      assert s[0] in s;
      SameHead(db, s, t);
      TailMembers(db, s);
      TailMembers(db, t);
      OrderedUnique(db, s[1..], t[1..]);
      assert s == [s[0]] + s[1..] && t == [t[0]] + t[1..];
    }
  }

  lemma SameHead(db: seq<Object>, s: seq<Dbref>, t: seq<Dbref>)
    requires AreObjects(db, s) && AreObjects(db, t) && Ordered(db, s) && Ordered(db, t)
    requires s != [] && t != [] && s[0] in t && t[0] in s
    ensures s[0] == t[0]
  {
    var i :| 0 <= i < |t| && t[i] == s[0];
    var j :| 0 <= j < |s| && s[j] == t[0];
  }

  lemma TailMembers(db: seq<Object>, s: seq<Dbref>)
    requires s != [] && AreObjects(db, s) && Ordered(db, s)
    ensures forall x :: x in s[1..] <==> x in s && x != s[0]
  {
    forall x | x in s && x != s[0] ensures x in s[1..] {
      var i :| 0 <= i < |s| && s[i] == x;
      assert s[1..][i - 1] == x;
    }
    forall x | x in s[1..] ensures x in s && x != s[0] {
      var i :| 0 <= i < |s[1..]| && s[1..][i] == x;
      assert s[i + 1] == x && Precedes(db, s[0], s[i + 1]);
    }
  }

  /** The objects below n that count, sorted. */
  ghost function Ranked(db: seq<Object>, kind: int, n: nat): (r: seq<Dbref>)
    requires n <= |db|
    ensures AreObjects(db, r)
  {
    Sorted(db, Used(db, kind, n))
  }

  lemma RankedNext(db: seq<Object>, kind: int, n: nat)
    requires n < |db| && Counts(db[n], kind)
    ensures var s := Ranked(db, kind, n);
      Ordered(db, s) && Ranked(db, kind, n + 1) == Inserted(s, Place(db, s, n), n)
  {
    var u := Used(db, kind, n + 1);
    assert u[..|u| - 1] == Used(db, kind, n);
    SortedOrders(db, Used(db, kind, n));
  }

  // ---- The array ----

  /** The first num members of s, and NOTHING where there are fewer. */
  function Padded(s: seq<Dbref>, num: nat): (r: seq<Dbref>)
    ensures |r| == num && forall i :: 0 <= i < num ==> r[i] == if i < |s| then s[i] else NOTHING
  {
    seq(num, i requires 0 <= i < num => if i < |s| then s[i] else NOTHING)
  }

  /** Inserting and cutting off is inserting into what was cut off before. */
  lemma PaddedInserted(s: seq<Dbref>, p: nat, x: Dbref, num: nat)
    requires p <= |s|
    ensures Padded(Inserted(s, p, x), num) ==
            if p < num then Padded(s, num)[..p] + [x] + Padded(s, num)[p..num - 1] else Padded(s, num)
  {
  }

  /** Where the scan from the end of the array stops. */
  method FindPlace(db: seq<Object>, top: array<Dbref>, x: Dbref, ghost s: seq<Dbref>) returns (j: nat)
    requires AreObjects(db, s) && Ordered(db, s) && 0 <= x < |db| && top[..] == Padded(s, top.Length)
    ensures j == if Place(db, s, x) < top.Length then Place(db, s, x) else top.Length
  {
    ghost var p := Place(db, s, x);
    j := top.Length;
    while j > 0
      invariant 0 <= j <= top.Length && (j < top.Length ==> p <= j)
    {
      assert top[j - 1] == top[..][j - 1];
      if top[j - 1] != NOTHING {
        assert p < j - 1 < |s| ==> Precedes(db, s[p], s[j - 1]);
        if db[x].usecnt <= db[top[j - 1]].usecnt {
          break;
        }
      }
      j := j - 1;
    }
  }

  method RollDown(top: array<Dbref>, j: nat, x: Dbref)
    requires j < top.Length
    modifies top
    ensures top[..] == old(top[..j]) + [x] + old(top[j..top.Length - 1])
  {
    var k := top.Length - 1;
    while k > j
      invariant j <= k < top.Length
      invariant forall i :: 0 <= i <= k ==> top[i] == old(top[i])
      invariant forall i :: k < i < top.Length ==> top[i] == old(top[i - 1])
    {
      top[k] := top[k - 1];
      k := k - 1;
    }
    top[j] := x;
  }

  method Insert(db: seq<Object>, top: array<Dbref>, x: Dbref, ghost s: seq<Dbref>)
    requires AreObjects(db, s) && Ordered(db, s) && 0 <= x < |db| && top[..] == Padded(s, top.Length)
    modifies top
    ensures top[..] == Padded(Inserted(s, Place(db, s, x), x), top.Length)
  {
    ghost var p, before := Place(db, s, x), top[..];
    var j := FindPlace(db, top, x, s);
    PaddedInserted(s, p, x, top.Length);
    if j < top.Length {
      RollDown(top, j, x);
      assert top[..] == before[..j] + [x] + before[j..top.Length - 1];
    }
  }

  /** The table that do_top fills: the first num objects of the sorted list. */
  method FillTop(db: seq<Object>, kind: int, num: nat) returns (top: array<Dbref>)
    ensures fresh(top) && top[..] == Padded(Ranked(db, kind, |db|), num)
  {
    top := new Dbref[num](_ => NOTHING);
    var i := 0;
    ghost var s := [];
    while i < |db|
      invariant 0 <= i <= |db| && top.Length == num && fresh(top)
      invariant s == Ranked(db, kind, i) && top[..] == Padded(s, num)
    {
      if db[i].usecnt != 0 && (kind == NOTHING || Typeof(db[i].flags) == kind) {
        RankedNext(db, kind, i);
        Insert(db, top, i, s);
        s := Inserted(s, Place(db, s, i), i);
      }
      i := i + 1;
    }
  }

  function TopCount(text: string): int {
    if text == "" then 10 else Atol(text)
  }

  function TopKind(text: string): int {
    if text == "" then NOTHING
    else match text[0]
      case 'p' => TYPE_PLAYER
      case 'P' => TYPE_PLAYER
      case 'e' => TYPE_EXIT
      case 'E' => TYPE_EXIT
      case 'r' => TYPE_ROOM
      case 'R' => TYPE_ROOM
      case 't' => TYPE_THING
      case 'T' => TYPE_THING
      case _ => NOTHING
  }

  /** The lines printed: the table up to the first NOTHING. */
  method Show(top: array<Dbref>, ghost db: seq<Object>, ghost s: seq<Dbref>) returns (shown: seq<Dbref>)
    requires AreObjects(db, s) && top[..] == Padded(s, top.Length)
    ensures shown == if top.Length < |s| then s[..top.Length] else s
  {
    shown := [];
    assert forall i :: 0 <= i < top.Length ==> top[i] == top[..][i];
    var j := 0;
    while j < top.Length && top[j] != NOTHING
      invariant 0 <= j <= top.Length && j <= |s| && shown == s[..j]
    {
      shown := shown + [top[j]];
      j := j + 1;
    }
  }

  /** do_top: the objects a wizard is shown. */
  method DoTop(db: seq<Object>, wizard: bool, numstr: string, typestr: string) returns (shown: seq<Dbref>)
    ensures var num, s := TopCount(numstr), Ranked(db, TopKind(typestr), |db|);
      shown == if !wizard || num < 1 || num > |db| then [] else if num < |s| then s[..num] else s
  {
    var num := TopCount(numstr);
    if !wizard || num < 1 || num > |db| {
      return [];
    }
    var kind := TopKind(typestr);
    var top := FillTop(db, kind, num);
    assert top.Length == num;
    shown := Show(top, db, Ranked(db, kind, |db|));
  }

  /** What is shown has been used, and nothing of the kind that is left out more, or as much and created earlier. */
  lemma TopIsTop(db: seq<Object>, kind: int, num: nat, x: Dbref, y: Dbref)
    requires num <= |Used(db, kind, |db|)| && 0 <= y < |db|
    requires db[y].usecnt != 0 && (kind == NOTHING || Typeof(db[y].flags) == kind)
    ensures var shown := Ranked(db, kind, |db|)[..num];
      x in shown ==>
        && 0 <= x < |db| && db[x].usecnt != 0 && (kind == NOTHING || Typeof(db[x].flags) == kind)
        && (y !in shown ==> db[x].usecnt > db[y].usecnt || (db[x].usecnt == db[y].usecnt && x < y))
  {
    var u := Used(db, kind, |db|);
    var s := Sorted(db, u);
    SortedOrders(db, u);
    if x in s[..num] {
      assert x in s && x in u;
    }
    if x in s[..num] && y !in s[..num] {
      assert y in u && y in s;
      var i :| 0 <= i < num && s[..num][i] == x;
      assert forall k :: 0 <= k < num ==> s[k] == s[..num][k] && s[k] in s[..num];
      var j :| 0 <= j < |s| && s[j] == y;
      assert Precedes(db, s[i], s[j]);
    }
  }
}

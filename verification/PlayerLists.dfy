/** The hash index of src/player_list.c: an array of bucket heads, with the chains linked through next. */
module PlayerLists {
  import opened Objects
  import opened Lists
  import opened Names
  import opened Directories

  class PlElt {
    const player: Dbref
    var next: PlElt?
    ghost const slot: nat

    constructor (player: Dbref, next: PlElt?, ghost slot: nat)
      ensures this.player == player && this.next == next && this.slot == slot
    {
      this.player, this.next, this.slot := player, next, slot;
    }
  }

  /** The elements from first on are those of s. */
  ghost predicate Listed(first: PlElt?, s: seq<PlElt>)
    reads s
  {
    && first == (if s == [] then null else s[0])
    && (forall i {:trigger s[i].next} :: 0 <= i < |s| ==> s[i].next == if i + 1 < |s| then s[i + 1] else null)
  }

  ghost function Players(s: seq<PlElt>): (r: seq<Dbref>)
    ensures |r| == |s| && forall i :: 0 <= i < |s| ==> r[i] == s[i].player
  {
    seq(|s|, i requires 0 <= i < |s| => s[i].player)
  }

  lemma PlayersCons(s: seq<PlElt>, t: seq<PlElt>)
    requires s != [] && s[1..] == t
    ensures Players(s) == [s[0].player] + Players(t)
  {
    assert s == [s[0]] + t;
  }

  lemma PlayersTail(s: seq<PlElt>)
    requires s != []
    ensures Players(s[1..]) == Without(Players(s), s[0].player)
  {
    PlayersCons(s, s[1..]);
  }

  lemma SkipOne(s: seq<PlElt>, i: nat, x: Dbref)
    requires 0 < i < |s| && Distinct(s) && s[i].player == x && x !in Players(s)[..i]
    ensures var t := s[..i] + s[i + 1..];
      && Distinct(t) && Players(t) == Without(Players(s), x)
      && (forall y :: y in t ==> y in s)
      && (forall j {:trigger t[j]} :: 0 <= j < |t| ==> t[j] == if j < i then s[j] else s[j + 1])
      && (forall j {:trigger s[j]} :: 0 <= j < |s| && j != i - 1 ==> s[j] != s[i - 1])
  {
    SkipDistinct(s, i);
    SkipPlayers(s, i);
    WithoutAt(Players(s), x, i);
  }

  lemma SkipDistinct<T>(s: seq<T>, i: nat)
    requires i < |s| && Distinct(s)
    ensures Distinct(s[..i] + s[i + 1..])
  {
  }

  lemma SkipPlayers(s: seq<PlElt>, i: nat)
    requires i < |s|
    ensures Players(s[..i] + s[i + 1..]) == Players(s)[..i] + Players(s)[i + 1..]
  {
  }

  /** The names are C strings. */
  ghost predicate Terminated(db: seq<Object>) {
    forall x :: 0 <= x < |db| ==> '\0' !in db[x].name
  }

  class PlayerList {
    const table: seq<bv32>
    const bucket: array<PlElt?>
    ghost var chain: seq<seq<PlElt>>
    ghost var repr: set<PlElt>

    ghost predicate Valid()
      reads this, bucket, repr
    {
      && IsTable(table)
      && bucket.Length == |chain| == PLAYER_LIST_SIZE
      && (forall b {:trigger Chained(b)} :: 0 <= b < |chain| ==> Chained(b))
    }

    ghost predicate Chained(b: nat)
      requires b < bucket.Length == |chain|
      reads this, bucket, repr
    {
      Row(bucket[b], chain[b], b)
    }

    ghost predicate Row(first: PlElt?, s: seq<PlElt>, b: nat)
      reads this`repr, repr
    {
      && (forall e :: e in s ==> e in repr && e.slot == b)
      && Distinct(s)
      && Listed(first, s)
    }

    ghost function Index(): (r: seq<seq<Dbref>>)
      reads this
      ensures |r| == |chain| && forall b :: 0 <= b < |chain| ==> r[b] == Players(chain[b])
    {
      seq(|chain|, b requires 0 <= b < |chain| reads this => Players(chain[b]))
    }

    constructor (table: seq<bv32>)
      requires IsTable(table)
      ensures Valid() && fresh(bucket) && fresh(repr) && this.table == table
      ensures Index() == seq(PLAYER_LIST_SIZE, _ => [])
    {
      this.table := table;
      bucket := new PlElt?[PLAYER_LIST_SIZE](_ => null);
      chain := seq(PLAYER_LIST_SIZE, _ => []);
      repr := {};
    }

    method ClearPlayers()
      requires Valid()
      modifies this`chain, bucket
      ensures Valid()
      ensures Index() == seq(PLAYER_LIST_SIZE, _ => [])
    {
      var i := 0;
      while i < PLAYER_LIST_SIZE
        invariant 0 <= i <= PLAYER_LIST_SIZE
        invariant forall b :: 0 <= b < i ==> bucket[b] == null
      {
        bucket[i] := null;
        i := i + 1;
      }
      chain := seq(PLAYER_LIST_SIZE, _ => []);
    }

    /** chain[h] becomes t, which is what the heap now holds there. */
    ghost method Relink(h: nat, t: seq<PlElt>)
      requires IsTable(table) && bucket.Length == |chain| == PLAYER_LIST_SIZE && h < |chain|
      requires forall b {:trigger Chained(b)} :: 0 <= b < |chain| && b != h ==> Chained(b)
      requires Row(bucket[h], t, h)
      modifies this`chain
      ensures Valid() && chain == old(chain)[h := t] && Index() == old(Index())[h := Players(t)]
    {
      chain := chain[h := t];
      forall b | 0 <= b < |chain| ensures Chained(b) {
        assert b != h ==> old(Chained(b));
      }
    }

    method AddPlayer(db: seq<Object>, x: Dbref)
      requires Valid() && 0 <= x < |db|
      modifies this, bucket
      ensures Valid() && fresh(repr - old(repr))
      ensures Index() == Added(table, Directory(db, old(Index())), x).index
    {
      var hash := HashFunction(table, db[x].name);
      ghost var before := chain[hash as int];
      Enter(x, hash as int);
      PlayersCons(chain[hash as int], before);
    }

    method Enter(x: Dbref, h: nat)
      requires Valid() && h < PLAYER_LIST_SIZE
      modifies this, bucket
      ensures Valid() && fresh(repr - old(repr))
      ensures chain[h] != [] && chain[h][0].player == x && chain[h][1..] == old(chain[h])
      ensures Index() == old(Index())[h := Players(chain[h])]
    {
      assert Chained(h);
      var e := new PlElt(x, bucket[h], h);
      repr := repr + {e};
      bucket[h] := e;
      forall b | 0 <= b < |chain| && b != h ensures Chained(b) {
        assert old(Chained(b));
      }
      ghost var t := [e] + chain[h];
      assert t[1..] == chain[h];
      Relink(h, t);
    }

    /** While index and names are right, whoever has the name, in whatever spelling, is found. */
    lemma FoundRespelled(db: seq<Object>, name: string)
      requires Valid() && InRange(Directory(db, Index()))
      ensures Sound(table, Directory(db, Index())) ==>
        forall y :: y != NOTHING ==>
          (Lookup(table, Directory(db, Index()), name) == y <==> IsPlayer(db, y) && Respells(db[y].name, name))
    {
      var d := Directory(db, Index());
      if Sound(table, d) {
        forall y | y != NOTHING ensures Lookup(table, d, name) == y <==> IsPlayer(db, y) && Respells(db[y].name, name) {
          LookupIff(table, d, name, y);
          if IsPlayer(db, y) {
            SameNameIff(db[y].name, name);
          }
        }
      }
    }

    method LookupPlayer(db: seq<Object>, name: string) returns (x: Dbref)
      requires Valid() && InRange(Directory(db, Index())) && Terminated(db) && '\0' !in name
      ensures x == Lookup(table, Directory(db, Index()), name)
      ensures Sound(table, Directory(db, Index())) ==>
        forall y :: y != NOTHING ==> (x == y <==> IsPlayer(db, y) && Respells(db[y].name, name))
    {
      FoundRespelled(db, name);
      var hash := HashFunction(table, name);
      assert Chained(hash as int) && Index()[hash as int] == Players(chain[hash as int]);
      x := Find(db, bucket[hash as int], name, chain[hash as int]);
    }

    static method Find(db: seq<Object>, first: PlElt?, name: string, ghost s: seq<PlElt>) returns (x: Dbref)
      requires Listed(first, s) && Terminated(db) && '\0' !in name
      requires forall i :: 0 <= i < |s| ==> 0 <= s[i].player < |db|
      ensures x == Scan(db, Players(s), name)
    {
      var e := first;
      ghost var p := Players(s);
      ghost var i := 0;
      while e != null
        invariant 0 <= i <= |s| && e == (if i < |s| then s[i] else null)
        invariant Scan(db, p[i..], name) == Scan(db, p, name)
        decreases |s| - i
      {
        assert p[i..][0] == e.player && p[i..][1..] == p[i + 1..];
        var d := StringCompare(db[e.player].name, name);
        if d == 0 {
          return e.player;
        }
        e := e.next;
        i := i + 1;
      }
      return NOTHING;
    }

    method DeletePlayer(db: seq<Object>, x: Dbref)
      requires Valid() && 0 <= x < |db|
      modifies this, bucket, repr
      ensures Valid() && repr == old(repr)
      ensures Index() == Deleted(table, Directory(db, old(Index())), x).index
    {
      var hash := HashFunction(table, db[x].name);
      Remove(x, hash as int);
    }

    /** delete_player on bucket h. */
    method Remove(x: Dbref, h: nat)
      requires Valid() && h < PLAYER_LIST_SIZE
      modifies this, bucket, repr
      ensures Valid() && repr == old(repr)
      ensures Index() == old(Index())[h := Without(old(Index())[h], x)]
    {
      assert Chained(h) && Index()[h] == Players(chain[h]);
      ghost var t := chain[h];
      var e := bucket[h];
      if e == null {
        return;
      } else if e.player == x {
        bucket[h] := e.next;
        t := t[1..];
        PlayersTail(chain[h]);
      } else {
        t := RemoveAfter(e, x, chain[h]);
      }
      forall b | 0 <= b < |chain| && b != h ensures Chained(b) {
        assert old(Chained(b));
        ghost var u := chain[b];
        forall i {:trigger u[i].next} | 0 <= i < |u| ensures u[i].next == old(u[i].next) {
          assert u[i] in u && u[i].slot == b;
          assert u[i] !in chain[h];
        }
      }
      Relink(h, t);
    }

    /** The loop of delete_player, behind the first element. */
    static method RemoveAfter(first: PlElt, x: Dbref, ghost s: seq<PlElt>) returns (ghost t: seq<PlElt>)
      requires s != [] && Listed(first, s) && Distinct(s) && first.player != x
      modifies s
      ensures Players(t) == Without(Players(s), x)
      ensures Listed(first, t) && Distinct(t) && forall y :: y in t ==> y in s
    {
      var prev, e := first, first.next;
      ghost var i := 1;
      while e != null
        invariant 1 <= i <= |s| && prev == s[i - 1] && e == (if i < |s| then s[i] else null)
        invariant x !in Players(s)[..i]
        decreases |s| - i
      {
        if e.player == x {
          t := s[..i] + s[i + 1..];
          SkipOne(s, i, x);
          prev.next := e.next;
          return;
        }
        prev, e := e, e.next;
        i := i + 1;
      }
      return s;
    }

    /** What db_read does to the index: clear it, then enter every player. */
    method Rebuild(db: seq<Object>)
      requires Valid()
      modifies this, bucket
      ensures Valid() && Indexed(table, Directory(db, Index())) && fresh(repr - old(repr))
    {
      ClearPlayers();
      var i := 0;
      while i < |db|
        invariant 0 <= i <= |db| && Valid() && fresh(repr - old(repr))
        invariant Indexed(table, Directory(db[..i], Index()))
      {
        ghost var d := Directory(db[..i], Index());
        GrownIndexed(table, d, db[i]);
        assert d.db + [db[i]] == db[..i + 1];
        assert db[..i + 1][i := db[i]] == db[..i + 1];
        if Typeof(db[i].flags) == TYPE_PLAYER {
          AddPlayer(db, i);
        }
        i := i + 1;
      }
      assert db[..i] == db;
    }
  }
}

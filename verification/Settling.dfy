/**
 Which worlds survive being dumped and read. A string of 511 characters, which db_read may yield, is cut
 apart from its newline when it is read again, and what is read next is read one line late.
 */
module Settling {
  import opened Objects
  import opened Locks
  import opened Numbers
  import opened Dump

  // ---- Several lines at a time ----

  function Lines(ss: seq<string>, k: string): string {
    if ss == [] then k else Line(ss[0], Lines(ss[1..], k))
  }

  /** The next lines are read as ss. */
  predicate ReadAs(r: Reader, ss: seq<string>)
    decreases |ss|
  {
    ss == [] || (ReadString(r).0 == ss[0] && ReadAs(ReadString(r).1, ss[1..]))
  }

  function Past(r: Reader, n: nat): Reader
    decreases n
  {
    if n == 0 then r else Past(ReadString(r).1, n - 1)
  }

  predicate AllAre(ss: seq<string>, s: string) {
    forall i :: 0 <= i < |ss| ==> ss[i] == s
  }

  predicate AllLines(ss: seq<string>) {
    forall i :: 0 <= i < |ss| ==> IsLine(ss[i])
  }

  /** At most one has no room for its newline, and only empty ones follow it. */
  predicate Echoed(ss: seq<string>) {
    ss == [] || (if |ss[0]| < LINE_MAX then Echoed(ss[1..]) else AllAre(ss[1..], ""))
  }

  predicate AllShort(ss: seq<string>) {
    forall i :: 0 <= i < |ss| ==> |ss[i]| < LINE_MAX
  }

  lemma AllCons(ss: seq<string>, s: string)
    requires ss != []
    ensures AllAre(ss, s) <==> ss[0] == s && AllAre(ss[1..], s)
    ensures AllShort(ss) <==> |ss[0]| < LINE_MAX && AllShort(ss[1..])
  {
    assert forall i :: 0 < i < |ss| ==> ss[i] == ss[1..][i - 1];
  }

  lemma {:induction false} ShortEchoed(ss: seq<string>)
    requires AllShort(ss)
    ensures Echoed(ss)
  {
    if ss != [] {
      ShortEchoed(ss[1..]);
    }
  }

  /** Read one line late, lines are what they are only if all are the line in front of them. */
  lemma {:induction false} LinesBehind(s: string, ss: seq<string>, k: string, r: Reader)
    requires IsLine(s) && |s| < LINE_MAX && AllLines(ss) && r.rest == Line(s, Lines(ss, k))
    ensures ReadAs(r, ss) <==> AllAre(ss, s)
    ensures AllAre(ss, s) ==> Past(r, |ss|).rest == Line(s, k)
  {
    if ss != [] {
      StringReadIff(s, Lines(ss, k), r);
      AllCons(ss, s);
      if ss[0] == s {
        LinesBehind(s, ss[1..], k, ReadString(r).1);
      }
    }
  }

  lemma LongFirst(ss: seq<string>, k: string, r: Reader)
    requires AllLines(ss) && r.rest == Lines(ss, k) && ss != [] && |ss[0]| == LINE_MAX
    ensures ReadAs(r, ss) <==> AllAre(ss[1..], "")
    ensures AllAre(ss[1..], "") ==> Past(r, |ss|).rest == Line("", k)
  {
    var rest := ss[1..];
    assert AllLines(rest) by {
      forall i | 0 <= i < |rest| ensures IsLine(rest[i]) {
        assert rest[i] == ss[i + 1];
      }
    }
    LongString(ss[0], Lines(rest, k), r);
    LinesBehind("", rest, k, ReadString(r).1);
  }

  lemma {:induction false} LinesReadIff(ss: seq<string>, k: string, r: Reader)
    requires AllLines(ss) && r.rest == Lines(ss, k)
    ensures ReadAs(r, ss) <==> Echoed(ss)
    ensures Echoed(ss) ==> Past(r, |ss|).rest == if AllShort(ss) then k else Line("", k)
  {
    if ss != [] {
      var rest := Lines(ss[1..], k);
      AllCons(ss, "");
      if |ss[0]| < LINE_MAX {
        StringReadIff(ss[0], rest, r);
        LinesReadIff(ss[1..], k, ReadString(r).1);
      } else {
        LongFirst(ss, k, r);
      }
    }
  }

  // ---- The parts of an object ----

  function Names(o: Object): seq<string> {
    [o.name, o.description]
  }

  function Messages(o: Object): seq<string> {
    [o.failMessage, o.succMessage, o.ofail, o.osuccess]
  }

  lemma TwoLines(ss: seq<string>, k: string, r: Reader)
    requires |ss| == 2
    ensures Lines(ss, k) == Line(ss[0], Line(ss[1], k))
    ensures var (a, r1) := ReadString(r);
      var (b, r2) := ReadString(r1);
      (ReadAs(r, ss) <==> a == ss[0] && b == ss[1]) && Past(r, 2) == r2
  {
    assert Lines(ss[1..], k) == Line(ss[1], k);
    var r1 := ReadString(r).1;
    assert ReadAs(r1, ss[1..]) <==> ReadString(r1).0 == ss[1];
    assert Past(r1, 1) == ReadString(r1).1;
  }

  lemma FourLines(ss: seq<string>, k: string, r: Reader)
    requires |ss| == 4
    ensures Lines(ss, k) == Line(ss[0], Line(ss[1], Line(ss[2], Line(ss[3], k))))
    ensures var (a, r1) := ReadString(r);
      var (b, r2) := ReadString(r1);
      var (c, r3) := ReadString(r2);
      var (d, r4) := ReadString(r3);
      (ReadAs(r, ss) <==> a == ss[0] && b == ss[1] && c == ss[2] && d == ss[3]) && Past(r, 4) == r4
  {
    assert ss[1..][1..] == ss[2..];
    var r1 := ReadString(r).1;
    TwoLines(ss[2..], k, ReadString(r1).1);
    assert Lines(ss[1..], k) == Line(ss[1], Lines(ss[2..], k));
    assert ReadAs(r1, ss[1..]) <==> ReadString(r1).0 == ss[1] && ReadAs(ReadString(r1).1, ss[2..]);
    assert Past(r1, 3) == Past(ReadString(r1).1, 2);
  }

  predicate SameOwned(t: Object, o: Object) {
    && t.owner == o.owner && t.pennies == o.pennies && t.flags == o.flags && t.password == o.password
    && t.created == o.created && t.lastused == o.lastused && t.usecnt == o.usecnt
  }

  predicate Unstamped(o: Object) {
    o.created == o.lastused == o.usecnt == 0
  }

  /** Everything behind the messages as it is read if it is read one line late and is to be the same. */
  predicate Zeros(o: Object) {
    o.owner == o.pennies == o.flags == 0 && o.password == "0" && Unstamped(o)
  }

  lemma ZeroLine()
    ensures Decimal(0) == "0"
  {
  }

  /** The rest of it, behind flags that are zero. */
  lemma PasswordBehind(o: Object, k: string, r: Reader)
    requires Tidy(o) && r.rest == Ref(0, Line(o.password, Stamps(o, CURRENT, k)))
    requires k != "" && (k[0] == '#' || k[0] == '*')
    ensures var (password, r1) := ReadString(r);
      var (created, r2) := ReadRef(r1);
      var (lastused, r3) := ReadRef(r2);
      var (usecnt, r4) := ReadRef(r3);
      var same := o.password == "0" && Unstamped(o);
      && (password == o.password && created == o.created && lastused == o.lastused && usecnt == o.usecnt <==> same)
      && (same ==> SkipExtra(r4.rest) == k)
  {
    ZeroLine();
    StringReadIff("0", Line(o.password, Stamps(o, CURRENT, k)), r);
    if o.password == "0" {
      StampsBehind(o, "0", CURRENT, k, ReadString(r).1);
    }
  }

  /** What is behind one more line is the same only if it is all zeros. */
  lemma OwnedBehind(o: Object, s: string, k: string, r: Reader)
    requires Tidy(o) && s in {"", "0", "(!0)"} && r.rest == Line(s, Owned(o, CURRENT, k))
    requires k != "" && (k[0] == '#' || k[0] == '*')
    ensures var (t, r') := ReadOwned(r);
      && t.owner == 0 && t.pennies == o.owner && t.flags == o.pennies
      && (SameOwned(t, o) <==> Zeros(o))
      && (Zeros(o) ==> SkipExtra(r'.rest) == k)
  {
    var k2 := Ref(o.flags, Line(o.password, Stamps(o, CURRENT, k)));
    var k1 := Ref(o.pennies, k2);
    RefBehind(s, Owned(o, CURRENT, k), r);
    var r1 := ReadRef(r).1;
    RefReads(o.owner, k1, r1);
    var r2 := ReadRef(r1).1;
    RefReads(o.pennies, k2, r2);
    if o.flags == 0 {
      PasswordBehind(o, k, ReadRef(r2).1);
    }
  }

  // ---- The messages and what is behind them ----

  predicate SameTail(t: Object, o: Object) {
    Messages(t) == Messages(o) && SameOwned(t, o)
  }

  /** If so much is the same, the flag that would change the key is not set. */
  predicate Harmless(t: Object, o: Object) {
    Messages(t) == Messages(o) && t.owner == o.owner && t.pennies == o.pennies ==> !Flag(t.flags, ANTILOCK)
  }

  predicate TailSettled(o: Object) {
    if AllShort(Messages(o)) then |o.password| == LINE_MAX ==> Unstamped(o)
    else Echoed(Messages(o)) && Zeros(o)
  }

  lemma MessagesAreLines(o: Object)
    requires Tidy(o)
    ensures |Messages(o)| == 4 && AllLines(Messages(o))
  {
  }

  lemma TailParts(o: Object, k: string, r: Reader)
    ensures Tail(o, CURRENT, k) == Lines(Messages(o), Owned(o, CURRENT, k))
    ensures var (t, r') := ReadTail(r);
      var (u, r'') := ReadOwned(Past(r, 4));
      r' == r'' && SameOwned(t, u) && (Messages(t) == Messages(o) <==> ReadAs(r, Messages(o)))
  {
    FourLines(Messages(o), Owned(o, CURRENT, k), r);
  }

  lemma NoFlags(f: int)
    requires f > 0
    ensures !Flag(0, f)
  {
  }

  lemma KeyIsLine(s: string)
    requires s == "0" || s == "(!0)"
    ensures IsLine(s) && |s| < LINE_MAX
  {
  }

  /** What is behind the messages, read in its place or one line late. */
  predicate Verdict(o: Object, u: Object, rest: string, k: string, same: bool) {
    && (SameOwned(u, o) <==> same)
    && (same ==> SkipExtra(rest) == k)
    && (u.owner == o.owner && u.pennies == o.pennies ==> !Flag(u.flags, ANTILOCK))
  }

  lemma OwnedVerdict(o: Object, k: string, r: Reader)
    requires Tidy(o) && !Flag(o.flags, ANTILOCK) && r.rest == Owned(o, CURRENT, k)
    requires k != "" && (k[0] == '#' || k[0] == '*')
    ensures var (u, r') := ReadOwned(r); Verdict(o, u, r'.rest, k, |o.password| == LINE_MAX ==> Unstamped(o))
  {
    OwnedReads(o, CURRENT, k, r);
  }

  lemma BehindVerdict(o: Object, s: string, k: string, r: Reader)
    requires Tidy(o) && s in {"", "0", "(!0)"} && r.rest == Line(s, Owned(o, CURRENT, k))
    requires k != "" && (k[0] == '#' || k[0] == '*')
    ensures var (u, r') := ReadOwned(r); Verdict(o, u, r'.rest, k, Zeros(o))
  {
    OwnedBehind(o, s, k, r);
    NoFlags(ANTILOCK);
  }

  lemma TailVerdict(t: Object, u: Object, o: Object, rest: string, k: string, same: bool)
    requires SameOwned(t, u) && Verdict(o, u, rest, k, same)
    ensures Harmless(t, o) && (SameTail(t, o) <==> Messages(t) == Messages(o) && same)
    ensures SameTail(t, o) ==> SkipExtra(rest) == k
  {
  }

  lemma TailReadIff(o: Object, k: string, r: Reader)
    requires Tidy(o) && !Flag(o.flags, ANTILOCK) && r.rest == Tail(o, CURRENT, k)
    requires k != "" && (k[0] == '#' || k[0] == '*')
    ensures var (t, r') := ReadTail(r);
      && Harmless(t, o) && (SameTail(t, o) <==> TailSettled(o)) && (TailSettled(o) ==> SkipExtra(r'.rest) == k)
  {
    MessagesAreLines(o);
    TailParts(o, k, r);
    LinesReadIff(Messages(o), Owned(o, CURRENT, k), r);
    var r4 := Past(r, 4);
    var t, p := ReadTail(r).0, ReadOwned(r4);
    if AllShort(Messages(o)) {
      ShortEchoed(Messages(o));
      OwnedVerdict(o, k, r4);
      TailVerdict(t, p.0, o, p.1.rest, k, |o.password| == LINE_MAX ==> Unstamped(o));
    } else if Echoed(Messages(o)) {
      BehindVerdict(o, "", k, r4);
      TailVerdict(t, p.0, o, p.1.rest, k, Zeros(o));
    }
  }

  lemma TailBehind(o: Object, s: string, k: string, r: Reader)
    requires Tidy(o) && s in {"0", "(!0)"} && r.rest == Line(s, Tail(o, CURRENT, k))
    requires k != "" && (k[0] == '#' || k[0] == '*')
    ensures var (t, r') := ReadTail(r);
      var same := AllAre(Messages(o), s) && Zeros(o);
      && Harmless(t, o) && (SameTail(t, o) <==> same) && (same ==> SkipExtra(r'.rest) == k)
  {
    MessagesAreLines(o);
    KeyIsLine(s);
    TailParts(o, k, r);
    LinesBehind(s, Messages(o), Owned(o, CURRENT, k), r);
    if AllAre(Messages(o), s) {
      var t, p := ReadTail(r).0, ReadOwned(Past(r, 4));
      BehindVerdict(o, s, k, Past(r, 4));
      TailVerdict(t, p.0, o, p.1.rest, k, Zeros(o));
    }
  }

  // ---- Whole objects ----

  predicate SameHead(h: Object, o: Object) {
    && Names(h) == Names(o)
    && h.location == o.location && h.contents == o.contents && h.exits == o.exits && h.next == o.next
  }

  lemma AssembledIff(h: Object, key: Lock, t: Object, o: Object)
    requires Harmless(t, o) && !Flag(o.flags, ANTILOCK)
    ensures Modern(Assemble(h, key, t)) == o <==> SameHead(h, o) && key == o.key && SameTail(t, o)
  {
    if SameHead(h, o) && key == o.key && SameTail(t, o) {
      assert Names(h)[0] == Names(o)[0] && Names(h)[1] == Names(o)[1];
      assert forall i :: 0 <= i < 4 ==> Messages(t)[i] == Messages(o)[i];
    }
  }

  /** The exact condition for an object to come back as it was dumped. */
  predicate Settled(o: Object) {
    if AllShort(Names(o)) then TailSettled(o)
    else
      && Echoed(Names(o)) && Linkless(o)
      && o.key == Locked(Const(0)) && AllAre(Messages(o), "0") && Zeros(o)
  }

  predicate Linkless(o: Object) {
    o.location == o.contents == o.exits == o.next == 0
  }

  function Links(o: Object, k: string): string {
    Ref(o.location, Ref(o.contents, Ref(o.exits, Ref(o.next, k))))
  }

  /** The numbers behind a name or description without room for its newline. */
  lemma LinksBehind(o: Object, k: string, r: Reader)
    requires Tidy(o) && r.rest == Line("", Links(o, k))
    ensures var (location, r1) := ReadRef(r);
      var (contents, r2) := ReadRef(r1);
      var (exits, r3) := ReadRef(r2);
      var (next, r4) := ReadRef(r3);
      && location == 0 && contents == o.location && exits == o.contents && next == o.exits && r4.rest == Ref(o.next, k)
  {
    RefBehind("", Links(o, k), r);
    var r1 := ReadRef(r).1;
    RefReads(o.location, Ref(o.contents, Ref(o.exits, Ref(o.next, k))), r1);
    var r2 := ReadRef(r1).1;
    RefReads(o.contents, Ref(o.exits, Ref(o.next, k)), r2);
    RefReads(o.exits, Ref(o.next, k), ReadRef(r2).1);
  }

  lemma HeadParts(o: Object, k: string, r: Reader)
    ensures Line(o.name, Line(o.description, Links(o, k))) == Lines(Names(o), Links(o, k))
    ensures var (h, r') := ReadHead(r);
      var r2 := Past(r, 2);
      var (location, r3) := ReadRef(r2);
      var (contents, r4) := ReadRef(r3);
      var (exits, r5) := ReadRef(r4);
      var (next, r6) := ReadRef(r5);
      && r' == r6 && (Names(h) == Names(o) <==> ReadAs(r, Names(o)))
      && h.location == location && h.contents == contents && h.exits == exits && h.next == next
  {
    TwoLines(Names(o), Links(o, k), r);
  }

  lemma NamesAreLines(o: Object)
    requires Tidy(o)
    ensures |Names(o)| == 2 && AllLines(Names(o))
  {
  }

  lemma HeadBehind(o: Object, k: string, r: Reader)
    requires Tidy(o) && !AllShort(Names(o)) && r.rest == Line(o.name, Line(o.description, Links(o, k)))
    ensures var (h, r') := ReadHead(r);
      && (SameHead(h, o) <==> Echoed(Names(o)) && Linkless(o))
      && (SameHead(h, o) ==> r'.rest == Ref(0, k))
  {
    NamesAreLines(o);
    HeadParts(o, k, r);
    LinesReadIff(Names(o), Links(o, k), r);
    if Echoed(Names(o)) {
      LinksBehind(o, k, Past(r, 2));
    }
  }

  /** A zero where a key is expected is the lock on object 0. */
  lemma ZeroKey(k: string)
    ensures ReadKey(Ref(0, k)) == Some((Locked(Const(0)), k))
  {
    ZeroLine();
    var s := Ref(0, k);
    assert s == "0" + ("\n" + k);
    DigitsDecimal(0, "\n" + k);
  }

  lemma KeyLine(b: Boolexp, k: string)
    requires b == Const(0) || b == Not(Const(0))
    ensures Key(Locked(b), CURRENT, k) == Line(if b.Const? then "0" else "(!0)", k)
  {
    ZeroLine();
    assert Tree(Const(0), ")" + ("\n" + k)) == "0" + (")" + ("\n" + k));
  }

  lemma ReadParts(r: Reader, h: Object, r1: Reader, key: Lock, k: string, t: Object, r2: Reader, o: Object)
    requires ReadHead(r) == (h, r1) && ReadKey(r1.rest) == Some((key, k)) && ReadTail(r1.(rest := k)) == (t, r2)
    requires Harmless(t, o) && !Flag(o.flags, ANTILOCK)
    ensures ReadObject(r).Some? && ReadObject(r).value.1.rest == SkipExtra(r2.rest)
    ensures ReadObject(r).value.0 == o <==> SameHead(h, o) && key == o.key && SameTail(t, o)
  {
    AssembledIff(h, key, t, o);
  }

  ghost predicate ComesBack(r: Reader, o: Object, k: string, same: bool) {
    && (ReadObject(r).Some? && ReadObject(r).value.0 == o <==> same)
    && (same ==> ReadObject(r).value.1.rest == k)
  }

  /** The key is read in its place. */
  lemma KeyIff(o: Object, k: string, r: Reader, h: Object, r1: Reader)
    requires Tidy(o) && !Flag(o.flags, ANTILOCK) && k != "" && (k[0] == '#' || k[0] == '*')
    requires ReadHead(r) == (h, r1) && SameHead(h, o) && r1.rest == Key(o.key, CURRENT, Tail(o, CURRENT, k))
    ensures ComesBack(r, o, k, TailSettled(o))
  {
    var tail := Tail(o, CURRENT, k);
    KeyReads(o.key, CURRENT, tail);
    var r2 := r1.(rest := tail);
    TailReadIff(o, k, r2);
    ReadParts(r, h, r1, o.key, tail, ReadTail(r2).0, ReadTail(r2).1, o);
  }

  lemma ShortNamesIff(o: Object, k: string, r: Reader)
    requires Tidy(o) && !Flag(o.flags, ANTILOCK) && AllShort(Names(o)) && r.rest == ObjectText(o, CURRENT, k)
    requires k != "" && (k[0] == '#' || k[0] == '*')
    ensures ComesBack(r, o, k, TailSettled(o))
  {
    assert Names(o)[0] == o.name && Names(o)[1] == o.description;
    HeadReads(o, Key(o.key, CURRENT, Tail(o, CURRENT, k)), r);
    KeyIff(o, k, r, ReadHead(r).0, ReadHead(r).1);
  }

  /** The key is read in the line in front of it. */
  lemma ZeroKeyIff(o: Object, k: string, r: Reader, h: Object, r1: Reader)
    requires Tidy(o) && !Flag(o.flags, ANTILOCK) && k != "" && (k[0] == '#' || k[0] == '*')
    requires ReadHead(r) == (h, r1) && SameHead(h, o) && r1.rest == Ref(0, Key(o.key, CURRENT, Tail(o, CURRENT, k)))
    ensures ComesBack(r, o, k, o.key == Locked(Const(0)) && AllAre(Messages(o), "0") && Zeros(o))
  {
    var rest := Key(o.key, CURRENT, Tail(o, CURRENT, k));
    ZeroKey(rest);
    var r2 := r1.(rest := rest);
    if o.key.Locked? && (o.key.tree == Const(0) || o.key.tree == Not(Const(0))) {
      KeyLine(o.key.tree, Tail(o, CURRENT, k));
      TailBehind(o, if o.key.tree.Const? then "0" else "(!0)", k, r2);
      ReadParts(r, h, r1, Locked(Const(0)), rest, ReadTail(r2).0, ReadTail(r2).1, o);
    } else {
      OtherKey(r, h, r1, rest, o);
    }
  }

  lemma OtherKey(r: Reader, h: Object, r1: Reader, k: string, o: Object)
    requires ReadHead(r) == (h, r1) && ReadKey(r1.rest) == Some((Locked(Const(0)), k))
    requires o.key != Locked(Const(0)) && o.key != Locked(Not(Const(0)))
    ensures ReadObject(r).value.0 != o
  {
    var t := ReadTail(r1.(rest := k)).0;
    assert Modern(Assemble(h, Locked(Const(0)), t)).key in {Locked(Const(0)), Locked(Not(Const(0)))};
  }

  lemma LongNamesIff(o: Object, k: string, r: Reader)
    requires Tidy(o) && !Flag(o.flags, ANTILOCK) && !AllShort(Names(o)) && r.rest == ObjectText(o, CURRENT, k)
    requires k != "" && (k[0] == '#' || k[0] == '*')
    ensures ComesBack(r, o, k, Settled(o))
  {
    HeadBehind(o, Key(o.key, CURRENT, Tail(o, CURRENT, k)), r);
    var (h, r1) := ReadHead(r);
    if SameHead(h, o) {
      ZeroKeyIff(o, k, r, h, r1);
    } else {
      OtherHead(r, h, o);
    }
  }

  lemma OtherHead(r: Reader, h: Object, o: Object)
    requires ReadHead(r).0 == h && !SameHead(h, o)
    ensures ReadObject(r).Some? ==> ReadObject(r).value.0 != o
  {
    if ReadObject(r).Some? {
      assert SameHead(h, ReadObject(r).value.0);
    }
  }

  /** An object comes back as it was dumped, and the stream right behind it, exactly if it is settled. */
  lemma ObjectSettlesIff(o: Object, k: string, r: Reader)
    requires Tidy(o) && !Flag(o.flags, ANTILOCK) && r.rest == ObjectText(o, CURRENT, k)
    requires k != "" && (k[0] == '#' || k[0] == '*')
    ensures ReadObject(r).Some? && ReadObject(r).value.0 == o <==> Settled(o)
    ensures Settled(o) ==> ReadObject(r).value.1.rest == k
  {
    if AllShort(Names(o)) {
      ShortNamesIff(o, k, r);
    } else {
      LongNamesIff(o, k, r);
    }
  }

  /** Of an object that somebody owns, only the password may have no room for its newline. */
  lemma OwnedSettledIff(o: Object)
    requires Tidy(o) && o.owner != 0
    ensures Settled(o) <==> Short(o.(password := "")) && (|o.password| == LINE_MAX ==> Unstamped(o))
  {
    assert AllShort(Names(o)) <==> |o.name| < LINE_MAX && |o.description| < LINE_MAX by {
      assert Names(o)[0] == o.name && Names(o)[1] == o.description;
    }
    var m := Messages(o);
    assert m[0] == o.failMessage && m[1] == o.succMessage && m[2] == o.ofail && m[3] == o.osuccess;
  }

  // ---- Whole dumps ----

  predicate AllSettled(db: seq<Object>, i: nat) {
    forall j :: i <= j < |db| ==> Settled(db[j])
  }

  lemma OtherEntry(r: Reader, done: seq<Object>, r1: Reader, db: seq<Object>)
    requires |done| < |db| && r.rest != "" && r.rest[0] == '#' && ReadRef(r.(rest := r.rest[1..])) == (|done|, r1)
    requires ReadObject(r1).Some? ==> ReadObject(r1).value.0 != db[|done|]
    ensures ReadDump(r, done) != Loaded(db)
  {
    if ReadDump(r, done) == Loaded(db) {
      var o, r' := NextLoaded(r, done, db);
      LoadedExtends(r', done + [o], db);
      Prefixed(done, o, db);
    }
  }

  lemma NumberReads(i: nat, text: string, r: Reader) returns (r1: Reader)
    requires i < 0x8000_0000 && r.rest == "#" + Ref(i, text)
    ensures r.rest != "" && r.rest[0] == '#' && ReadRef(r.(rest := r.rest[1..])) == (i, r1) && r1.rest == text
  {
    var r0 := r.(rest := r.rest[1..]);
    assert r0.rest == Ref(i, text);
    RefReads(i, text, r0);
    r1 := ReadRef(r0).1;
  }

  lemma EntryText(db: seq<Object>, i: nat, r: Reader) returns (r1: Reader)
    requires |db| <= 0x8000_0000 && i < |db| && r.rest == DumpText(db, AllCurrent(|db|), i)
    ensures r.rest != "" && r.rest[0] == '#' && ReadRef(r.(rest := r.rest[1..])) == (i, r1)
    ensures r1.rest == ObjectText(db[i], CURRENT, DumpText(db, AllCurrent(|db|), i + 1))
  {
    r1 := NumberReads(i, ObjectText(db[i], CURRENT, DumpText(db, AllCurrent(|db|), i + 1)), r);
  }

  lemma SettledFirst(db: seq<Object>, i: nat)
    requires i < |db|
    ensures AllSettled(db, i) <==> Settled(db[i]) && AllSettled(db, i + 1)
    ensures db[..i] + [db[i]] == db[..i + 1]
  {
  }

  /** Reading goes on behind a settled object; behind any other the same array is out of reach. */
  lemma SettlesNext(db: seq<Object>, i: nat, r: Reader) returns (r': Reader)
    requires |db| <= 0x8000_0000 && i < |db| && Tidy(db[i]) && !Flag(db[i].flags, ANTILOCK)
    requires r.rest == DumpText(db, AllCurrent(|db|), i)
    ensures Settled(db[i]) ==> r'.rest == DumpText(db, AllCurrent(|db|), i + 1)
    ensures Settled(db[i]) ==> ReadDump(r, db[..i]) == ReadDump(r', db[..i + 1])
    ensures !Settled(db[i]) ==> ReadDump(r, db[..i]) != Loaded(db)
  {
    var k := DumpText(db, AllCurrent(|db|), i + 1);
    DumpStarts(db, AllCurrent(|db|), i + 1);
    var r1 := EntryText(db, i, r);
    ObjectSettlesIff(db[i], k, r1);
    SettledFirst(db, i);
    r' := r;
    if Settled(db[i]) {
      r' := ReadObject(r1).value.1;
      NextEntry(r, db[..i], r1, db[i], r');
    } else {
      OtherEntry(r, db[..i], r1, db);
    }
  }

  lemma {:induction false} SettlesFrom(db: seq<Object>, i: nat, r: Reader)
    requires AllTidy(db) && |db| <= 0x8000_0000 && i <= |db| && r.rest == DumpText(db, AllCurrent(|db|), i)
    ensures ReadDump(r, db[..i]) == Loaded(db) <==> AllSettled(db, i)
    decreases |db| - i
  {
    if i == |db| {
      EndReads(r, db[..i]);
      assert db[..i] == db;
    } else {
      var r' := SettlesNext(db, i, r);
      SettledFirst(db, i);
      if Settled(db[i]) {
        SettlesFrom(db, i + 1, r');
      }
    }
  }

  /** Reading what db_write wrote rebuilds the same array exactly if every object in it is settled. */
  lemma DumpRoundTripIff(db: seq<Object>, r: Reader)
    requires AllTidy(db) && |db| <= 0x8000_0000 && r.rest == DumpText(db, AllCurrent(|db|), 0)
    ensures ReadDump(r, []) == Loaded(db) <==> AllSettled(db, 0)
  {
    SettlesFrom(db, 0, r);
    assert db[..0] == [];
  }

  /** So with whatever db_read accepts, old format or new: dumping and reading it again changes nothing exactly then. */
  lemma AcceptedSettlesIff(r: Reader, db: seq<Object>, r': Reader)
    requires ReadDump(r, []) == Loaded(db) && |r.strBuf| <= LINE_MAX
    requires r'.rest == DumpText(db, AllCurrent(|db|), 0)
    ensures ReadDump(r', []) == Loaded(db) <==> AllSettled(db, 0)
  {
    AcceptedIsTidy(r, [], db);
    DumpRoundTripIff(db, r');
  }

  // ---- Where long strings come from ----

  /** A line of a dump too long for one string: name and description without a newline between them. */
  function JoinedText(o: Object, k: string): string {
    o.name + Line(o.description, Links(o, Key(o.key, CURRENT, Tail(o, CURRENT, k))))
  }

  lemma JoinedString(s: string, k: string, r: Reader)
    requires IsLine(s) && |s| == LINE_MAX && r.rest == s + k
    ensures ReadString(r) == (s, Reader(k, r.refBuf, s))
  {
    LongLine(s, k, LINE_MAX);
    ChopLine(s);
    assert r.rest[..LINE_MAX] == s && r.rest[LINE_MAX..] == k;
  }

  lemma {:induction false} LongLine(s: string, k: string, max: nat)
    requires |s| == max && forall i :: 0 <= i < |s| ==> s[i] != '\n'
    ensures LineLength(s + k, max) == max
  {
    if s != "" {
      assert (s + k)[0] == s[0] && (s + k)[1..] == s[1..] + k;
      LongLine(s[1..], k, max - 1);
    }
  }

  lemma SameBehind(r: Reader, q: Reader)
    requires ReadString(r).1.rest == ReadString(q).1.rest != "" && r.refBuf == q.refBuf
    ensures ReadHead(r) == (ReadHead(q).0.(name := ReadString(r).0), ReadHead(q).1)
  {
  }

  lemma JoinedHead(o: Object, k: string, r: Reader)
    requires Tidy(o) && |o.name| == LINE_MAX && |o.description| < LINE_MAX
    requires r.rest == o.name + Line(o.description, Links(o, k))
    ensures SameHead(ReadHead(r).0, o) && ReadHead(r).1.rest == k
  {
    var rest := Line(o.description, Links(o, k));
    var q := Reader(Line("", rest), r.refBuf, r.strBuf);
    JoinedString(o.name, rest, r);
    StringReadIff("", rest, q);
    SameBehind(r, q);
    HeadReads(o.(name := ""), k, q);
  }

  lemma JoinedReads(o: Object, k: string, r: Reader)
    requires Tidy(o) && !Flag(o.flags, ANTILOCK) && |o.name| == LINE_MAX && |o.description| < LINE_MAX && TailSettled(o)
    requires r.rest == JoinedText(o, k) && k != "" && (k[0] == '#' || k[0] == '*')
    ensures ReadObject(r).Some? && ReadObject(r).value.0 == o && ReadObject(r).value.1.rest == k
  {
    JoinedHead(o, Key(o.key, CURRENT, Tail(o, CURRENT, k)), r);
    KeyIff(o, k, r, ReadHead(r).0, ReadHead(r).1);
  }

  /** A dump that begins with such a line. */
  function JoinedDump(db: seq<Object>): string
    requires db != []
  {
    "#" + Ref(0, JoinedText(db[0], DumpText(db, AllCurrent(|db|), 1)))
  }

  lemma FirstEntry(r: Reader, r1: Reader, db: seq<Object>, r2: Reader)
    requires db != [] && r.rest != "" && r.rest[0] == '#' && ReadRef(r.(rest := r.rest[1..])) == (0, r1)
    requires ReadObject(r1) == Some((db[0], r2))
    ensures ReadDump(r, []) == ReadDump(r2, db[..1])
  {
    NextEntry(r, [], r1, db[0], r2);
    FirstOf(db);
  }

  lemma FirstOf(db: seq<Object>)
    requires db != []
    ensures [] + [db[0]] == db[..1]
  {
  }

  lemma JoinedLoads(db: seq<Object>, r: Reader)
    requires db != [] && |db| <= 0x8000_0000 && AllTidy(db) && AllSettled(db, 1) && r.rest == JoinedDump(db)
    requires |db[0].name| == LINE_MAX && |db[0].description| < LINE_MAX && TailSettled(db[0])
    ensures ReadDump(r, []) == Loaded(db)
  {
    var k := DumpText(db, AllCurrent(|db|), 1);
    DumpStarts(db, AllCurrent(|db|), 1);
    var r1 := NumberReads(0, JoinedText(db[0], k), r);
    JoinedReads(db[0], k, r1);
    FirstEntry(r, r1, db, ReadObject(r1).value.1);
    SettlesFrom(db, 1, ReadObject(r1).value.1);
  }
}

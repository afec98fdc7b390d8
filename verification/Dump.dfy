/**
 The dump format of src/db.c as functions on text: what db_write puts out, what db_read makes of any
 text, and what comes back of current and old dumps.
 */
module Dump {
  import opened Objects
  import opened Locks
  import opened LockText
  import opened Numbers

  /** DB_MSGLEN - 1: what one fgets can take. */
  const LINE_MAX := 511

  const END_MARK := "**END OF DUMP***"

  // ---- Writing ----

  function Line(s: string, k: string): string {
    s + ("\n" + k)
  }

  function Ref(n: int, k: string): string {
    Line(Decimal(n), k)
  }

  /** Fully parenthesised. */
  function Tree(b: Boolexp, k: string): string {
    match b
    case And(l, r) => "(" + Tree(l, [AND_TOKEN] + Tree(r, ")" + k))
    case Or(l, r) => "(" + Tree(l, [OR_TOKEN] + Tree(r, ")" + k))
    case Not(s) => "(" + ([NOT_TOKEN] + Tree(s, ")" + k))
    case Const(t) => Decimal(t) + k
  }

  /**
   How an object was dumped: current dumps write time stamps and an empty line for no lock; older ones
   left the stamps out and wrote -1 for no lock.
   */
  datatype Format = Format(stamps: bool, minusOne: bool)

  const CURRENT := Format(true, false)

  function Key(key: Lock, f: Format, k: string): string {
    match key
    case Unlocked => if f.minusOne then Ref(-1, k) else "\n" + k
    case Locked(b) => Tree(b, "\n" + k)
  }

  function Stamps(o: Object, f: Format, k: string): string {
    if f.stamps then Ref(o.created, Ref(o.lastused, Ref(o.usecnt, k))) else k
  }

  function Owned(o: Object, f: Format, k: string): string {
    Ref(o.owner, Ref(o.pennies, Ref(o.flags, Line(o.password, Stamps(o, f, k)))))
  }

  function Tail(o: Object, f: Format, k: string): string {
    Line(o.failMessage, Line(o.succMessage, Line(o.ofail, Line(o.osuccess, Owned(o, f, k)))))
  }

  /** The text of one object, followed by k. */
  function ObjectText(o: Object, f: Format, k: string): string {
    Line(o.name, Line(o.description,
      Ref(o.location, Ref(o.contents, Ref(o.exits, Ref(o.next, Key(o.key, f, Tail(o, f, k))))))))
  }

  /** The dump of the objects from i on, each in its own format. */
  function DumpText(db: seq<Object>, fs: seq<Format>, i: nat): string
    requires |fs| == |db| && i <= |db|
    decreases |db| - i
  {
    if i == |db| then "*" + Line(END_MARK, "")
    else "#" + Ref(i, ObjectText(db[i], fs[i], DumpText(db, fs, i + 1)))
  }

  // ---- Reading ----

  /** The stream, and the static buffers that fgets leaves as they are at the end of the file. */
  datatype Reader = Reader(rest: string, refBuf: string, strBuf: string)

  function LineLength(s: string, max: nat): (n: nat)
    ensures n <= |s| && n <= max
    ensures s != "" && max > 0 ==> n > 0
  {
    if s == "" || max == 0 then 0
    else if s[0] == '\n' then 1
    else 1 + LineLength(s[1..], max - 1)
  }

  /** getref: zero, reading nothing, in front of '#' or '*'. */
  function ReadRef(r: Reader): (p: (int, Reader))
    ensures |p.1.rest| <= |r.rest| && IsInt(p.0) && p.1.strBuf == r.strBuf
  {
    if r.rest != "" && (r.rest[0] == '#' || r.rest[0] == '*') then (0, r)
    else
      var n := LineLength(r.rest, LINE_MAX);
      var buf := if r.rest == "" then r.refBuf else r.rest[..n];
      (ToInt(Atol(buf)), Reader(r.rest[n..], buf, r.strBuf))
  }

  /** s up to its first newline. */
  function Chop(s: string): (r: string)
    ensures |r| <= |s|
    ensures forall i :: 0 <= i < |r| ==> r[i] == s[i] && r[i] != '\n'
  {
    if s == "" || s[0] == '\n' then "" else [s[0]] + Chop(s[1..])
  }

  predicate IsLine(s: string) {
    |s| <= LINE_MAX && forall i :: 0 <= i < |s| ==> s[i] != '\n'
  }

  function ReadString(r: Reader): (p: (string, Reader))
    ensures |p.1.rest| <= |r.rest| && p.0 == p.1.strBuf
    ensures |r.strBuf| <= LINE_MAX ==> IsLine(p.0)
  {
    var n := LineLength(r.rest, LINE_MAX);
    var buf := Chop(if r.rest == "" then r.strBuf else r.rest[..n]);
    (buf, Reader(r.rest[n..], r.refBuf, buf))
  }

  /** None is abort(). */
  datatype Option<T> = None | Some(value: T)

  function Newline(s: string): string {
    if s == "" || s[0] == '\n' then s else Newline(s[1..])
  }

  function ReadTree(s: string): (r: Option<(Lock, string)>)
    ensures r.Some? ==> |r.value.1| <= |s|
    ensures r.Some? && r.value.0.Unlocked? ==> r.value.1 != "" && r.value.1[0] == '\n'
    decreases |s|
  {
    if s == "" then None
    else if s[0] == '\n' then Some((Unlocked, s))
    else if s[0] == '(' then
      if |s| > 1 && s[1] == NOT_TOKEN then
        var t := ReadTree(s[2..]);
        if t.None? then None
        else
          var k := t.value.1;
          if k == "" || k[0] != ')' then None else Some((Locked(Not(t.value.0.tree)), k[1..]))
      else
        var l := ReadTree(s[1..]);
        if l.None? then None
        else
          var k := l.value.1;
          if k == "" || (k[0] != AND_TOKEN && k[0] != OR_TOKEN) then None
          else
            var t := ReadTree(k[1..]);
            if t.None? then None
            else
              var k' := t.value.1;
              if k' == "" || k'[0] != ')' then None
              else
                var a, b := l.value.0.tree, t.value.0.tree;
                Some((Locked(if k[0] == AND_TOKEN then And(a, b) else Or(a, b)), k'[1..]))
    else if s[0] == '-' then
      NewlineSuffix(s[1..]);
      if Newline(s[1..]) == "" then None else Some((Unlocked, Newline(s[1..])))
    else Some((Locked(Const(Digits(s, 0))), SkipDigits(s)))
  }

  lemma NewlineSuffix(s: string)
    ensures |Newline(s)| <= |s|
    ensures Newline(s) == "" || Newline(s)[0] == '\n'
  {
  }

  function ReadKey(s: string): (r: Option<(Lock, string)>)
    ensures r.Some? ==> |r.value.1| < |s|
  {
    var t := ReadTree(s);
    if t.None? || t.value.1 == "" || t.value.1[0] != '\n' then None
    else Some((t.value.0, t.value.1[1..]))
  }

  /** Input up to the next '#' or '*' at the start of a line (or of a 511-character piece of one) is ignored. */
  function SkipExtra(s: string): (r: string)
    ensures |r| <= |s|
    decreases |s|
  {
    if s == "" || s[0] == '#' || s[0] == '*' then s
    else SkipExtra(s[LineLength(s, LINE_MAX)..])
  }

  /** The obsolete ANTILOCK flag negates the key and disappears; no lock stays no lock. */
  function Modern(o: Object): Object {
    if Flag(o.flags, ANTILOCK) then
      o.(key := if o.key.Unlocked? then Unlocked else Locked(Not(o.key.tree)),
         flags := ClearFlag(o.flags, ANTILOCK))
    else o
  }

  function ReadOwned(r0: Reader): (p: (Object, Reader))
    ensures |p.1.rest| <= |r0.rest|
  {
    var (owner, r1) := ReadRef(r0);
    var (pennies, r2) := ReadRef(r1);
    var (flags, r3) := ReadRef(r2);
    var (password, r4) := ReadString(r3);
    var (created, r5) := ReadRef(r4);
    var (lastused, r6) := ReadRef(r5);
    var (usecnt, r7) := ReadRef(r6);
    (Object("", "", 0, 0, 0, 0, Unlocked, "", "", "", "", owner, pennies, flags, password,
       created, lastused, usecnt), r7)
  }

  function ReadTail(r0: Reader): (p: (Object, Reader))
    ensures |p.1.rest| <= |r0.rest|
  {
    var (fail, r1) := ReadString(r0);
    var (succ, r2) := ReadString(r1);
    var (ofail, r3) := ReadString(r2);
    var (osucc, r4) := ReadString(r3);
    var (o, r5) := ReadOwned(r4);
    (o.(failMessage := fail, succMessage := succ, ofail := ofail, osuccess := osucc), r5)
  }

  function ReadHead(r0: Reader): (p: (Object, Reader))
    ensures |p.1.rest| <= |r0.rest|
  {
    var (name, r1) := ReadString(r0);
    var (description, r2) := ReadString(r1);
    var (location, r3) := ReadRef(r2);
    var (contents, r4) := ReadRef(r3);
    var (exits, r5) := ReadRef(r4);
    var (next, r6) := ReadRef(r5);
    (Object(name, description, location, contents, exits, next, Unlocked, "", "", "", "", 0, 0, 0, "", 0, 0, 0), r6)
  }

  function Assemble(head: Object, key: Lock, tail: Object): Object {
    tail.(name := head.name, description := head.description, location := head.location,
          contents := head.contents, exits := head.exits, next := head.next, key := key)
  }

  function ReadObject(r: Reader): (p: Option<(Object, Reader)>)
    ensures p.Some? ==> |p.value.1.rest| <= |r.rest|
  {
    var (head, r1) := ReadHead(r);
    var key := ReadKey(r1.rest);
    if key.None? then None
    else
      var (tail, r2) := ReadTail(r1.(rest := key.value.1));
      Some((Modern(Assemble(head, key.value.0, tail)), r2.(rest := SkipExtra(r2.rest))))
  }

  /** Aborted stands for a call of abort(), and for the comparison of the null pointer that an empty end mark is. */
  datatype Load = Aborted | Rejected | Loaded(db: seq<Object>)

  function ReadDump(r: Reader, db: seq<Object>): Load
    decreases |r.rest|
  {
    if r.rest == "" then Rejected
    else
      var r0 := r.(rest := r.rest[1..]);
      if r.rest[0] == '*' then
        var end := ReadString(r0).0;
        if end == END_MARK then Loaded(db) else if end == "" then Aborted else Rejected
      else if r.rest[0] != '#' then Rejected
      else
        var (i, r1) := ReadRef(r0);
        if i != |db| then Rejected
        else
          var o := ReadObject(r1);
          if o.None? then Aborted
          else ReadDump(o.value.1, db + [o.value.0])
  }

  // ---- One line at a time ----

  lemma {:induction false} LineEnds(s: string, k: string, max: nat)
    requires forall i :: 0 <= i < |s| ==> s[i] != '\n'
    ensures LineLength(Line(s, k), max) == if |s| < max then |s| + 1 else max
  {
    if s == "" {
      assert Line(s, k)[0] == '\n';
    } else {
      assert Line(s, k)[1..] == Line(s[1..], k);
      if max > 0 {
        LineEnds(s[1..], k, max - 1);
      }
    }
  }

  lemma {:induction false} ChopLine(s: string)
    requires forall i :: 0 <= i < |s| ==> s[i] != '\n'
    ensures Chop(s + "\n") == s && Chop(s) == s
  {
    if s == "" {
      assert s + "\n" == "\n";
    } else {
      assert (s + "\n")[1..] == s[1..] + "\n";
      ChopLine(s[1..]);
    }
  }

  /** A string is read back, with the stream behind it, exactly when it has no newline and at most 510 characters. */
  lemma StringReadIff(s: string, k: string, r: Reader)
    requires r.rest == Line(s, k)
    ensures ReadString(r) == (s, Reader(k, r.refBuf, s)) <==> |s| <= 510 && '\n' !in s
  {
    if forall i :: 0 <= i < |s| ==> s[i] != '\n' {
      LineEnds(s, k, LINE_MAX);
      ChopLine(s);
      if |s| < LINE_MAX {
        assert r.rest[..|s| + 1] == s + "\n" && r.rest[|s| + 1..] == k;
      } else {
        assert |r.rest[LINE_MAX..]| > |k|;
      }
    }
  }

  lemma RefReads(n: int, k: string, r: Reader)
    requires IsInt(n) && r.rest == Ref(n, k)
    ensures ReadRef(r) == (n, Reader(k, Decimal(n) + "\n", r.strBuf))
  {
    DecimalShort(n);
    var d := Decimal(n);
    LineEnds(d, k, LINE_MAX);
    assert r.rest[0] == d[0] && d[0] != '#' && d[0] != '*';
    assert r.rest[..|d| + 1] == d + "\n" && r.rest[|d| + 1..] == k;
    AtolDecimal(n, "\n");
    ToIntFixed(n);
  }

  /** At the end of the file the buffers still hold what was read last. */
  lemma StaleBuffers(n: int, s: string, r: Reader)
    requires IsInt(n) && IsLine(s) && |s| <= 510
    ensures r.rest == Ref(n, "") ==> ReadRef(ReadRef(r).1).0 == n
    ensures r.rest == Line(s, "") ==> ReadString(ReadString(r).1).0 == s
  {
    if r.rest == Ref(n, "") {
      RefReads(n, "", r);
      AtolDecimal(n, "\n");
      ToIntFixed(n);
    }
    if r.rest == Line(s, "") {
      StringReadIff(s, "", r);
      ChopLine(s);
    }
  }

  // ---- Locks ----

  predicate Natural(b: Boolexp) {
    match b
    case And(l, r) => Natural(l) && Natural(r)
    case Or(l, r) => Natural(l) && Natural(r)
    case Not(s) => Natural(s)
    case Const(t) => t >= 0
  }

  predicate NaturalKey(key: Lock) {
    key.Locked? ==> Natural(key.tree)
  }

  /** The disk form of a lock determines the lock. */
  lemma {:induction false} TreeReads(b: Boolexp, k: string)
    requires Natural(b) && (k == "" || !IsDigit(k[0]))
    ensures ReadTree(Tree(b, k)) == Some((Locked(b), k))
  {
    var s := Tree(b, k);
    match b
    case Const(t) =>
      DigitsDecimal(t, k);
      assert s[0] == DecimalNat(t)[0];
    case Not(f) =>
      assert s[2..] == Tree(f, ")" + k) && s[1] == NOT_TOKEN;
      TreeReads(f, ")" + k);
      assert (")" + k)[1..] == k;
    case _ =>
      var token := if b.And? then AND_TOKEN else OR_TOKEN;
      TreeReads(b.sub1, [token] + Tree(b.sub2, ")" + k));
      TreeReads(b.sub2, ")" + k);
      PairReads(b, token, k);
  }

  lemma PairReads(b: Boolexp, token: char, k: string)
    requires Natural(b) && ((b.And? && token == AND_TOKEN) || (b.Or? && token == OR_TOKEN))
    requires ReadTree(Tree(b.sub2, ")" + k)) == Some((Locked(b.sub2), ")" + k))
    requires var k1 := [token] + Tree(b.sub2, ")" + k); ReadTree(Tree(b.sub1, k1)) == Some((Locked(b.sub1), k1))
    ensures ReadTree(Tree(b, k)) == Some((Locked(b), k))
  {
    var k2 := ")" + k;
    var k1 := [token] + Tree(b.sub2, k2);
    var left := Tree(b.sub1, k1);
    TreeStarts(b.sub1, k1);
    assert Tree(b, k) == "(" + left && ("(" + left)[1..] == left;
    assert k1[1..] == Tree(b.sub2, k2) && k2[1..] == k;
    ReadPair("(" + left, b.sub1, k1, b.sub2, k2);
  }

  lemma ReadPair(s: string, l: Boolexp, k1: string, r: Boolexp, k2: string)
    requires |s| > 1 && s[0] == '(' && s[1] != NOT_TOKEN && ReadTree(s[1..]) == Some((Locked(l), k1))
    requires k1 != "" && k1[0] in {AND_TOKEN, OR_TOKEN} && ReadTree(k1[1..]) == Some((Locked(r), k2))
    requires k2 != "" && k2[0] == ')'
    ensures ReadTree(s) == Some((Locked(if k1[0] == AND_TOKEN then And(l, r) else Or(l, r)), k2[1..]))
  {
  }

  lemma TreeStarts(b: Boolexp, k: string)
    requires Natural(b)
    ensures Tree(b, k) != "" && (Tree(b, k)[0] == '(' || IsDigit(Tree(b, k)[0]))
  {
  }

  lemma KeyReads(key: Lock, f: Format, k: string)
    requires NaturalKey(key)
    ensures ReadKey(Key(key, f, k)) == Some((key, k))
  {
    match key
    case Unlocked =>
      if f.minusOne {
        var s := Ref(-1, k);
        assert DecimalNat(1) == "1" && s == "-1" + ("\n" + k);
        assert s[1..] == "1" + ("\n" + k) && s[1..][1..] == "\n" + k;
        assert Newline("\n" + k) == "\n" + k;
        assert Newline(s[1..]) == "\n" + k;
      }
    case Locked(b) =>
      TreeReads(b, "\n" + k);
  }

  // ---- One object ----

  /**
   Strings leave room for their newlines. The one behind a password that does not is read as a time of
   creation, which does no harm if there are no stamps, or only zeros.
   */
  predicate Storable(o: Object, f: Format) {
    && Tidy(o)
    && Short(o.(password := ""))
    && (|o.password| == LINE_MAX && f.stamps ==> o.created == o.lastused == o.usecnt == 0)
  }

  /** What any accepted dump yields. */
  predicate Tidy(o: Object) {
    && IsLine(o.name) && IsLine(o.description) && IsLine(o.failMessage) && IsLine(o.succMessage)
    && IsLine(o.ofail) && IsLine(o.osuccess) && IsLine(o.password)
    && IsInt(o.location) && IsInt(o.contents) && IsInt(o.exits) && IsInt(o.next)
    && IsInt(o.owner) && IsInt(o.pennies) && IsInt(o.flags)
    && IsInt(o.created) && IsInt(o.lastused) && IsInt(o.usecnt)
    && NaturalKey(o.key)
  }

  predicate Short(o: Object) {
    && |o.name| < LINE_MAX && |o.description| < LINE_MAX && |o.failMessage| < LINE_MAX && |o.succMessage| < LINE_MAX
    && |o.ofail| < LINE_MAX && |o.osuccess| < LINE_MAX && |o.password| < LINE_MAX
  }

  function Dated(o: Object, f: Format): Object {
    if f.stamps then o else o.(created := 0, lastused := 0, usecnt := 0)
  }

  lemma HeadReads(o: Object, k: string, r: Reader)
    requires Tidy(o) && |o.name| < LINE_MAX && |o.description| < LINE_MAX
    requires r.rest == Line(o.name, Line(o.description,
      Ref(o.location, Ref(o.contents, Ref(o.exits, Ref(o.next, k))))))
    ensures var (h, r') := ReadHead(r);
      && r'.rest == k
      && Object(h.name, h.description, h.location, h.contents, h.exits, h.next, o.key, o.failMessage, o.succMessage,
           o.ofail, o.osuccess, o.owner, o.pennies, o.flags, o.password, o.created, o.lastused, o.usecnt) == o
  {
    var k4 := Ref(o.next, k);
    var k3 := Ref(o.exits, k4);
    var k2 := Ref(o.contents, k3);
    var k1 := Ref(o.location, k2);
    StringReadIff(o.name, Line(o.description, k1), r);
    var r1 := ReadString(r).1;
    StringReadIff(o.description, k1, r1);
    var r2 := ReadString(r1).1;
    RefReads(o.location, k2, r2);
    var r3 := ReadRef(r2).1;
    RefReads(o.contents, k3, r3);
    var r4 := ReadRef(r3).1;
    RefReads(o.exits, k4, r4);
    RefReads(o.next, k, ReadRef(r4).1);
  }

  /** A number behind a string that had no room for its newline. */
  lemma RefBehind(s: string, k: string, r: Reader)
    requires s in {"", "0", "(!0)"} && r.rest == Line(s, k)
    ensures ReadRef(r).0 == 0 && ReadRef(r).1.rest == k
  {
    LineEnds(s, k, LINE_MAX);
    assert r.rest[..|s| + 1] == s + "\n" && r.rest[|s| + 1..] == k;
    assert Atol(s + "\n") == 0;
    ToIntFixed(0);
  }

  lemma LongString(s: string, k: string, r: Reader)
    requires IsLine(s) && |s| == LINE_MAX && r.rest == Line(s, k)
    ensures ReadString(r) == (s, Reader("\n" + k, r.refBuf, s))
  {
    LineEnds(s, k, LINE_MAX);
    ChopLine(s);
    assert r.rest[..LINE_MAX] == s && r.rest[LINE_MAX..] == "\n" + k;
  }

  /** In front of the next entry, or of one more number, nothing is left to be read. */
  lemma SkipNumber(n: int, k: string)
    requires IsInt(n) && k != "" && (k[0] == '#' || k[0] == '*')
    ensures SkipExtra(k) == k && SkipExtra(Ref(n, k)) == k
  {
    DecimalShort(n);
    var d := Decimal(n);
    LineEnds(d, k, LINE_MAX);
    assert Ref(n, k)[0] == d[0] && Ref(n, k)[|d| + 1..] == k;
  }

  lemma StampsRead(o: Object, f: Format, k: string, r: Reader)
    requires Tidy(o) && r.rest == Stamps(o, f, k)
    requires !f.stamps ==> k != "" && (k[0] == '#' || k[0] == '*')
    ensures var (created, r1) := ReadRef(r);
      var (lastused, r2) := ReadRef(r1);
      var (usecnt, r3) := ReadRef(r2);
      && r3.rest == k
      && created == Dated(o, f).created && lastused == Dated(o, f).lastused && usecnt == Dated(o, f).usecnt
  {
    if f.stamps {
      RefReads(o.created, Ref(o.lastused, Ref(o.usecnt, k)), r);
      var r1 := ReadRef(r).1;
      RefReads(o.lastused, Ref(o.usecnt, k), r1);
      RefReads(o.usecnt, k, ReadRef(r1).1);
    }
  }

  /** Behind one more line they are read one late, and the last is left over. */
  lemma StampsBehind(o: Object, s: string, f: Format, k: string, r: Reader)
    requires Tidy(o) && s in {"", "0"} && r.rest == Line(s, Stamps(o, f, k)) && k != "" && (k[0] == '#' || k[0] == '*')
    ensures var (created, r1) := ReadRef(r);
      var (lastused, r2) := ReadRef(r1);
      var (usecnt, r3) := ReadRef(r2);
      && SkipExtra(r3.rest) == k && created == 0
      && lastused == Dated(o, f).created && usecnt == Dated(o, f).lastused
  {
    RefBehind(s, Stamps(o, f, k), r);
    var r1 := ReadRef(r).1;
    SkipNumber(o.usecnt, k);
    if f.stamps {
      RefReads(o.created, Ref(o.lastused, Ref(o.usecnt, k)), r1);
      RefReads(o.lastused, Ref(o.usecnt, k), ReadRef(r1).1);
    }
  }

  /** Whose it is up to the password, and what is left for the stamps. */
  lemma OwnerReads(o: Object, f: Format, k: string, r: Reader) returns (r': Reader)
    requires Tidy(o) && r.rest == Owned(o, f, k)
    ensures r'.rest == (if |o.password| < LINE_MAX then "" else "\n") + Stamps(o, f, k)
    ensures var (owner, r1) := ReadRef(r);
      var (pennies, r2) := ReadRef(r1);
      var (flags, r3) := ReadRef(r2);
      && owner == o.owner && pennies == o.pennies && flags == o.flags
      && ReadString(r3) == (o.password, r')
  {
    var k3 := Line(o.password, Stamps(o, f, k));
    var k2 := Ref(o.flags, k3);
    var k1 := Ref(o.pennies, k2);
    RefReads(o.owner, k1, r);
    var r1 := ReadRef(r).1;
    RefReads(o.pennies, k2, r1);
    var r2 := ReadRef(r1).1;
    RefReads(o.flags, k3, r2);
    var r3 := ReadRef(r2).1;
    if |o.password| < LINE_MAX {
      StringReadIff(o.password, Stamps(o, f, k), r3);
    } else {
      LongString(o.password, Stamps(o, f, k), r3);
    }
    r' := ReadString(r3).1;
    assert "" + Stamps(o, f, k) == Stamps(o, f, k);
  }

  lemma OwnedReads(o: Object, f: Format, k: string, r: Reader)
    requires Tidy(o) && r.rest == Owned(o, f, k) && k != "" && (k[0] == '#' || k[0] == '*')
    ensures var (t, r') := ReadOwned(r);
      && SkipExtra(r'.rest) == k
      && t.owner == o.owner && t.pennies == o.pennies && t.flags == o.flags && t.password == o.password
      && var d, late := Dated(o, f), |o.password| == LINE_MAX;
         && t.created == (if late then 0 else d.created)
         && t.lastused == (if late then d.created else d.lastused)
         && t.usecnt == if late then d.lastused else d.usecnt
  {
    var r' := OwnerReads(o, f, k, r);
    if |o.password| < LINE_MAX {
      StampsRead(o, f, k, r');
      SkipNumber(0, k);
    } else {
      StampsBehind(o, "", f, k, r');
    }
  }

  lemma TailReads(o: Object, f: Format, k: string, r: Reader)
    requires Storable(o, f) && r.rest == Tail(o, f, k) && k != "" && (k[0] == '#' || k[0] == '*')
    ensures var (t, r') := ReadTail(r);
      && SkipExtra(r'.rest) == k
      && t == Dated(o, f).(name := "", description := "", location := 0, contents := 0, exits := 0, next := 0,
                           key := Unlocked)
  {
    var k4 := Owned(o, f, k);
    var k3 := Line(o.osuccess, k4);
    var k2 := Line(o.ofail, k3);
    var k1 := Line(o.succMessage, k2);
    StringReadIff(o.failMessage, k1, r);
    var r1 := ReadString(r).1;
    StringReadIff(o.succMessage, k2, r1);
    var r2 := ReadString(r1).1;
    StringReadIff(o.ofail, k3, r2);
    var r3 := ReadString(r2).1;
    StringReadIff(o.osuccess, k4, r3);
    OwnedReads(o, f, k, ReadString(r3).1);
  }

  /** An object in either format comes back, modernised, whatever follows it. */
  lemma ObjectReads(o: Object, f: Format, k: string, r: Reader)
    requires Storable(o, f) && r.rest == ObjectText(o, f, k) && k != "" && (k[0] == '#' || k[0] == '*')
    ensures ReadObject(r).Some?
    ensures ReadObject(r).value.0 == Modern(Dated(o, f)) && ReadObject(r).value.1.rest == k
  {
    HeadReads(o, Key(o.key, f, Tail(o, f, k)), r);
    var r1 := ReadHead(r).1;
    KeyReads(o.key, f, Tail(o, f, k));
    TailReads(o, f, k, r1.(rest := Tail(o, f, k)));
  }

  // ---- Whole dumps ----

  function Read(db: seq<Object>, fs: seq<Format>, i: nat): seq<Object>
    requires |fs| == |db| && i <= |db|
    decreases |db| - i
  {
    if i == |db| then [] else [Modern(Dated(db[i], fs[i]))] + Read(db, fs, i + 1)
  }

  lemma {:induction false} DumpReads(db: seq<Object>, fs: seq<Format>, i: nat, r: Reader, done: seq<Object>)
    requires |fs| == |db| <= 0x8000_0000 && i <= |db| && |done| == i
    requires forall j :: 0 <= j < |db| ==> Storable(db[j], fs[j])
    requires r.rest == DumpText(db, fs, i)
    ensures ReadDump(r, done) == Loaded(done + Read(db, fs, i))
    decreases |db| - i
  {
    if i == |db| {
      EndReads(r, done);
      assert done + [] == done;
    } else {
      var k := DumpText(db, fs, i + 1);
      DumpStarts(db, fs, i + 1);
      var r' := EntryReads(db[i], fs[i], i, k, r, done);
      var o := Modern(Dated(db[i], fs[i]));
      DumpReads(db, fs, i + 1, r', done + [o]);
      AppendOne(done, o, Read(db, fs, i + 1));
    }
  }

  lemma AppendOne(done: seq<Object>, o: Object, rest: seq<Object>)
    ensures done + [o] + rest == done + ([o] + rest)
  {
  }

  lemma DumpStarts(db: seq<Object>, fs: seq<Format>, i: nat)
    requires |fs| == |db| && i <= |db|
    ensures var k := DumpText(db, fs, i); k != "" && (k[0] == '#' || k[0] == '*')
  {
  }

  lemma EndReads(r: Reader, done: seq<Object>)
    requires r.rest == "*" + Line(END_MARK, "")
    ensures ReadDump(r, done) == Loaded(done)
  {
    var r0 := r.(rest := r.rest[1..]);
    assert r0.rest == Line(END_MARK, "");
    EndMarkIsLine();
    StringReadIff(END_MARK, "", r0);
  }

  lemma EndMarkIsLine()
    ensures IsLine(END_MARK) && |END_MARK| < LINE_MAX && END_MARK != ""
  {
  }

  lemma EntryReads(o: Object, f: Format, i: nat, k: string, r: Reader, done: seq<Object>) returns (r': Reader)
    requires Storable(o, f) && |done| == i < 0x8000_0000
    requires k != "" && (k[0] == '#' || k[0] == '*')
    requires r.rest == "#" + Ref(i, ObjectText(o, f, k))
    ensures r'.rest == k && ReadDump(r, done) == ReadDump(r', done + [Modern(Dated(o, f))])
  {
    var r0 := r.(rest := r.rest[1..]);
    assert r0.rest == Ref(i, ObjectText(o, f, k));
    RefReads(i, ObjectText(o, f, k), r0);
    var r1 := ReadRef(r0).1;
    ObjectReads(o, f, k, r1);
    r' := ReadObject(r1).value.1;
  }

  lemma NextEntry(r0: Reader, db: seq<Object>, r1: Reader, o: Object, r2: Reader)
    requires r0.rest != "" && r0.rest[0] == '#' && ReadRef(r0.(rest := r0.rest[1..])) == (|db|, r1)
    requires ReadObject(r1) == Some((o, r2))
    ensures ReadDump(r0, db) == ReadDump(r2, db + [o])
  {
  }

  function AllCurrent(n: nat): (fs: seq<Format>)
    ensures |fs| == n && forall i :: 0 <= i < n ==> fs[i] == CURRENT
  {
    seq(n, _ => CURRENT)
  }

  // ---- What any accepted dump yields ----

  lemma {:induction false} DigitsNatural(s: string, acc: int)
    requires acc >= 0
    ensures Digits(s, acc) >= 0
  {
    if s != "" && IsDigit(s[0]) {
      DigitsNatural(s[1..], acc * 10 + (s[0] - '0') as int);
    }
  }

  lemma {:induction false} TreesAreNatural(s: string)
    requires ReadTree(s).Some?
    ensures NaturalKey(ReadTree(s).value.0)
    decreases |s|
  {
    if s[0] == '(' {
      if |s| > 1 && s[1] == NOT_TOKEN {
        TreesAreNatural(s[2..]);
      } else {
        TreesAreNatural(s[1..]);
        TreesAreNatural(ReadTree(s[1..]).value.1[1..]);
      }
    } else {
      DigitsNatural(s, 0);
    }
  }

  /** ANTILOCK keys become trees that evaluate to the negation. */
  lemma ModernMeaning(o: Object, holds: Dbref -> bool)
    requires Tidy(o)
    ensures Tidy(Modern(o)) && !Flag(Modern(o).flags, ANTILOCK)
    ensures Passes(Modern(o).key, holds) ==
            if Flag(o.flags, ANTILOCK) && o.key.Locked? then !Passes(o.key, holds) else Passes(o.key, holds)
  {
  }

  lemma ObjectsAreTidy(r: Reader)
    requires ReadObject(r).Some? && |r.strBuf| <= LINE_MAX
    ensures var p := ReadObject(r).value;
      Tidy(p.0) && !Flag(p.0.flags, ANTILOCK) && |p.1.strBuf| <= LINE_MAX
  {
    var (head, r1) := ReadHead(r);
    var key := ReadKey(r1.rest).value;
    TreesAreNatural(r1.rest);
    var (tail, r2) := ReadTail(r1.(rest := key.1));
    ModernMeaning(Assemble(head, key.0, tail), x => true);
  }

  predicate AllTidy(db: seq<Object>) {
    forall j :: 0 <= j < |db| ==> Tidy(db[j]) && !Flag(db[j].flags, ANTILOCK)
  }

  /** One entry of an accepted dump. */
  lemma NextLoaded(r: Reader, done: seq<Object>, db: seq<Object>) returns (o: Object, r': Reader)
    requires ReadDump(r, done) == Loaded(db) && r.rest[0] == '#'
    ensures |done| < 0x8000_0000 && ReadDump(r', done + [o]) == Loaded(db) && |r'.rest| < |r.rest|
    ensures ReadObject(ReadRef(r.(rest := r.rest[1..])).1) == Some((o, r'))
  {
    var r1 := ReadRef(r.(rest := r.rest[1..])).1;
    o, r' := ReadObject(r1).value.0, ReadObject(r1).value.1;
  }

  lemma AcceptedEntry(r: Reader, done: seq<Object>, db: seq<Object>) returns (o: Object, r': Reader)
    requires ReadDump(r, done) == Loaded(db) && |r.strBuf| <= LINE_MAX && r.rest[0] == '#'
    ensures |done| < 0x8000_0000 && ReadDump(r', done + [o]) == Loaded(db)
    ensures |r'.rest| < |r.rest| && |r'.strBuf| <= LINE_MAX && Tidy(o) && !Flag(o.flags, ANTILOCK)
  {
    o, r' := NextLoaded(r, done, db);
    ObjectsAreTidy(ReadRef(r.(rest := r.rest[1..])).1);
  }

  lemma AcceptedEnd(r: Reader, done: seq<Object>, db: seq<Object>)
    requires ReadDump(r, done) == Loaded(db)
    ensures r.rest != "" && (r.rest[0] != '#' ==> db == done)
  {
  }

  lemma TidyOneMore(done: seq<Object>, o: Object)
    requires AllTidy(done) && Tidy(o) && !Flag(o.flags, ANTILOCK)
    ensures AllTidy(done + [o])
  {
  }

  lemma {:induction false} AcceptedIsTidy(r: Reader, done: seq<Object>, db: seq<Object>)
    requires ReadDump(r, done) == Loaded(db) && |r.strBuf| <= LINE_MAX && |done| <= 0x8000_0000 && AllTidy(done)
    ensures |db| <= 0x8000_0000 && AllTidy(db)
    decreases |r.rest|
  {
    AcceptedEnd(r, done, db);
    if r.rest[0] == '#' {
      var o, r' := AcceptedEntry(r, done, db);
      TidyOneMore(done, o);
      AcceptedIsTidy(r', done + [o], db);
    }
  }

  lemma Prefixed(done: seq<Object>, o: Object, db: seq<Object>)
    requires |done| < |db| && done + [o] == db[..|done| + 1]
    ensures done == db[..|done|] && db[|done|] == o
  {
    assert forall i :: 0 <= i < |done| ==> done[i] == (done + [o])[i] == db[..|done| + 1][i] == db[i];
    assert (done + [o])[|done|] == o;
  }

  lemma {:induction false} LoadedExtends(r: Reader, done: seq<Object>, db: seq<Object>)
    requires ReadDump(r, done) == Loaded(db)
    ensures |done| <= |db| && done == db[..|done|]
    decreases |r.rest|
  {
    AcceptedEnd(r, done, db);
    if r.rest[0] == '#' {
      var o, r' := NextLoaded(r, done, db);
      LoadedExtends(r', done + [o], db);
      Prefixed(done, o, db);
    }
  }
}

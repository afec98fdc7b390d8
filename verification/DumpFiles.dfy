/** db_write and db_read as they run: characters put to and got from a stream. */
module DumpFiles {
  import opened Objects
  import opened LockText
  import opened Numbers
  import opened Dump

  lemma Concat(a: string, b: string, c: string)
    ensures (a + b) + c == a + (b + c)
  {
  }

  method StripNewline(buf: string) returns (s: string)
    ensures s == Chop(buf)
  {
    var p := 0;
    while p < |buf| && buf[p] != '\n'
      invariant 0 <= p <= |buf| && forall i :: 0 <= i < p ==> buf[i] != '\n'
    {
      p := p + 1;
    }
    ChopAt(buf, p);
    s := buf[..p];
  }

  lemma {:induction false} ChopAt(s: string, p: nat)
    requires p <= |s| && (forall i :: 0 <= i < p ==> s[i] != '\n') && (p < |s| ==> s[p] == '\n')
    ensures Chop(s) == s[..p]
  {
    if p > 0 {
      ChopAt(s[1..], p - 1);
      assert s[..p] == [s[0]] + s[1..][..p - 1];
    }
  }

  lemma ObjectFrom(r0: Reader, head: Object, r1: Reader, key: Lock, k: string, tail: Object, r2: Reader)
    requires ReadHead(r0) == (head, r1) && ReadKey(r1.rest) == Some((key, k)) && ReadTail(r1.(rest := k)) == (tail, r2)
    ensures ReadObject(r0) == Some((Modern(Assemble(head, key, tail)), r2.(rest := SkipExtra(r2.rest))))
  {
  }

  lemma Entry(db: seq<Object>, fs: seq<Format>, i: nat)
    requires |fs| == |db| && i < |db|
    ensures DumpText(db, fs, i) == "#" + Ref(i, ObjectText(db[i], fs[i], DumpText(db, fs, i + 1)))
  {
  }

  lemma EntryRead(r0: Reader, db: seq<Object>, r1: Reader, o: Object, r2: Reader)
    requires r0.rest != "" && r0.rest[0] == '#' && ReadRef(r0.(rest := r0.rest[1..])) == (|db|, r1)
    requires ReadObject(r1) == Some((o, r2))
    ensures |r2.rest| < |r0.rest| && ReadDump(r0, db) == ReadDump(r2, db + [o])
  {
    NextEntry(r0, db, r1, o, r2);
    EntryShortens(r0, r1, o, r2);
  }

  function EndLine(): string {
    "*" + Line(END_MARK, "")
  }

  lemma EndText(db: seq<Object>, fs: seq<Format>)
    requires |fs| == |db|
    ensures DumpText(db, fs, |db|) == EndLine()
  {
  }

  lemma Misnumbered(r0: Reader, db: seq<Object>, r1: Reader, i: int)
    requires r0.rest != "" && r0.rest[0] == '#' && ReadRef(r0.(rest := r0.rest[1..])) == (i, r1) && i != |db|
    ensures ReadDump(r0, db) == Rejected
  {
  }

  lemma BadEntry(r0: Reader, db: seq<Object>, r1: Reader)
    requires r0.rest != "" && r0.rest[0] == '#' && ReadRef(r0.(rest := r0.rest[1..])) == (|db|, r1)
    requires ReadObject(r1).None?
    ensures ReadDump(r0, db) == Aborted
  {
  }

  lemma EntryShortens(r0: Reader, r1: Reader, o: Object, r2: Reader)
    requires r0.rest != "" && ReadRef(r0.(rest := r0.rest[1..])).1 == r1 && ReadObject(r1) == Some((o, r2))
    ensures |r2.rest| < |r0.rest|
  {
  }

  class Writer {
    var out: string

    constructor ()
      ensures out == ""
    {
      out := "";
    }

    method PutRef(n: int)
      modifies this
      ensures forall k {:trigger Ref(n, k)} :: out + k == old(out) + Ref(n, k)
    {
      out := out + Decimal(n) + "\n";
    }

    method PutString(s: string)
      modifies this
      ensures forall k {:trigger Line(s, k)} :: out + k == old(out) + Line(s, k)
    {
      out := out + s;
      out := out + "\n";
    }

    method PutBoolSubexp(b: Boolexp)
      modifies this
      ensures forall k {:trigger Tree(b, k)} :: out + k == old(out) + Tree(b, k)
      decreases b, 1
    {
      match b
      case And(l, r) => PutPair(b, AND_TOKEN);
      case Or(l, r) => PutPair(b, OR_TOKEN);
      case Not(s) =>
        ghost var start := out;
        out := out + "(";
        out := out + [NOT_TOKEN];
        ghost var open := out;
        PutBoolSubexp(s);
        ghost var inner := out;
        out := out + ")";
        forall k {:trigger Tree(b, k)} ensures out + k == start + Tree(b, k) {
          Concat(inner, ")", k);
          assert inner + (")" + k) == open + Tree(s, ")" + k);
          Concat(start + "(", [NOT_TOKEN], Tree(s, ")" + k));
          Concat(start, "(", [NOT_TOKEN] + Tree(s, ")" + k));
        }
      case Const(t) =>
        out := out + Decimal(t);
    }

    method PutPair(b: Boolexp, token: char)
      requires (b.And? && token == AND_TOKEN) || (b.Or? && token == OR_TOKEN)
      modifies this
      ensures forall k {:trigger Tree(b, k)} :: out + k == old(out) + Tree(b, k)
      decreases b, 0
    {
      ghost var start := out;
      out := out + "(";
      PutBoolSubexp(b.sub1);
      ghost var left := out;
      out := out + [token];
      PutBoolSubexp(b.sub2);
      ghost var right := out;
      out := out + ")";
      forall k {:trigger Tree(b, k)} ensures out + k == start + Tree(b, k) {
        var k2 := ")" + k;
        var k1 := [token] + Tree(b.sub2, k2);
        Concat(right, ")", k);
        assert right + k2 == (left + [token]) + Tree(b.sub2, k2);
        Concat(left, [token], Tree(b.sub2, k2));
        assert left + k1 == (start + "(") + Tree(b.sub1, k1);
        Concat(start, "(", Tree(b.sub1, k1));
      }
    }

    method PutBoolexp(key: Lock)
      modifies this
      ensures forall k {:trigger Key(key, CURRENT, k)} :: out + k == old(out) + Key(key, CURRENT, k)
    {
      if key.Locked? {
        PutBoolSubexp(key.tree);
      }
      out := out + "\n";
    }

    method DbWriteObject(o: Object)
      modifies this
      ensures forall k {:trigger ObjectText(o, CURRENT, k)} :: out + k == old(out) + ObjectText(o, CURRENT, k)
    {
      PutString(o.name);
      PutString(o.description);
      PutRef(o.location);
      PutRef(o.contents);
      PutRef(o.exits);
      PutRef(o.next);
      PutBoolexp(o.key);
      PutString(o.failMessage);
      PutString(o.succMessage);
      PutString(o.ofail);
      PutString(o.osuccess);
      PutRef(o.owner);
      PutRef(o.pennies);
      PutRef(o.flags);
      PutString(o.password);
      PutRef(o.created);
      PutRef(o.lastused);
      PutRef(o.usecnt);
    }

    method PutEntry(i: nat, o: Object)
      modifies this
      ensures forall k {:trigger ObjectText(o, CURRENT, k)} ::
        out + k == old(out) + ("#" + Ref(i, ObjectText(o, CURRENT, k)))
    {
      ghost var start := out;
      out := out + "#";
      PutRef(i);
      ghost var mid := out;
      DbWriteObject(o);
      forall k {:trigger ObjectText(o, CURRENT, k)}
        ensures out + k == start + ("#" + Ref(i, ObjectText(o, CURRENT, k)))
      {
        var t := ObjectText(o, CURRENT, k);
        assert mid + t == (start + "#") + Ref(i, t);
        Concat(start, "#", Ref(i, t));
      }
    }

    /** One turn of the loop of db_write. */
    method PutNext(db: seq<Object>, i: nat, ghost fs: seq<Format>)
      requires |fs| == |db| && i < |db| && fs[i] == CURRENT
      modifies this
      ensures out + DumpText(db, fs, i + 1) == old(out) + DumpText(db, fs, i)
    {
      Entry(db, fs, i);
      PutEntry(i, db[i]);
    }

    method DbWrite(db: seq<Object>) returns (n: nat)
      modifies this
      ensures out == old(out) + DumpText(db, AllCurrent(|db|), 0)
      ensures n == |db|
    {
      ghost var fs := AllCurrent(|db|);
      ghost var all := out + DumpText(db, fs, 0);
      n := 0;
      while n < |db|
        invariant 0 <= n <= |db| && out + DumpText(db, fs, n) == all
      {
        PutNext(db, n, fs);
        n := n + 1;
      }
      EndText(db, fs);
      PutEnd();
    }

    method PutEnd()
      modifies this
      ensures out == old(out) + EndLine()
    {
      out := out + EndLine();
    }
  }

  class Source {
    const text: string
    var pos: nat
    var refBuf: string
    var strBuf: string
    var db: seq<Object>

    constructor (text: string)
      ensures this.text == text && Valid() && State() == Reader(text, "", "")
    {
      this.text := text;
      pos, refBuf, strBuf, db := 0, "", "", [];
    }

    ghost predicate Valid()
      reads this`pos
    {
      pos <= |text|
    }

    ghost function Rest(): string
      requires Valid()
      reads this`pos
    {
      text[pos..]
    }

    ghost function State(): Reader
      requires Valid()
      reads this`pos, this`refBuf, this`strBuf
    {
      Reader(text[pos..], refBuf, strBuf)
    }

    method Getc() returns (c: Option<char>)
      requires Valid()
      modifies this`pos
      ensures Valid()
      ensures old(Rest()) == "" ==> c == None && pos == old(pos)
      ensures old(Rest()) != "" ==> c == Some(old(Rest())[0]) && Rest() == old(Rest())[1..] && pos == old(pos) + 1
    {
      if pos == |text| {
        return None;
      }
      c := Some(text[pos]);
      pos := pos + 1;
    }

    /** do_peek: getc and ungetc. */
    method DoPeek() returns (c: Option<char>)
      requires Valid()
      ensures c == if Rest() == "" then None else Some(Rest()[0])
    {
      c := if pos == |text| then None else Some(text[pos]);
    }

    /** At the end of the file the buffer stays as it is. */
    method Fgets(stale: string) returns (buf: string)
      requires Valid()
      modifies this`pos
      ensures Valid()
      ensures var s := old(Rest()); var n := LineLength(s, LINE_MAX);
        Rest() == s[n..] && buf == if s == "" then stale else s[..n]
    {
      if pos == |text| {
        return stale;
      }
      ghost var s := Rest();
      ghost var start := pos;
      buf := "";
      var done := false;
      while !done && |buf| < LINE_MAX && pos < |text|
        invariant start <= pos <= |text| && buf == text[start..pos] && |buf| <= LINE_MAX
        invariant LineLength(s, LINE_MAX) == |buf| + if done then 0 else LineLength(Rest(), LINE_MAX - |buf|)
        decreases |text| - pos, !done
      {
        assert text[pos..][1..] == text[pos + 1..];
        buf := buf + [text[pos]];
        done := text[pos] == '\n';
        pos := pos + 1;
      }
    }

    method GetRef() returns (n: int)
      requires Valid()
      modifies this`pos, this`refBuf
      ensures Valid() && (n, State()) == ReadRef(old(State()))
    {
      var peek := DoPeek();
      if peek == Some('#') || peek == Some('*') {
        return 0;
      }
      refBuf := Fgets(refBuf);
      n := ToInt(Atol(refBuf));
    }

    method GetString() returns (s: string)
      requires Valid()
      modifies this`pos, this`strBuf
      ensures Valid() && (s, State()) == ReadString(old(State()))
    {
      strBuf := Fgets(strBuf);
      strBuf := StripNewline(strBuf);
      s := strBuf;
    }

    method GetBoolexp1() returns (r: Option<Lock>)
      requires Valid()
      modifies this`pos
      ensures Valid()
      ensures r.None? <==> ReadTree(old(Rest())).None?
      ensures r.Some? ==> ReadTree(old(Rest())) == Some((r.value, Rest()))
      decreases |text| - pos, 1
    {
      ghost var s := Rest();
      var c := Getc();
      if c == None {
        return None;
      } else if c.value == '\n' {
        pos := pos - 1;
        return Some(Unlocked);
      } else if c.value == '(' {
        r := GetCompound(s);
      } else if c.value == '-' {
        r := SkipNegative();
      } else {
        pos := pos - 1;
        r := GetNumber();
      }
    }

    /** Behind an opening parenthesis. */
    method GetCompound(ghost s: string) returns (r: Option<Lock>)
      requires Valid() && s != "" && s[0] == '(' && Rest() == s[1..]
      modifies this`pos
      ensures Valid()
      ensures r.None? <==> ReadTree(s).None?
      ensures r.Some? ==> ReadTree(s) == Some((r.value, Rest()))
      decreases |text| - pos, 2
    {
      var c := Getc();
      if c == Some(NOT_TOKEN) {
        assert Rest() == s[2..];
        var b := GetBoolexp1();
        if b.None? {
          return None;
        }
        c := Getc();
        return if c == Some(')') then Some(Locked(Not(b.value.tree))) else None;
      }
      if c.Some? {
        pos := pos - 1;
      }
      assert Rest() == s[1..];
      var l := GetBoolexp1();
      if l.None? {
        return None;
      }
      var op := Getc();
      if op != Some(AND_TOKEN) && op != Some(OR_TOKEN) {
        return None;
      }
      var m := GetBoolexp1();
      if m.None? {
        return None;
      }
      c := Getc();
      if c != Some(')') {
        return None;
      }
      return Some(Locked(
        if op.value == AND_TOKEN then And(l.value.tree, m.value.tree) else Or(l.value.tree, m.value.tree)));
    }

    /** Obsolete notation: the rest of the line is ignored. */
    method SkipNegative() returns (r: Option<Lock>)
      requires Valid()
      modifies this`pos
      ensures Valid() && Rest() == Newline(old(Rest()))
      ensures r == if Rest() == "" then None else Some(Unlocked)
    {
      while pos < |text| && text[pos] != '\n'
        invariant Valid() && Newline(Rest()) == Newline(old(Rest()))
        decreases |text| - pos
      {
        assert text[pos..][1..] == text[pos + 1..];
        pos := pos + 1;
      }
      return if pos == |text| then None else Some(Unlocked);
    }

    method GetNumber() returns (r: Option<Lock>)
      requires Valid()
      modifies this`pos
      ensures Valid() && Rest() == SkipDigits(old(Rest())) && r == Some(Locked(Const(Digits(old(Rest()), 0))))
    {
      var thing := 0;
      while pos < |text| && IsDigit(text[pos])
        invariant Valid() && Digits(Rest(), thing) == Digits(old(Rest()), 0)
        invariant SkipDigits(Rest()) == SkipDigits(old(Rest()))
        decreases |text| - pos
      {
        assert text[pos..][1..] == text[pos + 1..];
        thing := thing * 10 + (text[pos] - '0') as int;
        pos := pos + 1;
      }
      return Some(Locked(Const(thing)));
    }

    method GetBoolexp() returns (r: Option<Lock>)
      requires Valid()
      modifies this`pos
      ensures Valid()
      ensures r.None? <==> ReadKey(old(Rest())).None?
      ensures r.Some? ==> ReadKey(old(Rest())) == Some((r.value, Rest()))
    {
      var b := GetBoolexp1();
      if b.None? {
        return None;
      }
      var c := Getc();
      r := if c == Some('\n') then b else None;
    }

    method SkipToEntry()
      requires Valid()
      modifies this`pos
      ensures Valid() && Rest() == SkipExtra(old(Rest()))
    {
      var peek := DoPeek();
      while peek != None && peek != Some('#') && peek != Some('*')
        invariant Valid() && SkipExtra(Rest()) == SkipExtra(old(Rest()))
        invariant peek == if Rest() == "" then None else Some(Rest()[0])
        decreases |text| - pos
      {
        var line := Fgets("");
        peek := DoPeek();
      }
    }

    /** The fields before the key. */
    method GetHead() returns (o: Object)
      requires Valid()
      modifies this`pos, this`refBuf, this`strBuf
      ensures Valid() && (o, State()) == Dump.ReadHead(old(State()))
    {
      var name := GetString();
      var description := GetString();
      var location := GetRef();
      var contents := GetRef();
      var exits := GetRef();
      var next := GetRef();
      o := Object(name, description, location, contents, exits, next, Unlocked, "", "", "", "", 0, 0, 0, "", 0, 0, 0);
    }

    /** The fields behind the key. */
    method GetTail() returns (o: Object)
      requires Valid()
      modifies this`pos, this`refBuf, this`strBuf
      ensures Valid() && (o, State()) == Dump.ReadTail(old(State()))
    {
      var fail := GetString();
      var succ := GetString();
      var ofail := GetString();
      var osuccess := GetString();
      var owner := GetRef();
      var pennies := GetRef();
      var flags := GetRef();
      var password := GetString();
      var created := GetRef();
      var lastused := GetRef();
      var usecnt := GetRef();
      o := Object("", "", 0, 0, 0, 0, Unlocked, fail, succ, ofail, osuccess, owner, pennies, flags, password,
        created, lastused, usecnt);
    }

    method ReadEntry() returns (o: Option<Object>)
      requires Valid()
      modifies this`pos, this`refBuf, this`strBuf
      ensures Valid()
      ensures o.None? <==> ReadObject(old(State())).None?
      ensures o.Some? ==> ReadObject(old(State())) == Some((o.value, State()))
    {
      var head := GetHead();
      ghost var r1 := State();
      var key := GetBoolexp();
      if key.None? {
        return None;
      }
      ghost var k := Rest();
      var tail := GetTail();
      ghost var r2 := State();
      SkipToEntry();
      ObjectFrom(old(State()), head, r1, key.value, k, tail, r2);
      var whole := Assemble(head, key.value, tail);
      if Flag(whole.flags, ANTILOCK) {
        whole := whole.(
          key := if whole.key.Unlocked? then Unlocked else Locked(Not(whole.key.tree)),
          flags := ClearFlag(whole.flags, ANTILOCK));
      }
      assert whole == Modern(Assemble(head, key.value, tail));
      o := Some(whole);
    }

    /** An entry, its '#' already read; without one db_read is at its end, with result r. */
    method ReadNumbered(ghost r0: Reader) returns (more: bool, r: Option<int>)
      requires Valid() && r0.rest != "" && r0.rest[0] == '#' && State() == r0.(rest := r0.rest[1..])
      modifies this
      ensures Valid()
      ensures more ==> |State().rest| < |r0.rest| && ReadDump(State(), db) == ReadDump(r0, old(db))
      ensures !more ==> Matches(ReadDump(r0, old(db)), r, db)
    {
      ghost var before := db;
      var i := GetRef();
      ghost var r1 := State();
      if i != |db| {
        Misnumbered(r0, before, r1, i);
        return false, Some(-1);
      }
      var o := ReadEntry();
      if o.None? {
        BadEntry(r0, before, r1);
        return false, None;
      }
      EntryRead(r0, before, r1, o.value, State());
      db := db + [o.value];
      return true, None;
    }

    /** What db_read returns behind a character that starts no entry. */
    method ReadEnd(c: Option<char>, ghost r0: Reader) returns (r: Option<int>)
      requires Valid() && c != Some('#') && (c == None ==> r0.rest == "")
      requires c.Some? ==> r0.rest != "" && c.value == r0.rest[0] && State() == r0.(rest := r0.rest[1..])
      modifies this`pos, this`strBuf
      ensures Valid() && Matches(ReadDump(r0, db), r, db)
    {
      if c == Some('*') {
        var end := GetString();
        return if end == END_MARK then Some(|db|) else if end == "" then None else Some(-1);
      }
      return Some(-1);
    }

    /** One turn of the loop of db_read. */
    method ReadNext() returns (more: bool, r: Option<int>)
      requires Valid()
      modifies this
      ensures Valid()
      ensures more ==> |State().rest| < |old(State()).rest| && ReadDump(State(), db) == ReadDump(old(State()), old(db))
      ensures !more ==> Matches(ReadDump(old(State()), old(db)), r, db)
    {
      ghost var r0 := State();
      var c := Getc();
      if c == Some('#') {
        more, r := ReadNumbered(r0);
      } else {
        r := ReadEnd(c, r0);
        more := false;
      }
    }

    /** db_read: the number of objects, or -1; None when it aborts. */
    method DbRead() returns (r: Option<int>)
      requires Valid()
      modifies this
      ensures Matches(ReadDump(old(State()), []), r, db)
    {
      db := [];
      var more := true;
      r := None;
      while more
        invariant Valid()
        invariant more ==> ReadDump(State(), db) == ReadDump(old(State()), [])
        invariant !more ==> Matches(ReadDump(old(State()), []), r, db)
        decreases if more then |State().rest| + 1 else 0
      {
        more, r := ReadNext();
      }
    }
  }

  /**
   * What db_read returns, None if it does not, and leaves in the array if it succeeds, for a dump that
   * reads as load.
   */
  predicate Matches(load: Load, r: Option<int>, db: seq<Object>) {
    match load
    case Aborted => r == None
    case Rejected => r == Some(-1)
    case Loaded(objects) => r == Some(|objects|) && db == objects
  }
}

/** minimal.db, an old-format dump, line by line, and what db_read makes of it. */
module Minimal {
  import opened Objects
  import opened Numbers
  import opened Dump
  import opened Settling
  import Runs

  /** The lines of record 0, followed by k. */
  function Room(k: string): string {
    Line("#0", Line("Room Zero", Line("You are in Room Zero.  It's very dark here.",
      Line("-1", Line("1", Line("-1", Line("-1", Line("-1",
      Line("", Line("", Line("", Line("is briefly visible through the mist.",
      Line("1", Line("0", Line("0", Line("", k))))))))))))))))
  }

  function Wizard(k: string): string {
    Line("#1", Line("One", Line("You see Number One.",
      Line("0", Line("-1", Line("0", Line("-1", Line("-1",
      Line("", Line("", Line("", Line("",
      Line("1", Line("0", Line("19", Line("potrzebie", k))))))))))))))))
  }

  function Text(): string {
    Room(Wizard(Line("***END OF DUMP***", "")))
  }

  const OLD := Format(false, true)

  lemma SmallNumbers()
    ensures Decimal(-1) == "-1" && Decimal(0) == "0" && Decimal(1) == "1" && Decimal(19) == "19"
  {
    assert DecimalNat(1) == "1" && DecimalNat(19) == DecimalNat(1) + "9";
  }

  lemma Marked(s: string, k: string)
    ensures "#" + Line(s, k) == Line("#" + s, k)
  {
  }

  lemma RoomText(k: string)
    ensures "#" + Ref(0, ObjectText(Runs.MinimalRoom(), OLD, k)) == Room(k)
  {
    SmallNumbers();
    Marked("0", ObjectText(Runs.MinimalRoom(), OLD, k));
  }

  lemma WizardText(k: string)
    ensures "#" + Ref(1, ObjectText(Runs.MinimalWizard(), OLD, k)) == Wizard(k)
  {
    SmallNumbers();
    Marked("1", ObjectText(Runs.MinimalWizard(), OLD, k));
  }

  lemma LastLine()
    ensures "*" + Line(END_MARK, "") == Line("***END OF DUMP***", "")
  {
  }

  lemma TwoObjects(db: seq<Object>, fs: seq<Format>)
    requires |db| == 2 && fs == [OLD, OLD]
    ensures DumpText(db, fs, 0) == DumpOf(db[0], db[1])
  {
    assert DumpText(db, fs, 2) == "*" + Line(END_MARK, "");
    assert DumpText(db, fs, 1) == "#" + Ref(1, ObjectText(db[1], fs[1], DumpText(db, fs, 2)));
  }

  /** The dump of two objects in the old format. */
  function DumpOf(a: Object, b: Object): string {
    "#" + Ref(0, ObjectText(a, OLD, "#" + Ref(1, ObjectText(b, OLD, "*" + Line(END_MARK, "")))))
  }

  lemma TextIsDump()
    ensures Text() == DumpOf(Runs.MinimalRoom(), Runs.MinimalWizard())
  {
    LastLine();
    WizardText("*" + Line(END_MARK, ""));
    RoomText(Wizard("*" + Line(END_MARK, "")));
  }

  /** What an old dump without the obsolete flag preserves. */
  predicate Survives(o: Object) {
    Storable(o, OLD) && Modern(Dated(o, OLD)) == o
  }

  lemma RoomLines()
    ensures var o := Runs.MinimalRoom();
      && IsLine(o.name) && IsLine(o.description) && IsLine(o.osuccess)
      && |o.name| < LINE_MAX && |o.description| < LINE_MAX && |o.osuccess| < LINE_MAX
  {
  }

  lemma RoomSurvives()
    ensures Survives(Runs.MinimalRoom())
  {
    RoomLines();
    assert Storable(Runs.MinimalRoom(), OLD);
  }

  lemma WizardSurvives()
    ensures Survives(Runs.MinimalWizard())
  {
    assert Storable(Runs.MinimalWizard(), OLD);
  }

  /** All of them do, dumped in these formats. */
  ghost predicate AllSurvive(db: seq<Object>, fs: seq<Format>) {
    |fs| == |db| && forall j :: 0 <= j < |db| ==> fs[j] == OLD && Survives(db[j])
  }

  lemma {:induction false} ReadSurvivors(db: seq<Object>, fs: seq<Format>, i: nat)
    requires AllSurvive(db, fs) && i <= |db|
    ensures Read(db, fs, i) == db[i..]
    decreases |db| - i
  {
    if i < |db| {
      ReadSurvivors(db, fs, i + 1);
      assert db[i..] == [db[i]] + db[i + 1..];
    }
  }

  lemma SurvivorsLoad(db: seq<Object>, fs: seq<Format>, r: Reader)
    requires AllSurvive(db, fs) && |db| <= 0x8000_0000 && r.rest == DumpText(db, fs, 0)
    ensures ReadDump(r, []) == Loaded(db)
  {
    DumpReads(db, fs, 0, r, []);
    ReadSurvivors(db, fs, 0);
    assert [] + db[0..] == db;
  }

  lemma PairLoads(db: seq<Object>, r: Reader)
    requires |db| == 2 && AllSurvive(db, [OLD, OLD]) && r.rest == DumpOf(db[0], db[1])
    ensures ReadDump(r, []) == Loaded(db)
  {
    TwoObjects(db, [OLD, OLD]);
    SurvivorsLoad(db, [OLD, OLD], r);
  }

  lemma PairSurvives(a: Object, b: Object)
    requires Survives(a) && Survives(b)
    ensures AllSurvive([a, b], [OLD, OLD])
  {
  }

  lemma TwoLoad(a: Object, b: Object, r: Reader)
    requires Survives(a) && Survives(b) && r.rest == DumpOf(a, b)
    ensures ReadDump(r, []) == Loaded([a, b])
  {
    PairSurvives(a, b);
    PairLoads([a, b], r);
  }

  /** The file loads as the two records that the runs start from. */
  lemma Loads(refBuf: string, strBuf: string)
    ensures ReadDump(Reader(Text(), refBuf, strBuf), []) == Loaded(Runs.MinimalDb())
  {
    TextIsDump();
    RoomSurvives();
    WizardSurvives();
    TwoLoad(Runs.MinimalRoom(), Runs.MinimalWizard(), Reader(Text(), refBuf, strBuf));
  }

  // ---- A dump of the current format ----

  function Specimen(): Object {
    Object("n", "d", 1, 2, 3, 4, Locked(Or(And(Const(5), Const(6)), Not(Const(7)))), "f", "s", "o", "u", 8, 9, 16, "p",
      17, 18, 19)
  }

  /** Every field in its line, in this order, followed by k. */
  function SpecimenText(k: string): string {
    "#0\n" + ("n\n" + ("d\n" + ("1\n" + ("2\n" + ("3\n" + ("4\n" + ("((5&6)|(!7))\n" + SpecimenTail(k))))))))
  }

  function SpecimenTail(k: string): string {
    "f\n" + ("s\n" + ("o\n" + ("u\n" + ("8\n" + ("9\n" + ("16\n" + ("p\n" + ("17\n" + ("18\n" + ("19\n" + k))))))))))
  }

  lemma Teens()
    ensures Decimal(16) == "16" && Decimal(17) == "17" && Decimal(18) == "18" && Decimal(19) == "19"
    ensures forall n :: 0 <= n < 10 ==> Decimal(n) == ["0123456789"[n]]
  {
    assert DecimalNat(1) == "1";
  }

  lemma LiteralLine(l: string, s: string, k: string)
    requires l == s + "\n"
    ensures l + k == Line(s, k)
  {
  }

  lemma StampsText(k: string)
    ensures Stamps(Specimen(), CURRENT, k) == "17\n" + ("18\n" + ("19\n" + k))
  {
    Teens();
    LiteralLine("19\n", "19", k);
    LiteralLine("18\n", "18", "19\n" + k);
    LiteralLine("17\n", "17", "18\n" + ("19\n" + k));
  }

  lemma OwnedText(k: string)
    ensures Owned(Specimen(), CURRENT, k) ==
            "8\n" + ("9\n" + ("16\n" + ("p\n" + ("17\n" + ("18\n" + ("19\n" + k))))))
  {
    Teens();
    StampsText(k);
    var s := Stamps(Specimen(), CURRENT, k);
    LiteralLine("p\n", "p", s);
    LiteralLine("16\n", "16", "p\n" + s);
    LiteralLine("9\n", "9", "16\n" + ("p\n" + s));
    LiteralLine("8\n", "8", "9\n" + ("16\n" + ("p\n" + s)));
  }

  lemma TailText(k: string)
    ensures Tail(Specimen(), CURRENT, k) == SpecimenTail(k)
  {
    OwnedText(k);
    var s := Owned(Specimen(), CURRENT, k);
    LiteralLine("u\n", "u", s);
    LiteralLine("o\n", "o", "u\n" + s);
    LiteralLine("s\n", "s", "o\n" + ("u\n" + s));
    LiteralLine("f\n", "f", "s\n" + ("o\n" + ("u\n" + s)));
  }

  lemma NotText(t: nat, k: string)
    requires t < 10
    ensures Tree(Not(Const(t)), k) == "(!" + Decimal(t) + ")" + k
  {
    assert Tree(Const(t), ")" + k) == Decimal(t) + (")" + k);
  }

  lemma PairText(t: nat, u: nat, k: string)
    requires t < 10 && u < 10
    ensures Tree(And(Const(t), Const(u)), k) == "(" + Decimal(t) + "&" + Decimal(u) + ")" + k
  {
    assert Tree(Const(u), ")" + k) == Decimal(u) + (")" + k);
    assert Tree(Const(t), "&" + Tree(Const(u), ")" + k)) == Decimal(t) + ("&" + (Decimal(u) + (")" + k)));
  }

  lemma KeyText(k: string)
    ensures Key(Specimen().key, CURRENT, k) == "((5&6)|(!7))\n" + k
  {
    Teens();
    var end := ")" + ("\n" + k);
    NotText(7, end);
    PairText(5, 6, "|" + Tree(Not(Const(7)), end));
    KeyCharacters(k);
  }

  lemma KeyCharacters(k: string)
    ensures "(" + ("(" + "5" + "&" + "6" + ")" + ("|" + ("(!" + "7" + ")" + (")" + ("\n" + k))))) ==
            "((5&6)|(!7))\n" + k
  {
  }

  lemma LinksText(k: string)
    ensures Links(Specimen(), k) == "1\n" + ("2\n" + ("3\n" + ("4\n" + k)))
  {
    Teens();
    LiteralLine("4\n", "4", k);
    LiteralLine("3\n", "3", "4\n" + k);
    LiteralLine("2\n", "2", "3\n" + ("4\n" + k));
    LiteralLine("1\n", "1", "2\n" + ("3\n" + ("4\n" + k)));
  }

  lemma EntryIs(k: string)
    ensures "#" + Ref(0, ObjectText(Specimen(), CURRENT, k)) == SpecimenText(k)
  {
    TailText(k);
    KeyText(SpecimenTail(k));
    LinksText("((5&6)|(!7))\n" + SpecimenTail(k));
    NamesText(Links(Specimen(), Key(Specimen().key, CURRENT, Tail(Specimen(), CURRENT, k))));
  }

  lemma NamesText(k: string)
    ensures "#" + Ref(0, Line("n", Line("d", k))) == "#0\n" + ("n\n" + ("d\n" + k))
  {
    Teens();
    LiteralLine("d\n", "d", k);
    LiteralLine("n\n", "n", "d\n" + k);
    LiteralLine("#0\n", "#0", "n\n" + ("d\n" + k));
    Marked("0", "n\n" + ("d\n" + k));
  }

  lemma OneObject(o: Object)
    ensures DumpText([o], AllCurrent(1), 0) == "#" + Ref(0, ObjectText(o, CURRENT, "*" + Line(END_MARK, "")))
  {
    assert DumpText([o], AllCurrent(1), 1) == "*" + Line(END_MARK, "");
  }

  lemma SpecimenSettled()
    ensures AllTidy([Specimen()]) && AllSettled([Specimen()], 0)
  {
  }

  /** So db_write puts it out, and so db_read takes it in. */
  lemma SpecimenLoads(refBuf: string, strBuf: string)
    ensures var text := SpecimenText("***END OF DUMP***\n");
      && DumpText([Specimen()], AllCurrent(1), 0) == text
      && ReadDump(Reader(text, refBuf, strBuf), []) == Loaded([Specimen()])
  {
    LastLine();
    LiteralLine("***END OF DUMP***\n", "***END OF DUMP***", "");
    assert "***END OF DUMP***\n" + "" == "***END OF DUMP***\n";
    OneObject(Specimen());
    EntryIs("***END OF DUMP***\n");
    SpecimenSettled();
    DumpRoundTripIff([Specimen()], Reader(SpecimenText("***END OF DUMP***\n"), refBuf, strBuf));
  }
}

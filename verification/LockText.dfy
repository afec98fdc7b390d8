/**
 The user's notation for locks: the printer of src/unparse.c, which leaves out parentheses that
 precedence makes unnecessary, and the recursive-descent parser of src/boolexp.c.
 */
module LockText {
  import opened Objects
  import opened Locks

  const NOT_TOKEN := '!'
  const AND_TOKEN := '&'
  const OR_TOKEN := '|'

  // ---- Scanning ----

  predicate IsSpace(c: char) {
    c == ' ' || '\t' <= c <= '\r'
  }

  predicate IsAtomChar(c: char) {
    c != AND_TOKEN && c != OR_TOKEN && c != ')'
  }

  /** isspace, one by one. */
  lemma SpaceIff(c: char)
    ensures IsSpace(c) <==> c in [' ', '\t', '\n', 11 as char, 12 as char, '\r']
  {
  }

  function SkipSpace(s: string): (r: string)
    ensures |r| <= |s|
    ensures r != "" ==> !IsSpace(r[0])
  {
    if s != "" && IsSpace(s[0]) then SkipSpace(s[1..]) else s
  }

  /** The length of the object name that starts s. */
  function AtomLength(s: string): (n: nat)
    ensures n <= |s|
  {
    if s != "" && IsAtomChar(s[0]) then 1 + AtomLength(s[1..]) else 0
  }

  function TrimRight(s: string): string {
    if s != "" && IsSpace(s[|s| - 1]) then TrimRight(s[..|s| - 1]) else s
  }

  // ---- The grammar: E -> T | T '|' E, T -> F | F '&' T, F -> '(' E ')' | '!' F | name ----

  /** Unlocked is the parser's failure value. */
  datatype Parse = Parse(lock: Lock, rest: string)

  /**
   What the match functions find for a name with so much text left from its start. As no two names of a text
   start at one place, each may be matched in its own way, however random() falls.
   */
  type Matcher = (string, nat) -> Dbref

  function ParseE(s: string, m: Matcher): (r: Parse)
    ensures |r.rest| <= |s|
    decreases |s|, 2
  {
    var t := ParseT(s, m);
    if t.lock.Unlocked? then t
    else
      var s1 := SkipSpace(t.rest);
      if s1 == "" || s1[0] != OR_TOKEN then Parse(t.lock, s1)
      else
        var e := ParseE(s1[1..], m);
        if e.lock.Unlocked? then e else Parse(Locked(Or(t.lock.tree, e.lock.tree)), e.rest)
  }

  function ParseT(s: string, m: Matcher): (r: Parse)
    ensures |r.rest| <= |s|
    decreases |s|, 1
  {
    var f := ParseF(s, m);
    if f.lock.Unlocked? then f
    else
      var s1 := SkipSpace(f.rest);
      if s1 == "" || s1[0] != AND_TOKEN then Parse(f.lock, s1)
      else
        var t := ParseT(s1[1..], m);
        if t.lock.Unlocked? then t else Parse(Locked(And(f.lock.tree, t.lock.tree)), t.rest)
  }

  function ParseF(s: string, m: Matcher): (r: Parse)
    ensures |r.rest| <= |s|
    decreases |s|, 0
  {
    var s0 := SkipSpace(s);
    if s0 != "" && s0[0] == '(' then
      var e := ParseE(s0[1..], m);
      var s1 := SkipSpace(e.rest);
      if e.lock.Unlocked? then Parse(Unlocked, s1)
      else if s1 == "" then Parse(Unlocked, s1)
      else if s1[0] != ')' then Parse(Unlocked, s1[1..])
      else Parse(e.lock, s1[1..])
    else if s0 != "" && s0[0] == NOT_TOKEN then
      var f := ParseF(s0[1..], m);
      if f.lock.Unlocked? then f else Parse(Locked(Not(f.lock.tree)), f.rest)
    else
      var n := AtomLength(s0);
      var thing := m(TrimRight(s0[..n]), |s0|);
      Parse(if thing == NOTHING || thing == AMBIGUOUS then Unlocked else Locked(Const(thing)), s0[n..])
  }

  // ---- The printer ----

  datatype Outer = InAnd | InOr | InNot | Outermost

  function Print(b: Boolexp, outer: Outer, name: Dbref -> string): string {
    match b
    case And(l, r) =>
      var text := Print(l, InAnd, name) + [AND_TOKEN] + Print(r, InAnd, name);
      if outer == InNot then "(" + text + ")" else text
    case Or(l, r) =>
      var text := Print(l, InOr, name) + [OR_TOKEN] + Print(r, InOr, name);
      if outer == InNot || outer == InAnd then "(" + text + ")" else text
    case Not(s) => [NOT_TOKEN] + Print(s, InNot, name)
    case Const(t) => name(t)
  }

  // ---- Reading back what is printed ----

  /** A text that the factor parser takes, whole, for the name of an object. */
  predicate Clean(a: string) {
    && a != ""
    && (forall i :: 0 <= i < |a| ==> IsAtomChar(a[i]))
    && a[0] != '(' && a[0] != NOT_TOKEN && !IsSpace(a[0])
    && !IsSpace(a[|a| - 1])
  }

  /** Every constant of b is printed as a clean name that the matcher finds again wherever it stands. */
  ghost predicate Readable(b: Boolexp, name: Dbref -> string, m: Matcher) {
    match b
    case And(l, r) => Readable(l, name, m) && Readable(r, name, m)
    case Or(l, r) => Readable(l, name, m) && Readable(r, name, m)
    case Not(s) => Readable(s, name, m)
    case Const(t) => t != NOTHING && t != AMBIGUOUS && Clean(name(t)) && forall left: nat :: m(name(t), left) == t
  }

  predicate Starts(k: string, tokens: set<char>) {
    k == "" || k[0] in tokens
  }

  lemma {:induction false} AtomThenToken(a: string, k: string)
    requires (forall i :: 0 <= i < |a| ==> IsAtomChar(a[i])) && Starts(k, {AND_TOKEN, OR_TOKEN, ')'})
    ensures AtomLength(a + k) == |a| && (a + k)[..|a|] == a && (a + k)[|a|..] == k
  {
    if a == "" {
      assert a + k == k;
    } else {
      assert (a + k)[1..] == a[1..] + k;
      AtomThenToken(a[1..], k);
    }
  }

  lemma {:induction false} FactorReads(b: Boolexp, name: Dbref -> string, m: Matcher, k: string)
    requires Readable(b, name, m) && Starts(k, {AND_TOKEN, OR_TOKEN, ')'})
    ensures ParseF(Print(b, InNot, name) + k, m) == Parse(Locked(Norm(b)), k)
    decreases b, if b.And? then 2 else if b.Or? then 1 else 0
  {
    var s := Print(b, InNot, name) + k;
    match b
    case Const(t) =>
      AtomThenToken(name(t), k);
    case Not(f) =>
      assert s[1..] == Print(f, InNot, name) + k;
      FactorReads(f, name, m, k);
    case _ =>
      ParenthesesPrinted(b, name, k);
      ExpressionReads(b, name, m, ")" + k);
      ParenthesesRead(s, Norm(b), m, k);
  }

  lemma ParenthesesPrinted(b: Boolexp, name: Dbref -> string, k: string)
    requires b.And? || b.Or?
    ensures var s := Print(b, InNot, name) + k;
      s[0] == '(' && s[1..] == Print(b, Outermost, name) + (")" + k)
  {
  }

  lemma ParenthesesRead(s: string, b: Boolexp, m: Matcher, k: string)
    requires s != "" && s[0] == '(' && ParseE(s[1..], m) == Parse(Locked(b), ")" + k)
    ensures ParseF(s, m) == Parse(Locked(b), k)
  {
    assert (")" + k)[1..] == k;
  }

  lemma PrintAnd(b: Boolexp, name: Dbref -> string, k: string)
    requires b.And?
    ensures Print(b, InAnd, name) + k ==
            Print(b.sub1, InAnd, name) + ([AND_TOKEN] + (Print(b.sub2, InAnd, name) + k))
  {
  }

  lemma PrintOr(b: Boolexp, name: Dbref -> string, k: string)
    requires b.Or?
    ensures Print(b, InOr, name) + k ==
            Print(b.sub1, InOr, name) + ([OR_TOKEN] + (Print(b.sub2, InOr, name) + k))
  {
  }

  lemma TermAndExpression(s: string, m: Matcher, t: Boolexp, rest: string, r: Boolexp, k: string)
    requires ParseT(s, m) == Parse(Locked(t), [OR_TOKEN] + rest)
    requires ParseE(rest, m) == Parse(Locked(r), k)
    ensures ParseE(s, m) == Parse(Locked(Or(t, r)), k)
  {
    assert ([OR_TOKEN] + rest)[1..] == rest;
  }

  lemma FactorIsTerm(s: string, m: Matcher, f: Boolexp, k: string)
    requires ParseF(s, m) == Parse(Locked(f), k) && Starts(k, {OR_TOKEN, ')'})
    ensures ParseT(s, m) == Parse(Locked(f), k)
  {
  }

  lemma FactorAndTerm(s: string, m: Matcher, f: Boolexp, rest: string, r: Boolexp, k: string)
    requires ParseF(s, m) == Parse(Locked(f), [AND_TOKEN] + rest)
    requires ParseT(rest, m) == Parse(Locked(r), k)
    ensures ParseT(s, m) == Parse(Locked(And(f, r)), k)
  {
    assert ([AND_TOKEN] + rest)[1..] == rest;
  }

  lemma {:induction false} TermReads(b: Boolexp, name: Dbref -> string, m: Matcher, k: string)
    requires Readable(b, name, m) && Starts(k, {OR_TOKEN, ')'})
    ensures ParseT(Print(b, InAnd, name) + k, m) == Parse(Locked(Norm(b)), k)
    decreases b, if b.And? then 0 else if b.Or? then 2 else 1
  {
    if b.And? {
      var rest := Print(b.sub2, InAnd, name) + k;
      TermReads(b.sub2, name, m, k);
      ConjunctReads(b.sub1, name, m, rest, Norm(b.sub2), k);
      PrintAnd(b, name, k);
    } else {
      FactorReads(b, name, m, k);
      assert Print(b, InAnd, name) == Print(b, InNot, name);
      FactorIsTerm(Print(b, InNot, name) + k, m, Norm(b), k);
    }
  }

  /** A left operand of '&' is re-associated into what follows it. */
  lemma {:induction false} ConjunctReads(
    b: Boolexp, name: Dbref -> string, m: Matcher, rest: string, r: Boolexp, k: string)
    requires Readable(b, name, m) && ParseT(rest, m) == Parse(Locked(r), k)
    ensures ParseT(Print(b, InAnd, name) + ([AND_TOKEN] + rest), m) == Parse(Locked(JoinAnd(Norm(b), r)), k)
    decreases b, if b.And? then 0 else if b.Or? then 2 else 1
  {
    if b.And? {
      ConjunctReads(b.sub2, name, m, rest, r, k);
      var rest' := Print(b.sub2, InAnd, name) + ([AND_TOKEN] + rest);
      ConjunctReads(b.sub1, name, m, rest', JoinAnd(Norm(b.sub2), r), k);
      PrintAnd(b, name, [AND_TOKEN] + rest);
      JoinAndAssociative(Norm(b.sub1), Norm(b.sub2), r);
    } else {
      FactorReads(b, name, m, [AND_TOKEN] + rest);
      assert Print(b, InAnd, name) == Print(b, InNot, name);
      FactorAndTerm(Print(b, InNot, name) + ([AND_TOKEN] + rest), m, Norm(b), rest, r, k);
      NormKind(b);
    }
  }

  lemma {:induction false} ExpressionReads(b: Boolexp, name: Dbref -> string, m: Matcher, k: string)
    requires Readable(b, name, m) && Starts(k, {')'})
    ensures ParseE(Print(b, Outermost, name) + k, m) == Parse(Locked(Norm(b)), k)
    decreases b, if b.And? then 1 else if b.Or? then 0 else 2
  {
    if b.Or? {
      var rest := Print(b.sub2, Outermost, name) + k;
      ExpressionReads(b.sub2, name, m, k);
      DisjunctReads(b.sub1, name, m, rest, Norm(b.sub2), k);
      assert Print(b.sub2, InOr, name) == Print(b.sub2, Outermost, name);
      assert Print(b, InOr, name) == Print(b, Outermost, name);
      PrintOr(b, name, k);
    } else {
      TermReads(b, name, m, k);
    }
  }

  lemma {:induction false} DisjunctReads(
    b: Boolexp, name: Dbref -> string, m: Matcher, rest: string, r: Boolexp, k: string)
    requires Readable(b, name, m) && ParseE(rest, m) == Parse(Locked(r), k)
    ensures ParseE(Print(b, InOr, name) + ([OR_TOKEN] + rest), m) == Parse(Locked(JoinOr(Norm(b), r)), k)
    decreases b, if b.And? then 1 else if b.Or? then 0 else 2
  {
    if b.Or? {
      DisjunctReads(b.sub2, name, m, rest, r, k);
      var rest' := Print(b.sub2, InOr, name) + ([OR_TOKEN] + rest);
      DisjunctReads(b.sub1, name, m, rest', JoinOr(Norm(b.sub2), r), k);
      PrintOr(b, name, [OR_TOKEN] + rest);
      JoinOrAssociative(Norm(b.sub1), Norm(b.sub2), r);
    } else {
      TermReads(b, name, m, [OR_TOKEN] + rest);
      assert Print(b, InOr, name) == Print(b, InAnd, name);
      TermAndExpression(Print(b, InAnd, name) + ([OR_TOKEN] + rest), m, Norm(b), rest, r, k);
      NormKind(b);
    }
  }

  lemma NormKind(b: Boolexp)
    ensures Norm(b).And? <==> b.And?
    ensures Norm(b).Or? <==> b.Or?
  {
  }

  /** Parsing a printed lock yields its right-associated form, and uses up the text. */
  lemma ParsePrinted(b: Boolexp, name: Dbref -> string, m: Matcher)
    requires Readable(b, name, m)
    ensures ParseE(Print(b, Outermost, name), m) == Parse(Locked(Norm(b)), "")
  {
    ExpressionReads(b, name, m, "");
    assert Print(b, Outermost, name) + "" == Print(b, Outermost, name);
  }

  /** The lock itself comes back exactly when it is right-associated; one with the same meaning always does. */
  lemma ParsePrintedIff(b: Boolexp, name: Dbref -> string, m: Matcher, holds: Dbref -> bool)
    requires Readable(b, name, m)
    ensures ParseE(Print(b, Outermost, name), m).lock == Locked(b) <==> RightAssociated(b)
    ensures Passes(ParseE(Print(b, Outermost, name), m).lock, holds) == Eval(b, holds)
  {
    ParsePrinted(b, name, m);
    NormFixedIff(b);
    NormEval(b, holds);
  }

  /** Printing cannot tell a tree from its right-associated form. */
  lemma {:induction false} PrintNorm(b: Boolexp, outer: Outer, name: Dbref -> string)
    ensures Print(Norm(b), outer, name) == Print(b, outer, name)
  {
    match b
    case And(l, r) =>
      PrintNorm(l, InAnd, name);
      PrintNorm(r, InAnd, name);
      PrintJoinAnd(Norm(l), Norm(r), name);
    case Or(l, r) =>
      PrintNorm(l, InOr, name);
      PrintNorm(r, InOr, name);
      PrintJoinOr(Norm(l), Norm(r), name);
    case Not(f) => PrintNorm(f, InNot, name);
    case Const(_) =>
  }

  lemma {:induction false} PrintJoinAnd(a: Boolexp, b: Boolexp, name: Dbref -> string)
    ensures Print(JoinAnd(a, b), InAnd, name) == Print(a, InAnd, name) + [AND_TOKEN] + Print(b, InAnd, name)
  {
    if a.And? {
      PrintJoinAnd(a.sub2, b, name);
      PrintAnd(JoinAnd(a, b), name, "");
      PrintAnd(a, name, [AND_TOKEN] + Print(b, InAnd, name));
    }
  }

  lemma {:induction false} PrintJoinOr(a: Boolexp, b: Boolexp, name: Dbref -> string)
    ensures Print(JoinOr(a, b), InOr, name) == Print(a, InOr, name) + [OR_TOKEN] + Print(b, InOr, name)
  {
    if a.Or? {
      PrintJoinOr(a.sub2, b, name);
      PrintOr(JoinOr(a, b), name, "");
      PrintOr(a, name, [OR_TOKEN] + Print(b, InOr, name));
    }
  }

  /** '!' binds tighter than '&', and '&' tighter than '|'. */
  lemma LoosePrinted(x: Dbref, y: Dbref, z: Dbref, name: Dbref -> string)
    ensures Print(Or(And(Const(x), Const(y)), Not(Const(z))), Outermost, name) ==
            name(x) + "&" + name(y) + "|" + ("!" + name(z))
  {
    assert Print(And(Const(x), Const(y)), InOr, name) == name(x) + "&" + name(y);
    assert Print(Not(Const(z)), InOr, name) == "!" + name(z);
  }

  /** Parentheses are printed where that is not what is meant. */
  lemma TightPrinted(x: Dbref, y: Dbref, z: Dbref, name: Dbref -> string)
    ensures Print(And(Or(Const(x), Const(y)), Const(z)), Outermost, name) ==
            "(" + (name(x) + "|" + name(y)) + ")" + "&" + name(z)
    ensures Print(Not(And(Const(x), Const(y))), Outermost, name) == "!" + ("(" + (name(x) + "&" + name(y)) + ")")
  {
    assert Print(Or(Const(x), Const(y)), InAnd, name) == "(" + (name(x) + "|" + name(y)) + ")";
    assert Print(And(Const(x), Const(y)), InNot, name) == "(" + (name(x) + "&" + name(y)) + ")";
  }

  /** So are they read, for any three names. */
  lemma PrecedenceReads(x: Dbref, y: Dbref, z: Dbref, name: Dbref -> string, m: Matcher)
    requires Readable(Const(x), name, m) && Readable(Const(y), name, m) && Readable(Const(z), name, m)
    ensures ParseE(name(x) + "&" + name(y) + "|" + ("!" + name(z)), m) ==
            Parse(Locked(Or(And(Const(x), Const(y)), Not(Const(z)))), "")
    ensures ParseE("(" + (name(x) + "|" + name(y)) + ")" + "&" + name(z), m) ==
            Parse(Locked(And(Or(Const(x), Const(y)), Const(z))), "")
    ensures ParseE("!" + ("(" + (name(x) + "&" + name(y)) + ")"), m) ==
            Parse(Locked(Not(And(Const(x), Const(y)))), "")
  {
    LoosePrinted(x, y, z, name);
    TightPrinted(x, y, z, name);
    SampleReads(Or(And(Const(x), Const(y)), Not(Const(z))), name, m);
    SampleReads(And(Or(Const(x), Const(y)), Const(z)), name, m);
    SampleReads(Not(And(Const(x), Const(y))), name, m);
  }

  lemma SampleReads(b: Boolexp, name: Dbref -> string, m: Matcher)
    requires Readable(b, name, m) && RightAssociated(b)
    ensures ParseE(Print(b, Outermost, name), m) == Parse(Locked(b), "")
  {
    ParsePrinted(b, name, m);
    NormFixedIff(b);
  }

  /** Blanks in front are skipped. */
  lemma BlankIgnored(s: string, m: Matcher)
    ensures ParseE(" " + s, m) == ParseE(s, m)
  {
    assert (" " + s)[1..] == s && SkipSpace(" " + s) == SkipSpace(s);
    assert ParseF(" " + s, m) == ParseF(s, m);
    assert ParseT(" " + s, m) == ParseT(s, m);
  }

  /** A parenthesis that is not closed makes no lock. */
  lemma UnclosedFails(x: Dbref, name: Dbref -> string, m: Matcher)
    requires Readable(Const(x), name, m)
    ensures ParseE("(" + name(x), m).lock == Unlocked
  {
    ParsePrinted(Const(x), name, m);
    var s := "(" + name(x);
    assert s[1..] == name(x) && SkipSpace(s) == s;
    assert ParseF(s, m).lock.Unlocked?;
    assert ParseT(s, m).lock.Unlocked?;
  }

  // ---- Which names survive ----

  /** The matcher knows one object only, by the text a. */
  ghost predicate KnowsOnly(m: Matcher, a: string, t: Dbref) {
    t != NOTHING && t != AMBIGUOUS && forall s, left :: m(s, left) == if s == a then t else NOTHING
  }

  lemma {:induction false} AtomWhole(s: string)
    ensures AtomLength(s) == |s| <==> forall i :: 0 <= i < |s| ==> IsAtomChar(s[i])
  {
    if s != "" {
      AtomWhole(s[1..]);
      assert (forall i :: 0 <= i < |s| ==> IsAtomChar(s[i])) <==>
             IsAtomChar(s[0]) && forall i :: 0 <= i < |s[1..]| ==> IsAtomChar(s[1..][i]);
    }
  }

  lemma {:induction false} TrimShortens(s: string)
    ensures |TrimRight(s)| <= |s|
    ensures TrimRight(s) == s <==> s == "" || !IsSpace(s[|s| - 1])
  {
    if s != "" && IsSpace(s[|s| - 1]) {
      TrimShortens(s[..|s| - 1]);
    }
  }

  /** No part of a text shorter than a is looked up as a. */
  lemma {:induction false} ShorterFails(s: string, m: Matcher, a: string, t: Dbref)
    requires KnowsOnly(m, a, t) && |s| < |a|
    ensures ParseF(s, m).lock.Unlocked? && ParseT(s, m).lock.Unlocked? && ParseE(s, m).lock.Unlocked?
    decreases |s|
  {
    var s0 := SkipSpace(s);
    if s0 != "" && (s0[0] == '(' || s0[0] == NOT_TOKEN) {
      ShorterFails(s0[1..], m, a, t);
    } else {
      TrimShortens(s0[..AtomLength(s0)]);
    }
  }

  /** The factor parser looks a up as it stands, with nothing left over, exactly when it is clean. */
  lemma NameReads(a: string, m: Matcher, t: Dbref)
    requires a != "" && KnowsOnly(m, a, t)
    ensures if Clean(a) then ParseF(a, m) == Parse(Locked(Const(t)), "") else ParseF(a, m).lock.Unlocked?
  {
    var s0 := SkipSpace(a);
    if s0 != "" && (s0[0] == '(' || s0[0] == NOT_TOKEN) {
      ShorterFails(s0[1..], m, a, t);
    } else {
      AtomWhole(s0);
      TrimShortens(s0[..AtomLength(s0)]);
      if AtomLength(s0) == |a| {
        assert s0 == a && a[..|a|] == a && a[|a|..] == "";
      }
    }
  }

  /** A printed name is read back exactly when it is clean; any other is no lock at all. */
  lemma NameReadIff(a: string, m: Matcher, t: Dbref)
    requires a != "" && KnowsOnly(m, a, t)
    ensures ParseE(a, m) == Parse(Locked(Const(t)), "") <==> Clean(a)
    ensures !Clean(a) ==> ParseE(a, m).lock == Unlocked
  {
    NameReads(a, m, t);
  }

  /** Number and flags printed behind a name, for those who control the object, end it with ')'. */
  lemma NumberedNameFails(m: Matcher, t: Dbref)
    requires KnowsOnly(m, "Limbo(#0R)", t)
    ensures ParseE("Limbo(#0R)", m).lock == Unlocked
  {
    var a := "Limbo(#0R)";
    assert !IsAtomChar(a[|a| - 1]);
    NameReadIff(a, m, t);
  }
}

/** The lock parser and printer as stateful procedures: a moving pointer, a growing buffer and a count of nodes. */
module LockParser {
  import opened Objects
  import opened Locks
  import opened LockText

  class Parser {
    const text: string
    const find: Matcher
    var pos: nat
    /** malloc calls minus free calls. */
    var live: int

    constructor (text: string, find: Matcher, live: int)
      ensures this.text == text && this.find == find && pos == 0 && this.live == live
    {
      this.text := text;
      this.find := find;
      this.pos := 0;
      this.live := live;
    }

    ghost predicate Valid()
      reads this
    {
      pos <= |text|
    }

    ghost function Rest(): string
      requires Valid()
      reads this
    {
      text[pos..]
    }

    predicate Peek(c: char)
      reads this
    {
      pos < |text| && text[pos] == c
    }

    method SkipWhitespace()
      requires Valid()
      modifies this`pos
      ensures Valid() && Rest() == SkipSpace(old(Rest()))
    {
      while pos < |text| && IsSpace(text[pos])
        invariant Valid() && SkipSpace(Rest()) == SkipSpace(old(Rest()))
        decreases |text| - pos
      {
        assert text[pos..][1..] == text[pos + 1..];
        pos := pos + 1;
      }
    }

    /** free_boolexp frees one node per constructor. */
    method FreeBoolexp(b: Lock)
      modifies this`live
      ensures live == old(live) - Nodes(b)
      decreases Nodes(b)
    {
      match b
      case Unlocked =>
      case Locked(And(l, r)) =>
        FreeBoolexp(Locked(l));
        FreeBoolexp(Locked(r));
        live := live - 1;
      case Locked(Or(l, r)) =>
        FreeBoolexp(Locked(l));
        FreeBoolexp(Locked(r));
        live := live - 1;
      case Locked(Not(s)) =>
        FreeBoolexp(Locked(s));
        live := live - 1;
      case Locked(Const(_)) =>
        live := live - 1;
    }

    /** The name under the pointer, without trailing blanks. */
    method ReadName() returns (name: string)
      requires Valid()
      modifies this`pos
      ensures Valid()
      ensures var s := old(Rest()); var n := AtomLength(s); Rest() == s[n..] && name == TrimRight(s[..n])
    {
      ghost var start := pos;
      ghost var s := Rest();
      name := "";
      while pos < |text| && IsAtomChar(text[pos])
        invariant start <= pos <= |text| && name == text[start..pos]
        invariant AtomLength(s) == pos - start + AtomLength(Rest())
        decreases |text| - pos
      {
        assert text[pos..][1..] == text[pos + 1..];
        name := name + [text[pos]];
        pos := pos + 1;
      }
      assert name == s[..AtomLength(s)];
      while name != "" && IsSpace(name[|name| - 1])
        invariant TrimRight(name) == TrimRight(s[..AtomLength(s)])
        decreases |name|
      {
        name := name[..|name| - 1];
      }
    }

    /** Every allocation is in the returned tree or freed again. */
    method ParseBoolexpF() returns (b: Lock)
      requires Valid()
      modifies this`pos, this`live
      ensures Valid() && Parse(b, Rest()) == ParseF(old(Rest()), find)
      ensures live == old(live) + Nodes(b)
      decreases |text| - pos, 0
    {
      SkipWhitespace();
      ghost var s := Rest();
      if Peek('(') {
        pos := pos + 1;
        assert Rest() == s[1..];
        b := ParseBoolexpE();
        b := CloseParenthesis(b);
      } else if Peek(NOT_TOKEN) {
        pos := pos + 1;
        assert Rest() == s[1..];
        live := live + 1;
        b := ParseBoolexpF();
        if b == Unlocked {
          live := live - 1;
        } else {
          b := Locked(Not(b.tree));
        }
      } else {
        b := ParseName();
      }
    }

    /** Behind a parenthesised lock; without the closing parenthesis it is freed. */
    method CloseParenthesis(inner: Lock) returns (b: Lock)
      requires Valid()
      modifies this`pos, this`live
      ensures Valid() && live == old(live) + Nodes(b) - Nodes(inner)
      ensures var s := SkipSpace(old(Rest()));
        if inner.Unlocked? || s == "" then b == Unlocked && Rest() == s
        else Rest() == s[1..] && b == if s[0] == ')' then inner else Unlocked
    {
      b := inner;
      SkipWhitespace();
      if b == Unlocked {
        return;
      }
      ghost var s := Rest();
      var closed := Peek(')');
      if pos < |text| {
        pos := pos + 1;
        assert Rest() == s[1..];
      }
      if !closed {
        FreeBoolexp(b);
        b := Unlocked;
      }
    }

    method ParseName() returns (b: Lock)
      requires Valid()
      modifies this`pos, this`live
      ensures Valid() && live == old(live) + Nodes(b)
      ensures var s := old(Rest()); var n := AtomLength(s);
        var thing := find(TrimRight(s[..n]), |s|);
        Rest() == s[n..] && b == if thing == NOTHING || thing == AMBIGUOUS then Unlocked else Locked(Const(thing))
    {
      var left := |text| - pos;
      var name := ReadName();
      live := live + 1;
      var thing := find(name, left);
      if thing == NOTHING {
        live := live - 1;
        b := Unlocked;
      } else if thing == AMBIGUOUS {
        live := live - 1;
        b := Unlocked;
      } else {
        b := Locked(Const(thing));
      }
    }

    method ParseBoolexpT() returns (b: Lock)
      requires Valid()
      modifies this`pos, this`live
      ensures Valid() && Parse(b, Rest()) == ParseT(old(Rest()), find)
      ensures live == old(live) + Nodes(b)
      decreases |text| - pos, 1
    {
      b := ParseBoolexpF();
      if b == Unlocked {
        return;
      }
      SkipWhitespace();
      ghost var s := Rest();
      if Peek(AND_TOKEN) {
        pos := pos + 1;
        assert Rest() == s[1..];
        live := live + 1;
        var b2 := ParseBoolexpT();
        if b2 == Unlocked {
          FreeBoolexp(b);
          live := live - 1;
          return Unlocked;
        }
        b := Locked(And(b.tree, b2.tree));
      }
    }

    method ParseBoolexpE() returns (b: Lock)
      requires Valid()
      modifies this`pos, this`live
      ensures Valid() && Parse(b, Rest()) == ParseE(old(Rest()), find)
      ensures live == old(live) + Nodes(b)
      decreases |text| - pos, 2
    {
      b := ParseBoolexpT();
      if b == Unlocked {
        return;
      }
      SkipWhitespace();
      ghost var s := Rest();
      if Peek(OR_TOKEN) {
        pos := pos + 1;
        assert Rest() == s[1..];
        live := live + 1;
        var b2 := ParseBoolexpE();
        if b2 == Unlocked {
          FreeBoolexp(b);
          live := live - 1;
          return Unlocked;
        }
        b := Locked(Or(b.tree, b2.tree));
      }
    }
  }

  /** parse_boolexp; text after a complete expression is ignored, as in the source. */
  method ParseBoolexp(text: string, find: Matcher, live: int) returns (b: Lock, live': int)
    ensures b == ParseE(text, find).lock
    ensures live' == live + Nodes(b)
  {
    var p := new Parser(text, find, live);
    assert p.Rest() == text;
    b := p.ParseBoolexpE();
    live' := p.live;
  }

  class Printer {
    var buf: string

    constructor ()
      ensures buf == ""
    {
      buf := "";
    }

    method UnparseBoolexp1(b: Boolexp, outer: Outer, name: Dbref -> string)
      modifies this
      ensures buf == old(buf) + Print(b, outer, name)
      decreases b, 1
    {
      match b
      case And(l, r) =>
        if outer == InNot {
          buf := buf + "(";
          UnparsePair(b, AND_TOKEN, name);
          buf := buf + ")";
        } else {
          UnparsePair(b, AND_TOKEN, name);
        }
      case Or(l, r) =>
        if outer == InNot || outer == InAnd {
          buf := buf + "(";
          UnparsePair(b, OR_TOKEN, name);
          buf := buf + ")";
        } else {
          UnparsePair(b, OR_TOKEN, name);
        }
      case Not(s) =>
        buf := buf + [NOT_TOKEN];
        UnparseBoolexp1(s, InNot, name);
      case Const(t) =>
        buf := buf + name(t);
    }

    /** Both operands and the token between them. */
    method UnparsePair(b: Boolexp, token: char, name: Dbref -> string)
      requires (b.And? && token == AND_TOKEN) || (b.Or? && token == OR_TOKEN)
      modifies this
      ensures var outer := if b.And? then InAnd else InOr;
        buf == old(buf) + (Print(b.sub1, outer, name) + [token] + Print(b.sub2, outer, name))
      decreases b, 0
    {
      UnparseBoolexp1(b.sub1, if b.And? then InAnd else InOr, name);
      buf := buf + [token];
      UnparseBoolexp1(b.sub2, if b.And? then InAnd else InOr, name);
    }
  }

  method UnparseBoolexp(key: Lock, name: Dbref -> string) returns (text: string)
    ensures text == if key.Unlocked? then "*UNLOCKED*" else Print(key.tree, Outermost, name)
  {
    if key.Unlocked? {
      return "*UNLOCKED*";
    }
    var p := new Printer();
    p.UnparseBoolexp1(key.tree, Outermost, name);
    text := p.buf;
  }
}

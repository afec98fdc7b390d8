/**
 The database record of src/db.h: object references, flag words, lock trees and
 the object struct that the other modules read and write.
 */
module Objects {

  /** An index into the database, or one of the special references below. */
  type Dbref = int

  const NOTHING: Dbref := -1
  const AMBIGUOUS: Dbref := -2
  const HOME: Dbref := -3
  const GOD: Dbref := 1
  const PLAYER_START: Dbref := 0

  const TYPE_ROOM := 0x0
  const TYPE_THING := 0x1
  const TYPE_EXIT := 0x2
  const TYPE_PLAYER := 0x3
  const NOTYPE := 0x7
  const TYPE_RANGE := 0x8

  const ANTILOCK := 0x8
  const WIZARD := 0x10
  const LINK_OK := 0x20
  const DARK := 0x40
  const TEMPLE := 0x80
  const STICKY := 0x100
  const HAVEN := 0x400
  const ABODE := 0x800
  const ROBOT := 0x4000
  const UNWANTED := 0x8000

  /** A lock tree; the null pointer TRUE_BOOLEXP is `Unlocked` and never occurs inside a tree. */
  datatype Boolexp =
    | And(sub1: Boolexp, sub2: Boolexp)
    | Or(sub1: Boolexp, sub2: Boolexp)
    | Not(sub1: Boolexp)
    | Const(thing: Dbref)

  datatype Lock = Unlocked | Locked(tree: Boolexp)

  /** The struct of src/db.h. A null string pointer is the empty string. */
  datatype Object = Object(
    name: string,
    description: string,
    location: Dbref,
    contents: Dbref,
    exits: Dbref,
    next: Dbref,
    key: Lock,
    failMessage: string,
    succMessage: string,
    ofail: string,
    osuccess: string,
    owner: Dbref,
    pennies: int,
    flags: int,
    password: string,
    created: int,
    lastused: int,
    usecnt: int)

  /** The low three bits of a flag word, also for negative (two's complement) words. */
  function Typeof(flags: int): int {
    flags % TYPE_RANGE
  }

  /** Whether the single-bit flag f is set. */
  predicate Flag(flags: int, f: int)
    requires f > 0
  {
    flags / f % 2 == 1
  }

  /** Flags above the type bits leave the type alone. */
  function SetFlag(flags: int, f: int): (r: int)
    requires f > 0
    ensures f % TYPE_RANGE == 0 ==> Typeof(r) == Typeof(flags)
  {
    TypeKept(flags, f);
    if Flag(flags, f) then flags else flags + f
  }

  function ClearFlag(flags: int, f: int): (r: int)
    requires f > 0
    ensures f % TYPE_RANGE == 0 ==> Typeof(r) == Typeof(flags)
  {
    TypeKept(flags, -f);
    if Flag(flags, f) then flags - f else flags
  }

  lemma TypeKept(flags: int, step: int)
    ensures step % TYPE_RANGE == 0 ==> Typeof(flags + step) == Typeof(flags)
  {
  }

  lemma Quotient(low: nat, f: int, q: int)
    requires low < f
    ensures (low + f * q) / f == q
  {
    var x := low + f * q;
    var d := x / f;
    assert x == f * d + x % f;
    assert f * (q - d) == f * q - f * d && f * (d - q) == f * d - f * q;
    if d < q {
      Multiple(f, q - d);
    } else if d > q {
      Multiple(f, d - q);
    }
  }

  lemma {:induction false} Multiple(f: nat, k: nat)
    requires k > 0
    ensures f * k >= f
  {
    if k > 1 {
      Multiple(f, k - 1);
      assert f * k == f * (k - 1) + f;
    }
  }

  /** A flag is one bit of the word, whatever is below it and above it. */
  lemma FlagIsBit(low: nat, f: int, bit: nat, high: int)
    requires low < f && bit < 2
    ensures Flag(low + f * (bit + 2 * high), f) <==> bit == 1
  {
    Quotient(low, f, bit + 2 * high);
  }

  /** Which bit, as in src/db.h; the type is below them all. */
  lemma FlagNumbers(kind: nat, high: int)
    requires kind < 8
    ensures [ANTILOCK, WIZARD, LINK_OK, DARK, TEMPLE, STICKY] == [8, 16, 32, 64, 128, 256]
    ensures [HAVEN, ABODE, ROBOT, UNWANTED] == [1024, 2048, 16384, 32768]
    ensures Typeof(kind + 8 * high) == kind
    ensures [TYPE_ROOM, TYPE_THING, TYPE_EXIT, TYPE_PLAYER, NOTYPE] == [0, 1, 2, 3, 7]
  {
  }
}

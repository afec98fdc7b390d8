/** What a lock means, and the right-associated form in which the user parser builds locks. */
module Locks {
  import opened Objects

  // ---- src/boolexp.c: eval_boolexp, given which objects count as keys ----

  predicate Eval(b: Boolexp, holds: Dbref -> bool) {
    match b
    case And(l, r) => Eval(l, holds) && Eval(r, holds)
    case Or(l, r) => Eval(l, holds) || Eval(r, holds)
    case Not(s) => !Eval(s, holds)
    case Const(t) => holds(t)
  }

  predicate Passes(key: Lock, holds: Dbref -> bool) {
    key.Locked? ==> Eval(key.tree, holds)
  }

  predicate WithoutNot(b: Boolexp) {
    match b
    case And(l, r) => WithoutNot(l) && WithoutNot(r)
    case Or(l, r) => WithoutNot(l) && WithoutNot(r)
    case Not(_) => false
    case Const(_) => true
  }

  function Constants(b: Boolexp): set<Dbref> {
    match b
    case And(l, r) => Constants(l) + Constants(r)
    case Or(l, r) => Constants(l) + Constants(r)
    case Not(s) => Constants(s)
    case Const(t) => {t}
  }

  /** More keys never close a lock without '!'. */
  lemma {:induction false} MoreKeysOpen(b: Boolexp, few: Dbref -> bool, many: Dbref -> bool)
    requires WithoutNot(b) && (forall t :: few(t) ==> many(t)) && Eval(b, few)
    ensures Eval(b, many)
  {
    if b.And? {
      MoreKeysOpen(b.sub1, few, many);
      MoreKeysOpen(b.sub2, few, many);
    } else if b.Or? {
      MoreKeysOpen(if Eval(b.sub1, few) then b.sub1 else b.sub2, few, many);
    }
  }

  /** All its constants open it, and without any of them it is shut. */
  lemma {:induction false} AllOrNone(b: Boolexp, holds: Dbref -> bool)
    requires WithoutNot(b)
    ensures (forall t :: t in Constants(b) ==> holds(t)) ==> Eval(b, holds)
    ensures (forall t :: t in Constants(b) ==> !holds(t)) ==> !Eval(b, holds)
  {
    if b.And? || b.Or? {
      AllOrNone(b.sub1, holds);
      AllOrNone(b.sub2, holds);
    }
  }

  /** Of any lock, nothing but its constants counts. */
  lemma {:induction false} OnlyConstantsCount(b: Boolexp, one: Dbref -> bool, other: Dbref -> bool)
    requires forall t :: t in Constants(b) ==> one(t) == other(t)
    ensures Eval(b, one) == Eval(b, other)
  {
    match b
    case Not(s) => OnlyConstantsCount(s, one, other);
    case Const(_) =>
    case _ =>
      OnlyConstantsCount(b.sub1, one, other);
      OnlyConstantsCount(b.sub2, one, other);
  }

  /** The number of struct boolexp allocations a tree takes. */
  function Nodes(key: Lock): nat {
    match key
    case Unlocked => 0
    case Locked(b) => Size(b)
  }

  function Size(b: Boolexp): nat {
    match b
    case And(l, r) => 1 + Size(l) + Size(r)
    case Or(l, r) => 1 + Size(l) + Size(r)
    case Not(s) => 1 + Size(s)
    case Const(_) => 1
  }

  // ---- Right association ----

  /** No conjunction is the left operand of a conjunction, and no disjunction of a disjunction. */
  predicate RightAssociated(b: Boolexp) {
    match b
    case And(l, r) => !l.And? && RightAssociated(l) && RightAssociated(r)
    case Or(l, r) => !l.Or? && RightAssociated(l) && RightAssociated(r)
    case Not(s) => RightAssociated(s)
    case Const(_) => true
  }

  function JoinAnd(a: Boolexp, b: Boolexp): (r: Boolexp)
    ensures RightAssociated(a) && RightAssociated(b) ==> RightAssociated(r)
    ensures r.And?
    ensures a.And? ==> r.sub1 == a.sub1
  {
    match a
    case And(l, r) => And(l, JoinAnd(r, b))
    case _ => And(a, b)
  }

  function JoinOr(a: Boolexp, b: Boolexp): (r: Boolexp)
    ensures RightAssociated(a) && RightAssociated(b) ==> RightAssociated(r)
    ensures r.Or?
    ensures a.Or? ==> r.sub1 == a.sub1
  {
    match a
    case Or(l, r) => Or(l, JoinOr(r, b))
    case _ => Or(a, b)
  }

  /** The right-associated tree with the same operands in the same order. */
  function Norm(b: Boolexp): (r: Boolexp)
    ensures RightAssociated(r)
  {
    match b
    case And(l, r) => JoinAnd(Norm(l), Norm(r))
    case Or(l, r) => JoinOr(Norm(l), Norm(r))
    case Not(s) => Not(Norm(s))
    case Const(_) => b
  }

  lemma {:induction false} JoinAndAssociative(a: Boolexp, b: Boolexp, c: Boolexp)
    ensures JoinAnd(JoinAnd(a, b), c) == JoinAnd(a, JoinAnd(b, c))
  {
    if a.And? {
      JoinAndAssociative(a.sub2, b, c);
    }
  }

  lemma {:induction false} JoinOrAssociative(a: Boolexp, b: Boolexp, c: Boolexp)
    ensures JoinOr(JoinOr(a, b), c) == JoinOr(a, JoinOr(b, c))
  {
    if a.Or? {
      JoinOrAssociative(a.sub2, b, c);
    }
  }

  lemma {:induction false} JoinEval(a: Boolexp, b: Boolexp, holds: Dbref -> bool)
    ensures Eval(JoinAnd(a, b), holds) == (Eval(a, holds) && Eval(b, holds))
    ensures Eval(JoinOr(a, b), holds) == (Eval(a, holds) || Eval(b, holds))
  {
    if a.And? || a.Or? {
      JoinEval(a.sub2, b, holds);
    }
  }

  /** Normalising opens the same locks, for every player and inventory. */
  lemma {:induction false} NormEval(b: Boolexp, holds: Dbref -> bool)
    ensures Eval(Norm(b), holds) == Eval(b, holds)
  {
    match b
    case And(l, r) =>
      NormEval(l, holds);
      NormEval(r, holds);
      JoinEval(Norm(l), Norm(r), holds);
    case Or(l, r) =>
      NormEval(l, holds);
      NormEval(r, holds);
      JoinEval(Norm(l), Norm(r), holds);
    case Not(s) => NormEval(s, holds);
    case Const(_) =>
  }

  /** The normal forms are exactly the right-associated trees. */
  lemma {:induction false} NormFixedIff(b: Boolexp)
    ensures Norm(b) == b <==> RightAssociated(b)
  {
    if RightAssociated(b) {
      match b
      case And(l, r) => NormFixedIff(l); NormFixedIff(r);
      case Or(l, r) => NormFixedIff(l); NormFixedIff(r);
      case Not(s) => NormFixedIff(s);
      case Const(_) =>
    }
  }

  lemma NormIdempotent(b: Boolexp)
    ensures Norm(Norm(b)) == Norm(b)
  {
    NormFixedIff(Norm(b));
  }
}

/** What structural equality and the removal of common operands amount to (expr_eq, expr_eliminate_eq in
    scripts/config/expr.c): equality up to order and grouping of operands, and the difference of the operands. */
module Matching {
  import opened Expressions
  import opened Equality

  /** An expression up to order and grouping: each AND or OR is the multiset of its operands. */
  datatype Canon = CSym(s: Symbol) | CCmp(rel: Relation, a: Symbol, b: Symbol) | CNot(c: Canon)
                 | CNode(op: Connective, operands: multiset<Canon>)

  function CanonOf(e: Expr): Canon
    decreases Size(e), 0
  {
    match e
    case Sym(s) => CSym(s)
    case Cmp(rel, a, b) => CCmp(rel, a, b)
    case Not(x) => CNot(CanonOf(x))
    case Node(op, l, r) => CNode(op, Operands(op, l) + Operands(op, r))
  }

  /** The operands on one level; the unit of the connective is no operand. */
  function Operands(op: Connective, e: Expr): multiset<Canon>
    decreases Size(e), 1
  {
    if Is(e, op) then Operands(op, e.l) + Operands(op, e.r)
    else if e == Unit(op) then multiset{}
    else multiset{CanonOf(e)}
  }

  /** No operand of an AND or OR is the constant y or n. */
  predicate Free(e: Expr) {
    match e
    case Not(x) => Free(x)
    case Node(_, l, r) => !IsYN(l) && !IsYN(r) && Free(l) && Free(r)
    case _ => true
  }

  /** On the level of `op`, every operand is free of constants or the unit that took the place of one. */
  predicate Reduced(op: Connective, e: Expr) {
    if Is(e, op) then Reduced(op, e.l) && Reduced(op, e.r) else e == Unit(op) || (!IsYN(e) && Free(e))
  }

  lemma {:induction false} FreeReduced(op: Connective, e: Expr)
    requires Free(e) && !IsYN(e)
    ensures Reduced(op, e)
  {
    if Is(e, op) {
      FreeReduced(op, e.l);
      FreeReduced(op, e.r);
    }
  }

  // ---------- one operand against a level ----------

  /** On each side is left what the other side does not have, counted one to one. */
  predicate Cancelled(op: Connective, a: Expr, b: Expr, a': Expr, b': Expr) {
    && Reduced(op, a') && Reduced(op, b')
    && Operands(op, a') == Operands(op, a) - Operands(op, b)
    && Operands(op, b') == Operands(op, b) - Operands(op, a)
  }

  lemma CancelledNode(op: Connective, x: Expr, x1: Expr, x2: Expr, b: Expr, l: Expr, r: Expr)
    requires Is(b, op)
    ensures Cancelled(op, x, b.l, x1, l) && Cancelled(op, x1, b.r, x2, r) ==> Cancelled(op, x, b, x2, Node(op, l, r))
  {
    var p, q, m := Operands(op, b.l), Operands(op, b.r), Operands(op, x);
    if Cancelled(op, x, b.l, x1, l) && Cancelled(op, x1, b.r, x2, r) {
      assert Operands(op, x2) == m - p - q && Operands(op, Node(op, l, r)) == (p - m) + (q - (m - p));
      assert Operands(op, b) == p + q && Reduced(op, Node(op, l, r));
      TakenInTurn(p, q, m);
    }
  }

  lemma TakenInTurn<T>(p: multiset<T>, q: multiset<T>, b: multiset<T>)
    ensures (p - b) + (q - (b - p)) == p + q - b
    ensures b - p - q == b - (p + q)
  {
  }

  /** An operand finds an equal one on the other side exactly when there is one, and both become the unit. */
  lemma {:induction false} ElimOperand(op: Connective, x: Expr, b: Expr)
    requires !Is(x, op) && Reduced(op, x) && Reduced(op, b)
    ensures var (x', b') := ElimCommon(op, x, b); Cancelled(op, x, b, x', b') && !Is(x', op)
    decreases Size(x) + Size(b), if Is(b, op) then 0 else 2, 0
  {
    if Is(b, op) {
      var (x1, l) := ElimCommon(op, x, b.l);
      var (x2, r) := ElimCommon(op, x1, b.r);
      ElimOperand(op, x, b.l);
      ElimOperand(op, x1, b.r);
      CancelledNode(op, x, x1, x2, b, l, r);
      assert ElimCommon(op, x, b) == (x2, Node(op, l, r));
    } else {
      if x != Unit(op) && b != Unit(op) { EqExact(x, b); }
      ElimPair(op, x, b);
    }
  }

  lemma ElimPair(op: Connective, x: Expr, b: Expr)
    requires !Is(x, op) && !Is(b, op) && Reduced(op, x) && Reduced(op, b)
    requires x != Unit(op) && b != Unit(op) ==> (Eq(x, b) <==> CanonOf(x) == CanonOf(b))
    ensures var (x', b') := ElimCommon(op, x, b); Cancelled(op, x, b, x', b') && !Is(x', op)
  {
    if x == Unit(op) || b == Unit(op) {
      assert ElimCommon(op, x, b) == (x, b) by { assert !Eq(x, b) || x == b; }
    } else {
      SinglePair(op, x, b);
      assert ElimCommon(op, x, b) == if Eq(x, b) then (Unit(op), Unit(op)) else (x, b);
    }
  }

  lemma SinglePair(op: Connective, x: Expr, b: Expr)
    requires !Is(x, op) && !Is(b, op) && Reduced(op, x) && Reduced(op, b) && x != Unit(op) && b != Unit(op)
    ensures !IsYN(x) && !IsYN(b)
    ensures if CanonOf(x) == CanonOf(b) then Cancelled(op, x, b, Unit(op), Unit(op)) else Cancelled(op, x, b, x, b)
  {
    var m, n := CanonOf(x), CanonOf(b);
    assert m != n ==> multiset{m} - multiset{n} == multiset{m} && multiset{n} - multiset{m} == multiset{n};
  }

  /** What is left on each side is what the other side does not have, counted one to one. */
  lemma {:induction false} ElimLevels(op: Connective, a: Expr, b: Expr)
    requires Reduced(op, a) && Reduced(op, b)
    ensures var (a', b') := ElimCommon(op, a, b); Cancelled(op, a, b, a', b')
    decreases Size(a) + Size(b), if Is(a, op) || Is(b, op) then 0 else 2, 1
  {
    if Is(a, op) {
      var (l, b1) := ElimCommon(op, a.l, b);
      var (r, b2) := ElimCommon(op, a.r, b1);
      ElimLevels(op, a.l, b);
      ElimLevels(op, a.r, b1);
      CancelledNode(op, b, b1, b2, a, l, r);
      assert ElimCommon(op, a, b) == (Node(op, l, r), b2);
    } else {
      ElimOperand(op, a, b);
    }
  }

  /** Dropping the units leaves the unit, when there is no operand, or the operands. */
  lemma {:induction false} YnLevel(op: Connective, e: Expr)
    requires Reduced(op, e)
    ensures var r := EliminateYn(e);
      && Reduced(op, r) && Operands(op, r) == Operands(op, e)
      && (Operands(op, e) == multiset{} <==> r == Unit(op))
  {
    if Is(e, op) {
      YnLevel(op, e.l);
      YnLevel(op, e.r);
    } else if e != Unit(op) {
      FreeKept(e);
    }
  }

  lemma {:induction false} FreeKept(e: Expr)
    requires Free(e)
    ensures EliminateYn(e) == e
  {
    if e.Node? {
      FreeKept(e.l);
      FreeKept(e.r);
    }
  }

  // ---------- equality ----------

  /** Without constant operands, two expressions are found equal if and only if they differ in the order and grouping
      of operands only. */
  lemma {:induction false} EqExact(a: Expr, b: Expr)
    requires Free(a) && Free(b)
    ensures Eq(a, b) <==> CanonOf(a) == CanonOf(b)
    decreases Size(a) + Size(b), 1, 1
  {
    match a {
      case Not(x) => if b.Not? { EqExact(x, b.e); }
      case Node(op, l, r) => if Is(b, op) { EqNodes(op, a, b); }
      case _ =>
    }
  }

  lemma {:induction false} EqNodes(op: Connective, a: Expr, b: Expr)
    requires Is(a, op) && Is(b, op) && Free(a) && Free(b)
    ensures Eq(a, b) <==> CanonOf(a) == CanonOf(b)
    decreases Size(a) + Size(b), 1, 0
  {
    FreeReduced(op, a);
    FreeReduced(op, b);
    var (a', b') := ElimCommon(op, a, b);
    ElimLevels(op, a, b);
    YnLevel(op, a');
    YnLevel(op, b');
    SameRest(Operands(op, a), Operands(op, b), EliminateYn(a'), EliminateYn(b'), op);
  }

  lemma SameRest(p: multiset<Canon>, q: multiset<Canon>, r: Expr, s: Expr, op: Connective)
    requires Operands(op, r) == p - q && Operands(op, s) == q - p
    requires (p - q == multiset{} <==> r == Unit(op)) && (q - p == multiset{} <==> s == Unit(op))
    ensures r.Sym? && r == s <==> p == q
  {
    assert p - q == multiset{} && q - p == multiset{} <==> p == q;
    if r == s {
      assert (p - q) * (q - p) == multiset{};
    }
  }

  // ---------- the superset test ----------

  /** A constant on the other side stays. */
  lemma {:induction false} ConstantStays(op: Connective, a: Expr, b: Expr)
    requires IsYN(b)
    ensures ElimCommon(op, a, b).1 == b
  {
    if Is(a, op) {
      ConstantStays(op, a.l, b);
      ConstantStays(op, a.r, b);
    }
  }

  /** Whatever the other side is, what is left has the unit for constant only. */
  lemma {:induction false} StaysReduced(op: Connective, a: Expr, b: Expr)
    requires Reduced(op, b)
    ensures var c := ElimCommon(op, a, b).1; Reduced(op, c) && (!Is(b, op) ==> c == b || c == Unit(op))
    decreases Size(a) + Size(b)
  {
    if Is(a, op) {
      StaysReduced(op, a.l, b);
      StaysReduced(op, a.r, ElimCommon(op, a.l, b).1);
    } else if Is(b, op) {
      StaysReduced(op, a, b.l);
      StaysReduced(op, ElimCommon(op, a, b.l).0, b.r);
    }
  }

  /** One operand takes one at most. */
  lemma {:induction false} OneTakesOne(op: Connective, x: Expr, b: Expr)
    requires !Is(x, op) && Reduced(op, b)
    ensures var (x', b') := ElimCommon(op, x, b);
      && Reduced(op, b') && !Is(x', op)
      && ((x' == x && b' == b) || (x' == Unit(op) && |Operands(op, b')| + 1 == |Operands(op, b)|))
    decreases Size(b)
  {
    if Is(b, op) {
      var (x1, l) := ElimCommon(op, x, b.l);
      var (x2, r) := ElimCommon(op, x1, b.r);
      OneTakesOne(op, x, b.l);
      OneTakesOne(op, x1, b.r);
      assert ElimCommon(op, x, b) == (x2, Node(op, l, r));
      if x1 == Unit(op) { UnitTakesNone(op, b.r); }
    }
  }

  lemma {:induction false} UnitTakesNone(op: Connective, b: Expr)
    requires Reduced(op, b)
    ensures ElimCommon(op, Unit(op), b) == (Unit(op), b)
  {
    if Is(b, op) {
      UnitTakesNone(op, b.l);
      UnitTakesNone(op, b.r);
    } else {
      assert Eq(Unit(op), b) ==> b == Unit(op);
    }
  }

  lemma {:induction false} SomeOperand(op: Connective, b: Expr)
    requires Free(b) && !IsYN(b)
    ensures |Operands(op, b)| >= if Is(b, op) then 2 else 1
  {
    if Is(b, op) {
      SomeOperand(op, b.l);
      SomeOperand(op, b.r);
    }
  }

  /** The superset test, without constant operands: nothing but y is left of `b` if and only if it is y, or `a` is an
      AND and has every operand of `b`, counted one to one. */
  lemma SupersetExact(a: Expr, b: Expr)
    requires Free(a) && Free(b)
    ensures EliminateEq(a, b).1 == Sym(SYM_YES) <==>
      b == Sym(SYM_YES) || (Is(a, AndOp) && Operands(AndOp, b) <= Operands(AndOp, a))
  {
    if IsYN(b) {
      SupersetOfConstant(a, b);
    } else {
      FreeReduced(AndOp, b);
      FreeReduced(OrOp, b);
      if Is(a, AndOp) { SupersetOfAnd(a, b); } else { SupersetOfOther(a, b); }
    }
  }

  lemma SupersetOfConstant(a: Expr, b: Expr)
    requires Free(a) && IsYN(b)
    ensures EliminateEq(a, b).1 == b
    ensures Is(a, AndOp) && Operands(AndOp, b) <= Operands(AndOp, a) ==> b == Sym(SYM_YES)
  {
    if a.Node? { ConstantStays(a.op, a, b); }
    if Is(a, AndOp) && b == Sym(SYM_NO) {
      NoConstant(AndOp, a, SYM_NO);
      assert CSym(SYM_NO) in Operands(AndOp, b);
    }
  }

  lemma {:induction false} NoConstant(op: Connective, a: Expr, c: Symbol)
    requires Free(a) && !IsYN(a) && IsYN(Sym(c))
    ensures CSym(c) !in Operands(op, a)
  {
    if Is(a, op) {
      NoConstant(op, a.l, c);
      NoConstant(op, a.r, c);
    }
  }

  lemma SupersetOfAnd(a: Expr, b: Expr)
    requires Free(a) && Free(b) && Is(a, AndOp) && !IsYN(b) && Reduced(AndOp, b) && Reduced(OrOp, b)
    ensures EliminateEq(a, b).1 == Sym(SYM_YES) <==> Operands(AndOp, b) <= Operands(AndOp, a)
  {
    var (a1, b1) := ElimCommon(AndOp, a, b);
    AndLeaves(a, b);
    AfterAnd(a, b);
    RestOfAnd(a1, b1);
  }

  lemma AndLeaves(a: Expr, b: Expr)
    requires Free(a) && Is(a, AndOp) && Reduced(AndOp, b) && Reduced(OrOp, b)
    ensures var b1 := ElimCommon(AndOp, a, b).1;
      && Reduced(AndOp, b1) && (Is(b1, OrOp) ==> Reduced(OrOp, b1))
      && (Operands(AndOp, b1) == multiset{} <==> Operands(AndOp, b) <= Operands(AndOp, a))
  {
    FreeReduced(AndOp, a);
    ElimLevels(AndOp, a, b);
    NothingLeft(Operands(AndOp, b), Operands(AndOp, a));
    StaysReduced(AndOp, a, b);
  }

  lemma AfterAnd(a: Expr, b: Expr)
    requires Is(a, AndOp)
    ensures var (a1, b1) := ElimCommon(AndOp, a, b);
      EliminateEq(a, b).1 == EliminateYn(if Is(b1, OrOp) then ElimCommon(OrOp, a1, b1).1 else b1)
  {
  }

  lemma NothingLeft<T>(p: multiset<T>, q: multiset<T>)
    ensures p - q == multiset{} <==> p <= q
  {
    if p - q == multiset{} {
      forall c ensures p[c] <= q[c] { assert (p - q)[c] == 0; }
    } else {
      var c :| c in p - q;
      assert (p - q)[c] > 0 && p[c] > q[c];
    }
  }

  lemma RestOfAnd(a1: Expr, b1: Expr)
    requires Reduced(AndOp, b1) && (Is(b1, OrOp) ==> Reduced(OrOp, b1))
    ensures EliminateYn(if Is(b1, OrOp) then ElimCommon(OrOp, a1, b1).1 else b1) == Sym(SYM_YES)
      <==> Operands(AndOp, b1) == multiset{}
  {
    if Is(b1, OrOp) {
      StaysReduced(OrOp, a1, b1);
      YnLevel(OrOp, ElimCommon(OrOp, a1, b1).1);
    } else {
      YnLevel(AndOp, b1);
    }
  }

  lemma SupersetOfOther(a: Expr, b: Expr)
    requires Free(a) && Free(b) && !Is(a, AndOp) && !IsYN(b) && Reduced(AndOp, b) && Reduced(OrOp, b)
    ensures EliminateEq(a, b).1 != Sym(SYM_YES)
  {
    var (a1, b1) := if a.Node? then ElimCommon(OrOp, a, b) else (a, b);
    if a.Node? { StaysReduced(OrOp, a, b); }
    if Is(b1, AndOp) {
      assert b1 == b && !Is(a1, AndOp);
      OneTakesOne(AndOp, a1, b);
      SomeOperand(AndOp, b);
      YnLevel(AndOp, ElimCommon(AndOp, a1, b).1);
    } else if Is(b1, OrOp) {
      StaysReduced(OrOp, a1, b1);
      YnLevel(OrOp, b1);
      YnLevel(OrOp, ElimCommon(OrOp, a1, b1).1);
    }
  }

  // ---------- with constant operands ----------

  /** Constant operands are dropped only after the matching, and what is then left is compared only if it is a single
      symbol. So `A || n` matches `A` when it is the one operand left, and not when there are two. */
  lemma EqNotTransitive(a: Symbol, b: Symbol)
    requires a != b && !IsYN(Sym(a)) && !IsYN(Sym(b))
    ensures Eq(Node(AndOp, OrNo(a), OrNo(b)), Node(AndOp, Sym(a), OrNo(b)))
    ensures Eq(Node(AndOp, Sym(a), OrNo(b)), Node(AndOp, Sym(a), Sym(b)))
    ensures !Eq(Node(AndOp, OrNo(a), OrNo(b)), Node(AndOp, Sym(a), Sym(b)))
  {
    var x, y, p, q, u := Sym(a), Sym(b), OrNo(a), OrNo(b), Unit(AndOp);
    OrNoEq(a);
    OrNoEq(b);
    OrNoDiffer(a, b);
    TwoOnTwo(p, q, x, q);
    assert EliminateYn(Node(AndOp, p, u)) == x == EliminateYn(Node(AndOp, x, u));
    TwoOnTwo(x, q, x, y);
    assert EliminateYn(Node(AndOp, u, q)) == y == EliminateYn(Node(AndOp, u, y));
    TwoOnTwo(p, q, x, y);
    assert EliminateYn(Node(AndOp, p, q)) == Node(AndOp, x, y);
  }

  /** The leaves of `l1 && r1` against those of `l2 && r2`, where only leaves in the same place may be equal. */
  lemma TwoOnTwo(l1: Expr, r1: Expr, l2: Expr, r2: Expr)
    requires !Is(l1, AndOp) && !Is(r1, AndOp) && !Is(l2, AndOp) && !Is(r2, AndOp)
    requires !Eq(l1, r2) && !Eq(r1, l2) && !IsYN(l1) && !IsYN(r1)
    requires !Eq(Unit(AndOp), r2) && !Eq(r1, Unit(AndOp))
    ensures var u := Unit(AndOp);
      ElimCommon(AndOp, Node(AndOp, l1, r1), Node(AndOp, l2, r2)) ==
        (Node(AndOp, if Eq(l1, l2) then u else l1, if Eq(r1, r2) then u else r1),
         Node(AndOp, if Eq(l1, l2) then u else l2, if Eq(r1, r2) then u else r2))
  {
    var u := Unit(AndOp);
    var m := if Eq(l1, l2) then u else l1;
    var k := if Eq(l1, l2) then u else l2;
    assert ElimCommon(AndOp, l1, l2) == (m, k);
    assert ElimCommon(AndOp, m, r2) == (m, r2);
    assert ElimCommon(AndOp, l1, Node(AndOp, l2, r2)) == (m, Node(AndOp, k, r2));
    assert ElimCommon(AndOp, r1, k) == (r1, k);
    assert ElimCommon(AndOp, r1, r2) == if Eq(r1, r2) then (u, u) else (r1, r2);
  }

  lemma SymbolPair(a: Symbol, b: Symbol)
    ensures ElimCommon(OrOp, Sym(a), Sym(b)) ==
      if a == b && !IsYN(Sym(a)) then (Sym(SYM_NO), Sym(SYM_NO)) else (Sym(a), Sym(b))
  {
    assert Eq(Sym(a), Sym(b)) <==> a == b;
  }

  lemma OrNoEq(a: Symbol)
    requires !IsYN(Sym(a))
    ensures Eq(OrNo(a), OrNo(a)) && EliminateYn(OrNo(a)) == Sym(a)
  {
    var x, n := Sym(a), Sym(SYM_NO);
    SymbolPair(a, a);
    SymbolPair(SYM_NO, SYM_NO);
    SymbolPair(a, SYM_NO);
    SymbolPair(SYM_NO, a);
    assert ElimCommon(OrOp, x, OrNo(a)) == (n, Node(OrOp, n, n));
    assert ElimCommon(OrOp, n, Node(OrOp, n, n)) == (n, Node(OrOp, n, n));
    assert ElimCommon(OrOp, OrNo(a), OrNo(a)) == (Node(OrOp, n, n), Node(OrOp, n, n));
  }

  lemma OrNoDiffer(a: Symbol, b: Symbol)
    requires a != b && !IsYN(Sym(a)) && !IsYN(Sym(b))
    ensures !Eq(OrNo(a), OrNo(b))
  {
    var x, y, n := Sym(a), Sym(b), Sym(SYM_NO);
    SymbolPair(a, b);
    SymbolPair(a, SYM_NO);
    SymbolPair(SYM_NO, b);
    SymbolPair(SYM_NO, SYM_NO);
    assert ElimCommon(OrOp, x, OrNo(b)) == (x, OrNo(b)) && ElimCommon(OrOp, n, OrNo(b)) == (n, OrNo(b));
    assert ElimCommon(OrOp, OrNo(a), OrNo(b)) == (OrNo(a), OrNo(b));
    OrNoEq(a);
    OrNoEq(b);
  }

  function OrNo(a: Symbol): Expr { Node(OrOp, Sym(a), Sym(SYM_NO)) }

  /** No canonical form of whatever kind decides the equality of all expressions. */
  lemma NoCanon<T>(form: Expr -> T, a: Symbol, b: Symbol) returns (e: Expr, f: Expr)
    requires a != b && !IsYN(Sym(a)) && !IsYN(Sym(b))
    ensures Eq(e, f) != (form(e) == form(f))
  {
    EqNotTransitive(a, b);
    var x, y, z := Node(AndOp, OrNo(a), OrNo(b)), Node(AndOp, Sym(a), OrNo(b)), Node(AndOp, Sym(a), Sym(b));
    if form(x) != form(y) { return x, y; }
    if form(y) != form(z) { return y, z; }
    return x, z;
  }
}

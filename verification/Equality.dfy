/** Removal of y/n operands, structural equality up to reordering, and removal of common operands
    (expr_eliminate_yn, expr_eq, expr_eliminate_eq in scripts/config/expr.c). */
module Equality {
  import opened Expressions

  // ---------- expr_eliminate_yn ----------

  function EliminateYn(e: Expr): (r: Expr)
    ensures Size(r) <= Size(e)
    ensures Symbols(r) <= Symbols(e) && Tested(r) <= Tested(e)
    ensures OnlySymbolsNegated(e) ==> OnlySymbolsNegated(r)
  {
    match e
    case Node(op, l0, r0) =>
      var l, r := EliminateYn(l0), EliminateYn(r0);
      if l == Zero(op) then Zero(op)
      else if l == Unit(op) then r
      else if r == Zero(op) then Zero(op)
      else if r == Unit(op) then l
      else Node(op, l, r)
    case _ => e
  }

  lemma {:induction false} EliminateYnValue(e: Expr, v: Valuation)
    requires Constants(v)
    ensures Value(EliminateYn(e), v) == Value(e, v)
  {
    if e.Node? {
      EliminateYnValue(e.l, v);
      EliminateYnValue(e.r, v);
    }
  }

  /** Some operand of the AND/OR skeleton is the constant y or n. */
  predicate HasYN(e: Expr) {
    e.Node? && (IsYN(e.l) || IsYN(e.r) || HasYN(e.l) || HasYN(e.r))
  }

  /** The result has no constant operand left, and any that was there made it smaller. */
  lemma {:induction false} EliminateYnClears(e: Expr)
    ensures !HasYN(EliminateYn(e))
    ensures HasYN(e) ==> Size(EliminateYn(e)) < Size(e)
    ensures !HasYN(e) ==> EliminateYn(e) == e
  {
    if e.Node? {
      EliminateYnClears(e.l);
      EliminateYnClears(e.r);
    }
  }

  // ---------- expr_eq and expr_eliminate_eq ----------

  /** Structural equality. AND/OR expressions are equal when dropping their common operands leaves the
      same symbol on both sides. */
  predicate Eq(a: Expr, b: Expr)
    decreases Size(a) + Size(b), 1
  {
    match (a, b)
    case (Sym(s), Sym(t)) => s == t
    case (Cmp(_, _, _), Cmp(_, _, _)) => a == b
    case (Not(x), Not(y)) => Eq(x, y)
    case (Node(op, _, _), Node(op', _, _)) =>
      op == op' &&
      var (a', b') := ElimCommon(op, a, b);
      var a'' := EliminateYn(a');
      a''.Sym? && a'' == EliminateYn(b')
    case _ => false
  }

  /** __expr_eliminate_eq: every operand of `a` that equals an operand of `b` turns into the unit of the
      connective, on both sides. */
  function ElimCommon(op: Connective, a: Expr, b: Expr): (p: (Expr, Expr))
    ensures Size(p.0) <= Size(a) && Size(p.1) <= Size(b)
    ensures Is(a, op) ==> Is(p.0, op)
    ensures Is(b, op) ==> Is(p.1, op)
    decreases Size(a) + Size(b), if Is(a, op) || Is(b, op) then 0 else 2
  {
    if Is(a, op) then
      var (l, b1) := ElimCommon(op, a.l, b);
      var (r, b2) := ElimCommon(op, a.r, b1);
      (Node(op, l, r), b2)
    else if Is(b, op) then
      var (a1, l) := ElimCommon(op, a, b.l);
      var (a2, r) := ElimCommon(op, a1, b.r);
      (a2, Node(op, l, r))
    else if a == b && IsYN(a) then (a, b)
    else if !Eq(a, b) then (a, b)
    else (Unit(op), Unit(op))
  }

  /** expr_eliminate_eq: a pass at the connective of `a`, then one at that of `b` if it now differs. */
  function EliminateEq(a: Expr, b: Expr): (Expr, Expr)
  {
    var (a1, b1) := if a.Node? then ElimCommon(a.op, a, b) else (a, b);
    var (a2, b2) := if b1.Node? && !(a1.Node? && a1.op == b1.op) then ElimCommon(b1.op, a1, b1) else (a1, b1);
    (EliminateYn(a2), EliminateYn(b2))
  }

  lemma ApplyLaws(op: Connective, a: Tristate, b: Tristate, c: Tristate, d: Tristate, v: Valuation)
    requires Constants(v)
    ensures Apply(op, Apply(op, a, b), c) == Apply(op, a, Apply(op, b, c))
    ensures Apply(op, Apply(op, a, b), Apply(op, c, d)) == Apply(op, Apply(op, a, c), Apply(op, b, d))
    ensures Apply(op, a, Value(Unit(op), v)) == a == Apply(op, Value(Unit(op), v), a)
    ensures a <= b ==> Apply(op, c, a) <= Apply(op, c, b)
  {
  }

  /** One pass takes one common part out of both sides: some value `m` gives the originals back when it is
      combined, by the same connective, with what is left. */
  lemma {:induction false} ElimCommonFactors(op: Connective, a: Expr, b: Expr, v: Valuation) returns (m: Tristate)
    requires Constants(v)
    ensures var (a', b') := ElimCommon(op, a, b);
            Value(a, v) == Apply(op, m, Value(a', v)) && Value(b, v) == Apply(op, m, Value(b', v))
    decreases Size(a) + Size(b), if Is(a, op) || Is(b, op) then 0 else 2
  {
    if Is(a, op) {
      var (l, b1) := ElimCommon(op, a.l, b);
      var m1 := ElimCommonFactors(op, a.l, b, v);
      var (r, b2) := ElimCommon(op, a.r, b1);
      var m2 := ElimCommonFactors(op, a.r, b1, v);
      m := Apply(op, m1, m2);
      ApplyLaws(op, m1, Value(l, v), m2, Value(r, v), v);
      ApplyLaws(op, m1, m2, Value(b2, v), NO, v);
    } else if Is(b, op) {
      var (a1, l) := ElimCommon(op, a, b.l);
      var m1 := ElimCommonFactors(op, a, b.l, v);
      var (a2, r) := ElimCommon(op, a1, b.r);
      var m2 := ElimCommonFactors(op, a1, b.r, v);
      m := Apply(op, m1, m2);
      ApplyLaws(op, m1, Value(l, v), m2, Value(r, v), v);
      ApplyLaws(op, m1, m2, Value(a2, v), NO, v);
    } else if (a == b && IsYN(a)) || !Eq(a, b) {
      m := Value(Unit(op), v);
      ApplyLaws(op, Value(a, v), Value(b, v), NO, NO, v);
      ApplyLaws(op, Value(b, v), Value(a, v), NO, NO, v);
    } else {
      EqSound(a, b, v);
      m := Value(a, v);
      ApplyLaws(op, m, m, NO, NO, v);
    }
  }

  /** Expressions found equal have the same value under every valuation, m included. */
  lemma {:induction false} EqSound(a: Expr, b: Expr, v: Valuation)
    requires Constants(v)
    requires Eq(a, b)
    ensures Value(a, v) == Value(b, v)
    decreases Size(a) + Size(b), 1
  {
    match a {
      case Not(x) => EqSound(x, b.e, v);
      case Node(op, _, _) =>
        var (a', b') := ElimCommon(op, a, b);
        var m := ElimCommonFactors(op, a, b, v);
        EliminateYnValue(a', v);
        EliminateYnValue(b', v);
      case _ =>
    }
  }

  /** Operands are matched one to one: each that has found its equal is used up. `A && A && B` and `A && B && B` are
      not found equal, though every operand of one equals some operand of the other. */
  lemma EqCounts(a: Symbol, b: Symbol, op: Connective)
    requires a != b && !IsYN(Sym(a)) && !IsYN(Sym(b))
    ensures !Eq(Node(op, Node(op, Sym(a), Sym(a)), Sym(b)), Node(op, Node(op, Sym(a), Sym(b)), Sym(b)))
  {
    var x, y, u := Sym(a), Sym(b), Unit(op);
    var e, f := Node(op, Node(op, x, x), y), Node(op, Node(op, x, y), y);
    var g, h := Node(op, Node(op, u, y), y), Node(op, Node(op, u, u), y);
    LeafPair(op, x, x, y);
    LeafPair(op, u, y, y);
    assert ElimCommon(op, x, f) == (u, g);
    LeafPair(op, x, u, y);
    assert ElimCommon(op, x, g) == (x, g);
    LeafPair(op, y, u, y);
    assert ElimCommon(op, y, g) == (u, h);
    assert ElimCommon(op, Node(op, x, x), f) == (Node(op, u, x), g);
    assert ElimCommon(op, e, f) == (Node(op, Node(op, u, x), u), h);
    assert EliminateYn(Node(op, u, x)) == x && EliminateYn(Node(op, u, u)) == u;
    assert EliminateYn(Node(op, Node(op, u, x), u)) == x && EliminateYn(h) == y;
  }

  /** One operand against two. */
  lemma LeafPair(op: Connective, x: Expr, l: Expr, r: Expr)
    requires x.Sym? && l.Sym? && r.Sym? && (x == l || x == r ==> !IsYN(x))
    ensures ElimCommon(op, x, l) == if x == l then (Unit(op), Unit(op)) else (x, l)
    ensures ElimCommon(op, x, Node(op, l, r)) ==
      var (x1, l1) := ElimCommon(op, x, l);
      var (x2, r1) := ElimCommon(op, x1, r);
      (x2, Node(op, l1, r1))
  {
  }

  /** The superset test: if nothing but y is left of `b` once the operands it shares with `a` are gone, then
      `a` is at most `b`, whatever the symbols are. */
  lemma SupersetSound(a: Expr, b: Expr, v: Valuation)
    requires Constants(v)
    requires EliminateEq(a, b).1 == Sym(SYM_YES)
    ensures Value(a, v) <= Value(b, v)
  {
    if a.Node? {
      var (a1, b1) := ElimCommon(a.op, a, b);
      SecondPass(a1, b1, v);
      PassMonotone(a.op, a, b, v);
    } else {
      SecondPass(a, b, v);
    }
  }

  lemma SecondPass(a: Expr, b: Expr, v: Valuation)
    requires Constants(v)
    requires var second := b.Node? && !(a.Node? && a.op == b.op);
             EliminateYn((if second then ElimCommon(b.op, a, b) else (a, b)).1) == Sym(SYM_YES)
    ensures Value(a, v) <= Value(b, v)
  {
    if b.Node? && !(a.Node? && a.op == b.op) {
      EliminateYnValue(ElimCommon(b.op, a, b).1, v);
      PassMonotone(b.op, a, b, v);
    } else {
      EliminateYnValue(b, v);
    }
  }

  lemma PassMonotone(op: Connective, a: Expr, b: Expr, v: Valuation)
    requires Constants(v)
    ensures var (a', b') := ElimCommon(op, a, b); Value(a', v) <= Value(b', v) ==> Value(a, v) <= Value(b, v)
  {
    var (a', b') := ElimCommon(op, a, b);
    var m := ElimCommonFactors(op, a, b, v);
    ApplyLaws(op, Value(a', v), Value(b', v), m, NO, v);
  }
}

/** Pushing NOT inwards and removing comparisons of booleans with y, m, n (expr_transform), and turning an
    expression into a comparison with n or y (expr_trans_compare, expr_depends_symbol); scripts/config/expr.c. */
module Normalize {
  import opened Expressions
  import opened Join

  // ---------- expr_transform ----------

  /** Termination weight: NOT doubles its operand. */
  function Weight(e: Expr): (n: nat)
    ensures n >= 1
  {
    match e
    case Sym(_) => 1
    case Not(x) => 2 * Weight(x)
    case Node(_, l, r) => 1 + Weight(l) + Weight(r)
    case Cmp(_, _, _) => 2
  }

  function TransformCmp(e: Expr): (r: Expr)
    requires e.Cmp?
    ensures Weight(r) <= 2
  {
    if e.left.Type() != Boolean then e
    else match e.rel
      case Equal =>
        if e.right == SYM_NO then Not(Sym(e.left))
        else if e.right == SYM_MOD then Sym(SYM_NO)
        else if e.right == SYM_YES then Sym(e.left)
        else e
      case Unequal =>
        if e.right == SYM_NO then Sym(e.left)
        else if e.right == SYM_MOD then Sym(SYM_YES)
        else if e.right == SYM_YES then Not(Sym(e.left))
        else e
      case _ => e
  }

  function Opposite(rel: Relation): Relation {
    match rel
    case Equal => Unequal
    case Unequal => Equal
    case Leq => Gth
    case Geq => Lth
    case Lth => Geq
    case Gth => Leq
  }

  function Dual(op: Connective): Connective { if op.AndOp? then OrOp else AndOp }

  lemma DeMorganWeight(op: Connective, l: Expr, r: Expr)
    ensures Weight(Node(Dual(op), Not(l), Not(r))) < Weight(Not(Node(op, l, r))) == 2 * Weight(Node(op, l, r))
  {
    assert Weight(Not(l)) == 2 * Weight(l) && Weight(Not(r)) == 2 * Weight(r);
  }

  /** expr_transform: operands first, then the node itself; a NOT over AND/OR is distributed and the result
      transformed once more. */
  function Transform(e: Expr): (r: Expr)
    ensures Weight(r) <= Weight(e)
    decreases Weight(e)
  {
    match e
    case Sym(_) => e
    case Cmp(_, _, _) => TransformCmp(e)
    case Node(op, l, r) => Node(op, Transform(l), Transform(r))
    case Not(x) =>
      var y := Transform(x);
      match y
      case Not(z) => Transform(z)
      case Cmp(rel, a, b) => Cmp(Opposite(rel), a, b)
      case Node(op, l, r) => DeMorganWeight(op, l, r); Transform(Node(Dual(op), Not(l), Not(r)))
      case Sym(s) =>
        if s == SYM_YES then Sym(SYM_NO)
        else if s == SYM_MOD then Sym(SYM_MOD)
        else if s == SYM_NO then Sym(SYM_YES)
        else Not(y)
  }

  lemma TransformCmpValue(e: Expr, v: Valuation)
    requires WellTyped(v) && e.Cmp?
    ensures Value(TransformCmp(e), v) == Value(e, v)
  {
    if e.left.Type() == Boolean { Levels(e.left, v); }
  }

  /** The meaning is kept in three-valued logic. */
  lemma {:induction false} TransformValue(e: Expr, v: Valuation)
    requires WellTyped(v)
    ensures Value(Transform(e), v) == Value(e, v)
    decreases Weight(e)
  {
    match e {
      case Sym(_) =>
      case Cmp(_, _, _) => TransformCmpValue(e, v);
      case Node(op, l, r) =>
        TransformValue(l, v);
        TransformValue(r, v);
      case Not(x) =>
        TransformValue(x, v);
        var y := Transform(x);
        match y {
          case Not(z) => TransformValue(z, v);
          case Node(op, l, r) =>
            DeMorganWeight(op, l, r);
            TransformValue(Node(Dual(op), Not(l), Not(r)), v);
            assert Value(Node(Dual(op), Not(l), Not(r)), v) == TriNot(Value(y, v));
          case _ =>
        }
    }
  }

  /** NOT stands only over a symbol other than y, m, n, and no boolean symbol is tested for y, m or n. */
  predicate Normal(e: Expr) {
    match e
    case Sym(_) => true
    case Not(x) => x.Sym? && x.sym !in LETTERS
    case Node(_, l, r) => Normal(l) && Normal(r)
    case Cmp(rel, a, b) => !(a.Type() == Boolean && rel in {Equal, Unequal} && b in LETTERS)
  }

  lemma {:induction false} TransformNormal(e: Expr)
    ensures Normal(Transform(e))
    decreases Weight(e)
  {
    match e {
      case Sym(_) =>
      case Cmp(_, _, _) =>
      case Node(op, l, r) =>
        TransformNormal(l);
        TransformNormal(r);
      case Not(x) =>
        TransformNormal(x);
        match Transform(x) {
          case Not(z) => TransformNormal(z);
          case Node(op, l, r) => DeMorganWeight(op, l, r); TransformNormal(Node(Dual(op), Not(l), Not(r)));
          case _ =>
        }
    }
  }

  lemma {:induction false} NormalFixed(e: Expr)
    requires Normal(e)
    ensures Transform(e) == e
  {
    match e {
      case Node(op, l, r) =>
        NormalFixed(l);
        NormalFixed(r);
      case _ =>
    }
  }

  /** A second transformation changes nothing, and an expression is a fixed point exactly when it is normal. */
  lemma TransformIdempotent(e: Expr)
    ensures Transform(Transform(e)) == Transform(e)
    ensures Transform(e) == e <==> Normal(e)
  {
    TransformNormal(e);
    NormalFixed(Transform(e));
    if Normal(e) { NormalFixed(e); }
  }

  lemma {:induction false} TransformSymbols(e: Expr)
    ensures Symbols(Transform(e)) <= Symbols(e) + LETTERS
    decreases Weight(e)
  {
    match e {
      case Sym(_) =>
      case Cmp(_, _, _) =>
      case Node(op, l, r) =>
        TransformSymbols(l);
        TransformSymbols(r);
      case Not(x) =>
        TransformSymbols(x);
        match Transform(x) {
          case Not(z) => TransformSymbols(z);
          case Node(op, l, r) => DeMorganWeight(op, l, r); TransformSymbols(Node(Dual(op), Not(l), Not(r)));
          case _ =>
        }
    }
  }

  /** Nor do tests of tristates, but for y, m, n. */
  lemma {:induction false} TransformTested(e: Expr)
    ensures Tested(Transform(e)) <= Tested(e) + LETTERS
    decreases Weight(e)
  {
    match e {
      case Sym(_) =>
      case Cmp(_, _, _) =>
      case Node(op, l, r) =>
        TransformTested(l);
        TransformTested(r);
      case Not(x) =>
        TransformTested(x);
        match Transform(x) {
          case Not(z) => TransformTested(z);
          case Node(op, l, r) => DeMorganWeight(op, l, r); TransformTested(Node(Dual(op), Not(l), Not(r)));
          case _ =>
        }
    }
  }

  // ---------- expr_trans_compare ----------

  /** expr_trans_compare for a comparison with n or y (`sym` of the callers); `equal` chooses E_EQUAL. */
  function TransCompare(e: Expr, equal: bool, toYes: bool): Expr {
    match e
    case Node(op, l, r) =>
      var pair := Node(if toYes then op else Dual(op), TransCompare(l, true, toYes), TransCompare(r, true, toYes));
      if equal then pair else Not(pair)
    case Not(x) => TransCompare(x, !equal, toYes)
    case Cmp(_, _, _) => if equal == toYes then e else Not(e)
    case Sym(s) => Cmp(if equal then Equal else Unequal, s, if toYes then SYM_YES else SYM_NO)
  }

  lemma {:induction false} TransCompareTested(e: Expr, equal: bool, toYes: bool)
    ensures Tested(TransCompare(e, equal, toYes)) <= Tested(e) + LETTERS
  {
    match e {
      case Not(x) => TransCompareTested(x, !equal, toYes);
      case Node(_, l, r) => TransCompareTested(l, true, toYes); TransCompareTested(r, true, toYes);
      case _ =>
    }
  }

  /** A bare symbol compared with y, or with n. */
  function SeenSymbol(s: Symbol, v: Valuation, toYes: bool): Tristate {
    if Compare(s, if toYes then SYM_YES else SYM_NO, v) == 0 then (if toYes then YES else NO)
    else if toYes then NO else YES
  }

  /** The expression as the comparison sees it; its own comparisons stay as they are. */
  function Seen(e: Expr, v: Valuation, toYes: bool): Tristate {
    match e
    case Sym(s) => SeenSymbol(s, v, toYes)
    case Not(x) => TriNot(Seen(x, v, toYes))
    case Node(op, l, r) => Apply(op, Seen(l, v, toYes), Seen(r, v, toYes))
    case Cmp(_, _, _) => Value(e, v)
  }

  /** What expr_trans_compare computes: the expression with each bare symbol compared, or the complement. */
  lemma {:induction false} TransCompareValue(e: Expr, equal: bool, toYes: bool, v: Valuation)
    ensures var c := Seen(e, v, toYes);
      c != MOD && Value(TransCompare(e, equal, toYes), v) == if equal == toYes then c else TriNot(c)
  {
    match e {
      case Not(x) => TransCompareValue(x, !equal, toYes, v);
      case Node(op, l, r) =>
        TransCompareValue(l, true, toYes, v);
        TransCompareValue(r, true, toYes, v);
      case _ =>
    }
  }

  /** Compared with n, the symbol counts as n exactly if it is n. */
  predicate ExactAt(s: Symbol, v: Valuation) { v.tri(s) == NO <==> Compare(s, SYM_NO, v) == 0 }

  /** So it is for every boolean and tristate, and for y, m and n; any other symbol is compared by the string it holds:
      its value, or its name if it is nowhere declared. */
  lemma ExactSymbol(s: Symbol, v: Valuation)
    requires WellTyped(v)
    ensures s.Type() in {Boolean, TristateType} || s in LETTERS ==> ExactAt(s, v)
    ensures s.Type() !in {Boolean, TristateType} ==> (ExactAt(s, v) <==> (v.tri(s) == NO <==> v.val(s) == "n"))
  {
    if s.Type() in {Boolean, TristateType} {
      Levels(s, v);
    } else {
      assert Compare(s, SYM_NO, v) == StrCmp(v.val(s), "n");
    }
  }

  /** The bare symbols of an expression, those outside a NOT, and those under one. */
  function Bare(e: Expr): set<Symbol> {
    match e
    case Sym(s) => {s}
    case Not(x) => Bare(x)
    case Node(_, l, r) => Bare(l) + Bare(r)
    case Cmp(_, _, _) => {}
  }

  function Plain(e: Expr): set<Symbol> {
    match e
    case Sym(s) => {s}
    case Node(_, l, r) => Plain(l) + Plain(r)
    case _ => {}
  }

  function Negated(e: Expr): set<Symbol> {
    match e
    case Not(x) => Bare(x)
    case Node(_, l, r) => Negated(l) + Negated(r)
    case _ => {}
  }

  predicate PlainExact(e: Expr, v: Valuation) { forall s :: s in Plain(e) ==> ExactAt(s, v) }

  /** Under a NOT a symbol must not be m either. */
  predicate NegatedExact(e: Expr, v: Valuation) { forall s :: s in Negated(e) ==> v.tri(s) != MOD && ExactAt(s, v) }

  /** It is so whatever the values are where all bare symbols are booleans or tristates, or y, m or n, and only booleans
      are negated, or any tristates while modules are off. */
  lemma {:induction false} DeclaredExact(e: Expr, v: Valuation)
    requires WellTyped(v)
    requires forall s :: s in Bare(e) ==> s.Type() in {Boolean, TristateType} || s in LETTERS
    requires forall s :: s in Negated(e) ==>
      s.Type() == Boolean || s == SYM_YES || s == SYM_NO || (s.Type() == TristateType && !v.modulesOn)
    ensures PlainExact(e, v) && NegatedExact(e, v)
  {
    BareParts(e);
    forall s | s in Bare(e) ensures ExactAt(s, v) { ExactSymbol(s, v); }
  }

  lemma {:induction false} BareParts(e: Expr)
    ensures Bare(e) == Plain(e) + Negated(e)
  {
    if e.Node? {
      BareParts(e.l);
      BareParts(e.r);
    }
  }

  lemma {:induction false} SeenBare(e: Expr, v: Valuation)
    requires forall s :: s in Bare(e) ==> v.tri(s) != MOD && ExactAt(s, v)
    ensures Value(e, v) != MOD && Seen(e, v, false) == Value(e, v)
  {
    match e {
      case Not(x) => SeenBare(x, v);
      case Node(_, l, r) => SeenBare(l, v); SeenBare(r, v);
      case Sym(s) => assert s in Bare(e);
      case _ =>
    }
  }

  lemma {:induction false} SeenExact(e: Expr, v: Valuation)
    requires PlainExact(e, v) && NegatedExact(e, v)
    ensures Seen(e, v, false) == if Value(e, v) != NO then YES else NO
  {
    match e {
      case Not(x) => SeenBare(x, v);
      case Node(_, l, r) =>
        assert Plain(l) <= Plain(e) && Plain(r) <= Plain(e) && Negated(l) <= Negated(e) && Negated(r) <= Negated(e);
        SeenExact(l, v);
        SeenExact(r, v);
      case Sym(s) => assert s in Plain(e);
      case _ =>
    }
  }

  /** While that holds, the comparison with n says exactly whether the expression is n. */
  lemma UnequalNoExact(e: Expr, v: Valuation)
    requires PlainExact(e, v) && NegatedExact(e, v)
    ensures Value(TransCompare(e, false, false), v) == if Value(e, v) != NO then YES else NO
    ensures Value(TransCompare(e, true, false), v) == if Value(e, v) == NO then YES else NO
  {
    TransCompareValue(e, false, false, v);
    TransCompareValue(e, true, false, v);
    SeenExact(e, v);
  }

  /** At calculated values the symbols under a NOT decide whether what is not n may compare as n. */
  lemma {:induction false} SeenRises(e: Expr, v: Valuation)
    requires WellTyped(v) && OthersNo(v) && NegatedExact(e, v) && Value(e, v) != NO
    ensures Seen(e, v, false) != NO
  {
    match e {
      case Not(x) => SeenBare(x, v);
      case Node(_, l, r) =>
        assert Negated(l) <= Negated(e) && Negated(r) <= Negated(e);
        if Value(l, v) != NO { SeenRises(l, v); }
        if Value(r, v) != NO { SeenRises(r, v); }
      case Sym(s) => ExactSymbol(s, v);
      case _ =>
    }
  }

  /** And the symbols outside a NOT, once NOT stands over symbols only, whether what is n may compare as different. */
  lemma {:induction false} SeenSafe(e: Expr, v: Valuation)
    requires WellTyped(v) && OthersNo(v) && OnlySymbolsNegated(e) && PlainExact(e, v) && Seen(e, v, false) != NO
    ensures Value(e, v) != NO
  {
    match e {
      case Not(x) => ExactSymbol(x.sym, v);
      case Node(op, l, r) =>
        assert Plain(l) <= Plain(e) && Plain(r) <= Plain(e);
        if Seen(l, v, false) != NO { SeenSafe(l, v); }
        if Seen(r, v, false) != NO { SeenSafe(r, v); }
      case Sym(s) => assert s in Plain(e);
      case _ =>
    }
  }

  /** For one symbol, bare or negated, the condition is also needed. */
  lemma SymbolExact(s: Symbol, v: Valuation)
    requires WellTyped(v) && OthersNo(v)
    ensures Value(TransCompare(Sym(s), false, false), v) == (if v.tri(s) != NO then YES else NO) <==> ExactAt(s, v)
    ensures Value(TransCompare(Not(Sym(s)), false, false), v) == (if Value(Not(Sym(s)), v) != NO then YES else NO)
      <==> v.tri(s) != MOD && ExactAt(s, v)
  {
    TransCompareValue(Sym(s), false, false, v);
    TransCompareValue(Not(Sym(s)), false, false, v);
    ExactSymbol(s, v);
  }

  // ---------- expr_depends_symbol ----------

  predicate DependsSymbol(e: Expr, s: Symbol) {
    match e
    case Sym(t) => t == s
    case Node(op, l, r) => op.AndOp? && (DependsSymbol(l, s) || DependsSymbol(r, s))
    case Cmp(rel, a, b) =>
      a == s && ((rel.Equal? && (b == SYM_YES || b == SYM_MOD)) || (rel.Unequal? && b == SYM_NO))
    case Not(_) => false
  }

  /** The operands of the outermost AND. */
  function Conjuncts(e: Expr): set<Expr> {
    if Is(e, AndOp) then Conjuncts(e.l) + Conjuncts(e.r) else {e}
  }

  /** The four forms of an operand that are taken to demand the symbol. */
  predicate Demands(e: Expr, s: Symbol) {
    e in {Sym(s), Cmp(Equal, s, SYM_YES), Cmp(Equal, s, SYM_MOD), Cmp(Unequal, s, SYM_NO)}
  }

  /** Exactly the expressions with an operand of one of these forms depend on the symbol. */
  lemma {:induction false} DependsExact(e: Expr, s: Symbol)
    ensures DependsSymbol(e, s) <==> exists c :: c in Conjuncts(e) && Demands(c, s)
  {
    if Is(e, AndOp) {
      DependsExact(e.l, s);
      DependsExact(e.r, s);
    } else {
      assert Conjuncts(e) == {e};
      match e {
        case Cmp(_, _, _) => assert DependsSymbol(e, s) <==> Demands(e, s);
        case _ => assert DependsSymbol(e, s) <==> Demands(e, s);
      }
    }
  }

  /** A symbol's own forms, alone or anywhere in an AND; not below an OR or a NOT. */
  lemma DependsForms(s: Symbol, x: Expr)
    ensures DependsSymbol(Sym(s), s) && DependsSymbol(Cmp(Unequal, s, SYM_NO), s)
    ensures DependsSymbol(Cmp(Equal, s, SYM_YES), s) && DependsSymbol(Cmp(Equal, s, SYM_MOD), s)
    ensures forall e :: DependsSymbol(e, s) ==>
      DependsSymbol(Node(AndOp, e, x), s) && DependsSymbol(Node(AndOp, x, e), s)
    ensures forall e :: !DependsSymbol(Node(OrOp, e, x), s) && !DependsSymbol(Not(e), s)
  {
  }

  /** Neither n nor compared as n. */
  predicate On(s: Symbol, v: Valuation) { v.tri(s) != NO || Compare(s, SYM_NO, v) != 0 }

  /** An expression that depends on a symbol is not n only while the symbol is on; a boolean or tristate is then not
      n. */
  lemma {:induction false} DependsSymbolSound(e: Expr, s: Symbol, v: Valuation)
    requires WellTyped(v)
    requires DependsSymbol(e, s) && Value(e, v) != NO
    ensures On(s, v) && (s.Type() in {Boolean, TristateType} ==> v.tri(s) != NO)
  {
    match e {
      case Node(_, l, r) =>
        if DependsSymbol(l, s) { DependsSymbolSound(l, s, v); } else { DependsSymbolSound(r, s, v); }
      case Cmp(_, a, b) => DemandOn(a, b, v);
      case _ =>
    }
  }

  lemma DemandOn(s: Symbol, c: Symbol, v: Valuation)
    requires WellTyped(v) && c in LETTERS && (if c == SYM_NO then Compare(s, c, v) != 0 else Compare(s, c, v) == 0)
    ensures On(s, v) && (s.Type() in {Boolean, TristateType} ==> v.tri(s) != NO)
  {
    if s.Type() in {Boolean, TristateType} {
      Levels(s, v);
    } else {
      assert Compare(s, c, v) == StrCmp(v.val(s), c.name) && Compare(s, SYM_NO, v) == StrCmp(v.val(s), "n");
    }
  }
}

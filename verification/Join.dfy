/** Merging two operands of the same AND or OR (expr_join_or, expr_join_and in scripts/config/expr.c). */
module Join {
  import opened Expressions
  import opened Equality

  /** The symbol both rules look at, None when the operand has a shape they refuse. `first` tells the two
      arguments apart: only the first may be the negation of a comparison. */
  function Subject(e: Expr, first: bool): Option<Symbol> {
    match e
    case Sym(s) => Some(s)
    case Cmp(rel, a, _) => if rel.Equal? || rel.Unequal? then Some(a) else None
    case Not(Sym(s)) => Some(s)
    case Not(Cmp(rel, a, _)) => if first && (rel.Equal? || rel.Unequal?) then Some(a) else None
    case _ => None
  }

  /** The common subject of the two operands when it is a boolean or tristate symbol. */
  function CommonSubject(e1: Expr, e2: Expr): (r: Option<Symbol>) {
    var s1, s2 := Subject(e1, true), Subject(e2, false);
    if s1.Some? && s1 == s2 && s1.value.Type() in {Boolean, TristateType} then s1 else None
  }

  /** Both operands are comparisons `rel` of the subject, one with `c` and the other with `d`. */
  predicate Pair(e1: Expr, e2: Expr, rel: Relation, c: Symbol, d: Symbol) {
    && e1.Cmp? && e2.Cmp? && e1.rel == rel == e2.rel
    && ((e1.right == c && e2.right == d) || (e1.right == d && e2.right == c))
  }

  /** One operand is the bare subject, the other its comparison `rel` with `c`. */
  predicate With(e1: Expr, e2: Expr, rel: Relation, c: Symbol) {
    || (e1.Sym? && e2.Cmp? && e2.rel == rel && e2.right == c)
    || (e2.Sym? && e1.Cmp? && e1.rel == rel && e1.right == c)
  }

  function JoinOr(e1: Expr, e2: Expr): Option<Expr> {
    if Eq(e1, e2) then Some(e1) else
    match CommonSubject(e1, e2)
    case None => None
    case Some(a) =>
      if a.Type() == TristateType && Pair(e1, e2, Equal, SYM_YES, SYM_MOD) then Some(Cmp(Unequal, a, SYM_NO))
      else if a.Type() == TristateType && Pair(e1, e2, Equal, SYM_YES, SYM_NO) then Some(Cmp(Unequal, a, SYM_MOD))
      else if a.Type() == TristateType && Pair(e1, e2, Equal, SYM_MOD, SYM_NO) then Some(Cmp(Unequal, a, SYM_YES))
      else if a.Type() == Boolean && ((e1.Not? && e1.e.Sym? && e2.Sym?) || (e2.Not? && e2.e.Sym? && e1.Sym?)) then
        Some(Sym(SYM_YES))
      else None
  }

  /** (a = b) && (a != c): the constant b if it differs from c, otherwise n. */
  function JoinEqualUnequal(a: Symbol, b: Symbol, c: Symbol): Expr {
    if b != c then Cmp(Equal, a, b) else Sym(SYM_NO)
  }

  predicate EqualUnequal(e1: Expr, e2: Expr) {
    e1.Cmp? && e2.Cmp? && e1.rel == Equal && e2.rel == Unequal && e1.right.Const? && e2.right.Const?
  }

  function JoinAnd(e1: Expr, e2: Expr): Option<Expr> {
    if Eq(e1, e2) then Some(e1) else
    match CommonSubject(e1, e2)
    case None => None
    case Some(a) =>
      if With(e1, e2, Equal, SYM_YES) then Some(Cmp(Equal, a, SYM_YES))
      else if With(e1, e2, Unequal, SYM_NO) then Some(Sym(a))
      else if With(e1, e2, Unequal, SYM_MOD) then Some(Cmp(Equal, a, SYM_YES))
      else if a.Type() != TristateType then None
      else if EqualUnequal(e1, e2) then Some(JoinEqualUnequal(a, e1.right, e2.right))
      else if EqualUnequal(e2, e1) then Some(JoinEqualUnequal(a, e2.right, e1.right))
      else if Pair(e1, e2, Unequal, SYM_YES, SYM_NO) then Some(Cmp(Equal, a, SYM_MOD))
      else if Pair(e1, e2, Unequal, SYM_YES, SYM_MOD) then Some(Cmp(Equal, a, SYM_NO))
      else if Pair(e1, e2, Unequal, SYM_MOD, SYM_NO) then Some(Cmp(Equal, a, SYM_YES))
      else None
  }

  function JoinOf(op: Connective, e1: Expr, e2: Expr): Option<Expr> {
    if op.AndOp? then JoinAnd(e1, e2) else JoinOr(e1, e2)
  }

  // ---------- which rules there are ----------

  function Third(c: Symbol, d: Symbol): Symbol {
    if SYM_YES !in {c, d} then SYM_YES else if SYM_MOD !in {c, d} then SYM_MOD else SYM_NO
  }

  /** Two tests of a tristate for different letters join into one test for the third, in either order. */
  lemma JoinLetters(a: Symbol, c: Symbol, d: Symbol)
    requires a.Type() == TristateType && c in LETTERS && d in LETTERS && c != d
    ensures JoinOr(Cmp(Equal, a, c), Cmp(Equal, a, d)) == Some(Cmp(Unequal, a, Third(c, d)))
    ensures JoinAnd(Cmp(Unequal, a, c), Cmp(Unequal, a, d)) == Some(Cmp(Equal, a, Third(c, d)))
  {
    assert !Eq(Cmp(Equal, a, c), Cmp(Equal, a, d)) && !Eq(Cmp(Unequal, a, c), Cmp(Unequal, a, d));
  }

  /** A bare symbol takes in every test that it decides, in either order; a boolean and its negation are y. */
  lemma JoinBare(a: Symbol)
    requires a.Type() in {Boolean, TristateType}
    ensures forall r, c :: (r, c) in {(Equal, SYM_YES), (Unequal, SYM_MOD), (Unequal, SYM_NO)} ==>
      JoinAnd(Sym(a), Cmp(r, a, c)) == JoinAnd(Cmp(r, a, c), Sym(a)) ==
        Some(if c == SYM_NO then Sym(a) else Cmp(Equal, a, SYM_YES))
    ensures a.Type() == Boolean ==> JoinOr(Not(Sym(a)), Sym(a)) == JoinOr(Sym(a), Not(Sym(a))) == Some(Sym(SYM_YES))
  {
    forall r: Relation, c: Symbol
      ensures !Eq(Sym(a), Cmp(r, a, c)) && !Eq(Cmp(r, a, c), Sym(a))
    {
    }
    assert !Eq(Not(Sym(a)), Sym(a)) && !Eq(Sym(a), Not(Sym(a)));
  }

  /** Equal operands join into one of them. */
  lemma JoinSame(op: Connective, e1: Expr, e2: Expr)
    requires Eq(e1, e2)
    ensures JoinOf(op, e1, e2) == Some(e1)
  {
  }

  /** `A = b` with `A != c` for constants leaves `A = b` or, if they are the same, n, in either order. */
  lemma JoinEqualUnequalForm(a: Symbol, b: Symbol, c: Symbol)
    requires a.Type() == TristateType && b.Const? && c.Const?
    ensures JoinAnd(Cmp(Equal, a, b), Cmp(Unequal, a, c)) == Some(if b == c then Sym(SYM_NO) else Cmp(Equal, a, b))
    ensures JoinAnd(Cmp(Unequal, a, c), Cmp(Equal, a, b)) == Some(if b == c then Sym(SYM_NO) else Cmp(Equal, a, b))
  {
    assert !Eq(Cmp(Equal, a, b), Cmp(Unequal, a, c)) && !Eq(Cmp(Unequal, a, c), Cmp(Equal, a, b));
  }

  /** Two operands of one AND or OR of which one is too many: equal ones, an equality and an inequality of a tristate
      with constants, two tests of a tristate for different letters, a bare symbol and a test that it decides, a boolean
      and its negation. */
  predicate Redundant(op: Connective, x: Expr, y: Expr) {
    || Eq(x, y)
    || (x.Cmp? && y.Cmp? && x.left == y.left && x.left.Type() == TristateType &&
        ((op.AndOp? && x.rel.Equal? && y.rel.Unequal? && x.right.Const? && y.right.Const?) ||
         (x.rel == y.rel == (if op.AndOp? then Unequal else Equal) && x.right in LETTERS && y.right in LETTERS)))
    || (op.AndOp? && x.Sym? && y.Cmp? && x.sym == y.left && x.sym.Type() in {Boolean, TristateType} &&
        (y.rel, y.right) in {(Equal, SYM_YES), (Unequal, SYM_MOD), (Unequal, SYM_NO)})
    || (op.OrOp? && x.Sym? && y == Not(x) && x.sym.Type() == Boolean)
  }

  /** Any such pair is joined, in either order. */
  lemma RedundantJoins(op: Connective, x: Expr, y: Expr)
    requires Redundant(op, x, y)
    ensures JoinOf(op, x, y).Some? && (Eq(x, y) || JoinOf(op, y, x).Some?)
  {
    if Eq(x, y) {
      JoinSame(op, x, y);
    } else if x.Cmp? && x.rel.Equal? && y.rel.Unequal? {
      JoinEqualUnequalForm(x.left, x.right, y.right);
    } else if x.Cmp? {
      assert x.right != y.right;
      JoinLetters(x.left, x.right, y.right);
      JoinLetters(x.left, y.right, x.right);
    } else {
      JoinBare(x.sym);
    }
  }

  // ---------- soundness ----------

  lemma Levels(a: Symbol, v: Valuation)
    requires WellTyped(v) && a.Type() in {Boolean, TristateType}
    ensures Compare(a, SYM_YES, v) == 0 <==> v.tri(a) == YES
    ensures Compare(a, SYM_MOD, v) == 0 <==> v.tri(a) == MOD
    ensures Compare(a, SYM_NO, v) == 0 <==> v.tri(a) == NO
  {
    CompareWithConstant(a, SYM_YES, v);
    CompareWithConstant(a, SYM_MOD, v);
    CompareWithConstant(a, SYM_NO, v);
  }

  lemma JoinTestsSound(e1: Expr, e2: Expr, a: Symbol, v: Valuation)
    requires WellTyped(v) && e1.Cmp? && !Eq(e1, e2) && JoinOr(e1, e2).Some? && CommonSubject(e1, e2) == Some(a)
    ensures Value(JoinOr(e1, e2).value, v) == TriOr(Value(e1, v), Value(e2, v))
  {
    Levels(a, v);
  }

  lemma JoinOrSound(e1: Expr, e2: Expr, v: Valuation)
    requires WellTyped(v)
    requires JoinOr(e1, e2).Some?
    ensures Value(JoinOr(e1, e2).value, v) == TriOr(Value(e1, v), Value(e2, v))
  {
    if Eq(e1, e2) {
      EqSound(e1, e2, v);
    } else {
      var a := CommonSubject(e1, e2).value;
      if e1.Cmp? { JoinTestsSound(e1, e2, a, v); }
    }
  }

  predicate SeparateLevels(b: Symbol, c: Symbol, v: Valuation)
    requires b.Const? && c.Const?
  {
    Level(b, v) == None || Level(b, v) != Level(c, v)
  }

  /** A bare symbol and a test of it. */
  lemma WithSound(e1: Expr, e2: Expr, a: Symbol, v: Valuation)
    requires WellTyped(v) && JoinAnd(e1, e2).Some? && !Eq(e1, e2) && CommonSubject(e1, e2) == Some(a)
    requires With(e1, e2, Equal, SYM_YES) || With(e1, e2, Unequal, SYM_NO) || With(e1, e2, Unequal, SYM_MOD)
    ensures Value(JoinAnd(e1, e2).value, v) == TriAnd(Value(e1, v), Value(e2, v))
  {
    Levels(a, v);
  }

  /** The two constants of a joined `(a = b) && (a != c)` do not read as the same tristate level. */
  predicate Separated(e1: Expr, e2: Expr, v: Valuation) {
    && (EqualUnequal(e1, e2) || EqualUnequal(e2, e1))
    && CommonSubject(e1, e2).Some? && CommonSubject(e1, e2).value.Type() == TristateType
    && e1.right != e2.right
    ==> SeparateLevels(e1.right, e2.right, v)
  }

  lemma EqualUnequalSound(a: Symbol, b: Symbol, c: Symbol, v: Valuation)
    requires WellTyped(v) && a.Type() == TristateType && b.Const? && c.Const?
    requires b != c ==> SeparateLevels(b, c, v)
    ensures Value(JoinEqualUnequal(a, b, c), v) == TriAnd(Value(Cmp(Equal, a, b), v), Value(Cmp(Unequal, a, c), v))
  {
    CompareWithConstant(a, b, v);
    CompareWithConstant(a, c, v);
  }

  lemma JoinAndSound(e1: Expr, e2: Expr, v: Valuation)
    requires WellTyped(v)
    requires JoinAnd(e1, e2).Some? && Separated(e1, e2, v)
    ensures Value(JoinAnd(e1, e2).value, v) == TriAnd(Value(e1, v), Value(e2, v))
  {
    if Eq(e1, e2) {
      EqSound(e1, e2, v);
    } else {
      var a := CommonSubject(e1, e2).value;
      if a.Type() == TristateType && EqualUnequal(e1, e2) {
        EqualUnequalSound(a, e1.right, e2.right, v);
      } else if a.Type() == TristateType && EqualUnequal(e2, e1) {
        EqualUnequalSound(a, e2.right, e1.right, v);
      } else if e1.Sym? || e2.Sym? {
        WithSound(e1, e2, a, v);
      } else {
        Levels(a, v);
      }
    }
  }

  /** The valuation with symbol `a` moved to `t`. */
  function Setting(v: Valuation, a: Symbol, t: Tristate): Valuation {
    v.(tri := s => MovedTo(v, a, t, s))
  }

  function MovedTo(v: Valuation, a: Symbol, t: Tristate, s: Symbol): Tristate {
    if s == a then t else v.tri(s)
  }

  /** Exactly when the AND rule for distinct constants keeps the meaning: for every state of the symbol, if
      and only if the constants do not read as the same level ("0" and "n" do). */
  lemma JoinEqualUnequalExact(a: Symbol, b: Symbol, c: Symbol, v: Valuation)
    requires WellTyped(v) && v.modulesOn
    requires a.Type() == TristateType && b.Const? && c.Const? && b != c
    ensures JoinAnd(Cmp(Equal, a, b), Cmp(Unequal, a, c)) == Some(Cmp(Equal, a, b))
    ensures (forall t: Tristate ::
               Value(Cmp(Equal, a, b), Setting(v, a, t)) ==
               Value(Node(AndOp, Cmp(Equal, a, b), Cmp(Unequal, a, c)), Setting(v, a, t)))
      <==> SeparateLevels(b, c, v)
  {
    forall t: Tristate
      ensures Value(Cmp(Equal, a, b), Setting(v, a, t)) == (if Level(b, v) == Some(t) then YES else NO)
      ensures Value(Cmp(Unequal, a, c), Setting(v, a, t)) == (if Level(c, v) == Some(t) then NO else YES)
    {
      var w := Setting(v, a, t);
      CompareWithConstant(a, b, w);
      CompareWithConstant(a, c, w);
    }
    if !SeparateLevels(b, c, v) {
      var t: Tristate := Level(b, v).value;
      assert Value(Cmp(Equal, a, b), Setting(v, a, t)) == YES;
      assert Value(Cmp(Unequal, a, c), Setting(v, a, t)) == NO;
    }
  }

  /** What a join brings in: no bigger than the operand it replaces, no symbol and no tested constant but y, m, n
      beyond those of the operands, and an AND, OR or NOT only by keeping the first operand. */
  lemma JoinShape(op: Connective, e1: Expr, e2: Expr)
    requires JoinOf(op, e1, e2).Some?
    ensures var j := JoinOf(op, e1, e2).value;
      && Size(j) <= Size(e1)
      && Symbols(j) <= Symbols(e1) + Symbols(e2) + LETTERS
      && Tested(j) <= Tested(e1) + Tested(e2) + LETTERS
      && (j.Node? || j.Not? ==> j == e1)
  {
    if !Eq(e1, e2) {
      var a := CommonSubject(e1, e2).value;
      assert a in Symbols(e1);
    }
  }
}

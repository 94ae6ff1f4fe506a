/** The test that puts a menu entry below the symbol before it (menu_finalize in scripts/config/menu.c). */
module Submenu {
  import opened Expressions
  import opened Equality
  import opened Matching
  import opened Join
  import opened Paths
  import opened Duplicates
  import opened Normalize

  predicate ContainsSymbol(e: Expr, s: Symbol) {
    match e
    case Sym(t) => t == s
    case Not(x) => ContainsSymbol(x, s)
    case Node(_, l, r) => ContainsSymbol(l, s) || ContainsSymbol(r, s)
    case Cmp(_, a, b) => a == s || b == s
  }

  lemma {:induction false} ContainsExact(e: Expr, s: Symbol)
    ensures ContainsSymbol(e, s) <==> s in Symbols(e)
  {
    match e {
      case Not(x) => ContainsExact(x, s);
      case Node(_, l, r) => ContainsExact(l, s); ContainsExact(r, s);
      case _ =>
    }
  }

  /** A missing expression reads as y. */
  function ValueOpt(e: Option<Expr>, v: Valuation): Tristate {
    if e.Some? then Value(e.value, v) else YES
  }

  function TestedOpt(e: Option<Expr>): set<Symbol> {
    if e.Some? then Tested(e.value) else {}
  }

  /** NOT stands over symbols only, as expr_transform leaves it. */
  predicate Clean(e: Option<Expr>) { e.Some? ==> OnlySymbolsNegated(e.value) }

  /** `r` says whether `e`, each bare symbol compared with n, is not n. */
  ghost predicate Reads(r: Expr, e: Option<Expr>, cs: set<Symbol>) {
    && (forall v: Valuation :: WellTyped(v) && Unambiguous(cs, v) ==> Value(r, v) == SeenOpt(e, v))
    && (Settled(PreparedOpt(e)) ==> r == PreparedOpt(e))
  }

  function Prepared(e: Expr): Expr { Transform(TransCompare(e, false, false)) }

  function PreparedOpt(e: Option<Expr>): Expr { if e.Some? then Prepared(e.value) else Sym(SYM_YES) }

  function SeenOpt(e: Option<Expr>, v: Valuation): Tristate {
    if e.Some? then Seen(e.value, v, false) else YES
  }

  /** `e != n`, transformed and without duplicates: what both sides of the superset test go through. */
  method Visible(e: Option<Expr>, ghost cs: set<Symbol>) returns (r: Expr)
    requires TestedOpt(e) + LETTERS <= cs
    ensures Tested(r) <= cs && Settled(r)
    ensures Reads(r, e, cs)
  {
    var c := if e.Some? then TransCompare(e.value, false, false) else Not(Sym(SYM_NO));
    var rw := new Rewriter(Transform(c), 0);
    rw.EliminateDups();
    r := rw.root;
    TransformTested(c);
    if e.Some? { TransCompareTested(e.value, false, false); }
    forall v: Valuation | WellTyped(v) && Unambiguous(cs, v)
      ensures Value(r, v) == SeenOpt(e, v)
    {
      TransformValue(c, v);
      if e.Some? { TransCompareValue(e.value, false, false, v); }
    }
  }

  /** At calculated values, where the comparisons with n can be relied on: for each symbol negated in the entry's
      condition, and for each bare symbol not negated in that of the prompt. */
  ghost predicate Reliable(base: Option<Expr>, dep: Option<Expr>, v: Valuation) {
    && WellTyped(v) && OthersNo(v)
    && (dep.Some? ==> NegatedExact(dep.value, v))
    && (base.Some? ==> PlainExact(base.value, v))
  }

  /** Being placed below `s` is justified: there the entry is not visible unless `s` is on or its prompt is visible
      too. */
  ghost predicate Justified(s: Symbol, base: Option<Expr>, dep: Option<Expr>, cs: set<Symbol>) {
    forall v: Valuation :: Reliable(base, dep, v) && Unambiguous(cs, v) && ValueOpt(dep, v) != NO
      ==> On(s, v) || ValueOpt(base, v) != NO
  }

  predicate Mentions(s: Symbol, dep: Option<Expr>) { dep.Some? && ContainsSymbol(dep.value, s) }

  predicate DependsOutright(s: Symbol, dep: Option<Expr>) {
    dep.Some? && DependsSymbol(dep.value, s)
  }

  lemma {:induction false} DependsContains(e: Expr, s: Symbol)
    requires DependsSymbol(e, s)
    ensures ContainsSymbol(e, s)
  {
    if e.Node? {
      if DependsSymbol(e.l, s) { DependsContains(e.l, s); } else { DependsContains(e.r, s); }
    }
  }

  /** What the comparison looks for: everything the prompt asks for is asked for by the entry, too. */
  ghost predicate HasAllOf(d: Expr, b: Expr) {
    b == Sym(SYM_YES) || (Is(d, AndOp) && Operands(AndOp, b) <= Operands(AndOp, d))
  }

  /** Prepared conditions that duplicate removal leaves alone, and that have no constant operands. */
  ghost predicate Tidy(e: Option<Expr>) { Settled(PreparedOpt(e)) && Free(PreparedOpt(e)) }

  /** The entries that go below the symbol for certain. */
  ghost predicate MustTake(s: Symbol, base: Option<Expr>, dep: Option<Expr>) {
    Mentions(s, dep) && (DependsOutright(s, dep) || base == None ||
      (Tidy(dep) && Tidy(base) && HasAllOf(PreparedOpt(dep), PreparedOpt(base))))
  }

  /** The entry is put below `s` by comparison with the prompt, not by depending on `s`. */
  ghost predicate Compared(s: Symbol, base: Expr, dep: Expr) {
    && ContainsSymbol(dep, s) && !DependsSymbol(dep, s) && Settled(Prepared(dep)) && Settled(Prepared(base))
    && EliminateEq(Prepared(dep), Prepared(base)).1 == Sym(SYM_YES)
  }

  /** Whether the entry with condition `dep` goes below symbol `s`, whose prompt has condition `base`; `visible` is
      `base` prepared once for all entries, and `d` is `dep` prepared. Where the prompt has no condition, or there is no
      prompt, mentioning `s` is enough. */
  method BelongsBelow(s: Symbol, base: Option<Expr>, visible: Expr, dep: Option<Expr>, ghost cs: set<Symbol>)
      returns (b: bool, ghost d: Expr)
    requires TestedOpt(dep) + TestedOpt(base) + LETTERS <= cs
    requires Reads(visible, base, cs) && Clean(base)
    ensures b ==> Mentions(s, dep) && Justified(s, base, dep, cs)
    ensures MustTake(s, base, dep) ==> b
    ensures base == None ==> (b <==> Mentions(s, dep))
    ensures Mentions(s, dep) && !DependsOutright(s, dep) ==> Reads(d, dep, cs) && Settled(d)
    ensures Mentions(s, dep) && !DependsOutright(s, dep) && Free(d) && Free(visible) ==> (b <==> HasAllOf(d, visible))
    ensures dep.Some? && base.Some? && Compared(s, base.value, dep.value) ==> b
  {
    d := PreparedOpt(dep);
    if dep == None || !ContainsSymbol(dep.value, s) {
      if DependsOutright(s, dep) { DependsContains(dep.value, s); }
      return false, d;
    }
    if DependsSymbol(dep.value, s) {
      forall v: Valuation | WellTyped(v) && Value(dep.value, v) != NO
        ensures On(s, v)
      {
        DependsSymbolSound(dep.value, s, v);
      }
      return true, d;
    }
    var dep2 := Visible(dep, cs);
    d := dep2;
    b := EliminateEq(dep2, visible).1 == Sym(SYM_YES);
    if base == None && d.Node? { ConstantStays(d.op, d, Sym(SYM_YES)); }
    if Free(d) && Free(visible) { SupersetExact(d, visible); }
    if b {
      forall v: Valuation | Reliable(base, dep, v) && Unambiguous(cs, v) && Value(dep.value, v) != NO
        ensures ValueOpt(base, v) != NO
      {
        SupersetSound(d, visible, v);
        SeenRises(dep.value, v);
        if base.Some? { SeenSafe(base.value, v); }
      }
    }
  }

  // ---------- examples ----------

  /** Two operands of which neither makes the other redundant. */
  lemma SettledPair(op: Connective, l: Expr, r: Expr)
    requires !Is(l, op) && !Is(r, op) && Settled(l) && Settled(r) && JoinOf(op, l, r) == JoinOf(op, r, l) == None
    ensures Settled(Node(op, l, r))
  {
    var e := Node(op, l, r);
    forall a: Path | IsLeaf(op, e, a)
      ensures a in {[false], [true]} && LeafAt(op, e, a) == Child(e, a[0])
    {
      assert a != [] && IsLeaf(op, Child(e, a[0]), a[1..]);
      assert a[1..] == [] && a == [a[0]];
    }
    assert forall a: Path :: [] + a == a;
  }

  /** `(s || q) && r` goes below s, whose prompt asks for `r`. */
  lemma SharedConditionTaken(s: Symbol, q: Symbol, r: Symbol)
    requires s.Type() == q.Type() == r.Type() == TristateType && s != q && s != r
    ensures MustTake(s, Some(Sym(r)), Some(Node(AndOp, Node(OrOp, Sym(s), Sym(q)), Sym(r))))
    ensures !DependsSymbol(Node(AndOp, Node(OrOp, Sym(s), Sym(q)), Sym(r)), s)
  {
    var dep := Node(AndOp, Node(OrOp, Sym(s), Sym(q)), Sym(r));
    var t := Cmp(Unequal, r, SYM_NO);
    OppositeTest(r);
    TestPrepared(s, q, Sym(r), t);
    PreparedSettled(s, q, t);
    TestHeld(Prepared(dep).l, t);
    assert Prepared(Sym(r)) == t;
  }

  lemma TestHeld(some: Expr, t: Expr)
    requires Is(some, OrOp) && some.l.Cmp? && some.r.Cmp? && t.Cmp?
    ensures Free(Node(AndOp, some, t)) && Free(t) && HasAllOf(Node(AndOp, some, t), t)
  {
    assert Free(some.l) && Free(some.r);
    assert Operands(AndOp, t) == multiset{CanonOf(t)};
    assert Operands(AndOp, Node(AndOp, some, t)) == Operands(AndOp, some) + Operands(AndOp, t);
  }

  lemma PreparedSettled(s: Symbol, q: Symbol, t: Expr)
    requires s.Type() == q.Type() == TristateType && s != q && t.Cmp?
    ensures var some := Node(OrOp, Cmp(Unequal, s, SYM_NO), Cmp(Unequal, q, SYM_NO));
      Settled(some) && Settled(Node(AndOp, some, t)) && Settled(t)
  {
    var some := Node(OrOp, Cmp(Unequal, s, SYM_NO), Cmp(Unequal, q, SYM_NO));
    SettledPair(OrOp, some.l, some.r);
    SettledPair(AndOp, some, t);
  }

  lemma PushNot(op: Connective, l: Expr, r: Expr)
    ensures Transform(Not(Node(op, l, r))) == Node(Dual(op), Transform(Not(Transform(l))), Transform(Not(Transform(r))))
  {
    DeMorganWeight(op, Transform(l), Transform(r));
    assert Transform(Node(op, l, r)) == Node(op, Transform(l), Transform(r));
  }

  lemma OppositeTest(a: Symbol)
    requires a.Type() != Boolean
    ensures Transform(Cmp(Equal, a, SYM_NO)) == Cmp(Equal, a, SYM_NO)
    ensures Transform(Not(Cmp(Equal, a, SYM_NO))) == Cmp(Unequal, a, SYM_NO)
    ensures Transform(Cmp(Unequal, a, SYM_NO)) == Cmp(Unequal, a, SYM_NO)
    ensures Transform(Not(Cmp(Unequal, a, SYM_NO))) == Cmp(Equal, a, SYM_NO)
  {
  }

  /** `(s || q) && x` prepared, where `x` compares with n as the test `t`. */
  lemma TestPrepared(s: Symbol, q: Symbol, x: Expr, t: Expr)
    requires s.Type() == q.Type() == TristateType && Transform(Not(Transform(TransCompare(x, true, false)))) == t
    ensures Prepared(Node(AndOp, Node(OrOp, Sym(s), Sym(q)), x))
         == Node(AndOp, Node(OrOp, Cmp(Unequal, s, SYM_NO), Cmp(Unequal, q, SYM_NO)), t)
  {
    var none := Node(AndOp, Cmp(Equal, s, SYM_NO), Cmp(Equal, q, SYM_NO));
    OppositeTest(s);
    OppositeTest(q);
    assert TransCompare(Node(OrOp, Sym(s), Sym(q)), true, false) == none;
    assert Transform(none) == none;
    PushNot(AndOp, none.l, none.r);
    PushNot(OrOp, none, TransCompare(x, true, false));
  }

  lemma TestShared(some: Expr, t: Expr)
    requires Is(some, OrOp) && t.Cmp?
    ensures EliminateEq(Node(AndOp, some, t), t).1 == Sym(SYM_YES)
  {
    assert !Eq(some, t) && Eq(t, t);
    assert ElimCommon(AndOp, Node(AndOp, some, t), t) == (Node(AndOp, some, Sym(SYM_YES)), Sym(SYM_YES));
  }

  /** Yet it is visible while `s` is n and its prompt is not visible. */
  predicate Stray(s: Symbol, base: Expr, dep: Expr, v: Valuation) {
    Value(dep, v) != NO && !On(s, v) && Value(base, v) == NO
  }

  /** What is asked of negated symbols is needed: `(s || q) && !a` goes below `s` whose prompt asks for `a = n`, since
      `!a` is compared as `a = n`. With s at n and q at y that is wrong exactly while a is m or not compared as it
      is. */
  lemma NegatedUnjustified(s: Symbol, q: Symbol, a: Symbol, v: Valuation)
    requires s.Type() == q.Type() == TristateType && a.Type() != Boolean && a != s
    requires WellTyped(v) && OthersNo(v) && v.tri(s) == NO && v.tri(q) == YES
    ensures var dep, base := Node(AndOp, Node(OrOp, Sym(s), Sym(q)), Not(Sym(a))), Cmp(Equal, a, SYM_NO);
      Compared(s, base, dep) && (Stray(s, base, dep, v) <==> !(v.tri(a) != MOD && ExactAt(a, v)))
  {
    var dep, base := Node(AndOp, Node(OrOp, Sym(s), Sym(q)), Not(Sym(a))), Cmp(Equal, a, SYM_NO);
    OppositeTest(a);
    TestPrepared(s, q, dep.r, base);
    TestShared(Prepared(dep).l, base);
    PreparedSettled(s, q, base);
    ExactSymbol(s, v);
    ExactSymbol(a, v);
    assert Value(dep.l, v) == YES && Value(dep.r, v) == TriNot(v.tri(a));
    assert v.tri(a) != NO ==> ExactAt(a, v);
  }

  /** So is what is asked of bare symbols: `(s || q) && u != n` goes below `s` whose prompt asks for `u`, since `u` is
      compared as `u != n`. With s at n and q at y that is wrong exactly while u is not compared as it is: it is n, and
      the string it holds is not "n". */
  lemma BareUnjustified(s: Symbol, q: Symbol, u: Symbol, v: Valuation)
    requires s.Type() == q.Type() == TristateType && u.Type() != Boolean && u != s
    requires WellTyped(v) && OthersNo(v) && v.tri(s) == NO && v.tri(q) == YES
    ensures var dep, base := Node(AndOp, Node(OrOp, Sym(s), Sym(q)), Cmp(Unequal, u, SYM_NO)), Sym(u);
      Compared(s, base, dep) && (Stray(s, base, dep, v) <==> !ExactAt(u, v))
  {
    var dep, base := Node(AndOp, Node(OrOp, Sym(s), Sym(q)), Cmp(Unequal, u, SYM_NO)), Sym(u);
    var t := Cmp(Unequal, u, SYM_NO);
    OppositeTest(u);
    TestPrepared(s, q, t, t);
    TestShared(Prepared(dep).l, t);
    PreparedSettled(s, q, t);
    ExactSymbol(s, v);
    ExactSymbol(u, v);
    assert !On(s, v) && Value(base, v) == v.tri(u);
    assert Value(dep.l, v) == YES && Value(dep, v) == Value(t, v);
    assert v.tri(u) != NO ==> ExactAt(u, v);
  }
}

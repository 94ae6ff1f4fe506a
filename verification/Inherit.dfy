/** What an entry's condition becomes when the conditions above it are added (the first half of menu_finalize
    and rewrite_m in scripts/config/menu.c, expr_trans_bool in scripts/config/expr.c). */
module Inherit {
  import opened Expressions
  import opened Duplicates
  import opened Normalize
  import opened Submenu

  // ---------- rewrite_m ----------

  /** `m` becomes `m && MODULES`; comparisons with m stay. */
  function RewriteM(e: Expr, modules: Symbol): Expr {
    match e
    case Sym(s) => if s == SYM_MOD then Node(AndOp, e, Sym(modules)) else e
    case Not(x) => Not(RewriteM(x, modules))
    case Node(op, l, r) => Node(op, RewriteM(l, modules), RewriteM(r, modules))
    case Cmp(_, _, _) => e
  }

  /** The value of an expression whose bare `m` counts no more than the modules symbol. */
  function ModuleValue(e: Expr, modules: Symbol, v: Valuation): Tristate {
    match e
    case Sym(s) => if s == SYM_MOD then TriAnd(MOD, v.tri(modules)) else v.tri(s)
    case Not(x) => TriNot(ModuleValue(x, modules, v))
    case Node(op, l, r) => Apply(op, ModuleValue(l, modules, v), ModuleValue(r, modules, v))
    case Cmp(_, _, _) => Value(e, v)
  }

  lemma {:induction false} RewriteMValue(e: Expr, modules: Symbol, v: Valuation)
    requires Constants(v)
    ensures Value(RewriteM(e, modules), v) == ModuleValue(e, modules, v)
  {
    match e {
      case Not(x) => RewriteMValue(x, modules, v);
      case Node(_, l, r) => RewriteMValue(l, modules, v); RewriteMValue(r, modules, v);
      case _ =>
    }
  }

  lemma {:induction false} RewriteMTested(e: Expr, modules: Symbol)
    ensures Tested(RewriteM(e, modules)) == Tested(e)
  {
    match e {
      case Not(x) => RewriteMTested(x, modules);
      case Node(_, l, r) => RewriteMTested(l, modules); RewriteMTested(r, modules);
      case _ =>
    }
  }

  // ---------- expr_trans_bool ----------

  function TransBool(e: Expr): Expr {
    match e
    case Node(op, l, r) => Node(op, TransBool(l), TransBool(r))
    case Not(x) => Not(TransBool(x))
    case Cmp(rel, a, b) => if rel == Unequal && a.Type() == TristateType && b == SYM_NO then Sym(a) else e
    case Sym(_) => e
  }

  /** Turning `A != n` into `A` may lower y to m, but never to n: all a two-valued symbol's prompt asks. */
  lemma {:induction false} TransBoolVisible(e: Expr, v: Valuation)
    requires WellTyped(v) && OnlySymbolsNegated(e)
    ensures Value(TransBool(e), v) <= Value(e, v)
    ensures Value(TransBool(e), v) != NO <==> Value(e, v) != NO
  {
    match e {
      case Node(_, l, r) => TransBoolVisible(l, v); TransBoolVisible(r, v);
      case Cmp(_, a, b) => if a.Type() == TristateType { Join.Levels(a, v); }
      case _ =>
    }
  }

  /** Under a NOT it makes a difference exactly where the tristate is m: there `!(A != n)` is n and its rewrite m. No
      condition of a menu entry has such a NOT when it is rewritten (see NormalClean). */
  lemma TransBoolNegated(a: Symbol, v: Valuation)
    requires WellTyped(v) && a.Type() == TristateType
    ensures (Value(TransBool(Not(Cmp(Unequal, a, SYM_NO))), v) != NO
        <==> Value(Not(Cmp(Unequal, a, SYM_NO)), v) != NO) <==> v.tri(a) != MOD
  {
    Join.Levels(a, v);
  }

  lemma {:induction false} TransBoolShape(e: Expr)
    ensures Tested(TransBool(e)) <= Tested(e)
    ensures OnlySymbolsNegated(e) ==> OnlySymbolsNegated(TransBool(e))
  {
    match e {
      case Not(x) => TransBoolShape(x);
      case Node(_, l, r) => TransBoolShape(l); TransBoolShape(r);
      case _ =>
    }
  }

  /** No tristate is tested for being different from n. */
  predicate NoTristateTest(e: Expr) {
    match e
    case Not(x) => NoTristateTest(x)
    case Node(_, l, r) => NoTristateTest(l) && NoTristateTest(r)
    case Cmp(rel, a, b) => !(rel == Unequal && a.Type() == TristateType && b == SYM_NO)
    case Sym(_) => true
  }

  lemma {:induction false} TransBoolClears(e: Expr)
    ensures NoTristateTest(TransBool(e)) && (NoTristateTest(e) ==> TransBool(e) == e)
  {
    match e {
      case Not(x) => TransBoolClears(x);
      case Node(_, l, r) => TransBoolClears(l); TransBoolClears(r);
      case _ =>
    }
  }

  // ---------- one step of inheritance ----------

  /** The symbol controlling modules and everything that tristates may be tested for. */
  datatype Scope = Scope(modules: Symbol, tested: set<Symbol>)
  {
    ghost predicate Valid() { LETTERS <= tested }

    ghost predicate Knows(v: Valuation) { WellTyped(v) && Unambiguous(tested, v) }

    ghost predicate Covers(e: Option<Expr>) { TestedOpt(e) <= tested }
  }

  function ModuleOpt(e: Option<Expr>, modules: Symbol, v: Valuation): Tristate {
    if e.Some? then ModuleValue(e.value, modules, v) else YES
  }

  lemma {:induction false} NormalClean(e: Expr)
    requires Normal(e)
    ensures OnlySymbolsNegated(e)
  {
    if e.Node? { NormalClean(e.l); NormalClean(e.r); }
  }

  /** expr_alloc_and with a copy of the upper condition. */
  function AllocAnd(a: Option<Expr>, b: Option<Expr>): Option<Expr> {
    if a == None then b else if b == None then a else Some(Node(AndOp, a.value, b.value))
  }

  /** The upper condition ANDed with `own`, after rewrite_m, expr_transform and expr_eliminate_dups. */
  method InheritInto(up: Option<Expr>, own: Option<Expr>, ghost x: Scope, modules: Symbol) returns (r: Option<Expr>)
    requires x.Valid() && x.modules == modules && x.Covers(up) && x.Covers(own) && Clean(up)
    ensures x.Covers(r) && Clean(r)
    ensures forall v: Valuation :: x.Knows(v) ==> ValueOpt(r, v) == TriAnd(ValueOpt(up, v), ModuleOpt(own, modules, v))
    ensures r.Some? ==> NoneRedundant(r.value)
  {
    var mine := if own.Some? then Some(Transform(RewriteM(own.value, modules))) else None;
    var both := AllocAnd(up, mine);
    if own.Some? {
      RewriteMTested(own.value, modules);
      TransformTested(RewriteM(own.value, modules));
      TransformNormal(RewriteM(own.value, modules));
      NormalClean(mine.value);
    }
    forall v: Valuation | x.Knows(v)
      ensures ValueOpt(both, v) == TriAnd(ValueOpt(up, v), ModuleOpt(own, modules, v))
    {
      if own.Some? {
        RewriteMValue(own.value, modules, v);
        TransformValue(RewriteM(own.value, modules), v);
      }
    }
    if both == None { return None; }
    var rw := new Rewriter(both.value, 0);
    rw.EliminateDups();
    r := Some(rw.root);
    forall v: Valuation | x.Knows(v)
      ensures ValueOpt(r, v) == ValueOpt(both, v)
    {
      assert Unambiguous(Tested(both.value) + LETTERS, v);
    }
  }

  /** The condition of the prompt of an entry whose symbol, if any, is `sym`: exact for tristate symbols and
      entries without one, only its being n or not for the others. */
  ghost predicate PromptInherits(sym: Option<Symbol>, dep: Option<Expr>, vis0: Option<Expr>, vis: Option<Expr>,
                                 x: Scope) {
    forall v: Valuation :: x.Knows(v) ==>
      var w := TriAnd(ValueOpt(dep, v), ModuleOpt(vis0, x.modules, v));
      if sym == None || sym.value.Type() == TristateType then ValueOpt(vis, v) == w
      else ValueOpt(vis, v) != NO <==> w != NO
  }

  method InheritPrompt(sym: Option<Symbol>, dep: Option<Expr>, vis0: Option<Expr>, ghost x: Scope, modules: Symbol)
      returns (vis: Option<Expr>)
    requires x.Valid() && x.modules == modules && x.Covers(dep) && x.Covers(vis0) && Clean(dep)
    ensures x.Covers(vis) && Clean(vis) && PromptInherits(sym, dep, vis0, vis, x)
    ensures vis.Some? ==>
      if sym == None || sym.value.Type() == TristateType then NoneRedundant(vis.value) else NoTristateTest(vis.value)
  {
    var e := InheritInto(dep, vis0, x, modules);
    if e == None || sym == None || sym.value.Type() == TristateType { return e; }
    vis := Some(TransBool(e.value));
    TransBoolShape(e.value);
    TransBoolClears(e.value);
    forall v: Valuation | x.Knows(v)
      ensures Value(vis.value, v) != NO <==> TriAnd(ValueOpt(dep, v), ModuleOpt(vis0, modules, v)) != NO
    {
      TransBoolVisible(e.value, v);
      assert ValueOpt(e, v) == TriAnd(ValueOpt(dep, v), ModuleOpt(vis0, modules, v));
    }
  }
}

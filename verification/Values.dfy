/** The values of all symbols as a solution of the equations that sym_calc_value and sym_calc_visibility
    (scripts/config/symbol.c) compute, for symbols that are neither choices nor choice values and have no range, while
    the state of the modules symbol is fixed. */
module Values {
  import opened Expressions
  import opened Cycles

  /** What the user chose for a symbol (SYMBOL_DEF_USER). */
  datatype User = User(tri: Tristate, str: string)

  /** The calculated fields of a symbol: curr, visible, the tri of dir_dep, rev_dep, implied, and SYMBOL_WRITE. */
  datatype Cell = Cell(tri: Tristate, str: string, visible: Tristate, dir: Tristate, rev: Tristate, implied: Tristate,
                       write: bool)

  type Cells = map<Symbol, Cell>

  /** Declarations, user values, whether modules are on, and the C library's number reader. */
  datatype Config = Config(table: Table, user: map<Symbol, User>, modulesOn: bool,
                           parse: (string, SymbolType) -> Option<int>)

  function TriOf(c: Cells, s: Symbol): Tristate { if s in c then c[s].tri else NO }

  function StrOf(c: Cells, s: Symbol): string { if s in c then c[s].str else s.name }

  /** The calculated cells as a valuation of expressions. */
  function View(g: Config, c: Cells): Valuation {
    Valuation(s => TriOf(c, s), s => StrOf(c, s), g.modulesOn, g.parse)
  }

  lemma {:induction false} ValueLocal(e: Expr, g: Config, c: Cells, d: Cells)
    requires forall s :: s in Symbols(e) ==> s in c && s in d && c[s].tri == d[s].tri && c[s].str == d[s].str
    ensures Value(e, View(g, c)) == Value(e, View(g, d))
  {
    match e {
      case Not(x) => ValueLocal(x, g, c, d);
      case Node(_, l, r) => ValueLocal(l, g, c, d); ValueLocal(r, g, c, d);
      case Cmp(_, a, b) => CompareLocal(a, b, g, c, d);
      case Sym(_) =>
    }
  }

  lemma CompareLocal(a: Symbol, b: Symbol, g: Config, c: Cells, d: Cells)
    requires TriOf(c, a) == TriOf(d, a) && StrOf(c, a) == StrOf(d, a)
    requires TriOf(c, b) == TriOf(d, b) && StrOf(c, b) == StrOf(d, b)
    ensures Compare(a, b, View(g, c)) == Compare(a, b, View(g, d))
  {
    assert StringValue(a, View(g, c)) == StringValue(a, View(g, d));
    assert StringValue(b, View(g, c)) == StringValue(b, View(g, d));
  }

  // ---------- the value of a symbol in terms of the others ----------

  /** sym_get_type. */
  function EffectiveType(g: Config, s: Symbol): SymbolType {
    if s.Type() == TristateType && !g.modulesOn then Boolean else s.Type()
  }

  function Promote(g: Config, s: Symbol, t: Tristate): Tristate {
    if t == MOD && EffectiveType(g, s) == Boolean then YES else t
  }

  function OptValue(e: Option<Expr>, none: Tristate, v: Valuation): Tristate {
    if e.Some? then Value(e.value, v) else none
  }

  /** The best prompt. */
  function PromptsValue(ps: seq<Property>, v: Valuation): Tristate {
    if ps == [] then NO
    else if ps[0].kind.Prompt? then TriOr(OptValue(ps[0].visible, YES, v), PromptsValue(ps[1..], v))
    else PromptsValue(ps[1..], v)
  }

  /** sym_get_default_prop: the first default whose condition is not n, with the value of the condition. */
  function DefaultOf(ps: seq<Property>, v: Valuation): Option<(Property, Tristate)> {
    if ps == [] then None
    else if ps[0].kind.Default? && OptValue(ps[0].visible, YES, v) != NO
    then Some((ps[0], OptValue(ps[0].visible, YES, v)))
    else DefaultOf(ps[1..], v)
  }

  /** sym_calc_visibility. */
  function VisibilityOf(g: Config, s: Symbol, v: Valuation): Cell
    requires s in g.table
  {
    var d := g.table[s];
    var p := PromptsValue(d.props, v);
    var visible := if p == MOD && (s.Type() != TristateType || !g.modulesOn) then YES else p;
    var dir := Promote(g, s, OptValue(d.dirDep, YES, v));
    var rev := Promote(g, s, OptValue(d.revDep, NO, v));
    var implied := if dir != NO then Promote(g, s, OptValue(d.implied, NO, v)) else NO;
    Cell(NO, if s.Type() in {Boolean, TristateType} then "n" else "", visible, dir, rev, implied, visible != NO)
  }

  /** All but the implied dependencies is calculated. */
  predicate Reached(c: Cell, to: Cell) { c.visible == to.visible && c.dir == to.dir && c.rev == to.rev }

  predicate Chosen(g: Config, s: Symbol, c: Cell) { c.visible != NO && s in g.user }

  /** The tristate before the direct and reverse dependencies are applied. */
  function Wanted(g: Config, s: Symbol, c: Cell, v: Valuation): Tristate
    requires s in g.table
  {
    if Chosen(g, s, c) then TriAnd(g.user[s].tri, c.visible)
    else match DefaultOf(g.table[s].props, v)
      case None => c.implied
      case Some((p, cond)) => TriOr(TriAnd(OptValue(p.expr, YES, v), cond), c.implied)
  }

  /** A selected symbol whose direct dependencies are not met is forced to n. */
  function Settle(g: Config, s: Symbol, c: Cell, wanted: Tristate): Tristate {
    var t := if c.dir == NO && c.rev != NO then NO else TriOr(wanted, c.rev);
    if t == MOD && (EffectiveType(g, s) == Boolean || c.implied == YES) then YES else t
  }

  function DefaultSymbol(p: Property): Option<Symbol> {
    if p.expr.Some? && p.expr.value.Sym? then Some(p.expr.value.sym) else None
  }

  /** The fixed cells of y, m and n; other symbols start from n. */
  function ConstantCell(s: Symbol): Cell {
    if s == SYM_YES then Cell(YES, "y", NO, NO, NO, NO, false)
    else if s == SYM_MOD then Cell(MOD, "m", NO, NO, NO, NO, false)
    else Cell(NO, if s == SYM_NO then "n" else "", NO, NO, NO, NO, false)
  }

  /** sym_calc_value, given the values of the other symbols. */
  function ValueOf(g: Config, s: Symbol, v: Valuation): Cell
    requires s in g.table
  {
    if s in LETTERS then ConstantCell(s)
    else if s.Type() == Unknown then Cell(NO, s.name, NO, NO, NO, NO, false)
    else
      var c, df := VisibilityOf(g, s, v), DefaultOf(g.table[s].props, v);
      if s.Type() in {Boolean, TristateType} then
        c.(tri := Settle(g, s, c, Wanted(g, s, c, v)),
           write := c.write || (!Chosen(g, s, c) && (c.rev != NO || df.Some? || c.implied != NO)))
      else if Chosen(g, s, c) then c.(str := g.user[s].str)
      else if df.Some? && DefaultSymbol(df.value.0).Some? then
        c.(str := v.val(DefaultSymbol(df.value.0).value), write := true)
      else c
  }

  /** The specification: every symbol has the value its declaration gives it in terms of the others. */
  ghost predicate IsSolution(g: Config, sol: Cells) {
    && Closed(g.table) && sol.Keys == g.table.Keys && LETTERS <= sol.Keys
    && forall s {:trigger SolvedAt(g, sol, s)} :: s in g.table ==> SolvedAt(g, sol, s)
  }

  ghost predicate SolvedAt(g: Config, sol: Cells, s: Symbol)
    requires s in g.table
  {
    s in sol && sol[s] == ValueOf(g, s, View(g, sol))
  }

  // ---------- dependence on the other symbols ----------

  ghost predicate AgreeOn(ss: set<Symbol>, c: Cells, d: Cells) {
    forall s :: s in ss ==> s in c && s in d && c[s].tri == d[s].tri && c[s].str == d[s].str
  }

  lemma OptLocal(e: Option<Expr>, none: Tristate, g: Config, c: Cells, d: Cells)
    requires AgreeOn(Mentioned(e), c, d)
    ensures OptValue(e, none, View(g, c)) == OptValue(e, none, View(g, d))
  {
    if e.Some? { ValueLocal(e.value, g, c, d); }
  }

  lemma {:induction false} PropertiesLocal(ps: seq<Property>, g: Config, c: Cells, d: Cells)
    requires AgreeOn(PropertiesDeps(ps), c, d)
    ensures PromptsValue(ps, View(g, c)) == PromptsValue(ps, View(g, d))
    ensures DefaultOf(ps, View(g, c)) == DefaultOf(ps, View(g, d))
    ensures DefaultOf(ps, View(g, c)).Some? ==> Mentioned(DefaultOf(ps, View(g, c)).value.0.expr) <= PropertiesDeps(ps)
  {
    if ps != [] {
      PropertiesLocal(ps[1..], g, c, d);
      if ps[0].kind.Prompt? || ps[0].kind.Default? { OptLocal(ps[0].visible, YES, g, c, d); }
    }
  }

  /** The value of a symbol depends only on the symbols it is checked against in the search for cycles. */
  lemma ValueOfLocal(g: Config, s: Symbol, c: Cells, d: Cells)
    requires s in g.table && AgreeOn(Deps(g.table[s]), c, d)
    ensures ValueOf(g, s, View(g, c)) == ValueOf(g, s, View(g, d))
  {
    var t, v, w := g.table[s], View(g, c), View(g, d);
    OptLocal(t.dirDep, YES, g, c, d);
    OptLocal(t.revDep, NO, g, c, d);
    OptLocal(t.implied, NO, g, c, d);
    PropertiesLocal(t.props, g, c, d);
    assert VisibilityOf(g, s, v) == VisibilityOf(g, s, w);
    if DefaultOf(t.props, v).Some? {
      var p := DefaultOf(t.props, v).value.0;
      OptLocal(p.expr, YES, g, c, d);
      if DefaultSymbol(p).Some? { assert DefaultSymbol(p).value in Mentioned(p.expr); }
    }
  }

  // ---------- acyclic tables have exactly one solution ----------

  ghost predicate Ranked(t: Table, rank: map<Symbol, nat>) {
    rank.Keys == t.Keys && Closed(t) && forall s {:trigger RankedAt(t, rank, s)} :: s in t ==> RankedAt(t, rank, s)
  }

  ghost predicate RankedAt(t: Table, rank: map<Symbol, nat>, s: Symbol)
    requires s in t
  {
    forall d :: d in Deps(t[s]) ==> d in rank && s in rank && rank[d] < rank[s]
  }

  ghost predicate SameChoice(s: Symbol, u: map<Symbol, User>, w: map<Symbol, User>) {
    (s in u <==> s in w) && (s in u ==> u[s] == w[s])
  }

  lemma ChoiceLocal(g: Config, w: map<Symbol, User>, s: Symbol, v: Valuation)
    requires s in g.table && SameChoice(s, g.user, w)
    ensures ValueOf(g, s, v) == ValueOf(g.(user := w), s, v)
  {
    var h := g.(user := w);
    assert VisibilityOf(g, s, v) == VisibilityOf(h, s, v);
  }

  ghost predicate SameChoicesBelow(t: Table, rank: map<Symbol, nat>, limit: nat, u: map<Symbol, User>,
                                   w: map<Symbol, User>) {
    forall x :: x in t && x in rank && rank[x] < limit ==> SameChoice(x, u, w)
  }

  /** Two solutions agree on every symbol ranked below all those whose user values differ. */
  lemma {:induction false} SolutionsAgree(g: Config, w: map<Symbol, User>, rank: map<Symbol, nat>, limit: nat,
                                          sol: Cells, sol': Cells, s: Symbol)
    requires Ranked(g.table, rank) && SameChoicesBelow(g.table, rank, limit, g.user, w)
    requires IsSolution(g, sol) && IsSolution(g.(user := w), sol') && s in g.table && rank[s] < limit
    ensures sol[s] == sol'[s]
    decreases rank[s]
  {
    assert ClosedAt(g.table, s) && RankedAt(g.table, rank, s);
    forall d | d in Deps(g.table[s])
      ensures d in sol && d in sol' && sol[d] == sol'[d]
    {
      SolutionsAgree(g, w, rank, limit, sol, sol', d);
    }
    ValueOfLocal(g, s, sol, sol');
    ChoiceLocal(g, w, s, View(g, sol'));
    assert SolvedAt(g, sol, s) && SolvedAt(g.(user := w), sol', s);
  }

  /** The cells computed so far: each has its value, and all it depends on is there. */
  ghost predicate Partial(g: Config, c: Cells) {
    forall s {:trigger PartialAt(g, c, s)} :: s in c ==> PartialAt(g, c, s)
  }

  ghost predicate PartialAt(g: Config, c: Cells, s: Symbol)
    requires s in c
  {
    s in g.table && Deps(g.table[s]) <= c.Keys && c[s] == ValueOf(g, s, View(g, c))
  }

  lemma PartialExtend(g: Config, b: Cells, s: Symbol)
    requires Partial(g, b) && s in g.table && s !in b && Deps(g.table[s]) <= b.Keys
    ensures Partial(g, b[s := ValueOf(g, s, View(g, b))])
  {
    var c := b[s := ValueOf(g, s, View(g, b))];
    forall x | x in c
      ensures PartialAt(g, c, x)
    {
      if x != s { assert PartialAt(g, b, x); }
      ValueOfLocal(g, x, b, c);
    }
  }

  /** Along a dependency order the values can be computed one after the other. */
  lemma {:induction false} SolveAlong(g: Config, order: seq<Symbol>) returns (c: Cells)
    requires Ordered(g.table, order)
    ensures c.Keys == Elements(order) && Partial(g, c)
  {
    c := map[];
    if order != [] {
      var n := |order| - 1;
      assert order == order[..n] + [order[n]];
      OrderedPrefix(g.table, order[..n], order[n]);
      c := SolveAlong(g, order[..n]);
      ElementsAppend(order[..n], order[n]);
      if order[n] !in c {
        PartialExtend(g, c, order[n]);
        c := c[order[n] := ValueOf(g, order[n], View(g, c))];
      }
    }
  }

  ghost function RankIn(t: Table, order: seq<Symbol>): map<Symbol, nat>
    requires Elements(order) == t.Keys
  {
    map s | s in t.Keys :: Position(order, s)
  }

  ghost function Position(order: seq<Symbol>, s: Symbol): (k: nat)
    requires s in order
    ensures k < |order| && order[k] == s && s !in order[..k]
  {
    if order[0] == s then 0 else
      assert order == [order[0]] + order[1..];
      var k := Position(order[1..], s);
      assert order[..k + 1] == [order[0]] + order[1..][..k];
      k + 1
  }

  /** A table that passes the check for cycles has a solution and a ranking. */
  lemma SolutionExists(g: Config, order: seq<Symbol>) returns (sol: Cells, rank: map<Symbol, nat>)
    requires Closed(g.table) && LETTERS <= g.table.Keys
    requires Ordered(g.table, order) && Elements(order) == g.table.Keys
    ensures IsSolution(g, sol) && Ranked(g.table, rank)
  {
    sol := SolveAlong(g, order);
    forall s | s in g.table ensures SolvedAt(g, sol, s) { assert PartialAt(g, sol, s); }
    rank := RankIn(g.table, order);
    forall s | s in g.table
      ensures RankedAt(g.table, rank, s)
    {
      var k := rank[s];
      assert OrderedAt(g.table, order, k) && ClosedAt(g.table, s);
      forall d | d in Deps(g.table[s]) ensures d in rank && rank[d] < rank[s] {
      }
    }
  }

  /** It has only one. */
  lemma SolutionUnique(g: Config, rank: map<Symbol, nat>, sol: Cells, sol': Cells)
    requires Ranked(g.table, rank) && IsSolution(g, sol) && IsSolution(g, sol')
    ensures sol == sol'
  {
    forall s | s in sol
      ensures sol[s] == sol'[s]
    {
      SolutionsAgree(g, g.user, rank, rank[s] + 1, sol, sol', s);
    }
  }

  // ---------- what is true of a solution ----------

  /** Calculated values obey the declared types: what the expression rewrites ask of a valuation. */
  lemma SolutionWellTyped(g: Config, sol: Cells)
    requires IsSolution(g, sol)
    requires g.parse("y", Unknown) == g.parse("m", Unknown) == g.parse("n", Unknown) == None
    ensures WellTyped(View(g, sol)) && OthersNo(View(g, sol))
  {
    var v := View(g, sol);
    assert SolvedAt(g, sol, SYM_YES) && SolvedAt(g, sol, SYM_MOD) && SolvedAt(g, sol, SYM_NO);
    forall s: Symbol
      ensures s.Type() == Boolean ==> v.tri(s) != MOD
      ensures s.Type() == TristateType && !v.modulesOn ==> v.tri(s) != MOD
      ensures s.Type() !in {Boolean, TristateType} && s !in LETTERS ==> v.tri(s) == NO
    {
      if s in sol { assert SolvedAt(g, sol, s); }
    }
    forall n: string
      ensures v.val(Const(n)) == n
    {
      if Const(n) in sol { assert SolvedAt(g, sol, Const(n)); }
    }
  }

  // ---------- which property decides ----------

  /** The i-th property is the first default whose condition is not n. */
  ghost predicate DefaultAt(ps: seq<Property>, i: int, v: Valuation) {
    && 0 <= i < |ps| && ps[i].kind.Default? && OptValue(ps[i].visible, YES, v) != NO
    && forall j :: 0 <= j < i && ps[j].kind.Default? ==> OptValue(ps[j].visible, YES, v) == NO
  }

  ghost predicate NoDefault(ps: seq<Property>, v: Valuation) {
    forall j :: 0 <= j < |ps| && ps[j].kind.Default? ==> OptValue(ps[j].visible, YES, v) == NO
  }

  lemma {:induction false} DefaultFound(ps: seq<Property>, v: Valuation)
    ensures forall i :: DefaultAt(ps, i, v) ==> DefaultOf(ps, v) == Some((ps[i], OptValue(ps[i].visible, YES, v)))
    ensures NoDefault(ps, v) <==> DefaultOf(ps, v) == None
    ensures NoDefault(ps, v) || exists i :: DefaultAt(ps, i, v)
  {
    if ps != [] {
      var qs := ps[1..];
      DefaultFound(qs, v);
      if ps[0].kind.Default? && OptValue(ps[0].visible, YES, v) != NO {
        assert DefaultAt(ps, 0, v);
      } else {
        forall i ensures DefaultAt(ps, i, v) <==> i > 0 && DefaultAt(qs, i - 1, v) {
          assert forall j :: 0 < j < |ps| ==> ps[j] == qs[j - 1];
          assert forall j :: 0 <= j < |qs| ==> qs[j] == ps[j + 1];
        }
        if NoDefault(qs, v) {
          forall j | 0 <= j < |ps| && ps[j].kind.Default? ensures OptValue(ps[j].visible, YES, v) == NO {
            if j > 0 { assert ps[j] == qs[j - 1]; }
          }
        } else {
          var i :| DefaultAt(qs, i, v);
          assert DefaultAt(ps, i + 1, v) && !NoDefault(ps, v);
        }
      }
    }
  }

  /** The best of the conditions of the prompts. */
  ghost predicate BestPrompt(ps: seq<Property>, v: Valuation, t: Tristate) {
    && (forall i :: 0 <= i < |ps| && ps[i].kind.Prompt? ==> OptValue(ps[i].visible, YES, v) <= t)
    && (t == NO || exists i :: 0 <= i < |ps| && ps[i].kind.Prompt? && OptValue(ps[i].visible, YES, v) == t)
  }

  lemma {:induction false} PromptsBest(ps: seq<Property>, v: Valuation)
    ensures BestPrompt(ps, v, PromptsValue(ps, v))
  {
    if ps != [] {
      var qs := ps[1..];
      PromptsBest(qs, v);
      assert forall i :: 0 < i < |ps| ==> ps[i] == qs[i - 1];
      assert forall i :: 0 <= i < |qs| ==> qs[i] == ps[i + 1];
    }
  }

  /** What a calculated symbol's dependencies are: visible by its best prompt, m counting as y except for a tristate
      while modules are on; and m counting as y for an effective boolean. */
  lemma SolvedDependencies(g: Config, sol: Cells, s: Symbol) returns (p: Tristate)
    requires IsSolution(g, sol) && s in g.table && s !in LETTERS && s.Type() != Unknown
    ensures BestPrompt(g.table[s].props, View(g, sol), p)
    ensures sol[s].visible == if p == MOD && !(s.Type() == TristateType && g.modulesOn) then YES else p
    ensures var d, c, v := g.table[s], sol[s], View(g, sol);
      var up := t => if t == MOD && (s.Type() == Boolean || (s.Type() == TristateType && !g.modulesOn)) then YES else t;
      && c.dir == up(if d.dirDep.Some? then Value(d.dirDep.value, v) else YES)
      && c.rev == up(if d.revDep.Some? then Value(d.revDep.value, v) else NO)
      && c.implied == (if d.implied.Some? && c.dir != NO then up(Value(d.implied.value, v)) else NO)
  {
    assert SolvedAt(g, sol, s);
    p := PromptsValue(g.table[s].props, View(g, sol));
    PromptsBest(g.table[s].props, View(g, sol));
  }

  /** The value of a boolean or tristate before m is raised to y: the user's, no higher than the visibility, if it is
      visible and set; else that of the first default whose condition is not n, no higher than the condition, or what
      implies it; and never less than what selects it. */
  ghost predicate Reasoned(g: Config, sol: Cells, s: Symbol, t: Tristate)
    requires s in sol && s in g.table
  {
    var ps, c, v := g.table[s].props, sol[s], View(g, sol);
    if c.dir == NO && c.rev != NO then t == NO
    else if c.visible != NO && s in g.user then t == Max(Min(g.user[s].tri, c.visible), c.rev)
    else
      && (forall i :: DefaultAt(ps, i, v) ==>
            t == Max(Max(Min(OptValue(ps[i].expr, YES, v), OptValue(ps[i].visible, YES, v)), c.implied), c.rev))
      && (NoDefault(ps, v) ==> t == Max(c.implied, c.rev))
  }

  function Max(a: int, b: int): int { if a >= b then a else b }

  function Min(a: int, b: int): int { if a <= b then a else b }

  lemma SolvedTristate(g: Config, sol: Cells, s: Symbol) returns (t: Tristate)
    requires IsSolution(g, sol) && s in g.table && s !in LETTERS && s.Type() in {Boolean, TristateType}
    ensures Reasoned(g, sol, s, t)
    ensures var raise := s.Type() == Boolean || !g.modulesOn || sol[s].implied == YES;
      sol[s].tri == if t == MOD && raise then YES else t
    ensures NoDefault(g.table[s].props, View(g, sol)) || exists i :: DefaultAt(g.table[s].props, i, View(g, sol))
    ensures var c := sol[s];
      c.write == (c.visible != NO || c.rev != NO || c.implied != NO || !NoDefault(g.table[s].props, View(g, sol)))
  {
    assert SolvedAt(g, sol, s);
    var v := View(g, sol);
    DefaultFound(g.table[s].props, v);
    var w := Wanted(g, s, sol[s], v);
    t := if sol[s].dir == NO && sol[s].rev != NO then NO else TriOr(w, sol[s].rev);
  }

  /** Strings and numbers: the user's text if visible and set, else what the symbol holds that the first default whose
      condition is not n names, else nothing. */
  lemma SolvedString(g: Config, sol: Cells, s: Symbol)
    requires IsSolution(g, sol) && s in g.table && s.Type() in {IntType, HexType, StringType}
    ensures var ps, c, v := g.table[s].props, sol[s], View(g, sol);
      if c.visible != NO && s in g.user then c.str == g.user[s].str
      else
        && (forall i :: DefaultAt(ps, i, v) ==>
              match ps[i].expr
              case Some(Sym(d)) => c.str == (if d in sol then sol[d].str else d.name)
              case _ => c.str == "")
        && (NoDefault(ps, v) ==> c.str == "")
    ensures sol[s].tri == NO
  {
    assert SolvedAt(g, sol, s);
    DefaultFound(g.table[s].props, View(g, sol));
  }

  /** A symbol that is nowhere declared is n and holds its name. */
  lemma SolvedUnknown(g: Config, sol: Cells, s: Symbol)
    requires IsSolution(g, sol) && s in g.table && s !in LETTERS && s.Type() == Unknown
    ensures sol[s].tri == NO && sol[s].str == s.name
  {
    assert SolvedAt(g, sol, s);
  }

  // ---------- bounds ----------

  /** Selected although its direct dependencies are not met. */
  predicate ForcedOff(c: Cell) { c.dir == NO && c.rev != NO }

  /** The most a symbol is asked to be: by a visible user value, else by its first default and by imply. */
  function Ceiling(g: Config, s: Symbol, c: Cell, v: Valuation): Tristate
    requires s in g.table
  {
    var df := DefaultOf(g.table[s].props, v);
    TriOr(if Chosen(g, s, c) then c.visible else TriOr(if df.Some? then df.value.1 else NO, c.implied), c.rev)
  }

  /** A calculated value is n when the symbol is selected against its direct dependencies, otherwise at least what
      selects it; and never more than prompt, default, imply and select allow, except that m may be raised to y. */
  lemma ValueBounds(g: Config, sol: Cells, s: Symbol)
    requires IsSolution(g, sol) && s in g.table && s.Type() in {Boolean, TristateType}
    ensures ForcedOff(sol[s]) ==> sol[s].tri == NO
    ensures !ForcedOff(sol[s]) ==> sol[s].tri >= sol[s].rev
    ensures EffectiveType(g, s) == Boolean ==> sol[s].tri != MOD
    ensures var top := Ceiling(g, s, sol[s], View(g, sol));
      sol[s].tri <= top
      || (sol[s].tri == YES && top == MOD && (EffectiveType(g, s) == Boolean || sol[s].implied == YES))
  {
    assert SolvedAt(g, sol, s);
    var v := View(g, sol);
    assert sol[s].tri == Settle(g, s, sol[s], Wanted(g, s, sol[s], v));
    assert Wanted(g, s, sol[s], v) <= Ceiling(g, s, sol[s], v);
  }
}

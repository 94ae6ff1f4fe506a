/** Calculation of symbol values in place (sym_calc_value, sym_calc_visibility, expr_calc_value in
    scripts/config/symbol.c and expr.c): every symbol is calculated once and kept until all are cleared. */
module Evaluate {
  import opened Expressions
  import opened Cycles
  import opened Values

  // ---------- the memoising evaluator ----------

  /** SYMBOL_VALID and the calculated fields. */
  datatype Cache = Cache(valid: set<Symbol>, cells: Cells)

  ghost predicate Shape(g: Config, k: Cache) {
    LETTERS <= k.valid && k.cells.Keys == g.table.Keys && k.valid <= g.table.Keys
  }

  /** Valid symbols stay valid and keep their fields. */
  ghost predicate Grows(k: Cache, k': Cache) {
    k.valid <= k'.valid && forall x {:trigger KeptAt(k, k', x)} :: KeptAt(k, k', x)
  }

  ghost predicate KeptAt(k: Cache, k': Cache, x: Symbol) {
    x in k.valid && x in k.cells ==> x in k'.cells && k'.cells[x] == k.cells[x]
  }

  /** What the cache is compared with: a solution and a ranking, if there are any (`acyclic`), and the symbols
      whose calculation is under way. */
  datatype Ideal = Ideal(acyclic: bool, sol: Cells, rank: map<Symbol, nat>, open: set<Symbol>)

  ghost predicate Sound(g: Config, o: Ideal) {
    Closed(g.table) && (o.acyclic ==> IsSolution(g, o.sol) && Ranked(g.table, o.rank))
  }

  ghost predicate Below(o: Ideal, ds: set<Symbol>) {
    forall d, x {:trigger BelowAt(o, d, x)} :: d in ds ==> BelowAt(o, d, x)
  }

  ghost predicate BelowAt(o: Ideal, d: Symbol, x: Symbol) {
    x in o.open && d in o.rank && x in o.rank ==> o.rank[d] < o.rank[x]
  }

  /** Every valid symbol not under way has the value of the solution. */
  ghost predicate Right(k: Cache, o: Ideal) {
    forall x {:trigger RightAt(k, o, x)} :: RightAt(k, o, x)
  }

  ghost predicate RightAt(k: Cache, o: Ideal, x: Symbol) {
    x in k.valid && x !in o.open ==> x in k.cells && x in o.sol && k.cells[x] == o.sol[x]
  }

  ghost predicate Ready(g: Config, k: Cache, o: Ideal, ds: set<Symbol>) {
    o.acyclic && Below(o, ds) && Right(k, o) && ds <= g.table.Keys
  }

  /** What every part of the evaluation does, asked about the symbols `ds`: valid symbols are kept; and if these
      are ranked below all that is under way, the cache stays right and `ok`, the claim about the result, holds. */
  ghost predicate Calc(g: Config, k: Cache, k': Cache, o: Ideal, ds: set<Symbol>, ok: bool) {
    Shape(g, k') && Grows(k, k') && (Ready(g, k, o, ds) ==> Right(k', o) && ok)
  }

  lemma CalcNothing(g: Config, k: Cache, o: Ideal, ds: set<Symbol>)
    requires Shape(g, k)
    ensures Calc(g, k, k, o, ds, true)
  {
  }

  /** One more step, asked about some of the same symbols. */
  lemma CalcThen(g: Config, k: Cache, k1: Cache, k2: Cache, o: Ideal, ds: set<Symbol>, b: set<Symbol>, p: bool, q: bool)
    requires Calc(g, k, k1, o, ds, p) && Calc(g, k1, k2, o, b, q) && b <= ds
    ensures Calc(g, k, k2, o, ds, p && q)
  {
    forall x ensures KeptAt(k, k2, x) {
      assert KeptAt(k, k1, x) && KeptAt(k1, k2, x);
    }
    if Ready(g, k, o, ds) { BelowPart(o, ds, b); }
  }

  lemma BelowPart(o: Ideal, ds: set<Symbol>, b: set<Symbol>)
    requires Below(o, ds) && b <= ds
    ensures Below(o, b)
  {
  }

  /** A symbol just calculated can be read off the cache. */
  ghost predicate Known(k: Cache, o: Ideal, s: Symbol) {
    s in k.valid && s !in o.open && s in k.cells && s in o.sol && k.cells[s] == o.sol[s]
  }

  lemma KnownCompare(g: Config, k: Cache, o: Ideal, a: Symbol, b: Symbol)
    requires Known(k, o, a) && Known(k, o, b)
    ensures Compare(a, b, View(g, k.cells)) == Compare(a, b, View(g, o.sol))
  {
  }

  lemma KnownLater(k: Cache, k': Cache, o: Ideal, s: Symbol)
    requires Known(k, o, s) && Grows(k, k')
    ensures Known(k', o, s)
  {
    assert KeptAt(k, k', s);
  }

  lemma KnownValid(g: Config, k: Cache, o: Ideal, s: Symbol)
    requires Shape(g, k) && s in k.valid && (o.acyclic ==> Ranked(g.table, o.rank))
    ensures Calc(g, k, k, o, {s}, Known(k, o, s))
  {
    if Ready(g, k, o, {s}) {
      assert BelowAt(o, s, s) && RightAt(k, o, s);
    }
  }

  // ---------- while one symbol is under way ----------

  /** The same, but the fields of `s` itself, which is under way, may be written. */
  ghost predicate Work(g: Config, k: Cache, k': Cache, o: Ideal, s: Symbol, ds: set<Symbol>, ok: bool) {
    && Shape(g, k') && s in o.open && s in k'.valid
    && k.valid <= k'.valid && (forall x {:trigger KeptAt(k, k', x)} :: x != s ==> KeptAt(k, k', x))
    && (Ready(g, k, o, ds) ==> Right(k', o) && ok)
  }

  lemma WorkNothing(g: Config, k: Cache, o: Ideal, s: Symbol, ds: set<Symbol>)
    requires Shape(g, k) && s in o.open && s in k.valid
    ensures Work(g, k, k, o, s, ds, true)
  {
  }

  /** One more step of evaluation. */
  lemma WorkThen(g: Config, k: Cache, k1: Cache, k2: Cache, o: Ideal, s: Symbol, ds: set<Symbol>, b: set<Symbol>,
                 p: bool, q: bool)
    requires Work(g, k, k1, o, s, ds, p) && Calc(g, k1, k2, o, b, q) && b <= ds
    ensures Work(g, k, k2, o, s, ds, p && q)
    ensures s in k1.cells && s in k2.cells && k2.cells[s] == k1.cells[s]
  {
    assert KeptAt(k1, k2, s);
    forall x | x != s ensures KeptAt(k, k2, x) {
      assert KeptAt(k, k1, x) && KeptAt(k1, k2, x);
    }
    if Ready(g, k, o, ds) { BelowPart(o, ds, b); }
  }

  /** New fields of the symbol under way are stored. */
  lemma WorkStore(g: Config, k: Cache, k': Cache, o: Ideal, s: Symbol, ds: set<Symbol>, ok: bool, c: Cell)
    requires Work(g, k, k', o, s, ds, ok)
    ensures Work(g, k, k'.(cells := k'.cells[s := c]), o, s, ds, ok)
  {
    var k'' := k'.(cells := k'.cells[s := c]);
    assert k''.cells.Keys == k'.cells.Keys;
    forall x | x != s ensures KeptAt(k, k'', x) {
      assert KeptAt(k, k', x);
    }
    if Ready(g, k, o, ds) {
      forall x ensures RightAt(k'', o, x) {
        assert RightAt(k', o, x);
      }
    }
  }

  /** Starting on a symbol: it is valid from now on, and under way. */
  lemma WorkStart(g: Config, k: Cache, o: Ideal, s: Symbol)
    requires Shape(g, k) && s in g.table && s !in k.valid && (o.acyclic ==> Ranked(g.table, o.rank))
    ensures var (k', o') := (k.(valid := k.valid + {s}), o.(open := o.open + {s}));
      Shape(g, k') && (Ready(g, k, o, {s}) ==> Ready(g, k', o', Deps(g.table[s])) && s !in o.open)
  {
    var k', o' := k.(valid := k.valid + {s}), o.(open := o.open + {s});
    if Ready(g, k, o, {s}) {
      assert ClosedAt(g.table, s) && RankedAt(g.table, o.rank, s) && BelowAt(o, s, s);
      forall d, x | d in Deps(g.table[s]) ensures BelowAt(o', d, x) {
        assert BelowAt(o, s, x);
      }
      forall x ensures RightAt(k', o', x) {
        assert RightAt(k, o, x);
      }
    }
  }

  /** Done: if what is stored is what the declaration gives in terms of the solution, the symbol is known. */
  lemma WorkEnd(g: Config, k: Cache, k': Cache, o: Ideal, s: Symbol, ok: bool, ideal: Cell)
    requires Shape(g, k) && s in g.table && s !in k.valid
    requires o.acyclic ==> Ranked(g.table, o.rank) && s in o.sol && o.sol[s] == ideal
    requires Work(g, k.(valid := k.valid + {s}), k', o.(open := o.open + {s}), s, Deps(g.table[s]), ok)
    requires ok ==> s in k'.cells && k'.cells[s] == ideal
    ensures Calc(g, k, k', o, {s}, Known(k', o, s)) && s in k'.valid
  {
    forall x ensures KeptAt(k, k', x) {
      if x != s { assert KeptAt(k.(valid := k.valid + {s}), k', x); }
    }
    WorkStart(g, k, o, s);
    if Ready(g, k, o, {s}) {
      forall x ensures RightAt(k', o, x) {
        assert RightAt(k', o.(open := o.open + {s}), x);
      }
    }
  }

  class Evaluator {
    const g: Config
    var valid: set<Symbol>
    var cells: Cells

    constructor (g: Config)
      requires LETTERS <= g.table.Keys
      ensures this.g == g && valid == LETTERS && Shape(g, K())
      ensures forall s :: s in LETTERS ==> cells[s] == ConstantCell(s)
    {
      this.g := g;
      valid := LETTERS;
      cells := map s | s in g.table.Keys :: ConstantCell(s);
    }

    ghost function K(): Cache
      reads this
    {
      Cache(valid, cells)
    }

    /** expr_calc_value. */
    method EvalExpr(e: Expr, ghost o: Ideal) returns (r: Tristate)
      requires Shape(g, K()) && Symbols(e) <= g.table.Keys && Sound(g, o)
      modifies this
      ensures Calc(g, old(K()), K(), o, Symbols(e), r == Value(e, View(g, o.sol)))
      ensures Symbols(e) <= valid
      decreases g.table.Keys - valid, 0, Size(e)
    {
      ghost var k, v, ds := K(), View(g, o.sol), Symbols(e);
      CalcNothing(g, k, o, ds);
      match e
      case Sym(s) =>
        CalcValue(s, o);
        r := cells[s].tri;
      case Not(x) =>
        var a := EvalExpr(x, o);
        r := TriNot(a);
      case Node(op, x, y) =>
        var a := EvalExpr(x, o);
        ghost var k1 := K();
        CalcThen(g, k, k, k1, o, ds, Symbols(x), true, a == Value(x, v));
        var b := EvalExpr(y, o);
        CalcThen(g, k, k1, K(), o, ds, Symbols(y), a == Value(x, v), b == Value(y, v));
        r := Apply(op, a, b);
      case Cmp(rel, a, b) =>
        CalcValue(a, o);
        ghost var k1 := K();
        CalcThen(g, k, k, k1, o, ds, {a}, true, Known(k1, o, a));
        CalcValue(b, o);
        CalcThen(g, k, k1, K(), o, ds, {b}, Known(k1, o, a), Known(K(), o, b));
        r := if Holds(rel, Compare(a, b, View(g, cells))) then YES else NO;
        if Known(k1, o, a) && Known(K(), o, b) {
          KnownLater(k1, K(), o, a);
          KnownCompare(g, K(), o, a, b);
        }
    }

    method EvalOpt(e: Option<Expr>, none: Tristate, ghost o: Ideal) returns (r: Tristate)
      requires Shape(g, K()) && Mentioned(e) <= g.table.Keys && Sound(g, o)
      modifies this
      ensures Calc(g, old(K()), K(), o, Mentioned(e), r == OptValue(e, none, View(g, o.sol)))
      decreases g.table.Keys - valid, 0, if e.Some? then 1 + Size(e.value) else 1
    {
      CalcNothing(g, K(), o, Mentioned(e));
      r := none;
      if e.Some? { r := EvalExpr(e.value, o); }
    }

    /** The loop over the prompts in sym_calc_visibility. */
    method CalcPrompts(ps: seq<Property>, ghost o: Ideal) returns (r: Tristate)
      requires Shape(g, K()) && PropertiesDeps(ps) <= g.table.Keys && Sound(g, o)
      modifies this
      ensures Calc(g, old(K()), K(), o, PropertiesDeps(ps), r == PromptsValue(ps, View(g, o.sol)))
      decreases g.table.Keys - valid, 1, 0
    {
      ghost var k, v, ds := K(), View(g, o.sol), PropertiesDeps(ps);
      CalcNothing(g, k, o, ds);
      r := NO;
      var i := 0;
      assert ps[0..] == ps;
      while i < |ps|
        invariant i <= |ps| && Calc(g, k, K(), o, ds, PromptsValue(ps, v) == TriOr(r, PromptsValue(ps[i..], v)))
      {
        ghost var k1, rest := K(), PromptsValue(ps[i + 1..], v);
        ghost var ok := PromptsValue(ps, v) == TriOr(r, PromptsValue(ps[i..], v));
        PropertiesSplit(ps, i);
        assert ps[i..][1..] == ps[i + 1..];
        assert PromptsValue(ps[i..], v)
            == if ps[i].kind.Prompt? then TriOr(OptValue(ps[i].visible, YES, v), rest) else rest;
        if ps[i].kind.Prompt? {
          var t := EvalOpt(ps[i].visible, YES, o);
          CalcThen(g, k, k1, K(), o, ds, Mentioned(ps[i].visible), ok, t == OptValue(ps[i].visible, YES, v));
          r := TriOr(r, t);
        }
        i := i + 1;
      }
      assert ps[i..] == [];
    }

    /** sym_get_default_prop. */
    method GetDefault(ps: seq<Property>, ghost o: Ideal) returns (r: Option<(Property, Tristate)>)
      requires Shape(g, K()) && PropertiesDeps(ps) <= g.table.Keys && Sound(g, o)
      modifies this
      ensures Calc(g, old(K()), K(), o, PropertiesDeps(ps), r == DefaultOf(ps, View(g, o.sol)))
      ensures r.Some? ==> Mentioned(r.value.0.expr) <= PropertiesDeps(ps)
      decreases g.table.Keys - valid, 1, 0
    {
      ghost var k, v, ds := K(), View(g, o.sol), PropertiesDeps(ps);
      CalcNothing(g, k, o, ds);
      var i := 0;
      assert ps[0..] == ps;
      while i < |ps|
        invariant i <= |ps| && Calc(g, k, K(), o, ds, DefaultOf(ps, v) == DefaultOf(ps[i..], v))
      {
        ghost var k1, ok := K(), DefaultOf(ps, v) == DefaultOf(ps[i..], v);
        PropertiesSplit(ps, i);
        assert ps[i..][1..] == ps[i + 1..];
        if ps[i].kind.Default? {
          var t := EvalOpt(ps[i].visible, YES, o);
          CalcThen(g, k, k1, K(), o, ds, Mentioned(ps[i].visible), ok, t == OptValue(ps[i].visible, YES, v));
          if t != NO { return Some((ps[i], t)); }
        }
        i := i + 1;
      }
      assert ps[i..] == [];
      r := None;
    }

    method CalcValue(s: Symbol, ghost o: Ideal)
      requires Shape(g, K()) && s in g.table && Sound(g, o)
      modifies this
      ensures Calc(g, old(K()), K(), o, {s}, Known(K(), o, s)) && s in valid
      decreases g.table.Keys - valid, 0, 0
    {
      if s in valid {
        KnownValid(g, K(), o, s);
        return;
      }
      ghost var k, o' := K(), o.(open := o.open + {s});
      WorkStart(g, k, o, s);
      valid := valid + {s};
      CalcSymbol(s, o');
      ghost var ideal := ValueOf(g, s, View(g, o.sol));
      if o.acyclic { assert SolvedAt(g, o.sol, s); }
      WorkEnd(g, k, K(), o, s, cells[s] == ideal, ideal);
    }

    /** Stores the fields of the symbol under way. */
    method Store(s: Symbol, c: Cell, ghost k: Cache, ghost o: Ideal, ghost ok: bool)
      requires s in g.table && Work(g, k, K(), o, s, Deps(g.table[s]), ok)
      modifies this
      ensures Work(g, k, K(), o, s, Deps(g.table[s]), ok) && valid == old(valid) && cells == old(cells)[s := c]
    {
      WorkStore(g, k, K(), o, s, Deps(g.table[s]), ok, c);
      cells := cells[s := c];
    }

    /** An expression of the declaration of the symbol under way. */
    method Consult(s: Symbol, e: Option<Expr>, none: Tristate, ghost k: Cache, ghost o: Ideal, ghost ok: bool)
          returns (r: Tristate)
      requires s in g.table && Work(g, k, K(), o, s, Deps(g.table[s]), ok) && Sound(g, o) &&
          Mentioned(e) <= Deps(g.table[s])
      modifies this
      ensures Work(g, k, K(), o, s, Deps(g.table[s]), ok && r == OptValue(e, none, View(g, o.sol)))
      ensures cells[s] == old(cells)[s] && old(valid) <= valid
      decreases g.table.Keys - valid, 1, 0
    {
      assert ClosedAt(g.table, s);
      ghost var k1 := K();
      r := EvalOpt(e, none, o);
      WorkThen(g, k, k1, K(), o, s, Deps(g.table[s]), Mentioned(e), ok, r == OptValue(e, none, View(g, o.sol)));
    }

    method ConsultDefault(s: Symbol, ghost k: Cache, ghost o: Ideal, ghost ok: bool)
          returns (r: Option<(Property, Tristate)>)
      requires s in g.table && Work(g, k, K(), o, s, Deps(g.table[s]), ok) && Sound(g, o)
      modifies this
      ensures Work(g, k, K(), o, s, Deps(g.table[s]), ok && r == DefaultOf(g.table[s].props, View(g, o.sol)))
      ensures r.Some? ==> Mentioned(r.value.0.expr) <= Deps(g.table[s])
      ensures cells[s] == old(cells)[s] && old(valid) <= valid
      decreases g.table.Keys - valid, 2, 0
    {
      assert ClosedAt(g.table, s);
      ghost var k1, ps := K(), g.table[s].props;
      r := GetDefault(g.table[s].props, o);
      WorkThen(g, k, k1, K(), o, s, Deps(g.table[s]), PropertiesDeps(ps), ok, r == DefaultOf(ps, View(g, o.sol)));
    }

    /** The part of sym_calc_value after the symbol has been marked valid. */
    method CalcSymbol(s: Symbol, ghost o: Ideal)
      requires Shape(g, K()) && s in g.table && Sound(g, o) && s in valid && s in o.open && s !in LETTERS
      modifies this
      ensures s in cells
      ensures Work(g, old(K()), K(), o, s, Deps(g.table[s]), cells[s] == ValueOf(g, s, View(g, o.sol)))
      decreases g.table.Keys - valid, 5, 0
    {
      ghost var k := K();
      WorkNothing(g, k, o, s, Deps(g.table[s]));
      if s.Type() == Unknown {
        Store(s, Cell(NO, s.name, NO, NO, NO, NO, false), k, o, true);
        return;
      }
      CalcVisibility(s, k, o);
      if s.Type() in {Boolean, TristateType} {
        CalcTristate(s, k, o);
      } else {
        CalcString(s, k, o);
      }
    }

    /** sym_calc_visibility; afterwards the value starts from n or the empty string. */
    method CalcVisibility(s: Symbol, ghost k: Cache, ghost o: Ideal)
      requires s in g.table && Sound(g, o) && Work(g, k, K(), o, s, Deps(g.table[s]), true)
      modifies this
      ensures s in cells && old(valid) <= valid
      ensures Work(g, k, K(), o, s, Deps(g.table[s]), cells[s] == VisibilityOf(g, s, View(g, o.sol)))
      decreases g.table.Keys - valid, 3, 0
    {
      var d, c := g.table[s], cells[s];
      ghost var v := View(g, o.sol);
      ghost var k1 := K();
      assert ClosedAt(g.table, s);
      var p := CalcPrompts(d.props, o);
      ghost var ok := p == PromptsValue(d.props, v);
      WorkThen(g, k, k1, K(), o, s, Deps(d), PropertiesDeps(d.props), true, ok);
      c := c.(visible := if p == MOD && (s.Type() != TristateType || !g.modulesOn) then YES else p);
      Store(s, c, k, o, ok);
      CalcDependencies(s, c.visible, k, o, ok);
    }

    /** The second half of sym_calc_visibility: direct, reverse and implied dependencies. */
    method CalcDependencies(s: Symbol, visible: Tristate, ghost k: Cache, ghost o: Ideal, ghost ok0: bool)
      requires s in g.table && Sound(g, o) && s in cells && cells[s].visible == visible
      requires Work(g, k, K(), o, s, Deps(g.table[s]), ok0)
      requires ok0 ==> visible == VisibilityOf(g, s, View(g, o.sol)).visible
      modifies this
      ensures s in cells && old(valid) <= valid
      ensures Work(g, k, K(), o, s, Deps(g.table[s]), cells[s] == VisibilityOf(g, s, View(g, o.sol)))
      decreases g.table.Keys - valid, 2, 1
    {
      var d, c := g.table[s], cells[s];
      ghost var v, ok := View(g, o.sol), ok0;
      var t := Consult(s, d.dirDep, YES, k, o, ok);
      ok := ok && t == OptValue(d.dirDep, YES, v);
      c := c.(dir := Promote(g, s, t));
      Store(s, c, k, o, ok);
      var u := Consult(s, d.revDep, NO, k, o, ok);
      ok := ok && u == OptValue(d.revDep, NO, v);
      Store(s, c.(rev := Promote(g, s, u)), k, o, ok);
      CalcImplied(s, k, o, ok);
    }

    /** Implied dependencies count only where the direct ones are met. */
    method CalcImplied(s: Symbol, ghost k: Cache, ghost o: Ideal, ghost ok: bool)
      requires s in g.table && Sound(g, o) && s in cells
      requires Work(g, k, K(), o, s, Deps(g.table[s]), ok)
      requires ok ==> Reached(cells[s], VisibilityOf(g, s, View(g, o.sol)))
      modifies this
      ensures s in cells && old(valid) <= valid
      ensures Work(g, k, K(), o, s, Deps(g.table[s]), cells[s] == VisibilityOf(g, s, View(g, o.sol)))
      decreases g.table.Keys - valid, 2, 0
    {
      var c, w := cells[s], NO;
      ghost var ok1 := ok;
      if c.dir != NO {
        w := Consult(s, g.table[s].implied, NO, k, o, ok);
        ok1 := ok && w == OptValue(g.table[s].implied, NO, View(g, o.sol));
      }
      c := Cell(NO, if s.Type() in {Boolean, TristateType} then "n" else "", c.visible, c.dir, c.rev,
                Promote(g, s, w), c.visible != NO);
      Store(s, c, k, o, ok1);
    }

    /** The branch of sym_calc_value for booleans and tristates. */
    method CalcTristate(s: Symbol, ghost k: Cache, ghost o: Ideal)
      requires s in g.table && Sound(g, o) && s.Type() in {Boolean, TristateType} && s in cells
      requires Work(g, k, K(), o, s, Deps(g.table[s]), cells[s] == VisibilityOf(g, s, View(g, o.sol)))
      modifies this
      ensures s in cells
      ensures Work(g, k, K(), o, s, Deps(g.table[s]), cells[s] == ValueOf(g, s, View(g, o.sol)))
      decreases g.table.Keys - valid, 3, 0
    {
      ghost var v := View(g, o.sol);
      var c := cells[s];
      ghost var ok := c == VisibilityOf(g, s, v);
      var t, write := NO, c.write;
      if Chosen(g, s, c) {
        t := TriAnd(g.user[s].tri, c.visible);
      } else {
        var df := ConsultDefault(s, k, o, ok);
        ok := ok && df == DefaultOf(g.table[s].props, v);
        write := write || c.rev != NO || df.Some? || c.implied != NO;
        if df.Some? {
          t := Consult(s, df.value.0.expr, YES, k, o, ok);
          ok := ok && t == OptValue(df.value.0.expr, YES, v);
          t := TriAnd(t, df.value.1);
        }
        t := TriOr(t, c.implied);
      }
      Store(s, c.(tri := Settle(g, s, c, t), write := write), k, o, ok);
    }

    /** The branch for string, int and hex symbols. */
    method CalcString(s: Symbol, ghost k: Cache, ghost o: Ideal)
      requires s in g.table && Sound(g, o) && s.Type() !in {Boolean, TristateType, Unknown} && s in cells
      requires Work(g, k, K(), o, s, Deps(g.table[s]), cells[s] == VisibilityOf(g, s, View(g, o.sol)))
      modifies this
      ensures s in cells
      ensures Work(g, k, K(), o, s, Deps(g.table[s]), cells[s] == ValueOf(g, s, View(g, o.sol)))
      decreases g.table.Keys - valid, 3, 0
    {
      ghost var v := View(g, o.sol);
      var c := cells[s];
      ghost var ok := c == VisibilityOf(g, s, v);
      if Chosen(g, s, c) {
        c := c.(str := g.user[s].str);
      } else {
        var df := ConsultDefault(s, k, o, ok);
        ok := ok && df == DefaultOf(g.table[s].props, v);
        if df.Some? && DefaultSymbol(df.value.0).Some? {
          var ds := DefaultSymbol(df.value.0).value;
          ghost var k1 := K();
          assert ClosedAt(g.table, s);
          CalcValue(ds, o);
          WorkThen(g, k, k1, K(), o, s, Deps(g.table[s]), {ds}, ok, Known(K(), o, ds));
          ok := ok && Known(K(), o, ds);
          c := c.(str := cells[ds].str, write := true);
        }
      }
      Store(s, c, k, o, ok);
    }
  }

  // ---------- what follows ----------

  /** Requests in any order, with any repetition, give each symbol the one value of the specification. */
  method CalcAll(g: Config, symbols: seq<Symbol>, ghost sol: Cells, ghost rank: map<Symbol, nat>) returns (cells: Cells)
    requires IsSolution(g, sol) && Ranked(g.table, rank)
    requires forall i :: 0 <= i < |symbols| ==> symbols[i] in g.table
    ensures forall i :: 0 <= i < |symbols| ==> symbols[i] in cells && cells[symbols[i]] == sol[symbols[i]]
  {
    var e := new Evaluator(g);
    ghost var o := Ideal(true, sol, rank, {});
    forall x ensures RightAt(e.K(), o, x) {
      if x in LETTERS { assert SolvedAt(g, sol, x); }
    }
    var i := 0;
    while i < |symbols|
      invariant i <= |symbols| && e.g == g && Shape(g, e.K()) && Right(e.K(), o)
      invariant forall j :: 0 <= j < i ==> symbols[j] in e.valid
    {
      e.CalcValue(symbols[i], o);
      i := i + 1;
    }
    cells := e.cells;
    forall j | 0 <= j < |symbols|
      ensures symbols[j] in cells && cells[symbols[j]] == sol[symbols[j]]
    {
      assert RightAt(e.K(), o, symbols[j]);
    }
  }

  /** A table that passes the check for cycles has one solution, and every request is answered with its value. */
  method CheckAndCalc(g: Config, symbols: seq<Symbol>, requests: seq<Symbol>)
        returns (errors: nat, cells: Cells, ghost sol: Cells)
    requires Closed(g.table) && LETTERS <= g.table.Keys && Elements(symbols) == g.table.Keys
    requires forall i :: 0 <= i < |requests| ==> requests[i] in g.table
    ensures errors == 0 <==> Acyclic(g.table)
    ensures errors == 0 ==> IsSolution(g, sol)
    ensures errors == 0 ==> forall other {:trigger IsSolution(g, other)} :: IsSolution(g, other) ==> other == sol
    ensures errors == 0 ==> forall i :: 0 <= i < |requests| ==>
        requests[i] in cells && cells[requests[i]] == sol[requests[i]]
  {
    ghost var order;
    errors, order := CheckAll(g.table, symbols, true);
    cells, sol := map[], map[];
    if errors == 0 {
      ghost var rank;
      sol, rank := SolutionExists(g, order);
      forall other | IsSolution(g, other) ensures other == sol { SolutionUnique(g, rank, other, sol); }
      cells := CalcAll(g, requests, sol, rank);
    }
  }
}

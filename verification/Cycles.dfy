/** The recursive dependency check (sym_check_deps and its helpers in scripts/config/symbol.c, and the loop over all
    symbols in conf_parse, scripts/config/parser.y), for symbols that are neither choices nor choice values. */
module Cycles {
  import opened Expressions

  datatype PropertyKind = Prompt | Default | Select | Imply | Range | Other

  datatype Property = Property(kind: PropertyKind, visible: Option<Expr>, expr: Option<Expr>)

  datatype Declaration = Declaration(dirDep: Option<Expr>, revDep: Option<Expr>, implied: Option<Expr>,
                                     props: seq<Property>)

  // ---------- the dependency relation ----------

  function Mentioned(e: Option<Expr>): set<Symbol> {
    if e.Some? then Symbols(e.value) else {}
  }

  /** A property depends on the symbols of its condition, a default also on those of its value; select and
      imply count for the symbol they point at. */
  function PropertyDeps(p: Property): set<Symbol> {
    if p.kind.Select? || p.kind.Imply? then {}
    else Mentioned(p.visible) + (if p.kind.Default? then Mentioned(p.expr) else {})
  }

  function PropertiesDeps(ps: seq<Property>): set<Symbol> {
    if ps == [] then {} else PropertyDeps(ps[0]) + PropertiesDeps(ps[1..])
  }

  function Deps(d: Declaration): set<Symbol> {
    Mentioned(d.dirDep) + Mentioned(d.revDep) + Mentioned(d.implied) + PropertiesDeps(d.props)
  }

  /** By index: a symbol depends on what its direct, reverse and implied dependencies mention, the conditions of its
      properties but select and imply, and the values of its defaults. */
  lemma {:induction false} DepsExact(d: Declaration, s: Symbol)
    ensures s in Deps(d) <==>
      s in Mentioned(d.dirDep) || s in Mentioned(d.revDep) || s in Mentioned(d.implied) ||
      exists i :: 0 <= i < |d.props| && DependsBy(d.props[i], s)
  {
    PropertiesExact(d.props, s);
  }

  predicate DependsBy(p: Property, s: Symbol) {
    && p.kind != Select && p.kind != Imply
    && (s in Mentioned(p.visible) || (p.kind == Default && s in Mentioned(p.expr)))
  }

  lemma {:induction false} PropertiesExact(ps: seq<Property>, s: Symbol)
    ensures s in PropertiesDeps(ps) <==> exists i :: 0 <= i < |ps| && DependsBy(ps[i], s)
  {
    if ps != [] {
      PropertiesExact(ps[1..], s);
      assert forall i :: 0 < i < |ps| ==> ps[i] == ps[1..][i - 1];
      assert forall i :: 0 <= i < |ps[1..]| ==> ps[1..][i] == ps[i + 1];
    }
  }

  type Table = map<Symbol, Declaration>

  /** Every symbol mentioned is in the table. */
  ghost predicate Closed(t: Table) {
    forall s {:trigger ClosedAt(t, s)} :: s in t ==> ClosedAt(t, s)
  }

  ghost predicate ClosedAt(t: Table, s: Symbol)
    requires s in t
  {
    Deps(t[s]) <= t.Keys
  }

  ghost predicate IsPath(t: Table, p: seq<Symbol>) {
    && (forall i :: 0 <= i < |p| ==> p[i] in t)
    && (forall i, j :: 0 <= i < j < |p| && j == i + 1 ==> p[j] in Deps(t[p[i]]))
  }

  ghost predicate IsCycle(t: Table, p: seq<Symbol>) {
    |p| >= 2 && IsPath(t, p) && p[0] == p[|p| - 1]
  }

  ghost predicate Acyclic(t: Table) {
    forall p :: !IsCycle(t, p)
  }

  /** Each symbol comes after all it depends on. */
  ghost predicate Ordered(t: Table, order: seq<Symbol>) {
    forall i {:trigger OrderedAt(t, order, i)} :: 0 <= i < |order| ==> OrderedAt(t, order, i)
  }

  ghost predicate OrderedAt(t: Table, order: seq<Symbol>, i: int)
    requires 0 <= i < |order|
  {
    order[i] in t && Deps(t[order[i]]) <= Elements(order[..i])
  }

  ghost function Elements(s: seq<Symbol>): set<Symbol> {
    set x | x in s
  }

  lemma ElementsAppend(p: seq<Symbol>, s: Symbol)
    ensures Elements(p + [s]) == Elements(p) + {s}
  {
    assert forall x :: x in p + [s] <==> x in p || x == s;
  }

  lemma {:induction false} OrderedPath(t: Table, order: seq<Symbol>, p: seq<Symbol>, k: nat)
    requires Ordered(t, order) && IsPath(t, p) && |p| >= 2 && k < |order| && order[k] == p[0]
    ensures exists j :: 0 <= j < k && order[j] == p[|p| - 1]
  {
    assert OrderedAt(t, order, k) && p[1] in Elements(order[..k]);
    var n :| 0 <= n < k && order[n] == p[1];
    if |p| > 2 { OrderedPath(t, order, p[1..], n); }
  }

  /** A complete order excludes cycles. */
  lemma OrderedAcyclic(t: Table, order: seq<Symbol>)
    requires Ordered(t, order) && Elements(order) == t.Keys
    ensures Acyclic(t)
  {
    forall p | IsCycle(t, p)
      ensures false
    {
      var k := FirstIndex(order, p[0]);
      OrderedPath(t, order, p, k);
    }
  }

  lemma {:induction false} FirstIndex(order: seq<Symbol>, s: Symbol) returns (k: nat)
    requires s in order
    ensures k < |order| && order[k] == s && forall j :: 0 <= j < k ==> order[j] != s
  {
    k := 0;
    while order[k] != s
      invariant k < |order| && s in order[k..] && forall j :: 0 <= j < k ==> order[j] != s
      decreases |order| - k
    {
      k := k + 1;
    }
  }

  ghost predicate OnCycle(t: Table, s: Symbol) {
    exists p :: IsCycle(t, p) && p[0] == s
  }

  /** Coming back to a symbol of the chain closes a cycle. */
  lemma ClosesCycle(t: Table, stack: seq<Symbol>, s: Symbol)
    requires IsPath(t, stack) && s in stack && s in Deps(t[stack[|stack| - 1]])
    ensures OnCycle(t, s)
  {
    var i :| 0 <= i < |stack| && stack[i] == s;
    assert IsCycle(t, stack[i..] + [s]);
  }

  lemma OrderedAppend(t: Table, order: seq<Symbol>, s: Symbol)
    requires Ordered(t, order) && s in t && Deps(t[s]) <= Elements(order)
    ensures Ordered(t, order + [s]) && Elements(order + [s]) == Elements(order) + {s}
  {
    var o := order + [s];
    forall i | 0 <= i < |o|
      ensures OrderedAt(t, o, i)
    {
      assert o[..i] == order[..i];
      if i < |order| { assert OrderedAt(t, order, i); } else { assert order[..i] == order; }
    }
    ElementsAppend(order, s);
  }

  lemma OrderedPrefix(t: Table, order: seq<Symbol>, s: Symbol)
    requires Ordered(t, order + [s])
    ensures Ordered(t, order) && s in t && Deps(t[s]) <= Elements(order)
  {
    var o := order + [s];
    assert OrderedAt(t, o, |order|) && o[|order|] == s && o[..|order|] == order;
    forall i | 0 <= i < |order|
      ensures OrderedAt(t, order, i)
    {
      assert OrderedAt(t, o, i) && o[i] == order[i] && o[..i] == order[..i];
    }
  }

  // ---------- the state of the check ----------

  /** `check` and `checked` are the symbols with SYMBOL_CHECK and SYMBOL_CHECKED, `stack` the chain from check_top,
      outermost first, `order` the symbols whose check ended, in that order. */
  datatype Marks = Marks(check: set<Symbol>, checked: set<Symbol>, stack: seq<Symbol>, order: seq<Symbol>)

  ghost predicate Valid(t: Table, m: Marks) {
    Closed(t) && m.checked <= t.Keys && m.check == Elements(m.stack) && m.check <= m.checked && IsPath(t, m.stack)
  }

  /** No recursion met so far: everything finished is in dependency order. */
  ghost predicate Clean(t: Table, m: Marks) {
    Ordered(t, m.order) && Elements(m.order) == m.checked - m.check
  }

  /** The symbol on top of the chain depends on all of `asked`. */
  ghost predicate Askable(t: Table, m: Marks, asked: set<Symbol>) {
    asked <= t.Keys && (m.stack != [] ==> m.stack[|m.stack| - 1] in t && asked <= Deps(t[m.stack[|m.stack| - 1]]))
  }

  /** What every part of the check does, `asked` being the symbols it was to look at: the marks and the chain
      are as before, a symbol reported is on a cycle, and without a report everything asked for is finished. */
  ghost predicate Did(t: Table, strict: bool, m: Marks, m': Marks, asked: set<Symbol>, r: Option<Symbol>) {
    && Valid(t, m') && m'.check == m.check && m'.stack == m.stack && m.checked <= m'.checked
    && (r.Some? ==> OnCycle(t, r.value))
    && (r.Some? && !strict ==> r.value in m'.check)
    && (r == None && strict && Clean(t, m) ==> Clean(t, m') && asked <= m'.checked - m'.check)
  }

  lemma DidBoth(t: Table, strict: bool, m0: Marks, m1: Marks, m2: Marks, a: set<Symbol>, b: set<Symbol>,
                r: Option<Symbol>)
    requires Did(t, strict, m0, m1, a, None) && Did(t, strict, m1, m2, b, r)
    ensures Did(t, strict, m0, m2, a + b, r)
  {
  }

  /** Opening a symbol: marked and put on the chain. */
  ghost function Open(m: Marks, s: Symbol): Marks {
    m.(check := m.check + {s}, checked := m.checked + {s}, stack := m.stack + [s])
  }

  ghost function Close(m: Marks, s: Symbol): Marks
    requires m.stack != []
  {
    m.(check := m.check - {s}, stack := m.stack[..|m.stack| - 1], order := m.order + [s])
  }

  lemma OpenAskable(t: Table, m: Marks, s: Symbol)
    requires Closed(t) && s in t
    ensures Askable(t, Open(m, s), Deps(t[s]))
  {
    assert ClosedAt(t, s);
  }

  lemma CloseDid(t: Table, strict: bool, m: Marks, m': Marks, s: Symbol, r: Option<Symbol>)
    requires Valid(t, m) && Askable(t, m, {s}) && s !in m.checked
    requires Did(t, strict, Open(m, s), m', Deps(t[s]), r)
    ensures Did(t, strict, m, Close(m', s), {s}, if !strict && r == Some(s) then None else r)
  {
    var c := Close(m', s);
    assert c.stack == m.stack;
    assert c.check == m.check;
    if r == None && strict && Clean(t, m) {
      OrderedAppend(t, m'.order, s);
      assert c.checked - c.check == (m'.checked - m'.check) + {s};
    }
  }

  // ---------- the check ----------

  class Checker {
    const table: Table
    const recursiveIsError: bool
    var check: set<Symbol>
    var checked: set<Symbol>
    var stack: seq<Symbol>
    ghost var order: seq<Symbol>

    constructor (table: Table, recursiveIsError: bool)
      ensures this.table == table && this.recursiveIsError == recursiveIsError
      ensures M() == Marks({}, {}, [], [])
    {
      this.table, this.recursiveIsError := table, recursiveIsError;
      check, checked, stack, order := {}, {}, [], [];
    }

    ghost function M(): Marks
      reads this
    {
      Marks(check, checked, stack, order)
    }

    /** sym_check_deps, with the chain entry of sym_check_sym_deps made here. */
    method CheckDeps(sym: Symbol) returns (r: Option<Symbol>)
      requires Valid(table, M()) && Askable(table, M(), {sym})
      modifies this
      ensures Did(table, recursiveIsError, old(M()), M(), {sym}, r)
      decreases table.Keys - checked, 0, 1
    {
      ghost var m := M();
      if sym in check {
        ClosesCycle(table, m.stack, sym);
        return Some(sym);
      }
      if sym in checked {
        return None;
      }
      r := CheckFresh(sym);
      if !recursiveIsError && r == Some(sym) {
        r := None;
      }
    }

    /** The branch for a symbol met for the first time: marks it, looks at what it depends on, unmarks it. */
    method CheckFresh(sym: Symbol) returns (r: Option<Symbol>)
      requires Valid(table, M()) && Askable(table, M(), {sym}) && sym !in checked
      modifies this
      ensures Did(table, recursiveIsError, old(M()), M(), {sym},
                  if !recursiveIsError && r == Some(sym) then None else r)
      decreases table.Keys - checked, 0, 0
    {
      ghost var m := M();
      OpenAskable(table, m, sym);
      Push(sym);
      r := CheckSymDeps(sym);
      CloseDid(table, recursiveIsError, m, M(), sym, r);
      Pop(sym);
    }

    /** Sets both marks and enters the symbol in the chain (dep_stack_insert). */
    method Push(sym: Symbol)
      modifies this
      ensures M() == Open(old(M()), sym)
    {
      check, checked := check + {sym}, checked + {sym};
      stack := stack + [sym];
    }

    /** Clears SYMBOL_CHECK and leaves the chain (dep_stack_remove). */
    method Pop(sym: Symbol)
      requires stack != []
      modifies this
      ensures M() == Close(old(M()), sym)
    {
      stack := stack[..|stack| - 1];
      check := check - {sym};
      order := order + [sym];
    }

    /** sym_check_sym_deps: everything the symbol depends on, up to the first report. */
    method CheckSymDeps(sym: Symbol) returns (r: Option<Symbol>)
      requires sym in table && Valid(table, M()) && Askable(table, M(), Deps(table[sym]))
      modifies this
      ensures Did(table, recursiveIsError, old(M()), M(), Deps(table[sym]), r)
      decreases table.Keys - checked, 3, 0
    {
      var d := table[sym];
      ghost var m0 := M();
      r := CheckOpt(d.dirDep);
      if r.Some? { return; }
      ghost var m1 := M();
      r := CheckOpt(d.revDep);
      DidBoth(table, recursiveIsError, m0, m1, M(), Mentioned(d.dirDep), Mentioned(d.revDep), r);
      if r.Some? { return; }
      m1 := M();
      r := CheckOpt(d.implied);
      DidBoth(table, recursiveIsError, m0, m1, M(), Mentioned(d.dirDep) + Mentioned(d.revDep), Mentioned(d.implied), r);
      if r.Some? { return; }
      m1 := M();
      r := CheckProperties(d.props);
      DidBoth(table, recursiveIsError, m0, m1, M(), Mentioned(d.dirDep) + Mentioned(d.revDep) + Mentioned(d.implied),
              PropertiesDeps(d.props), r);
    }

    method CheckProperties(props: seq<Property>) returns (r: Option<Symbol>)
      requires Valid(table, M()) && Askable(table, M(), PropertiesDeps(props))
      modifies this
      ensures Did(table, recursiveIsError, old(M()), M(), PropertiesDeps(props), r)
      decreases table.Keys - checked, 2, 0
    {
      ghost var m0 := M();
      r := None;
      var i := 0;
      while i < |props|
        invariant i <= |props| && r == None
        invariant Did(table, recursiveIsError, m0, M(), PropertiesDeps(props[..i]), None)
      {
        ghost var m1 := M();
        PropertiesSplit(props, i);
        r := CheckProperty(props[i]);
        DidBoth(table, recursiveIsError, m0, m1, M(), PropertiesDeps(props[..i]), PropertyDeps(props[i]), r);
        if r.Some? {
          return;
        }
        i := i + 1;
      }
      assert props[..i] == props;
    }

    method CheckProperty(p: Property) returns (r: Option<Symbol>)
      requires Valid(table, M()) && Askable(table, M(), PropertyDeps(p))
      modifies this
      ensures Did(table, recursiveIsError, old(M()), M(), PropertyDeps(p), r)
      decreases table.Keys - checked, 1, 0
    {
      ghost var m0 := M();
      if p.kind.Select? || p.kind.Imply? { return None; }
      r := CheckOpt(p.visible);
      if r.Some? || !p.kind.Default? { return; }
      ghost var m1 := M();
      r := CheckOpt(p.expr);
      DidBoth(table, recursiveIsError, m0, m1, M(), Mentioned(p.visible), Mentioned(p.expr), r);
    }

    method CheckOpt(e: Option<Expr>) returns (r: Option<Symbol>)
      requires Valid(table, M()) && Askable(table, M(), Mentioned(e))
      modifies this
      ensures Did(table, recursiveIsError, old(M()), M(), Mentioned(e), r)
      decreases table.Keys - checked, 0, if e.Some? then 3 + Size(e.value) else 2
    {
      r := None;
      if e.Some? { r := CheckExpr(e.value); }
    }

    /** sym_check_expr_deps. */
    method CheckExpr(e: Expr) returns (r: Option<Symbol>)
      requires Valid(table, M()) && Askable(table, M(), Symbols(e))
      modifies this
      ensures Did(table, recursiveIsError, old(M()), M(), Symbols(e), r)
      decreases table.Keys - checked, 0, 2 + Size(e)
    {
      ghost var m0 := M();
      match e
      case Sym(s) => r := CheckDeps(s);
      case Not(x) => r := CheckExpr(x);
      case Node(_, x, y) =>
        r := CheckExpr(x);
        if r.Some? { return; }
        ghost var m1 := M();
        r := CheckExpr(y);
        DidBoth(table, recursiveIsError, m0, m1, M(), Symbols(x), Symbols(y), r);
      case Cmp(_, a, b) =>
        r := CheckDeps(a);
        if r.Some? { return; }
        ghost var m1 := M();
        r := CheckDeps(b);
        DidBoth(table, recursiveIsError, m0, m1, M(), {a}, {b}, r);
    }
  }

  lemma {:induction false} PropertiesSplit(ps: seq<Property>, i: nat)
    requires i < |ps|
    ensures PropertiesDeps(ps[..i + 1]) == PropertiesDeps(ps[..i]) + PropertyDeps(ps[i])
    ensures PropertyDeps(ps[i]) <= PropertiesDeps(ps)
  {
    if i > 0 {
      PropertiesSplit(ps[1..], i - 1);
      assert ps[1..][..i] == ps[..i + 1][1..] && ps[1..][..i - 1] == ps[..i][1..];
    } else {
      assert ps[..1][1..] == [] && ps[..0] == [];
    }
  }

  /** The checks of some symbols, one after the other from a clean start. */
  ghost predicate Swept(t: Table, strict: bool, m: Marks, done: set<Symbol>, errors: nat) {
    && Valid(t, m) && m.stack == []
    && (errors == 0 && strict ==> Clean(t, m) && done <= m.checked)
    && (errors > 0 ==> strict && !Acyclic(t))
  }

  lemma SweepEnd(t: Table, strict: bool, m: Marks, errors: nat)
    requires Swept(t, strict, m, t.Keys, errors)
    ensures strict ==> (errors == 0 <==> Acyclic(t))
    ensures strict && errors == 0 ==> Ordered(t, m.order) && Elements(m.order) == t.Keys
    ensures !strict ==> errors == 0
  {
    if errors == 0 && strict {
      assert m.check == {};
      OrderedAcyclic(t, m.order);
    }
  }

  /** conf_parse: the number of symbols reported. With recursion an error, none is reported exactly when the
      dependencies are acyclic, and the order in which the checks end is a dependency order; otherwise none is ever
      reported. */
  method CheckAll(table: Table, symbols: seq<Symbol>, recursiveIsError: bool)
        returns (errors: nat, ghost order: seq<Symbol>)
    requires Closed(table) && Elements(symbols) == table.Keys
    ensures recursiveIsError ==> (errors == 0 <==> Acyclic(table))
    ensures recursiveIsError && errors == 0 ==> Ordered(table, order) && Elements(order) == table.Keys
    ensures !recursiveIsError ==> errors == 0
  {
    errors := 0;
    var c := new Checker(table, recursiveIsError);
    var i := 0;
    assert Elements(symbols[..0]) == {};
    while i < |symbols|
      invariant i <= |symbols| && c.table == table && c.recursiveIsError == recursiveIsError
      invariant Swept(table, recursiveIsError, c.M(), Elements(symbols[..i]), errors)
    {
      errors := SweepNext(c, symbols, i, errors);
      i := i + 1;
    }
    assert symbols[..i] == symbols;
    SweepEnd(table, recursiveIsError, c.M(), errors);
    order := c.M().order;
  }

  method SweepNext(c: Checker, symbols: seq<Symbol>, i: nat, errors: nat) returns (e: nat)
    requires i < |symbols| && Elements(symbols) == c.table.Keys
    requires Swept(c.table, c.recursiveIsError, c.M(), Elements(symbols[..i]), errors)
    modifies c
    ensures Swept(c.table, c.recursiveIsError, c.M(), Elements(symbols[..i + 1]), e)
  {
    ghost var m := c.M();
    var s := symbols[i];
    assert s in Elements(symbols);
    var r := c.CheckDeps(s);
    e := if r.Some? then errors + 1 else errors;
  }
}

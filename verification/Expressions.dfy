/** Three-valued logic, symbols, dependency expressions and their meaning
    (scripts/config/expr.h and expr_calc_value in scripts/config/expr.c). */
module Expressions {

  // ---------- tristate values: n < m < y ----------

  type Tristate = t: int | 0 <= t <= 2

  const NO: Tristate := 0
  const MOD: Tristate := 1
  const YES: Tristate := 2

  function TriAnd(a: Tristate, b: Tristate): Tristate { if a < b then a else b }

  function TriOr(a: Tristate, b: Tristate): Tristate { if a > b then a else b }

  function TriNot(a: Tristate): Tristate { 2 - a }

  function Letter(t: Tristate): string { if t == NO then "n" else if t == MOD then "m" else "y" }

  // ---------- symbols ----------

  datatype SymbolType = Unknown | Boolean | TristateType | IntType | HexType | StringType

  /** Symbols are compared by identity. A constant is determined by its spelling and has no declared
      type; a configuration symbol carries its type, and `id` tells nameless choices apart. */
  datatype Symbol = Const(name: string) | Config(name: string, ctype: SymbolType, id: nat)
  {
    function Type(): SymbolType { if Const? then Unknown else ctype }
  }

  const SYM_YES := Const("y")
  const SYM_MOD := Const("m")
  const SYM_NO := Const("n")

  // ---------- expressions ----------

  datatype Connective = AndOp | OrOp

  datatype Relation = Equal | Unequal | Lth | Leq | Gth | Geq

  datatype Expr =
    | Sym(sym: Symbol)
    | Not(e: Expr)
    | Node(op: Connective, l: Expr, r: Expr)
    | Cmp(rel: Relation, left: Symbol, right: Symbol)

  function Size(e: Expr): (n: nat)
    ensures n >= 1
  {
    match e
    case Sym(_) => 1
    case Not(x) => 1 + Size(x)
    case Node(_, l, r) => 1 + Size(l) + Size(r)
    case Cmp(_, _, _) => 1
  }

  function Symbols(e: Expr): set<Symbol> {
    match e
    case Sym(s) => {s}
    case Not(x) => Symbols(x)
    case Node(_, l, r) => Symbols(l) + Symbols(r)
    case Cmp(_, a, b) => {a, b}
  }

  /** What tristate symbols are tested for with = or !=. */
  function Tested(e: Expr): set<Symbol> {
    match e
    case Sym(_) => {}
    case Not(x) => Tested(x)
    case Node(_, l, r) => Tested(l) + Tested(r)
    case Cmp(rel, a, b) => if a.Type() == TristateType && (rel.Equal? || rel.Unequal?) then {b} else {}
  }

  /** NOT stands over symbols only. */
  predicate OnlySymbolsNegated(e: Expr) {
    match e
    case Not(x) => x.Sym?
    case Node(_, l, r) => OnlySymbolsNegated(l) && OnlySymbolsNegated(r)
    case _ => true
  }

  predicate Is(e: Expr, op: Connective) { e.Node? && e.op == op }

  /** Identity of a connective: the value its operands may drop without effect. */
  function Unit(op: Connective): Expr { if op.AndOp? then Sym(SYM_YES) else Sym(SYM_NO) }

  /** The value that decides a connective whatever the other operand is. */
  function Zero(op: Connective): Expr { if op.AndOp? then Sym(SYM_NO) else Sym(SYM_YES) }

  predicate IsYN(e: Expr) { e == Sym(SYM_YES) || e == Sym(SYM_NO) }

  // ---------- valuations ----------

  /** `tri` and `val` are the calculated `curr` fields of the symbols, `parse` stands for the C library's
      number reader applied to a whole string (None when it is not a number). */
  datatype Valuation = Valuation(tri: Symbol -> Tristate, val: Symbol -> string, modulesOn: bool,
                                 parse: (string, SymbolType) -> Option<int>)

  datatype Option<+T> = None | Some(value: T)

  datatype Reading = NotNumber | Signed(s: int) | Unsigned(u: int)

  const TWO64 := 0x1_0000_0000_0000_0000

  function StringValue(s: Symbol, v: Valuation): string {
    if s.Type() == Boolean || s.Type() == TristateType then
      if v.tri(s) == MOD then (if v.modulesOn then "m" else "n") else Letter(v.tri(s))
    else v.val(s)
  }

  function ParseString(str: string, typ: SymbolType, v: Valuation): Reading {
    if typ == Boolean || typ == TristateType then
      Signed(if str == "n" then 0 else if str == "m" then 1 else if str == "y" then 2 else -1)
    else match v.parse(str, typ)
      case None => NotNumber
      case Some(n) => if typ == HexType then Unsigned(n) else Signed(n)
  }

  /** strcmp, as a sign. */
  function StrCmp(a: string, b: string): (c: int)
    ensures c == 0 <==> a == b
  {
    if a == [] then (if b == [] then 0 else -1)
    else if b == [] then 1
    else if a[0] < b[0] then -1
    else if a[0] > b[0] then 1
    else
      assert a == [a[0]] + a[1..] && b == [b[0]] + b[1..];
      StrCmp(a[1..], b[1..])
  }

  function Sign(a: int, b: int): int { if a < b then -1 else if a > b then 1 else 0 }

  function Word(k: Reading): int
    requires !k.NotNumber?
  {
    (if k.Signed? then k.s else k.u) % TWO64
  }

  /** The three-way comparison behind E_EQUAL .. E_GEQ. */
  function Compare(a: Symbol, b: Symbol, v: Valuation): int {
    var s1, s2 := StringValue(a, v), StringValue(b, v);
    var numeric := a.Type() != StringType || b.Type() != StringType;
    var k1 := if numeric then ParseString(s1, a.Type(), v) else NotNumber;
    var k2 := if numeric then ParseString(s2, b.Type(), v) else NotNumber;
    if k1.NotNumber? || k2.NotNumber? then StrCmp(s1, s2)
    else if k1.Unsigned? || k2.Unsigned? then Sign(Word(k1), Word(k2))
    else Sign(k1.s, k2.s)
  }

  predicate Holds(rel: Relation, c: int) {
    match rel
    case Equal => c == 0
    case Unequal => c != 0
    case Lth => c < 0
    case Leq => c <= 0
    case Gth => c > 0
    case Geq => c >= 0
  }

  function Apply(op: Connective, a: Tristate, b: Tristate): Tristate {
    if op.AndOp? then TriAnd(a, b) else TriOr(a, b)
  }

  /** expr_calc_value. */
  function Value(e: Expr, v: Valuation): Tristate {
    match e
    case Sym(s) => v.tri(s)
    case Not(x) => TriNot(Value(x, v))
    case Node(op, l, r) => Apply(op, Value(l, v), Value(r, v))
    case Cmp(rel, a, b) => if Holds(rel, Compare(a, b, v)) then YES else NO
  }

  // ---------- what calculated symbols satisfy ----------

  /** y, m and n are what they say. */
  ghost predicate Constants(v: Valuation) {
    && v.tri(SYM_YES) == YES && v.tri(SYM_MOD) == MOD && v.tri(SYM_NO) == NO
    && v.val(SYM_YES) == "y" && v.val(SYM_MOD) == "m" && v.val(SYM_NO) == "n"
  }

  /** Calculated symbols obey their declared type: no m for booleans, nor for tristates while modules are
      off; constants spell themselves; the letters y, m, n are not numbers. */
  ghost predicate WellTyped(v: Valuation) {
    && Constants(v)
    && (forall s: Symbol {:trigger v.tri(s)} :: s.Type() == Boolean ==> v.tri(s) != MOD)
    && (forall s: Symbol {:trigger v.tri(s)} :: s.Type() == TristateType && !v.modulesOn ==> v.tri(s) != MOD)
    && (forall n: string :: v.val(Const(n)) == n)
    && v.parse("y", Unknown) == v.parse("m", Unknown) == v.parse("n", Unknown) == None
  }

  /** Calculated symbols of any other type are n; what they hold is a string. */
  ghost predicate OthersNo(v: Valuation) {
    forall s: Symbol {:trigger v.tri(s)} :: s.Type() !in {Boolean, TristateType} && s !in LETTERS ==> v.tri(s) == NO
  }

  /** The tristate level, if any, that a constant stands for when a tristate symbol is compared with it:
      a numeric constant is compared as a number, so "0" reads as n, "1" as m and "2" as y. */
  function Level(c: Symbol, v: Valuation): Option<int>
    requires c.Const?
  {
    match v.parse(c.name, Unknown)
    case Some(n) => if 0 <= n <= 2 then Some(n) else None
    case None => if c.name == "n" then Some(0) else if c.name == "m" then Some(1)
                 else if c.name == "y" then Some(2) else None
  }

  lemma CompareWithConstant(a: Symbol, c: Symbol, v: Valuation)
    requires WellTyped(v) && c.Const? && a.Type() in {Boolean, TristateType}
    ensures Compare(a, c, v) == 0 <==> Level(c, v) == Some(v.tri(a))
  {
    var t := v.tri(a);
    assert StringValue(a, v) == Letter(t);
    assert v.val(Const(c.name)) == c.name;
    if v.parse(c.name, Unknown) == None {
      assert Compare(a, c, v) == StrCmp(Letter(t), c.name);
    }
  }

  /** No two of these constants stand for the same level. */
  ghost predicate Unambiguous(cs: set<Symbol>, v: Valuation) {
    forall c, d :: c in cs && d in cs && c.Const? && d.Const? && c != d && Level(c, v) != None
      ==> Level(c, v) != Level(d, v)
  }

  const LETTERS := {SYM_YES, SYM_MOD, SYM_NO}
}

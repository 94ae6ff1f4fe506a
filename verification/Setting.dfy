/** Setting the value of a symbol (sym_tristate_within_range and sym_set_tristate_value in scripts/config/symbol.c), and
    what comes out when all symbols are calculated again. */
module Setting {
  import opened Expressions
  import opened Cycles
  import opened Values

  /** sym_tristate_within_range. */
  predicate WithinRange(g: Config, s: Symbol, c: Cell, val: Tristate) {
    && c.visible != NO
    && EffectiveType(g, s) in {Boolean, TristateType}
    && !(EffectiveType(g, s) == Boolean && val == MOD)
    && c.visible > c.rev
    && !(c.implied == YES && val == MOD)
    && c.rev <= val <= c.visible
  }

  /** sym_set_tristate_value: the user values afterwards, None when the value is refused. */
  function SetTristate(g: Config, s: Symbol, c: Cell, val: Tristate): Option<map<Symbol, User>> {
    if c.tri != val && !WithinRange(g, s, c, val) then None
    else Some(g.user[s := User(val, if s in g.user then g.user[s].str else "")])
  }

  /** A symbol that is not visible above what selects it can only be set to what it is; any other to whatever lies
      between selection and visibility, but m only for an effective tristate that is not implied by y. */
  lemma AcceptedExact(g: Config, s: Symbol, c: Cell, val: Tristate)
    requires s.Type() in {Boolean, TristateType}
    ensures c.visible == NO || c.visible <= c.rev ==> (SetTristate(g, s, c, val).Some? <==> val == c.tri)
    ensures c.visible > c.rev && val != MOD ==> (WithinRange(g, s, c, val) <==> c.rev <= val <= c.visible)
    ensures c.visible > c.rev && val == MOD ==>
      (WithinRange(g, s, c, val) <==>
        c.rev != YES && c.visible != NO && s.Type() == TristateType && g.modulesOn && c.implied != YES)
    ensures WithinRange(g, s, c, val) ==> SetTristate(g, s, c, val).Some?
  {
  }

  /** Whether a value set takes effect: a symbol selected against its dependencies stays n; otherwise the value counts
      unless it is above the visibility and comes from neither a select nor an imply. */
  predicate TakesEffect(c: Cell, val: Tristate) {
    if ForcedOff(c) then val == NO
    else c.visible == NO || val <= c.visible || val == c.rev || c.implied == YES
  }

  /** The value of a symbol when only its user value is changed. */
  lemma SettleTakes(g: Config, s: Symbol, v: Valuation, val: Tristate)
    requires s in g.table && s !in LETTERS && s.Type() in {Boolean, TristateType}
    requires SetTristate(g, s, ValueOf(g, s, v), val).Some?
    ensures var c := ValueOf(g, s, v);
      var h := g.(user := SetTristate(g, s, c, val).value);
      ValueOf(h, s, v).tri == val <==> TakesEffect(c, val)
  {
    var c := ValueOf(g, s, v);
    var h := g.(user := SetTristate(g, s, c, val).value);
    assert VisibilityOf(h, s, v) == VisibilityOf(g, s, v);
  }

  /** For a symbol the user can change, the values within range are exactly those that take effect when set, but for
      two cases: one selected against its dependencies stays n, and y set on a symbol visible only up to m and implied
      by y, which is y anyway. */
  lemma RangeExact(g: Config, s: Symbol, v: Valuation, val: Tristate)
    requires s in g.table && s !in LETTERS && s.Type() in {Boolean, TristateType}
    requires ValueOf(g, s, v).visible > ValueOf(g, s, v).rev
    ensures var c := ValueOf(g, s, v);
      var h := g.(user := g.user[s := User(val, "")]);
      ValueOf(h, s, v).tri == val <==>
        if ForcedOff(c) then val == NO
        else WithinRange(g, s, c, val) || (val == YES && c.visible == MOD && c.implied == YES)
  {
    var c := ValueOf(g, s, v);
    var h := g.(user := g.user[s := User(val, "")]);
    assert VisibilityOf(h, s, v) == VisibilityOf(g, s, v);
    assert EffectiveType(g, s) == EffectiveType(h, s);
  }

  /** A symbol that is visible with y, selected with m, and without its direct dependencies: y and m are within range
      and accepted, and it stays n. */
  lemma AcceptedYetForcedOff(g: Config, s: Symbol, v: Valuation, val: Tristate)
    requires s in g.table && s !in LETTERS && s.Type() == TristateType && g.modulesOn && val != NO
    requires VisibilityOf(g, s, v).visible == YES && VisibilityOf(g, s, v).dir == NO && VisibilityOf(g, s, v).rev == MOD
    ensures WithinRange(g, s, ValueOf(g, s, v), val) && SetTristate(g, s, ValueOf(g, s, v), val).Some?
    ensures ValueOf(g.(user := SetTristate(g, s, ValueOf(g, s, v), val).value), s, v).tri == NO
  {
    var c := ValueOf(g, s, v);
    var h := g.(user := SetTristate(g, s, c, val).value);
    assert VisibilityOf(h, s, v) == VisibilityOf(g, s, v);
  }

  /** A changed user value leaves the symbols ranked below alone, and the symbol is calculated from them. */
  lemma ChangedValue(g: Config, w: map<Symbol, User>, rank: map<Symbol, nat>, sol: Cells, sol': Cells, s: Symbol)
    requires Ranked(g.table, rank) && IsSolution(g, sol) && s in g.table
    requires SameChoicesBelow(g.table, rank, rank[s], g.user, w) && IsSolution(g.(user := w), sol')
    ensures forall x :: x in g.table && rank[x] < rank[s] ==> sol'[x] == sol[x]
    ensures sol'[s] == ValueOf(g.(user := w), s, View(g, sol))
  {
    forall x | x in g.table && rank[x] < rank[s]
      ensures sol[x] == sol'[x]
    {
      SolutionsAgree(g, w, rank, rank[s], sol, sol', x);
    }
    assert SolvedAt(g.(user := w), sol', s) && RankedAt(g.table, rank, s) && ClosedAt(g.table, s);
    ValueOfLocal(g.(user := w), s, sol, sol');
  }

  /** After an accepted change, recalculation of the whole table yields the value set exactly if it takes effect. */
  lemma SetTristateTakes(g: Config, rank: map<Symbol, nat>, sol: Cells, sol': Cells, s: Symbol, val: Tristate)
    requires Ranked(g.table, rank) && IsSolution(g, sol) && s in g.table && s.Type() in {Boolean, TristateType}
    requires SetTristate(g, s, sol[s], val).Some?
    requires IsSolution(g.(user := SetTristate(g, s, sol[s], val).value), sol')
    ensures sol'[s].tri == val <==> TakesEffect(sol[s], val)
    ensures WithinRange(g, s, sol[s], val) ==> (sol'[s].tri == val <==> !ForcedOff(sol[s]))
    ensures forall x :: x in g.table && rank[x] < rank[s] ==> sol'[x] == sol[x]
  {
    ChangedValue(g, SetTristate(g, s, sol[s], val).value, rank, sol, sol', s);
    assert SolvedAt(g, sol, s) && sol'.Keys == g.table.Keys;
    SettleTakes(g, s, View(g, sol), val);
  }
}

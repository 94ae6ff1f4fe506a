/** Choices (sym_calc_choice, sym_choice_default, and the parts of sym_calc_visibility and sym_calc_value for choice
    values, scripts/config/symbol.c): a choice whose value is y and its members. The values of all other symbols are
    given and do not depend on the members. */
module Choice {
  import opened Expressions
  import opened Cycles
  import opened Values

  /** The best prompt of a member; in a choice that is y a tristate prompt that would allow m only does not count. */
  function MemberPrompts(ps: seq<Property>, m: Symbol, v: Valuation): Tristate {
    if ps == [] then NO
    else if ps[0].kind.Prompt? then
      var t := OptValue(ps[0].visible, YES, v);
      TriOr(if m.Type() == TristateType && t == MOD then NO else t, MemberPrompts(ps[1..], m, v))
    else MemberPrompts(ps[1..], m, v)
  }

  function MemberVisible(g: Config, m: Symbol, v: Valuation): Tristate
    requires m in g.table
  {
    var p := MemberPrompts(g.table[m].props, m, v);
    if p == MOD && (m.Type() != TristateType || !g.modulesOn) then YES else p
  }

  /** Members of a choice that is y are visible with y or not at all. */
  lemma {:induction false} MemberPromptsCrisp(ps: seq<Property>, m: Symbol, v: Valuation)
    requires m.Type() == TristateType
    ensures MemberPrompts(ps, m, v) != MOD
  {
    if ps != [] { MemberPromptsCrisp(ps[1..], m, v); }
  }

  lemma MemberVisibleCrisp(g: Config, m: Symbol, v: Valuation)
    requires m in g.table && m.Type() in {Boolean, TristateType}
    ensures MemberVisible(g, m, v) != MOD
  {
    if m.Type() == TristateType { MemberPromptsCrisp(g.table[m].props, m, v); }
  }

  predicate Shown(g: Config, m: Symbol, v: Valuation) { m in g.table && MemberVisible(g, m, v) != NO }

  // ---------- which member is chosen ----------

  /** The member a default of the choice names, if the default applies and the member is shown. */
  predicate Applies(g: Config, p: Property, v: Valuation) {
    p.kind.Default? && OptValue(p.visible, YES, v) != NO && DefaultSymbol(p).Some? &&
        Shown(g, DefaultSymbol(p).value, v)
  }

  function FirstDefault(g: Config, ps: seq<Property>, v: Valuation): (r: Option<Symbol>)
    ensures r.Some? ==> exists p :: p in ps && Applies(g, p, v) && DefaultSymbol(p) == r
    ensures r.None? ==> forall p :: p in ps ==> !Applies(g, p, v)
  {
    if ps == [] then None else if Applies(g, ps[0], v) then DefaultSymbol(ps[0]) else FirstDefault(g, ps[1..], v)
  }

  function FirstShown(g: Config, ms: seq<Symbol>, v: Valuation): (r: Option<Symbol>)
    ensures r.Some? ==> r.value in ms && Shown(g, r.value, v)
    ensures r.None? ==> forall m :: m in ms ==> !Shown(g, m, v)
  {
    if ms == [] then None else if Shown(g, ms[0], v) then Some(ms[0]) else FirstShown(g, ms[1..], v)
  }

  /** The user's member if it is shown, else the first default that is, else the first member that is. */
  function Selected(g: Config, choice: Symbol, members: seq<Symbol>, user: Option<Symbol>, v: Valuation): Option<Symbol>
    requires choice in g.table
  {
    if user.Some? && Shown(g, user.value, v) then user
    else if FirstDefault(g, g.table[choice].props, v).Some? then FirstDefault(g, g.table[choice].props, v)
    else FirstShown(g, members, v)
  }

  /** A default whose condition is not n and which names a member that is shown. */
  ghost predicate Offers(g: Config, p: Property, v: Valuation) {
    && p.kind == Default && (p.visible == None || Value(p.visible.value, v) != NO)
    && p.expr.Some? && p.expr.value.Sym? && Shown(g, p.expr.value.sym, v)
  }

  /** The i-th property is the first of these. */
  ghost predicate OffersAt(g: Config, ps: seq<Property>, i: int, v: Valuation) {
    0 <= i < |ps| && Offers(g, ps[i], v) && forall j :: 0 <= j < i ==> !Offers(g, ps[j], v)
  }

  /** The k-th member is the first that is shown. */
  ghost predicate ShownAt(g: Config, ms: seq<Symbol>, k: int, v: Valuation) {
    0 <= k < |ms| && Shown(g, ms[k], v) && forall j :: 0 <= j < k ==> !Shown(g, ms[j], v)
  }

  lemma {:induction false} FirstApplies(g: Config, ps: seq<Property>, i: nat, v: Valuation)
    requires OffersAt(g, ps, i, v)
    ensures FirstDefault(g, ps, v) == Some(ps[i].expr.value.sym)
  {
    if i > 0 {
      assert forall j :: 0 <= j < |ps[1..]| ==> ps[1..][j] == ps[j + 1];
      FirstApplies(g, ps[1..], i - 1, v);
    }
  }

  lemma {:induction false} FirstIsShown(g: Config, ms: seq<Symbol>, k: nat, v: Valuation)
    requires ShownAt(g, ms, k, v)
    ensures FirstShown(g, ms, v) == Some(ms[k])
  {
    if k > 0 {
      assert forall j :: 0 <= j < |ms[1..]| ==> ms[1..][j] == ms[j + 1];
      FirstIsShown(g, ms[1..], k - 1, v);
    }
  }

  /** What a choice takes whose user has not set it, or set it to a member that is not shown: the member of the first
      default that offers one, or else the first member shown. */
  ghost predicate TakenByDefault(g: Config, choice: Symbol, members: seq<Symbol>, v: Valuation, val: Option<Symbol>)
    requires choice in g.table
  {
    var ps := g.table[choice].props;
    && (forall i :: OffersAt(g, ps, i, v) ==> val == Some(ps[i].expr.value.sym))
    && ((forall j :: 0 <= j < |ps| ==> !Offers(g, ps[j], v)) ==>
          forall k :: ShownAt(g, members, k, v) ==> val == Some(members[k]))
  }

  lemma SelectedByDefault(g: Config, choice: Symbol, members: seq<Symbol>, user: Option<Symbol>, v: Valuation)
    requires choice in g.table && (user.Some? ==> !Shown(g, user.value, v))
    ensures TakenByDefault(g, choice, members, v, Selected(g, choice, members, user, v))
  {
    var ps := g.table[choice].props;
    assert forall p :: Offers(g, p, v) <==> Applies(g, p, v);
    forall i | OffersAt(g, ps, i, v) ensures FirstDefault(g, ps, v) == Some(ps[i].expr.value.sym) {
      FirstApplies(g, ps, i, v);
    }
    forall k | ShownAt(g, members, k, v) ensures FirstShown(g, members, v) == Some(members[k]) {
      FirstIsShown(g, members, k, v);
    }
  }

  /** The visibility of a member by its prompts: the best of their conditions, where m does not count for a tristate; m
      counts as y for a boolean. */
  lemma {:induction false} MemberPromptsBest(ps: seq<Property>, m: Symbol, v: Valuation)
    ensures var t := MemberPrompts(ps, m, v);
      && (forall i :: 0 <= i < |ps| && ps[i].kind.Prompt? ==>
            var p := OptValue(ps[i].visible, YES, v); p <= t || (p == MOD && m.Type() == TristateType))
      && (t == NO || exists i :: 0 <= i < |ps| && ps[i].kind.Prompt? && OptValue(ps[i].visible, YES, v) == t)
  {
    if ps != [] {
      MemberPromptsBest(ps[1..], m, v);
      assert forall i :: 0 < i < |ps| ==> ps[i] == ps[1..][i - 1];
      assert forall i :: 0 <= i < |ps[1..]| ==> ps[1..][i] == ps[i + 1];
    }
  }

  ghost predicate ShownBy(ps: seq<Property>, i: int, m: Symbol, v: Valuation) {
    && 0 <= i < |ps| && ps[i].kind.Prompt?
    && var p := OptValue(ps[i].visible, YES, v); if m.Type() == TristateType then p == YES else p != NO
  }

  /** A tristate is shown exactly by a prompt on y, a boolean by any that is not n. */
  lemma ShownExact(g: Config, m: Symbol, v: Valuation)
    requires m in g.table && m.Type() in {Boolean, TristateType}
    ensures Shown(g, m, v) <==> exists i :: ShownBy(g.table[m].props, i, m, v)
  {
    MemberPromptsBest(g.table[m].props, m, v);
    if m.Type() == TristateType { MemberPromptsCrisp(g.table[m].props, m, v); }
    var ps, t := g.table[m].props, MemberPrompts(g.table[m].props, m, v);
    if t != NO {
      var i :| 0 <= i < |ps| && ps[i].kind.Prompt? && OptValue(ps[i].visible, YES, v) == t;
      assert ShownBy(ps, i, m, v);
    }
  }

  // ---------- the value of a member ----------

  /** The value of a member that is not shown: its default, as for any other symbol. */
  function HiddenValue(g: Config, m: Symbol, v: Valuation): Tristate
    requires m in g.table
  {
    match DefaultOf(g.table[m].props, v)
    case None => NO
    case Some((p, cond)) => Promote(g, m, TriAnd(OptValue(p.expr, YES, v), cond))
  }

  /** By index: the first default whose condition is not n, no higher than the condition; n without one. */
  ghost predicate ByDefault(g: Config, m: Symbol, v: Valuation, t: Tristate)
    requires m in g.table
  {
    var ps := g.table[m].props;
    && (forall i :: DefaultAt(ps, i, v) ==>
          var w := Min(OptValue(ps[i].expr, YES, v), OptValue(ps[i].visible, YES, v));
          t == if w == MOD && EffectiveType(g, m) == Boolean then YES else w)
    && (NoDefault(ps, v) ==> t == NO)
  }

  function MemberValue(g: Config, m: Symbol, val: Option<Symbol>, v: Valuation): Tristate
    requires m in g.table
  {
    if MemberVisible(g, m, v) == YES then (if val == Some(m) then YES else NO) else HiddenValue(g, m, v)
  }

  // ---------- the calculation ----------

  /** The choice symbol: its curr, the member the user chose, the members that have a user value, whether the choice
      counts as decided by the user, and the calculated fields of the members. */
  class ChoiceSymbol {
    const g: Config
    const choice: Symbol
    const members: seq<Symbol>
    const user: Option<Symbol>
    const byUser: set<Symbol>
    const v: Valuation
    var decided: bool
    var tri: Tristate
    var val: Option<Symbol>
    var visible: map<Symbol, Tristate>
    var value: map<Symbol, Tristate>

    /** Members are booleans or tristates of the table; the user's member and the defaults are members. */
    ghost predicate Proper() {
      && choice in g.table && (forall m :: m in members ==> m in g.table && m.Type() in {Boolean, TristateType})
      && (user.Some? ==> user.value in members)
      && (forall p :: p in g.table[choice].props && p.kind.Default? ==>
          DefaultSymbol(p).Some? && DefaultSymbol(p).value in members)
    }

    ghost predicate Seen()
      reads this
    {
      Proper() && forall m :: m in members ==> m in visible && visible[m] == MemberVisible(g, m, v)
    }

    constructor (g: Config, choice: Symbol, members: seq<Symbol>, user: Option<Symbol>, byUser: set<Symbol>,
        v: Valuation, decided: bool)
      ensures this.g == g && this.choice == choice && this.members == members && this.user == user && this.v == v
      ensures this.byUser == byUser && this.decided == decided && tri == YES
    {
      this.g, this.choice, this.members, this.user, this.v := g, choice, members, user, v;
      this.byUser, this.decided, tri, val, visible, value := byUser, decided, YES, None, map[], map[];
    }

    /** Every shown one of these members has a user value. */
    ghost predicate AllSet(ms: seq<Symbol>) { forall m :: m in ms && Shown(g, m, v) ==> m in byUser }

    /** sym_calc_visibility for one member. */
    method CalcVisibility(m: Symbol) returns (t: Tristate)
      requires m in g.table
      ensures t == MemberVisible(g, m, v)
    {
      t := NO;
      var ps, i := g.table[m].props, 0;
      assert ps[0..] == ps;
      while i < |ps|
        invariant i <= |ps| && MemberPrompts(ps, m, v) == TriOr(t, MemberPrompts(ps[i..], m, v))
      {
        assert ps[i..][1..] == ps[i + 1..];
        if ps[i].kind.Prompt? {
          var p := OptValue(ps[i].visible, YES, v);
          if m.Type() == TristateType && p == MOD { p := NO; }
          t := TriOr(t, p);
        }
        i := i + 1;
      }
      if t == MOD && (m.Type() != TristateType || !g.modulesOn) { t := YES; }
    }

    /** sym_choice_default. */
    method ChoiceDefault() returns (r: Option<Symbol>)
      requires Seen()
      ensures r == Selected(g, choice, members, None, v)
    {
      var ps, i := g.table[choice].props, 0;
      assert ps[0..] == ps;
      while i < |ps|
        invariant i <= |ps| && FirstDefault(g, ps, v) == FirstDefault(g, ps[i..], v)
      {
        assert ps[i..][1..] == ps[i + 1..] && ps[i] in ps;
        if ps[i].kind.Default? && OptValue(ps[i].visible, YES, v) != NO {
          var def := DefaultSymbol(ps[i]);
          if visible[def.value] != NO { return def; }
        }
        i := i + 1;
      }
      i := 0;
      assert members[0..] == members;
      while i < |members|
        invariant i <= |members| && FirstShown(g, members, v) == FirstShown(g, members[i..], v)
      {
        assert members[i..][1..] == members[i + 1..] && members[i] in members;
        if visible[members[i]] != NO { return Some(members[i]); }
        i := i + 1;
      }
      r := None;
    }

    /** sym_calc_choice: the visibility of every member, then the chosen one; without any the choice becomes n. A choice
        with a shown member that the user has not set is no longer decided by the user. */
    method CalcChoice()
      requires Proper() && tri == YES
      modifies this
      ensures Seen() && val == Selected(g, choice, members, user, v)
      ensures tri == if val.Some? then YES else NO
      ensures decided == (old(decided) && AllSet(members))
    {
      var i, flag := 0, decided;
      while i < |members|
        invariant i <= |members| && tri == YES && decided == old(decided)
        invariant flag == (decided && AllSet(members[..i]))
        invariant forall k :: 0 <= k < i ==>
          members[k] in visible && visible[members[k]] == MemberVisible(g, members[k], v)
      {
        var t := CalcVisibility(members[i]);
        visible := visible[members[i] := t];
        assert members[..i + 1] == members[..i] + [members[i]];
        if t != NO { flag := flag && members[i] in byUser; }
        i := i + 1;
      }
      assert members[..i] == members;
      decided := flag;
      if user.Some? && visible[user.value] != NO {
        val := user;
        return;
      }
      val := ChoiceDefault();
      if val.None? { tri := NO; }
    }

    /** The branch of sym_calc_value for choice values, and the default branch for those not shown. */
    method CalcMembers()
      requires Seen()
      modifies `value
      ensures value.Keys == set m | m in members
      ensures forall m :: m in members ==> value[m] == MemberValue(g, m, val, v)
    {
      value := map[];
      var i := 0;
      while i < |members|
        invariant i <= |members| && value.Keys == set m | m in members[..i]
        invariant forall m :: m in members[..i] ==> m in g.table && value[m] == MemberValue(g, m, val, v)
      {
        var m := members[i];
        assert members[..i + 1] == members[..i] + [m];
        var t := NO;
        if visible[m] == YES {
          t := if val == Some(m) then YES else NO;
        } else {
          var df := DefaultOf(g.table[m].props, v);
          if df.Some? { t := TriAnd(OptValue(df.value.0.expr, YES, v), df.value.1); }
          t := Promote(g, m, t);
        }
        value := value[m := t];
        i := i + 1;
      }
      assert members[..i] == members;
    }
  }

  // ---------- exactly one ----------

  ghost function Yeses(value: map<Symbol, Tristate>): set<Symbol> { set m | m in value && value[m] == YES }

  /** The members that are not shown and have a default that makes them y. */
  ghost function HiddenYeses(g: Config, members: seq<Symbol>, v: Valuation): set<Symbol>
    requires forall m :: m in members ==> m in g.table
  {
    set m | m in members && !Shown(g, m, v) && HiddenValue(g, m, v) == YES
  }

  /** A choice that stays y has one shown member, its val, that is y; the other shown members are n; any other member
      that is y is not shown and owes it to a default of its own. It is exactly one just when there is none of those. */
  method CalcAllMembers(g: Config, choice: Symbol, members: seq<Symbol>, user: Option<Symbol>, byUser: set<Symbol>,
      v: Valuation, was: bool)
    returns (tri: Tristate, val: Option<Symbol>, value: map<Symbol, Tristate>, decided: bool)
    requires choice in g.table && (forall m :: m in members ==> m in g.table && m.Type() in {Boolean, TristateType})
    requires user.Some? ==> user.value in members
    requires forall p :: p in g.table[choice].props && p.kind.Default? ==>
        DefaultSymbol(p).Some? && DefaultSymbol(p).value in members
    ensures tri == YES <==> exists m :: m in members && Shown(g, m, v)
    ensures tri == YES ==> val.Some? && val.value in members && Shown(g, val.value, v)
    ensures tri == YES && user.Some? && Shown(g, user.value, v) ==> val == user
    ensures tri == YES ==> Yeses(value) == {val.value} + HiddenYeses(g, members, v)
    ensures tri == YES ==> (|Yeses(value)| == 1 <==> HiddenYeses(g, members, v) == {})
    ensures forall m :: m in members && Shown(g, m, v) && val != Some(m) ==> m in value && value[m] == NO
    ensures user.None? || !Shown(g, user.value, v) ==> TakenByDefault(g, choice, members, v, val)
    ensures forall m :: m in members && !Shown(g, m, v) ==> m in value && ByDefault(g, m, v, value[m])
    ensures decided <==> was && forall m :: m in members && Shown(g, m, v) ==> m in byUser
  {
    var c := new ChoiceSymbol(g, choice, members, user, byUser, v, was);
    c.CalcChoice();
    c.CalcMembers();
    tri, val, value, decided := c.tri, c.val, c.value, c.decided;
    if user.None? || !Shown(g, user.value, v) { SelectedByDefault(g, choice, members, user, v); }
    MembersCalculated(g, members, v, val, value);
  }

  lemma MembersCalculated(g: Config, members: seq<Symbol>, v: Valuation, val: Option<Symbol>,
                          value: map<Symbol, Tristate>)
    requires forall m :: m in members ==> m in g.table && m.Type() in {Boolean, TristateType}
    requires value.Keys == (set m | m in members) && forall m :: m in members ==> value[m] == MemberValue(g, m, val, v)
    ensures forall m :: m in members && Shown(g, m, v) && val != Some(m) ==> value[m] == NO
    ensures forall m :: m in members && !Shown(g, m, v) ==> ByDefault(g, m, v, value[m])
    ensures val.Some? && val.value in members && Shown(g, val.value, v) ==>
      && Yeses(value) == {val.value} + HiddenYeses(g, members, v)
      && (|Yeses(value)| == 1 <==> HiddenYeses(g, members, v) == {})
  {
    MembersByDefault(g, members, v);
    if val.Some? && val.value in members && Shown(g, val.value, v) {
      OneYes(Yeses(value), val.value, HiddenYeses(g, members, v));
    }
  }

  lemma MembersByDefault(g: Config, members: seq<Symbol>, v: Valuation)
    requires forall m :: m in members ==> m in g.table && m.Type() in {Boolean, TristateType}
    ensures forall m :: m in members && Shown(g, m, v) ==> MemberVisible(g, m, v) == YES
    ensures forall m :: m in members ==> ByDefault(g, m, v, HiddenValue(g, m, v))
  {
    forall m | m in members
      ensures Shown(g, m, v) ==> MemberVisible(g, m, v) == YES
      ensures ByDefault(g, m, v, HiddenValue(g, m, v))
    {
      MemberVisibleCrisp(g, m, v);
      DefaultFound(g.table[m].props, v);
    }
  }

  lemma OneYes(ys: set<Symbol>, m: Symbol, hidden: set<Symbol>)
    requires ys == {m} + hidden && m !in hidden
    ensures |ys| == 1 <==> hidden == {}
  {
    if hidden != {} {
      var h :| h in hidden;
      assert {m, h} <= ys && |{m, h}| == 2;
      SubsetSize({m, h}, ys);
    }
  }

  lemma {:induction false} SubsetSize(a: set<Symbol>, b: set<Symbol>)
    requires a <= b
    ensures |a| <= |b|
  {
    if a != {} {
      var x :| x in a;
      SubsetSize(a - {x}, b - {x});
    }
  }
}

/** Where automatic submenus end up once promptless entries have lost their children (menu_finalize in
    scripts/config/menu.c): what is true of the finished menu tree, and what breaks it. */
module Placement {
  import opened Expressions
  import opened Normalize
  import opened Submenu
  import opened Inherit
  import opened MenuTree
  import opened Finalize

  // ---------- which entries a level has once it is flattened ----------

  ghost function Lifted(f: Forest): set<Menu> {
    match f
    case Nil => {}
    case Cons(n, k, r) => {n} + (if n.hasPrompt then {} else Tops(k)) + Lifted(r)
  }

  lemma {:induction false} LiftedAppend(a: Forest, b: Forest)
    ensures Lifted(Append(a, b)) == Lifted(a) + Lifted(b)
    ensures AllPrompted(a) ==> Lifted(a) == Tops(a)
  {
    if a.Cons? { LiftedAppend(a.rest, b); }
  }

  lemma {:induction false} FlattenTops(f: Forest)
    requires KidsPrompted(f)
    ensures Tops(Flatten(f)) == Lifted(f) && AllPrompted(Flatten(f))
    decreases Count(f)
  {
    if f.Cons? {
      AppendCount(f.kids, f.rest);
      LiftedAppend(f.kids, f.rest);
      if f.kids.Cons? && !f.node.hasPrompt { FlattenTops(Append(f.kids, f.rest)); } else { FlattenTops(f.rest); }
    }
  }

  lemma {:induction false} GrownPrompted(f: Forest, l0: State, l: State, x: Scope)
    requires Grown(f, l0, l, x)
    ensures KidsPrompted(f)
    decreases Count(f)
  {
    if f.Cons? {
      GrownPrompted(l[f.node].below, l0, l, x);
      FlattenTops(l[f.node].below);
      GrownPrompted(f.rest, l0, l, x);
    }
  }

  // ---------- what passes through a promptless entry ----------

  /** A promptless symbol hands its followers on to where they may belong: it took none of them by comparison, and while
      it is on, the condition of its place is met. */
  ghost predicate Steady(n: Menu, l0: State, l: State, v: Valuation)
    requires n in l
  {
    Childless(n, l0) && l[n].below.Cons? ==>
      && (forall c :: c in Tops(l[n].below) && c in l ==> DependsOutright(n.sym.value, CondOf(c, l[c])))
      && (On(n.sym.value, v) ==> ValueOpt(l[n].dep, v) != NO)
  }

  /** So do all promptless symbols through which entries reach this level. */
  ghost predicate AllSteady(f: Forest, l0: State, l: State, v: Valuation)
    decreases Count(f)
  {
    match f
    case Nil => true
    case Cons(n, k, r) =>
      && (!n.hasPrompt && n in l && Count(l[n].below) == Count(k) ==>
            Steady(n, l0, l, v) && AllSteady(l[n].below, l0, l, v))
      && AllSteady(r, l0, l, v)
  }

  ghost predicate Hidden(t: set<Menu>, l: State, v: Valuation) { forall c :: c in t ==> !Shown(c, l, v) }

  /** What is below a hidden promptless entry is hidden. */
  lemma HiddenBelow(n: Menu, l0: State, l: State, x: Scope, v: Valuation)
    requires n in l && !n.hasPrompt && !Shown(n, l, v) && x.Knows(v)
    requires Placed(n, Tops(l[n].below), l0, l, x) && Steady(n, l0, l, v)
    ensures Hidden(Tops(l[n].below), l, v)
  {
    forall c | c in Tops(l[n].below)
      ensures !Shown(c, l, v)
    {
      if !Childless(n, l0) {
        assert Within(l[n].dep, c, l, x);
      } else if Shown(c, l, v) {
        DependsSymbolSound(CondOf(c, l[c]).value, n.sym.value, v);
      }
    }
  }

  /** A hidden level stays hidden when it is flattened. */
  lemma {:induction false} HiddenFlat(f: Forest, l0: State, l: State, x: Scope, v: Valuation)
    requires Grown(f, l0, l, x) && AllSteady(f, l0, l, v) && x.Knows(v) && Hidden(Tops(f), l, v)
    ensures Hidden(Tops(Flatten(f)), l, v)
    decreases Count(f), 1
  {
    GrownPrompted(f, l0, l, x);
    FlattenTops(f);
    HiddenLifted(f, l0, l, x, v);
  }

  lemma {:induction false} HiddenLifted(f: Forest, l0: State, l: State, x: Scope, v: Valuation)
    requires Grown(f, l0, l, x) && AllSteady(f, l0, l, v) && x.Knows(v) && Hidden(Tops(f), l, v)
    ensures Hidden(Lifted(f), l, v)
    decreases Count(f), 0
  {
    if f.Cons? {
      var n := f.node;
      if !n.hasPrompt {
        HiddenBelow(n, l0, l, x, v);
        HiddenFlat(l[n].below, l0, l, x, v);
      }
      HiddenLifted(f.rest, l0, l, x, v);
    }
  }

  // ---------- the finished tree ----------

  /** The comparisons behind the submenu of `n` can be relied on, and what came through promptless entries into it may
      belong there. */
  ghost predicate Sound(n: Menu, l0: State, l: State, v: Valuation)
    requires n in l
  {
    && AllSteady(l[n].below, l0, l, v)
    && forall c :: c in Tops(l[n].below) && c in l ==> Reliable(l[n].vis, CondOf(c, l[c]), v)
  }

  /** No entry below `n` is visible unless the symbol is on or its prompt is visible. */
  ghost predicate Rightly(n: Menu, t: set<Menu>, l: State, v: Valuation)
    requires n in l && n.sym.Some?
  {
    forall c :: c in t && Shown(c, l, v) ==> On(n.sym.value, v) || Shown(n, l, v)
  }

  /** Throughout a finished tree, the automatic submenus of symbols with a prompt are right, where they are sound. */
  ghost predicate AllRight(f: Forest, l0: State, l: State, v: Valuation) {
    match f
    case Nil => true
    case Cons(n, k, r) =>
      && n in l && (Childless(n, l0) && n.hasPrompt && Sound(n, l0, l, v) ==> Rightly(n, Tops(k), l, v))
      && AllRight(k, l0, l, v) && AllRight(r, l0, l, v)
  }

  lemma {:induction false} RightAppend(a: Forest, b: Forest, l0: State, l: State, v: Valuation)
    requires AllRight(a, l0, l, v) && AllRight(b, l0, l, v)
    ensures AllRight(Append(a, b), l0, l, v)
  {
    if a.Cons? { RightAppend(a.rest, b, l0, l, v); }
  }

  lemma {:induction false} RightFlat(f: Forest, l0: State, l: State, v: Valuation)
    requires AllRight(f, l0, l, v)
    ensures AllRight(Flatten(f), l0, l, v)
    decreases Count(f)
  {
    if f.Cons? {
      if f.kids.Cons? && !f.node.hasPrompt {
        AppendCount(f.kids, f.rest);
        RightAppend(f.kids, f.rest, l0, l, v);
        RightFlat(Append(f.kids, f.rest), l0, l, v);
      } else {
        RightFlat(f.rest, l0, l, v);
      }
    }
  }

  /** One submenu: what `n` took belongs there, and so what flattening handed on. */
  lemma SubmenuRight(n: Menu, l0: State, l: State, x: Scope, v: Valuation)
    requires n in l && Grown(l[n].below, l0, l, x) && Placed(n, Tops(l[n].below), l0, l, x) && x.Knows(v)
    requires Childless(n, l0) && n.hasPrompt && Sound(n, l0, l, v)
    ensures Rightly(n, Tops(Flatten(l[n].below)), l, v)
  {
    var b := l[n].below;
    if !On(n.sym.value, v) && !Shown(n, l, v) {
      forall c | c in Tops(b)
        ensures !Shown(c, l, v)
      {
        assert TakenBy(n, c, l, x) && Reliable(l[n].vis, CondOf(c, l[c]), v);
      }
      HiddenFlat(b, l0, l, x, v);
    }
  }

  /** After menu_finalize every submenu of the finished tree is right. */
  lemma {:induction false} FinishedRight(f: Forest, l0: State, l: State, x: Scope, v: Valuation)
    requires Grown(f, l0, l, x) && x.Knows(v)
    ensures AllRight(f, l0, l, v)
    decreases Count(f)
  {
    if f.Cons? {
      var n := f.node;
      FinishedRight(l[n].below, l0, l, x, v);
      RightFlat(l[n].below, l0, l, v);
      if Childless(n, l0) && n.hasPrompt && Sound(n, l0, l, v) { SubmenuRight(n, l0, l, x, v); }
      FinishedRight(f.rest, l0, l, x, v);
    }
  }

  /** No promptless entry of the level has children. */
  ghost predicate NothingToLift(f: Forest) { f.Cons? ==> (f.kids.Cons? ==> f.node.hasPrompt) && NothingToLift(f.rest) }

  /** Where nothing is handed on, the submenu is what its symbol took, and nothing is asked of promptless entries. */
  lemma {:induction false} UnliftedTaken(n: Menu, k: Forest, r: Forest, l0: State, l: State, x: Scope)
    requires Grown(Cons(n, k, r), l0, l, x) && Childless(n, l0) && NothingToLift(l[n].below)
    ensures k == l[n].below && AllTaken(n, Tops(k), l, x)
  {
    FlatAlready(l[n].below);
  }

  lemma {:induction false} FlatAlready(f: Forest)
    requires NothingToLift(f)
    ensures Flatten(f) == f
    decreases Count(f)
  {
    if f.Cons? { FlatAlready(f.rest); }
  }

  // ---------- what breaks it ----------

  /** `t`, promptless, took `e` and went below `s`, so `e` ends below `s`. */
  lemma HandedOn(t: Menu, e: Menu)
    requires !t.hasPrompt
    ensures Flatten(Cons(t, Cons(e, Nil, Nil), Nil)) == Cons(t, Nil, Cons(e, Nil, Nil))
  {
    FlatAlready(Cons(e, Nil, Nil));
    AppendFacts(Cons(e, Nil, Nil), Nil);
  }

  ghost predicate Astray(s: Menu, e: Menu, l: State, v: Valuation)
    requires s in l && s.sym.Some?
  {
    Shown(e, l, v) && !On(s.sym.value, v) && !Shown(s, l, v)
  }

  /** The symbol entry `s` with a prompt on condition p, then the promptless symbol entry `t` which depends on `s`. */
  ghost predicate Followed(s: Menu, t: Menu, e: Menu, p: Symbol, l: State) {
    && s in l && t in l && e in l && s.sym.Some? && t.sym.Some? && s.hasPrompt && !t.hasPrompt && e.hasPrompt
    && l[s].vis == Some(Sym(p)) && l[t].dep == Some(Sym(s.sym.value))
  }

  /** An entry on condition `t || q` goes below `t` because it mentions it, and below `s` because `t` has no prompt.
      With s and p at n, that is wrong exactly while t or q is not n. */
  lemma ComparedAstray(s: Menu, t: Menu, e: Menu, p: Symbol, q: Symbol, l: State, v: Valuation, cs: set<Symbol>)
    requires Followed(s, t, e, p, l) && l[e].vis == Some(Node(OrOp, Sym(t.sym.value), Sym(q)))
    requires WellTyped(v) && OthersNo(v) && s.sym.value.Type() in {Boolean, TristateType} && p.Type() == Boolean
    requires v.tri(s.sym.value) == NO && v.tri(p) == NO && s.sym.value != t.sym.value
    ensures DependsOutright(s.sym.value, CondOf(t, l[t])) && PromptCond(t, l[t]) == None
    ensures Mentions(t.sym.value, CondOf(e, l[e])) && !DependsOutright(t.sym.value, CondOf(e, l[e]))
    ensures Reliable(l[s].vis, CondOf(t, l[t]), v) && Reliable(l[s].vis, CondOf(e, l[e]), v)
    ensures Astray(s, e, l, v) <==> v.tri(t.sym.value) != NO || v.tri(q) != NO
    ensures Astray(s, e, l, v) && Unambiguous(cs, v) ==> !Justified(s.sym.value, l[s].vis, CondOf(e, l[e]), cs)
  {
    ExactSymbol(p, v);
    ExactSymbol(s.sym.value, v);
    var cond := l[e].vis.value;
    assert Negated(cond) == Negated(cond.l) + Negated(cond.r) == {};
    assert Value(cond, v) == TriOr(v.tri(t.sym.value), v.tri(q));
  }

  /** An entry on condition `t` goes below `t` outright, and below `s` because `t` has no prompt. With s and p at n,
      that is wrong exactly while t is not n: the condition of this place of t is then not met. */
  lemma OutrightAstray(s: Menu, t: Menu, e: Menu, p: Symbol, l0: State, l: State, v: Valuation)
    requires Followed(s, t, e, p, l) && l[e].vis == Some(Sym(t.sym.value)) && l[t].below == Cons(e, Nil, Nil)
    requires WellTyped(v) && OthersNo(v) && s.sym.value.Type() in {Boolean, TristateType} && p.Type() == Boolean
    requires v.tri(s.sym.value) == NO && v.tri(p) == NO && Childless(t, l0)
    requires t.sym.value.Type() in {Boolean, TristateType}
    ensures DependsOutright(s.sym.value, CondOf(t, l[t])) && DependsOutright(t.sym.value, CondOf(e, l[e]))
    ensures Reliable(l[s].vis, CondOf(t, l[t]), v)
    ensures Astray(s, e, l, v) <==> v.tri(t.sym.value) != NO
    ensures Astray(s, e, l, v) <==> !Steady(t, l0, l, v)
  {
    ExactSymbol(p, v);
    ExactSymbol(s.sym.value, v);
    ExactSymbol(t.sym.value, v);
    assert Tops(l[t].below) == {e};
  }
}

/** The direct dependencies that menu_finalize collects for a symbol (sym->dir_dep, scripts/config/menu.c) against the
    conditions of its prompts: whether a symbol that can be seen has its direct dependencies met. */
module Reach {
  import opened Expressions
  import opened Submenu
  import opened Inherit
  import opened Normalize
  import opened MenuTree
  import opened Finalize
  import opened Placement
  import opened Cycles
  import opened Values
  import opened Setting

  /** One place where a symbol is defined: the condition of its menu entry, and those of the prompts there. */
  datatype Place = Place(dep: Option<Expr>, prompts: seq<Option<Expr>>)

  /** expr_alloc_or: a missing operand drops out. */
  function AllocOr(a: Option<Expr>, b: Option<Expr>): Option<Expr> {
    if a == None then b else if b == None then a else Some(Node(OrOp, a.value, b.value))
  }

  /** dir_dep: the conditions of all places, ORed. */
  function DirDep(places: seq<Place>): Option<Expr> {
    if places == [] then None else AllocOr(DirDep(places[..|places| - 1]), places[|places| - 1].dep)
  }

  lemma {:induction false} DirDepNo(places: seq<Place>, v: Valuation)
    ensures OptValue(DirDep(places), YES, v) == NO <==>
      (exists p :: p in places && p.dep.Some?) && forall p :: p in places && p.dep.Some? ==> Value(p.dep.value, v) == NO
    ensures DirDep(places).Some? <==> exists p :: p in places && p.dep.Some?
  {
    if places != [] {
      var n := |places| - 1;
      assert places == places[..n] + [places[n]];
      DirDepNo(places[..n], v);
      assert places[n] in places;
      forall p | p in places[..n] ensures p in places {}
    }
  }

  /** The conditions of the prompts among some properties. */
  function PromptConds(ps: seq<Property>): seq<Option<Expr>> {
    if ps == [] then [] else (if ps[0].kind.Prompt? then [ps[0].visible] else []) + PromptConds(ps[1..])
  }

  lemma {:induction false} PromptsSeen(ps: seq<Property>, v: Valuation)
    ensures PromptsValue(ps, v) != NO <==> exists c :: c in PromptConds(ps) && OptValue(c, YES, v) != NO
  {
    if ps != [] {
      PromptsSeen(ps[1..], v);
      if ps[0].kind.Prompt? {
        assert PromptConds(ps)[0] == ps[0].visible && ps[0].visible in PromptConds(ps);
        assert forall c :: c in PromptConds(ps) <==> c == ps[0].visible || c in PromptConds(ps[1..]);
      } else {
        assert PromptConds(ps) == PromptConds(ps[1..]);
      }
    }
  }

  /** The prompts of the symbol are those of its places. */
  ghost predicate Gathered(ps: seq<Property>, places: seq<Place>) {
    && (forall c :: c in PromptConds(ps) ==> exists p :: p in places && c in p.prompts)
    && (forall p, c :: p in places && c in p.prompts ==> c in PromptConds(ps))
  }

  /** Each prompt is seen only where the condition of its place holds. */
  ghost predicate Bounded(places: seq<Place>, v: Valuation) {
    forall p, c :: p in places && c in p.prompts && OptValue(c, YES, v) != NO ==> OptValue(p.dep, YES, v) != NO
  }

  /** That is what the inheritance of conditions gives. */
  lemma InheritedBounded(sym: Option<Symbol>, dep: Option<Expr>, own: Option<Expr>, vis: Option<Expr>, x: Scope,
                         v: Valuation)
    requires PromptInherits(sym, dep, own, vis, x) && x.Knows(v)
    ensures Bounded([Place(dep, [vis])], v)
  {
    assert ValueOpt(vis, v) != NO ==> ValueOpt(dep, v) != NO;
  }

  /** The places at which the entries of a tree define the symbol. */
  ghost function PlacesIn(f: Forest, s: Symbol, l: State): seq<Place> {
    match f
    case Nil => []
    case Cons(n, k, r) => PlaceAt(n, s, l) + PlacesIn(k, s, l) + PlacesIn(r, s, l)
  }

  ghost function PlaceAt(n: Menu, s: Symbol, l: State): seq<Place> {
    if n.sym == Some(s) && n in l then [Place(l[n].dep, if n.hasPrompt then [l[n].vis] else [])] else []
  }

  /** After menu_finalize all of them bound their prompts. */
  lemma {:induction false} PlacesBounded(f: Forest, up: Option<Expr>, l0: State, l: State, x: Scope, s: Symbol,
                                         v: Valuation)
    requires Inherited(f, up, l0, l, x) && x.Knows(v)
    ensures Bounded(PlacesIn(f, s, l), v)
  {
    if f.Cons? {
      var n := f.node;
      PlacesBounded(f.kids, l[n].dep, l0, l, x, s, v);
      PlacesBounded(f.rest, up, l0, l, x, s, v);
      if n.hasPrompt { InheritedBounded(n.sym, l[n].dep, l0[n].vis, l[n].vis, x, v); }
      assert Bounded(PlaceAt(n, s, l), v);
    }
  }

  /** So in a finished tree nothing is left to ask of the places, in whatever order they were collected. */
  lemma TreeReachable(g: Config, s: Symbol, places: seq<Place>, f: Forest, up: Option<Expr>, l0: State, l: State,
                      x: Scope, v: Valuation)
    requires Inherited(f, up, l0, l, x) && x.Knows(v) && multiset(places) == multiset(PlacesIn(f, s, l))
    requires s in g.table && g.table[s].dirDep == DirDep(places) && Gathered(g.table[s].props, places)
    ensures Bounded(places, v)
    ensures Reachable(VisibilityOf(g, s, v)) <==>
        !(OptValue(DirDep(places), YES, v) == NO && SeenUnconditionally(places, v))
  {
    PlacesBounded(f, up, l0, l, x, s, v);
    forall p ensures p in places <==> p in PlacesIn(f, s, l) {
      assert p in multiset(places) <==> p in multiset(PlacesIn(f, s, l));
    }
    ReachableExact(g, s, places, v);
  }

  /** A prompt is seen at a place without any condition. */
  ghost predicate SeenUnconditionally(places: seq<Place>, v: Valuation) {
    exists p, c :: p in places && p.dep == None && c in p.prompts && OptValue(c, YES, v) != NO
  }

  /** A symbol that can be seen has its direct dependencies met. */
  predicate Reachable(c: Cell) { c.visible != NO ==> c.dir != NO }

  /** A visible symbol has its direct dependencies met, except exactly when they are not met although a prompt shows
      at a place that has no condition at all: such a place drops out of the OR instead of making it y. */
  lemma ReachableExact(g: Config, s: Symbol, places: seq<Place>, v: Valuation)
    requires s in g.table && g.table[s].dirDep == DirDep(places)
    requires Gathered(g.table[s].props, places) && Bounded(places, v)
    ensures Reachable(VisibilityOf(g, s, v)) <==>
        !(OptValue(DirDep(places), YES, v) == NO && SeenUnconditionally(places, v))
  {
    DirDepNo(places, v);
    PromptsSeen(g.table[s].props, v);
    var c := VisibilityOf(g, s, v);
    assert c.visible != NO <==> PromptsValue(g.table[s].props, v) != NO;
    assert c.dir == NO <==> OptValue(DirDep(places), YES, v) == NO;
  }

  /** With conditions at all places, or at none, it always has. */
  lemma ReachableUniform(g: Config, s: Symbol, places: seq<Place>, v: Valuation)
    requires s in g.table && g.table[s].dirDep == DirDep(places)
    requires Gathered(g.table[s].props, places) && Bounded(places, v)
    requires (forall p :: p in places ==> p.dep.Some?) || (forall p :: p in places ==> p.dep.None?)
    ensures Reachable(VisibilityOf(g, s, v))
  {
    ReachableExact(g, s, places, v);
    DirDepNo(places, v);
  }

  /** There every value within range takes effect when it is set. */
  lemma WithinRangeTakes(g: Config, s: Symbol, places: seq<Place>, v: Valuation, val: Tristate)
    requires s in g.table && g.table[s].dirDep == DirDep(places) && s !in LETTERS && s.Type() in {Boolean, TristateType}
    requires Gathered(g.table[s].props, places) && Bounded(places, v)
    requires (forall p :: p in places ==> p.dep.Some?) || (forall p :: p in places ==> p.dep.None?)
    requires WithinRange(g, s, ValueOf(g, s, v), val)
    ensures ValueOf(g.(user := SetTristate(g, s, ValueOf(g, s, v), val).value), s, v).tri == val
  {
    ReachableUniform(g, s, places, v);
    SettleTakes(g, s, v, val);
  }

  /** A symbol defined twice, once without conditions and once below a symbol that is n: it can be seen, but as soon as
      it is selected it is forced to n. */
  lemma VisibleYetForcedOff(g: Config, s: Symbol, b: Symbol, v: Valuation)
    requires s in g.table && s.Type() == TristateType && s !in LETTERS && v.tri(b) == NO
    requires g.table[s].dirDep == DirDep([Place(None, [None]), Place(Some(Sym(b)), [Some(Sym(b))])])
    requires g.table[s].props == [Property(Prompt, None, None), Property(Prompt, Some(Sym(b)), None)]
    requires OptValue(g.table[s].revDep, NO, v) != NO
    ensures ValueOf(g, s, v).visible != NO && ValueOf(g, s, v).tri == NO
  {
    var places := [Place(None, [None]), Place(Some(Sym(b)), [Some(Sym(b))])];
    assert places[..1] == [Place(None, [None])] && places[..1][..0] == [];
    assert DirDep(places[..1]) == AllocOr(None, None) == None;
    assert DirDep(places) == Some(Sym(b));
    var ps := g.table[s].props;
    assert PromptsValue(ps, v) == TriOr(YES, PromptsValue(ps[1..], v));
  }

  // ---------- symbols that are on ----------

  /** Defaults apply only where the condition of some place holds. */
  ghost predicate DefaultsBounded(ps: seq<Property>, places: seq<Place>, v: Valuation) {
    forall d :: d in ps && d.kind.Default? && OptValue(d.visible, YES, v) != NO ==> MetSomewhere(places, v)
  }

  ghost predicate MetSomewhere(places: seq<Place>, v: Valuation) {
    exists p :: p in places && OptValue(p.dep, YES, v) != NO
  }

  lemma {:induction false} DefaultApplies(ps: seq<Property>, v: Valuation)
    ensures DefaultOf(ps, v).Some? ==>
      exists d :: d in ps && d.kind.Default? && OptValue(d.visible, YES, v) == DefaultOf(ps, v).value.1 != NO
  {
    if ps != [] {
      DefaultApplies(ps[1..], v);
      assert ps[0] in ps;
    }
  }

  /** However a symbol comes to be m or y, by its user, a default, an imply or a select, the condition of a place where
      it is defined is met. */
  lemma OnSomewhere(g: Config, s: Symbol, places: seq<Place>, v: Valuation)
    requires s in g.table && g.table[s].dirDep == DirDep(places) && places != []
    requires s !in LETTERS && s.Type() in {Boolean, TristateType}
    requires Gathered(g.table[s].props, places) && Bounded(places, v) && DefaultsBounded(g.table[s].props, places, v)
    requires ValueOf(g, s, v).tri != NO
    ensures MetSomewhere(places, v)
  {
    var c := VisibilityOf(g, s, v);
    if c.dir != NO {
      DirDepNo(places, v);
      assert places[0] in places;
    } else {
      PromptsSeen(g.table[s].props, v);
      DefaultApplies(g.table[s].props, v);
    }
  }

  /** So a promptless symbol defined at one place only, which took its followers outright, hands them on rightly
      whatever the calculated values are. */
  lemma SteadyAtOnePlace(g: Config, sol: Cells, n: Menu, l0: State, l: State, places: seq<Place>)
    requires IsSolution(g, sol) && n in l && n.sym.Some? && n.sym.value in g.table
    requires n.sym.value !in LETTERS && n.sym.value.Type() in {Boolean, TristateType}
    requires g.parse("y", Unknown) == g.parse("m", Unknown) == g.parse("n", Unknown) == None
    requires |places| == 1 && places[0].dep == l[n].dep
    requires var d, v := g.table[n.sym.value], View(g, sol);
      && d.dirDep == DirDep(places) && Gathered(d.props, places)
      && Bounded(places, v) && DefaultsBounded(d.props, places, v)
    requires forall c :: c in Tops(l[n].below) && c in l ==> DependsOutright(n.sym.value, CondOf(c, l[c]))
    ensures Steady(n, l0, l, View(g, sol))
  {
    var s, v := n.sym.value, View(g, sol);
    SolutionWellTyped(g, sol);
    ExactSymbol(s, v);
    assert SolvedAt(g, sol, s) && v.tri(s) == ValueOf(g, s, v).tri;
    if v.tri(s) != NO { OnSomewhere(g, s, places, v); }
  }
}

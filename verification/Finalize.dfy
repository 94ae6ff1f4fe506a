/** menu_finalize as a whole (scripts/config/menu.c): conditions are inherited downwards, followers that depend on
    a symbol move below it, children of promptless entries move up. */
module Finalize {
  import opened Expressions
  import opened Submenu
  import opened Inherit
  import opened MenuTree

  // ---------- what holds of the conditions ----------

  /** Tristates are tested for known constants only. */
  ghost predicate Scoped(l: State, x: Scope) {
    && x.Valid()
    && forall n :: n in l ==> x.Covers(l[n].dep) && x.Covers(l[n].vis)
  }

  function PromptCond(n: Menu, c: Fields): Option<Expr> {
    if n.hasPrompt then c.vis else None
  }

  predicate CleanEntry(n: Menu, c: Fields) { Clean(c.dep) && Clean(PromptCond(n, c)) }

  /** The entries of one level have inherited conditions already. */
  ghost predicate TopClean(f: Forest, l: State) {
    f.Cons? ==> f.node in l && CleanEntry(f.node, l[f.node]) && TopClean(f.rest, l)
  }

  /** The entry's condition is its own one of state `l0` ANDed with the one above; so is its prompt's. */
  ghost predicate Inherits(n: Menu, up: Option<Expr>, l0: State, l: State, x: Scope)
    requires n in l0 && n in l
  {
    && (forall v: Valuation :: x.Knows(v)
          ==> ValueOpt(l[n].dep, v) == TriAnd(ValueOpt(up, v), ModuleOpt(l0[n].dep, x.modules, v)))
    && (if n.hasPrompt then PromptInherits(n.sym, l[n].dep, l0[n].vis, l[n].vis, x) else l[n].vis == l0[n].vis)
  }

  /** All of `f` inherits along the tree it was in state `l0`, from `up` downwards. */
  ghost predicate Inherited(f: Forest, up: Option<Expr>, l0: State, l: State, x: Scope) {
    match f
    case Nil => true
    case Cons(n, k, r) =>
      && n in l0 && n in l && Inherits(n, up, l0, l, x)
      && Inherited(k, l[n].dep, l0, l, x) && Inherited(r, up, l0, l, x)
  }

  /** Below each entry of this level, whose own conditions stay as they are. */
  ghost predicate BelowInherited(f: Forest, l0: State, l: State, x: Scope) {
    match f
    case Nil => true
    case Cons(n, k, r) =>
      && n in l0 && n in l && l[n].dep == l0[n].dep && l[n].vis == l0[n].vis
      && Inherited(k, l[n].dep, l0, l, x) && BelowInherited(r, l0, l, x)
  }

  ghost predicate SameConditions(s: set<Menu>, l: State, l': State) {
    forall n :: n in s && n in l ==> n in l' && l'[n].dep == l[n].dep && l'[n].vis == l[n].vis
  }

  lemma {:induction false} InheritedAgree(f: Forest, up: Option<Expr>, l0: State, l: State, l0': State, l': State,
                                          x: Scope)
    requires Inherited(f, up, l0, l, x)
    requires SameConditions(Nodes(f), l0, l0') && SameConditions(Nodes(f), l, l')
    ensures Inherited(f, up, l0', l', x)
  {
    if f.Cons? {
      InheritedAgree(f.kids, l[f.node].dep, l0, l, l0', l', x);
      InheritedAgree(f.rest, up, l0, l, l0', l', x);
    }
  }

  lemma {:induction false} BelowAgree(f: Forest, l0: State, l: State, l0': State, l': State, x: Scope)
    requires BelowInherited(f, l0, l, x)
    requires SameConditions(Nodes(f), l0, l0') && SameConditions(Nodes(f), l, l')
    ensures BelowInherited(f, l0', l', x)
  {
    if f.Cons? {
      InheritedAgree(f.kids, l[f.node].dep, l0, l, l0', l', x);
      BelowAgree(f.rest, l0, l, l0', l', x);
    }
  }

  lemma {:induction false} BelowAppend(a: Forest, b: Forest, l0: State, l: State, x: Scope)
    requires BelowInherited(a, l0, l, x) && BelowInherited(b, l0, l, x)
    ensures BelowInherited(Append(a, b), l0, l, x)
  {
    if a.Cons? { BelowAppend(a.rest, b, l0, l, x); }
  }

  // ---------- what one call does ----------

  ghost function Tops(f: Forest): set<Menu> {
    if f.Nil? then {} else {f.node} + Tops(f.rest)
  }

  lemma {:induction false} TopsAppend(a: Forest, b: Forest)
    ensures Tops(Append(a, b)) == Tops(a) + Tops(b)
  {
    if a.Cons? { TopsAppend(a.rest, b); }
  }

  lemma {:induction false} TopsIn(f: Forest)
    ensures Tops(f) <= Nodes(f)
  {
    if f.Cons? { TopsIn(f.rest); }
  }

  ghost predicate Visited(s: set<Menu>, l: State, l': State) {
    forall n :: n in s && n in l && n in l' ==> l'[n].visits == l[n].visits + 1
  }

  function CondOf(n: Menu, c: Fields): Option<Expr> {
    if n.hasPrompt then c.vis else c.dep
  }

  /** Why an entry is below the symbol entry `m`: its condition mentions the symbol; and if `m` has a prompt, it is
      rightly there. */
  ghost predicate TakenBy(m: Menu, c: Menu, l: State, x: Scope)
    requires m in l && c in l && m.sym.Some?
  {
    && Mentions(m.sym.value, CondOf(c, l[c]))
    && (m.hasPrompt ==> Justified(m.sym.value, l[m].vis, CondOf(c, l[c]), x.tested))
  }

  ghost predicate AllTaken(m: Menu, t: set<Menu>, l: State, x: Scope)
    requires m in l && m.sym.Some?
  {
    forall c :: c in t ==> c in l && TakenBy(m, c, l, x)
  }

  /** Where the entry is visible, the condition `up` holds. */
  ghost predicate Within(up: Option<Expr>, c: Menu, l: State, x: Scope)
    requires c in l
  {
    forall v: Valuation :: x.Knows(v) && Shown(c, l, v) ==> ValueOpt(up, v) != NO
  }

  predicate Shown(c: Menu, l: State, v: Valuation) { c in l && ValueOpt(CondOf(c, l[c]), v) != NO }

  ghost predicate AllWithin(up: Option<Expr>, t: set<Menu>, l: State, x: Scope) {
    forall c :: c in t ==> c in l && Within(up, c, l, x)
  }

  /** The level `t` below `m`: taken if `m` is a symbol that had no children when it was read, in state `l0`; else read
      there, and bound by the condition of `m`. */
  ghost predicate Placed(m: Menu, t: set<Menu>, l0: State, l: State, x: Scope) {
    m in l && if Childless(m, l0) then AllTaken(m, t, l, x) else AllWithin(l[m].dep, t, l, x)
  }

  /** Each level below these entries is the flattened form of the one their finalizing ended with, whose entries are
      there for a reason. */
  ghost predicate Grown(f: Forest, l0: State, l: State, x: Scope)
    decreases Count(f)
  {
    match f
    case Nil => true
    case Cons(n, k, r) =>
      && n in l && k == Flatten(l[n].below) && Count(l[n].below) == Count(k)
      && Placed(n, Tops(l[n].below), l0, l, x)
      && Grown(l[n].below, l0, l, x) && Grown(r, l0, l, x)
  }

  ghost predicate Childless(n: Menu, l0: State) { n in l0 && l0[n].list == null && n.sym.Some? }

  ghost predicate SameBelow(s: set<Menu>, l: State, l': State) {
    forall n :: n in s && n in l ==> n in l' && l'[n].below == l[n].below
  }

  ghost predicate SameLists(s: set<Menu>, l: State, l': State) {
    forall n :: n in s ==> (n in l <==> n in l') && (n in l ==> l'[n].list == l[n].list)
  }

  lemma PlacedAgree(m: Menu, t: set<Menu>, l0: State, l: State, l0': State, l': State, x: Scope)
    requires Placed(m, t, l0, l, x) && SameConditions({m} + t, l, l') && (Childless(m, l0) <==> Childless(m, l0'))
    ensures Placed(m, t, l0', l', x)
  {
    forall c | c in t ensures c in l' && CondOf(c, l'[c]) == CondOf(c, l[c]) {}
    assert forall c, v :: c in t ==> (Shown(c, l', v) <==> Shown(c, l, v));
  }

  lemma {:induction false} GrownAgree(f: Forest, l0: State, l: State, l0': State, l': State, x: Scope)
    requires Grown(f, l0, l, x) && SameLists(Nodes(f), l0, l0')
    requires SameConditions(Nodes(f), l, l') && SameBelow(Nodes(f), l, l')
    ensures Grown(f, l0', l', x)
    decreases Count(f)
  {
    if f.Cons? {
      var b := l[f.node].below;
      FlattenNodes(b);
      TopsIn(b);
      PlacedAgree(f.node, Tops(b), l0, l, l0', l', x);
      GrownAgree(b, l0, l, l0', l', x);
      GrownAgree(f.rest, l0, l, l0', l', x);
    }
  }

  lemma {:induction false} GrownAppend(a: Forest, b: Forest, l0: State, l: State, x: Scope)
    requires Grown(a, l0, l, x) && Grown(b, l0, l, x)
    ensures Grown(Append(a, b), l0, l, x)
  {
    if a.Cons? { GrownAppend(a.rest, b, l0, l, x); }
  }

  /** The run of followers ends before an entry that need not go below the symbol: not depending on it outright, and
      without all that the prompt asks for. */
  ghost predicate Stops(m: Menu, rest: Forest, l: State) {
    m in l && m.sym.Some? && rest.Cons? && rest.node in l ==>
      !MustTake(m.sym.value, PromptCond(m, l[m]), CondOf(rest.node, l[rest.node]))
  }

  /** The effect of finalizing `m`, the first of `f`: it and the followers it takes (`taken`, as they were) turn
      into `m` with its new children (`g.kids`, which were `kids` before flattening); the rest of the level is as
      before. */
  ghost predicate Finalized(m: Menu, f: Forest, g: Forest, taken: Forest, kids: Forest, l: State, l': State, x: Scope) {
    && m in l && m in l' && g.Cons? && g.node == m && taken.Cons? && taken.node == m
    && f == Append(taken, g.rest)
    && Pre(Cons(m, g.kids, Nil)) == Pre(taken) && Nodes(Cons(m, g.kids, Nil)) == Nodes(taken)
    && Distinct(g) && g.kids == Flatten(kids) && AllPrompted(g.kids)
    && Linked(g, m, l[m].parent, null, l')
    && OnlyIn(Nodes(taken), l, l') && Visited(Nodes(taken), l, l')
    && BelowInherited(taken, l, l', x) && Scoped(l', x)
    && (taken.kids.Cons? || m.sym == None ==> taken.rest == Nil)
    && Placed(m, Tops(kids), l, l', x) && Grown(Cons(m, g.kids, Nil), l, l', x)
    && (taken.kids == Nil ==> Stops(m, g.rest, l))
  }

  // ---------- inheriting the conditions of one level ----------

  /** Conditions of the entries of this level only. */
  ghost predicate LevelInherited(f: Forest, up: Option<Expr>, l0: State, l: State, x: Scope) {
    match f
    case Nil => true
    case Cons(n, k, r) =>
      && n in l0 && n in l && Inherits(n, up, l0, l, x) && CleanEntry(n, l[n])
      && LevelInherited(r, up, l0, l, x)
  }

  ghost function SetCond(l: State, n: Menu, dep: Option<Expr>, vis: Option<Expr>): State {
    if n in l then l[n := l[n].(dep := dep, vis := vis)] else l
  }

  method AssignCond(n: Menu, dep: Option<Expr>, vis: Option<Expr>, ghost s: set<Menu>, ghost l: State)
    requires l == Snap(s)
    modifies n`dep, n`vis
    ensures Snap(s) == SetCond(l, n, dep, vis)
  {
    n.dep := dep;
    n.vis := vis;
  }

  /** One child takes over the condition `up`. */
  method InheritEntry(n: Menu, up: Option<Expr>, modules: Symbol, ghost s: set<Menu>, ghost x: Scope)
    requires n in s && Scoped(Snap(s), x) && x.modules == modules && x.Covers(up) && Clean(up)
    modifies n`dep, n`vis
    ensures OnlyIn({n}, old(Snap(s)), Snap(s)) && Scoped(Snap(s), x)
    ensures Inherits(n, up, old(Snap(s)), Snap(s), x) && CleanEntry(n, Snap(s)[n])
    ensures old(Snap(s))[n] == Snap(s)[n].(dep := old(n.dep), vis := old(n.vis))
  {
    ghost var l := Snap(s);
    var dep := InheritInto(up, n.dep, x, modules);
    var vis := n.vis;
    if n.hasPrompt {
      vis := InheritPrompt(n.sym, dep, n.vis, x, modules);
    }
    AssignCond(n, dep, vis, s, l);
  }

  lemma {:induction false} LevelAgree(f: Forest, up: Option<Expr>, l0: State, l: State, l': State, x: Scope)
    requires LevelInherited(f, up, l0, l, x) && SameConditions(Tops(f), l, l')
    ensures LevelInherited(f, up, l0, l', x)
  {
    if f.Cons? { LevelAgree(f.rest, up, l0, l, l', x); }
  }

  lemma {:induction false} LevelAppend(a: Forest, b: Forest, up: Option<Expr>, l0: State, l: State, x: Scope)
    requires LevelInherited(a, up, l0, l, x) && LevelInherited(b, up, l0, l, x)
    ensures LevelInherited(Append(a, b), up, l0, l, x)
    ensures Tops(Append(a, b)) == Tops(a) + Tops(b)
  {
    if a.Cons? { LevelAppend(a.rest, b, up, l0, l, x); }
  }

  /** Half way through a level: the entries in `done` have inherited, those in `todo` not yet. */
  ghost predicate Inheriting(k: Forest, done: Forest, todo: Forest, up: Option<Expr>, l0: State, l: State, x: Scope) {
    && Append(done, todo) == k && OnlyIn(Tops(done), l0, l)
    && LevelInherited(done, up, l0, l, x) && Scoped(l, x)
  }

  /** One step of the walk over a level: `n` has just inherited, moving the state from `l` to `l'`. */
  lemma InheritStep(k: Forest, done: Forest, todo: Forest, up: Option<Expr>, l0: State, l: State, l': State, x: Scope)
    requires todo.Cons? && Distinct(k) && Inheriting(k, done, todo, up, l0, l, x) && Scoped(l', x)
    requires var n := todo.node;
      n in l && n in l' && OnlyIn({n}, l, l') && Inherits(n, up, l, l', x) && CleanEntry(n, l'[n])
    ensures Inheriting(k, Append(done, Cons(todo.node, todo.kids, Nil)), todo.rest, up, l0, l', x)
  {
    var here := Cons(todo.node, todo.kids, Nil);
    TopsIn(done);
    AppendFacts(done, todo);
    AppendAssoc(done, here, todo.rest);
    LevelAgree(done, up, l0, l, l', x);
    assert todo.node in l0 && l0[todo.node] == l[todo.node];
    LevelAppend(done, here, up, l0, l', x);
  }

  /** The loop over the children that adds the condition of `m` to each of them. */
  method InheritList(m: Menu, modules: Symbol, ghost k: Forest, ghost s: set<Menu>, ghost x: Scope)
    requires Linked(k, m.list, m, null, Snap(s)) && Distinct(k) && m !in Nodes(k) && m in s && Nodes(k) <= s
    requires Scoped(Snap(s), x) && x.modules == modules && Clean(m.dep)
    modifies set n | n in Nodes(k) :: n`dep, set n | n in Nodes(k) :: n`vis
    ensures LevelInherited(k, m.dep, old(Snap(s)), Snap(s), x)
    ensures OnlyIn(Tops(k), old(Snap(s)), Snap(s)) && Scoped(Snap(s), x)
  {
    ghost var l0 := Snap(s);
    var menu := m.list;
    ghost var done, todo := Nil, k;
    while menu != null
      invariant Linked(todo, menu, m, null, l0) && Inheriting(k, done, todo, m.dep, l0, Snap(s), x)
      decreases todo
    {
      ghost var l := Snap(s);
      AppendFacts(done, todo);
      assert menu in s;
      InheritEntry(menu, m.dep, modules, s, x);
      InheritStep(k, done, todo, m.dep, l0, l, Snap(s), x);
      done, todo := Append(done, Cons(menu, todo.kids, Nil)), todo.rest;
      menu := menu.next;
    }
    AppendFacts(done, Nil);
  }

  // ---------- finalizing the entries of one level ----------

  /** The entries `tk` of the level `f0` have been finalized and now are `done`, from `head` on, below `dpar`; those
      in `todo` start at `cur` below `tpar`. */
  ghost predicate Progress(f0: Forest, tk: Forest, done: Forest, todo: Forest, head: Menu?, dpar: Menu?, cur: Menu?,
                           tpar: Menu?, l0: State, l: State, x: Scope) {
    && f0 == Append(tk, todo)
    && Linked(done, head, dpar, cur, l) && Linked(todo, cur, tpar, null, l)
    && Distinct(Append(done, todo)) && KidsPrompted(done)
    && Pre(done) == Pre(tk) && Nodes(done) == Nodes(tk)
    && OnlyIn(Nodes(tk), l0, l) && Visited(Nodes(tk), l0, l)
    && BelowInherited(tk, l0, l, x) && Scoped(l, x)
    && Grown(done, l0, l, x) && Tops(done) <= Tops(tk)
  }

  lemma ProgressLinks(done: Forest, todo: Forest, head: Menu?, dpar: Menu?, cur: Menu, tpar: Menu?,
                      g: Forest, taken: Forest, kids: Forest, l: State, l': State, x: Scope)
    requires Linked(done, head, dpar, cur, l) && Distinct(Append(done, todo)) && KidsPrompted(done)
    requires cur in l && l[cur].parent == tpar && Finalized(cur, todo, g, taken, kids, l, l', x)
    ensures var here := Cons(cur, g.kids, Nil);
      && Linked(Append(done, here), head, dpar, l'[cur].next, SetParent(l', cur, dpar))
      && Linked(g.rest, l'[cur].next, tpar, null, SetParent(l', cur, dpar))
      && Distinct(Append(Append(done, here), g.rest)) && KidsPrompted(Append(done, here))
  {
    var here, l'' := Cons(cur, g.kids, Nil), SetParent(l', cur, dpar);
    AppendFacts(done, todo);
    AppendFacts(taken, g.rest);
    LinkedAgree(done, head, dpar, cur, l, l'');
    LinkedAgree(g.kids, l'[cur].list, cur, null, l', l'');
    LinkedAgree(g.rest, l'[cur].next, tpar, null, l', l'');
    LinkedAppend(done, here, head, dpar, cur, l'[cur].next, l'');
    AppendAssoc(done, here, g.rest);
    AppendFacts(done, Cons(cur, g.kids, g.rest));
    AppendCount(done, here);
  }

  lemma SameParent(l: State, n: Menu, m: Menu?)
    requires n in l && l[n].parent == m
    ensures SetParent(l, n, m) == l
  {
    assert l[n].(parent := m) == l[n];
  }

  lemma ScopedParent(l: State, n: Menu, m: Menu?, x: Scope)
    requires Scoped(l, x)
    ensures Scoped(SetParent(l, n, m), x)
  {
  }

  lemma SameOutside(a: set<Menu>, b: set<Menu>, l: State, l': State)
    requires OnlyIn(a, l, l') && a !! b
    ensures SameConditions(b, l, l') && SameConditions(b, l', l)
  {
  }

  lemma SetParentConditions(s: set<Menu>, l: State, n: Menu, m: Menu?)
    ensures SameConditions(s, l, SetParent(l, n, m))
  {
  }

  lemma OnlyInParent(a: set<Menu>, n: Menu, m: Menu?, l: State, l': State)
    requires OnlyIn(a, l, l') && n in a
    ensures OnlyIn(a, l, SetParent(l', n, m))
    ensures Visited(a, l, l') ==> Visited(a, l, SetParent(l', n, m))
  {
  }

  lemma ProgressConditions(tk: Forest, taken: Forest, dpar: Menu?, cur: Menu, l0: State, l: State, l': State, x: Scope)
    requires OnlyIn(Nodes(tk), l0, l) && Visited(Nodes(tk), l0, l) && BelowInherited(tk, l0, l, x)
    requires OnlyIn(Nodes(taken), l, l') && Visited(Nodes(taken), l, l') && BelowInherited(taken, l, l', x)
    requires Scoped(l', x) && cur in Nodes(taken) && Nodes(tk) !! Nodes(taken)
    ensures var (t, l'') := (Append(tk, taken), SetParent(l', cur, dpar));
      OnlyIn(Nodes(t), l0, l'') && Visited(Nodes(t), l0, l'') && BelowInherited(t, l0, l'', x) && Scoped(l'', x)
  {
    var l'' := SetParent(l', cur, dpar);
    ScopedParent(l', cur, dpar, x);
    OnlyInParent(Nodes(taken), cur, dpar, l, l');
    AppendFacts(tk, taken);
    SameOutside(Nodes(tk), Nodes(taken), l0, l);
    SameOutside(Nodes(taken), Nodes(tk), l, l'');
    SetParentConditions(Nodes(taken), l', cur, dpar);
    BelowAgree(tk, l0, l, l0, l'', x);
    BelowAgree(taken, l, l', l0, l'', x);
    BelowAppend(tk, taken, l0, l'', x);
  }

  /** Finalizing the next entry, then hooking it to `dpar`. */
  lemma ProgressStep(f0: Forest, tk: Forest, done: Forest, todo: Forest, head: Menu?, dpar: Menu?, cur: Menu,
                     tpar: Menu?, g: Forest, taken: Forest, kids: Forest, l0: State, l: State, l': State, x: Scope)
    requires Progress(f0, tk, done, todo, head, dpar, cur, tpar, l0, l, x)
    requires cur in l && l[cur].parent == tpar && Finalized(cur, todo, g, taken, kids, l, l', x)
    ensures Progress(f0, Append(tk, taken), Append(done, Cons(cur, g.kids, Nil)), g.rest, head, dpar, l'[cur].next,
                     tpar, l0, SetParent(l', cur, dpar), x)
  {
    ProgressLinks(done, todo, head, dpar, cur, tpar, g, taken, kids, l, l', x);
    AppendFacts(done, todo);
    AppendFacts(taken, g.rest);
    AppendFacts(tk, taken);
    AppendFacts(done, Cons(cur, g.kids, Nil));
    AppendAssoc(tk, taken, g.rest);
    ProgressConditions(tk, taken, dpar, cur, l0, l, l', x);
    ProgressGrown(done, Nodes(tk), cur, g.kids, Nodes(taken), dpar, l0, l, l', x);
    TopsAppend(done, Cons(cur, g.kids, Nil));
    TopsAppend(tk, taken);
  }

  lemma ProgressGrown(done: Forest, tk: set<Menu>, cur: Menu, k: Forest, taken: set<Menu>, dpar: Menu?,
                      l0: State, l: State, l': State, x: Scope)
    requires Grown(done, l0, l, x) && Grown(Cons(cur, k, Nil), l, l', x)
    requires OnlyIn(tk, l0, l) && OnlyIn(taken, l, l') && tk !! taken
    requires Nodes(done) == tk && Nodes(Cons(cur, k, Nil)) == taken
    ensures Grown(Append(done, Cons(cur, k, Nil)), l0, SetParent(l', cur, dpar), x)
  {
    var here, l'' := Cons(cur, k, Nil), SetParent(l', cur, dpar);
    GrownAgree(done, l0, l, l0, l'', x);
    GrownAgree(here, l, l', l0, l'', x);
    GrownAppend(done, here, l0, l'', x);
  }

  /** After the children or the followers have been finalized and hooked below `m`, before flattening. */
  ghost predicate Ready(m: Menu, f: Forest, kids: Forest, rest: Forest, taken: Forest, l: State, l': State, x: Scope) {
    && m in l && m in l' && taken.Cons? && taken.node == m
    && f == Append(taken, rest)
    && Pre(Cons(m, kids, Nil)) == Pre(taken) && Nodes(Cons(m, kids, Nil)) == Nodes(taken)
    && Distinct(Cons(m, kids, rest)) && KidsPrompted(kids)
    && Linked(Cons(m, kids, rest), m, l[m].parent, null, l')
    && OnlyIn(Nodes(taken), l, l') && Visited(Nodes(kids), l, l') && l'[m].visits == l[m].visits
    && BelowInherited(taken, l, l', x) && Scoped(l', x)
    && (taken.kids.Cons? || m.sym == None ==> taken.rest == Nil)
    && Placed(m, Tops(kids), l, l', x) && Grown(kids, l, l', x)
    && (taken.kids == Nil ==> Stops(m, rest, l))
  }

  ghost predicate Input(m: Menu, f: Forest, s: set<Menu>, l: State, x: Scope) {
    && f.Cons? && f.node == m && m in l && l.Keys == s
    && Linked(f, m, l[m].parent, null, l) && Distinct(f) && Nodes(f) <= s
    && Scoped(l, x) && TopClean(f, l)
  }

  // ---------- the recursion ----------

  ghost function Bump(l: State, m: Menu, kids: Forest): State {
    if m in l then l[m := l[m].(visits := l[m].visits + 1, below := kids)] else l
  }

  ghost method CountVisit(m: Menu, kids: Forest, s: set<Menu>, l: State)
    requires l == Snap(s)
    modifies m`visits, m`below
    ensures Snap(s) == Bump(l, m, kids)
  {
    m.visits, m.below := m.visits + 1, kids;
  }

  lemma FinishState(m: Menu, level: Forest, t: set<Menu>, kids: set<Menu>, l: State, l1: State, l': State, x: Scope)
    requires m in l1 && t == {m} + kids && m !in kids && OnlyIn(t, l, l1) && Visited(kids, l, l1) && Scoped(l1, x)
    requires m in l && l1[m].visits == l[m].visits
    requires OnlyIn(kids, Bump(l1, m, level), l') && SameConditions(kids, l1, l')
    requires forall n :: n in kids && n in l1 ==> l'[n].visits == l1[n].visits
    ensures OnlyIn(t, l, l') && Visited(t, l, l') && SameConditions(l1.Keys, l1, l') && SameLinks(l'[m], l1[m])
  {
  }

  lemma Finish(m: Menu, f: Forest, kids: Forest, rest: Forest, taken: Forest, l: State, l1: State, l': State, x: Scope)
    requires Ready(m, f, kids, rest, taken, l, l1, x)
    requires OnlyIn(Nodes(kids), Bump(l1, m, kids), l') && Linked(Flatten(kids), l1[m].list, m, null, l')
    requires SameConditions(Nodes(kids), l1, l')
    requires forall n :: n in Nodes(kids) && n in l1 ==> l'[n].visits == l1[n].visits
    requires SameBelow(Nodes(kids), l1, l')
    ensures Finalized(m, f, Cons(m, Flatten(kids), rest), taken, kids, l, l', x)
  {
    FinishShape(m, kids, rest);
    assert Nodes(taken) == {m} + Nodes(kids);
    FinishState(m, kids, Nodes(taken), Nodes(kids), l, l1, l', x);
    ScopedLinks(l1, l', x);
    FinishLinks(m, kids, rest, l[m].parent, l1, l');
    BelowAgree(taken, l, l1, l, l', x);
    FinishGrown(m, kids, l, l1, l', x);
  }

  lemma FinishShape(m: Menu, kids: Forest, rest: Forest)
    requires Distinct(Cons(m, kids, rest)) && KidsPrompted(kids)
    ensures Pre(Cons(m, Flatten(kids), Nil)) == Pre(Cons(m, kids, Nil))
    ensures Nodes(Cons(m, Flatten(kids), Nil)) == Nodes(Cons(m, kids, Nil))
    ensures Distinct(Cons(m, Flatten(kids), rest)) && AllPrompted(Flatten(kids))
  {
    FlattenFacts(kids);
  }

  lemma FinishLinks(m: Menu, kids: Forest, rest: Forest, par: Menu?, l1: State, l': State)
    requires Linked(Cons(m, kids, rest), m, par, null, l1) && Distinct(Cons(m, kids, rest))
    requires OnlyIn(Nodes(kids), Bump(l1, m, kids), l') && Linked(Flatten(kids), l1[m].list, m, null, l')
    ensures Linked(Cons(m, Flatten(kids), rest), m, par, null, l')
  {
    LinkedAgree(rest, l1[m].next, par, null, l1, l');
  }

  lemma FinishGrown(m: Menu, kids: Forest, l: State, l1: State, l': State, x: Scope)
    requires m in l1 && m in l' && Grown(kids, l, l1, x) && Placed(m, Tops(kids), l, l1, x)
    requires SameConditions({m} + Nodes(kids), l1, l') && SameBelow(Nodes(kids), l1, l') && l'[m].below == kids
    ensures Grown(Cons(m, Flatten(kids), Nil), l, l', x) && Placed(m, Tops(kids), l, l', x)
  {
    GrownAgree(kids, l, l1, l, l', x);
    TopsIn(kids);
    PlacedAgree(m, Tops(kids), l, l1, l, l', x);
    FlattenNodes(kids);
  }

  /** menu_finalize: `f` describes `m` and the entries after it on its level. */
  method MenuFinalize(m: Menu, modules: Symbol, ghost f: Forest, ghost s: set<Menu>, ghost x: Scope)
      returns (ghost g: Forest, ghost taken: Forest, ghost kids: Forest)
    requires Input(m, f, s, Snap(s), x) && x.modules == modules
    modifies Nodes(f)
    ensures Finalized(m, f, g, taken, kids, old(Snap(s)), Snap(s), x)
    decreases Count(f), 1
  {
    ghost var l0, rest := Snap(s), f.rest;
    if m.list != null {
      kids := FinalizeKids(m, modules, f, s, x);
      taken := Cons(m, f.kids, Nil);
    } else if m.sym.Some? {
      kids, rest, taken := TakeFollowers(m, modules, f, s, x);
    } else {
      kids, taken := Nil, Cons(m, Nil, Nil);
      LoneReady(m, f, s, l0, x);
    }
    ghost var l1 := Snap(s);
    NodesOfTaken(m, f, kids, rest, taken, l0, l1, x);
    FlattenEntry(m, kids, s);
    Finish(m, f, kids, rest, taken, l0, l1, Snap(s), x);
    g := Cons(m, Flatten(kids), rest);
  }

  /** The last steps of one call: the visit is counted and promptless children are flattened. */
  method FlattenEntry(m: Menu, ghost kids: Forest, ghost s: set<Menu>)
    requires Linked(kids, m.list, m, null, Snap(s)) && Distinct(kids) && m !in Nodes(kids) && m in s && Nodes(kids) <= s
    modifies {m} + Nodes(kids)
    ensures OnlyIn(Nodes(kids), Bump(old(Snap(s)), m, kids), Snap(s))
    ensures Linked(Flatten(kids), old(m.list), m, null, Snap(s))
    ensures SameConditions(Nodes(kids), old(Snap(s)), Snap(s))
    ensures SameBelow(Nodes(kids), old(Snap(s)), Snap(s))
    ensures forall n :: n in Nodes(kids) && n in old(Snap(s)) ==> Snap(s)[n].visits == old(Snap(s))[n].visits
  {
    ghost var l := Snap(s);
    CountVisit(m, kids, s, l);
    LinkedAgree(kids, l[m].list, m, null, l, Snap(s));
    FlattenList(m, kids, s);
  }

  lemma EmptyLevel(f: Forest, par: Menu, l: State)
    requires Linked(f, null, par, null, l)
    ensures f == Nil
  {
  }

  lemma LoneReady(m: Menu, f: Forest, s: set<Menu>, l: State, x: Scope)
    requires Input(m, f, s, l, x) && l[m].list == null && m.sym == None
    ensures Ready(m, f, Nil, f.rest, Cons(m, Nil, Nil), l, l, x)
  {
    EmptyLevel(f.kids, m, l);
    AppendFacts(Cons(m, Nil, Nil), f.rest);
  }

  lemma NodesOfTaken(m: Menu, f: Forest, kids: Forest, rest: Forest, taken: Forest, l: State, l': State, x: Scope)
    requires Ready(m, f, kids, rest, taken, l, l', x)
    ensures Nodes(kids) <= Nodes(f) && m in Nodes(f) && m !in Nodes(kids) && Distinct(kids)
    ensures Linked(kids, l'[m].list, m, null, l')
  {
    AppendFacts(taken, rest);
  }

  lemma {:induction false} TopCleanStep(taken: Forest, rest: Forest, l: State, l': State)
    requires TopClean(Append(taken, rest), l) && OnlyIn(Nodes(taken), l, l') && Nodes(taken) !! Nodes(rest)
    ensures TopClean(rest, l')
  {
    TopCleanTail(taken, rest, l);
    TopCleanAgree(rest, l, l');
  }

  lemma {:induction false} TopCleanTail(a: Forest, b: Forest, l: State)
    requires TopClean(Append(a, b), l)
    ensures TopClean(b, l)
  {
    if a.Cons? { TopCleanTail(a.rest, b, l); }
  }

  lemma {:induction false} TopCleanAgree(f: Forest, l: State, l': State)
    requires TopClean(f, l) && SameConditions(Nodes(f), l, l')
    ensures TopClean(f, l')
  {
    if f.Cons? { TopCleanAgree(f.rest, l, l'); }
  }

  lemma {:induction false} LevelClean(f: Forest, up: Option<Expr>, l0: State, l: State, x: Scope)
    requires LevelInherited(f, up, l0, l, x)
    ensures TopClean(f, l)
  {
    if f.Cons? { LevelClean(f.rest, up, l0, l, x); }
  }

  ghost predicate KidsApart(f: Forest, t: set<Menu>) {
    f.Cons? ==> Nodes(f.kids) !! t && KidsApart(f.rest, t)
  }

  lemma {:induction false} TopsApart(f: Forest, t: set<Menu>)
    requires Distinct(f) && t !! Nodes(f)
    ensures KidsApart(f, t + Tops(f))
  {
    if f.Cons? {
      TopsIn(f.rest);
      assert t + Tops(f) == (t + {f.node}) + Tops(f.rest);
      TopsApart(f.rest, t + {f.node});
    }
  }

  /** The conditions of one level from `l0` to `l1`, then everything below it from `l1` to `l`. */
  lemma {:induction false} InheritedCompose(f: Forest, t: set<Menu>, up: Option<Expr>, l0: State, l1: State, l: State,
                                            x: Scope)
    requires LevelInherited(f, up, l0, l1, x) && BelowInherited(f, l1, l, x)
    requires OnlyIn(t, l0, l1) && KidsApart(f, t)
    ensures Inherited(f, up, l0, l, x)
  {
    if f.Cons? {
      InheritedAgree(f.kids, l[f.node].dep, l1, l, l0, l, x);
      InheritedCompose(f.rest, t, up, l0, l1, l, x);
    }
  }

  lemma KidsReady(m: Menu, f: Forest, tk: Forest, kids: Forest, l0: State, l1: State, l: State, x: Scope)
    requires f.Cons? && f.node == m && m in l0 && Linked(f, m, l0[m].parent, null, l0) && Distinct(f) && f.kids.Cons?
    requires LevelInherited(f.kids, l0[m].dep, l0, l1, x) && OnlyIn(Tops(f.kids), l0, l1)
    requires forall n :: n in l0 ==> n in l1 && l1[n].visits == l0[n].visits && l1[n].list == l0[n].list
    requires Progress(f.kids, tk, kids, Nil, l0[m].list, m, null, m, l1, l, x)
    ensures Ready(m, f, kids, f.rest, Cons(m, f.kids, Nil), l0, l, x)
  {
    var k := f.kids;
    AppendFacts(tk, Nil);
    AppendFacts(kids, Nil);
    TopsIn(k);
    KidsShape(m, k, kids, f.rest);
    LinkedAgree(f.rest, l0[m].next, l0[m].parent, null, l0, l);
    assert l[m] == l0[m];
    KidsConditions(k, kids, l0[m].dep, l0, l1, l, x);
  }

  lemma KidsShape(m: Menu, k: Forest, kids: Forest, rest: Forest)
    requires Distinct(Cons(m, k, rest)) && Distinct(kids) && Pre(kids) == Pre(k) && Nodes(kids) == Nodes(k)
    ensures Cons(m, k, rest) == Append(Cons(m, k, Nil), rest) && Distinct(Cons(m, kids, rest))
    ensures Pre(Cons(m, kids, Nil)) == Pre(Cons(m, k, Nil)) && Nodes(Cons(m, kids, Nil)) == Nodes(Cons(m, k, Nil))
  {
  }

  lemma KidsConditions(k: Forest, kids: Forest, up: Option<Expr>, l0: State, l1: State, l: State, x: Scope)
    requires LevelInherited(k, up, l0, l1, x) && BelowInherited(k, l1, l, x) && Distinct(k) && OnlyIn(Tops(k), l0, l1)
    requires Grown(kids, l1, l, x) && Tops(kids) <= Tops(k) && SameLists(Nodes(kids), l1, l0)
    ensures Inherited(k, up, l0, l, x) && Grown(kids, l0, l, x) && AllWithin(up, Tops(kids), l, x)
  {
    TopsApart(k, {});
    assert {} + Tops(k) == Tops(k);
    InheritedCompose(k, Tops(k), up, l0, l1, l, x);
    GrownAgree(kids, l1, l, l0, l, x);
    KidsWithin(k, kids, up, l0, l1, l, x);
  }

  lemma KidsWithin(k: Forest, kids: Forest, up: Option<Expr>, l0: State, l1: State, l: State, x: Scope)
    requires LevelInherited(k, up, l0, l1, x) && BelowInherited(k, l1, l, x) && Tops(kids) <= Tops(k)
    ensures AllWithin(up, Tops(kids), l, x)
  {
    LevelWithin(k, up, l0, l1, x);
    BelowSame(k, l1, l, x);
    assert forall c, v :: c in Tops(k) ==> (Shown(c, l, v) <==> Shown(c, l1, v));
  }

  lemma {:induction false} LevelWithin(f: Forest, up: Option<Expr>, l0: State, l: State, x: Scope)
    requires LevelInherited(f, up, l0, l, x)
    ensures AllWithin(up, Tops(f), l, x)
  {
    if f.Cons? {
      LevelWithin(f.rest, up, l0, l, x);
      var n := f.node;
      forall v: Valuation | x.Knows(v) && Shown(n, l, v)
        ensures ValueOpt(up, v) != NO
      {
        assert ValueOpt(l[n].dep, v) == TriAnd(ValueOpt(up, v), ModuleOpt(l0[n].dep, x.modules, v));
      }
    }
  }

  /** The next entry of a walk is ready to be finalized. */
  lemma ProgressInput(f0: Forest, tk: Forest, done: Forest, todo: Forest, head: Menu?, dpar: Menu?, cur: Menu,
                      tpar: Menu?, s: set<Menu>, l0: State, l: State, x: Scope)
    requires Progress(f0, tk, done, todo, head, dpar, cur, tpar, l0, l, x) && TopClean(todo, l)
    requires Nodes(f0) <= s && l.Keys == s
    ensures Input(cur, todo, s, l, x) && l[cur].parent == tpar
    ensures Nodes(todo) <= Nodes(f0) && Count(todo) <= Count(f0)
  {
    AppendFacts(done, todo);
    AppendFacts(tk, todo);
    AppendCount(tk, todo);
  }

  /** What is left after it. */
  lemma ProgressRest(todo: Forest, g: Forest, taken: Forest, kids: Forest, cur: Menu, l: State, l': State, x: Scope)
    requires Finalized(cur, todo, g, taken, kids, l, l', x) && TopClean(todo, l) && Distinct(todo)
    ensures TopClean(g.rest, l') && Count(g.rest) < Count(todo) && l'[cur].parent == l[cur].parent
    ensures Nodes(g.rest) !! Nodes(taken) && Nodes(todo) == Nodes(taken) + Nodes(g.rest)
  {
    AppendFacts(taken, g.rest);
    AppendCount(taken, g.rest);
    TopCleanStep(taken, g.rest, l, l');
  }

  /** The branch for an entry with children of its own. */
  method FinalizeKids(m: Menu, modules: Symbol, ghost f: Forest, ghost s: set<Menu>, ghost x: Scope)
        returns (ghost kids: Forest)
    requires Input(m, f, s, Snap(s), x) && x.modules == modules && m.list != null
    modifies Nodes(f.kids)
    ensures Ready(m, f, kids, f.rest, Cons(m, f.kids, Nil), old(Snap(s)), Snap(s), x)
    decreases Count(f), 0
  {
    ghost var l0, k := Snap(s), f.kids;
    InheritList(m, modules, k, s, x);
    ghost var l1 := Snap(s);
    LevelClean(k, m.dep, l0, l1, x);
    LinkedAgree(k, m.list, m, null, l0, l1);
    ghost var tk;
    kids, tk := FinalizeLevel(m, modules, k, s, x);
    KidsReady(m, f, tk, kids, l0, l1, Snap(s), x);
  }

  /** Finalizes the next entry of a level; `dpar` is where it is hooked afterwards. */
  method FinalizeNext(cur: Menu, modules: Symbol, ghost f0: Forest, ghost tk: Forest, ghost done: Forest,
                      ghost todo: Forest, ghost head: Menu?, ghost dpar: Menu?, ghost tpar: Menu?,
                      ghost s: set<Menu>, ghost l0: State, ghost x: Scope)
      returns (ghost g: Forest, ghost t: Forest)
    requires Progress(f0, tk, done, todo, head, dpar, cur, tpar, l0, Snap(s), x) && TopClean(todo, Snap(s))
    requires Nodes(f0) <= s && x.modules == modules
    modifies Nodes(todo)
    ensures cur in s && cur in Nodes(todo) && cur.parent == tpar && g.Cons? && Count(g.rest) < Count(todo)
    ensures var l := SetParent(Snap(s), cur, dpar);
      && Progress(f0, Append(tk, t), Append(done, Cons(cur, g.kids, Nil)), g.rest, head, dpar, cur.next, tpar, l0, l, x)
      && TopClean(g.rest, l)
    decreases Count(todo), 2
  {
    ghost var l := Snap(s);
    ProgressInput(f0, tk, done, todo, head, dpar, cur, tpar, s, l0, l, x);
    ghost var below;
    g, t, below := MenuFinalize(cur, modules, todo, s, x);
    ghost var l' := Snap(s);
    ProgressRest(todo, g, t, below, cur, l, l', x);
    ProgressStep(f0, tk, done, todo, head, dpar, cur, tpar, g, t, below, l0, l, l', x);
    TopCleanAgree(g.rest, l', SetParent(l', cur, dpar));
  }

  method FinalizeLevel(m: Menu, modules: Symbol, ghost k: Forest, ghost s: set<Menu>, ghost x: Scope)
      returns (ghost kids: Forest, ghost tk: Forest)
    requires Linked(k, m.list, m, null, Snap(s)) && Distinct(k) && Nodes(k) <= s && m !in Nodes(k)
    requires Scoped(Snap(s), x) && TopClean(k, Snap(s)) && x.modules == modules
    modifies Nodes(k)
    ensures Progress(k, tk, kids, Nil, m.list, m, null, m, old(Snap(s)), Snap(s), x)
    decreases Count(k), 3
  {
    ghost var l0 := Snap(s);
    var menu := m.list;
    ghost var todo := k;
    kids, tk := Nil, Nil;
    while menu != null
      invariant Progress(k, tk, kids, todo, m.list, m, menu, m, l0, Snap(s), x) && TopClean(todo, Snap(s))
      invariant Nodes(todo) <= Nodes(k) && Count(todo) <= Count(k)
      decreases Count(todo)
    {
      ghost var g, t := FinalizeNext(menu, modules, k, tk, kids, todo, m.list, m, m, s, l0, x);
      SameParent(Snap(s), menu, m);
      kids, todo, tk := Append(kids, Cons(menu, g.kids, Nil)), g.rest, Append(tk, t);
      ProgressNodes(k, tk, kids, todo);
      menu := menu.next;
    }
  }

  lemma ProgressNodes(f0: Forest, tk: Forest, done: Forest, todo: Forest)
    requires f0 == Append(tk, todo)
    ensures Nodes(todo) <= Nodes(f0) && Count(todo) <= Count(f0)
  {
    AppendFacts(tk, todo);
    AppendCount(tk, todo);
  }

  /** Walking over the followers: besides the progress made, each entry now below `m` belongs there. */
  ghost predicate Taking(m: Menu, f: Forest, tk: Forest, kids: Forest, todo: Forest, cur: Menu?,
                         l0: State, l: State, x: Scope) {
    && m in l0 && m.sym.Some? && f.Cons?
    && Progress(f.rest, tk, kids, todo, l0[m].next, m, cur, l0[m].parent, l0, l, x)
    && TopClean(todo, l) && AllTaken(m, Tops(kids), l0, x)
  }

  /** The branch for a symbol without children: finalizes the followers that belong below it and hooks them there. */
  method TakeFollowers(m: Menu, modules: Symbol, ghost f: Forest, ghost s: set<Menu>, ghost x: Scope)
      returns (ghost kids: Forest, ghost rest: Forest, ghost taken: Forest)
    requires Input(m, f, s, Snap(s), x) && x.modules == modules && m.list == null && m.sym.Some?
    modifies Nodes(f)
    ensures Ready(m, f, kids, rest, taken, old(Snap(s)), Snap(s), x)
    decreases Count(f), 0
  {
    ghost var l0 := Snap(s);
    EmptyLevel(f.kids, m, l0);
    var last; ghost var before, under, tk, end;
    last, kids, rest, tk, before, under, end := FinalizeFollowers(m, modules, f, s, x);
    taken := Cons(m, Nil, tk);
    ghost var l := Snap(s);
    FollowersApart(m, f, tk, kids, rest, end, l0, l, x);
    if last == null {
      HookNone(m, f, tk, rest, end, l0, l, x);
    } else {
      Hook(m, f, tk, kids, rest, before, last, under, end, l0, l, x);
      AppendFacts(before, Cons(last, under, Nil));
      var first, after := m.next, last.next;
      AssignList(m, first, s, l);
      AssignNext(m, after, s, SetList(l, m, first));
      AssignNext(last, null, s, SetNext(SetList(l, m, first), m, after));
    }
  }

  lemma FollowersApart(m: Menu, f: Forest, tk: Forest, kids: Forest, rest: Forest, after: Menu?, l0: State, l: State,
                       x: Scope)
    requires Taken(m, f, tk, kids, rest, after, l0, l, x)
    ensures m !in Nodes(kids) && m !in Nodes(rest) && Nodes(kids) !! Nodes(rest) && Distinct(kids) && Distinct(rest)
    ensures Nodes(kids) == Nodes(tk) && Nodes(f) == {m} + Nodes(kids) + Nodes(rest)
    ensures m in l && l[m] == l0[m]
  {
    AppendFacts(kids, rest);
    AppendFacts(tk, rest);
  }

  /** The walk over the followers of `m` is over. */
  ghost predicate Taken(m: Menu, f: Forest, tk: Forest, kids: Forest, rest: Forest, after: Menu?, l0: State, l: State,
                        x: Scope) {
    && m in l0 && m.sym.Some? && f.Cons? && f == Cons(m, Nil, f.rest) && Distinct(f)
    && Progress(f.rest, tk, kids, rest, l0[m].next, m, after, l0[m].parent, l0, l, x)
    && AllTaken(m, Tops(kids), l0, x) && Stops(m, rest, l0)
  }

  lemma HookNone(m: Menu, f: Forest, tk: Forest, rest: Forest, after: Menu?, l0: State, l: State, x: Scope)
    requires Taken(m, f, tk, Nil, rest, after, l0, l, x) && l0[m].list == null
    ensures Ready(m, f, Nil, rest, Cons(m, Nil, tk), l0, l, x)
  {
    FollowersApart(m, f, tk, Nil, rest, after, l0, l, x);
    TakenLevel(m, f, tk, Nil, rest, after, l0, l, x);
  }

  /** The three assignments that cut the followers of `m` up to `last` off and make them its children. */
  ghost function Hooked(l: State, m: Menu, first: Menu?, after: Menu?, last: Menu): State {
    SetNext(SetNext(SetList(l, m, first), m, after), last, null)
  }

  lemma HookedFields(l: State, m: Menu, first: Menu?, after: Menu?, last: Menu)
    requires m in l && last in l && m != last
    ensures var l' := Hooked(l, m, first, after, last);
      && l'[m] == l[m].(list := first, next := after) && l'[last] == l[last].(next := null)
      && OnlyIn({m, last}, l, l')
  {
  }

  lemma HookLinks(m: Menu, par: Menu?, kids: Forest, rest: Forest, before: Forest, last: Menu, under: Forest,
                  first: Menu?, after: Menu?, l: State, l': State)
    requires Linked(kids, first, m, after, l) && Linked(rest, after, par, null, l)
    requires kids == Append(before, Cons(last, under, Nil)) && Distinct(kids) && Nodes(kids) !! Nodes(rest)
    requires m in l && m !in Nodes(kids) && m !in Nodes(rest) && l[m].parent == par
    requires last in l ==> l' == Hooked(l, m, first, after, last)
    ensures last in l && last != m && last in Nodes(kids) && l[last].next == after
    ensures Linked(Cons(m, kids, rest), m, par, null, l')
  {
    var here := Cons(last, under, Nil);
    AppendFacts(before, here);
    LinkedSplit(before, here, first, m, after, l);
    HookedFields(l, m, first, after, last);
    LinkedAgree(before, first, m, last, l, l');
    LinkedAgree(under, l[last].list, last, null, l, l');
    LinkedAgree(rest, after, par, null, l, l');
    LinkedAppend(before, here, first, m, last, null, l');
  }

  lemma Hook(m: Menu, f: Forest, tk: Forest, kids: Forest, rest: Forest, before: Forest, last: Menu, under: Forest,
             after: Menu?, l0: State, l: State, x: Scope)
    requires Taken(m, f, tk, kids, rest, after, l0, l, x) && l0[m].list == null
    requires kids == Append(before, Cons(last, under, Nil))
    ensures last in l && last != m && last in Nodes(kids) && l[last].next == after && l[m] == l0[m]
    ensures Ready(m, f, kids, rest, Cons(m, Nil, tk), l0, Hooked(l, m, l[m].next, after, last), x)
  {
    FollowersApart(m, f, tk, kids, rest, after, l0, l, x);
    HookShape(m, tk, kids, rest);
    var l' := Hooked(l, m, l[m].next, after, last);
    HookLinks(m, l[m].parent, kids, rest, before, last, under, l[m].next, after, l, l');
    HookedFields(l, m, l[m].next, after, last);
    HookConditions(m, tk, last, l0, l, l', x);
    TakenLevel(m, f, tk, kids, rest, after, l0, l, x);
    HookGrown(m, kids, last, l0, l, l', x);
  }

  lemma HookGrown(m: Menu, kids: Forest, last: Menu, l0: State, l: State, l': State, x: Scope)
    requires m in l && last in l && Grown(kids, l0, l, x) && Placed(m, Tops(kids), l0, l, x)
    requires OnlyIn({m, last}, l, l') && l'[last] == l[last].(next := null)
    requires l'[m].dep == l[m].dep && l'[m].vis == l[m].vis && l'[m].below == l[m].below
    ensures m in l' && Grown(kids, l0, l', x) && Placed(m, Tops(kids), l0, l', x)
  {
    GrownAgree(kids, l0, l, l0, l', x);
    TopsIn(kids);
    PlacedAgree(m, Tops(kids), l0, l, l0, l', x);
  }

  lemma {:induction false} BelowSame(f: Forest, l0: State, l: State, x: Scope)
    requires BelowInherited(f, l0, l, x)
    ensures SameConditions(Tops(f), l0, l)
  {
    if f.Cons? { BelowSame(f.rest, l0, l, x); }
  }

  lemma TakenLevel(m: Menu, f: Forest, tk: Forest, kids: Forest, rest: Forest, after: Menu?, l0: State, l: State,
                       x: Scope)
    requires Taken(m, f, tk, kids, rest, after, l0, l, x) && l0[m].list == null
    ensures Placed(m, Tops(kids), l0, l, x)
  {
    FollowersApart(m, f, tk, kids, rest, after, l0, l, x);
    BelowSame(tk, l0, l, x);
    assert Placed(m, Tops(kids), l0, l0, x);
    PlacedAgree(m, Tops(kids), l0, l0, l0, l, x);
  }

  lemma HookShape(m: Menu, tk: Forest, kids: Forest, rest: Forest)
    requires Distinct(Cons(m, Nil, Append(tk, rest))) && Distinct(Append(kids, rest))
    requires Pre(kids) == Pre(tk) && Nodes(kids) == Nodes(tk)
    ensures Cons(m, Nil, Append(tk, rest)) == Append(Cons(m, Nil, tk), rest) && Distinct(Cons(m, kids, rest))
    ensures Pre(Cons(m, kids, Nil)) == Pre(Cons(m, Nil, tk)) && Nodes(Cons(m, kids, Nil)) == Nodes(Cons(m, Nil, tk))
  {
    AppendFacts(kids, rest);
    AppendFacts(tk, rest);
    assert Pre(Cons(m, kids, Nil)) == [m] + Pre(kids) + [] && Pre(Cons(m, Nil, tk)) == [m] + [] + Pre(tk);
  }

  lemma HookConditions(m: Menu, tk: Forest, last: Menu, l0: State, l: State, l': State, x: Scope)
    requires m in l0 && m in l && l[m] == l0[m] && last in l && last != m && last in Nodes(tk) && m !in Nodes(tk)
    requires OnlyIn(Nodes(tk), l0, l) && Visited(Nodes(tk), l0, l) && BelowInherited(tk, l0, l, x) && Scoped(l, x)
    requires OnlyIn({m, last}, l, l') && l'[last] == l[last].(next := null)
    requires l'[m].dep == l[m].dep && l'[m].vis == l[m].vis && l'[m].visits == l[m].visits
    ensures OnlyIn({m} + Nodes(tk), l0, l') && Visited(Nodes(tk), l0, l')
    ensures BelowInherited(Cons(m, Nil, tk), l0, l', x) && Scoped(l', x)
  {
    assert SameConditions(l.Keys, l, l');
    BelowAgree(tk, l0, l, l0, l', x);
    ScopedLinks(l, l', x);
  }

  lemma ScopedLinks(l: State, l': State, x: Scope)
    requires Scoped(l, x) && l'.Keys == l.Keys && SameConditions(l.Keys, l, l')
    ensures Scoped(l', x)
  {
  }

  lemma TakingHead(m: Menu, f: Forest, tk: Forest, kids: Forest, rest: Forest, cur: Menu, s: set<Menu>,
                   l0: State, l: State, x: Scope)
    requires Taking(m, f, tk, kids, rest, cur, l0, l, x) && Input(m, f, s, l0, x)
    ensures rest.Cons? && rest.node == cur && cur in l && cur in l0 && l[cur] == l0[cur]
    ensures m in l && l[m] == l0[m]
  {
    AppendFacts(kids, rest);
    AppendFacts(tk, rest);
  }

  lemma TakingStart(m: Menu, f: Forest, s: set<Menu>, l: State, x: Scope)
    requires Input(m, f, s, l, x) && m.sym.Some?
    ensures Taking(m, f, Nil, Nil, f.rest, l[m].next, l, l, x)
    ensures x.Covers(PromptCond(m, l[m])) && Clean(PromptCond(m, l[m]))
  {
  }

  lemma TakingEnd(m: Menu, f: Forest, tk: Forest, kids: Forest, rest: Forest, cur: Menu?, s: set<Menu>,
                  l0: State, l: State, x: Scope)
    requires Input(m, f, s, l0, x) && f.kids == Nil && Taking(m, f, tk, kids, rest, cur, l0, l, x)
    requires cur == null || Stops(m, rest, l0)
    ensures Taken(m, f, tk, kids, rest, cur, l0, l, x)
  {
  }

  lemma TakingStep(m: Menu, f: Forest, tk: Forest, kids: Forest, rest: Forest, cur: Menu, next: Menu?, g: Forest,
                   t: Forest, l0: State, l: State, x: Scope)
    requires m in l0 && m.sym.Some? && f.Cons? && g.Cons? && AllTaken(m, Tops(kids), l0, x)
    requires cur in l0 && TakenBy(m, cur, l0, x)
    requires Progress(f.rest, Append(tk, t), Append(kids, Cons(cur, g.kids, Nil)), g.rest, l0[m].next, m, next,
                      l0[m].parent, l0, l, x)
    requires TopClean(g.rest, l)
    ensures Taking(m, f, Append(tk, t), Append(kids, Cons(cur, g.kids, Nil)), g.rest, next, l0, l, x)
  {
    TopsAppend(kids, Cons(cur, g.kids, Nil));
  }

  /** Decides about the next follower: if it belongs below `m`, finalizes it and makes `m` its parent. */
  method TakeOne(m: Menu, cur: Menu, base: Option<Expr>, visible: Expr, modules: Symbol,
                 ghost f: Forest, ghost tk: Forest, ghost kids: Forest, ghost rest: Forest,
                 ghost s: set<Menu>, ghost l0: State, ghost x: Scope)
      returns (b: bool, ghost g: Forest, ghost t: Forest)
    requires Input(m, f, s, l0, x) && x.modules == modules && Taking(m, f, tk, kids, rest, cur, l0, Snap(s), x)
    requires base == PromptCond(m, l0[m]) && Reads(visible, base, x.tested) && Clean(base)
    modifies Nodes(rest)
    ensures !b ==> Stops(m, rest, l0) && Snap(s) == old(Snap(s))
    ensures b ==> g.Cons? && Count(g.rest) < Count(rest)
    ensures b ==> Taking(m, f, Append(tk, t), Append(kids, Cons(cur, g.kids, Nil)), g.rest, cur.next, l0, Snap(s), x)
    decreases Count(rest), 3
  {
    TakingHead(m, f, tk, kids, rest, cur, s, l0, Snap(s), x);
    TakingStart(m, f, s, l0, x);
    assert cur.ItemDep() == CondOf(cur, l0[cur]);
    ghost var d;
    b, d := BelongsBelow(m.sym.value, base, visible, cur.ItemDep(), x.tested);
    g, t := Nil, Nil;
    if b {
      g, t := FinalizeNext(cur, modules, f.rest, tk, kids, rest, l0[m].next, m, l0[m].parent, s, l0, x);
      AssignParent(cur, m, s, Snap(s));
      TakingStep(m, f, tk, kids, rest, cur, cur.next, g, t, l0, Snap(s), x);
    }
  }

  method FinalizeFollowers(m: Menu, modules: Symbol, ghost f: Forest, ghost s: set<Menu>, ghost x: Scope)
      returns (last: Menu?, ghost kids: Forest, ghost rest: Forest, ghost tk: Forest, ghost before: Forest,
      ghost under: Forest, ghost after: Menu?)
    requires Input(m, f, s, Snap(s), x) && x.modules == modules && f.kids == Nil && m.sym.Some?
    modifies Nodes(f.rest)
    ensures Taken(m, f, tk, kids, rest, after, old(Snap(s)), Snap(s), x)
    ensures kids == if last == null then Nil else Append(before, Cons(last, under, Nil))
    decreases Count(f.rest), 4
  {
    ghost var l0 := Snap(s);
    TakingStart(m, f, s, l0, x);
    var base := if m.hasPrompt then m.vis else None;
    var visible := Visible(base, x.tested);
    var menu: Menu? := m.next;
    last := null;
    tk, before, under, kids, rest := Nil, Nil, Nil, Nil, f.rest;
    while menu != null
      invariant Taking(m, f, tk, kids, rest, menu, l0, Snap(s), x)
      invariant Nodes(rest) <= Nodes(f.rest) && Count(rest) <= Count(f.rest)
      invariant kids == if last == null then Nil else Append(before, Cons(last, under, Nil))
      decreases Count(rest)
    {
      var b; ghost var g, t;
      b, g, t := TakeOne(m, menu, base, visible, modules, f, tk, kids, rest, s, l0, x);
      if !b { break; }
      before, under := kids, g.kids;
      kids, rest, tk := Append(kids, Cons(menu, g.kids, Nil)), g.rest, Append(tk, t);
      ProgressNodes(f.rest, tk, kids, rest);
      last, menu := menu, menu.next;
    }
    after := menu;
    TakingEnd(m, f, tk, kids, rest, menu, s, l0, Snap(s), x);
  }
}

/** Restructuring of the linked menu tree (menu_finalize in scripts/config/menu.c). */
module MenuTree {
  import opened Expressions

  class Menu {
    var next: Menu?
    var parent: Menu?
    var list: Menu?
    const sym: Option<Symbol>
    /** A prompt with a text. */
    const hasPrompt: bool
    var dep: Option<Expr>
    /** The condition of the prompt. */
    var vis: Option<Expr>
    /** How many times the entry has been finalized, and the level below it before that level was flattened. */
    ghost var visits: nat
    ghost var below: Forest

    constructor (sym: Option<Symbol>, hasPrompt: bool)
      ensures next == parent == list == null && dep == vis == None && visits == 0 && below == Nil
      ensures this.sym == sym && this.hasPrompt == hasPrompt
    {
      this.sym, this.hasPrompt := sym, hasPrompt;
      next, parent, list, dep, vis := null, null, null, None, None;
      visits, below := 0, Nil;
    }

    /** The condition under which the entry is looked at for a submenu. */
    function ItemDep(): Option<Expr>
      reads this
    {
      if hasPrompt then vis else dep
    }
  }

  // ---------- the tree the links describe ----------

  /** Entries at one level: the first with its children, then those after it. */
  datatype Forest = Nil | Cons(node: Menu, kids: Forest, rest: Forest)

  ghost function Nodes(f: Forest): set<Menu> {
    match f
    case Nil => {}
    case Cons(n, k, r) => {n} + Nodes(k) + Nodes(r)
  }

  /** Preorder: the order of the configuration file, and that of the walk over next and parent links. */
  ghost function Pre(f: Forest): seq<Menu> {
    match f
    case Nil => []
    case Cons(n, k, r) => [n] + Pre(k) + Pre(r)
  }

  ghost predicate Distinct(f: Forest) {
    match f
    case Nil => true
    case Cons(n, k, r) =>
      n !in Nodes(k) && n !in Nodes(r) && Nodes(k) !! Nodes(r) && Distinct(k) && Distinct(r)
  }

  datatype Fields = Fields(next: Menu?, parent: Menu?, list: Menu?, dep: Option<Expr>, vis: Option<Expr>, visits: nat,
                           below: Forest)

  type State = map<Menu, Fields>

  /** The fields of the entries in `s`, as a value. */
  ghost function Snap(s: set<Menu>): (l: State)
    reads s
    ensures l.Keys == s
  {
    map n | n in s :: Fields(n.next, n.parent, n.list, n.dep, n.vis, n.visits, n.below)
  }

  /** The links describe `f`: siblings from `head` up to `end`, every parent link at the entry above. */
  ghost predicate Linked(f: Forest, head: Menu?, par: Menu?, end: Menu?, l: State) {
    match f
    case Nil => head == end
    case Cons(n, k, r) =>
      && head == n && n in l && l[n].parent == par
      && Linked(k, l[n].list, n, null, l) && Linked(r, l[n].next, par, end, l)
  }

  ghost predicate SameLinks(a: Fields, b: Fields) {
    a.next == b.next && a.parent == b.parent && a.list == b.list
  }

  /** Only the links of its own entries matter to a forest. */
  lemma {:induction false} LinkedAgree(f: Forest, head: Menu?, par: Menu?, end: Menu?, l: State, l': State)
    requires Linked(f, head, par, end, l)
    requires forall n :: n in Nodes(f) && n in l ==> n in l' && SameLinks(l'[n], l[n])
    ensures Linked(f, head, par, end, l')
  {
    if f.Cons? {
      LinkedAgree(f.kids, l[f.node].list, f.node, null, l, l');
      LinkedAgree(f.rest, l[f.node].next, par, end, l, l');
    }
  }

  ghost function Append(a: Forest, b: Forest): Forest {
    match a
    case Nil => b
    case Cons(n, k, r) => Cons(n, k, Append(r, b))
  }

  lemma {:induction false} AppendFacts(a: Forest, b: Forest)
    ensures Pre(Append(a, b)) == Pre(a) + Pre(b)
    ensures Nodes(Append(a, b)) == Nodes(a) + Nodes(b)
    ensures Distinct(Append(a, b)) <==> Distinct(a) && Distinct(b) && Nodes(a) !! Nodes(b)
    ensures Append(a, Nil) == a
  {
    if a.Cons? { AppendFacts(a.rest, b); }
  }

  lemma {:induction false} AppendAssoc(a: Forest, b: Forest, c: Forest)
    ensures Append(Append(a, b), c) == Append(a, Append(b, c))
  {
    if a.Cons? { AppendAssoc(a.rest, b, c); }
  }

  lemma {:induction false} LinkedAppend(a: Forest, b: Forest, head: Menu?, par: Menu?, mid: Menu?, end: Menu?, l: State)
    requires Linked(a, head, par, mid, l) && Linked(b, mid, par, end, l)
    ensures Linked(Append(a, b), head, par, end, l)
  {
    if a.Cons? { LinkedAppend(a.rest, b, l[a.node].next, par, mid, end, l); }
  }

  lemma {:induction false} LinkedSplit(a: Forest, b: Forest, head: Menu?, par: Menu?, end: Menu?, l: State)
    requires b.Cons? && Linked(Append(a, b), head, par, end, l)
    ensures Linked(a, head, par, b.node, l) && Linked(b, b.node, par, end, l)
  {
    if a.Cons? { LinkedSplit(a.rest, b, l[a.node].next, par, end, l); }
  }

  /** The same entries in the same preorder, each once. */
  ghost predicate SameEntries(f: Forest, g: Forest) {
    Pre(g) == Pre(f) && Nodes(g) == Nodes(f) && Distinct(g)
  }

  // ---------- flattening ----------

  /** Below this level no entry without a prompt has children. */
  ghost predicate AllPrompted(f: Forest) {
    match f
    case Nil => true
    case Cons(n, k, r) => (k.Cons? ==> n.hasPrompt) && AllPrompted(k) && AllPrompted(r)
  }

  ghost predicate KidsPrompted(f: Forest) {
    match f
    case Nil => true
    case Cons(_, k, r) => AllPrompted(k) && KidsPrompted(r)
  }

  ghost function Count(f: Forest): nat {
    match f
    case Nil => 0
    case Cons(_, k, r) => 1 + Count(k) + Count(r)
  }

  lemma {:induction false} AppendCount(a: Forest, b: Forest)
    ensures Count(Append(a, b)) == Count(a) + Count(b)
    ensures AllPrompted(a) && KidsPrompted(b) ==> KidsPrompted(Append(a, b))
    ensures KidsPrompted(a) && KidsPrompted(b) ==> KidsPrompted(Append(a, b))
  {
    if a.Cons? { AppendCount(a.rest, b); }
  }

  /** Children of promptless entries move up, right after their parent. */
  ghost function Flatten(f: Forest): Forest
    decreases Count(f)
  {
    match f
    case Nil => Nil
    case Cons(n, k, r) =>
      if k.Cons? && !n.hasPrompt then AppendCount(k, r); Cons(n, Nil, Flatten(Append(k, r)))
      else Cons(n, k, Flatten(r))
  }

  lemma {:induction false} FlattenNodes(f: Forest)
    ensures Nodes(Flatten(f)) == Nodes(f) && Count(Flatten(f)) == Count(f)
    decreases Count(f)
  {
    if f.Cons? {
      AppendCount(f.kids, f.rest);
      AppendFacts(f.kids, f.rest);
      if f.kids.Cons? && !f.node.hasPrompt { FlattenNodes(Append(f.kids, f.rest)); } else { FlattenNodes(f.rest); }
    }
  }

  lemma SameUp(n: Menu, k: Forest, r: Forest, g: Forest)
    requires Distinct(Cons(n, k, r)) && SameEntries(Append(k, r), g)
    ensures SameEntries(Cons(n, k, r), Cons(n, Nil, g))
  {
    AppendFacts(k, r);
    HeadOn(n, Pre(k), Pre(r));
    assert Nodes(g) == Nodes(k) + Nodes(r) && Distinct(Cons(n, Nil, g));
  }

  lemma HeadOn(n: Menu, p: seq<Menu>, q: seq<Menu>)
    ensures [n] + p + q == [n] + [] + (p + q)
  {
  }

  lemma SameRest(n: Menu, k: Forest, r: Forest, g: Forest)
    requires Distinct(Cons(n, k, r)) && SameEntries(r, g)
    ensures SameEntries(Cons(n, k, r), Cons(n, k, g))
  {
  }

  lemma {:induction false} FlattenFacts(f: Forest)
    requires Distinct(f) && KidsPrompted(f)
    ensures SameEntries(f, Flatten(f)) && AllPrompted(Flatten(f))
    decreases Count(f)
  {
    match f {
      case Nil =>
      case Cons(n, k, r) =>
        if k.Cons? && !n.hasPrompt {
          AppendCount(k, r);
          AppendFacts(k, r);
          FlattenFacts(Append(k, r));
          SameUp(n, k, r, Flatten(Append(k, r)));
        } else {
          FlattenFacts(r);
          SameRest(n, k, r, Flatten(r));
        }
    }
  }

  /** Half way through handing the children `k` of `menu`, from `head` on, to `m`: those up to `last` are done. */
  ghost predicate Handing(k: Forest, before: Forest, last: Menu, under: Forest, rest: Forest,
                          head: Menu?, menu: Menu, m: Menu, l: State) {
    && k == Append(before, Cons(last, under, rest)) && last in l && l[last].parent == m
    && Linked(before, head, m, last, l) && Linked(under, l[last].list, last, null, l)
    && Linked(rest, l[last].next, menu, null, l)
  }

  ghost function SetParent(l: State, n: Menu, m: Menu?): State {
    if n in l then l[n := l[n].(parent := m)] else l
  }

  ghost function SetNext(l: State, n: Menu, m: Menu?): State {
    if n in l then l[n := l[n].(next := m)] else l
  }

  ghost function SetList(l: State, n: Menu, m: Menu?): State {
    if n in l then l[n := l[n].(list := m)] else l
  }

  /** Only the entries in `t` have other links. */
  ghost predicate OnlyIn(t: set<Menu>, l: State, l': State) {
    l'.Keys == l.Keys && forall n :: n in l && n !in t ==> l'[n] == l[n]
  }

  /** `n->parent = m`, and what it does to the links of `s`; likewise for the two other fields. */
  method AssignParent(n: Menu, m: Menu?, ghost s: set<Menu>, ghost l: State)
    requires l == Snap(s)
    modifies n`parent
    ensures n.parent == m && Snap(s) == SetParent(l, n, m)
  {
    n.parent := m;
  }

  method AssignNext(n: Menu, m: Menu?, ghost s: set<Menu>, ghost l: State)
    requires l == Snap(s)
    modifies n`next
    ensures n.next == m && Snap(s) == SetNext(l, n, m)
  {
    n.next := m;
  }

  method AssignList(n: Menu, m: Menu?, ghost s: set<Menu>, ghost l: State)
    requires l == Snap(s)
    modifies n`list
    ensures n.list == m && Snap(s) == SetList(l, n, m)
  {
    n.list := m;
  }

  lemma HandFirst(k: Forest, head: Menu?, menu: Menu, m: Menu, l: State)
    requires Linked(k, head, menu, null, l) && Distinct(k) && head != null
    ensures k.Cons? && k.node == head && head in l
    ensures Handing(k, Nil, head, k.kids, k.rest, head, menu, m, SetParent(l, head, m))
  {
    var l' := SetParent(l, head, m);
    LinkedAgree(k.kids, l[head].list, head, null, l, l');
    LinkedAgree(k.rest, l[head].next, menu, null, l, l');
  }

  lemma HandNext(k: Forest, before: Forest, last: Menu, under: Forest, rest: Forest,
                 head: Menu?, menu: Menu, m: Menu, l: State, l': State)
    requires Handing(k, before, last, under, rest, head, menu, m, l) && Distinct(k)
    requires l[last].next != null && l' == SetParent(l, l[last].next, m)
    ensures rest.Cons? && rest.node == l[last].next && rest.node in l && rest.node in Nodes(k)
    ensures Handing(k, Append(before, Cons(last, under, Nil)), rest.node, rest.kids, rest.rest, head, menu, m, l')
  {
    var here, n := Cons(last, under, Nil), rest.node;
    AppendFacts(before, Cons(last, under, rest));
    AppendFacts(before, here);
    AppendAssoc(before, here, rest);
    LinkedAppend(before, here, head, m, last, n, l);
    LinkedAgree(Append(before, here), head, m, n, l, l');
    LinkedAgree(rest.kids, l[n].list, n, null, l, l');
    LinkedAgree(rest.rest, l[n].next, menu, null, l, l');
  }

  lemma SetParentOnly(t: set<Menu>, n: Menu, m: Menu?, l0: State, l: State)
    requires OnlyIn(t, l0, l) && n in t
    ensures OnlyIn(t, l0, SetParent(l, n, m))
  {
  }

  /** Hands the children `k` of `menu` to `m` and returns the last one. */
  method Reparent(menu: Menu, m: Menu, ghost k: Forest, ghost s: set<Menu>)
      returns (last: Menu, ghost before: Forest, ghost under: Forest)
    requires menu.list != null && Linked(k, menu.list, menu, null, Snap(s)) && Distinct(k) && Nodes(k) <= s
    modifies set n | n in Nodes(k) :: n`parent
    ensures last.next == null && Handing(k, before, last, under, Nil, menu.list, menu, m, Snap(s))
    ensures OnlyIn(Nodes(k), old(Snap(s)), Snap(s))
  {
    ghost var l0, l := Snap(s), Snap(s);
    last := menu.list;
    ghost var rest;
    before, under, rest := Nil, k.kids, k.rest;
    HandFirst(k, menu.list, menu, m, l);
    AssignParent(last, m, s, l);
    l := SetParent(l, last, m);
    while last.next != null
      invariant l == Snap(s) && OnlyIn(Nodes(k), l0, l)
      invariant Handing(k, before, last, under, rest, menu.list, menu, m, l)
      decreases rest
    {
      var n := last.next;
      HandNext(k, before, last, under, rest, menu.list, menu, m, l, SetParent(l, n, m));
      AssignParent(n, m, s, l);
      SetParentOnly(Nodes(k), n, m, l0, l);
      l := SetParent(l, n, m);
      before, last, under, rest := Append(before, Cons(last, under, Nil)), n, rest.kids, rest.rest;
    }
    assert rest == Nil;
  }

  /** Moves the children `k` of `menu` up between it and its followers `r`. */
  method Splice(menu: Menu, m: Menu, ghost k: Forest, ghost r: Forest, ghost s: set<Menu>)
    requires menu.list != null && Linked(Cons(menu, k, r), menu, m, null, Snap(s)) && Distinct(Cons(menu, k, r))
    requires menu in s && Nodes(k) <= s
    modifies set n | n in Nodes(k) :: n`parent, set n | n in Nodes(k) :: n`next, menu`next, menu`list
    ensures menu.list == null && menu.parent == m && Linked(Append(k, r), menu.next, m, null, Snap(s))
    ensures OnlyIn({menu} + Nodes(k), old(Snap(s)), Snap(s))
  {
    ghost var l0 := Snap(s);
    var last; ghost var before, under;
    last, before, under := Reparent(menu, m, k, s);
    ghost var l1 := Snap(s);
    var follow, first := menu.next, menu.list;
    SpliceLinks(menu, m, k, r, before, last, under, l0, l1);
    AssignNext(last, follow, s, l1);
    ghost var l2 := SetNext(l1, last, follow);
    AssignNext(menu, first, s, l2);
    ghost var l3 := SetNext(l2, menu, first);
    AssignList(menu, null, s, l3);
  }

  /** `menu->next = menu->list` and `menu->list = NULL` once the last child points to what followed `menu`. */
  ghost function Spliced(l0: State, l1: State, last: Menu, menu: Menu): State
    requires menu in l0
  {
    SetList(SetNext(SetNext(l1, last, l0[menu].next), menu, l0[menu].list), menu, null)
  }

  lemma SplicedFields(l0: State, l1: State, last: Menu, menu: Menu, t: set<Menu>)
    requires menu in l0 && menu in l1 && last in l1 && last != menu
    requires OnlyIn(t, l0, l1) && last in t
    ensures var l := Spliced(l0, l1, last, menu);
      && OnlyIn({menu} + t, l0, l)
      && OnlyIn({menu, last}, l1, l)
      && last in l && l[last] == l1[last].(next := l0[menu].next)
  {
  }

  lemma SpliceLinks(menu: Menu, m: Menu, k: Forest, r: Forest, before: Forest, last: Menu, under: Forest,
                    l0: State, l1: State)
    requires menu in l0 && Linked(Cons(menu, k, r), menu, m, null, l0) && Distinct(Cons(menu, k, r))
    requires OnlyIn(Nodes(k), l0, l1)
    requires Handing(k, before, last, under, Nil, l0[menu].list, menu, m, l1)
    ensures last in Nodes(k) && last != menu
    ensures var l := Spliced(l0, l1, last, menu);
      Linked(Append(k, r), l0[menu].list, m, null, l) && OnlyIn({menu} + Nodes(k), l0, l)
  {
    var here := Cons(last, under, Nil);
    var l := Spliced(l0, l1, last, menu);
    AppendFacts(before, here);
    SplicedFields(l0, l1, last, menu, Nodes(k));
    AppendAssoc(before, here, r);
    assert Append(k, r) == Append(before, Cons(last, under, r));
    LinkedAgree(before, l0[menu].list, m, last, l1, l);
    LinkedAgree(under, l1[last].list, last, null, l1, l);
    LinkedAgree(r, l0[menu].next, m, null, l0, l);
    LinkedAppend(before, Cons(last, under, r), l0[menu].list, m, last, null, l);
  }

  /** The second half of menu_finalize: splices the children of promptless entries into the list of `m`. */
  method FlattenList(m: Menu, ghost f: Forest, ghost s: set<Menu>)
    requires Linked(f, m.list, m, null, Snap(s)) && Distinct(f) && m !in Nodes(f) && Nodes(f) <= s
    modifies set n | n in Nodes(f) :: n`parent, set n | n in Nodes(f) :: n`next, set n | n in Nodes(f) :: n`list
    ensures Linked(Flatten(f), m.list, m, null, Snap(s))
    ensures OnlyIn(Nodes(f), old(Snap(s)), Snap(s))
  {
    var menu := m.list;
    ghost var done, todo := Nil, f;
    ghost var l0, l := Snap(s), Snap(s);
    while menu != null
      invariant l == Snap(s) && OnlyIn(Nodes(f), l0, l)
      invariant Flattening(f, done, todo, m.list, menu, m, l)
      decreases Count(todo)
    {
      ghost var k, r := todo.kids, todo.rest;
      if menu.list != null && !menu.hasPrompt {
        AppendCount(k, r);
        AppendFacts(done, todo);
        Splice(menu, m, k, r, s);
        FlattenMoved(f, done, todo, m.list, menu, m, l, Snap(s));
        done, todo := Append(done, Cons(menu, Nil, Nil)), Append(k, r);
      } else {
        FlattenKept(f, done, todo, m.list, menu, m, l);
        done, todo := Append(done, Cons(menu, k, Nil)), r;
      }
      l := Snap(s);
      menu := menu.next;
    }
    AppendFacts(done, Nil);
  }

  /** `done` is final, `todo` starts at `cur`. */
  ghost predicate Flattening(f: Forest, done: Forest, todo: Forest, head: Menu?, cur: Menu?, m: Menu, l: State) {
    && Linked(done, head, m, cur, l) && Linked(todo, cur, m, null, l)
    && Append(done, Flatten(todo)) == Flatten(f)
    && Distinct(Append(done, todo)) && Nodes(Append(done, todo)) == Nodes(f)
  }

  lemma FlattenKept(f: Forest, done: Forest, todo: Forest, head: Menu?, cur: Menu, m: Menu, l: State)
    requires Flattening(f, done, todo, head, cur, m, l) && cur in l && (l[cur].list != null ==> cur.hasPrompt)
    ensures todo.Cons?
    ensures Flattening(f, Append(done, Cons(cur, todo.kids, Nil)), todo.rest, head, l[cur].next, m, l)
  {
    var here := Cons(cur, todo.kids, Nil);
    LinkedAppend(done, here, head, m, cur, l[cur].next, l);
    AppendAssoc(done, here, todo.rest);
    AppendAssoc(done, here, Flatten(todo.rest));
  }

  lemma FlattenMoved(f: Forest, done: Forest, todo: Forest, head: Menu?, cur: Menu, m: Menu, l: State, l': State)
    requires Flattening(f, done, todo, head, cur, m, l) && cur in l && l[cur].list != null && !cur.hasPrompt
    requires todo.Cons? && cur in l' && l'[cur].list == null && l'[cur].parent == m
    requires OnlyIn({cur} + Nodes(todo.kids), l, l')
    requires Linked(Append(todo.kids, todo.rest), l'[cur].next, m, null, l')
    ensures Flattening(f, Append(done, Cons(cur, Nil, Nil)), Append(todo.kids, todo.rest), head, l'[cur].next, m, l')
  {
    var here, more := Cons(cur, Nil, Nil), Append(todo.kids, todo.rest);
    AppendFacts(done, todo);
    AppendFacts(todo.kids, todo.rest);
    LinkedAgree(done, head, m, cur, l, l');
    LinkedAppend(done, here, head, m, cur, l'[cur].next, l');
    AppendAssoc(done, here, more);
    AppendFacts(done, Cons(cur, Nil, more));
    AppendAssoc(done, here, Flatten(more));
  }
}

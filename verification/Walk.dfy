/** The walk over the finished menu tree by next and parent links (conf_write in scripts/config/confdata.c). */
module Walk {
  import opened Expressions
  import opened Inherit
  import opened MenuTree
  import opened Finalize
  import opened Placement

  /** The entries above the current one, nearest first, each with what follows it on its level. */
  datatype Above = Root(root: Menu) | Entry(node: Menu, rest: Forest, up: Above)

  ghost function Top(a: Above): Menu {
    if a.Root? then a.root else a.node
  }

  /** The links lead back up: every entry's parent is the next one above, the root has no follower and no parent. */
  ghost predicate LinkedUp(a: Above, l: State) {
    match a
    case Root(r) => r in l && l[r].next == null && l[r].parent == null
    case Entry(n, rest, up) =>
      n in l && l[n].parent == Top(up) && Linked(rest, l[n].next, Top(up), null, l) && LinkedUp(up, l)
  }

  /** What is still to come once everything below the nearest entry above has been seen. */
  ghost function Later(a: Above): seq<Menu> {
    match a
    case Root(_) => []
    case Entry(_, rest, up) => Pre(rest) + Later(up)
  }

  ghost function LaterCount(a: Above): nat {
    match a
    case Root(_) => 0
    case Entry(_, rest, up) => Count(rest) + LaterCount(up)
  }

  /** From an entry without followers up to the nearest one above that has some. */
  method Climb(menu: Menu, ghost a: Above, ghost s: set<Menu>) returns (r: Menu?, ghost f: Forest, ghost b: Above)
    requires menu in s && menu.next == null && menu.parent == Top(a) && LinkedUp(a, Snap(s))
    ensures r == null ==> Later(a) == []
    ensures r != null ==> f.Cons? && f.node == r && Linked(f, r, Top(b), null, Snap(s)) && LinkedUp(b, Snap(s))
    ensures r != null ==> Later(a) == Pre(f) + Later(b) && Count(f) + LaterCount(b) <= LaterCount(a)
  {
    r, f, b := menu.parent, Nil, a;
    while r != null
      invariant r != null ==> r == Top(b) && LinkedUp(b, Snap(s))
      invariant r != null ==> Later(b) == Later(a) && LaterCount(b) <= LaterCount(a)
      invariant r == null ==> Later(a) == []
      decreases r != null, b
    {
      if r.next != null {
        f, b := b.rest, b.up;
        r := r.next;
        return;
      }
      r := r.parent;
      if b.Entry? {
        assert b.rest == Nil;
        b := b.up;
      }
    }
  }

  /** What is still to come at the head of `f`, and how much. */
  ghost function Ahead(menu: Menu?, f: Forest, a: Above): seq<Menu> {
    if menu == null then [] else Pre(f) + Later(a)
  }

  lemma AheadDown(log: seq<Menu>, f: Forest, a: Above)
    requires f.Cons?
    ensures log + (Pre(f) + Later(a)) == (log + [f.node]) + (Pre(f.kids) + Later(Entry(f.node, f.rest, a)))
    ensures Count(f.kids) + LaterCount(Entry(f.node, f.rest, a)) < Count(f) + LaterCount(a)
  {
    assert Later(Entry(f.node, f.rest, a)) == Pre(f.rest) + Later(a);
  }

  lemma AheadOn(log: seq<Menu>, f: Forest, a: Above)
    requires f.Cons? && f.kids == Nil
    ensures log + (Pre(f) + Later(a)) == (log + [f.node]) + (Pre(f.rest) + Later(a))
    ensures f.rest == Nil ==> log + (Pre(f) + Later(a)) == (log + [f.node]) + Later(a)
    ensures Count(f.rest) + LaterCount(a) < Count(f) + LaterCount(a)
  {
    Regroup(log, [f.node], Pre(f.rest), Later(a));
    assert Pre(f) == [f.node] + Pre(f.rest);
    if f.rest == Nil { assert Pre(f.rest) + Later(a) == Later(a); }
  }

  lemma Regroup(log: seq<Menu>, a: seq<Menu>, b: seq<Menu>, c: seq<Menu>)
    ensures log + ((a + b) + c) == (log + a) + (b + c)
  {
  }

  /** The walk stands at the head of `f`, with `a` above. */
  ghost predicate At(menu: Menu?, f: Forest, a: Above, l: State) {
    Linked(f, menu, Top(a), null, l) && LinkedUp(a, l)
  }

  lemma AtNode(menu: Menu, f: Forest, a: Above, l: State)
    requires At(menu, f, a, l)
    ensures f.Cons? && f.node == menu && menu in l && l[menu].parent == Top(a)
    ensures At(l[menu].list, f.kids, Entry(menu, f.rest, a), l) && At(l[menu].next, f.rest, a, l)
    ensures l[menu].list == null ==> f.kids == Nil
  {
    assert f.Cons?;
    assert Linked(f.kids, l[menu].list, menu, null, l);
    assert Linked(f.rest, l[menu].next, Top(a), null, l);
    assert Top(Entry(menu, f.rest, a)) == menu;
    assert f.kids.Cons? ==> f.kids.node == l[menu].list;
  }

  /** Lists the entries below `root` in the order in which conf_write meets them: the preorder. */
  method Visit(root: Menu, ghost k: Forest, ghost s: set<Menu>) returns (log: seq<Menu>)
    requires root in s && root.next == null && root.parent == null
    requires Linked(k, root.list, root, null, Snap(s))
    ensures log == Pre(k)
  {
    log := [];
    var menu := root.list;
    ghost var f, a := k, Above.Root(root);
    while menu != null
      invariant At(menu, f, a, Snap(s))
      invariant log + Ahead(menu, f, a) == Pre(k)
      decreases Count(f) + LaterCount(a)
    {
      AtNode(menu, f, a, Snap(s));
      ghost var past := log;
      log := log + [menu];
      if menu.list != null {
        AheadDown(past, f, a);
        f, a := f.kids, Entry(menu, f.rest, a);
        menu := menu.list;
      } else if menu.next != null {
        AheadOn(past, f, a);
        f := f.rest;
        menu := menu.next;
      } else {
        AheadOn(past, f, a);
        ghost var g, b;
        menu, g, b := Climb(menu, a, s);
        assert menu == null ==> log + [] == log;
        f, a := if menu == null then Nil else g, if menu == null then a else b;
      }
    }
  }

  lemma {:induction false} PreNodes(f: Forest, i: nat)
    requires i < |Pre(f)|
    ensures Pre(f)[i] in Nodes(f)
  {
    var a := Pre(f.kids);
    if 0 < i <= |a| {
      PreNodes(f.kids, i - 1);
    } else if i > |a| {
      PreNodes(f.rest, i - 1 - |a|);
    }
  }

  ghost predicate Once(log: seq<Menu>) { forall i, j :: 0 <= i < j < |log| ==> log[i] != log[j] }

  lemma {:induction false} PreOnce(f: Forest)
    requires Distinct(f)
    ensures Once(Pre(f))
  {
    if f.Cons? {
      PreOnce(f.kids);
      PreOnce(f.rest);
      var a, b := Pre(f.kids), Pre(f.rest);
      forall i | 0 <= i < |a| ensures a[i] in Nodes(f.kids) { PreNodes(f.kids, i); }
      forall i | 0 <= i < |b| ensures b[i] in Nodes(f.rest) { PreNodes(f.rest, i); }
    }
  }

  lemma AppendNil(a: Forest, b: Forest)
    requires Append(a, b) == Nil
    ensures a == Nil && b == Nil
  {
  }

  /** The whole tree after finalizing its root. */
  ghost predicate Finished(root: Menu, f: Forest, g: Forest, l: State, l': State, x: Scope) {
    && g.Cons? && g.node == root && g.rest == Nil && root in l' && l'[root].next == null && l'[root].parent == null
    && Linked(g, root, null, null, l') && Linked(g.kids, l'[root].list, root, null, l') && Distinct(g)
    && Pre(g) == Pre(f) && Grown(g, l, l', x) && f.Cons? && Inherited(f.kids, l'[root].dep, l, l', x)
  }

  lemma RootFinished(root: Menu, f: Forest, g: Forest, taken: Forest, kids: Forest, l: State, l': State, x: Scope)
    requires Finalized(root, f, g, taken, kids, l, l', x) && f.Cons? && f.rest == Nil && l[root].parent == null
    ensures Finished(root, f, g, l, l', x)
  {
    AppendNil(taken.rest, g.rest);
    assert Linked(g.rest, l'[root].next, null, null, l') && Linked(g.kids, l'[root].list, root, null, l');
    assert taken == f && Pre(g) == Pre(Cons(root, g.kids, Nil));
  }

  method FinalizeRoot(root: Menu, modules: Symbol, ghost f: Forest, ghost s: set<Menu>, ghost x: Scope)
      returns (ghost g: Forest)
    requires Input(root, f, s, Snap(s), x) && x.modules == modules && f.rest == Nil && root.parent == null
    modifies Nodes(f)
    ensures Finished(root, f, g, old(Snap(s)), Snap(s), x)
    ensures forall v: Valuation :: x.Knows(v) ==> AllRight(g, old(Snap(s)), Snap(s), v)
  {
    ghost var l := Snap(s);
    ghost var taken, kids;
    g, taken, kids := MenuFinalize(root, modules, f, s, x);
    RootFinished(root, f, g, taken, kids, l, Snap(s), x);
    forall v: Valuation | x.Knows(v)
      ensures AllRight(g, l, Snap(s), v)
    {
      FinishedRight(g, l, Snap(s), x, v);
    }
  }

  /** The walk after finalizing meets every entry of the tree that was read, once, in the order it was read; and in that
      tree every automatic submenu is right. */
  method FinalizeAndVisit(root: Menu, modules: Symbol, ghost f: Forest, ghost s: set<Menu>, ghost x: Scope)
      returns (log: seq<Menu>, ghost g: Forest)
    requires Input(root, f, s, Snap(s), x) && x.modules == modules && f.rest == Nil && root.parent == null
    modifies Nodes(f)
    ensures [root] + log == Pre(f) && Once(log)
    ensures Finished(root, f, g, old(Snap(s)), Snap(s), x)
    ensures forall v: Valuation :: x.Knows(v) ==> AllRight(g, old(Snap(s)), Snap(s), v)
  {
    g := FinalizeRoot(root, modules, f, s, x);
    log := Visit(root, g.kids, s);
    PreOnce(f);
    assert Pre(g) == [root] + Pre(g.kids) + [];
    assert forall i :: 0 <= i < |log| ==> log[i] == Pre(f)[i + 1];
  }
}

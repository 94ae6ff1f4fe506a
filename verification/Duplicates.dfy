/** In-place removal of duplicate and redundant operands (expr_eliminate_dups1 and expr_eliminate_dups in
    scripts/config/expr.c). The tree being rewritten is a field, and the two `struct expr **` arguments, which
    point into that same tree, are positions in it. */
module Duplicates {
  import opened Expressions
  import opened Equality
  import opened Join
  import opened Paths
  import opened Matching

  // ---------- what a rewrite may do ----------

  /** Same meaning under every well-typed valuation that reads the constants which tristates are tested for, together
      with y, m and n, as distinct levels; no bigger; no new symbols or tests but for y, m, n; no new negations of
      anything but symbols. */
  ghost predicate Refines(e: Expr, x: Expr) {
    && Size(x) <= Size(e)
    && Symbols(x) <= Symbols(e) + LETTERS && Tested(x) <= Tested(e) + LETTERS
    && (OnlySymbolsNegated(e) ==> OnlySymbolsNegated(x))
    && forall v: Valuation :: WellTyped(v) && Unambiguous(Tested(e) + LETTERS, v) ==> Value(x, v) == Value(e, v)
  }

  lemma RefinesTrans(a: Expr, b: Expr, c: Expr)
    requires Refines(a, b) && Refines(b, c)
    ensures Refines(a, c)
  {
  }

  lemma RefinesAt(e: Expr, p: Path, x: Expr)
    requires Valid(e, p) && Refines(At(e, p), x)
    ensures Refines(e, Put(e, p, x))
  {
    PutSize(e, p, x);
    forall v: Valuation | WellTyped(v) && Unambiguous(Tested(e) + LETTERS, v)
      ensures Value(Put(e, p, x), v) == Value(e, v)
    {
      PutValue(e, p, x, v);
    }
  }

  lemma {:induction false} PutKeepsYN(e: Expr, p: Path, x: Expr)
    requires Valid(e, p) && !IsYN(At(e, p)) && (HasYN(At(e, p)) ==> HasYN(x))
    ensures HasYN(e) ==> HasYN(Put(e, p, x))
  {
    if p != [] { PutKeepsYN(Child(e, p[0]), p[1..], x); }
  }

  // ---------- nothing left to join ----------

  /** Two different operands of the group `g`, the first below `r1`, the second below `r2`. */
  predicate TwoLeaves(op: Connective, g: Expr, r1: Path, r2: Path, a: Path, b: Path) {
    IsLeaf(op, g, r1 + a) && IsLeaf(op, g, r2 + b) && r1 + a != r2 + b
  }

  /** No operand of `g` below `r1` can be joined with another one below `r2`. */
  ghost predicate NoJoin(op: Connective, g: Expr, r1: Path, r2: Path) {
    forall a: Path, b: Path :: TwoLeaves(op, g, r1, r2, a, b)
      ==> JoinOf(op, LeafAt(op, g, r1 + a), LeafAt(op, g, r2 + b)) == None
  }

  function LeafAt(op: Connective, g: Expr, p: Path): Expr
    requires IsLeaf(op, g, p)
  {
    GroupPathValid(op, g, p);
    At(g, p)
  }

  /** At every level of the AND/OR skeleton, no two operands can be joined. */
  ghost predicate Settled(e: Expr)
    decreases e, 1
  {
    e.Node? ==> NoJoin(e.op, e, [], []) && OperandsSettled(e.op, e)
  }

  ghost predicate OperandsSettled(op: Connective, e: Expr)
    decreases e, if Is(e, op) then 0 else 2
  {
    if Is(e, op) then OperandsSettled(op, e.l) && OperandsSettled(op, e.r) else Settled(e)
  }

  /** What was compared in a pass without any join: the operands pairwise, and each AND/OR operand inside. */
  ghost predicate Stuck(op: Connective, g: Expr, r1: Path, r2: Path) {
    && NoJoin(op, g, r1, r2)
    && forall a: Path, b: Path :: TwoLeaves(op, g, r1, r2, a, b) ==> Settled(LeafAt(op, g, r1 + a))
  }

  /** The effect on the group `g` of comparing its operands below `r1` with those below `r2`, `k` joins made. */
  ghost predicate Pass(op: Connective, g: Expr, r1: Path, r2: Path, x: Expr, k: nat) {
    && SameShape(op, g, x)
    && Refines(g, x)
    && (k > 0 || HasYN(g) ==> HasYN(x))
    && (k == 0 ==> x == g) && (k == 0 <==> Stuck(op, g, r1, r2))
  }

  lemma SplitPath(op: Connective, g: Expr, r: Path, a: Path)
    requires Valid(g, r) && Is(At(g, r), op) && IsLeaf(op, g, r + a)
    ensures a != [] && r + a == (r + [a[0]]) + a[1..]
  {
    assert r + [] == r;
  }

  lemma {:induction false} LeafEnds(op: Connective, g: Expr, r: Path, a: Path)
    requires Valid(g, r) && !Is(At(g, r), op) && IsLeaf(op, g, r + a)
    ensures a == [] && r + a == r
  {
    if r == [] {
      assert r + a == a;
    } else {
      assert (r + a)[0] == r[0] && (r + a)[1..] == r[1..] + a;
      LeafEnds(op, Child(g, r[0]), r[1..], a);
    }
  }

  lemma StuckFirst(op: Connective, g: Expr, r1: Path, r2: Path)
    requires Valid(g, r1) && Is(At(g, r1), op)
    ensures Stuck(op, g, r1, r2) <==> Stuck(op, g, r1 + [false], r2) && Stuck(op, g, r1 + [true], r2)
  {
    if Stuck(op, g, r1 + [false], r2) && Stuck(op, g, r1 + [true], r2) {
      forall a: Path, b: Path | TwoLeaves(op, g, r1, r2, a, b)
        ensures JoinOf(op, LeafAt(op, g, r1 + a), LeafAt(op, g, r2 + b)) == None && Settled(LeafAt(op, g, r1 + a))
      {
        SplitPath(op, g, r1, a);
        if a[0] { assert [a[0]] == [true]; } else { assert [a[0]] == [false]; }
        assert TwoLeaves(op, g, r1 + [a[0]], r2, a[1..], b);
      }
    }
    if Stuck(op, g, r1, r2) {
      StuckBelow(op, g, r1, r2, [false], []);
      StuckBelow(op, g, r1, r2, [true], []);
    }
  }

  /** What holds of two positions holds further down. */
  lemma StuckBelow(op: Connective, g: Expr, r1: Path, r2: Path, d1: Path, d2: Path)
    requires Stuck(op, g, r1, r2)
    ensures Stuck(op, g, r1 + d1, r2 + d2) && (d1 == [] ==> Stuck(op, g, r1, r2 + d2))
      && (d2 == [] ==> Stuck(op, g, r1 + d1, r2))
  {
    assert d1 == [] ==> r1 + d1 == r1;
    assert d2 == [] ==> r2 + d2 == r2;
    forall a: Path, b: Path | TwoLeaves(op, g, r1 + d1, r2 + d2, a, b)
      ensures JoinOf(op, LeafAt(op, g, (r1 + d1) + a), LeafAt(op, g, (r2 + d2) + b)) == None
      ensures Settled(LeafAt(op, g, (r1 + d1) + a))
    {
      assert (r1 + d1) + a == r1 + (d1 + a) && (r2 + d2) + b == r2 + (d2 + b);
      assert TwoLeaves(op, g, r1, r2, d1 + a, d2 + b);
    }
  }

  lemma StuckSecond(op: Connective, g: Expr, r1: Path, r2: Path)
    requires Valid(g, r2) && Is(At(g, r2), op)
    ensures Stuck(op, g, r1, r2) <==> Stuck(op, g, r1, r2 + [false]) && Stuck(op, g, r1, r2 + [true])
  {
    if Stuck(op, g, r1, r2 + [false]) && Stuck(op, g, r1, r2 + [true]) {
      forall a: Path, b: Path | TwoLeaves(op, g, r1, r2, a, b)
        ensures JoinOf(op, LeafAt(op, g, r1 + a), LeafAt(op, g, r2 + b)) == None && Settled(LeafAt(op, g, r1 + a))
      {
        SplitPath(op, g, r2, b);
        if b[0] { assert [b[0]] == [true]; } else { assert [b[0]] == [false]; }
        assert TwoLeaves(op, g, r1, r2 + [b[0]], a, b[1..]);
      }
    }
    if Stuck(op, g, r1, r2) {
      StuckBelow(op, g, r1, r2, [], [false]);
      StuckBelow(op, g, r1, r2, [], [true]);
    }
  }

  lemma StuckPair(op: Connective, g: Expr, r1: Path, r2: Path)
    requires IsLeaf(op, g, r1) && IsLeaf(op, g, r2)
    ensures Stuck(op, g, r1, r2) <==>
      (r1 != r2 ==> JoinOf(op, LeafAt(op, g, r1), LeafAt(op, g, r2)) == None && Settled(LeafAt(op, g, r1)))
  {
    GroupPathValid(op, g, r1);
    GroupPathValid(op, g, r2);
    forall a: Path, b: Path | TwoLeaves(op, g, r1, r2, a, b)
      ensures a == [] && b == [] && r1 + a == r1 && r2 + b == r2
    {
      LeafEnds(op, g, r1, a);
      LeafEnds(op, g, r2, b);
    }
    assert r1 + [] == r1 && r2 + [] == r2;
    if r1 != r2 { assert TwoLeaves(op, g, r1, r2, [], []); }
  }

  /** Both operands of a connective node on the first side (`first`) or on the second, one after the other. */
  lemma PassBoth(op: Connective, g: Expr, r1: Path, r2: Path, first: bool, x: Expr, k: nat, y: Expr, j: nat)
    requires var r := if first then r1 else r2; Valid(g, r) && Is(At(g, r), op)
    requires if first then Pass(op, g, r1 + [false], r2, x, k) && Pass(op, x, r1 + [true], r2, y, j)
             else Pass(op, g, r1, r2 + [false], x, k) && Pass(op, x, r1, r2 + [true], y, j)
    ensures Pass(op, g, r1, r2, y, k + j)
  {
    SameShapeTrans(op, g, x, y);
    RefinesTrans(g, x, y);
    if first { StuckFirst(op, g, r1, r2); } else { StuckSecond(op, g, r1, r2); }
  }

  /** Joining two operands: the first becomes the unit, the second the result. */
  lemma JoinStep(op: Connective, g: Expr, p: Path, r: Path) returns (x: Expr)
    requires IsLeaf(op, g, p) && IsLeaf(op, g, r) && p != r && Valid(g, p) && Valid(g, r)
    requires JoinOf(op, At(g, p), At(g, r)).Some?
    ensures Valid(Put(g, p, Unit(op)), r)
    ensures x == Put(Put(g, p, Unit(op)), r, JoinOf(op, At(g, p), At(g, r)).value)
    ensures SameShape(op, g, x) && Refines(g, x) && HasYN(x)
  {
    var e1, e2 := At(g, p), At(g, r);
    var j := JoinOf(op, e1, e2).value;
    JoinShape(op, e1, e2);
    PutOther(op, g, p, r, Unit(op));
    PutSize(g, p, e1);
    PutSize(g, r, e2);
    var h := Put(g, p, Unit(op));
    PutSize(g, p, Unit(op));
    PutSize(h, r, j);
    x := Put(h, r, j);
    PutLeafShape(op, g, p, Unit(op));
    SameShapePath(op, g, h, p);
    SameShapePath(op, g, h, r);
    PutAt(g, p, Unit(op));
    PutLeafShape(op, h, r, j);
    SameShapeTrans(op, g, h, x);
    PutOther(op, h, r, p, j);
    PutHasYN(x, p);
    forall v: Valuation | WellTyped(v) && Unambiguous(Tested(g) + LETTERS, v)
      ensures Value(x, v) == Value(g, v)
    {
      JoinValue(op, e1, e2, Tested(g) + LETTERS, v);
      PutTwoValue(op, g, p, r, Unit(op), j, v);
    }
  }

  lemma JoinValue(op: Connective, e1: Expr, e2: Expr, cs: set<Symbol>, v: Valuation)
    requires WellTyped(v) && Unambiguous(cs, v) && Tested(e1) + Tested(e2) <= cs
    requires JoinOf(op, e1, e2).Some?
    ensures Apply(op, Value(Unit(op), v), Value(JoinOf(op, e1, e2).value, v)) == Apply(op, Value(e1, v), Value(e2, v))
  {
    if op.AndOp? {
      JoinAndSound(e1, e2, v);
    } else {
      JoinOrSound(e1, e2, v);
    }
  }

  /** Rewriting inside one operand. */
  lemma InsideStep(op: Connective, g: Expr, p: Path, x: Expr)
    requires IsLeaf(op, g, p) && Valid(g, p) && At(g, p).Node?
    requires SameShape(At(g, p).op, At(g, p), x) && Refines(At(g, p), x) && (HasYN(At(g, p)) ==> HasYN(x))
    ensures SameShape(op, g, Put(g, p, x)) && Refines(g, Put(g, p, x))
    ensures HasYN(g) || HasYN(x) ==> HasYN(Put(g, p, x))
    ensures IsLeaf(op, Put(g, p, x), p)
  {
    PutLeafShape(op, g, p, x);
    RefinesAt(g, p, x);
    PutKeepsYN(g, p, x);
    PutAt(g, p, x);
    PutHasYN(Put(g, p, x), p);
    SameShapePath(op, g, Put(g, p, x), p);
  }

  lemma {:induction false} Leftmost(op: Connective, e: Expr) returns (p: Path)
    ensures IsLeaf(op, e, p)
  {
    p := [];
    if Is(e, op) {
      var r := Leftmost(op, e.l);
      p := [false] + r;
    }
  }

  /** A pass over the whole group without a join leaves it settled; and where it is settled, there is nothing to
      join. */
  lemma StuckSettled(e: Expr)
    requires e.Node?
    ensures Stuck(e.op, e, [], []) <==> Settled(e)
  {
    if Settled(e) {
      forall a: Path | IsLeaf(e.op, e, a) ensures Settled(LeafAt(e.op, e, a)) { SettledLeaf(e.op, e, a); }
      assert forall a: Path :: [] + a == a;
    }
    if Stuck(e.op, e, [], []) { StuckLeaves(e); }
  }

  lemma {:induction false} SettledLeaf(op: Connective, e: Expr, a: Path)
    requires OperandsSettled(op, e) && IsLeaf(op, e, a)
    ensures Settled(LeafAt(op, e, a))
    decreases |a|
  {
    if a != [] { SettledLeaf(op, Child(e, a[0]), a[1..]); }
  }

  lemma StuckLeaves(e: Expr)
    requires e.Node? && Stuck(e.op, e, [], [])
    ensures Settled(e)
  {
    forall a: Path | IsLeaf(e.op, e, a)
      ensures Settled(LeafAt(e.op, e, a))
    {
      var r := Leftmost(e.op, Child(e, !a[0]));
      var b := [!a[0]] + r;
      assert [] + a == a && [] + b == b;
      assert TwoLeaves(e.op, e, [], [], a, b);
    }
    LeavesSettled(e.op, e);
  }

  lemma {:induction false} LeavesSettled(op: Connective, e: Expr)
    requires forall a: Path :: IsLeaf(op, e, a) ==> Settled(LeafAt(op, e, a))
    ensures OperandsSettled(op, e)
    decreases e
  {
    if Is(e, op) {
      forall a: Path, right: bool | IsLeaf(op, Child(e, right), a)
        ensures Settled(LeafAt(op, Child(e, right), a))
      {
        var p := [right] + a;
        assert p[0] == right && p[1..] == a;
        assert IsLeaf(op, e, p) && LeafAt(op, e, p) == LeafAt(op, Child(e, right), a);
      }
      assert Child(e, false) == e.l && Child(e, true) == e.r;
      LeavesSettled(op, e.l);
      LeavesSettled(op, e.r);
    } else {
      assert IsLeaf(op, e, []);
    }
  }

  // ---------- no operand is too many ----------

  ghost predicate TwoOperands(op: Connective, e: Expr, a: Path, b: Path) {
    IsLeaf(op, e, a) && IsLeaf(op, e, b) && a != b
  }

  /** At every level of the AND/OR skeleton, no operand is made redundant by another one. */
  ghost predicate NoneRedundant(e: Expr)
    decreases e, 1
  {
    e.Node? ==> Irredundant(e.op, e) && OperandsIrredundant(e.op, e)
  }

  ghost predicate Irredundant(op: Connective, e: Expr) {
    forall a: Path, b: Path :: TwoOperands(op, e, a, b) ==> !Redundant(op, LeafAt(op, e, a), LeafAt(op, e, b))
  }

  ghost predicate OperandsIrredundant(op: Connective, e: Expr)
    decreases e, if Is(e, op) then 0 else 2
  {
    if Is(e, op) then OperandsIrredundant(op, e.l) && OperandsIrredundant(op, e.r) else NoneRedundant(e)
  }

  lemma {:induction false} SettledIrredundant(e: Expr)
    requires Settled(e)
    ensures NoneRedundant(e)
    decreases e, 1
  {
    if e.Node? {
      forall a: Path, b: Path | TwoOperands(e.op, e, a, b)
        ensures !Redundant(e.op, LeafAt(e.op, e, a), LeafAt(e.op, e, b))
      {
        assert [] + a == a && [] + b == b && TwoLeaves(e.op, e, [], [], a, b);
        if Redundant(e.op, LeafAt(e.op, e, a), LeafAt(e.op, e, b)) {
          RedundantJoins(e.op, LeafAt(e.op, e, a), LeafAt(e.op, e, b));
        }
      }
      OperandsSettledIrredundant(e.op, e);
    }
  }

  lemma {:induction false} OperandsSettledIrredundant(op: Connective, e: Expr)
    requires OperandsSettled(op, e)
    ensures OperandsIrredundant(op, e)
    decreases e, if Is(e, op) then 0 else 2
  {
    if Is(e, op) {
      OperandsSettledIrredundant(op, e.l);
      OperandsSettledIrredundant(op, e.r);
    } else {
      SettledIrredundant(e);
    }
  }

  /** Each operand, up to order and grouping, is there once at most, at every level. */
  ghost predicate AllOnce(e: Expr)
    decreases e, 1
  {
    e.Node? ==> (forall c :: c in Operands(e.op, e) ==> Operands(e.op, e)[c] == 1) && OperandsOnce(e.op, e)
  }

  ghost predicate OperandsOnce(op: Connective, e: Expr)
    decreases e, if Is(e, op) then 0 else 2
  {
    if Is(e, op) then OperandsOnce(op, e.l) && OperandsOnce(op, e.r) else AllOnce(e)
  }

  lemma {:induction false} OperandLeaf(op: Connective, e: Expr, c: Canon) returns (a: Path)
    requires Free(e) && !IsYN(e) && c in Operands(op, e)
    ensures IsLeaf(op, e, a) && CanonOf(LeafAt(op, e, a)) == c && Free(LeafAt(op, e, a))
  {
    a := [];
    if Is(e, op) {
      var right := c !in Operands(op, e.l);
      var b := OperandLeaf(op, Child(e, right), c);
      a := [right] + b;
      assert a[0] == right && a[1..] == b;
    }
  }

  lemma {:induction false} OnceHere(op: Connective, e: Expr)
    requires Free(e) && !IsYN(e)
    requires forall a: Path, b: Path :: TwoOperands(op, e, a, b) ==> !Eq(LeafAt(op, e, a), LeafAt(op, e, b))
    ensures forall c :: c in Operands(op, e) ==> Operands(op, e)[c] == 1
  {
    if Is(e, op) {
      forall right: bool, a: Path, b: Path | TwoOperands(op, Child(e, right), a, b)
        ensures !Eq(LeafAt(op, Child(e, right), a), LeafAt(op, Child(e, right), b))
      {
        var p, q := [right] + a, [right] + b;
        assert p[0] == right == q[0] && p[1..] == a && q[1..] == b && TwoOperands(op, e, p, q);
      }
      assert Child(e, false) == e.l && Child(e, true) == e.r;
      OnceHere(op, e.l);
      OnceHere(op, e.r);
      forall c | c in Operands(op, e.l)
        ensures c !in Operands(op, e.r)
      {
        if c in Operands(op, e.r) {
          var a := OperandLeaf(op, e.l, c);
          var b := OperandLeaf(op, e.r, c);
          var p, q := [false] + a, [true] + b;
          assert p[0] != q[0] && p[1..] == a && q[1..] == b && TwoOperands(op, e, p, q);
          EqExact(LeafAt(op, e.l, a), LeafAt(op, e.r, b));
        }
      }
    }
  }

  /** Without constant operands, what is not redundant is there once. */
  lemma {:induction false} IrredundantOnce(e: Expr)
    requires NoneRedundant(e) && Free(e)
    ensures AllOnce(e)
    decreases e, 1
  {
    if e.Node? {
      forall a: Path, b: Path | TwoOperands(e.op, e, a, b)
        ensures !Eq(LeafAt(e.op, e, a), LeafAt(e.op, e, b))
      {
        assert !Redundant(e.op, LeafAt(e.op, e, a), LeafAt(e.op, e, b));
      }
      OnceHere(e.op, e);
      OperandsIrredundantOnce(e.op, e);
    }
  }

  lemma {:induction false} OperandsIrredundantOnce(op: Connective, e: Expr)
    requires OperandsIrredundant(op, e) && Free(e)
    ensures OperandsOnce(op, e)
    decreases e, if Is(e, op) then 0 else 2
  {
    if Is(e, op) {
      OperandsIrredundantOnce(op, e.l);
      OperandsIrredundantOnce(op, e.r);
    } else {
      IrredundantOnce(e);
    }
  }

  /** With group `h` at `q` of the tree, positions of the group are positions of the tree. */
  lemma InTree(e: Expr, q: Path, h: Expr, r: Path)
    requires Valid(e, q) && Valid(h, r)
    ensures var t := Put(e, q, h);
      && Valid(t, q) && At(t, q) == h
      && Valid(t, q + r) && At(t, q + r) == At(h, r)
      && forall x :: Put(t, q + r, x) == Put(e, q, Put(h, r, x))
  {
    PutAt(e, q, h);
    AtAppend(Put(e, q, h), q, r);
  }

  /** Two operands not joined, the first already settled inside or changed inside. */
  lemma ApartPass(op: Connective, g: Expr, r1: Path, r2: Path, x: Expr, k: nat)
    requires Valid(g, r1) && Valid(g, r2) && IsLeaf(op, g, r1) && IsLeaf(op, g, r2) && r1 != r2
    requires var e := At(g, r1); if e.Node? then Pass(e.op, e, [], [], x, k) else x == e && k == 0
    ensures var h := Put(g, r1, x);
      && IsLeaf(op, h, r1) && IsLeaf(op, h, r2) && Valid(h, r1) && Valid(h, r2)
      && At(h, r1) == x && At(h, r2) == At(g, r2)
      && SameShape(op, g, h) && Refines(g, h) && (k > 0 || HasYN(g) ==> HasYN(h))
      && (JoinOf(op, x, At(g, r2)) == None ==> Pass(op, g, r1, r2, h, k))
    ensures k > 0 || JoinOf(op, x, At(g, r2)).Some? ==> !Stuck(op, g, r1, r2)
  {
    var e := At(g, r1);
    PutAt(g, r1, x);
    PutOther(op, g, r1, r2, x);
    if e.Node? {
      InsideStep(op, g, r1, x);
      StuckSettled(e);
    } else {
      SameShapeRefl(op, g);
    }
    var h := Put(g, r1, x);
    SameShapePath(op, g, h, r1);
    SameShapePath(op, g, h, r2);
    StuckPair(op, g, r1, r2);
  }

  /** The pass at the group at `q` of a whole expression, the count of joins going from `k` to `j`. */
  ghost predicate Passed(op: Connective, e: Expr, x: Expr, q: Path, r1: Path, r2: Path, k: nat, j: nat) {
    && Valid(e, q) && Valid(x, q) && x == Put(e, q, At(x, q)) && j >= k
    && Pass(op, At(e, q), r1, r2, At(x, q), j - k)
  }

  /** Two positions of a whole expression, both in the group of `op` operands at `q`. */
  ghost predicate Standing(op: Connective, e: Expr, q: Path, p1: Path, p2: Path, r1: Path, r2: Path) {
    && Valid(e, q) && p1 == q + r1 && p2 == q + r2
    && Valid(At(e, q), r1) && InGroup(op, At(e, q), r1) && Valid(At(e, q), r2) && InGroup(op, At(e, q), r2)
  }

  /** How much of the group lies below the two positions. */
  ghost function Below(op: Connective, e: Expr, q: Path, r1: Path, r2: Path): nat
    requires Standing(op, e, q, q + r1, q + r2, r1, r2)
  {
    GroupSize(op, At(At(e, q), r1)) + GroupSize(op, At(At(e, q), r2))
  }

  lemma StandingAt(op: Connective, e: Expr, q: Path, p1: Path, p2: Path, r1: Path, r2: Path)
    requires Standing(op, e, q, p1, p2, r1, r2)
    ensures Valid(e, p1) && At(e, p1) == At(At(e, q), r1) && Valid(e, p2) && At(e, p2) == At(At(e, q), r2)
  {
    AtAppend(e, q, r1);
    AtAppend(e, q, r2);
  }

  /** One step down on the first side. */
  lemma DownFirst(op: Connective, e: Expr, q: Path, p1: Path, p2: Path, r1: Path, r2: Path, right: bool)
    requires Standing(op, e, q, p1, p2, r1, r2) && Is(At(At(e, q), r1), op)
    ensures Standing(op, e, q, p1 + [right], p2, r1 + [right], r2)
    ensures Below(op, e, q, r1 + [right], r2) < Below(op, e, q, r1, r2)
  {
    assert p1 + [right] == q + (r1 + [right]);
    InGroupStep(op, At(e, q), r1, right);
  }

  /** One step down on the second side. */
  lemma DownSecond(op: Connective, e: Expr, q: Path, p1: Path, p2: Path, r1: Path, r2: Path, right: bool)
    requires Standing(op, e, q, p1, p2, r1, r2) && Is(At(At(e, q), r2), op)
    ensures Standing(op, e, q, p1, p2 + [right], r1, r2 + [right])
    ensures Below(op, e, q, r1, r2 + [right]) < Below(op, e, q, r1, r2)
  {
    assert p2 + [right] == q + (r2 + [right]);
    InGroupStep(op, At(e, q), r2, right);
  }

  /** A pass leaves both positions where they are. */
  lemma PassedStands(op: Connective, e: Expr, x: Expr, q: Path, p1: Path, p2: Path, r1: Path, r2: Path,
      d1: Path, d2: Path, k: nat, j: nat)
    requires Standing(op, e, q, p1, p2, r1, r2) && Passed(op, e, x, q, d1, d2, k, j)
    ensures Standing(op, x, q, p1, p2, r1, r2)
    ensures Below(op, x, q, r1, r2) == Below(op, e, q, r1, r2) && Size(At(x, q)) <= Size(At(e, q))
    ensures Is(At(At(x, q), r1), op) == Is(At(At(e, q), r1), op)
    ensures Is(At(At(x, q), r2), op) == Is(At(At(e, q), r2), op)
  {
    SameAfter(op, At(e, q), At(x, q), r1, r2);
  }

  lemma PassedBoth(op: Connective, e: Expr, x: Expr, y: Expr, q: Path, r1: Path, r2: Path, first: bool,
      k: nat, i: nat, j: nat)
    requires Valid(e, q)
    requires var r := if first then r1 else r2; Valid(At(e, q), r) && Is(At(At(e, q), r), op)
    requires if first then Passed(op, e, x, q, r1 + [false], r2, k, i) && Passed(op, x, y, q, r1 + [true], r2, i, j)
             else Passed(op, e, x, q, r1, r2 + [false], k, i) && Passed(op, x, y, q, r1, r2 + [true], i, j)
    ensures Passed(op, e, y, q, r1, r2, k, j)
  {
    PassBoth(op, At(e, q), r1, r2, first, At(x, q), i - k, At(y, q), j - i);
    PutAt(e, q, At(x, q));
  }

  // ---------- the in-place algorithm ----------

  class Rewriter {
    /** The expression being rewritten. */
    var root: Expr
    /** The global trans_count. */
    var transCount: nat

    constructor (e: Expr, count: nat)
      ensures root == e && transCount == count
    {
      root := e;
      transCount := count;
    }

    /** expr_eliminate_dups1: compares every operand below `p1` with every operand below `p2`. Both positions
        lie in the group of `op` operands at `q`, so a rewrite through one is seen through the other. */
    method Dups1(op: Connective, p1: Path, p2: Path, ghost q: Path, ghost r1: Path, ghost r2: Path)
      requires Standing(op, root, q, p1, p2, r1, r2)
      modifies this
      ensures Passed(op, old(root), root, q, r1, r2, old(transCount), transCount)
      decreases Size(At(root, q)), Below(op, root, q, r1, r2), 1
    {
      ghost var root0, k0 := root, transCount;
      StandingAt(op, root, q, p1, p2, r1, r2);
      var e1, e2 := At(root, p1), At(root, p2);
      if Is(e1, op) {
        DownFirst(op, root, q, p1, p2, r1, r2, false);
        Dups1(op, p1 + [false], p2, q, r1 + [false], r2);
        ghost var root1, k1 := root, transCount;
        PassedStands(op, root0, root, q, p1, p2, r1, r2, r1 + [false], r2, k0, k1);
        DownFirst(op, root, q, p1, p2, r1, r2, true);
        Dups1(op, p1 + [true], p2, q, r1 + [true], r2);
        PassedBoth(op, root0, root1, root, q, r1, r2, true, k0, k1, transCount);
      } else if Is(e2, op) {
        DownSecond(op, root, q, p1, p2, r1, r2, false);
        Dups1(op, p1, p2 + [false], q, r1, r2 + [false]);
        ghost var root1, k1 := root, transCount;
        PassedStands(op, root0, root, q, p1, p2, r1, r2, r1, r2 + [false], k0, k1);
        DownSecond(op, root, q, p1, p2, r1, r2, true);
        Dups1(op, p1, p2 + [true], q, r1, r2 + [true]);
        PassedBoth(op, root0, root1, root, q, r1, r2, false, k0, k1, transCount);
      } else {
        DupsLeaves(op, p1, p2, q, r1, r2);
      }
    }

    /** The part of expr_eliminate_dups1 that handles two operands, once both sides are walked down to them. */
    method DupsLeaves(op: Connective, p1: Path, p2: Path, ghost q: Path, ghost r1: Path, ghost r2: Path)
      requires Standing(op, root, q, p1, p2, r1, r2)
      requires IsLeaf(op, At(root, q), r1) && IsLeaf(op, At(root, q), r2)
      modifies this
      ensures Passed(op, old(root), root, q, r1, r2, old(transCount), transCount)
      decreases Size(At(root, q)), Below(op, root, q, r1, r2), 0
    {
      ghost var root0, g := root, At(root, q);
      if p1 == p2 {
        PutAt(root, q, g);
        SameShapeRefl(op, g);
        assert r1 == p1[|q|..] == r2;
        StuckPair(op, g, r1, r2);
        return;
      }
      AtAppend(root, q, r1);
      var e1 := At(root, p1);
      ghost var inner, k := e1, 0;
      PutAt(root0, q, g);
      if e1.Node? {
        PutAt(root0, p1, e1);
        PutSize(g, r1, e1);
        assert p1 == p1 + [];
        Dups1(e1.op, p1, p1, p1, [], []);
        inner, k := At(root, p1), transCount - old(transCount);
      } else {
        PutAt(g, r1, e1);
      }
      ghost var h := Put(g, r1, inner);
      ApartPass(op, g, r1, r2, inner, k);
      assert root == Put(root0, q, h);
      InTree(root0, q, h, r1);
      InTree(root0, q, h, r2);
      var tmp := JoinOf(op, At(root, p1), At(root, p2));
      if tmp.Some? {
        ghost var x := JoinStep(op, h, r1, r2);
        InTree(root0, q, Put(h, r1, Unit(op)), r2);
        root := Put(root, p1, Unit(op));
        root := Put(root, p2, tmp.value);
        transCount := transCount + 1;
        InTree(root0, q, x, []);
        SameShapeTrans(op, g, h, x);
        RefinesTrans(g, h, x);
      }
    }

    /** expr_eliminate_dups: passes over the whole expression until one makes no join. */
    method EliminateDups()
      modifies this
      ensures Refines(old(root), root) && Settled(root)
      ensures NoneRedundant(root) && (Free(root) ==> AllOnce(root))
      ensures transCount == old(transCount) && (Settled(old(root)) ==> root == old(root))
    {
      var oldCount := transCount;
      while true
        invariant Refines(old(root), root) && (Settled(old(root)) ==> root == old(root))
        decreases Size(root)
      {
        transCount := 0;
        ghost var e := root;
        if root.Node? {
          StuckSettled(e);
          Dups1(root.op, [], [], [], [], []);
        }
        if transCount == 0 { break; }
        RefinesTrans(old(root), e, root);
        EliminateYnClears(root);
        EliminateYnRefines(root);
        RefinesTrans(old(root), root, EliminateYn(root));
        root := EliminateYn(root);
      }
      transCount := oldCount;
      SettledIrredundant(root);
      if Free(root) { IrredundantOnce(root); }
    }
  }

  lemma EliminateYnRefines(e: Expr)
    ensures Refines(e, EliminateYn(e))
  {
    forall v: Valuation | WellTyped(v)
      ensures Value(EliminateYn(e), v) == Value(e, v)
    {
      EliminateYnValue(e, v);
    }
  }

  lemma SameAfter(op: Connective, g: Expr, x: Expr, r1: Path, r2: Path)
    requires SameShape(op, g, x)
    requires Valid(g, r1) && InGroup(op, g, r1) && Valid(g, r2) && InGroup(op, g, r2)
    ensures Valid(x, r1) && InGroup(op, x, r1) && Valid(x, r2) && InGroup(op, x, r2)
    ensures GroupSize(op, At(x, r1)) == GroupSize(op, At(g, r1))
    ensures GroupSize(op, At(x, r2)) == GroupSize(op, At(g, r2))
    ensures Is(At(x, r1), op) == Is(At(g, r1), op)
    ensures Is(At(x, r2), op) == Is(At(g, r2), op)
  {
    SameShapePath(op, g, x, r1);
    SameShapePath(op, g, x, r2);
    SameGroupSize(op, At(g, r1), At(x, r1));
    SameGroupSize(op, At(g, r2), At(x, r2));
  }
}
